/**
 * Tensors as sets of index labels.
 *
 * The circuit's tensors hold complex amplitudes computed by a tensor library;
 * this model keeps only which indices each tensor carries. An index has an id
 * (fresh ids are never reused), tags and a prime level. Contracting two tensors
 * sums over the indices they share, so the result carries the indices that
 * occur in exactly one of them: the symmetric difference. An SVD splits a
 * tensor's indices into a left and a right group and joins the two factors to
 * the singular values through two new indices.
 */
module Labels {

  datatype Tag = SiteInd | LinkInd | SvdU | SvdV

  datatype Index = Index(id: nat, tag: Tag, plev: nat)

  type Tensor = set<Index>

  function Prime(i: Index): Index
  {
    Index(i.id, i.tag, i.plev + 1)
  }

  /** `prime(T)`: every index of T one prime level up. */
  function PrimeSet(t: Tensor): Tensor
  {
    set x | x in t :: Prime(x)
  }

  /** `prime(T, i1, i2, ...)`: only the listed indices of T go one prime level up. */
  function PrimeOnly(t: Tensor, ks: set<Index>): Tensor
  {
    set x | x in t :: if x in ks then Prime(x) else x
  }

  /** `A * B`: shared indices are summed over and disappear. */
  function Contract(x: Tensor, y: Tensor): Tensor
  {
    (x - y) + (y - x)
  }

  datatype Factors = Factors(U: Tensor, S: Tensor, V: Tensor)

  /**
   * `svd(T, U, S, V)`. When `byU` the indices of T found in `spec` (the indices
   * given to U) go to U, otherwise those found in `spec` (given to V) go to V;
   * the rest goes to the other factor. `u` joins U to S and `v` joins S to V.
   */
  function Svd(t: Tensor, spec: Tensor, byU: bool, u: Index, v: Index): (f: Factors)
    ensures f.S == {u, v} && u in f.U && v in f.V
    ensures u != v && u !in t && v !in t ==>
              && v !in f.U && u !in f.V
              && (byU ==> f.U - {u} == t * spec)
              && (!byU ==> f.V - {v} == t * spec)
              && f.U - {u} + (f.V - {v}) == t && (f.U - {u}) * (f.V - {v}) == {}
  {
    var left := if byU then t * spec else t - spec;
    Factors(left + {u}, {u, v}, (t - left) + {v})
  }

  /** The factors of an SVD contract back to a tensor with the indices of the original one. */
  lemma SvdRecombines(t: Tensor, spec: Tensor, byU: bool, u: Index, v: Index)
    requires u != v && u !in t && v !in t
    ensures var f := Svd(t, spec, byU, u, v);
            Contract(Contract(f.U, f.S), f.V) == t && Contract(f.S, f.V) == (f.V - {v}) + {u}
  {
  }

  /** An index is in `prime(T)` exactly when it is the primed copy of an index of T. */
  lemma PrimeSetMember(t: Tensor, x: Index)
    ensures x in PrimeSet(t) <==> x.plev >= 1 && Index(x.id, x.tag, x.plev - 1) in t
  {
    if x.plev >= 1 && Index(x.id, x.tag, x.plev - 1) in t {
      assert Prime(Index(x.id, x.tag, x.plev - 1)) == x;
    }
  }

  /** Priming commutes with contraction: it is a bijection on indices. */
  lemma PrimeContract(x: Tensor, y: Tensor)
    ensures PrimeSet(Contract(x, y)) == Contract(PrimeSet(x), PrimeSet(y))
  {
    forall i ensures i in PrimeSet(Contract(x, y)) <==> i in Contract(PrimeSet(x), PrimeSet(y)) {
      PrimeSetMember(Contract(x, y), i);
      PrimeSetMember(x, i);
      PrimeSetMember(y, i);
    }
  }
}
