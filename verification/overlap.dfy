/**
 * `overlap(circuit1, op, circuit2)`: both circuits are decomposed, the second
 * one primed, and the site tensors of the first, the operator's per-site
 * tensors and the site tensors of the second are contracted site by site.
 *
 * Here only indices are tracked, so what is proved is that the reduction
 * comes out as a scalar (no index left), which is what taking its complex
 * value needs: every physical index meets its plain copy in `op[k]`, every
 * primed physical index its primed copy, and every bond its other end.
 */
module QCircuitOverlap {
  import opened Topology
  import opened Labels
  import opened NeighborLists
  import opened QCircuitState
  import opened QCircuits

  /**
   * The reduction: `M1[0]*op[0]*M2[0]`, then for each next site i,
   * `M1[i]*op[i]*ret*M2[i]`. Conjugating a tensor keeps its indices, so
   * `dag` does not show here.
   */
  function OverlapFold(M1: seq<Tensor>, op: seq<Tensor>, M2: seq<Tensor>, i: nat): (r: Tensor)
    requires i < |M1| && i < |op| && i < |M2|
    ensures forall x :: x in r ==> exists k :: 0 <= k <= i && (x in M1[k] || x in op[k] || x in M2[k])
  {
    if i == 0 then Contract(Contract(M1[0], op[0]), M2[0])
    else Contract(Contract(Contract(M1[i], op[i]), OverlapFold(M1, op, M2, i - 1)), M2[i])
  }

  /** How many of the three tensors of site k carry x. */
  function Occ(M1: seq<Tensor>, op: seq<Tensor>, M2: seq<Tensor>, k: nat, x: Index): nat
    requires k < |M1| && k < |op| && k < |M2|
  {
    Indicator(x in M1[k]) + Indicator(x in op[k]) + Indicator(x in M2[k])
  }

  /** How many of the tensors of sites 0 .. m-1 carry x. */
  function OccUpTo(M1: seq<Tensor>, op: seq<Tensor>, M2: seq<Tensor>, m: nat, x: Index): nat
    requires m <= |M1| && m <= |op| && m <= |M2|
  {
    if m == 0 then 0 else OccUpTo(M1, op, M2, m - 1, x) + Occ(M1, op, M2, m - 1, x)
  }

  /** Contraction keeps an index exactly when an odd number of the contracted tensors carry it. */
  lemma {:induction false} FoldParity(M1: seq<Tensor>, op: seq<Tensor>, M2: seq<Tensor>, i: nat, x: Index)
    requires i < |M1| && i < |op| && i < |M2|
    ensures x in OverlapFold(M1, op, M2, i) <==> OccUpTo(M1, op, M2, i + 1, x) % 2 == 1
  {
    if i > 0 {
      FoldParity(M1, op, M2, i - 1, x);
    }
  }

  /** When x is carried at sites p and q only (once each, twice when they coincide), the count up to m counts those below m. */
  lemma {:induction false} OccSum(M1: seq<Tensor>, op: seq<Tensor>, M2: seq<Tensor>, m: nat, x: Index, p: nat, q: nat)
    requires m <= |M1| && m <= |op| && m <= |M2|
    requires forall k :: 0 <= k < m ==> Occ(M1, op, M2, k, x) == Indicator(k == p) + Indicator(k == q)
    ensures OccUpTo(M1, op, M2, m, x) == Indicator(p < m) + Indicator(q < m)
  {
    if m > 0 {
      OccSum(M1, op, M2, m - 1, x, p, q);
    }
  }

  /** Every bond index is unprimed: what a circuit's own operations keep (only `primeAll` breaks it). */
  ghost predicate BondsUnprimed(st: State)
  {
    forall L :: 0 <= L < |st.a| ==> st.a[L].plev == 0
  }

  lemma InitialUnprimed(g: Graph, phys: seq<Index>, idSource: nat)
    requires WellFormed(g) && g.numBits >= 2 && (|phys| == 0 || |phys| == g.numBits)
    ensures BondsUnprimed(InitialState(g, phys, idSource))
  {
  }

  lemma ShiftedUnprimed(g: Graph, st: State, ind: nat)
    requires WellFormed(g) && Fits(g, st) && BondsUnprimed(st)
    requires ind != st.cursor.first && ind != st.cursor.second
    ensures BondsUnprimed(Shifted(g, st, ind))
  {
    if Flag(g, st.cursor, ind) != 0 {
      ShiftedUnfold(g, st, ind);
    }
  }

  lemma {:induction false} MovedUnprimed(g: Graph, st: State, route: seq<nat>)
    requires WellFormed(g) && Fits(g, st) && BondsUnprimed(st) && RouteOk(g, st, route)
    ensures BondsUnprimed(Moved(g, st, route))
  {
    if route != [] {
      var init := route[..|route| - 1];
      MovedUnprimed(g, st, init);
      ShiftedUnprimed(g, Moved(g, st, init), route[|route| - 1]);
    }
  }

  lemma DecomposedUnprimed(g: Graph, st: State)
    requires WellFormed(g) && Fits(g, st) && Adjacent(g, st.cursor) && BondsUnprimed(st)
    ensures BondsUnprimed(Decomposed(g, st))
  {
    DecomposedUnfold(g, st);
  }

  /** The members of a site tensor: the site's physical index, and the bond of every link touching the site. */
  lemma SiteTensorMembers(g: Graph, links: seq<Link>, st: State, k: nat, x: Index)
    requires GraphOf(g, links) && Fits(g, st) && k < g.numBits
    ensures x in SiteTensor(g, st.a, st.s, k) <==>
            x == st.s[k] || exists L :: 0 <= L < |st.a| && x == st.a[L] && Touches(links, L, k)
  {
    SiteTensorTouching(g, links, st.a, st.s, k);
  }

  /**
   * The states the reduction sees: the same physical indices, unique ids,
   * every site tensor its physical index and its bonds, the first state's
   * bonds unprimed, and `op[k]` the plain and primed physical index of site k.
   */
  ghost predicate Matched(g: Graph, links: seq<Link>, st1: State, op: seq<Tensor>, st2: State)
  {
    && GraphOf(g, links) && Simple(links) && Fits(g, st1) && Fits(g, st2)
    && IdsDistinct(st1) && IdsDistinct(st2) && st1.s == st2.s && BondsUnprimed(st1)
    && (forall k :: 0 <= k < g.numBits ==> st1.M[k] == SiteTensor(g, st1.a, st1.s, k))
    && (forall k :: 0 <= k < g.numBits ==> st2.M[k] == SiteTensor(g, st2.a, st2.s, k))
    && |op| == g.numBits && (forall k :: 0 <= k < g.numBits ==> op[k] == {st1.s[k], Prime(st1.s[k])})
  }

  /** A physical index is carried twice at its own site (in M1 and op) and nowhere else. */
  lemma OccPhysical(g: Graph, links: seq<Link>, st1: State, op: seq<Tensor>, st2: State, j: nat, k: nat)
    requires Matched(g, links, st1, op, st2) && j < g.numBits && k < g.numBits
    ensures Occ(st1.M, op, Primed(st2).M, k, st1.s[j]) == Indicator(k == j) + Indicator(k == j)
  {
    var x := st1.s[j];
    assert Primed(st2).M[k] == PrimeSet(st2.M[k]);
    SiteTensorMembers(g, links, st1, k, x);
    PrimeSetMember(st2.M[k], x);
    if x.plev >= 1 {
      SiteTensorMembers(g, links, st2, k, Index(x.id, x.tag, x.plev - 1));
    }
  }

  /** A primed physical index is carried twice at its own site (in op and M2) and nowhere else. */
  lemma OccPrimedPhysical(g: Graph, links: seq<Link>, st1: State, op: seq<Tensor>, st2: State, j: nat, k: nat)
    requires Matched(g, links, st1, op, st2) && j < g.numBits && k < g.numBits
    ensures Occ(st1.M, op, Primed(st2).M, k, Prime(st1.s[j])) == Indicator(k == j) + Indicator(k == j)
  {
    var x := Prime(st1.s[j]);
    assert Primed(st2).M[k] == PrimeSet(st2.M[k]);
    SiteTensorMembers(g, links, st1, k, x);
    PrimeSetMember(st2.M[k], x);
    SiteTensorMembers(g, links, st2, k, st1.s[j]);
  }

  /** A bond of the first state is carried once at each end of its link, in M1. */
  lemma OccBond(g: Graph, links: seq<Link>, st1: State, op: seq<Tensor>, st2: State, L: nat, k: nat)
    requires Matched(g, links, st1, op, st2) && L < |st1.a| && k < g.numBits
    ensures Occ(st1.M, op, Primed(st2).M, k, st1.a[L]) == Indicator(k == links[L].site1) + Indicator(k == links[L].site2)
  {
    var x := st1.a[L];
    assert Primed(st2).M[k] == PrimeSet(st2.M[k]);
    SiteTensorMembers(g, links, st1, k, x);
    PrimeSetMember(st2.M[k], x);
  }

  /** A primed bond of the second state is carried once at each end of its link, in M2. */
  lemma OccPrimedBond(g: Graph, links: seq<Link>, st1: State, op: seq<Tensor>, st2: State, L: nat, k: nat)
    requires Matched(g, links, st1, op, st2) && L < |st2.a| && k < g.numBits
    ensures Occ(st1.M, op, Primed(st2).M, k, Prime(st2.a[L])) == Indicator(k == links[L].site1) + Indicator(k == links[L].site2)
  {
    var x := Prime(st2.a[L]);
    assert Primed(st2).M[k] == PrimeSet(st2.M[k]);
    SiteTensorMembers(g, links, st1, k, x);
    PrimeSetMember(st2.M[k], x);
    SiteTensorMembers(g, links, st2, k, st2.a[L]);
  }

  /** Any other index is carried nowhere. */
  lemma OccOther(g: Graph, links: seq<Link>, st1: State, op: seq<Tensor>, st2: State, x: Index, k: nat)
    requires Matched(g, links, st1, op, st2) && k < g.numBits
    requires forall j :: 0 <= j < g.numBits ==> x != st1.s[j] && x != Prime(st1.s[j])
    requires forall L :: 0 <= L < |st1.a| ==> x != st1.a[L]
    requires forall L :: 0 <= L < |st2.a| ==> x != Prime(st2.a[L])
    ensures Occ(st1.M, op, Primed(st2).M, k, x) == 0
  {
    assert Primed(st2).M[k] == PrimeSet(st2.M[k]);
    SiteTensorMembers(g, links, st1, k, x);
    PrimeSetMember(st2.M[k], x);
    if x.plev >= 1 {
      var y := Index(x.id, x.tag, x.plev - 1);
      SiteTensorMembers(g, links, st2, k, y);
      assert x == Prime(y);
    }
  }

  /** A physical index is carried twice, at its own site, in M1 and in op. */
  lemma PhysicalEven(g: Graph, links: seq<Link>, st1: State, op: seq<Tensor>, st2: State, j: nat)
    requires Matched(g, links, st1, op, st2) && j < |op|
    ensures OccUpTo(st1.M, op, Primed(st2).M, |op|, st1.s[j]) == 2
  {
    forall k | 0 <= k < |op| ensures Occ(st1.M, op, Primed(st2).M, k, st1.s[j]) == Indicator(k == j) + Indicator(k == j) {
      OccPhysical(g, links, st1, op, st2, j, k);
    }
    OccSum(st1.M, op, Primed(st2).M, |op|, st1.s[j], j, j);
  }

  /** A primed physical index is carried twice, at its own site, in op and in M2. */
  lemma PrimedPhysicalEven(g: Graph, links: seq<Link>, st1: State, op: seq<Tensor>, st2: State, j: nat)
    requires Matched(g, links, st1, op, st2) && j < |op|
    ensures OccUpTo(st1.M, op, Primed(st2).M, |op|, Prime(st1.s[j])) == 2
  {
    forall k | 0 <= k < |op| ensures Occ(st1.M, op, Primed(st2).M, k, Prime(st1.s[j])) == Indicator(k == j) + Indicator(k == j) {
      OccPrimedPhysical(g, links, st1, op, st2, j, k);
    }
    OccSum(st1.M, op, Primed(st2).M, |op|, Prime(st1.s[j]), j, j);
  }

  /** A bond of the first circuit is carried twice, in M1 at both ends of its link. */
  lemma BondEven(g: Graph, links: seq<Link>, st1: State, op: seq<Tensor>, st2: State, L: nat)
    requires Matched(g, links, st1, op, st2) && L < |st1.a|
    ensures OccUpTo(st1.M, op, Primed(st2).M, |op|, st1.a[L]) == 2
  {
    var p, q := links[L].site1, links[L].site2;
    forall k | 0 <= k < |op| ensures Occ(st1.M, op, Primed(st2).M, k, st1.a[L]) == Indicator(k == p) + Indicator(k == q) {
      OccBond(g, links, st1, op, st2, L, k);
    }
    OccSum(st1.M, op, Primed(st2).M, |op|, st1.a[L], p, q);
  }

  /** A primed bond of the second circuit is carried twice, in M2 at both ends of its link. */
  lemma PrimedBondEven(g: Graph, links: seq<Link>, st1: State, op: seq<Tensor>, st2: State, L: nat)
    requires Matched(g, links, st1, op, st2) && L < |st2.a|
    ensures OccUpTo(st1.M, op, Primed(st2).M, |op|, Prime(st2.a[L])) == 2
  {
    var p, q := links[L].site1, links[L].site2;
    forall k | 0 <= k < |op| ensures Occ(st1.M, op, Primed(st2).M, k, Prime(st2.a[L])) == Indicator(k == p) + Indicator(k == q) {
      OccPrimedBond(g, links, st1, op, st2, L, k);
    }
    OccSum(st1.M, op, Primed(st2).M, |op|, Prime(st2.a[L]), p, q);
  }

  /** Any other index is carried nowhere. */
  lemma OtherEven(g: Graph, links: seq<Link>, st1: State, op: seq<Tensor>, st2: State, x: Index)
    requires Matched(g, links, st1, op, st2)
    requires forall j :: 0 <= j < g.numBits ==> x != st1.s[j] && x != Prime(st1.s[j])
    requires forall L :: 0 <= L < |st1.a| ==> x != st1.a[L]
    requires forall L :: 0 <= L < |st2.a| ==> x != Prime(st2.a[L])
    ensures OccUpTo(st1.M, op, Primed(st2).M, |op|, x) == 0
  {
    forall k | 0 <= k < |op| ensures Occ(st1.M, op, Primed(st2).M, k, x) == Indicator(k == |op|) + Indicator(k == |op|) {
      OccOther(g, links, st1, op, st2, x, k);
    }
    OccSum(st1.M, op, Primed(st2).M, |op|, x, |op|, |op|);
  }

  /** Every index is carried an even number of times over the reduction's tensors. */
  ghost predicate EvenEverywhere(M1: seq<Tensor>, op: seq<Tensor>, M2: seq<Tensor>)
    requires |M1| == |op| && |M2| == |op|
  {
    forall x :: OccUpTo(M1, op, M2, |op|, x) % 2 == 0
  }

  /** For matched states every index is carried twice or not at all. */
  lemma MatchedEven(g: Graph, links: seq<Link>, st1: State, op: seq<Tensor>, st2: State)
    requires Matched(g, links, st1, op, st2)
    ensures EvenEverywhere(st1.M, op, Primed(st2).M)
  {
    forall x ensures OccUpTo(st1.M, op, Primed(st2).M, |op|, x) % 2 == 0 {
      if j :| 0 <= j < |op| && x == st1.s[j] {
        PhysicalEven(g, links, st1, op, st2, j);
      } else if j :| 0 <= j < |op| && x == Prime(st1.s[j]) {
        PrimedPhysicalEven(g, links, st1, op, st2, j);
      } else if L :| 0 <= L < |st1.a| && x == st1.a[L] {
        BondEven(g, links, st1, op, st2, L);
      } else if L :| 0 <= L < |st2.a| && x == Prime(st2.a[L]) {
        PrimedBondEven(g, links, st1, op, st2, L);
      } else {
        OtherEven(g, links, st1, op, st2, x);
      }
    }
  }

  /** When every index is carried an even number of times, the reduction leaves none: it is a scalar. */
  lemma EvenFoldIsScalar(M1: seq<Tensor>, op: seq<Tensor>, M2: seq<Tensor>)
    requires 0 < |op| && |M1| == |op| && |M2| == |op| && EvenEverywhere(M1, op, M2)
    ensures OverlapFold(M1, op, M2, |op| - 1) == {}
  {
    var R := OverlapFold(M1, op, M2, |op| - 1);
    if R != {} {
      var x :| x in R;
      FoldParity(M1, op, M2, |op| - 1, x);
    }
  }

  /** For matched states the reduction over all sites leaves no index: its value is a scalar. */
  lemma MatchedOverlapIsScalar(g: Graph, links: seq<Link>, st1: State, op: seq<Tensor>, st2: State)
    requires Matched(g, links, st1, op, st2)
    ensures OverlapFold(st1.M, op, Primed(st2).M, |op| - 1) == {}
  {
    MatchedEven(g, links, st1, op, st2);
    EvenFoldIsScalar(st1.M, op, Primed(st2).M);
  }

  /** The conditions under which two circuits' overlap through `op` is a scalar. */
  ghost predicate OverlapReady(g1: Graph, links1: seq<Link>, st1: State, op: seq<Tensor>, g2: Graph, links2: seq<Link>, st2: State)
  {
    g1 == g2 && links1 == links2 && ReadyOn(g1, links1, st1, op, st2)
  }

  /** Both states fit the graph and keep the invariant, share physical indices, the first one's bonds are unprimed, and `op[k] = {s[k], s[k]'}`. */
  ghost predicate ReadyOn(g: Graph, links: seq<Link>, st1: State, op: seq<Tensor>, st2: State)
  {
    && GraphOf(g, links) && Fits(g, st1) && Fits(g, st2)
    && Invariant(g, links, st1) && Invariant(g, links, st2)
    && st1.s == st2.s && BondsUnprimed(st1)
    && |op| == g.numBits && forall k :: 0 <= k < g.numBits ==> op[k] == {st1.s[k], Prime(st1.s[k])}
  }

  /**
   * Two circuits on the same simple topology that keep their invariant, with
   * the same physical indices and the first one's bonds unprimed, have a
   * scalar overlap through the identity-shaped operator `op[k] = {s[k], s[k]'}`.
   */
  lemma OverlapIsScalar(g: Graph, links: seq<Link>, st1: State, op: seq<Tensor>, st2: State)
    requires ReadyOn(g, links, st1, op, st2)
    ensures OverlapFold(Decomposed(g, st1).M, op, Primed(Decomposed(g, st2)).M, |op| - 1) == {}
  {
    DecomposedSettled(g, links, st1);
    DecomposedSettled(g, links, st2);
    DecomposedUnprimed(g, st1);
    DecomposedUnfold(g, st1);
    DecomposedUnfold(g, st2);
    MatchedOverlapIsScalar(g, links, Decomposed(g, st1), op, Decomposed(g, st2));
  }

  /** `OverlapIsScalar` for two circuits, each given by its own topology, links and state. */
  lemma ReadyOverlapIsScalar(g1: Graph, links1: seq<Link>, st1: State, op: seq<Tensor>, g2: Graph, links2: seq<Link>, st2: State)
    requires WellFormed(g1) && Fits(g1, st1) && Adjacent(g1, st1.cursor)
    requires WellFormed(g2) && Fits(g2, st2) && Adjacent(g2, st2.cursor)
    requires |op| == g1.numBits && |op| == g2.numBits
    ensures OverlapReady(g1, links1, st1, op, g2, links2, st2) ==>
              OverlapFold(Decomposed(g1, st1).M, op, Primed(Decomposed(g2, st2)).M, |op| - 1) == {}
  {
    if OverlapReady(g1, links1, st1, op, g2, links2, st2) {
      OverlapIsScalar(g1, links1, st1, op, st2);
    }
  }

  /** The reduction loop of `overlap` over the prepared site tensors. */
  method Reduce(M1: seq<Tensor>, op: seq<Tensor>, M2: seq<Tensor>) returns (ret: Tensor)
    requires 0 < |op| && |M1| == |op| && |M2| == |op|
    ensures ret == OverlapFold(M1, op, M2, |op| - 1)
  {
    ret := Contract(Contract(M1[0], op[0]), M2[0]);
    for i := 1 to |op|
      invariant ret == OverlapFold(M1, op, M2, i - 1)
    {
      ret := Contract(Contract(Contract(M1[i], op[i]), ret), M2[i]);
    }
  }

  /**
   * The site tensors of a copy of `circuit` after `decomposePsi` and, when
   * `prime`, `primeAll`: what `overlap` reduces over.
   */
  method DecomposedCopy(circuit: QCircuit, prime: bool) returns (ms: seq<Tensor>)
    requires circuit.Valid() && Adjacent(circuit.topology, circuit.cursor)
    requires |Without(circuit.topology.neighbors[circuit.cursor.first], circuit.cursor.second)| <= 2
    ensures var d := Decomposed(circuit.topology, circuit.Value());
            ms == if prime then Primed(d).M else d.M
  {
    var c := new QCircuit.Copy(circuit);
    c.DecomposePsi();
    if prime {
      c.PrimeAll();
    }
    ms := c.M;
  }

  /**
   * `overlap(circuit1, op, circuit2)`: works on copies of both circuits
   * (they are passed by value), decomposes both, primes the second and
   * contracts site by site. The result is the reduction's index set; it is
   * empty (a scalar) for two circuits ready for an overlap.
   */
  method Overlap(circuit1: QCircuit, op: seq<Tensor>, circuit2: QCircuit) returns (ret: Tensor)
    requires circuit1.Valid() && circuit2.Valid()
    requires |op| == circuit1.Size() && |op| == circuit2.Size()
    requires Adjacent(circuit1.topology, circuit1.cursor)
    requires |Without(circuit1.topology.neighbors[circuit1.cursor.first], circuit1.cursor.second)| <= 2
    requires Adjacent(circuit2.topology, circuit2.cursor)
    requires |Without(circuit2.topology.neighbors[circuit2.cursor.first], circuit2.cursor.second)| <= 2
    ensures ret == OverlapFold(Decomposed(circuit1.topology, circuit1.Value()).M, op,
                               Primed(Decomposed(circuit2.topology, circuit2.Value())).M, |op| - 1)
    ensures OverlapReady(circuit1.topology, circuit1.links, circuit1.Value(), op,
                         circuit2.topology, circuit2.links, circuit2.Value())
            ==> ret == {}
  {
    var M1 := DecomposedCopy(circuit1, false);
    var M2 := DecomposedCopy(circuit2, true);
    ret := Reduce(M1, op, M2);
    ReadyOverlapIsScalar(circuit1.topology, circuit1.links, circuit1.Value(), op,
                         circuit2.topology, circuit2.links, circuit2.Value());
  }
}
