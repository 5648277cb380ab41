/**
 * The circuit object: a tensor network state over a topology, with a cursor
 * on two neighbouring sites where the wave function `Psi` is held.
 *
 * Every method is proved against the transition of `QCircuitState` it
 * performs (`Decomposed`, `Shifted`, `Moved`, `Primed`, `AppliedPsi`); the
 * lemmas there state what those transitions keep.
 */
module QCircuits {
  import opened Topology
  import opened Labels
  import opened NeighborLists
  import opened QCircuitState
  import opened QuantumGates
  import Circuits

  /**
   * The indices of the factor an SVD is given: the physical index and the
   * bonds of the remaining list, which has at most two entries.
   */
  method FactorIndices(phys: Index, a: seq<Index>, l: seq<Neighbor>) returns (t: Tensor)
    requires |l| <= 2 && forall n :: n in l ==> n.link < |a|
    ensures t == {phys} + Bonds(a, l)
  {
    BondsOfShortList(a, l);
    if |l| == 0 {
      t := {phys};
    } else if |l| == 1 {
      t := {phys, a[l[0].link]};
    } else {
      t := {phys, a[l[0].link], a[l[1].link]};
    }
  }

  /** `count` new indices with tag `tag`, numbered from `from`: what the constructor's index loops emplace. */
  method NewIndices(from: nat, count: nat, tag: Tag) returns (r: seq<Index>)
    ensures r == FreshIndices(from, count, tag)
  {
    r := [];
    for i := 0 to count
      invariant r == FreshIndices(from, i, tag)
    {
      r := r + [Index(from + i, tag, 0)];
    }
  }

  /**
   * The constructor's tensor loop: per site, a tensor over its physical index
   * and the bonds of its one, two or three neighbours, in list order.
   */
  method BuildSiteTensors(g: Graph, a: seq<Index>, s: seq<Index>) returns (ms: seq<Tensor>)
    requires WellFormed(g) && DegreesOk(g) && |a| == g.numLinks && |s| == g.numBits
    ensures |ms| == g.numBits
    ensures forall k :: 0 <= k < g.numBits ==> ms[k] == SiteTensor(g, a, s, k)
  {
    ms := [];
    for i := 0 to g.numBits
      invariant |ms| == i
      invariant forall k :: 0 <= k < i ==> ms[k] == SiteTensor(g, a, s, k)
    {
      var nb := g.neighbors[i];
      assert forall n :: n in nb ==> n.link < |a|;
      BondsOfShortList(a, nb);
      var m: Tensor;
      if |nb| == 1 {
        m := {s[i], a[nb[0].link]};
      } else if |nb| == 2 {
        m := {s[i], a[nb[0].link], a[nb[1].link]};
      } else {
        m := {s[i], a[nb[0].link], a[nb[1].link], a[nb[2].link]};
      }
      ms := ms + [m];
    }
  }

  /** The cursor lies on sites i and j, in either order. */
  predicate On(c: Cursor, i: nat, j: nat)
  {
    (c.first == i && c.second == j) || (c.first == j && c.second == i)
  }

  /** With ids unique, two one-site gates on the cursor sites multiply to an operator at the cursor. */
  lemma OneSiteGatesAtCursor(st: State, gate1: OneSiteGate, gate2: OneSiteGate)
    requires IdsDistinct(st) && st.cursor.first < |st.s| && st.cursor.second < |st.s|
    requires st.cursor.first != st.cursor.second && On(st.cursor, gate1.site, gate2.site)
    ensures CursorOperator(st, Contract(OneSiteIndices(gate1, st.s), OneSiteIndices(gate2, st.s)))
  {
    PairAtCursor(st, gate1.site, gate2.site);
  }

  /** With ids unique, a two-site gate on the cursor sites is an operator at the cursor. */
  lemma TwoSiteGateAtCursor(st: State, gate: TwoSiteGate)
    requires IdsDistinct(st) && st.cursor.first < |st.s| && st.cursor.second < |st.s|
    requires st.cursor.first != st.cursor.second && On(st.cursor, gate.site1, gate.site2)
    ensures CursorOperator(st, TwoSiteIndices(gate, st.s))
  {
    PairAtCursor(st, gate.site1, gate.site2);
  }

  /**
   * A two-site gate whose two sites coincide is a scalar, so applying it
   * only primes the cursor sites' physical indices of Psi.
   */
  lemma TwoSiteGateOnOneSite(st: State, kind: TwoSiteKind, k: nat)
    requires k < |st.s| && st.cursor.first < |st.s| && st.cursor.second < |st.s|
    ensures AppliedPsi(st, TwoSiteIndices(TwoSiteGate(kind, k, k), st.s)) == PrimeOnly(st.Psi, {st.s[st.cursor.first], st.s[st.cursor.second]})
  {
  }

  /**
   * A circuit built on a topology of the factories (the 53-site layout, a
   * chain of three or more sites, or the all-to-all graph on two or more)
   * starts with the invariant, given unique supplied physical indices: those
   * link lists have no self-link and no repeated link, and link sites 0 and 1.
   */
  lemma FactoryCircuitsSettled(g: Graph, links: seq<Link>, phys: seq<Index>, idSource: nat)
    requires GraphOf(g, links) && g.numBits >= 2 && (|phys| == 0 || |phys| == g.numBits) && SuppliedOk(phys, idSource)
    requires || links == Circuits.IbmqLinks
             || (exists n: nat, periodic: bool :: n >= 3 && links == Circuits.ChainLinks(n, periodic))
             || (exists n: nat :: n >= 2 && links == Circuits.AllToAllLinks(n))
    ensures Invariant(g, links, InitialState(g, phys, idSource))
  {
    if links == Circuits.IbmqLinks {
      Circuits.IbmqSimple();
    } else if exists n: nat, periodic: bool :: n >= 3 && links == Circuits.ChainLinks(n, periodic) {
      var n: nat, periodic: bool :| n >= 3 && links == Circuits.ChainLinks(n, periodic);
      Circuits.ChainSimple(n, periodic);
    } else {
      var n: nat :| n >= 2 && links == Circuits.AllToAllLinks(n);
      Circuits.AllToAllSimple(n);
    }
    InitialInvariant(g, links, phys, idSource);
  }

  class QCircuit {
    /** The copy of the topology the circuit was built on. */
    const topology: Graph
    /** The links that built it, in insertion order. */
    ghost const links: seq<Link>

    var a: seq<Index>
    var s: seq<Index>
    var M: seq<Tensor>
    var Psi: Tensor
    var cursor: Cursor
    /** The next id handed to a fresh index. */
    var nextId: nat

    function Value(): State
      reads this
    {
      State(a, s, M, Psi, cursor, nextId)
    }

    /** The topology is the one its links build, every site has one to three neighbours, and the vectors fit it. */
    ghost predicate Valid()
      reads this
    {
      GraphOf(topology, links) && DegreesOk(topology) && Fits(topology, Value())
    }

    /** The invariant the cursor moves keep on a simple graph. */
    ghost predicate Settled()
      requires Valid()
      reads this
    {
      Invariant(topology, links, Value())
    }

    /**
     * Builds the circuit on a topology whose sites have one to three
     * neighbours: a new bond index per link, the given physical indices (or a
     * new one per site when none are given), one tensor per site over its
     * physical index and its bonds, the cursor on (0, 1) and Psi = M[0]*M[1].
     * New indices take consecutive ids from `idSource`.
     */
    constructor (t: CircuitTopology, physicalIndices: seq<Index>, idSource: nat)
      requires t.Valid() && t.numBits >= 2 && DegreesOk(t.Value())
      requires |physicalIndices| == 0 || |physicalIndices| == t.numBits
      ensures Valid() && topology == t.Value() && links == t.links
      ensures Value() == InitialState(topology, physicalIndices, idSource)
      ensures Simple(links) && Linked(links, 0, 1) && SuppliedOk(physicalIndices, idSource) ==> Settled()
    {
      var g := t.Value();
      BuiltFromWellFormed(g, t.links);
      var bonds := NewIndices(idSource, g.numLinks, LinkInd);
      var phys := physicalIndices;
      var next := idSource + g.numLinks;
      if |phys| == 0 {
        phys := NewIndices(next, g.numBits, SiteInd);
        next := next + g.numBits;
      }
      var tensors := BuildSiteTensors(g, bonds, phys);
      topology := g;
      links := t.links;
      a := bonds;
      s := phys;
      M := tensors;
      cursor := Cursor(0, 1);
      Psi := Contract(tensors[0], tensors[1]);
      nextId := next;
      new;
      assert Value() == InitialState(topology, physicalIndices, idSource);
      InitialInvariant(g, t.links, physicalIndices, idSource);
    }

    /** A copy of `other`: what passing a circuit by value makes. */
    constructor Copy(other: QCircuit)
      requires other.Valid()
      ensures Valid() && topology == other.topology && links == other.links
      ensures Value() == other.Value()
    {
      topology := other.topology;
      links := other.links;
      a := other.a;
      s := other.s;
      M := other.M;
      Psi := other.Psi;
      cursor := other.cursor;
      nextId := other.nextId;
    }

    /** `size()`: the number of sites of the topology, one tensor and one physical index each. */
    function Size(): (n: nat)
      requires Valid()
      reads this
      ensures n == |s| && n == |M| && n >= 2
    {
      topology.numBits
    }

    /**
     * `decomposePsi`: splits Psi at the cursor; the first site gets U, the
     * second S*V, and the cursor link gets the index between U and S.
     */
    method DecomposePsi()
      requires Valid() && Adjacent(topology, cursor)
      requires |Without(topology.neighbors[cursor.first], cursor.second)| <= 2
      modifies this
      ensures Valid() && Value() == Decomposed(topology, old(Value()))
      ensures old(Settled()) ==> Settled() && forall k :: 0 <= k < |M| ==> M[k] == SiteTensor(topology, a, s, k)
    {
      ghost var st := Value();
      var linkInd, u, left, right := SplitPsi();
      a := a[linkInd := u];
      M := M[cursor.first := left][cursor.second := right];
      nextId := nextId + 2;
      DecomposeSettledHere(st);
    }

    /**
     * What `decomposePsi` computes before it writes anything: the cursor
     * link, the index U gets, and the tensors of the two cursor sites.
     */
    method SplitPsi() returns (linkInd: nat, u: Index, left: Tensor, right: Tensor)
      requires Valid() && Adjacent(topology, cursor)
      ensures var r := Decomposed(topology, Value());
              && linkInd < |a| && r.a == a[linkInd := u]
              && r.M == M[cursor.first := left][cursor.second := right]
              && r.Psi == Psi && r.s == s && r.cursor == cursor && r.nextId == nextId + 2
    {
      DecomposedUnfold(topology, Value());
      var list := topology.neighbors[cursor.first];
      MentionedInRange(topology, cursor.first, cursor.second);
      linkInd := FindFirstLink(list, cursor.second);
      var newlist := RemoveSite(list, cursor.second);
      var spec := FactorIndices(s[cursor.first], a, newlist);
      u := FreshU(Value());
      var f := Svd(Psi, spec, true, u, FreshV(Value()));
      left := f.U;
      right := Contract(f.S, f.V);
    }

    lemma DecomposeSettledHere(st: State)
      requires Valid() && WellFormed(topology) && Fits(topology, st) && Adjacent(topology, st.cursor)
      requires Value() == Decomposed(topology, st)
      ensures Invariant(topology, links, st) ==> Settled() && forall k :: 0 <= k < |M| ==> M[k] == SiteTensor(topology, a, s, k)
    {
      if Invariant(topology, links, st) {
        DecomposedSettled(topology, links, st);
      }
    }

    /**
     * `shiftCursorTo(ind)`: moves the cursor one step, onto `ind` and the
     * cursor site it neighbours, rewriting the tensor of the site left
     * behind. `moved` is false, and nothing changes, when `ind` neighbours
     * neither cursor site (the source stops there with an assertion).
     */
    method ShiftCursorTo(ind: nat) returns (moved: bool)
      requires Valid() && ind != cursor.first && ind != cursor.second
      requires ShiftShapeOk(topology, cursor, ind)
      modifies this
      ensures Valid() && Value() == Shifted(topology, old(Value()), ind)
      ensures moved == (Flag(topology, old(cursor), ind) != 0)
      ensures old(Settled()) ==> Settled()
    {
      ghost var st := Value();
      var flag := ShiftDirection(ind);
      moved := flag != 0;
      if flag != 0 {
        ShiftTowards(ind, flag);
      }
      if Invariant(topology, links, st) {
        ShiftKeepsInvariant(topology, links, st, ind);
      }
    }

    /** The two scans of `shiftCursorTo`: 1 when `ind` neighbours the first cursor site, 2 (winning) the second, else 0. */
    method ShiftDirection(ind: nat) returns (flag: nat)
      requires Valid()
      ensures flag == Flag(topology, cursor, ind)
    {
      flag := 0;
      var nearFirst := Mentioned(topology.neighbors[cursor.first], ind);
      if nearFirst {
        flag := 1;
      }
      var nearSecond := Mentioned(topology.neighbors[cursor.second], ind);
      if nearSecond {
        flag := 2;
      }
    }

    /** The move itself, once the scans have found a direction. */
    method ShiftTowards(ind: nat, flag: nat)
      requires Valid() && ind != cursor.first && ind != cursor.second
      requires ShiftShapeOk(topology, cursor, ind)
      requires flag == Flag(topology, cursor, ind) && flag != 0
      modifies this
      ensures Valid() && Value() == Shifted(topology, old(Value()), ind)
    {
      ShiftedUnfold(topology, Value(), ind);
      var dep := Departing(cursor, flag);
      var stay := Staying(cursor, flag);
      var list := topology.neighbors[dep];
      var linkInd := ScanLastLink(list, stay);
      var newlist := RemoveSite(list, stay);
      var spec := FactorIndices(s[dep], a, newlist);
      var u := FreshU(Value());
      var v := FreshV(Value());
      var f := Svd(Psi, spec, flag == 2, u, v);
      if flag == 1 {
        a, M, Psi, cursor := a[linkInd := v], M[dep := f.V], Contract(Contract(M[ind], f.U), f.S), Cursor(ind, cursor.first);
      } else {
        a, M, Psi, cursor := a[linkInd := u], M[dep := f.U], Contract(Contract(f.S, f.V), M[ind]), Cursor(cursor.second, ind);
      }
      nextId := nextId + 2;
    }

    /**
     * `moveCursorTo`: one shift per site of `route`, in order. The route is
     * what the topology's route search returns for the destination; that
     * search is not part of this model.
     */
    method MoveCursorTo(route: seq<nat>)
      requires Valid() && RouteOk(topology, Value(), route) && RouteShapesOk(topology, Value(), route)
      modifies this
      ensures Valid() && Value() == Moved(topology, old(Value()), route)
      ensures old(Settled()) ==> Settled()
    {
      ghost var st := Value();
      for i := 0 to |route|
        invariant Valid() && WellFormed(topology) && Fits(topology, st)
        invariant RouteOk(topology, st, route[..i])
        invariant Value() == Moved(topology, st, route[..i])
      {
        RouteStep(topology, st, route, i);
        var _ := ShiftCursorTo(route[i]);
      }
      assert route[..|route|] == route;
      if Invariant(topology, links, st) {
        MovedKeepsInvariant(topology, links, st, route);
      }
    }

    /**
     * `applyAtCursor(op)`: Psi becomes op times Psi with the cursor sites'
     * physical indices primed. `op` must carry four indices, each a plain or
     * primed physical index of a cursor site; nothing but Psi changes.
     */
    method ApplyAtCursor(op: Tensor)
      requires Valid() && |op| == 4
      requires forall x :: x in op ==>
                 x == s[cursor.first] || x == s[cursor.second] || x == Prime(s[cursor.first]) || x == Prime(s[cursor.second])
      modifies this
      ensures Valid() && Value() == old(Value()).(Psi := AppliedPsi(old(Value()), op))
      ensures old(Settled()) ==> Settled() && Psi == old(Psi)
    {
      if Settled() {
        FourIndicesAtCursor(topology, Value(), op);
        AppliedKeepsIndices(topology, Value(), op);
      }
      Psi := Contract(op, PrimeOnly(Psi, {s[cursor.first], s[cursor.second]}));
    }

    /**
     * `apply(gate1, gate2)`: moves the cursor along `route` (towards the two
     * gates' sites), then applies the product of the two one-site operators.
     */
    method ApplyOneSiteGates(gate1: OneSiteGate, gate2: OneSiteGate, route: seq<nat>)
      requires Valid() && RouteOk(topology, Value(), route) && RouteShapesOk(topology, Value(), route)
      requires gate1.site < |s| && gate2.site < |s|
      modifies this
      ensures Valid()
      ensures var moved := Moved(topology, old(Value()), route);
              Value() == moved.(Psi := AppliedPsi(moved, Contract(OneSiteIndices(gate1, moved.s), OneSiteIndices(gate2, moved.s))))
      ensures old(Settled()) && On(cursor, gate1.site, gate2.site) ==> Settled() && Psi == Moved(topology, old(Value()), route).Psi
    {
      MoveCursorTo(route);
      var op := Contract(OneSiteIndices(gate1, s), OneSiteIndices(gate2, s));
      if Settled() && On(cursor, gate1.site, gate2.site) {
        OneSiteGatesAtCursor(Value(), gate1, gate2);
        AppliedKeepsIndices(topology, Value(), op);
      }
      Psi := Contract(op, PrimeOnly(Psi, {s[cursor.first], s[cursor.second]}));
    }

    /** `apply(gate)`: moves the cursor along `route`, then applies the two-site operator. */
    method ApplyTwoSiteGate(gate: TwoSiteGate, route: seq<nat>)
      requires Valid() && RouteOk(topology, Value(), route) && RouteShapesOk(topology, Value(), route)
      requires gate.site1 < |s| && gate.site2 < |s|
      modifies this
      ensures Valid()
      ensures var moved := Moved(topology, old(Value()), route);
              Value() == moved.(Psi := AppliedPsi(moved, TwoSiteIndices(gate, moved.s)))
      ensures old(Settled()) && On(cursor, gate.site1, gate.site2) ==> Settled() && Psi == Moved(topology, old(Value()), route).Psi
    {
      MoveCursorTo(route);
      var op := TwoSiteIndices(gate, s);
      if Settled() && On(cursor, gate.site1, gate.site2) {
        TwoSiteGateAtCursor(Value(), gate);
        AppliedKeepsIndices(topology, Value(), op);
      }
      Psi := Contract(op, PrimeOnly(Psi, {s[cursor.first], s[cursor.second]}));
    }

    /** `primeAll`: every physical index, bond, site tensor and Psi one prime level up. */
    method PrimeAll()
      requires Valid()
      modifies this
      ensures Valid() && Value() == Primed(old(Value()))
      ensures old(Settled()) ==> Settled()
    {
      ghost var st := Value();
      for i := 0 to |s|
        invariant a == st.a && M == st.M && Psi == st.Psi && cursor == st.cursor && nextId == st.nextId
        invariant |s| == |st.s|
        invariant forall k :: 0 <= k < |s| ==> s[k] == if k < i then Prime(st.s[k]) else st.s[k]
      {
        s := s[i := Prime(s[i])];
      }
      for i := 0 to |a|
        invariant M == st.M && Psi == st.Psi && cursor == st.cursor && nextId == st.nextId && s == PrimeEach(st.s)
        invariant |a| == |st.a|
        invariant forall k :: 0 <= k < |a| ==> a[k] == if k < i then Prime(st.a[k]) else st.a[k]
      {
        a := a[i := Prime(a[i])];
      }
      for i := 0 to |M|
        invariant Psi == st.Psi && cursor == st.cursor && nextId == st.nextId && s == PrimeEach(st.s) && a == PrimeEach(st.a)
        invariant |M| == |st.M|
        invariant forall k :: 0 <= k < |M| ==> M[k] == if k < i then PrimeSet(st.M[k]) else st.M[k]
      {
        M := M[i := PrimeSet(M[i])];
      }
      Psi := PrimeSet(Psi);
      if Invariant(topology, links, st) {
        PrimedKeepsInvariant(topology, links, st);
      }
    }
  }
}
