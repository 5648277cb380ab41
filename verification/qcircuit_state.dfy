/**
 * The state of a circuit as a value, and the transitions its methods make.
 *
 * A circuit keeps a bond index per link (`a`), a physical index per site
 * (`s`), a tensor per site (`M`), the wave function at the cursor (`Psi`) and
 * the cursor, a pair of sites. Tensors are the index sets of the `Labels`
 * module; fresh indices come from `nextId`, a counter above every id in use.
 * The functions here are the reference definitions the class methods are
 * proved against; the lemmas state what the transitions preserve.
 */
module QCircuitState {
  import opened Topology
  import opened Labels
  import opened NeighborLists

  datatype Cursor = Cursor(first: nat, second: nat)

  datatype State = State(a: seq<Index>, s: seq<Index>, M: seq<Tensor>, Psi: Tensor, cursor: Cursor, nextId: nat)

  /** The lists of g name only sites of g, and only link ids below its link count. */
  predicate WellFormed(g: Graph)
  {
    && |g.neighbors| == g.numBits
    && forall k, n :: 0 <= k < g.numBits && n in g.neighbors[k] ==> n.site < g.numBits && n.link < g.numLinks
  }

  /** Every site has one, two or three neighbours: the shapes a site tensor may take. */
  predicate DegreesOk(g: Graph)
  {
    forall k :: 0 <= k < |g.neighbors| ==> 1 <= |g.neighbors[k]| <= 3
  }

  /** The sizes of the state's vectors match the graph, and the cursor is two different sites. */
  predicate Fits(g: Graph, st: State)
  {
    && |st.a| == g.numLinks && |st.s| == g.numBits && |st.M| == g.numBits
    && st.cursor.first < g.numBits && st.cursor.second < g.numBits
    && st.cursor.first != st.cursor.second
  }

  /** The cursor's first site has the second in its list. */
  predicate Adjacent(g: Graph, c: Cursor)
    requires c.first < |g.neighbors|
  {
    Mentions(g.neighbors[c.first], c.second)
  }

  /** The bond indices of the entries of a list. */
  function Bonds(a: seq<Index>, l: seq<Neighbor>): Tensor
  {
    set n | n in l && n.link < |a| :: a[n.link]
  }

  /** The indices of the tensor of site k: its physical index and the bond of every link in its list. */
  function SiteTensor(g: Graph, a: seq<Index>, s: seq<Index>, k: nat): Tensor
    requires k < |s| && k < |g.neighbors|
  {
    {s[k]} + Bonds(a, g.neighbors[k])
  }

  /**
   * Which way `shiftCursorTo(ind)` moves: 2 when the second cursor site has
   * `ind` in its list (this wins when both do), else 1 when the first one has,
   * else 0 (cannot move).
   */
  function Flag(g: Graph, c: Cursor, ind: nat): (fl: nat)
    requires c.first < |g.neighbors| && c.second < |g.neighbors|
    ensures fl <= 2
  {
    if Mentions(g.neighbors[c.second], ind) then 2
    else if Mentions(g.neighbors[c.first], ind) then 1
    else 0
  }

  /** The cursor site whose tensor is rewritten by a shift in direction `fl`. */
  function Departing(c: Cursor, fl: nat): nat
  {
    if fl == 1 then c.second else c.first
  }

  /** The cursor site that stays in the cursor after a shift in direction `fl`. */
  function Staying(c: Cursor, fl: nat): nat
  {
    if fl == 1 then c.first else c.second
  }

  /** The list of the departing site, less the staying site, has at most two entries (the shapes the source handles). */
  predicate ShiftShapeOk(g: Graph, c: Cursor, ind: nat)
    requires c.first < |g.neighbors| && c.second < |g.neighbors|
  {
    var fl := Flag(g, c, ind);
    fl != 0 ==> |Without(g.neighbors[Departing(c, fl)], Staying(c, fl))| <= 2
  }

  function FreshU(st: State): Index { Index(st.nextId, SvdU, 0) }

  function FreshV(st: State): Index { Index(st.nextId + 1, SvdV, 0) }

  /** A site named in a list of a well-formed graph is one of its sites, and the link ids there are in range. */
  lemma MentionedInRange(g: Graph, k: nat, x: nat)
    requires WellFormed(g) && k < g.numBits && Mentions(g.neighbors[k], x)
    ensures x < g.numBits && g.numLinks > 0
    ensures forall n :: n in g.neighbors[k] ==> n.link < g.numLinks
  {
    var j :| 0 <= j < |g.neighbors[k]| && g.neighbors[k][j].site == x;
    assert g.neighbors[k][j] in g.neighbors[k];
  }

  /**
   * `shiftCursorTo(ind)`. Direction 1 (ind neighbours the first site): the
   * Psi splits with V given the second site's physical index and its other
   * bonds; V becomes that site's tensor, the bond of the cursor link becomes
   * the index between S and V, Psi becomes M[ind]*U*S and the cursor
   * (ind, first). Direction 2: the same with the roles of the two sites and
   * of U and V exchanged, Psi = S*V*M[ind] and the cursor (second, ind).
   * Direction 0: nothing changes. The cursor link is the LAST entry of the
   * departing site's list naming the staying site (0 when none does).
   */
  function Shifted(g: Graph, st: State, ind: nat): (r: State)
    requires WellFormed(g) && Fits(g, st)
    requires ind != st.cursor.first && ind != st.cursor.second
    ensures Fits(g, r)
  {
    var fl := Flag(g, st.cursor, ind);
    if fl == 0 then st
    else
      var dep := Departing(st.cursor, fl);
      var stay := Staying(st.cursor, fl);
      MentionedInRange(g, if fl == 1 then st.cursor.first else st.cursor.second, ind);
      var list := g.neighbors[dep];
      var link := LastLinkTo(list, stay);
      assert link < |st.a| by {
        if Mentions(list, stay) { MentionedInRange(g, dep, stay); }
      }
      var spec := {st.s[dep]} + Bonds(st.a, Without(list, stay));
      var u := FreshU(st);
      var v := FreshV(st);
      var f := Svd(st.Psi, spec, fl == 2, u, v);
      if fl == 1 then
        State(st.a[link := v], st.s, st.M[dep := f.V], Contract(Contract(st.M[ind], f.U), f.S),
              Cursor(ind, st.cursor.first), st.nextId + 2)
      else
        State(st.a[link := u], st.s, st.M[dep := f.U], Contract(Contract(f.S, f.V), st.M[ind]),
              Cursor(st.cursor.second, ind), st.nextId + 2)
  }

  /** Each site of the route differs from the cursor at the moment it is reached. */
  predicate RouteOk(g: Graph, st: State, route: seq<nat>)
    requires WellFormed(g) && Fits(g, st)
    decreases |route|, 0
  {
    route == [] ||
    (RouteOk(g, st, route[..|route| - 1]) &&
     var c := Moved(g, st, route[..|route| - 1]).cursor;
     route[|route| - 1] != c.first && route[|route| - 1] != c.second)
  }

  /** At each site of the route, the list the shift splits has a shape the source handles. */
  predicate RouteShapesOk(g: Graph, st: State, route: seq<nat>)
    requires WellFormed(g) && Fits(g, st) && RouteOk(g, st, route)
    decreases |route|
  {
    route == [] ||
    (RouteShapesOk(g, st, route[..|route| - 1]) &&
     ShiftShapeOk(g, Moved(g, st, route[..|route| - 1]).cursor, route[|route| - 1]))
  }

  /** `moveCursorTo`: one shift per site of the route, in route order. */
  function Moved(g: Graph, st: State, route: seq<nat>): (r: State)
    requires WellFormed(g) && Fits(g, st) && RouteOk(g, st, route)
    ensures Fits(g, r)
    decreases |route|, 1
  {
    if route == [] then st
    else Shifted(g, Moved(g, st, route[..|route| - 1]), route[|route| - 1])
  }

  /**
   * `decomposePsi`: Psi splits with U given the first site's physical index
   * and its bonds other than the cursor link; U becomes the first site's
   * tensor, S*V the second's, and the bond of the cursor link (the FIRST entry
   * of the first site's list naming the second) becomes the index between U
   * and S. Psi and the cursor are left as they are.
   */
  function Decomposed(g: Graph, st: State): (r: State)
    requires WellFormed(g) && Fits(g, st) && Adjacent(g, st.cursor)
    ensures Fits(g, r)
  {
    var c := st.cursor;
    var list := g.neighbors[c.first];
    var link := FirstLinkTo(list, c.second);
    assert link < |st.a| by { MentionedInRange(g, c.first, c.second); }
    var spec := {st.s[c.first]} + Bonds(st.a, Without(list, c.second));
    var u := FreshU(st);
    var f := Svd(st.Psi, spec, true, u, FreshV(st));
    State(st.a[link := u], st.s, st.M[c.first := f.U][c.second := Contract(f.S, f.V)], st.Psi, c, st.nextId + 2)
  }

  function PrimeEach(xs: seq<Index>): (r: seq<Index>)
    ensures |r| == |xs|
  {
    seq(|xs|, i requires 0 <= i < |xs| => Prime(xs[i]))
  }

  function PrimeEachTensor(ts: seq<Tensor>): (r: seq<Tensor>)
    ensures |r| == |ts|
  {
    seq(|ts|, i requires 0 <= i < |ts| => PrimeSet(ts[i]))
  }

  /** `primeAll`: every index held by the circuit one prime level up. */
  function Primed(st: State): (r: State)
    ensures r.cursor == st.cursor && r.nextId == st.nextId
    ensures |r.a| == |st.a| && |r.s| == |st.s| && |r.M| == |st.M|
    ensures forall k :: 0 <= k < |st.s| ==> r.s[k] == Prime(st.s[k])
    ensures forall k :: 0 <= k < |st.a| ==> r.a[k] == Prime(st.a[k])
    ensures forall k :: 0 <= k < |st.M| ==> r.M[k] == PrimeSet(st.M[k])
    ensures forall x :: x in r.Psi ==> x.plev >= 1
  {
    State(PrimeEach(st.a), PrimeEach(st.s), PrimeEachTensor(st.M), PrimeSet(st.Psi), st.cursor, st.nextId)
  }

  /** `op * prime(Psi, s[first], s[second])`. */
  function AppliedPsi(st: State, op: Tensor): (r: Tensor)
    requires st.cursor.first < |st.s| && st.cursor.second < |st.s|
    ensures forall x :: x in st.Psi && x != st.s[st.cursor.first] && x != st.s[st.cursor.second] ==> (x in r <==> x !in op)
    ensures forall x :: x in st.Psi && (x == st.s[st.cursor.first] || x == st.s[st.cursor.second]) ==> (Prime(x) in r <==> Prime(x) !in op)
  {
    Contract(op, PrimeOnly(st.Psi, {st.s[st.cursor.first], st.s[st.cursor.second]}))
  }

  /** Well-formedness follows from being built by link insertions within range. */
  lemma BuiltFromWellFormed(g: Graph, links: seq<Link>)
    requires BuiltFrom(g, links)
    ensures WellFormed(g)
  {
    forall k, n | 0 <= k < g.numBits && n in g.neighbors[k]
      ensures n.site < g.numBits && n.link < g.numLinks
    {
      IncidentMembership(links, k, n.site, n.link);
    }
  }

  /** The graph is the one built by `links`, so the scans over its lists are scans over `IncidentTo`. */
  ghost predicate GraphOf(g: Graph, links: seq<Link>)
  {
    BuiltFrom(g, links) && WellFormed(g)
  }

  /**
   * Ids are unique: no two bond indices, no two physical indices and no bond
   * and physical index share an id, and every id is below `nextId`.
   */
  ghost predicate IdsDistinct(st: State)
  {
    && (forall i, j :: 0 <= i < |st.a| && 0 <= j < |st.a| && i != j ==> st.a[i].id != st.a[j].id)
    && (forall i, j :: 0 <= i < |st.s| && 0 <= j < |st.s| && i != j ==> st.s[i].id != st.s[j].id)
    && (forall i, j :: 0 <= i < |st.a| && 0 <= j < |st.s| ==> st.a[i].id != st.s[j].id)
    && (forall i :: 0 <= i < |st.a| ==> st.a[i].id < st.nextId)
    && (forall i :: 0 <= i < |st.s| ==> st.s[i].id < st.nextId)
  }

  /**
   * The index bookkeeping the constructor sets up and the cursor moves keep:
   * every site outside the cursor holds its physical index and the bonds of
   * its links, and Psi holds what the two cursor sites hold, less the bonds
   * they share (contracted away).
   */
  ghost predicate Consistent(g: Graph, st: State)
    requires WellFormed(g) && Fits(g, st)
  {
    && st.Psi == Contract(SiteTensor(g, st.a, st.s, st.cursor.first), SiteTensor(g, st.a, st.s, st.cursor.second))
    && forall k :: 0 <= k < g.numBits && k != st.cursor.first && k != st.cursor.second ==>
         st.M[k] == SiteTensor(g, st.a, st.s, k)
  }

  /**
   * The invariant of a circuit on a simple graph: ids unique, the index
   * bookkeeping consistent and the cursor on two linked sites.
   */
  ghost predicate Invariant(g: Graph, links: seq<Link>, st: State)
    requires WellFormed(g) && Fits(g, st)
  {
    Simple(links) && IdsDistinct(st) && Consistent(g, st) && Adjacent(g, st.cursor)
  }

  /** The bond indices of a set of link ids. */
  function Select(a: seq<Index>, ids: set<nat>): Tensor
  {
    set i | i in ids && i < |a| :: a[i]
  }

  lemma BondsSelect(a: seq<Index>, l: seq<Neighbor>)
    ensures Bonds(a, l) == Select(a, LinkIds(l))
  {
    forall x ensures x in Bonds(a, l) <==> x in Select(a, LinkIds(l)) {
      if x in Select(a, LinkIds(l)) {
        var i :| i in LinkIds(l) && i < |a| && x == a[i];
        var n :| n in l && n.link == i;
      }
    }
  }

  /** The tensor of site k holds its physical index and the bonds of the links with endpoint k. */
  lemma SiteTensorTouching(g: Graph, links: seq<Link>, a: seq<Index>, s: seq<Index>, k: nat)
    requires BuiltFrom(g, links) && k < g.numBits && k < |s|
    ensures SiteTensor(g, a, s, k) == {s[k]} + Select(a, Touching(links, k))
  {
    BondsSelect(a, g.neighbors[k]);
    LinkIdsIncident(links, k);
  }

  /** Rewriting bond L rewrites it in every selection that contains L. */
  lemma SelectUpdate(a: seq<Index>, ids: set<nat>, L: nat, b: Index)
    requires L < |a|
    ensures Select(a[L := b], ids) == Select(a, ids - {L}) + (if L in ids then {b} else {})
  {
  }

  lemma SelectMinus(a: seq<Index>, ids: set<nat>, L: nat)
    requires L < |a|
    requires forall i, j :: 0 <= i < |a| && 0 <= j < |a| && i != j ==> a[i].id != a[j].id
    ensures Select(a, ids - {L}) == Select(a, ids) - {a[L]}
  {
  }

  lemma SelectInter(a: seq<Index>, I: set<nat>, J: set<nat>)
    requires forall i, j :: 0 <= i < |a| && 0 <= j < |a| && i != j ==> a[i].id != a[j].id
    ensures Select(a, I) * Select(a, J) == Select(a, I * J)
  {
    forall x | x in Select(a, I) * Select(a, J) ensures x in Select(a, I * J) {
      var i :| i in I && i < |a| && x == a[i];
      var j :| j in J && j < |a| && x == a[j];
    }
  }

  /** In a simple graph, the only link with endpoints `dep` and `stay` is the one joining them. */
  lemma TouchingShared(links: seq<Link>, dep: nat, stay: nat, L: nat)
    requires Simple(links) && Joins(links, L, dep, stay) && dep != stay
    ensures Touching(links, dep) * Touching(links, stay) == {L}
    ensures forall k :: k != dep && k != stay ==> L !in Touching(links, k)
  {
    forall j | j in Touching(links, dep) * Touching(links, stay) ensures j == L {
      assert Joins(links, j, dep, stay);
      SimpleJoinsOnce(links, j, L, dep, stay);
    }
  }

  /** Every index of a site tensor has an id below `nextId`. */
  lemma SiteTensorIds(g: Graph, st: State, k: nat)
    requires WellFormed(g) && Fits(g, st) && IdsDistinct(st) && k < g.numBits
    ensures forall x :: x in SiteTensor(g, st.a, st.s, k) ==> x.id < st.nextId
  {
  }

  /** Two linked cursor sites of a simple graph share exactly one index: the bond of their link. */
  lemma SharedBond(g: Graph, links: seq<Link>, st: State, dep: nat, stay: nat, L: nat)
    requires GraphOf(g, links) && Simple(links) && Fits(g, st) && IdsDistinct(st)
    requires dep < g.numBits && stay < g.numBits && dep != stay && Joins(links, L, dep, stay)
    ensures L < |st.a|
    ensures SiteTensor(g, st.a, st.s, dep) * SiteTensor(g, st.a, st.s, stay) == {st.a[L]}
  {
    var a := st.a;
    var TD := Touching(links, dep);
    var TS := Touching(links, stay);
    SiteTensorTouching(g, links, a, st.s, dep);
    SiteTensorTouching(g, links, a, st.s, stay);
    TouchingShared(links, dep, stay, L);
    SelectInter(a, TD, TS);
    assert TD * TS == {L};
    assert Select(a, TD) * Select(a, TS) == {a[L]};
    assert st.s[dep] != st.s[stay];
    assert st.s[dep] !in Select(a, TS) && st.s[stay] !in Select(a, TD);
  }

  /** The indices given to the departing site's factor are its tensor less the bond of the cursor link. */
  lemma DepartingSpec(g: Graph, links: seq<Link>, st: State, dep: nat, stay: nat, L: nat)
    requires GraphOf(g, links) && Simple(links) && Fits(g, st) && IdsDistinct(st)
    requires dep < g.numBits && stay < g.numBits && dep != stay && Joins(links, L, dep, stay)
    ensures L < |st.a|
    ensures {st.s[dep]} + Bonds(st.a, Without(g.neighbors[dep], stay)) == SiteTensor(g, st.a, st.s, dep) - {st.a[L]}
  {
    var a := st.a;
    SiteTensorTouching(g, links, a, st.s, dep);
    BondsSelect(a, Without(g.neighbors[dep], stay));
    LinkIdsWithout(links, dep, stay, L);
    SelectMinus(a, Touching(links, dep), L);
    assert st.s[dep] != a[L];
  }

  /** Giving link L the bond `b` changes exactly the tensors of the sites it touches. */
  lemma Rebond(g: Graph, links: seq<Link>, st: State, L: nat, b: Index, k: nat)
    requires GraphOf(g, links) && Fits(g, st) && IdsDistinct(st) && L < |st.a| && k < g.numBits
    ensures SiteTensor(g, st.a[L := b], st.s, k) ==
            if L in Touching(links, k) then SiteTensor(g, st.a, st.s, k) - {st.a[L]} + {b}
            else SiteTensor(g, st.a, st.s, k)
  {
    SiteTensorTouching(g, links, st.a, st.s, k);
    SiteTensorTouching(g, links, st.a[L := b], st.s, k);
    SelectUpdate(st.a, Touching(links, k), L, b);
    SelectMinus(st.a, Touching(links, k), L);
    if L !in Touching(links, k) {
      assert Touching(links, k) - {L} == Touching(links, k);
    }
  }

  /** The link joining two adjacent cursor sites. */
  lemma CursorLink(g: Graph, links: seq<Link>, c: Cursor) returns (L: nat)
    requires GraphOf(g, links) && c.first < g.numBits && Adjacent(g, c)
    ensures Joins(links, L, c.first, c.second)
  {
    MentionsIffLinked(links, c.first, c.second);
    if Link(c.first, c.second) in links {
      var i :| 0 <= i < |links| && links[i] == Link(c.first, c.second);
      L := i;
    } else {
      var i :| 0 <= i < |links| && links[i] == Link(c.second, c.first);
      L := i;
    }
  }

  /** Giving one bond a fresh index and advancing the counter past it keeps ids unique. */
  lemma IdsRebond(st: State, L: nat, b: Index, next: nat)
    requires IdsDistinct(st) && L < |st.a| && st.nextId <= b.id < next
    ensures IdsDistinct(State(st.a[L := b], st.s, st.M, st.Psi, st.cursor, next))
  {
  }

  /** A shift keeps ids unique: the one bond it rewrites gets a fresh id. */
  lemma ShiftedIds(g: Graph, st: State, ind: nat)
    requires WellFormed(g) && Fits(g, st) && IdsDistinct(st)
    requires ind != st.cursor.first && ind != st.cursor.second
    ensures IdsDistinct(Shifted(g, st, ind))
  {
    var fl := Flag(g, st.cursor, ind);
    if fl != 0 {
      var c := st.cursor;
      var link := LastLinkTo(g.neighbors[Departing(c, fl)], Staying(c, fl));
      var r := Shifted(g, st, ind);
      assert link < |st.a| && r.a == st.a[link := r.a[link]];
      IdsRebond(st, link, r.a[link], st.nextId + 2);
      assert r == State(st.a[link := r.a[link]], st.s, r.M, r.Psi, r.cursor, st.nextId + 2);
    }
  }

  /**
   * A shift that moves leaves the cursor on two linked sites: (ind, first)
   * when ind neighbours the first site only, (second, ind) when it
   * neighbours the second.
   */
  lemma ShiftedAdjacent(g: Graph, links: seq<Link>, st: State, ind: nat)
    requires GraphOf(g, links) && Fits(g, st)
    requires ind != st.cursor.first && ind != st.cursor.second
    requires Flag(g, st.cursor, ind) != 0
    ensures Adjacent(g, Shifted(g, st, ind).cursor)
  {
    var c := st.cursor;
    if Flag(g, c, ind) == 1 {
      MentionedInRange(g, c.first, ind);
      MentionsIffLinked(links, c.first, ind);
      MentionsIffLinked(links, ind, c.first);
    }
  }

  /**
   * Splitting the contraction of two tensors that share one index `La`, with
   * the indices of the first one (less `La`) given to one factor: each factor
   * gets back one of the two tensors, with a new index in place of `La`.
   */
  lemma SplitAtBond(D: Tensor, T: Tensor, La: Index, byU: bool, u: Index, v: Index)
    requires D * T == {La} && u != v && u !in D + T && v !in D + T
    ensures var f := Svd(Contract(D, T), D - {La}, byU, u, v);
            && (byU ==> f.U == (D - {La}) + {u} && f.V == (T - {La}) + {v})
            && (!byU ==> f.V == (D - {La}) + {v} && f.U == (T - {La}) + {u})
  {
    assert Contract(D, T) == (D - {La}) + (T - {La});
  }

  /**
   * The index algebra of one shift: Psi = D*T with D and T sharing only the
   * bond La, the departing factor given D less La. The departing factor is D
   * with the bond b in place of La, and the new Psi is I times T with b in
   * place of La.
   */
  lemma ShiftAlgebra(D: Tensor, T: Tensor, I: Tensor, La: Index, fl: nat, u: Index, v: Index)
    requires D * T == {La} && u != v && u !in D + T + I && v !in D + T + I
    requires fl == 1 || fl == 2
    ensures var f := Svd(Contract(D, T), D - {La}, fl == 2, u, v);
            var b := if fl == 1 then v else u;
            && (if fl == 1 then f.V else f.U) == (D - {La}) + {b}
            && Contract(Contract(I, if fl == 1 then f.U else f.V), {u, v}) == Contract(I, (T - {La}) + {b})
  {
    SplitAtBond(D, T, La, fl == 2, u, v);
    if fl == 1 {
      ContractThroughS(I, T - {La}, v, u);
      assert {u, v} == {v, u};
    } else {
      ContractThroughS(I, T - {La}, u, v);
    }
  }

  /** Contracting with S swaps one fresh index for the other. */
  lemma ContractThroughS(A: Tensor, B: Tensor, b: Index, c: Index)
    requires b != c && b !in A + B && c !in A + B
    ensures Contract(Contract(A, B + {c}), {b, c}) == Contract(A, B + {b})
    ensures Contract(Contract({b, c}, B + {c}), A) == Contract(A, B + {b})
  {
  }

  /** A shift that moves, spelled out: the one bond, the one site tensor and Psi it rewrites. */
  lemma ShiftedUnfold(g: Graph, st: State, ind: nat)
    requires WellFormed(g) && Fits(g, st)
    requires ind != st.cursor.first && ind != st.cursor.second
    requires Flag(g, st.cursor, ind) != 0
    ensures var fl := Flag(g, st.cursor, ind);
            var dep := Departing(st.cursor, fl);
            var stay := Staying(st.cursor, fl);
            var link := LastLinkTo(g.neighbors[dep], stay);
            var spec := {st.s[dep]} + Bonds(st.a, Without(g.neighbors[dep], stay));
            var f := Svd(st.Psi, spec, fl == 2, FreshU(st), FreshV(st));
            var r := Shifted(g, st, ind);
            && ind < g.numBits && link < |st.a|
            && r.a == st.a[link := if fl == 1 then FreshV(st) else FreshU(st)]
            && r.M == st.M[dep := if fl == 1 then f.V else f.U]
            && r.Psi == Contract(Contract(st.M[ind], if fl == 1 then f.U else f.V), {FreshU(st), FreshV(st)})
            && r.s == st.s && r.nextId == st.nextId + 2
            && r.cursor == if fl == 1 then Cursor(ind, st.cursor.first) else Cursor(st.cursor.second, ind)
  {
    MentionedInRange(g, if Flag(g, st.cursor, ind) == 1 then st.cursor.first else st.cursor.second, ind);
  }

  /**
   * What a shift that moves does when the two cursor sites share exactly the
   * bond of link L: that bond becomes a fresh index b, the departing site's
   * tensor becomes its old one with b in place of the bond, and Psi becomes
   * M[ind] contracted with the staying site's tensor with b in place of the
   * bond.
   */
  lemma ShiftedParts(g: Graph, st: State, ind: nat, L: nat) returns (b: Index)
    requires WellFormed(g) && Fits(g, st) && IdsDistinct(st) && Consistent(g, st)
    requires ind != st.cursor.first && ind != st.cursor.second
    requires Flag(g, st.cursor, ind) != 0
    requires var fl := Flag(g, st.cursor, ind);
             var dep := Departing(st.cursor, fl);
             var stay := Staying(st.cursor, fl);
             var D := SiteTensor(g, st.a, st.s, dep);
             && L < |st.a| && LastLinkTo(g.neighbors[dep], stay) == L
             && D * SiteTensor(g, st.a, st.s, stay) == {st.a[L]}
             && {st.s[dep]} + Bonds(st.a, Without(g.neighbors[dep], stay)) == D - {st.a[L]}
    ensures var fl := Flag(g, st.cursor, ind);
            var dep := Departing(st.cursor, fl);
            var stay := Staying(st.cursor, fl);
            var r := Shifted(g, st, ind);
            && ind < g.numBits && b.id >= st.nextId
            && r.a == st.a[L := b]
            && r.M == st.M[dep := SiteTensor(g, st.a, st.s, dep) - {st.a[L]} + {b}]
            && r.Psi == Contract(SiteTensor(g, st.a, st.s, ind), SiteTensor(g, st.a, st.s, stay) - {st.a[L]} + {b})
            && r.s == st.s
            && ((r.cursor.first == ind && r.cursor.second == stay) || (r.cursor.first == stay && r.cursor.second == ind))
  {
    var fl := Flag(g, st.cursor, ind);
    var dep := Departing(st.cursor, fl);
    var stay := Staying(st.cursor, fl);
    ShiftedUnfold(g, st, ind);
    var a := st.a;
    var D := SiteTensor(g, a, st.s, dep);
    var T := SiteTensor(g, a, st.s, stay);
    var I := SiteTensor(g, a, st.s, ind);
    SiteTensorIds(g, st, dep);
    SiteTensorIds(g, st, stay);
    SiteTensorIds(g, st, ind);
    assert st.Psi == Contract(D, T);
    assert st.M[ind] == I;
    ShiftAlgebra(D, T, I, a[L], fl, FreshU(st), FreshV(st));
    b := if fl == 1 then FreshV(st) else FreshU(st);
  }

  /** The link under a cursor of adjacent sites, and what the scans of a shift find about it. */
  lemma ShiftLink(g: Graph, links: seq<Link>, st: State, ind: nat) returns (L: nat)
    requires GraphOf(g, links) && Simple(links) && Fits(g, st) && IdsDistinct(st)
    requires Adjacent(g, st.cursor)
    requires Flag(g, st.cursor, ind) != 0
    ensures var fl := Flag(g, st.cursor, ind);
            var dep := Departing(st.cursor, fl);
            var stay := Staying(st.cursor, fl);
            var D := SiteTensor(g, st.a, st.s, dep);
            && Joins(links, L, dep, stay)
            && L < |st.a| && LastLinkTo(g.neighbors[dep], stay) == L
            && D * SiteTensor(g, st.a, st.s, stay) == {st.a[L]}
            && {st.s[dep]} + Bonds(st.a, Without(g.neighbors[dep], stay)) == D - {st.a[L]}
  {
    var fl := Flag(g, st.cursor, ind);
    var dep := Departing(st.cursor, fl);
    var stay := Staying(st.cursor, fl);
    L := CursorLink(g, links, st.cursor);
    assert Joins(links, L, dep, stay);
    ScansAgree(links, dep, stay, L);
    SharedBond(g, links, st, dep, stay, L);
    DepartingSpec(g, links, st, dep, stay, L);
  }

  /** Giving the bond of the link joining `dep` and `stay` a new index changes the tensors of those two sites only. */
  lemma RebondCursor(g: Graph, links: seq<Link>, st: State, L: nat, b: Index, dep: nat, stay: nat)
    requires GraphOf(g, links) && Simple(links) && Fits(g, st) && IdsDistinct(st)
    requires dep != stay && Joins(links, L, dep, stay) && L < |st.a|
    ensures forall k :: 0 <= k < g.numBits ==>
              SiteTensor(g, st.a[L := b], st.s, k) ==
              if k == dep || k == stay then SiteTensor(g, st.a, st.s, k) - {st.a[L]} + {b}
              else SiteTensor(g, st.a, st.s, k)
  {
    TouchingShared(links, dep, stay, L);
    forall k | 0 <= k < g.numBits
      ensures SiteTensor(g, st.a[L := b], st.s, k) ==
              if k == dep || k == stay then SiteTensor(g, st.a, st.s, k) - {st.a[L]} + {b}
              else SiteTensor(g, st.a, st.s, k)
    {
      Rebond(g, links, st, L, b, k);
    }
  }

  /** The new state of a shift, as `ShiftedParts` describes it, is consistent. */
  lemma ConsistentAfterShift(g: Graph, st: State, ind: nat, L: nat, b: Index)
    requires WellFormed(g) && Fits(g, st) && Consistent(g, st)
    requires ind != st.cursor.first && ind != st.cursor.second
    requires Flag(g, st.cursor, ind) != 0
    requires var fl := Flag(g, st.cursor, ind);
             var dep := Departing(st.cursor, fl);
             var stay := Staying(st.cursor, fl);
             var r := Shifted(g, st, ind);
             && ind < g.numBits && L < |st.a|
             && r.a == st.a[L := b]
             && r.M == st.M[dep := SiteTensor(g, st.a, st.s, dep) - {st.a[L]} + {b}]
             && r.Psi == Contract(SiteTensor(g, st.a, st.s, ind), SiteTensor(g, st.a, st.s, stay) - {st.a[L]} + {b})
             && r.s == st.s
             && ((r.cursor.first == ind && r.cursor.second == stay) || (r.cursor.first == stay && r.cursor.second == ind))
             && forall k :: 0 <= k < g.numBits ==>
                  SiteTensor(g, st.a[L := b], st.s, k) ==
                  if k == dep || k == stay then SiteTensor(g, st.a, st.s, k) - {st.a[L]} + {b}
                  else SiteTensor(g, st.a, st.s, k)
    ensures Consistent(g, Shifted(g, st, ind))
  {
    var fl := Flag(g, st.cursor, ind);
    var dep := Departing(st.cursor, fl);
    var stay := Staying(st.cursor, fl);
    var r := Shifted(g, st, ind);
    assert SiteTensor(g, r.a, r.s, ind) == SiteTensor(g, st.a, st.s, ind);
    assert SiteTensor(g, r.a, r.s, stay) == SiteTensor(g, st.a, st.s, stay) - {st.a[L]} + {b};
    assert r.Psi == Contract(SiteTensor(g, r.a, r.s, r.cursor.first), SiteTensor(g, r.a, r.s, r.cursor.second));
    forall k | 0 <= k < g.numBits && k != r.cursor.first && k != r.cursor.second
      ensures r.M[k] == SiteTensor(g, r.a, r.s, k)
    {
      if k != dep {
        assert r.M[k] == st.M[k];
      }
    }
  }

  /**
   * On a simple graph, a shift keeps the index bookkeeping consistent: the
   * departing site's new tensor is its physical index and its bonds, the
   * cursor link's bond now being the new index; Psi is what the new cursor
   * sites hold, less the bond they share.
   */
  lemma ShiftedConsistent(g: Graph, links: seq<Link>, st: State, ind: nat)
    requires GraphOf(g, links) && Simple(links) && Fits(g, st) && IdsDistinct(st) && Consistent(g, st)
    requires Adjacent(g, st.cursor)
    requires ind != st.cursor.first && ind != st.cursor.second
    ensures Consistent(g, Shifted(g, st, ind))
  {
    var fl := Flag(g, st.cursor, ind);
    if fl != 0 {
      var L := ShiftLink(g, links, st, ind);
      var b := ShiftedParts(g, st, ind, L);
      RebondCursor(g, links, st, L, b, Departing(st.cursor, fl), Staying(st.cursor, fl));
      ConsistentAfterShift(g, st, ind, L, b);
    }
  }

  /** On a simple graph a shift keeps ids unique, the bookkeeping consistent and the cursor on linked sites. */
  lemma ShiftKeepsInvariant(g: Graph, links: seq<Link>, st: State, ind: nat)
    requires GraphOf(g, links) && Fits(g, st) && Invariant(g, links, st)
    requires ind != st.cursor.first && ind != st.cursor.second
    ensures Invariant(g, links, Shifted(g, st, ind))
  {
    ShiftedIds(g, st, ind);
    ShiftedConsistent(g, links, st, ind);
    if Flag(g, st.cursor, ind) != 0 {
      ShiftedAdjacent(g, links, st, ind);
    }
  }

  /**
   * With one to three neighbours per site and the cursor on linked sites,
   * the departing site's list less the staying site has at most two entries
   * whichever way the cursor moves, and so has the first site's list less the
   * second: the shapes the source handles.
   */
  lemma ShapeFromAdjacent(g: Graph, links: seq<Link>, c: Cursor, ind: nat)
    requires GraphOf(g, links) && DegreesOk(g)
    requires c.first < g.numBits && c.second < g.numBits && Adjacent(g, c)
    ensures ShiftShapeOk(g, c, ind)
    ensures |Without(g.neighbors[c.first], c.second)| <= 2
  {
    MentionsIffLinked(links, c.first, c.second);
    MentionsIffLinked(links, c.second, c.first);
  }

  /**
   * Frame of a shift: every site tensor but the departing site's, every bond
   * but that of the link the scan found, and the physical indices are left
   * as they were.
   */
  lemma ShiftFrame(g: Graph, st: State, ind: nat)
    requires WellFormed(g) && Fits(g, st)
    requires ind != st.cursor.first && ind != st.cursor.second
    ensures var fl := Flag(g, st.cursor, ind);
            var r := Shifted(g, st, ind);
            var dep := Departing(st.cursor, fl);
            var link := LastLinkTo(g.neighbors[dep], Staying(st.cursor, fl));
            && r.s == st.s
            && (fl == 0 ==> r == st)
            && (forall k :: 0 <= k < |st.M| && k != dep ==> r.M[k] == st.M[k])
            && (forall l :: 0 <= l < |st.a| && l != link ==> r.a[l] == st.a[l])
  {
    if Flag(g, st.cursor, ind) != 0 {
      ShiftedUnfold(g, st, ind);
    }
  }

  /** Along a route of sites each distinct from the cursor then, the invariants of a shift hold at every step. */
  lemma {:induction false} MovedKeepsInvariant(g: Graph, links: seq<Link>, st: State, route: seq<nat>)
    requires GraphOf(g, links) && Fits(g, st) && Invariant(g, links, st) && RouteOk(g, st, route)
    ensures Invariant(g, links, Moved(g, st, route))
  {
    if route != [] {
      var init := route[..|route| - 1];
      MovedKeepsInvariant(g, links, st, init);
      ShiftKeepsInvariant(g, links, Moved(g, st, init), route[|route| - 1]);
    }
  }

  /** `decomposePsi` spelled out. */
  lemma DecomposedUnfold(g: Graph, st: State)
    requires WellFormed(g) && Fits(g, st) && Adjacent(g, st.cursor)
    ensures var c := st.cursor;
            var link := FirstLinkTo(g.neighbors[c.first], c.second);
            var spec := {st.s[c.first]} + Bonds(st.a, Without(g.neighbors[c.first], c.second));
            var f := Svd(st.Psi, spec, true, FreshU(st), FreshV(st));
            var r := Decomposed(g, st);
            && link < |st.a|
            && r.a == st.a[link := FreshU(st)]
            && r.M == st.M[c.first := f.U][c.second := Contract(f.S, f.V)]
            && r.Psi == st.Psi && r.s == st.s && r.cursor == c && r.nextId == st.nextId + 2
  {
    MentionedInRange(g, st.cursor.first, st.cursor.second);
  }

  /** The index algebra of `decomposePsi`: U is D with u in place of La, S*V is T with u in place of La. */
  lemma DecomposeAlgebra(D: Tensor, T: Tensor, La: Index, u: Index, v: Index)
    requires D * T == {La} && u != v && u !in D + T && v !in D + T
    ensures var f := Svd(Contract(D, T), D - {La}, true, u, v);
            && f.U == (D - {La}) + {u}
            && Contract(f.S, f.V) == (T - {La}) + {u}
            && Contract(D, T) == Contract((D - {La}) + {u}, (T - {La}) + {u})
  {
    SplitAtBond(D, T, La, true, u, v);
  }

  /**
   * `decomposePsi` on a simple graph with the cursor on linked sites: the
   * bond of the cursor link becomes the fresh index u, and the two cursor
   * sites' tensors become their site tensors under the new bond.
   */
  lemma DecomposedParts(g: Graph, links: seq<Link>, st: State) returns (L: nat)
    requires GraphOf(g, links) && Simple(links) && Fits(g, st) && IdsDistinct(st) && Consistent(g, st)
    requires Adjacent(g, st.cursor)
    ensures var c := st.cursor;
            var r := Decomposed(g, st);
            var u := FreshU(st);
            && Joins(links, L, c.first, c.second) && L < |st.a|
            && r.a == st.a[L := u]
            && r.M == st.M[c.first := SiteTensor(g, st.a, st.s, c.first) - {st.a[L]} + {u}]
                          [c.second := SiteTensor(g, st.a, st.s, c.second) - {st.a[L]} + {u}]
            && r.Psi == Contract(SiteTensor(g, st.a, st.s, c.first) - {st.a[L]} + {u},
                                 SiteTensor(g, st.a, st.s, c.second) - {st.a[L]} + {u})
            && r.s == st.s && r.cursor == c
  {
    var c := st.cursor;
    L := CursorLink(g, links, c);
    ScansAgree(links, c.first, c.second, L);
    SharedBond(g, links, st, c.first, c.second, L);
    DepartingSpec(g, links, st, c.first, c.second, L);
    DecomposedUnfold(g, st);
    var D := SiteTensor(g, st.a, st.s, c.first);
    var T := SiteTensor(g, st.a, st.s, c.second);
    SiteTensorIds(g, st, c.first);
    SiteTensorIds(g, st, c.second);
    DecomposeAlgebra(D, T, st.a[L], FreshU(st), FreshV(st));
  }

  /**
   * On a simple graph with the cursor on linked sites, `decomposePsi` leaves
   * every site tensor equal to its physical index and its bonds (the cursor
   * sites included), keeps the bookkeeping consistent and ids unique.
   */
  lemma DecomposedSettled(g: Graph, links: seq<Link>, st: State)
    requires GraphOf(g, links) && Fits(g, st) && Invariant(g, links, st)
    ensures var r := Decomposed(g, st);
            && Invariant(g, links, r)
            && forall k :: 0 <= k < g.numBits ==> r.M[k] == SiteTensor(g, r.a, r.s, k)
  {
    var L := DecomposedParts(g, links, st);
    var r := Decomposed(g, st);
    assert r.nextId == st.nextId + 2;
    RebondSettled(g, links, st, L, r);
  }

  /**
   * The rewrite `decomposePsi` makes on a settled state (a fresh index on the
   * cursor bond, both cursor sites back to their physical index and bonds)
   * leaves it settled with every site tensor its physical index and bonds.
   */
  lemma RebondSettled(g: Graph, links: seq<Link>, st: State, L: nat, r: State)
    requires GraphOf(g, links) && Fits(g, st) && Invariant(g, links, st)
    requires Joins(links, L, st.cursor.first, st.cursor.second) && L < |st.a|
    requires var c := st.cursor;
             var u := FreshU(st);
             && r.a == st.a[L := u] && r.s == st.s && r.cursor == c && r.nextId == st.nextId + 2
             && r.M == st.M[c.first := SiteTensor(g, st.a, st.s, c.first) - {st.a[L]} + {u}]
                           [c.second := SiteTensor(g, st.a, st.s, c.second) - {st.a[L]} + {u}]
             && r.Psi == Contract(SiteTensor(g, st.a, st.s, c.first) - {st.a[L]} + {u},
                                  SiteTensor(g, st.a, st.s, c.second) - {st.a[L]} + {u})
    ensures Fits(g, r) && Invariant(g, links, r)
    ensures forall k :: 0 <= k < g.numBits ==> r.M[k] == SiteTensor(g, r.a, r.s, k)
  {
    var c := st.cursor;
    var u := FreshU(st);
    RebondCursor(g, links, st, L, u, c.first, c.second);
    IdsRebond(st, L, u, st.nextId + 2);
    assert r == State(st.a[L := u], st.s, r.M, r.Psi, c, st.nextId + 2);
    forall k | 0 <= k < g.numBits ensures r.M[k] == SiteTensor(g, r.a, r.s, k) {
      if k != c.first && k != c.second {
        assert r.M[k] == st.M[k];
      }
    }
  }

  /** `count` new indices with consecutive ids from `from`, all with tag `tag`, unprimed. */
  function FreshIndices(from: nat, count: nat, tag: Tag): (r: seq<Index>)
    ensures |r| == count
  {
    seq(count, i requires 0 <= i < count => Index(from + i, tag, 0))
  }

  /** The physical indices supplied by a caller: ids pairwise different and below `idSource`. */
  ghost predicate SuppliedOk(phys: seq<Index>, idSource: nat)
  {
    && (forall i, j :: 0 <= i < |phys| && 0 <= j < |phys| && i != j ==> phys[i].id != phys[j].id)
    && (forall i :: 0 <= i < |phys| ==> phys[i].id < idSource)
  }

  /**
   * The state the constructor builds: one new bond per link, the supplied
   * physical indices or one new one per site, each site tensor its physical
   * index and bonds, Psi = M[0]*M[1] and the cursor (0, 1).
   */
  function InitialState(g: Graph, phys: seq<Index>, idSource: nat): (r: State)
    requires WellFormed(g) && g.numBits >= 2 && (|phys| == 0 || |phys| == g.numBits)
    ensures Fits(g, r)
  {
    var a := FreshIndices(idSource, g.numLinks, LinkInd);
    var s := if |phys| == 0 then FreshIndices(idSource + g.numLinks, g.numBits, SiteInd) else phys;
    var M := seq(g.numBits, k requires 0 <= k < g.numBits => SiteTensor(g, a, s, k));
    State(a, s, M, Contract(M[0], M[1]), Cursor(0, 1),
          idSource + g.numLinks + (if |phys| == 0 then g.numBits else 0))
  }

  /**
   * The constructor's state is consistent; its ids are unique when the
   * supplied physical indices are; its cursor is on linked sites exactly when
   * sites 0 and 1 are linked.
   */
  lemma InitialInvariant(g: Graph, links: seq<Link>, phys: seq<Index>, idSource: nat)
    requires GraphOf(g, links) && g.numBits >= 2 && (|phys| == 0 || |phys| == g.numBits)
    ensures var r := InitialState(g, phys, idSource);
            && Consistent(g, r)
            && (SuppliedOk(phys, idSource) ==> IdsDistinct(r))
            && (Adjacent(g, r.cursor) <==> Linked(links, 0, 1))
            && (Simple(links) && Linked(links, 0, 1) && SuppliedOk(phys, idSource) ==> Invariant(g, links, r))
  {
    MentionsIffLinked(links, 0, 1);
  }

  /** `op` holds exactly the plain and primed physical indices of the two cursor sites. */
  predicate CursorOperator(st: State, op: Tensor)
    requires st.cursor.first < |st.s| && st.cursor.second < |st.s|
  {
    var s1 := st.s[st.cursor.first];
    var s2 := st.s[st.cursor.second];
    op == {s1, s2, Prime(s1), Prime(s2)}
  }

  /**
   * With ids unique, an operator of four indices each a plain or primed
   * physical index of a cursor site (what `applyAtCursor` asserts) holds all
   * four of them.
   */
  lemma FourIndicesAtCursor(g: Graph, st: State, op: Tensor)
    requires WellFormed(g) && Fits(g, st) && IdsDistinct(st)
    requires |op| == 4
    requires forall x :: x in op ==> var s1 := st.s[st.cursor.first]; var s2 := st.s[st.cursor.second];
                                     x == s1 || x == s2 || x == Prime(s1) || x == Prime(s2)
    ensures CursorOperator(st, op)
  {
    var s1 := st.s[st.cursor.first];
    var s2 := st.s[st.cursor.second];
    var all := {s1, s2, Prime(s1), Prime(s2)};
    assert |all| == 4;
    assert op <= all;
    if op != all {
      var y :| y in all && y !in op;
      assert op <= all - {y};
      assert |all - {y}| == 3;
      SubsetSize(op, all - {y});
    }
  }

  lemma SubsetSize<T>(x: set<T>, y: set<T>)
    requires x <= y
    ensures |x| <= |y|
  {
    if x != {} {
      var e :| e in x;
      SubsetSize(x - {e}, y - {e});
    }
  }

  /**
   * Applying an operator that holds exactly the plain and primed physical
   * indices of the cursor sites to a consistent Psi gives a Psi with the same
   * indices: the operator's primed indices are summed against Psi's primed
   * physical indices and its plain ones take their place.
   */
  lemma AppliedKeepsIndices(g: Graph, st: State, op: Tensor)
    requires WellFormed(g) && Fits(g, st) && IdsDistinct(st) && Consistent(g, st)
    requires CursorOperator(st, op)
    ensures AppliedPsi(st, op) == st.Psi
  {
    var s1 := st.s[st.cursor.first];
    var s2 := st.s[st.cursor.second];
    var D := SiteTensor(g, st.a, st.s, st.cursor.first);
    var T := SiteTensor(g, st.a, st.s, st.cursor.second);
    assert s1 in D && s1 !in T && s2 in T && s2 !in D;
    assert Prime(s1) !in D + T && Prime(s2) !in D + T;
    assert PrimeOnly(st.Psi, {s1, s2}) == st.Psi - {s1, s2} + {Prime(s1), Prime(s2)};
  }

  /** Every prefix of a route that may be followed may be followed, and shapes stay ones the source handles. */
  lemma {:induction false} RoutePrefix(g: Graph, st: State, route: seq<nat>, i: nat)
    requires WellFormed(g) && Fits(g, st) && RouteOk(g, st, route) && i <= |route|
    ensures RouteOk(g, st, route[..i])
    ensures RouteShapesOk(g, st, route) ==> RouteShapesOk(g, st, route[..i])
    decreases |route|
  {
    if i < |route| {
      var init := route[..|route| - 1];
      assert route[..i] == init[..i];
      RoutePrefix(g, st, init, i);
    } else {
      assert route[..i] == route;
    }
  }

  /** One more step of a route: the shift to its next site, from where the prefix leaves the cursor. */
  lemma RouteStep(g: Graph, st: State, route: seq<nat>, i: nat)
    requires WellFormed(g) && Fits(g, st) && RouteOk(g, st, route) && i < |route|
    ensures RouteOk(g, st, route[..i]) && RouteOk(g, st, route[..i + 1])
    ensures var c := Moved(g, st, route[..i]).cursor;
            route[i] != c.first && route[i] != c.second
    ensures Moved(g, st, route[..i + 1]) == Shifted(g, Moved(g, st, route[..i]), route[i])
    ensures RouteShapesOk(g, st, route) ==> ShiftShapeOk(g, Moved(g, st, route[..i]).cursor, route[i])
  {
    RoutePrefix(g, st, route, i + 1);
    assert route[..i + 1][..i] == route[..i];
  }

  /**
   * On a simple graph whose sites have one to three neighbours, a circuit
   * whose invariant holds can follow any route of sites each distinct from
   * the cursor: every list a shift splits has a shape the source handles.
   */
  lemma {:induction false} RouteShapesFromInvariant(g: Graph, links: seq<Link>, st: State, route: seq<nat>)
    requires GraphOf(g, links) && DegreesOk(g) && Fits(g, st) && Invariant(g, links, st) && RouteOk(g, st, route)
    ensures RouteShapesOk(g, st, route)
    decreases |route|
  {
    if route != [] {
      var init := route[..|route| - 1];
      RouteShapesFromInvariant(g, links, st, init);
      MovedKeepsInvariant(g, links, st, init);
      var c := Moved(g, st, init).cursor;
      ShapeFromAdjacent(g, links, c, route[|route| - 1]);
    }
  }

  /** The bonds of a list of at most three entries, one per entry. */
  lemma BondsOfShortList(a: seq<Index>, l: seq<Neighbor>)
    requires |l| <= 3 && forall n :: n in l ==> n.link < |a|
    ensures |l| == 0 ==> Bonds(a, l) == {}
    ensures |l| == 1 ==> Bonds(a, l) == {a[l[0].link]}
    ensures |l| == 2 ==> Bonds(a, l) == {a[l[0].link], a[l[1].link]}
    ensures |l| == 3 ==> Bonds(a, l) == {a[l[0].link], a[l[1].link], a[l[2].link]}
  {
    forall x ensures x in Bonds(a, l) <==> exists k :: 0 <= k < |l| && x == a[l[k].link] {
      if x in Bonds(a, l) {
        var n :| n in l && n.link < |a| && x == a[n.link];
        var k :| 0 <= k < |l| && l[k] == n;
      }
      if exists k :: 0 <= k < |l| && x == a[l[k].link] {
        var k :| 0 <= k < |l| && x == a[l[k].link];
        assert l[k] in l;
      }
    }
  }

  /**
   * When their ids differ, an operator holding the plain and primed physical
   * indices of two sites that are the cursor sites, in either order, is an
   * operator at the cursor.
   */
  lemma PairAtCursor(st: State, i: nat, j: nat)
    requires i < |st.s| && j < |st.s| && st.cursor.first < |st.s| && st.cursor.second < |st.s|
    requires (i == st.cursor.first && j == st.cursor.second) || (i == st.cursor.second && j == st.cursor.first)
    requires st.s[i].id != st.s[j].id
    ensures CursorOperator(st, Contract({st.s[i], Prime(st.s[i])}, {st.s[j], Prime(st.s[j])}))
  {
    var x, y := st.s[i], st.s[j];
    assert Prime(x) != y && Prime(y) != x && Prime(x) != Prime(y);
  }

  /** Priming every bond and physical index primes every site tensor. */
  lemma PrimedSiteTensor(g: Graph, a: seq<Index>, s: seq<Index>, k: nat)
    requires k < |s| && k < |g.neighbors|
    ensures SiteTensor(g, PrimeEach(a), PrimeEach(s), k) == PrimeSet(SiteTensor(g, a, s, k))
  {
    var l := g.neighbors[k];
    forall x ensures x in Bonds(PrimeEach(a), l) <==> x in PrimeSet(Bonds(a, l)) {
      if x in PrimeSet(Bonds(a, l)) {
        var y :| y in Bonds(a, l) && x == Prime(y);
        var n :| n in l && n.link < |a| && y == a[n.link];
        assert x == PrimeEach(a)[n.link];
      }
    }
  }

  /** `primeAll` keeps ids unique and the bookkeeping consistent: it primes both sides of every equation. */
  lemma PrimedKeepsInvariant(g: Graph, links: seq<Link>, st: State)
    requires WellFormed(g) && Fits(g, st) && Invariant(g, links, st)
    ensures Fits(g, Primed(st)) && Invariant(g, links, Primed(st))
  {
    var r := Primed(st);
    var c := st.cursor;
    PrimedSiteTensor(g, st.a, st.s, c.first);
    PrimedSiteTensor(g, st.a, st.s, c.second);
    PrimeContract(SiteTensor(g, st.a, st.s, c.first), SiteTensor(g, st.a, st.s, c.second));
    forall k | 0 <= k < g.numBits && k != c.first && k != c.second
      ensures r.M[k] == SiteTensor(g, r.a, r.s, k)
    {
      PrimedSiteTensor(g, st.a, st.s, k);
    }
  }
}
