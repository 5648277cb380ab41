/**
 * Factory topologies: a chain (periodic by default), the all-to-all graph, and
 * the fixed 53-site layout. Each factory builds a fresh topology by inserting
 * links one after another, so what it produces is fixed by the sequence of
 * links it inserts.
 */
module Circuits {
  import opened Topology

  /**
   * The links `make_ibmq_topology` inserts, in order: four parts, each a run
   * of the groups the source lays out.
   */
  const IbmqLinks: seq<Link> := IbmqPart1 + IbmqPart2 + IbmqPart3 + IbmqPart4

  const IbmqPart1: seq<Link> :=
    [Link(0, 1), Link(1, 2), Link(2, 3), Link(3, 4)] +
    [Link(0, 5), Link(4, 6), Link(5, 7), Link(6, 11)] +
    [Link(7, 8), Link(8, 9), Link(9, 10), Link(10, 11)] +
    [Link(7, 12), Link(11, 13), Link(12, 14), Link(13, 15), Link(14, 16), Link(15, 18)]

  const IbmqPart2: seq<Link> :=
    [Link(9, 17)] +
    [Link(16, 19), Link(18, 20), Link(19, 21), Link(20, 22), Link(21, 23), Link(22, 27)] +
    [Link(17, 25)] +
    [Link(23, 24), Link(24, 25), Link(25, 26), Link(26, 27)]

  const IbmqPart3: seq<Link> :=
    [Link(23, 28), Link(27, 29), Link(28, 30), Link(29, 34)] +
    [Link(30, 31), Link(31, 32), Link(32, 33), Link(33, 34)] +
    [Link(30, 35), Link(34, 36), Link(35, 37), Link(36, 38), Link(37, 39), Link(38, 41)] +
    [Link(32, 40)]

  const IbmqPart4: seq<Link> :=
    [Link(39, 42), Link(41, 43), Link(42, 44), Link(43, 45), Link(44, 46), Link(45, 50)] +
    [Link(40, 48)] +
    [Link(46, 47), Link(47, 48), Link(48, 49), Link(49, 50)] +
    [Link(46, 51), Link(50, 52)]

  /** Inserts `links` in order; every endpoint must be a site. */
  method InsertLinks(t: CircuitTopology, links: seq<Link>)
    requires t.Valid() && InRange(t.numBits, links)
    modifies t
    ensures t.Valid() && t.links == old(t.links) + links
  {
    for i := 0 to |links|
      invariant t.Valid() && t.links == old(t.links) + links[..i]
    {
      t.GenerateLink(links[i].site1, links[i].site2);
      assert links[..i + 1] == links[..i] + [links[i]];
    }
    assert links[..|links|] == links;
  }

  /** The fixed layout: 53 sites, 58 links, every endpoint a site, link 0 joining 0 and 1. */
  lemma IbmqShape()
    ensures |IbmqLinks| == 58 && IbmqLinks[0] == Link(0, 1)
    ensures InRange(53, IbmqLinks)
  {
    assert InRange(53, IbmqPart1);
    assert InRange(53, IbmqPart2);
    assert InRange(53, IbmqPart3);
    assert InRange(53, IbmqPart4);
    InRangeAppend(53, IbmqPart1, IbmqPart2);
    InRangeAppend(53, IbmqPart1 + IbmqPart2, IbmqPart3);
    InRangeAppend(53, IbmqPart1 + IbmqPart2 + IbmqPart3, IbmqPart4);
  }

  /** Every link runs from a lower site to a higher one. */
  predicate Ascending(links: seq<Link>)
  {
    forall k :: 0 <= k < |links| ==> links[k].site1 < links[k].site2
  }

  /** No link of `a` is a link of `b`. */
  predicate Apart(a: seq<Link>, b: seq<Link>)
  {
    forall i, j :: 0 <= i < |a| && 0 <= j < |b| ==> a[i] != b[j]
  }

  /** Two simple runs of ascending links with no link in common join into a simple run. */
  lemma SimpleAppend(a: seq<Link>, b: seq<Link>)
    requires Simple(a) && Simple(b) && Ascending(a) && Ascending(b) && Apart(a, b)
    ensures Simple(a + b) && Ascending(a + b)
  {
    var l := a + b;
    forall i, j | 0 <= i < j < |l|
      ensures l[i] != l[j] && l[i] != Link(l[j].site2, l[j].site1)
    {
      if j < |a| {
        assert l[i] == a[i] && l[j] == a[j];
      } else if i < |a| {
        assert l[i] == a[i] && l[j] == b[j - |a|];
      } else {
        assert l[i] == b[i - |a|] && l[j] == b[j - |a|];
      }
    }
  }

  /** The first two parts of the layout are simple on their own. */
  lemma IbmqEarlyPartsSimple()
    ensures Simple(IbmqPart1) && Simple(IbmqPart2)
  {
  }

  /** The last two parts of the layout are simple on their own. */
  lemma IbmqLatePartsSimple()
    ensures Simple(IbmqPart3) && Simple(IbmqPart4)
  {
  }

  /** Every link of the layout runs from a lower site to a higher one. */
  lemma IbmqPartsAscending()
    ensures Ascending(IbmqPart1) && Ascending(IbmqPart2) && Ascending(IbmqPart3) && Ascending(IbmqPart4)
  {
  }

  /** The first part shares no link with the later ones. */
  lemma IbmqFirstPartApart()
    ensures Apart(IbmqPart1, IbmqPart2) && Apart(IbmqPart1, IbmqPart3) && Apart(IbmqPart1, IbmqPart4)
  {
  }

  /** The later parts share no link with one another. */
  lemma IbmqLaterPartsApart()
    ensures Apart(IbmqPart2, IbmqPart3) && Apart(IbmqPart2, IbmqPart4) && Apart(IbmqPart3, IbmqPart4)
  {
  }

  /**
   * The 53-site layout has no self-link and no repeated link, and links
   * sites 0 and 1, where a new circuit puts its cursor.
   */
  lemma IbmqSimple()
    ensures Simple(IbmqLinks) && Linked(IbmqLinks, 0, 1)
  {
    IbmqEarlyPartsSimple();
    IbmqLatePartsSimple();
    IbmqPartsAscending();
    IbmqFirstPartApart();
    IbmqLaterPartsApart();
    SimpleAppend(IbmqPart1, IbmqPart2);
    ApartAppend(IbmqPart1, IbmqPart2, IbmqPart3);
    SimpleAppend(IbmqPart1 + IbmqPart2, IbmqPart3);
    ApartAppend(IbmqPart1 + IbmqPart2, IbmqPart3, IbmqPart4);
    ApartAppend(IbmqPart1, IbmqPart2, IbmqPart4);
    SimpleAppend(IbmqPart1 + IbmqPart2 + IbmqPart3, IbmqPart4);
    assert IbmqLinks[0] == Link(0, 1);
  }

  /** A run apart from `c` on both halves is apart from it as a whole. */
  lemma ApartAppend(a: seq<Link>, b: seq<Link>, c: seq<Link>)
    requires Apart(a, c) && Apart(b, c)
    ensures Apart(a + b, c)
  {
    forall i, j | 0 <= i < |a + b| && 0 <= j < |c|
      ensures (a + b)[i] != c[j]
    {
      if i < |a| {
        assert (a + b)[i] == a[i];
      } else {
        assert (a + b)[i] == b[i - |a|];
      }
    }
  }

  /** Joining two lists whose endpoints are sites gives such a list. */
  lemma InRangeAppend(n: nat, a: seq<Link>, b: seq<Link>)
    requires InRange(n, a) && InRange(n, b)
    ensures InRange(n, a + b)
  {
  }

  /**
   * make_ibmq_topology: 53 sites and a fixed sequence of 58 link insertions,
   * made one table entry at a time in the same order.
   */
  method MakeIbmq() returns (t: CircuitTopology)
    ensures fresh(t) && t.Valid() && t.numBits == 53
    ensures t.links == IbmqLinks
  {
    t := new CircuitTopology(53);
    IbmqShape();
    InsertLinks(t, IbmqLinks);
  }

  /** The open chain 0 - 1 - ... - m: link id i joins i and i+1. */
  function OpenChain(m: nat): (r: seq<Link>)
    ensures |r| == m
  {
    seq(m, i requires 0 <= i < m => Link(i, i + 1))
  }

  /** The links `make_chain(size, periodic)` inserts, in order. */
  function ChainLinks(size: nat, periodic: bool): seq<Link>
    requires size >= 1
  {
    OpenChain(size - 1) + (if periodic then [Link(size - 1, 0)] else [])
  }

  /**
   * make_chain: links i -- i+1 for i < size-1, then, when periodic, the closing
   * link size-1 -- 0. `size - 1` is computed on an unsigned type, so size 0 is
   * not a valid argument.
   */
  method MakeChain(size: nat, periodic: bool) returns (t: CircuitTopology)
    requires size >= 1
    ensures fresh(t) && t.Valid() && t.numBits == size
    ensures t.links == ChainLinks(size, periodic)
    ensures |t.links| == if periodic then size else size - 1
    ensures forall i :: 0 <= i < size - 1 ==> t.links[i] == Link(i, i + 1)
    ensures periodic ==> t.links[size - 1] == Link(size - 1, 0)
  {
    t := new CircuitTopology(size);
    for i := 0 to size - 1
      invariant fresh(t) && t.Valid() && t.numBits == size
      invariant t.links == OpenChain(i)
    {
      t.GenerateLink(i, i + 1);
    }
    if periodic {
      t.GenerateLink(size - 1, 0);
    }
  }

  /**
   * A chain of at least three sites, open or periodic, has no self-link and
   * no repeated link, and links sites 0 and 1.
   */
  lemma ChainSimple(size: nat, periodic: bool)
    requires size >= 3
    ensures Simple(ChainLinks(size, periodic)) && Linked(ChainLinks(size, periodic), 0, 1)
  {
    assert ChainLinks(size, periodic)[0] == Link(0, 1);
  }

  /** The adjacency list of site s in the open chain of m links: its left link, then its right link. */
  lemma {:induction false} OpenChainNeighbors(m: nat, s: nat)
    ensures IncidentTo(OpenChain(m), s) ==
            (if 0 < s <= m then [Neighbor(s - 1, s - 1)] else []) +
            (if s < m then [Neighbor(s + 1, s)] else [])
  {
    if m > 0 {
      assert OpenChain(m)[..m - 1] == OpenChain(m - 1);
      OpenChainNeighbors(m - 1, s);
    }
  }

  /**
   * In a chain of size >= 3, every site has two neighbours: the left one first
   * (for site 0 in a periodic chain, the right one first, the closing link last).
   * In an open chain the two end sites have one neighbour.
   */
  lemma ChainNeighbors(size: nat, periodic: bool, s: nat)
    requires size >= 3 && s < size
    ensures periodic && s == 0 ==>
              IncidentTo(ChainLinks(size, periodic), s) == [Neighbor(1, 0), Neighbor(size - 1, size - 1)]
    ensures periodic && s == size - 1 ==>
              IncidentTo(ChainLinks(size, periodic), s) == [Neighbor(size - 2, size - 2), Neighbor(0, size - 1)]
    ensures 0 < s < size - 1 ==>
              IncidentTo(ChainLinks(size, periodic), s) == [Neighbor(s - 1, s - 1), Neighbor(s + 1, s)]
    ensures !periodic && s == 0 ==> IncidentTo(ChainLinks(size, periodic), s) == [Neighbor(1, 0)]
    ensures !periodic && s == size - 1 ==>
              IncidentTo(ChainLinks(size, periodic), s) == [Neighbor(size - 2, size - 2)]
  {
    var links := ChainLinks(size, periodic);
    OpenChainNeighbors(size - 1, s);
    if periodic {
      assert links[..|links| - 1] == OpenChain(size - 1);
    } else {
      assert links == OpenChain(size - 1);
    }
  }

  /** A periodic chain of one site closes on itself: a self-link. */
  lemma ChainOfOneIsSelfLink()
    ensures ChainLinks(1, true) == [Link(0, 0)]
    ensures IncidentTo(ChainLinks(1, true), 0) == [Neighbor(0, 0), Neighbor(0, 0)]
  {
    assert ChainLinks(1, true)[..0] == [];
  }

  /** A periodic chain of two sites joins 0 and 1 twice, under two different ids. */
  lemma ChainOfTwoDuplicates()
    ensures ChainLinks(2, true) == [Link(0, 1), Link(1, 0)]
    ensures IncidentTo(ChainLinks(2, true), 0) == [Neighbor(1, 0), Neighbor(1, 1)]
  {
    var links := ChainLinks(2, true);
    assert links[..1] == [Link(0, 1)] && links[..1][..0] == [];
  }

  /** Row i of the all-to-all graph: i -- i+1, ..., i -- n-1. */
  function Row(n: nat, i: nat): (r: seq<Link>)
    ensures |r| == if i < n then n - i - 1 else 0
  {
    seq(if i < n then n - i - 1 else 0, k requires 0 <= k => Link(i, i + 1 + k))
  }

  /** Rows 0 .. m-1 of the all-to-all graph on n sites, concatenated. */
  function Rows(n: nat, m: nat): seq<Link>
  {
    if m == 0 then [] else Rows(n, m - 1) + Row(n, m - 1)
  }

  /** The links `make_alltoall_topology(n)` inserts, in order. */
  function AllToAllLinks(n: nat): seq<Link>
  {
    Rows(n, n)
  }

  /** make_alltoall_topology: for i < n, for i < j < n, insert i -- j. */
  method MakeAllToAll(size: nat) returns (t: CircuitTopology)
    ensures fresh(t) && t.Valid() && t.numBits == size
    ensures t.links == AllToAllLinks(size)
  {
    t := new CircuitTopology(size);
    for i := 0 to size
      invariant fresh(t) && t.Valid() && t.numBits == size
      invariant t.links == Rows(size, i)
    {
      for j := i + 1 to size
        invariant fresh(t) && t.Valid() && t.numBits == size
        invariant t.links == Rows(size, i) + Row(size, i)[..j - i - 1]
      {
        t.GenerateLink(i, j);
        assert Row(size, i)[..j - i] == Row(size, i)[..j - i - 1] + [Link(i, j)];
      }
      assert Row(size, i)[..size - i - 1] == Row(size, i);
    }
  }

  /** (i, j) before (k, l) in lexicographic order. */
  predicate LexLess(a: Link, b: Link)
  {
    a.site1 < b.site1 || (a.site1 == b.site1 && a.site2 < b.site2)
  }

  lemma {:induction false} RowsLength(n: nat, m: nat)
    requires m <= n
    ensures 2 * |Rows(n, m)| == m * (2 * n - m - 1)
  {
    if m > 0 {
      RowsLength(n, m - 1);
      assert 2 * |Rows(n, m)| == (m - 1) * (2 * n - m) + 2 * (n - m);
    }
  }

  /** The all-to-all graph on n sites has n(n-1)/2 links. */
  lemma AllToAllCount(n: nat)
    ensures |AllToAllLinks(n)| == n * (n - 1) / 2
  {
    RowsLength(n, n);
  }

  /** Rows 0 .. m-1 hold exactly the pairs i < j < n with i < m. */
  lemma {:induction false} RowsMembers(n: nat, m: nat, l: Link)
    ensures l in Rows(n, m) <==> l.site1 < l.site2 < n && l.site1 < m
  {
    if m > 0 {
      RowsMembers(n, m - 1, l);
      if l.site1 == m - 1 && l.site1 < l.site2 < n {
        assert Row(n, m - 1)[l.site2 - m] == l;
      }
    }
  }

  /** Rows 0 .. m-1 are in strictly increasing lexicographic order. */
  lemma {:induction false} RowsOrdered(n: nat, m: nat)
    ensures forall i, j :: 0 <= i < j < |Rows(n, m)| ==> LexLess(Rows(n, m)[i], Rows(n, m)[j])
    ensures forall i :: 0 <= i < |Rows(n, m)| ==> Rows(n, m)[i].site1 < m
  {
    if m > 0 {
      RowsOrdered(n, m - 1);
    }
  }

  /**
   * The all-to-all graph links every pair i < j < n, and only those, in
   * lexicographic order; so each pair is linked exactly once.
   */
  lemma AllToAllPairs(n: nat)
    ensures forall l :: l in AllToAllLinks(n) <==> l.site1 < l.site2 < n
    ensures forall i, j :: 0 <= i < j < |AllToAllLinks(n)| ==>
              LexLess(AllToAllLinks(n)[i], AllToAllLinks(n)[j])
  {
    forall l ensures l in AllToAllLinks(n) <==> l.site1 < l.site2 < n {
      RowsMembers(n, n, l);
    }
    RowsOrdered(n, n);
  }

  /** The all-to-all graph on at least two sites has no self-link and no repeated link, and links sites 0 and 1. */
  lemma AllToAllSimple(n: nat)
    requires n >= 2
    ensures Simple(AllToAllLinks(n)) && Linked(AllToAllLinks(n), 0, 1)
  {
    AllToAllPairs(n);
  }
}
