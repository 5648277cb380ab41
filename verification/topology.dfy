/**
 * The connectivity graph of a circuit: `num_bits` sites, and links inserted one
 * at a time, each getting the next link id. Every site keeps an adjacency list of
 * (neighbouring site, link id) entries, appended to in link-insertion order.
 *
 * The reference definition of a site's list is `IncidentTo(links, site)`, a
 * function of the sequence of links inserted so far; the class below keeps its
 * lists equal to it, and the lemmas state what it guarantees.
 */
module Topology {

  /** One adjacency entry: the neighbouring site and the id of the link to it. */
  datatype Neighbor = Neighbor(site: nat, link: nat)

  /** A link as it was inserted: `generate_link(site1, site2)`. */
  datatype Link = Link(site1: nat, site2: nat)

  /** The entries that link number `id` appends to the list of `site`, in the order they are appended. */
  function EntriesOf(l: Link, id: nat, site: nat): seq<Neighbor>
  {
    (if l.site1 == site then [Neighbor(l.site2, id)] else []) +
    (if l.site2 == site then [Neighbor(l.site1, id)] else [])
  }

  /** The adjacency list of `site` after inserting `links` in order into an empty graph. */
  function IncidentTo(links: seq<Link>, site: nat): seq<Neighbor>
  {
    if links == [] then []
    else IncidentTo(links[..|links| - 1], site) + EntriesOf(links[|links| - 1], |links| - 1, site)
  }

  /** Every link joins two sites of a graph with `numBits` sites. */
  ghost predicate InRange(numBits: nat, links: seq<Link>)
  {
    forall id :: 0 <= id < |links| ==> links[id].site1 < numBits && links[id].site2 < numBits
  }

  /** `a` and `b` are joined by at least one link. */
  predicate Linked(links: seq<Link>, a: nat, b: nat)
  {
    Link(a, b) in links || Link(b, a) in links
  }

  /** No self-link and at most one link between any two sites. */
  ghost predicate Simple(links: seq<Link>)
  {
    && (forall id :: 0 <= id < |links| ==> links[id].site1 != links[id].site2)
    && (forall i, j :: 0 <= i < j < |links| ==>
          links[i] != links[j] && links[i] != Link(links[j].site2, links[j].site1))
  }

  /** Number of entries of `l` that carry link id `id`. */
  function LinkCount(l: seq<Neighbor>, id: nat): nat
  {
    if l == [] then 0
    else LinkCount(l[..|l| - 1], id) + (if l[|l| - 1].link == id then 1 else 0)
  }

  /** Number of entries carrying link id `id` over the lists of sites 0 .. n-1. */
  function TotalLinkCount(links: seq<Link>, n: nat, id: nat): nat
  {
    if n == 0 then 0 else TotalLinkCount(links, n - 1, id) + LinkCount(IncidentTo(links, n - 1), id)
  }

  function Indicator(b: bool): nat { if b then 1 else 0 }

  /**
   * A snapshot of a topology's state: the three fields of the class below. A
   * circuit keeps such a copy of the topology it was built on.
   */
  datatype Graph = Graph(numBits: nat, neighbors: seq<seq<Neighbor>>, numLinks: nat)

  /** `g` is the graph obtained by inserting `links`, in order, into `numBits` empty lists. */
  ghost predicate BuiltFrom(g: Graph, links: seq<Link>)
  {
    && |g.neighbors| == g.numBits
    && g.numLinks == |links|
    && InRange(g.numBits, links)
    && forall k :: 0 <= k < g.numBits ==> g.neighbors[k] == IncidentTo(links, k)
  }

  class CircuitTopology {
    var neighborsList: seq<seq<Neighbor>>
    var numLinks: nat
    const numBits: nat
    /** The links inserted so far, in insertion order. */
    ghost var links: seq<Link>

    function Value(): Graph
      reads this
    {
      Graph(numBits, neighborsList, numLinks)
    }

    ghost predicate Valid()
      reads this
    {
      BuiltFrom(Value(), links)
    }

    /** A topology of `numBits` sites with no link. */
    constructor (numBits: nat)
      ensures Valid() && this.numBits == numBits && links == []
      ensures numLinks == 0 && |neighborsList| == numBits
      ensures forall k :: 0 <= k < numBits ==> neighborsList[k] == []
    {
      this.numBits := numBits;
      numLinks := 0;
      neighborsList := seq(numBits, _ => []);
      links := [];
    }

    /**
     * Inserts the link site1 -- site2 with id `numLinks`: appends (site2, id) to
     * the list of site1, then (site1, id) to the list of site2. Neither a
     * duplicate link nor a self-link is refused.
     */
    method GenerateLink(site1: nat, site2: nat)
      requires Valid() && site1 < numBits && site2 < numBits
      modifies this
      ensures Valid() && links == old(links) + [Link(site1, site2)]
      ensures numLinks == old(numLinks) + 1
      ensures var id := old(numLinks);
              var once := old(neighborsList)[site1 := old(neighborsList)[site1] + [Neighbor(site2, id)]];
              neighborsList == once[site2 := once[site2] + [Neighbor(site1, id)]]
      ensures forall k :: 0 <= k < numBits && k != site1 && k != site2 ==> neighborsList[k] == old(neighborsList)[k]
    {
      neighborsList := neighborsList[site1 := neighborsList[site1] + [Neighbor(site2, numLinks)]];
      neighborsList := neighborsList[site2 := neighborsList[site2] + [Neighbor(site1, numLinks)]];
      links := links + [Link(site1, site2)];
      numLinks := numLinks + 1;
      assert links[..|links| - 1] == old(links);
      forall k | 0 <= k < numBits
        ensures neighborsList[k] == IncidentTo(links, k)
      {
        assert IncidentTo(links, k) == IncidentTo(old(links), k) + EntriesOf(Link(site1, site2), |old(links)|, k);
      }
    }

    function NumberOfLinks(): (r: nat)
      requires Valid()
      reads this
      ensures r == |links|
    {
      numLinks
    }

    /** `numberOfBits`: the number of sites fixed at construction. */
    function NumberOfBits(): (r: nat)
      reads this
      ensures r == numBits
    {
      numBits
    }

    /** The adjacency list of `index`, which is its entries in link-insertion order. */
    function NeighborsOf(index: nat): (r: seq<Neighbor>)
      requires Valid() && index < numBits
      reads this
      ensures r == IncidentTo(links, index)
    {
      neighborsList[index]
    }
  }

  /** The entries of a site's list are exactly the links that touch it, named by their other endpoint. */
  lemma {:induction false} IncidentMembership(links: seq<Link>, s: nat, t: nat, id: nat)
    ensures Neighbor(t, id) in IncidentTo(links, s) <==>
            id < |links| && (links[id] == Link(s, t) || links[id] == Link(t, s))
  {
    if links != [] {
      var init := links[..|links| - 1];
      IncidentMembership(init, s, t, id);
      assert forall k :: 0 <= k < |init| ==> init[k] == links[k];
    }
  }

  /** Adjacency is symmetric: (t, id) is in the list of s iff (s, id) is in the list of t. */
  lemma IncidentSymmetric(links: seq<Link>, s: nat, t: nat, id: nat)
    ensures Neighbor(t, id) in IncidentTo(links, s) <==> Neighbor(s, id) in IncidentTo(links, t)
  {
    IncidentMembership(links, s, t, id);
    IncidentMembership(links, t, s, id);
  }

  /** Every link id in a list is below the number of links, and ids never decrease along the list. */
  lemma {:induction false} IncidentOrdered(links: seq<Link>, s: nat)
    ensures forall i :: 0 <= i < |IncidentTo(links, s)| ==> IncidentTo(links, s)[i].link < |links|
    ensures forall i, j :: 0 <= i < j < |IncidentTo(links, s)| ==>
              IncidentTo(links, s)[i].link <= IncidentTo(links, s)[j].link
  {
    if links != [] {
      IncidentOrdered(links[..|links| - 1], s);
    }
  }

  /** A site's list holds link `id` once per endpoint of that link equal to the site. */
  lemma {:induction false} IncidentLinkCount(links: seq<Link>, s: nat, id: nat)
    ensures LinkCount(IncidentTo(links, s), id) ==
            if id < |links| then Indicator(links[id].site1 == s) + Indicator(links[id].site2 == s) else 0
  {
    if links != [] {
      var init := links[..|links| - 1];
      var last := links[|links| - 1];
      IncidentLinkCount(init, s, id);
      LinkCountAppend(IncidentTo(init, s), EntriesOf(last, |init|, s), id);
      EntriesLinkCount(last, |init|, s, id);
      assert id < |init| ==> init[id] == links[id];
    }
  }

  lemma EntriesLinkCount(l: Link, k: nat, s: nat, id: nat)
    ensures LinkCount(EntriesOf(l, k, s), id) ==
            if id == k then Indicator(l.site1 == s) + Indicator(l.site2 == s) else 0
  {
    var e := EntriesOf(l, k, s);
    if l.site1 == s && l.site2 == s {
      assert e == [Neighbor(l.site2, k), Neighbor(l.site1, k)];
      assert e[..1] == [Neighbor(l.site2, k)] && e[..1][..0] == [];
      assert LinkCount(e[..1], id) == Indicator(k == id);
    } else if l.site1 == s {
      assert e == [Neighbor(l.site2, k)] && e[..0] == [];
    } else if l.site2 == s {
      assert e == [Neighbor(l.site1, k)] && e[..0] == [];
    } else {
      assert e == [];
    }
  }

  lemma {:induction false} LinkCountAppend(a: seq<Neighbor>, b: seq<Neighbor>, id: nat)
    ensures LinkCount(a + b, id) == LinkCount(a, id) + LinkCount(b, id)
  {
    if b != [] {
      assert (a + b)[..|a + b| - 1] == a + b[..|b| - 1];
      LinkCountAppend(a, b[..|b| - 1], id);
    } else {
      assert a + b == a;
    }
  }

  /**
   * Over all sites, link id `id` appears exactly twice when it names a link
   * (once per endpoint, both in one list for a self-link), and never otherwise.
   */
  lemma LinkIdTwice(links: seq<Link>, n: nat, id: nat)
    requires InRange(n, links)
    ensures TotalLinkCount(links, n, id) == if id < |links| then 2 else 0
  {
    TotalLinkCountIs(links, n, n, id);
  }

  lemma {:induction false} TotalLinkCountIs(links: seq<Link>, n: nat, m: nat, id: nat)
    requires m <= n && InRange(n, links)
    ensures TotalLinkCount(links, m, id) ==
            if id < |links| then Indicator(links[id].site1 < m) + Indicator(links[id].site2 < m) else 0
  {
    if m > 0 {
      TotalLinkCountIs(links, n, m - 1, id);
      IncidentLinkCount(links, m - 1, id);
    }
  }

  /** A walk: consecutive sites are linked. */
  ghost predicate IsWalk(links: seq<Link>, p: seq<nat>)
  {
    |p| >= 1 && forall i :: 0 <= i < |p| - 1 ==> Linked(links, p[i], p[i + 1])
  }

  ghost predicate Reaches(links: seq<Link>, a: nat, b: nat)
  {
    exists p :: IsWalk(links, p) && p[0] == a && p[|p| - 1] == b
  }

  /** Every site of 0 .. n-1 is reachable from site 0. */
  ghost predicate Connected(n: nat, links: seq<Link>)
  {
    forall s :: 0 <= s < n ==> Reaches(links, 0, s)
  }

  /** A walk that starts inside a set of sites closed under links stays inside it. */
  lemma {:induction false} WalkStaysClosed(links: seq<Link>, c: set<nat>, p: seq<nat>)
    requires IsWalk(links, p) && p[0] in c
    requires forall a, b :: a in c && Linked(links, a, b) ==> b in c
    ensures p[|p| - 1] in c
  {
    if |p| > 1 {
      var q := p[..|p| - 1];
      assert IsWalk(links, q) by {
        forall i | 0 <= i < |q| - 1 ensures Linked(links, q[i], q[i + 1]) {
          assert q[i] == p[i] && q[i + 1] == p[i + 1];
        }
      }
      WalkStaysClosed(links, c, q);
      assert Linked(links, p[|p| - 2], p[|p| - 1]);
    }
  }

  /** Links 0-1, 0-2, 2-3, 3-4 on five sites: every site is reachable from site 0. */
  lemma TreeOfFiveIsConnected()
    ensures Connected(5, [Link(0, 1), Link(0, 2), Link(2, 3), Link(3, 4)])
  {
    var links := [Link(0, 1), Link(0, 2), Link(2, 3), Link(3, 4)];
    assert IsWalk(links, [0]);
    assert IsWalk(links, [0, 1]) by { assert Linked(links, 0, 1); }
    assert IsWalk(links, [0, 2]) by { assert Linked(links, 0, 2); }
    assert IsWalk(links, [0, 2, 3]) by { assert Linked(links, 0, 2) && Linked(links, 2, 3); }
    assert IsWalk(links, [0, 2, 3, 4]) by { assert Linked(links, 0, 2) && Linked(links, 2, 3) && Linked(links, 3, 4); }
    forall s | 0 <= s < 5 ensures Reaches(links, 0, s) {
      var p: seq<nat> := if s == 0 then [0] else if s == 1 then [0, 1] else if s == 2 then [0, 2]
                         else if s == 3 then [0, 2, 3] else [0, 2, 3, 4];
      assert IsWalk(links, p) && p[0] == 0 && p[|p| - 1] == s;
    }
  }

  /** Without the link 2-3, no walk leads from site 0 to site 3: the graph is not connected. */
  lemma ForestOfFiveIsNotConnected()
    ensures !Reaches([Link(0, 1), Link(0, 2), Link(3, 4)], 0, 3)
    ensures !Connected(5, [Link(0, 1), Link(0, 2), Link(3, 4)])
  {
    var links := [Link(0, 1), Link(0, 2), Link(3, 4)];
    var c: set<nat> := {0, 1, 2};
    forall a: nat, b: nat | a in c && Linked(links, a, b) ensures b in c {
    }
    if p :| IsWalk(links, p) && p[0] == 0 && p[|p| - 1] == 3 {
      WalkStaysClosed(links, c, p);
    }
  }
}
