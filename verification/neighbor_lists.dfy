/**
 * The scans a circuit runs over adjacency lists: does a list name a site, the
 * link id of the last (or first) entry naming it, and the list with the
 * entries naming it removed. Lemmas relate them to the links of the graph.
 */
module NeighborLists {
  import opened Topology

  /** Some entry of `l` names site `x`. */
  predicate Mentions(l: seq<Neighbor>, x: nat)
  {
    exists k :: 0 <= k < |l| && l[k].site == x
  }

  /**
   * The link id of the LAST entry naming `x`, scanning the whole list and
   * overwriting on every match; 0, the scan's initial value, when none does.
   */
  function LastLinkTo(l: seq<Neighbor>, x: nat): (r: nat)
    ensures Mentions(l, x) ==> Neighbor(x, r) in l
    ensures !Mentions(l, x) ==> r == 0
  {
    if l == [] then 0
    else if l[|l| - 1].site == x then l[|l| - 1].link
    else
      assert Mentions(l, x) ==> Mentions(l[..|l| - 1], x);
      LastLinkTo(l[..|l| - 1], x)
  }

  /** The link id of the FIRST entry naming `x`: what a find-if returns. */
  function FirstLinkTo(l: seq<Neighbor>, x: nat): (r: nat)
    requires Mentions(l, x)
    ensures Neighbor(x, r) in l
  {
    if l[0].site == x then l[0].link
    else
      assert Mentions(l[1..], x) by {
        var k :| 0 <= k < |l| && l[k].site == x;
        assert l[1..][k - 1] == l[k];
      }
      FirstLinkTo(l[1..], x)
  }

  /** `l` with every entry naming `x` removed, the others kept in order (a remove-if). */
  function Without(l: seq<Neighbor>, x: nat): (r: seq<Neighbor>)
    ensures forall n :: n in r <==> n in l && n.site != x
    ensures |r| <= |l| && (Mentions(l, x) ==> |r| < |l|)
  {
    if l == [] then []
    else
      var init := l[..|l| - 1];
      assert l == init + [l[|l| - 1]];
      assert Mentions(l, x) && l[|l| - 1].site != x ==> Mentions(init, x);
      Without(init, x) + (if l[|l| - 1].site != x then [l[|l| - 1]] else [])
  }

  /** The link ids of the entries of `l`. */
  function LinkIds(l: seq<Neighbor>): set<nat>
  {
    set n | n in l :: n.link
  }

  /** Link `id` has `k` as an endpoint. */
  ghost predicate Touches(links: seq<Link>, id: nat, k: nat)
  {
    id < |links| && (links[id].site1 == k || links[id].site2 == k)
  }

  /** Link `id` joins `k` and `x`, in either direction. */
  ghost predicate Joins(links: seq<Link>, id: nat, k: nat, x: nat)
  {
    id < |links| && (links[id] == Link(k, x) || links[id] == Link(x, k))
  }

  /** The ids of the links with endpoint `k`. */
  ghost function Touching(links: seq<Link>, k: nat): set<nat>
  {
    set id | 0 <= id < |links| && Touches(links, id, k)
  }

  /** The list of `k` names `x` exactly when `k` and `x` are linked. */
  lemma MentionsIffLinked(links: seq<Link>, k: nat, x: nat)
    ensures Mentions(IncidentTo(links, k), x) <==> Linked(links, k, x)
  {
    var l := IncidentTo(links, k);
    if Mentions(l, x) {
      var j :| 0 <= j < |l| && l[j].site == x;
      IncidentMembership(links, k, x, l[j].link);
      assert links[l[j].link] in links;
    }
    if Linked(links, k, x) {
      var id :| 0 <= id < |links| && (links[id] == Link(k, x) || links[id] == Link(x, k));
      IncidentMembership(links, k, x, id);
      var j :| 0 <= j < |l| && l[j] == Neighbor(x, id);
    }
  }

  /** The link ids in the list of `k` are the ids of the links with endpoint `k`. */
  lemma LinkIdsIncident(links: seq<Link>, k: nat)
    ensures LinkIds(IncidentTo(links, k)) == Touching(links, k)
  {
    var l := IncidentTo(links, k);
    forall id ensures id in LinkIds(l) <==> id in Touching(links, k) {
      if id in LinkIds(l) {
        var n :| n in l && n.link == id;
        IncidentMembership(links, k, n.site, id);
      }
      if id in Touching(links, k) {
        var t := if links[id].site1 == k then links[id].site2 else links[id].site1;
        IncidentMembership(links, k, t, id);
      }
    }
  }

  /** In a simple graph at most one link joins two given sites. */
  lemma SimpleJoinsOnce(links: seq<Link>, i: nat, j: nat, k: nat, x: nat)
    requires Simple(links) && Joins(links, i, k, x) && Joins(links, j, k, x)
    ensures i == j
  {
  }

  /** In a simple graph, every entry of the list of `k` naming `x` carries the id of the one link joining them. */
  lemma EntriesNamingLink(links: seq<Link>, k: nat, x: nat, id: nat, n: Neighbor)
    requires Simple(links) && Joins(links, id, k, x)
    requires n in IncidentTo(links, k) && n.site == x
    ensures n.link == id
  {
    IncidentMembership(links, k, x, n.link);
    SimpleJoinsOnce(links, n.link, id, k, x);
  }

  /**
   * In a simple graph the last and the first entry of the list of `k` naming a
   * linked site `x` both carry the id of the one link joining them.
   */
  lemma ScansAgree(links: seq<Link>, k: nat, x: nat, id: nat)
    requires Simple(links) && Joins(links, id, k, x)
    ensures Mentions(IncidentTo(links, k), x)
    ensures LastLinkTo(IncidentTo(links, k), x) == id
    ensures FirstLinkTo(IncidentTo(links, k), x) == id
  {
    var l := IncidentTo(links, k);
    IncidentMembership(links, k, x, id);
    var j :| 0 <= j < |l| && l[j] == Neighbor(x, id);
    EntriesNamingLink(links, k, x, id, Neighbor(x, LastLinkTo(l, x)));
    EntriesNamingLink(links, k, x, id, Neighbor(x, FirstLinkTo(l, x)));
  }

  /**
   * In a simple graph, removing from the list of `k` the entries naming a
   * linked site `x` removes exactly the id of the link joining them.
   */
  lemma LinkIdsWithout(links: seq<Link>, k: nat, x: nat, id: nat)
    requires Simple(links) && Joins(links, id, k, x)
    ensures LinkIds(Without(IncidentTo(links, k), x)) == Touching(links, k) - {id}
  {
    var l := IncidentTo(links, k);
    LinkIdsIncident(links, k);
    forall j ensures j in LinkIds(Without(l, x)) <==> j in Touching(links, k) - {id} {
      if j in LinkIds(Without(l, x)) {
        var n :| n in Without(l, x) && n.link == j;
        KeptEntryTouches(links, k, x, id, n);
      }
      if j in Touching(links, k) - {id} {
        OtherLinkKept(links, k, x, id, j);
      }
    }
  }

  lemma KeptEntryTouches(links: seq<Link>, k: nat, x: nat, id: nat, n: Neighbor)
    requires Joins(links, id, k, x)
    requires n in Without(IncidentTo(links, k), x)
    ensures n.link in Touching(links, k) - {id}
  {
    assert n in IncidentTo(links, k) && n.site != x;
    IncidentMembership(links, k, n.site, n.link);
  }

  lemma OtherLinkKept(links: seq<Link>, k: nat, x: nat, id: nat, j: nat)
    requires Simple(links) && Joins(links, id, k, x)
    requires j in Touching(links, k) - {id}
    ensures j in LinkIds(Without(IncidentTo(links, k), x))
  {
    var t := if links[j].site1 == k then links[j].site2 else links[j].site1;
    IncidentMembership(links, k, t, j);
    if t == x {
      SimpleJoinsOnce(links, j, id, k, x);
    }
    assert Neighbor(t, j) in Without(IncidentTo(links, k), x);
  }

  /** The first entry naming `x` carries the link id `FirstLinkTo` returns. */
  lemma {:induction false} FirstLinkAt(l: seq<Neighbor>, x: nat, j: nat)
    requires j < |l| && l[j].site == x
    requires forall k :: 0 <= k < j ==> l[k].site != x
    ensures Mentions(l, x) && FirstLinkTo(l, x) == l[j].link
  {
    if j > 0 {
      FirstLinkAt(l[1..], x, j - 1);
    }
  }

  /** The search loop of `shiftCursorTo`: walk the list until an entry names `x`. */
  method Mentioned(l: seq<Neighbor>, x: nat) returns (found: bool)
    ensures found == Mentions(l, x)
  {
    found := false;
    var j := 0;
    while j < |l|
      invariant 0 <= j <= |l|
      invariant !found ==> forall k :: 0 <= k < j ==> l[k].site != x
      invariant found ==> Mentions(l, x)
      decreases |l| - j
    {
      if l[j].site == x {
        found := true;
        break;
      }
      j := j + 1;
    }
  }

  /** The link scan of `shiftCursorTo`: every entry naming `x` overwrites the result, which starts at 0. */
  method ScanLastLink(l: seq<Neighbor>, x: nat) returns (link: nat)
    ensures link == LastLinkTo(l, x)
  {
    link := 0;
    for j := 0 to |l|
      invariant link == LastLinkTo(l[..j], x)
    {
      assert l[..j + 1][..j] == l[..j];
      if l[j].site == x {
        link := l[j].link;
      }
    }
    assert l[..|l|] == l;
  }

  /** `find_if` on the list, then the link id of the entry found. */
  method FindFirstLink(l: seq<Neighbor>, x: nat) returns (link: nat)
    requires Mentions(l, x)
    ensures link == FirstLinkTo(l, x)
  {
    var j := 0;
    while l[j].site != x
      invariant 0 <= j < |l|
      invariant forall k :: 0 <= k < j ==> l[k].site != x
      invariant exists k :: j <= k < |l| && l[k].site == x
      decreases |l| - j
    {
      j := j + 1;
    }
    FirstLinkAt(l, x, j);
    link := l[j].link;
  }

  /** `remove_if` on a copy of the list, then copying the kept prefix: the entries not naming `x`, in order. */
  method RemoveSite(l: seq<Neighbor>, x: nat) returns (r: seq<Neighbor>)
    ensures r == Without(l, x)
  {
    r := [];
    for j := 0 to |l|
      invariant r == Without(l[..j], x)
    {
      assert l[..j + 1][..j] == l[..j];
      if l[j].site != x {
        r := r + [l[j]];
      }
    }
    assert l[..|l|] == l;
  }
}
