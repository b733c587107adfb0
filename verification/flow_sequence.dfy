/**
 * `_flow_to_sequence` of `examples/moma_network_flow_manager/src/main.rs`:
 * the flows of all edges as one canonical sequence. The nodes are visited
 * in the order of a `BTreeMap`, ascending by `Point`'s derived order (`x`,
 * then `y`); each node's edges are stably sorted by `(to.x, to.y)`.
 */
module FlowSequences {
  import opened Grids
  import opened NetworkGraph

  /** `Point`'s derived `Ord`: by `x`, then by `y`. */
  predicate PointBefore(a: Point, b: Point) {
    a.x < b.x || (a.x == b.x && a.y < b.y)
  }

  /** The sort key `(e.to.x, e.to.y)` of `e` is not above that of `f`. */
  predicate ToAtMost(e: Edge, f: Edge) {
    !PointBefore(f.to, e.to)
  }

  /** Ascending by the sort key, equal keys allowed. */
  predicate SortedByTo(s: seq<Edge>) {
    forall i, j :: 0 <= i < j < |s| ==> ToAtMost(s[i], s[j])
  }

  /** No entry of `s` has target `t`. */
  predicate Avoids(s: seq<Edge>, t: Point) {
    forall f :: f in s ==> f.to != t
  }

  /** No two entries share a target. */
  predicate DistinctTo(s: seq<Edge>) {
    forall i, j :: 0 <= i < j < |s| ==> s[i].to != s[j].to
  }

  // ------------------------------------------------- the BTreeMap order

  /** The least point of a non-empty set. */
  ghost function MinPoint(ks: set<Point>): (m: Point)
    requires ks != {}
    ensures m in ks && forall q :: q in ks && q != m ==> PointBefore(m, q)
    decreases ks
  {
    var k :| k in ks;
    if ks == {k} then k
    else
      var m := MinPoint(ks - {k});
      PointTotal(k, m);
      if PointBefore(k, m) then
        assert forall q :: q in ks && q != k ==> q in ks - {k};
        k
      else
        assert forall q :: q in ks && q != m && q != k ==> q in ks - {k};
        m
  }

  /** Distinct points are ordered one way or the other. */
  lemma PointTotal(a: Point, b: Point)
    requires a != b
    ensures PointBefore(a, b) || PointBefore(b, a)
  {
  }

  /** The keys of a map as a `BTreeMap` iterates them: each once, ascending. */
  ghost function SortedPoints(ks: set<Point>): (r: seq<Point>)
    ensures |r| == |ks|
    ensures forall i :: 0 <= i < |r| ==> r[i] in ks
    ensures forall k :: k in ks ==> k in r
    ensures forall i, j :: 0 <= i < j < |r| ==> PointBefore(r[i], r[j])
    decreases ks
  {
    if ks == {} then []
    else
      var m := MinPoint(ks);
      var rest := SortedPoints(ks - {m});
      assert forall i :: 0 <= i < |rest| ==> PointBefore(m, rest[i]);
      [m] + rest
  }

  // ---------------------------------------------------- the stable sort

  /**
   * Insert `e` in front of the first entry whose key is not below its own.
   * Inserting the elements of a list from the back this way is a stable sort.
   */
  function Insert(e: Edge, s: seq<Edge>): (r: seq<Edge>)
    ensures |r| == |s| + 1 && multiset(r) == multiset(s) + multiset{e}
    ensures SortedByTo(s) ==> SortedByTo(r)
    ensures DistinctTo(s) && Avoids(s, e.to) ==> DistinctTo(r)
  {
    if |s| == 0 || !PointBefore(s[0].to, e.to) then [e] + s
    else
      var tail := Insert(e, s[1..]);
      assert s == [s[0]] + s[1..];
      InsertSorted(e, s, tail);
      InsertDistinct(e, s, tail);
      [s[0]] + tail
  }

  /** Each entry of the insertion into the tail is `e` or an entry of the tail. */
  lemma InsertFrom(e: Edge, s: seq<Edge>, tail: seq<Edge>, j: int)
    requires |s| > 0 && multiset(tail) == multiset(s[1..]) + multiset{e}
    requires 0 <= j < |tail|
    ensures tail[j] == e || exists k :: 1 <= k < |s| && s[k] == tail[j]
  {
    assert tail[j] in multiset(tail);
    if tail[j] != e {
      assert tail[j] in multiset(s[1..]);
      var k :| 0 <= k < |s[1..]| && s[1..][k] == tail[j];
      assert s[k + 1] == tail[j];
    }
  }

  /** The head of a list with distinct targets keeps them distinct in front of the insertion into its tail. */
  lemma InsertDistinct(e: Edge, s: seq<Edge>, tail: seq<Edge>)
    requires |s| > 0 && multiset(tail) == multiset(s[1..]) + multiset{e}
    requires DistinctTo(s[1..]) && Avoids(s[1..], e.to) ==> DistinctTo(tail)
    ensures DistinctTo(s) && Avoids(s, e.to) ==> DistinctTo([s[0]] + tail)
  {
    if DistinctTo(s) && Avoids(s, e.to) {
      assert DistinctTo(s[1..]) by {
        forall i, j | 0 <= i < j < |s[1..]| ensures s[1..][i].to != s[1..][j].to {
          assert s[1..][i] == s[i + 1] && s[1..][j] == s[j + 1];
        }
      }
      assert s[0] in s;
      forall j | 0 <= j < |tail| ensures s[0].to != tail[j].to {
        InsertFrom(e, s, tail, j);
      }
      var r := [s[0]] + tail;
      forall i, j | 0 <= i < j < |r| ensures r[i].to != r[j].to {
        if i > 0 {
          assert r[i] == tail[i - 1] && r[j] == tail[j - 1];
        }
      }
    }
  }

  /** The head of a sorted list stays in front of the insertion into its tail when `e` sorts after it. */
  lemma InsertSorted(e: Edge, s: seq<Edge>, tail: seq<Edge>)
    requires |s| > 0 && PointBefore(s[0].to, e.to)
    requires multiset(tail) == multiset(s[1..]) + multiset{e}
    requires SortedByTo(s) ==> SortedByTo(tail)
    ensures SortedByTo(s) ==> SortedByTo([s[0]] + tail)
  {
    if SortedByTo(s) {
      forall j | 0 <= j < |tail| ensures ToAtMost(s[0], tail[j]) {
        InsertFrom(e, s, tail, j);
      }
    }
  }

  /** `sort_by_key(|e| (e.to.x, e.to.y))`: the same edges, ascending by target. */
  function SortEdges(es: seq<Edge>): (r: seq<Edge>)
    ensures |r| == |es| && multiset(r) == multiset(es)
    ensures SortedByTo(r)
    ensures DistinctTo(es) ==> DistinctTo(r)
  {
    if |es| == 0 then []
    else
      var rest := SortEdges(es[1..]);
      assert es == [es[0]] + es[1..];
      SortDistinct(es, rest);
      Insert(es[0], rest)
  }

  /** With distinct targets in `es`, its head's target is not among the sorted tail's. */
  lemma SortDistinct(es: seq<Edge>, rest: seq<Edge>)
    requires |es| > 0 && multiset(rest) == multiset(es[1..])
    requires DistinctTo(es[1..]) ==> DistinctTo(rest)
    ensures DistinctTo(es) ==> DistinctTo(rest) && Avoids(rest, es[0].to)
  {
    if DistinctTo(es) {
      assert DistinctTo(es[1..]) by {
        forall i, j | 0 <= i < j < |es[1..]| ensures es[1..][i].to != es[1..][j].to {
          assert es[1..][i] == es[i + 1] && es[1..][j] == es[j + 1];
        }
      }
      forall f | f in rest ensures f.to != es[0].to {
        assert f in multiset(es[1..]);
        var k :| 0 <= k < |es[1..]| && es[1..][k] == f;
        assert es[k + 1] == f;
      }
    }
  }

  // ----------------------------------------------------------- the walk

  /** Each edge of `es` labelled with the node it leaves. */
  function Tag(u: Point, es: seq<Edge>): (r: seq<(Point, Edge)>)
    ensures |r| == |es|
    ensures forall i :: 0 <= i < |r| ==> r[i] == (u, es[i])
  {
    seq(|es|, i requires 0 <= i < |es| => (u, es[i]))
  }

  /** The labelled edges of the nodes `keys`, each node's list sorted, node after node. */
  ghost function Visit(adj: map<Point, seq<Edge>>, keys: seq<Point>): seq<(Point, Edge)>
    requires forall i :: 0 <= i < |keys| ==> keys[i] in adj
  {
    if |keys| == 0 then [] else Tag(keys[0], SortEdges(adj[keys[0]])) + Visit(adj, keys[1..])
  }

  /** The labelled edges in the order `_flow_to_sequence` emits their flows. */
  ghost function Listing(g: Graph): seq<(Point, Edge)> {
    Visit(g.adj, SortedPoints(g.adj.Keys))
  }

  /**
   * `_flow_to_sequence`: `edge.flow as f64` for each edge of the listing.
   * Flows are `u64` and the conversion is taken as exact.
   */
  ghost function FlowSequence(g: Graph): seq<real> {
    var l := Listing(g);
    seq(|l|, i requires 0 <= i < |l| => l[i].1.flow as real)
  }

  // ----------------------------------------------------- what it promises

  /** `a` may come before `b`: an earlier node, or the same node and a target not above. */
  predicate ListedBefore(a: (Point, Edge), b: (Point, Edge)) {
    PointBefore(a.0, b.0) || (a.0 == b.0 && ToAtMost(a.1, b.1))
  }

  /** `a` comes strictly before `b`: an earlier node, or the same node and a lower target. */
  predicate ListedStrictly(a: (Point, Edge), b: (Point, Edge)) {
    PointBefore(a.0, b.0) || (a.0 == b.0 && PointBefore(a.1.to, b.1.to))
  }

  /** Number of edges leaving the nodes `ks`. */
  ghost function EdgesOver(adj: map<Point, seq<Edge>>, ks: set<Point>): nat
    requires ks <= adj.Keys
  {
    if ks == {} then 0
    else
      var k :| k in ks;
      |adj[k]| + EdgesOver(adj, ks - {k})
  }

  /** The edge count can be summed starting from any node. */
  lemma {:induction false} EdgesSplit(adj: map<Point, seq<Edge>>, ks: set<Point>, k0: Point)
    requires ks <= adj.Keys && k0 in ks
    ensures EdgesOver(adj, ks) == |adj[k0]| + EdgesOver(adj, ks - {k0})
    decreases ks
  {
    var k :| k in ks && EdgesOver(adj, ks) == |adj[k]| + EdgesOver(adj, ks - {k});
    if k != k0 {
      EdgesSplit(adj, ks - {k}, k0);
      EdgesSplit(adj, ks - {k0}, k);
      assert ks - {k} - {k0} == ks - {k0} - {k};
    }
  }

  /** The walk over the sorted keys of `ks` lists exactly as many edges as the nodes have. */
  lemma {:induction false} VisitCount(adj: map<Point, seq<Edge>>, ks: set<Point>)
    requires ks <= adj.Keys
    ensures |Visit(adj, SortedPoints(ks))| == EdgesOver(adj, ks)
    decreases ks
  {
    if ks != {} {
      var keys := SortedPoints(ks);
      var m := MinPoint(ks);
      assert keys[0] == m && keys[1..] == SortedPoints(ks - {m});
      VisitCount(adj, ks - {m});
      EdgesSplit(adj, ks, m);
    }
  }

  /** Every listed edge is an edge of its node, and every edge of a visited node is listed. */
  lemma {:induction false} VisitMembers(adj: map<Point, seq<Edge>>, keys: seq<Point>)
    requires forall i :: 0 <= i < |keys| ==> keys[i] in adj
    ensures forall i :: 0 <= i < |Visit(adj, keys)| ==>
      Visit(adj, keys)[i].0 in keys && Visit(adj, keys)[i].1 in adj[Visit(adj, keys)[i].0]
    ensures forall k, e :: k in keys && e in adj[k] ==> (k, e) in Visit(adj, keys)
  {
    if |keys| > 0 {
      var k0 := keys[0];
      var head := Tag(k0, SortEdges(adj[k0]));
      var rest := Visit(adj, keys[1..]);
      VisitMembers(adj, keys[1..]);
      assert Visit(adj, keys) == head + rest;
      forall e | e in adj[k0] ensures (k0, e) in head {
        assert e in multiset(SortEdges(adj[k0]));
        var i :| 0 <= i < |SortEdges(adj[k0])| && SortEdges(adj[k0])[i] == e;
        assert head[i] == (k0, e);
      }
      forall i | 0 <= i < |head| ensures head[i].1 in adj[k0] {
        assert head[i].1 in multiset(SortEdges(adj[k0]));
      }
    }
  }

  /** Over ascending keys, every entry listed after the first node's block belongs to a later node. */
  lemma RestAfter(adj: map<Point, seq<Edge>>, keys: seq<Point>)
    requires |keys| > 0 && forall i :: 0 <= i < |keys| ==> keys[i] in adj
    requires forall i, j :: 0 <= i < j < |keys| ==> PointBefore(keys[i], keys[j])
    ensures forall i :: 0 <= i < |Visit(adj, keys[1..])| ==> PointBefore(keys[0], Visit(adj, keys[1..])[i].0)
  {
    var rest := Visit(adj, keys[1..]);
    VisitMembers(adj, keys[1..]);
    forall i | 0 <= i < |rest| ensures PointBefore(keys[0], rest[i].0) {
      var m :| 0 <= m < |keys[1..]| && keys[1..][m] == rest[i].0;
      assert keys[m + 1] == rest[i].0;
    }
  }

  /** Over ascending keys, the walk is ordered by node and then by target. */
  lemma {:induction false} VisitSorted(adj: map<Point, seq<Edge>>, keys: seq<Point>)
    requires forall i :: 0 <= i < |keys| ==> keys[i] in adj
    requires forall i, j :: 0 <= i < j < |keys| ==> PointBefore(keys[i], keys[j])
    ensures forall i, j :: 0 <= i < j < |Visit(adj, keys)| ==> ListedBefore(Visit(adj, keys)[i], Visit(adj, keys)[j])
  {
    if |keys| > 0 {
      var k0 := keys[0];
      var sorted := SortEdges(adj[k0]);
      var head := Tag(k0, sorted);
      var rest := Visit(adj, keys[1..]);
      VisitSorted(adj, keys[1..]);
      RestAfter(adj, keys);
      var l := head + rest;
      assert Visit(adj, keys) == l;
      forall i, j | 0 <= i < j < |l| ensures ListedBefore(l[i], l[j]) {
        if j < |head| {
          assert l[i] == (k0, sorted[i]) && l[j] == (k0, sorted[j]);
        } else if i < |head| {
          assert l[j] == rest[j - |head|];
        } else {
          assert l[i] == rest[i - |head|] && l[j] == rest[j - |head|];
        }
      }
    }
  }

  /** Over ascending keys whose lists have distinct targets, the walk is strictly ordered. */
  lemma {:induction false} VisitStrict(adj: map<Point, seq<Edge>>, keys: seq<Point>)
    requires forall i :: 0 <= i < |keys| ==> keys[i] in adj && DistinctTo(adj[keys[i]])
    requires forall i, j :: 0 <= i < j < |keys| ==> PointBefore(keys[i], keys[j])
    ensures forall i, j :: 0 <= i < j < |Visit(adj, keys)| ==> ListedStrictly(Visit(adj, keys)[i], Visit(adj, keys)[j])
  {
    if |keys| > 0 {
      var k0 := keys[0];
      var sorted := SortEdges(adj[k0]);
      var head := Tag(k0, sorted);
      var rest := Visit(adj, keys[1..]);
      VisitStrict(adj, keys[1..]);
      RestAfter(adj, keys);
      var l := head + rest;
      assert Visit(adj, keys) == l;
      forall i, j | 0 <= i < j < |l| ensures ListedStrictly(l[i], l[j]) {
        if j < |head| {
          assert l[i] == (k0, sorted[i]) && l[j] == (k0, sorted[j]);
          assert sorted[i].to != sorted[j].to && ToAtMost(sorted[i], sorted[j]);
          PointTotal(sorted[i].to, sorted[j].to);
        } else if i < |head| {
          assert l[j] == rest[j - |head|];
        } else {
          assert l[i] == rest[i - |head|] && l[j] == rest[j - |head|];
        }
      }
    }
  }

  /**
   * `_flow_to_sequence` lists one flow per edge of the graph, in the order of
   * the labelled listing; that listing holds exactly the graph's edges and is
   * ascending by the node the edge leaves (`Point` order) and then by its target.
   */
  lemma FlowSequenceOrder(g: Graph)
    ensures |FlowSequence(g)| == |Listing(g)| == EdgesOver(g.adj, g.adj.Keys)
    ensures forall i :: 0 <= i < |FlowSequence(g)| ==> FlowSequence(g)[i] == Listing(g)[i].1.flow as real
    ensures forall i, j :: 0 <= i < j < |Listing(g)| ==> ListedBefore(Listing(g)[i], Listing(g)[j])
    ensures forall i :: 0 <= i < |Listing(g)| ==> Listing(g)[i].0 in g.adj && Listing(g)[i].1 in g.adj[Listing(g)[i].0]
    ensures forall u, e :: u in g.adj && e in g.adj[u] ==> (u, e) in Listing(g)
    ensures NoParallel(g) ==> forall i, j :: 0 <= i < j < |Listing(g)| ==> ListedStrictly(Listing(g)[i], Listing(g)[j])
  {
    VisitCount(g.adj, g.adj.Keys);
    ListingSorted(g);
    ListingMembers(g);
    if NoParallel(g) {
      ListingStrict(g);
    }
  }

  /** Without parallel edges no two entries share both node and target. */
  lemma ListingStrict(g: Graph)
    requires NoParallel(g)
    ensures forall i, j :: 0 <= i < j < |Listing(g)| ==> ListedStrictly(Listing(g)[i], Listing(g)[j])
  {
    var keys := SortedPoints(g.adj.Keys);
    assert forall i :: 0 <= i < |keys| ==> DistinctTo(g.adj[keys[i]]);
    VisitStrict(g.adj, keys);
  }

  /** The listing is ascending by node and then by target. */
  lemma ListingSorted(g: Graph)
    ensures forall i, j :: 0 <= i < j < |Listing(g)| ==> ListedBefore(Listing(g)[i], Listing(g)[j])
  {
    VisitSorted(g.adj, SortedPoints(g.adj.Keys));
  }

  /** The listing holds exactly the edges of the graph, each with the node it leaves. */
  lemma ListingMembers(g: Graph)
    ensures forall i :: 0 <= i < |Listing(g)| ==> Listing(g)[i].0 in g.adj && Listing(g)[i].1 in g.adj[Listing(g)[i].0]
    ensures forall u, e :: u in g.adj && e in g.adj[u] ==> (u, e) in Listing(g)
  {
    VisitMembers(g.adj, SortedPoints(g.adj.Keys));
  }
}
