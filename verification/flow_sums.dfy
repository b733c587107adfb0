/**
 * Pushing flow along a path, as `edmonds_karp` and `route_cheapest_path`
 * of `src/network_graph.rs` do: every edge of the path gains the same
 * amount. Net outflow (outgoing minus incoming flow) changes only at the
 * two ends of the path.
 */
module FlowSums {
  import opened Wrappers
  import opened Grids
  import opened Arith
  import opened NetworkGraph

  /** Total flow on a list of edges. */
  function SumFlow(es: seq<Edge>): nat {
    if |es| == 0 then 0 else es[0].flow + SumFlow(es[1..])
  }

  /** Total flow on those edges of a list that enter `v`. */
  function SumFlowInto(es: seq<Edge>, v: Point): nat {
    if |es| == 0 then 0 else (if es[0].to == v then es[0].flow else 0) + SumFlowInto(es[1..], v)
  }

  /** Flow entering `v` from the edge lists of the keys `ks` of `adj`. */
  ghost function InFlowOver(adj: map<Point, seq<Edge>>, ks: set<Point>, v: Point): nat
    requires ks <= adj.Keys
  {
    if ks == {} then 0
    else
      var k :| k in ks;
      SumFlowInto(adj[k], v) + InFlowOver(adj, ks - {k}, v)
  }

  function OutFlow(g: Graph, v: Point): nat {
    SumFlow(GetEdges(g, v))
  }

  ghost function InFlow(g: Graph, v: Point): nat {
    InFlowOver(g.adj, g.adj.Keys, v)
  }

  /** Net outflow of `v`. */
  ghost function Net(g: Graph, v: Point): int {
    OutFlow(g, v) - InFlow(g, v)
  }

  /** The incoming flow can be summed starting from any key. */
  lemma {:induction false} InFlowSplit(adj: map<Point, seq<Edge>>, ks: set<Point>, k0: Point, v: Point)
    requires ks <= adj.Keys && k0 in ks
    ensures InFlowOver(adj, ks, v) == SumFlowInto(adj[k0], v) + InFlowOver(adj, ks - {k0}, v)
    decreases ks
  {
    var k :| k in ks && InFlowOver(adj, ks, v) == SumFlowInto(adj[k], v) + InFlowOver(adj, ks - {k}, v);
    if k != k0 {
      InFlowSplit(adj, ks - {k}, k0, v);
      InFlowSplit(adj, ks - {k0}, k, v);
      assert ks - {k} - {k0} == ks - {k0} - {k};
    }
  }

  /** Only the edge lists of the summed keys matter. */
  lemma {:induction false} InFlowAgree(a: map<Point, seq<Edge>>, b: map<Point, seq<Edge>>, ks: set<Point>, v: Point)
    requires ks <= a.Keys && ks <= b.Keys
    requires forall k :: k in ks ==> a[k] == b[k]
    ensures InFlowOver(a, ks, v) == InFlowOver(b, ks, v)
    decreases ks
  {
    if ks != {} {
      var k :| k in ks && InFlowOver(a, ks, v) == SumFlowInto(a[k], v) + InFlowOver(a, ks - {k}, v);
      InFlowSplit(b, ks, k, v);
      InFlowAgree(a, b, ks - {k}, v);
    }
  }

  /** No edge carries flow. */
  ghost predicate NoFlow(g: Graph) {
    forall u, j :: u in g.adj && 0 <= j < |g.adj[u]| ==> g.adj[u][j].flow == 0
  }

  /** A list of edges without flow sends nothing anywhere. */
  lemma {:induction false} ZeroListSums(es: seq<Edge>, v: Point)
    requires forall j :: 0 <= j < |es| ==> es[j].flow == 0
    ensures SumFlow(es) == 0 && SumFlowInto(es, v) == 0
  {
    if |es| > 0 {
      ZeroListSums(es[1..], v);
    }
  }

  /** Edge lists without flow bring nothing into `v`. */
  lemma {:induction false} ZeroInFlow(adj: map<Point, seq<Edge>>, ks: set<Point>, v: Point)
    requires ks <= adj.Keys
    requires forall u, j :: u in adj && 0 <= j < |adj[u]| ==> adj[u][j].flow == 0
    ensures InFlowOver(adj, ks, v) == 0
    decreases ks
  {
    if ks != {} {
      var k :| k in ks && InFlowOver(adj, ks, v) == SumFlowInto(adj[k], v) + InFlowOver(adj, ks - {k}, v);
      ZeroListSums(adj[k], v);
      ZeroInFlow(adj, ks - {k}, v);
    }
  }

  /** In a graph without flow every point is balanced. */
  lemma NoFlowBalanced(g: Graph, v: Point)
    requires NoFlow(g)
    ensures Net(g, v) == 0
  {
    ZeroListSums(GetEdges(g, v), v);
    ZeroInFlow(g.adj, g.adj.Keys, v);
  }

  /** The edge list with `f` more flow on edge `i`. */
  function Bump(es: seq<Edge>, i: nat, f: nat): (r: seq<Edge>)
    requires i < |es| && es[i].flow + f <= U64_MAX
    ensures |r| == |es| && r[i].flow == es[i].flow + f
    ensures forall j :: 0 <= j < |es| ==> r[j].to == es[j].to && r[j].capacity == es[j].capacity && r[j].cost == es[j].cost
    ensures forall j :: 0 <= j < |es| && j != i ==> r[j] == es[j]
  {
    es[i := es[i].(flow := es[i].flow + f)]
  }

  lemma {:induction false} BumpSums(es: seq<Edge>, i: nat, f: nat, v: Point)
    requires i < |es| && es[i].flow + f <= U64_MAX
    ensures SumFlow(Bump(es, i, f)) == SumFlow(es) + f
    ensures SumFlowInto(Bump(es, i, f), v) == SumFlowInto(es, v) + (if es[i].to == v then f else 0)
    decreases |es|
  {
    var r := Bump(es, i, f);
    if i > 0 {
      BumpSums(es[1..], i - 1, f, v);
      assert r[1..] == Bump(es[1..], i - 1, f);
    } else {
      assert r[1..] == es[1..];
    }
  }

  /** `edge.flow += path_flow` on edge `i` of `u`. */
  function AddFlow(g: Graph, u: Point, i: nat, f: nat): (r: Graph)
    requires u in g.adj && i < |g.adj[u]| && g.adj[u][i].flow + f <= U64_MAX
    ensures r.source == g.source && r.sink == g.sink && r.adj.Keys == g.adj.Keys
    ensures r.adj[u] == Bump(g.adj[u], i, f)
    ensures forall w :: w in g.adj && w != u ==> r.adj[w] == g.adj[w]
  {
    g.(adj := g.adj[u := Bump(g.adj[u], i, f)])
  }

  /** One edge `u -> t` gaining `f`: `u` sends `f` more and `t` receives `f` more. */
  lemma AddFlowNet(g: Graph, u: Point, i: nat, f: nat, v: Point)
    requires u in g.adj && i < |g.adj[u]| && g.adj[u][i].flow + f <= U64_MAX
    ensures var r := AddFlow(g, u, i, f);
            Net(r, v) == Net(g, v) + (if v == u then f else 0) - (if v == g.adj[u][i].to then f else 0)
  {
    var r := AddFlow(g, u, i, f);
    BumpSums(g.adj[u], i, f, v);
    InFlowSplit(r.adj, r.adj.Keys, u, v);
    InFlowSplit(g.adj, g.adj.Keys, u, v);
    InFlowAgree(r.adj, g.adj, g.adj.Keys - {u}, v);
  }

  /** Same nodes, targets, capacities and costs; only flows may differ. */
  ghost predicate SameShape(g: Graph, r: Graph) {
    && r.source == g.source && r.sink == g.sink && r.adj.Keys == g.adj.Keys
    && (forall u :: u in g.adj ==> |r.adj[u]| == |g.adj[u]|)
    && (forall u, j :: u in g.adj && 0 <= j < |g.adj[u]| ==>
          j < |r.adj[u]| && r.adj[u][j].to == g.adj[u][j].to &&
          r.adj[u][j].capacity == g.adj[u][j].capacity && r.adj[u][j].cost == g.adj[u][j].cost)
  }

  /** `find` only looks at targets, so it agrees on graphs of the same shape. */
  lemma {:induction false} FindSameTargets(es: seq<Edge>, fs: seq<Edge>, v: Point)
    requires |es| == |fs| && forall j :: 0 <= j < |es| ==> es[j].to == fs[j].to
    ensures Find(es, v) == Find(fs, v)
    decreases |es|
  {
    if |es| > 0 {
      FindSameTargets(es[1..], fs[1..], v);
    }
  }

  lemma SameShapeFind(g: Graph, r: Graph, u: Point, v: Point)
    requires SameShape(g, r)
    ensures Find(GetEdges(r, u), v) == Find(GetEdges(g, u), v)
  {
    if u in g.adj {
      FindSameTargets(g.adj[u], r.adj[u], v);
    }
  }

  /** Every move of `p` has an edge that can take `f` more without exceeding its capacity. */
  ghost predicate CanCarry(g: Graph, p: seq<Point>, f: nat) {
    forall i :: 0 <= i < |p| - 1 ==>
      HasEdge(g, p[i], p[i + 1]) && EdgeOf(g, p[i], p[i + 1]).flow + f <= EdgeOf(g, p[i], p[i + 1]).capacity
  }

  /** The edge `u -> v` carries edge `j` of `u`'s list. */
  ghost predicate UsesEdge(g: Graph, p: seq<Point>, u: Point, j: nat) {
    exists i :: 0 <= i < |p| - 1 && p[i] == u && Find(GetEdges(g, u), p[i + 1]) == Some(j)
  }

  lemma CarryRest(g: Graph, p: seq<Point>, f: nat)
    requires |p| >= 2 && Distinct(p) && CanCarry(g, p, f)
    ensures var i := Find(GetEdges(g, p[0]), p[1]).value;
            p[0] in g.adj && i < |g.adj[p[0]]| && g.adj[p[0]][i].flow + f <= U64_MAX &&
            SameShape(g, AddFlow(g, p[0], i, f)) && CanCarry(AddFlow(g, p[0], i, f), p[1..], f) &&
            Distinct(p[1..])
  {
    assert HasEdge(g, p[0], p[1]);
    var i := Find(GetEdges(g, p[0]), p[1]).value;
    var h := AddFlow(g, p[0], i, f);
    var q := p[1..];
    forall k | 0 <= k < |q| - 1
      ensures HasEdge(h, q[k], q[k + 1]) && EdgeOf(h, q[k], q[k + 1]).flow + f <= EdgeOf(h, q[k], q[k + 1]).capacity
    {
      assert q[k] == p[k + 1] && q[k + 1] == p[k + 2];
      assert HasEdge(g, p[k + 1], p[k + 2]);
      assert q[k] != p[0];
      assert GetEdges(h, q[k]) == GetEdges(g, q[k]);
    }
  }

  /**
   * Push `f` along every edge of the path, first edge first. With
   * distinct points each edge is used once.
   */
  ghost function Augment(g: Graph, p: seq<Point>, f: nat): (r: Graph)
    requires Distinct(p) && CanCarry(g, p, f)
    ensures SameShape(g, r)
    decreases |p|
  {
    if |p| < 2 then g
    else
      CarryRest(g, p, f);
      var i := Find(GetEdges(g, p[0]), p[1]).value;
      Augment(AddFlow(g, p[0], i, f), p[1..], f)
  }

  /**
   * Conservation: augmenting a path raises the net outflow of its first
   * point by `f`, lowers that of its last point by `f`, and leaves every
   * other point's net outflow unchanged.
   */
  lemma {:induction false} AugmentNet(g: Graph, p: seq<Point>, f: nat, v: Point)
    requires |p| > 0 && Distinct(p) && CanCarry(g, p, f)
    ensures Net(Augment(g, p, f), v) ==
            Net(g, v) + (if v == p[0] then f else 0) - (if v == p[|p| - 1] then f else 0)
    decreases |p|
  {
    if |p| >= 2 {
      CarryRest(g, p, f);
      var i := Find(GetEdges(g, p[0]), p[1]).value;
      var h := AddFlow(g, p[0], i, f);
      AddFlowNet(g, p[0], i, f, v);
      AugmentNet(h, p[1..], f, v);
      assert g.adj[p[0]][i].to == p[1];
    }
  }

  /** The edges a path uses: its first edge, and then those of the rest of the path. */
  lemma UsesSplit(g: Graph, p: seq<Point>, f: nat, u: Point, j: nat)
    requires |p| >= 2 && Distinct(p) && CanCarry(g, p, f)
    ensures var i := Find(GetEdges(g, p[0]), p[1]).value;
            var first := u == p[0] && j == i;
            var later := UsesEdge(AddFlow(g, p[0], i, f), p[1..], u, j);
            (UsesEdge(g, p, u, j) <==> first || later) && (first ==> !later)
  {
    CarryRest(g, p, f);
    var i := Find(GetEdges(g, p[0]), p[1]).value;
    var h := AddFlow(g, p[0], i, f);
    UsesSplitOut(g, h, p, u, j);
    UsesSplitIn(g, h, p, u, j);
    if u == p[0] && j == i {
      UsesFirstOnly(g, h, p, u, j);
    }
  }

  /** An edge the path uses is its first edge or one the rest of the path uses. */
  lemma UsesSplitOut(g: Graph, h: Graph, p: seq<Point>, u: Point, j: nat)
    requires |p| >= 2 && SameShape(g, h)
    ensures UsesEdge(g, p, u, j) ==> (u == p[0] && Find(GetEdges(g, p[0]), p[1]) == Some(j)) || UsesEdge(h, p[1..], u, j)
  {
    var q := p[1..];
    if UsesEdge(g, p, u, j) {
      var k :| 0 <= k < |p| - 1 && p[k] == u && Find(GetEdges(g, u), p[k + 1]) == Some(j);
      if k > 0 {
        SameShapeFind(g, h, u, p[k + 1]);
        assert q[k - 1] == u && q[k] == p[k + 1];
      }
    }
  }

  /** An edge the rest of the path uses is one the whole path uses. */
  lemma UsesSplitIn(g: Graph, h: Graph, p: seq<Point>, u: Point, j: nat)
    requires |p| >= 2 && SameShape(g, h)
    ensures UsesEdge(h, p[1..], u, j) ==> UsesEdge(g, p, u, j)
  {
    var q := p[1..];
    if UsesEdge(h, q, u, j) {
      var k :| 0 <= k < |q| - 1 && q[k] == u && Find(GetEdges(h, u), q[k + 1]) == Some(j);
      SameShapeFind(g, h, u, q[k + 1]);
      assert p[k + 1] == u && p[k + 2] == q[k + 1];
    }
  }

  /** The first edge is used, and the rest of a path of distinct points never leaves its first point again. */
  lemma UsesFirstOnly(g: Graph, h: Graph, p: seq<Point>, u: Point, j: nat)
    requires |p| >= 2 && Distinct(p) && u == p[0] && Find(GetEdges(g, p[0]), p[1]) == Some(j)
    ensures UsesEdge(g, p, u, j) && !UsesEdge(h, p[1..], u, j)
  {
    var q := p[1..];
    forall k | 0 <= k < |q| - 1 ensures q[k] != u {
      assert q[k] == p[k + 1];
    }
  }

  /** Exactly the path's edges gain `f`; every other edge keeps its flow. */
  lemma {:induction false} AugmentFlows(g: Graph, p: seq<Point>, f: nat, u: Point, j: nat)
    requires Distinct(p) && CanCarry(g, p, f)
    requires u in g.adj && j < |g.adj[u]|
    ensures Augment(g, p, f).adj[u][j].flow == g.adj[u][j].flow + (if UsesEdge(g, p, u, j) then f else 0)
    decreases |p|
  {
    if |p| >= 2 {
      CarryRest(g, p, f);
      var i := Find(GetEdges(g, p[0]), p[1]).value;
      var h := AddFlow(g, p[0], i, f);
      AugmentFlows(h, p[1..], f, u, j);
      UsesSplit(g, p, f, u, j);
    }
  }

  /** Augmenting only adds flow. */
  lemma AugmentMonotone(g: Graph, p: seq<Point>, f: nat, u: Point, j: nat)
    requires Distinct(p) && CanCarry(g, p, f)
    requires u in g.adj && j < |g.adj[u]|
    ensures g.adj[u][j].flow <= Augment(g, p, f).adj[u][j].flow
  {
    AugmentFlows(g, p, f, u, j);
  }

  /** An augmentation the path can carry keeps every flow within its capacity. */
  lemma AugmentFeasible(g: Graph, p: seq<Point>, f: nat)
    requires Feasible(g) && Distinct(p) && CanCarry(g, p, f)
    ensures Feasible(Augment(g, p, f))
  {
    var r := Augment(g, p, f);
    forall u, j | u in r.adj && 0 <= j < |r.adj[u]| ensures r.adj[u][j].flow <= r.adj[u][j].capacity {
      AugmentFlows(g, p, f, u, j);
      if UsesEdge(g, p, u, j) {
        var i :| 0 <= i < |p| - 1 && p[i] == u && Find(GetEdges(g, u), p[i + 1]) == Some(j);
        assert HasEdge(g, p[i], p[i + 1]);
        assert EdgeOf(g, p[i], p[i + 1]) == g.adj[u][j];
      }
    }
  }

  lemma SameShapeTrans(a: Graph, b: Graph, c: Graph)
    requires SameShape(a, b) && SameShape(b, c)
    ensures SameShape(a, c)
  {
  }
}
