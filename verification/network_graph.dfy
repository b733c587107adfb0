/**
 * The flow network of `src/network_graph.rs`: an adjacency map from points
 * to their outgoing edges, each with a capacity, a cost and a current flow,
 * together with a designated source and sink.
 *
 * Capacities and flows are `u64`, as in the source; costs are `f64` in the
 * source and `real` here (rounding is not modelled).
 */
module NetworkGraph {
  import opened Wrappers
  import opened Grids
  import opened Arith

  datatype Edge = Edge(to: Point, capacity: U64, cost: real, flow: U64)

  datatype Graph = Graph(adj: map<Point, seq<Edge>>, source: Point, sink: Point)

  /** `Graph::new`: no nodes and no edges. */
  function New(source: Point, sink: Point): (g: Graph)
    ensures g.source == source && g.sink == sink
    ensures forall n :: n !in g.adj && GetEdges(g, n) == []
  {
    Graph(map[], source, sink)
  }

  /** `get_edges`: the outgoing edges of `n`, empty for a point that is not a node. */
  function GetEdges(g: Graph, n: Point): (r: seq<Edge>)
    ensures n in g.adj ==> r == g.adj[n]
    ensures n !in g.adj ==> r == []
  {
    if n in g.adj then g.adj[n] else []
  }

  /** `add_node`: make `n` a node, keeping any edges it already has. */
  function AddNode(g: Graph, n: Point): (r: Graph)
    ensures r.source == g.source && r.sink == g.sink
    ensures r.adj.Keys == g.adj.Keys + {n}
    ensures forall m :: GetEdges(r, m) == GetEdges(g, m)
  {
    if n in g.adj then g else g.(adj := g.adj[n := []])
  }

  /** `add_edge`: both ends become nodes and `from` gains one more edge, with no flow, at the end of its list. */
  function AddEdge(g: Graph, from: Point, to: Point, capacity: U64, cost: real): (r: Graph)
    ensures r.source == g.source && r.sink == g.sink
    ensures r.adj.Keys == g.adj.Keys + {from, to}
    ensures GetEdges(r, from) == GetEdges(g, from) + [Edge(to, capacity, cost, 0)]
    ensures forall m :: m != from ==> GetEdges(r, m) == GetEdges(g, m)
  {
    var h := AddNode(AddNode(g, from), to);
    h.(adj := h.adj[from := h.adj[from] + [Edge(to, capacity, cost, 0)]])
  }

  /** Adding a node twice is the same as adding it once. */
  lemma AddNodeIdempotent(g: Graph, n: Point)
    ensures AddNode(AddNode(g, n), n) == AddNode(g, n)
  {
  }

  /** Adding an edge adds exactly one edge to the whole network. */
  lemma AddEdgeCount(g: Graph, from: Point, to: Point, capacity: U64, cost: real)
    ensures var r := AddEdge(g, from, to, capacity, cost);
            |GetEdges(r, from)| == |GetEdges(g, from)| + 1 &&
            GetEdges(r, from)[|GetEdges(g, from)|] == Edge(to, capacity, cost, 0)
  {
  }

  /** An edge that can still carry more flow. */
  predicate Residual(e: Edge) {
    e.flow < e.capacity
  }

  /** `iter().find(|e| e.to == v)`: the position of the first edge into `v`. */
  function Find(es: seq<Edge>, v: Point): (r: Option<nat>)
    ensures r.Some? ==> r.value < |es| && es[r.value].to == v
  {
    if |es| == 0 then None
    else if es[0].to == v then Some(0)
    else match Find(es[1..], v)
      case None => None
      case Some(j) => Some(j + 1)
  }

  /** `find` returns the first edge into `v`, and nothing exactly when no edge leads to `v`. */
  lemma {:induction false} FindFirst(es: seq<Edge>, v: Point)
    ensures Find(es, v).Some? ==> forall j :: 0 <= j < Find(es, v).value ==> es[j].to != v
    ensures Find(es, v).None? <==> forall j :: 0 <= j < |es| ==> es[j].to != v
  {
    if |es| > 0 && es[0].to != v {
      FindFirst(es[1..], v);
      assert forall j :: 1 <= j < |es| ==> es[j] == es[1..][j - 1];
    }
  }

  /** At most one edge between any ordered pair of points. */
  ghost predicate NoParallel(g: Graph) {
    forall u, i, j :: u in g.adj && 0 <= i < j < |g.adj[u]| ==> g.adj[u][i].to != g.adj[u][j].to
  }

  ghost predicate NonNegativeCosts(g: Graph) {
    forall u, i :: u in g.adj && 0 <= i < |g.adj[u]| ==> g.adj[u][i].cost >= 0.0
  }

  /** No edge carries more than its capacity. */
  ghost predicate Feasible(g: Graph) {
    forall u, i :: u in g.adj && 0 <= i < |g.adj[u]| ==> g.adj[u][i].flow <= g.adj[u][i].capacity
  }

  /** Without parallel edges, `find` locates each edge by its target. */
  lemma FindEdge(g: Graph, u: Point, k: nat)
    requires NoParallel(g) && u in g.adj && k < |g.adj[u]|
    ensures Find(g.adj[u], g.adj[u][k].to) == Some(k)
  {
    FindFirst(g.adj[u], g.adj[u][k].to);
  }

  /** There is an edge `u -> v`. */
  predicate HasEdge(g: Graph, u: Point, v: Point) {
    Find(GetEdges(g, u), v).Some?
  }

  /** The edge `u -> v` that `find` returns. */
  function EdgeOf(g: Graph, u: Point, v: Point): (e: Edge)
    requires HasEdge(g, u, v)
    ensures e in GetEdges(g, u) && e.to == v
  {
    GetEdges(g, u)[Find(GetEdges(g, u), v).value]
  }

  /** A move the routing may take: the edge `u -> v` exists and is not saturated. */
  predicate Step(g: Graph, u: Point, v: Point) {
    HasEdge(g, u, v) && Residual(EdgeOf(g, u, v))
  }

  /** A non-empty point sequence moving along unsaturated edges. */
  ghost predicate IsWalk(g: Graph, p: seq<Point>) {
    |p| > 0 && forall i :: 0 <= i < |p| - 1 ==> Step(g, p[i], p[i + 1])
  }

  ghost predicate WalkBetween(g: Graph, p: seq<Point>, a: Point, b: Point) {
    IsWalk(g, p) && p[0] == a && p[|p| - 1] == b
  }

  /** Sum of the costs of the edges a walk uses. */
  ghost function WalkCost(g: Graph, p: seq<Point>): real
    requires IsWalk(g, p)
    decreases |p|
  {
    if |p| < 2 then 0.0 else EdgeOf(g, p[0], p[1]).cost + WalkCost(g, p[1..])
  }

  /** No point occurs twice. */
  predicate Distinct(p: seq<Point>) {
    forall i, j :: 0 <= i < j < |p| ==> p[i] != p[j]
  }

  /** Every point the network mentions: nodes, edge targets, source and sink. */
  ghost function Nodes(g: Graph): set<Point> {
    g.adj.Keys + {g.source, g.sink} + set u, i | u in g.adj && 0 <= i < |g.adj[u]| :: g.adj[u][i].to
  }

  /** A move stays inside the network's points. */
  lemma StepInNodes(g: Graph, u: Point, v: Point)
    requires Step(g, u, v)
    ensures u in g.adj && v in Nodes(g)
  {
    var i := Find(GetEdges(g, u), v).value;
    assert g.adj[u][i].to == v;
  }

  /** Walk costs are non-negative when edge costs are. */
  lemma {:induction false} WalkCostNonNegative(g: Graph, p: seq<Point>)
    requires NonNegativeCosts(g) && IsWalk(g, p)
    ensures WalkCost(g, p) >= 0.0
    decreases |p|
  {
    if |p| >= 2 {
      var q := p[1..];
      assert IsWalk(g, q) by {
        forall i | 0 <= i < |q| - 1 ensures Step(g, q[i], q[i + 1]) {
          assert q[i] == p[i + 1] && q[i + 1] == p[i + 2];
        }
      }
      WalkCostNonNegative(g, q);
      assert Step(g, p[0], p[1]);
      var k := Find(GetEdges(g, p[0]), p[1]).value;
      assert g.adj[p[0]][k].cost >= 0.0;
    }
  }
}
