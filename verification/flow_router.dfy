/**
 * `route_cheapest_path` and `edmonds_karp` of `src/network_graph.rs`:
 * find the cheapest unsaturated path with Dijkstra's search, rebuild it
 * from the parent map, take its bottleneck (the least remaining capacity
 * along it) and push that much flow down every edge of it.
 *
 * There are no reverse residual edges: flow once pushed is never taken
 * back, so `edmonds_karp` stops when no unsaturated path is left, which
 * is a blocking flow rather than necessarily a maximum one.
 */
module FlowRouter {
  import opened Arith
  import opened Wrappers
  import opened Grids
  import opened Seqs
  import opened NetworkGraph
  import opened FlowSums
  import opened Dijkstra

  /** The capacity an unsaturated move has left. */
  ghost function Room(g: Graph, u: Point, v: Point): (r: nat)
    requires Step(g, u, v)
    ensures 0 < r <= U64_MAX
  {
    EdgeOf(g, u, v).capacity - EdgeOf(g, u, v).flow
  }

  /**
   * What the reconstruction loop knows about the points `back` it has
   * pushed so far, ending at `current`: read backwards they form a distinct
   * walk to the sink that costs exactly what remains beyond `current`.
   */
  ghost predicate Traced(g: Graph, parent: map<Point, Point>, dist: map<Point, real>, rank: map<Point, nat>,
                         back: seq<Point>, current: Point) {
    && current in rank && current in dist && g.sink in dist && (current != g.source ==> current in parent)
    && |back| > 0 && back[|back| - 1] == current && back[0] == g.sink
    && IsWalk(g, Reverse(back)) && Distinct(Reverse(back))
    && (forall j :: 0 < j < |back| ==> Reverse(back)[j] in rank && rank[current] < rank[Reverse(back)[j]])
    && WalkCost(g, Reverse(back)) + dist[current] == dist[g.sink]
  }

  /** One turn of the reconstruction loop keeps `Traced` and lowers the rank of `current`. */
  lemma TraceStep(g: Graph, parent: map<Point, Point>, dist: map<Point, real>, rank: map<Point, nat>,
                  back: seq<Point>, current: Point)
    requires ParentTree(g, parent, dist, rank) && Traced(g, parent, dist, rank, back, current)
    requires current != g.source
    ensures Traced(g, parent, dist, rank, back + [parent[current]], parent[current])
    ensures rank[parent[current]] < rank[current]
  {
    PrependParent(g, parent, dist, rank, Reverse(back));
    ReverseSnoc(back, parent[current]);
  }

  /**
   * The reconstruction loop of `route_cheapest_path`: push parents onto
   * `[sink]` until the source is reached, then reverse.
   */
  method TracePath(g: Graph, parent: map<Point, Point>, ghost dist: map<Point, real>, ghost rank: map<Point, nat>)
    returns (path: seq<Point>)
    requires ParentTree(g, parent, dist, rank)
    ensures WalkBetween(g, path, g.source, g.sink) && Distinct(path)
    ensures WalkCost(g, path) == dist[g.sink]
  {
    var back := [g.sink];
    var current := g.sink;
    assert Traced(g, parent, dist, rank, back, current);
    while current != g.source
      invariant Traced(g, parent, dist, rank, back, current)
      decreases rank[current]
    {
      TraceStep(g, parent, dist, rank, back, current);
      current := parent[current];
      back := back + [current];
    }
    path := Reverse(back);
  }

  /** A distinct walk that starts and ends at the same point is that point alone. */
  lemma DistinctLoop(p: seq<Point>)
    requires |p| > 0 && Distinct(p) && p[0] == p[|p| - 1]
    ensures p == [p[0]]
  {
  }

  /**
   * The bottleneck loop of `route_cheapest_path`: start from `u64::MAX` and
   * take the minimum of `capacity - flow` over the edges of the path.
   */
  method Bottleneck(g: Graph, path: seq<Point>) returns (f: U64)
    requires IsWalk(g, path)
    ensures 0 < f
    ensures forall i :: 0 <= i < |path| - 1 ==> f <= Room(g, path[i], path[i + 1])
    ensures |path| > 1 ==> exists i :: 0 <= i < |path| - 1 && f == Room(g, path[i], path[i + 1])
    ensures |path| == 1 ==> f == U64_MAX
  {
    f := U64_MAX;
    var i := 0;
    while i < |path| - 1
      invariant 0 <= i <= |path| - 1 && 0 < f
      invariant forall j :: 0 <= j < i ==> f <= Room(g, path[j], path[j + 1])
      invariant f == U64_MAX || exists j :: 0 <= j < i && f == Room(g, path[j], path[j + 1])
      decreases |path| - i
    {
      assert Step(g, path[i], path[i + 1]);
      var edge := GetEdges(g, path[i])[Find(GetEdges(g, path[i]), path[i + 1]).value];
      if edge.capacity - edge.flow < f {
        f := edge.capacity - edge.flow;
      }
      i := i + 1;
    }
    if |path| > 1 && f == U64_MAX {
      assert f == Room(g, path[0], path[1]);
    }
  }

  /** A flow no larger than the room on every move can be carried by the path. */
  lemma RoomCarries(g: Graph, path: seq<Point>, f: nat)
    requires IsWalk(g, path)
    requires forall i :: 0 <= i < |path| - 1 ==> f <= Room(g, path[i], path[i + 1])
    ensures CanCarry(g, path, f)
  {
    forall i | 0 <= i < |path| - 1
      ensures HasEdge(g, path[i], path[i + 1])
      ensures EdgeOf(g, path[i], path[i + 1]).flow + f <= EdgeOf(g, path[i], path[i + 1]).capacity
    {
      assert Step(g, path[i], path[i + 1]);
    }
  }

  /**
   * The augmenting loop: for each move of the path, `find` its edge and add
   * `f` to its flow, first move first.
   */
  method PushFlow(g0: Graph, path: seq<Point>, f: U64) returns (g: Graph)
    requires |path| > 0 && Distinct(path) && CanCarry(g0, path, f)
    ensures g == Augment(g0, path, f)
  {
    g := g0;
    var i := 0;
    assert path[0..] == path;
    while i < |path| - 1
      invariant 0 <= i <= |path| - 1
      invariant Distinct(path[i..]) && CanCarry(g, path[i..], f)
      invariant Augment(g, path[i..], f) == Augment(g0, path, f)
      decreases |path| - i
    {
      var rest := path[i..];
      CarryRest(g, rest, f);
      assert rest[0] == path[i] && rest[1] == path[i + 1] && rest[1..] == path[i + 1..];
      match Find(GetEdges(g, path[i]), path[i + 1]) {
        case Some(j) => g := AddFlow(g, path[i], j, f);
        case None =>
      }
      i := i + 1;
    }
  }

  /**
   * `route_cheapest_path`: route the bottleneck flow down the cheapest
   * unsaturated path. Without such a path nothing changes and the flow is
   * 0. The source's net outflow rises by the routed flow, the sink's falls
   * by it, and every other point stays balanced as it was. When the source
   * is the sink the path is that point alone and the reported flow is
   * `u64::MAX`, with no edge touched.
   */
  method RouteCheapestPath(g: Graph) returns (flow: U64, path: Option<seq<Point>>, r: Graph)
    requires WellFormed(g)
    ensures path.None? <==> !SinkReachable(g)
    ensures path.None? ==> flow == 0 && r == g
    ensures path.Some? ==> WalkBetween(g, path.value, g.source, g.sink) && Distinct(path.value)
    ensures path.Some? ==> forall p :: WalkBetween(g, p, g.source, g.sink) ==> WalkCost(g, path.value) <= WalkCost(g, p)
    ensures path.Some? ==> 0 < flow && forall i :: 0 <= i < |path.value| - 1 ==> flow <= Room(g, path.value[i], path.value[i + 1])
    ensures path.Some? && g.source != g.sink ==>
              exists i :: 0 <= i < |path.value| - 1 && flow == Room(g, path.value[i], path.value[i + 1])
    ensures path.Some? ==> CanCarry(g, path.value, flow) && r == Augment(g, path.value, flow)
    ensures g.source == g.sink ==> flow == U64_MAX && path == Some([g.source]) && r == g
    ensures SameShape(g, r)
    ensures forall v :: Net(r, v) == Net(g, v) + (if v == g.source then flow else 0) - (if v == g.sink then flow else 0)
  {
    var parent, found;
    ghost var dist, rank;
    parent, found, dist, rank := FindCheapestPath(g);
    if g.source == g.sink {
      assert WalkBetween(g, [g.source], g.source, g.sink);
    }
    if !found {
      return 0, None, g;
    }
    var p := TracePath(g, parent, dist, rank);
    if g.source == g.sink {
      DistinctLoop(p);
    }
    forall q | WalkBetween(g, q, g.source, g.sink) ensures WalkCost(g, p) <= WalkCost(g, q) {
    }
    flow, r := RouteAlong(g, p);
    path := Some(p);
  }

  /**
   * The routing half of `route_cheapest_path`: the bottleneck of a path of
   * distinct points is pushed along it, moving that much net outflow from
   * the path's first point to its last.
   */
  method RouteAlong(g: Graph, p: seq<Point>) returns (flow: U64, r: Graph)
    requires WalkBetween(g, p, g.source, g.sink) && Distinct(p)
    ensures 0 < flow && forall i :: 0 <= i < |p| - 1 ==> flow <= Room(g, p[i], p[i + 1])
    ensures |p| > 1 ==> exists i :: 0 <= i < |p| - 1 && flow == Room(g, p[i], p[i + 1])
    ensures |p| == 1 ==> flow == U64_MAX
    ensures CanCarry(g, p, flow) && r == Augment(g, p, flow)
    ensures SameShape(g, r)
    ensures forall v :: Net(r, v) == Net(g, v) + (if v == g.source then flow else 0) - (if v == g.sink then flow else 0)
  {
    flow := Bottleneck(g, p);
    RoomCarries(g, p, flow);
    r := PushFlow(g, p, flow);
    forall v ensures Net(r, v) == Net(g, v) + (if v == g.source then flow else 0) - (if v == g.sink then flow else 0) {
      AugmentNet(g, p, flow, v);
    }
  }

  /** The edges that can still take more flow, by owner and position. */
  ghost function Unsaturated(g: Graph): set<(Point, nat)> {
    set u, j | u in g.adj && 0 <= j < |g.adj[u]| && Residual(g.adj[u][j]) :: (u, j)
  }

  /** Pushing the bottleneck along a path saturates at least one edge and unsaturates none. */
  lemma AugmentShrinks(g: Graph, p: seq<Point>, f: nat)
    requires IsWalk(g, p) && |p| > 1 && Distinct(p)
    requires forall i :: 0 <= i < |p| - 1 ==> f <= Room(g, p[i], p[i + 1])
    requires exists i :: 0 <= i < |p| - 1 && f == Room(g, p[i], p[i + 1])
    ensures CanCarry(g, p, f) && |Unsaturated(Augment(g, p, f))| < |Unsaturated(g)|
  {
    RoomCarries(g, p, f);
    AugmentUnsaturates(g, p, f);
    var i :| 0 <= i < |p| - 1 && f == Room(g, p[i], p[i + 1]);
    var x := AugmentSaturates(g, p, f, i);
    ProperSubsetCard(Unsaturated(Augment(g, p, f)), Unsaturated(g));
  }

  /** Flows only grow, so no saturated edge becomes unsaturated. */
  lemma AugmentUnsaturates(g: Graph, p: seq<Point>, f: nat)
    requires Distinct(p) && CanCarry(g, p, f)
    ensures Unsaturated(Augment(g, p, f)) <= Unsaturated(g)
  {
    forall x | x in Unsaturated(Augment(g, p, f)) ensures x in Unsaturated(g) {
      var (u, j) := x;
      AugmentMonotone(g, p, f, u, j);
    }
  }

  /** The move whose room is the pushed flow ends up saturated. */
  lemma AugmentSaturates(g: Graph, p: seq<Point>, f: nat, i: nat) returns (x: (Point, nat))
    requires IsWalk(g, p) && Distinct(p) && CanCarry(g, p, f)
    requires i < |p| - 1 && f == Room(g, p[i], p[i + 1])
    ensures x in Unsaturated(g) && x !in Unsaturated(Augment(g, p, f))
  {
    assert Step(g, p[i], p[i + 1]);
    var u := p[i];
    var j := Find(GetEdges(g, u), p[i + 1]).value;
    assert UsesEdge(g, p, u, j);
    AugmentFlows(g, p, f, u, j);
    x := (u, j);
  }

  /** Well-formedness only looks at targets and costs, which flows do not change. */
  lemma SameShapeWellFormed(g: Graph, r: Graph)
    requires WellFormed(g) && SameShape(g, r)
    ensures WellFormed(r)
  {
  }

  /** Every point's net outflow is as at the start, except that `total` has left the source and reached the sink. */
  ghost predicate Balanced(g0: Graph, g: Graph, total: nat) {
    forall v :: Net(g, v) == Net(g0, v) + (if v == g0.source then total else 0) - (if v == g0.sink then total else 0)
  }

  /** No edge carries less flow than at the start. */
  ghost predicate Grown(g0: Graph, g: Graph)
    requires SameShape(g0, g)
  {
    forall u, j :: u in g0.adj && 0 <= j < |g0.adj[u]| ==> g0.adj[u][j].flow <= g.adj[u][j].flow
  }

  /** What `edmonds_karp` keeps true from one augmentation to the next. */
  ghost predicate Progress(g0: Graph, g: Graph, total: nat) {
    && WellFormed(g) && SameShape(g0, g)
    && Balanced(g0, g, total) && Grown(g0, g)
    && (Feasible(g0) ==> Feasible(g))
  }

  lemma AugmentBalanced(g0: Graph, g: Graph, total: nat, p: seq<Point>, f: nat)
    requires Balanced(g0, g, total) && |p| > 0 && Distinct(p) && CanCarry(g, p, f)
    requires p[0] == g0.source && p[|p| - 1] == g0.sink && g0.source != g0.sink
    ensures Balanced(g0, Augment(g, p, f), total + f)
  {
    forall v ensures Net(Augment(g, p, f), v) ==
                     Net(g0, v) + (if v == g0.source then total + f else 0) - (if v == g0.sink then total + f else 0) {
      AugmentNet(g, p, f, v);
    }
  }

  lemma AugmentGrown(g0: Graph, g: Graph, p: seq<Point>, f: nat)
    requires SameShape(g0, g) && Grown(g0, g) && Distinct(p) && CanCarry(g, p, f)
    ensures SameShape(g0, Augment(g, p, f)) && Grown(g0, Augment(g, p, f))
  {
    var r := Augment(g, p, f);
    SameShapeTrans(g0, g, r);
    forall u, j | u in g0.adj && 0 <= j < |g0.adj[u]| ensures g0.adj[u][j].flow <= r.adj[u][j].flow {
      AugmentMonotone(g, p, f, u, j);
    }
  }

  /** One augmentation by the bottleneck of a found path keeps `Progress` and shrinks the unsaturated edges. */
  lemma AugmentStep(g0: Graph, g: Graph, total: nat, p: seq<Point>, f: nat)
    requires g0.source != g0.sink && Progress(g0, g, total)
    requires WalkBetween(g, p, g.source, g.sink) && Distinct(p)
    requires forall i :: 0 <= i < |p| - 1 ==> f <= Room(g, p[i], p[i + 1])
    requires exists i :: 0 <= i < |p| - 1 && f == Room(g, p[i], p[i + 1])
    ensures CanCarry(g, p, f)
    ensures Progress(g0, Augment(g, p, f), total + f)
    ensures |Unsaturated(Augment(g, p, f))| < |Unsaturated(g)|
  {
    AugmentShrinks(g, p, f);
    SameShapeWellFormed(g, Augment(g, p, f));
    AugmentBalanced(g0, g, total, p, f);
    AugmentGrown(g0, g, p, f);
    if Feasible(g0) {
      AugmentFeasible(g, p, f);
    }
  }

  /**
   * `edmonds_karp`: augment along cheapest unsaturated paths until none is
   * left, returning the total flow pushed. The total is exactly the rise in
   * the source's net outflow and the fall in the sink's, every other point
   * keeps its balance, flows only grow, and capacities are respected when
   * they were at the start. Started without flow, the total is the source's
   * net outflow and the sink's net inflow.
   */
  method EdmondsKarp(g0: Graph) returns (total: nat, g: Graph)
    requires WellFormed(g0) && g0.source != g0.sink
    ensures !SinkReachable(g)
    ensures Progress(g0, g, total)
    ensures NoFlow(g0) ==> Net(g, g0.source) == total && Net(g, g0.sink) == -(total as int)
  {
    total := 0;
    g := g0;
    while true
      invariant g.source == g0.source && g.sink == g0.sink
      invariant Progress(g0, g, total)
      decreases |Unsaturated(g)|
    {
      var parent, found;
      ghost var dist, rank;
      parent, found, dist, rank := FindCheapestPath(g);
      if !found {
        break;
      }
      var path := TracePath(g, parent, dist, rank);
      var f := Bottleneck(g, path);
      AugmentStep(g0, g, total, path, f);
      total := total + f;
      g := PushFlow(g, path, f);
    }
    if NoFlow(g0) {
      NoFlowBalanced(g0, g0.source);
      NoFlowBalanced(g0, g0.sink);
    }
  }
}
