/**
 * The driver loop of `examples/moma_network_flow_manager/src/main.rs`: on
 * the diamond network, each step decays every edge cost towards 1, routes
 * the cheapest path, penalises the first edge of that path when its
 * measured complexity is above target, and resets all flows.
 *
 * The complexity measure (an FFT-based Gowers norm of the path's step
 * directions) is floating-point code and enters as a function parameter.
 */
module FlowManager {
  import opened Wrappers
  import opened Grids
  import opened Arith
  import opened NetworkGraph
  import opened FlowSums
  import opened Dijkstra
  import opened FlowRouter

  const SIMULATION_STEPS: nat := 10
  const TARGET_GOWERS_NORM: real := 0.85
  const COST_ADJUSTMENT_GAIN: real := 50.0
  const COST_DECAY_RATE: real := 0.95

  /** The points of `main` and `create_diamond_graph`. */
  const S: Point := Point(0, 1)
  const T: Point := Point(3, 1)
  const A: Point := Point(1, 0)
  const B: Point := Point(1, 2)
  const C: Point := Point(2, 2)

  /** `create_diamond_graph`: a short wide route via `A` and a longer narrow one via `B` and `C`. */
  function DiamondGraph(source: Point, sink: Point): Graph {
    var g := NetworkGraph.New(source, sink);
    var g := AddEdge(g, source, A, 10, 1.0);
    var g := AddEdge(g, A, sink, 10, 1.0);
    var g := AddEdge(g, source, B, 7, 1.0);
    var g := AddEdge(g, B, C, 7, 1.0);
    AddEdge(g, C, sink, 7, 1.0)
  }

  /** The diamond of `main`, edge by edge. */
  ghost predicate IsDiamond(g: Graph) {
    && g.source == S && g.sink == T && g.adj.Keys == {S, A, B, C, T}
    && g.adj[S] == [Edge(A, 10, 1.0, 0), Edge(B, 7, 1.0, 0)]
    && g.adj[A] == [Edge(T, 10, 1.0, 0)]
    && g.adj[B] == [Edge(C, 7, 1.0, 0)]
    && g.adj[C] == [Edge(T, 7, 1.0, 0)]
    && g.adj[T] == []
  }

  /** `create_diamond_graph(source, sink)` as called by `main`: exactly five edges, all of cost 1 and no flow. */
  lemma DiamondShape()
    ensures IsDiamond(DiamondGraph(S, T))
  {
    var g2 := AddEdge(AddEdge(NetworkGraph.New(S, T), S, A, 10, 1.0), A, T, 10, 1.0);
    DiamondWideRoute(g2);
    var g3 := AddEdge(g2, S, B, 7, 1.0);
    var g4 := AddEdge(g3, B, C, 7, 1.0);
    var g5 := AddEdge(g4, C, T, 7, 1.0);
    DiamondNarrowRoute(g2, g3, g4, g5);
    assert g5 == DiamondGraph(S, T);
  }

  /** The first two edges of the diamond: the wide route through `A`. */
  lemma DiamondWideRoute(g2: Graph)
    requires g2 == AddEdge(AddEdge(NetworkGraph.New(S, T), S, A, 10, 1.0), A, T, 10, 1.0)
    ensures g2.source == S && g2.sink == T && g2.adj.Keys == {S, A, T}
    ensures GetEdges(g2, S) == [Edge(A, 10, 1.0, 0)] && GetEdges(g2, A) == [Edge(T, 10, 1.0, 0)]
    ensures GetEdges(g2, T) == [] && GetEdges(g2, B) == [] && GetEdges(g2, C) == []
  {
    var g1 := AddEdge(NetworkGraph.New(S, T), S, A, 10, 1.0);
    assert GetEdges(g1, S) == [Edge(A, 10, 1.0, 0)];
  }

  /** The last three edges of the diamond: the narrow route through `B` and `C`. */
  lemma DiamondNarrowRoute(g2: Graph, g3: Graph, g4: Graph, g5: Graph)
    requires g2.source == S && g2.sink == T && g2.adj.Keys == {S, A, T}
    requires GetEdges(g2, S) == [Edge(A, 10, 1.0, 0)] && GetEdges(g2, A) == [Edge(T, 10, 1.0, 0)]
    requires GetEdges(g2, T) == [] && GetEdges(g2, B) == [] && GetEdges(g2, C) == []
    requires g3 == AddEdge(g2, S, B, 7, 1.0) && g4 == AddEdge(g3, B, C, 7, 1.0) && g5 == AddEdge(g4, C, T, 7, 1.0)
    ensures IsDiamond(g5)
  {
    assert GetEdges(g3, S) == [Edge(A, 10, 1.0, 0), Edge(B, 7, 1.0, 0)];
    assert GetEdges(g4, B) == [Edge(C, 7, 1.0, 0)];
  }

  /** The diamond starts with no flow, no parallel edges and unit costs. */
  lemma DiamondStart(g: Graph)
    requires IsDiamond(g)
    ensures NoFlow(g) && NoParallel(g) && CostsAtLeastOne(g) && SameRoutes(g, g)
  {
  }

  /** Every edge costs at least 1. */
  ghost predicate CostsAtLeastOne(g: Graph) {
    forall u, j :: u in g.adj && 0 <= j < |g.adj[u]| ==> g.adj[u][j].cost >= 1.0
  }

  /** Same ends, nodes, targets and capacities; costs and flows may differ. */
  ghost predicate SameRoutes(g: Graph, r: Graph) {
    && r.source == g.source && r.sink == g.sink && r.adj.Keys == g.adj.Keys
    && (forall u :: u in g.adj ==> |r.adj[u]| == |g.adj[u]|)
    && (forall u, j :: u in g.adj && 0 <= j < |g.adj[u]| ==>
          j < |r.adj[u]| && r.adj[u][j].to == g.adj[u][j].to && r.adj[u][j].capacity == g.adj[u][j].capacity)
  }

  lemma SameRoutesNoParallel(g: Graph, r: Graph)
    requires SameRoutes(g, r) && NoParallel(g)
    ensures NoParallel(r)
  {
  }

  lemma SameRoutesTrans(a: Graph, b: Graph, c: Graph)
    requires SameRoutes(a, b) && SameRoutes(b, c)
    ensures SameRoutes(a, c)
  {
  }

  lemma CostsAtLeastOneWellFormed(g: Graph)
    requires NoParallel(g) && CostsAtLeastOne(g)
    ensures WellFormed(g)
  {
  }

  /** The decay of one cost: the excess over 1 shrinks by the decay rate. */
  function Decay(c: real): real {
    1.0 + (c - 1.0) * COST_DECAY_RATE
  }

  /** A cost of exactly 1 is left alone; a cost above 1 moves towards 1 without reaching or passing it. */
  lemma DecayTowardsOne(c: real)
    ensures c == 1.0 ==> Decay(c) == 1.0
    ensures c > 1.0 ==> 1.0 < Decay(c) < c
    ensures c < 1.0 ==> c < Decay(c) < 1.0
  {
  }

  /** Decay keeps the order of costs. */
  lemma DecayMonotone(c: real, d: real)
    requires c <= d
    ensures Decay(c) <= Decay(d)
  {
  }

  function DecayEdge(e: Edge): Edge {
    e.(cost := Decay(e.cost))
  }

  /** The `for edges in graph.adj.values_mut()` decay loop. */
  function DecayCosts(g: Graph): (r: Graph)
    ensures SameRoutes(g, r)
    ensures forall u, j :: u in g.adj && 0 <= j < |g.adj[u]| ==>
              r.adj[u][j].flow == g.adj[u][j].flow && r.adj[u][j].cost == Decay(g.adj[u][j].cost)
  {
    g.(adj := map u | u in g.adj :: seq(|g.adj[u]|, j requires 0 <= j < |g.adj[u]| => DecayEdge(g.adj[u][j])))
  }

  /** Decaying keeps every cost at least 1, and leaves unit costs at 1. */
  lemma DecayKeepsCosts(g: Graph)
    requires CostsAtLeastOne(g)
    ensures CostsAtLeastOne(DecayCosts(g))
    ensures forall u, j :: u in g.adj && 0 <= j < |g.adj[u]| && g.adj[u][j].cost == 1.0 ==>
              DecayCosts(g).adj[u][j].cost == 1.0
  {
    var r := DecayCosts(g);
    forall u, j | u in g.adj && 0 <= j < |g.adj[u]| ensures r.adj[u][j].cost >= 1.0 {
      DecayTowardsOne(g.adj[u][j].cost);
    }
  }

  /** The norm of a path's step directions, read as 0 when there is no step (the empty-sequence guard). */
  function MeasuredNorm(u2: seq<Point> -> real, path: seq<Point>): real {
    if |path| < 2 then 0.0 else u2(path)
  }

  /** `edge.cost += adjustment` on the edge `find` returns for `from -> to`; nothing when there is none. */
  function Penalize(g: Graph, from: Point, to: Point, adjustment: real): (r: Graph)
    requires from in g.adj
    ensures SameRoutes(g, r)
    ensures forall u, j :: u in g.adj && 0 <= j < |g.adj[u]| ==>
              r.adj[u][j].flow == g.adj[u][j].flow &&
              r.adj[u][j].cost == g.adj[u][j].cost +
                (if u == from && Find(g.adj[from], to) == Some(j) then adjustment else 0.0)
  {
    match Find(g.adj[from], to)
    case None => g
    case Some(j) =>
      var es := g.adj[from];
      g.(adj := g.adj[from := es[j := es[j].(cost := es[j].cost + adjustment)]])
  }

  /** The end-of-step `edge.flow = 0` loop. */
  function ResetFlows(g: Graph): (r: Graph)
    ensures SameRoutes(g, r) && NoFlow(r)
    ensures forall u, j :: u in g.adj && 0 <= j < |g.adj[u]| ==> r.adj[u][j].cost == g.adj[u][j].cost
  {
    g.(adj := map u | u in g.adj :: seq(|g.adj[u]|, j requires 0 <= j < |g.adj[u]| => g.adj[u][j].(flow := 0)))
  }

  /** The edge the policy penalises in a step that routed `path` with measured error `error`. */
  ghost predicate PenalisedEdge(g: Graph, path: Option<seq<Point>>, error: real, u: Point, j: nat) {
    path.Some? && |path.value| >= 2 && error > 0.0 &&
    u == path.value[0] && u in g.adj && Find(g.adj[u], path.value[1]) == Some(j)
  }

  /**
   * What one `route_cheapest_path` call on `d` hands back: no path exactly
   * when the sink is unreachable, otherwise a cheapest walk from source to
   * sink and the smallest room left on it.
   */
  ghost predicate CheapestRoute(d: Graph, flow: nat, path: Option<seq<Point>>) {
    && (path.None? <==> !SinkReachable(d))
    && (path.Some? ==> WalkBetween(d, path.value, d.source, d.sink))
    && (path.Some? ==> forall p :: WalkBetween(d, p, d.source, d.sink) ==> WalkCost(d, path.value) <= WalkCost(d, p))
    && (path.Some? ==> forall i :: 0 <= i < |path.value| - 1 ==> flow <= Room(d, path.value[i], path.value[i + 1]))
    && (path.Some? && d.source != d.sink ==>
          exists i :: 0 <= i < |path.value| - 1 && flow == Room(d, path.value[i], path.value[i + 1]))
  }

  /** The first half of a turn: decay every cost, then route the cheapest path once on the decayed graph. */
  method DecayAndRoute(g0: Graph) returns (flow: U64, path: Option<seq<Point>>, routed: Graph)
    requires NoParallel(g0) && CostsAtLeastOne(g0)
    ensures SameRoutes(g0, routed)
    ensures forall u, j :: u in g0.adj && 0 <= j < |g0.adj[u]| ==> routed.adj[u][j].cost == Decay(g0.adj[u][j].cost)
    ensures CheapestRoute(DecayCosts(g0), flow, path)
    ensures path.Some? && |path.value| >= 2 ==> path.value[0] in routed.adj
  {
    var decayed := DecayCosts(g0);
    DecayKeepsCosts(g0);
    SameRoutesNoParallel(g0, decayed);
    CostsAtLeastOneWellFormed(decayed);
    flow, path, routed := RouteCheapestPath(decayed);
    SameRoutesTrans(g0, decayed, routed);
    if path.Some? && |path.value| >= 2 {
      assert Step(decayed, path.value[0], path.value[1]);
    }
  }

  /**
   * The second half of a turn: penalise the first edge of the routed path
   * by `error * 50` when the measured error is positive, then reset flows.
   */
  method PenaliseAndReset(g0: Graph, routed: Graph, path: Option<seq<Point>>, u2: seq<Point> -> real)
    returns (g: Graph, ghost error: real)
    requires NoParallel(g0) && CostsAtLeastOne(g0) && SameRoutes(g0, routed)
    requires forall u, j :: u in g0.adj && 0 <= j < |g0.adj[u]| ==> routed.adj[u][j].cost == Decay(g0.adj[u][j].cost)
    requires path.Some? && |path.value| >= 2 ==> path.value[0] in routed.adj
    ensures SameRoutes(g0, g) && NoFlow(g) && NoParallel(g) && CostsAtLeastOne(g)
    ensures path.Some? ==> error == MeasuredNorm(u2, path.value) - TARGET_GOWERS_NORM
    ensures forall u, j :: u in g0.adj && 0 <= j < |g0.adj[u]| ==>
              g.adj[u][j].cost == Decay(g0.adj[u][j].cost) +
                (if PenalisedEdge(g0, path, error, u, j) then error * COST_ADJUSTMENT_GAIN else 0.0)
  {
    error := 0.0;
    var penalised := routed;
    if path.Some? {
      var p := path.value;
      var err := MeasuredNorm(u2, p) - TARGET_GOWERS_NORM;
      error := err;
      if err > 0.0 {
        var adjustment := err * COST_ADJUSTMENT_GAIN;
        // `path[1]` exists: a one-point path has norm 0, below the target.
        penalised := Penalize(routed, p[0], p[1], adjustment);
        PenaltyCosts(g0, routed, penalised, p, error);
      } else {
        NoPenaltyCosts(g0, routed, path, error);
      }
    } else {
      NoPenaltyCosts(g0, routed, path, error);
    }
    g := ResetFlows(penalised);
    SameRoutesTrans(g0, penalised, g);
    SameRoutesNoParallel(g0, g);
    StepCostsAtLeastOne(g0, g, path, error);
  }

  /**
   * One turn of the loop in `main`: decay, route once, penalise, reset.
   * Afterwards no edge carries flow, and each edge's cost is its decayed
   * cost plus the penalty if it is the penalised edge.
   */
  method ManagerStep(g0: Graph, u2: seq<Point> -> real)
    returns (g: Graph, flow: U64, path: Option<seq<Point>>, ghost error: real)
    requires NoParallel(g0) && CostsAtLeastOne(g0)
    ensures SameRoutes(g0, g) && NoFlow(g) && NoParallel(g) && CostsAtLeastOne(g)
    ensures CheapestRoute(DecayCosts(g0), flow, path)
    ensures path.Some? ==> error == MeasuredNorm(u2, path.value) - TARGET_GOWERS_NORM
    ensures forall u, j :: u in g0.adj && 0 <= j < |g0.adj[u]| ==>
              g.adj[u][j].cost == Decay(g0.adj[u][j].cost) +
                (if PenalisedEdge(g0, path, error, u, j) then error * COST_ADJUSTMENT_GAIN else 0.0)
  {
    var routed;
    flow, path, routed := DecayAndRoute(g0);
    g, error := PenaliseAndReset(g0, routed, path, u2);
  }

  /** Without a penalty the costs after routing are just the decayed costs. */
  lemma NoPenaltyCosts(g0: Graph, routed: Graph, path: Option<seq<Point>>, error: real)
    requires SameRoutes(g0, routed) && (path.None? || error <= 0.0)
    requires forall u, j :: u in g0.adj && 0 <= j < |g0.adj[u]| ==> routed.adj[u][j].cost == Decay(g0.adj[u][j].cost)
    ensures forall u, j :: u in g0.adj && 0 <= j < |g0.adj[u]| ==>
              routed.adj[u][j].cost == Decay(g0.adj[u][j].cost) +
                (if PenalisedEdge(g0, path, error, u, j) then error * COST_ADJUSTMENT_GAIN else 0.0)
  {
  }

  /** A positive penalty on top of a decayed cost cannot push it below 1. */
  lemma StepCostsAtLeastOne(g0: Graph, g: Graph, path: Option<seq<Point>>, error: real)
    requires CostsAtLeastOne(g0) && SameRoutes(g0, g)
    requires forall u, j :: u in g0.adj && 0 <= j < |g0.adj[u]| ==>
              g.adj[u][j].cost == Decay(g0.adj[u][j].cost) +
                (if PenalisedEdge(g0, path, error, u, j) then error * COST_ADJUSTMENT_GAIN else 0.0)
    ensures CostsAtLeastOne(g)
  {
    forall u, j | u in g.adj && 0 <= j < |g.adj[u]| ensures g.adj[u][j].cost >= 1.0 {
      DecayTowardsOne(g0.adj[u][j].cost);
    }
  }

  /** The costs after the penalty, in terms of the costs before the step. */
  lemma PenaltyCosts(g0: Graph, routed: Graph, penalised: Graph, p: seq<Point>, error: real)
    requires SameRoutes(g0, routed) && |p| >= 2 && p[0] in routed.adj && error > 0.0
    requires forall u, j :: u in g0.adj && 0 <= j < |g0.adj[u]| ==> routed.adj[u][j].cost == Decay(g0.adj[u][j].cost)
    requires penalised == Penalize(routed, p[0], p[1], error * COST_ADJUSTMENT_GAIN)
    ensures SameRoutes(g0, penalised)
    ensures forall u, j :: u in g0.adj && 0 <= j < |g0.adj[u]| ==>
              penalised.adj[u][j].cost == Decay(g0.adj[u][j].cost) +
                (if PenalisedEdge(g0, Some(p), error, u, j) then error * COST_ADJUSTMENT_GAIN else 0.0)
  {
    SameRoutesTrans(g0, routed, penalised);
    var adjustment := error * COST_ADJUSTMENT_GAIN;
    forall u, j | u in g0.adj && 0 <= j < |g0.adj[u]|
      ensures penalised.adj[u][j].cost == Decay(g0.adj[u][j].cost) +
                (if PenalisedEdge(g0, Some(p), error, u, j) then adjustment else 0.0)
    {
      FindSameTargets(routed.adj[u], g0.adj[u], p[1]);
      assert penalised.adj[u][j].cost == routed.adj[u][j].cost +
        (if u == p[0] && Find(routed.adj[p[0]], p[1]) == Some(j) then adjustment else 0.0);
    }
  }

  /**
   * `main`'s simulation: build the diamond and run `SIMULATION_STEPS`
   * steps. Costs never drop below 1, so every routing call has the
   * non-negative costs it needs, and each step ends with no flow.
   */
  method RunManager(u2: seq<Point> -> real) returns (g: Graph)
    ensures SameRoutes(DiamondGraph(S, T), g) && NoFlow(g) && CostsAtLeastOne(g) && WellFormed(g)
  {
    g := DiamondGraph(S, T);
    ghost var g0 := g;
    DiamondShape();
    DiamondStart(g0);
    var i := 0;
    while i < SIMULATION_STEPS
      invariant SameRoutes(g0, g) && NoFlow(g) && NoParallel(g) && CostsAtLeastOne(g)
    {
      var next, flow, path;
      ghost var error;
      next, flow, path, error := ManagerStep(g, u2);
      SameRoutesTrans(g0, g, next);
      g := next;
      i := i + 1;
    }
    CostsAtLeastOneWellFormed(g);
  }
}
