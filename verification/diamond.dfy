/**
 * The diamond network of the flow manager's `main`, worked out: the only
 * two walks from source to sink, the route and flow of the first step, and
 * the flow `edmonds_karp` leaves on it.
 */
module DiamondRuns {
  import opened Wrappers
  import opened Grids
  import opened Arith
  import opened NetworkGraph
  import opened FlowSums
  import opened Dijkstra
  import opened FlowRouter
  import opened FlowManager

  /** The five edges of the diamond with their targets and capacities; costs and flows are left free. */
  ghost predicate DiamondRoutes(g: Graph) {
    && g.source == S && g.sink == T && g.adj.Keys == {S, A, B, C, T}
    && |g.adj[S]| == 2 && |g.adj[A]| == 1 && |g.adj[B]| == 1 && |g.adj[C]| == 1 && g.adj[T] == []
    && g.adj[S][0].to == A && g.adj[S][0].capacity == 10
    && g.adj[S][1].to == B && g.adj[S][1].capacity == 7
    && g.adj[A][0].to == T && g.adj[A][0].capacity == 10
    && g.adj[B][0].to == C && g.adj[B][0].capacity == 7
    && g.adj[C][0].to == T && g.adj[C][0].capacity == 7
  }

  lemma DiamondHasRoutes(g: Graph)
    requires IsDiamond(g)
    ensures DiamondRoutes(g) && NoFlow(g)
  {
  }

  /** Changing only costs keeps the routes. */
  lemma SameRoutesDiamond(g: Graph, r: Graph)
    requires DiamondRoutes(g) && SameRoutes(g, r)
    ensures DiamondRoutes(r)
  {
    assert r.adj[S][0].to == A && r.adj[S][1].to == B;
    assert r.adj[A][0].to == T && r.adj[B][0].to == C && r.adj[C][0].to == T;
  }

  /** Changing only flows keeps the routes. */
  lemma SameShapeDiamond(g: Graph, r: Graph)
    requires DiamondRoutes(g) && SameShape(g, r)
    ensures DiamondRoutes(r)
  {
    assert r.adj[S][0].to == A && r.adj[S][1].to == B;
    assert r.adj[A][0].to == T && r.adj[B][0].to == C && r.adj[C][0].to == T;
  }

  /** `find` returns `j` when `j` is the first edge into `v`. */
  lemma FindAt(es: seq<Edge>, j: nat, v: Point)
    requires j < |es| && es[j].to == v && forall i :: 0 <= i < j ==> es[i].to != v
    ensures Find(es, v) == Some(j)
  {
    FindFirst(es, v);
  }

  /** The moves the routing may take on the diamond: along one of its five edges, while that edge has room. */
  lemma DiamondSteps(g: Graph, u: Point, v: Point)
    requires DiamondRoutes(g)
    ensures Step(g, u, v) <==>
              || (u == S && v == A && g.adj[S][0].flow < 10)
              || (u == S && v == B && g.adj[S][1].flow < 7)
              || (u == A && v == T && g.adj[A][0].flow < 10)
              || (u == B && v == C && g.adj[B][0].flow < 7)
              || (u == C && v == T && g.adj[C][0].flow < 7)
  {
    var es := GetEdges(g, u);
    FindFirst(es, v);
    if u == S && v == A {
      FindAt(es, 0, v);
    } else if u == S && v == B {
      FindAt(es, 1, v);
    } else if (u == A || u == C) && v == T {
      FindAt(es, 0, v);
    } else if u == B && v == C {
      FindAt(es, 0, v);
    }
  }

  /** Nothing leaves the sink of the diamond, so a walk that reaches it ends there. */
  lemma WalkStopsAtSink(g: Graph, p: seq<Point>, k: nat)
    requires DiamondRoutes(g) && IsWalk(g, p) && k < |p| && p[k] == T
    ensures k == |p| - 1
  {
    if k < |p| - 1 {
      DiamondSteps(g, p[k], p[k + 1]);
    }
  }

  /** Only two walks lead from the source to the sink: the short one via `A` and the long one via `B` and `C`. */
  lemma DiamondWalks(g: Graph, p: seq<Point>)
    requires DiamondRoutes(g) && WalkBetween(g, p, S, T)
    ensures p == [S, A, T] || p == [S, B, C, T]
  {
    assert |p| >= 2;
    assert Step(g, p[0], p[1]);
    DiamondSteps(g, p[0], p[1]);
    assert |p| >= 3;
    assert Step(g, p[1], p[2]);
    DiamondSteps(g, p[1], p[2]);
    if p[1] == A {
      WalkStopsAtSink(g, p, 2);
      assert p == [S, A, T];
    } else {
      assert |p| >= 4;
      assert Step(g, p[2], p[3]);
      DiamondSteps(g, p[2], p[3]);
      WalkStopsAtSink(g, p, 3);
      assert p == [S, B, C, T];
    }
  }

  /** On the untouched diamond both walks exist; the short one costs 2 and the long one 3. */
  lemma DiamondWalkCosts(g: Graph)
    requires IsDiamond(g)
    ensures WalkBetween(g, [S, A, T], S, T) && WalkCost(g, [S, A, T]) == 2.0
    ensures WalkBetween(g, [S, B, C, T], S, T) && WalkCost(g, [S, B, C, T]) == 3.0
    ensures Room(g, S, A) == 10 && Room(g, A, T) == 10
  {
    DiamondHasRoutes(g);
    DiamondSteps(g, S, A);
    DiamondSteps(g, A, T);
    DiamondSteps(g, S, B);
    DiamondSteps(g, B, C);
    DiamondSteps(g, C, T);
    FindAt(g.adj[S], 0, A);
    FindAt(g.adj[S], 1, B);
    FindAt(g.adj[A], 0, T);
    FindAt(g.adj[B], 0, C);
    FindAt(g.adj[C], 0, T);
    assert WalkCost(g, [T]) == 0.0;
    assert [C, T][1..] == [T] && WalkCost(g, [C, T]) == 1.0;
    assert [A, T][1..] == [T] && WalkCost(g, [A, T]) == 1.0;
    assert [B, C, T][1..] == [C, T] && WalkCost(g, [B, C, T]) == 2.0;
    assert [S, A, T][1..] == [A, T];
    assert [S, B, C, T][1..] == [B, C, T];
  }

  /** Decay leaves the unit costs of the diamond at 1, so the decayed diamond is the diamond. */
  lemma DecayedDiamond(g: Graph)
    requires IsDiamond(g)
    ensures IsDiamond(DecayCosts(g))
  {
    var r := DecayCosts(g);
    DecayTowardsOne(1.0);
    assert r.adj[S][0] == Edge(A, 10, 1.0, 0) && r.adj[S][1] == Edge(B, 7, 1.0, 0);
    assert r.adj[S] == [Edge(A, 10, 1.0, 0), Edge(B, 7, 1.0, 0)];
    assert r.adj[A][0] == Edge(T, 10, 1.0, 0);
    assert r.adj[B][0] == Edge(C, 7, 1.0, 0);
    assert r.adj[C][0] == Edge(T, 7, 1.0, 0);
  }

  /** Routing on the unit-cost diamond picks the short route via `A` and sends 10 units along it. */
  lemma FirstRoute(d: Graph, flow: nat, path: Option<seq<Point>>)
    requires IsDiamond(d) && CheapestRoute(d, flow, path)
    ensures path == Some([S, A, T]) && flow == 10
  {
    DiamondWalkCosts(d);
    DiamondHasRoutes(d);
    assert path.Some? by {
      assert WalkBetween(d, [S, A, T], d.source, d.sink);
    }
    DiamondWalks(d, path.value);
    assert WalkCost(d, path.value) <= WalkCost(d, [S, A, T]);
    assert path.value == [S, A, T];
    assert flow <= Room(d, path.value[0], path.value[1]) && flow <= Room(d, path.value[1], path.value[2]);
  }

  /** After a turn that routed the short route, only the edge `S -> A` may have been penalised. */
  lemma FirstCosts(g0: Graph, g: Graph, u2: seq<Point> -> real, error: real)
    requires IsDiamond(g0) && SameRoutes(g0, g) && DiamondRoutes(g)
    requires error == MeasuredNorm(u2, [S, A, T]) - TARGET_GOWERS_NORM
    requires forall u, j :: u in g0.adj && 0 <= j < |g0.adj[u]| ==>
               g.adj[u][j].cost == Decay(g0.adj[u][j].cost) +
                 (if PenalisedEdge(g0, Some([S, A, T]), error, u, j) then error * COST_ADJUSTMENT_GAIN else 0.0)
    ensures var err := u2([S, A, T]) - TARGET_GOWERS_NORM;
            g.adj[S][0].cost == 1.0 + (if err > 0.0 then err * COST_ADJUSTMENT_GAIN else 0.0)
    ensures g.adj[S][1].cost == 1.0 && g.adj[A][0].cost == 1.0 && g.adj[B][0].cost == 1.0 && g.adj[C][0].cost == 1.0
  {
    DecayTowardsOne(1.0);
    FindAt(g0.adj[S], 0, A);
    assert PenalisedEdge(g0, Some([S, A, T]), error, S, 0) <==> error > 0.0;
    assert !PenalisedEdge(g0, Some([S, A, T]), error, S, 1);
    assert g.adj[S][0].cost == Decay(g0.adj[S][0].cost) +
             (if PenalisedEdge(g0, Some([S, A, T]), error, S, 0) then error * COST_ADJUSTMENT_GAIN else 0.0);
    assert g.adj[S][1].cost == Decay(g0.adj[S][1].cost);
    assert g.adj[A][0].cost == Decay(g0.adj[A][0].cost);
    assert g.adj[B][0].cost == Decay(g0.adj[B][0].cost);
    assert g.adj[C][0].cost == Decay(g0.adj[C][0].cost);
  }

  /**
   * The first turn of `main`: the decayed diamond still has unit costs, so
   * the cheapest walk is the short route via `A`, which carries 10 units.
   * Its first edge is penalised exactly when the measured norm of that
   * route is above the target; every other cost stays at 1.
   */
  method FirstStep(u2: seq<Point> -> real) returns (g: Graph, flow: U64, path: Option<seq<Point>>)
    ensures path == Some([S, A, T]) && flow == 10
    ensures DiamondRoutes(g) && NoFlow(g)
    ensures var err := u2([S, A, T]) - TARGET_GOWERS_NORM;
            g.adj[S][0].cost == 1.0 + (if err > 0.0 then err * COST_ADJUSTMENT_GAIN else 0.0)
    ensures g.adj[S][1].cost == 1.0 && g.adj[A][0].cost == 1.0 && g.adj[B][0].cost == 1.0 && g.adj[C][0].cost == 1.0
  {
    var g0 := DiamondGraph(S, T);
    DiamondShape();
    DiamondStart(g0);
    ghost var error;
    g, flow, path, error := ManagerStep(g0, u2);
    DecayedDiamond(g0);
    FirstRoute(DecayCosts(g0), flow, path);
    DiamondHasRoutes(g0);
    SameRoutesDiamond(g0, g);
    FirstCosts(g0, g, u2, error);
  }

  /** Flow entering `v` on the diamond: the sum over the four nodes with outgoing edges. */
  lemma DiamondInFlow(g: Graph, v: Point)
    requires DiamondRoutes(g)
    ensures InFlow(g, v) == SumFlowInto(g.adj[S], v) + SumFlowInto(g.adj[A], v) +
                            SumFlowInto(g.adj[B], v) + SumFlowInto(g.adj[C], v)
  {
    var adj := g.adj;
    InFlowSplit(adj, {S, A, B, C, T}, S, v);
    assert {S, A, B, C, T} - {S} == {A, B, C, T};
    InFlowSplit(adj, {A, B, C, T}, A, v);
    assert {A, B, C, T} - {A} == {B, C, T};
    InFlowSplit(adj, {B, C, T}, B, v);
    assert {B, C, T} - {B} == {C, T};
    InFlowSplit(adj, {C, T}, C, v);
    assert {C, T} - {C} == {T};
    InFlowSplit(adj, {T}, T, v);
    assert {T} - {T} == {};
  }

  /** Sums over a one-edge list. */
  lemma SumsOfOne(es: seq<Edge>, v: Point)
    requires |es| == 1
    ensures SumFlow(es) == es[0].flow
    ensures SumFlowInto(es, v) == if es[0].to == v then es[0].flow else 0
  {
    assert es[1..] == [];
  }

  /** Sums over a two-edge list. */
  lemma SumsOfTwo(es: seq<Edge>, v: Point)
    requires |es| == 2
    ensures SumFlow(es) == es[0].flow + es[1].flow
    ensures SumFlowInto(es, v) == (if es[0].to == v then es[0].flow else 0) + (if es[1].to == v then es[1].flow else 0)
  {
    SumsOfOne(es[1..], v);
  }

  /** Net outflow of `v` on the diamond, written edge by edge. */
  lemma DiamondNet(g: Graph, v: Point)
    requires DiamondRoutes(g)
    ensures Net(g, v) == OutFlow(g, v) -
              ((if v == A then g.adj[S][0].flow else 0) + (if v == B then g.adj[S][1].flow else 0) +
               (if v == T then g.adj[A][0].flow + g.adj[C][0].flow else 0) + (if v == C then g.adj[B][0].flow else 0))
  {
    DiamondInFlow(g, v);
    SumsOfTwo(g.adj[S], v);
    SumsOfOne(g.adj[A], v);
    SumsOfOne(g.adj[B], v);
    SumsOfOne(g.adj[C], v);
  }

  /** Net outflow at the source and the three inner nodes of the diamond, edge by edge. */
  lemma DiamondNets(g: Graph)
    requires DiamondRoutes(g)
    ensures Net(g, S) == g.adj[S][0].flow + g.adj[S][1].flow
    ensures Net(g, A) == g.adj[A][0].flow - g.adj[S][0].flow
    ensures Net(g, B) == g.adj[B][0].flow - g.adj[S][1].flow
    ensures Net(g, C) == g.adj[C][0].flow - g.adj[B][0].flow
  {
    DiamondNet(g, S);
    DiamondNet(g, A);
    DiamondNet(g, B);
    DiamondNet(g, C);
    SumsOfTwo(g.adj[S], S);
    SumsOfOne(g.adj[A], A);
    SumsOfOne(g.adj[B], B);
    SumsOfOne(g.adj[C], C);
  }

  /**
   * A blocking flow on the diamond that started empty: conservation at
   * `A`, `B` and `C` makes each route carry one amount, a blocked route has
   * a full edge, and feasibility caps it, so both routes are full.
   */
  lemma BlockedDiamond(g0: Graph, g: Graph, total: nat)
    requires IsDiamond(g0) && Progress(g0, g, total) && !SinkReachable(g)
    ensures DiamondRoutes(g) && total == 17
    ensures g.adj[S][0].flow == 10 && g.adj[A][0].flow == 10
    ensures g.adj[S][1].flow == 7 && g.adj[B][0].flow == 7 && g.adj[C][0].flow == 7
  {
    DiamondHasRoutes(g0);
    SameShapeDiamond(g0, g);
    assert Feasible(g0);
    assert Feasible(g);
    DiamondNets(g0);
    DiamondNets(g);
    assert Net(g, A) == 0 && Net(g, B) == 0 && Net(g, C) == 0 && Net(g, S) == total;
    assert !WalkBetween(g, [S, A, T], S, T);
    assert !WalkBetween(g, [S, B, C, T], S, T);
    DiamondSteps(g, S, A);
    DiamondSteps(g, A, T);
    DiamondSteps(g, S, B);
    DiamondSteps(g, B, C);
    DiamondSteps(g, C, T);
  }

  /**
   * `edmonds_karp` on the diamond of `main`: both routes end saturated,
   * every edge at its capacity, and 17 units (all the source can send) flow.
   */
  method DiamondMaxFlow() returns (total: nat, g: Graph)
    ensures DiamondRoutes(g) && total == 17
    ensures g.adj[S][0].flow == 10 && g.adj[A][0].flow == 10
    ensures g.adj[S][1].flow == 7 && g.adj[B][0].flow == 7 && g.adj[C][0].flow == 7
  {
    var g0 := DiamondGraph(S, T);
    DiamondShape();
    DiamondStart(g0);
    CostsAtLeastOneWellFormed(g0);
    total, g := EdmondsKarp(g0);
    BlockedDiamond(g0, g, total);
  }
}
