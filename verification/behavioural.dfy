/**
 * The behavioural-analysis example
 * (`examples/moma_agent_behavioural_analysis/src/main.rs`): A* over the
 * automaton's cells where a move costs `residue(current, next) + 1`, the
 * per-strategy sample totals, and the shape of the path-to-angle sequence.
 *
 * The cost ring's `residue` is the same uninterpreted `Automaton.Rule` as
 * the automaton's; the `atan2`/`cos`/`sin` of a step is a parameter.
 */
module Behavioural {
  import opened Arith
  import opened Wrappers
  import opened Grids
  import opened SearchNode
  import opened Pathfinding
  import opened GridSearch
  import opened Automaton
  import Gower

  // ------------------------------------------------------------ the search

  /** The automaton's cells as a grid without walls: what the bounds filter of the search admits. */
  function Box(t: Torus): (g: Grid)
    ensures Valid(g) && g.width == t.width && g.height == t.height
  {
    Grids.New(t.width, t.height, Free)
  }

  /** The four candidate moves `(-1, 0), (1, 0), (0, -1), (0, 1)` that stay inside the automaton. */
  function Moves(t: Torus, p: Point): (r: seq<Point>)
    ensures forall q :: q in r <==> InBounds(Box(t), q) && Adjacent(p, q)
  {
    Neighbors(Box(t), p)
  }

  /** The state value `automaton.state[y * width + x]` of an in-bounds point. */
  function Value(t: Torus, p: Point): U64
    requires TorusValid(t) && p.x < t.width && p.y < t.height
  {
    At(t, p.x, p.y)
  }

  /**
   * `move_cost = cost_ring.residue(current_val, next_val) + 1`. Only moves
   * between in-bounds points occur; the cost of any other pair is
   * irrelevant and fixed at 1.
   */
  function MoveCost(t: Torus, residue: Rule, u: Point, v: Point): (c: nat)
    ensures c >= 1
  {
    if TorusValid(t) && u.x < t.width && u.y < t.height && v.x < t.width && v.y < t.height
    then residue(Value(t, u), Value(t, v)) + 1
    else 1
  }

  /** The search `a_star_moma_cost` performs, for the shared best-first engine. */
  function MomaProblem(t: Torus, residue: Rule, start: Point, goal: Point): (pb: Problem)
    ensures pb.start == start && pb.goal == goal
    ensures forall u, v :: v in pb.succ(u) <==> InBounds(Box(t), v) && Adjacent(u, v)
    ensures forall u, v :: pb.step(u, v) == MoveCost(t, residue, u, v)
    ensures forall u :: pb.h(u) == Manhattan(u, goal)
  {
    Problem(p => Moves(t, p), (u, v) => MoveCost(t, residue, u, v), p => Manhattan(p, goal), start, goal)
  }

  /** Every move between cells costs at most `maxStep`. */
  predicate CostBound(t: Torus, residue: Rule, maxStep: nat) {
    && 1 <= maxStep
    && forall a, b :: a in t.state && b in t.state ==> residue(a, b) + 1 <= maxStep
  }

  /**
   * The bounds under which the source's arithmetic is exact: coordinates fit
   * `i32` for `manhattan_distance`, and every accumulated cost, at most the
   * number of cells times the dearest move, stays below 2^31, so that it fits
   * the `u32` of `new_cost as u32` and, plus a heuristic below 2^31, the `u32`
   * key sum of `Node::cmp`.
   */
  predicate SearchFits(t: Torus, residue: Rule, maxStep: nat, start: Point, goal: Point) {
    && TorusValid(t) && t.width <= 0x4000_0000 && t.height <= 0x4000_0000
    && start.x < t.width && start.y < t.height && FitsI32(goal)
    && CostBound(t, residue, maxStep) && Mul(|t.state|, maxStep) < 0x8000_0000
  }

  /** Under `SearchFits` the problem satisfies everything the best-first engine relies on. */
  lemma MomaWellPosed(t: Torus, residue: Rule, maxStep: nat, start: Point, goal: Point)
    requires SearchFits(t, residue, maxStep, start, goal)
    ensures WellPosed(MomaProblem(t, residue, start, goal), Cells(Box(t)), maxStep)
  {
    var pb := MomaProblem(t, residue, start, goal);
    var box := Box(t);
    CellsExact(box, start);
    CellsCard(box);
    MulIsProduct(t.height, t.width);
    MulMonotone(|Cells(box)|, |t.state|, maxStep);
    MomaClosed(t, residue, start, goal);
    MomaCosts(t, residue, maxStep, start, goal);
    MomaConsistent(t, residue, start, goal);
    MomaHeuristicFits(t, residue, start, goal);
    ManhattanMetric(goal, goal, goal);
  }

  /** Moves never leave the automaton's cells. */
  lemma MomaClosed(t: Torus, residue: Rule, start: Point, goal: Point)
    ensures forall u, v :: u in Cells(Box(t)) && v in MomaProblem(t, residue, start, goal).succ(u) ==> v in Cells(Box(t))
  {
    var pb := MomaProblem(t, residue, start, goal);
    forall u, v | u in Cells(Box(t)) && v in pb.succ(u) ensures v in Cells(Box(t)) {
      CellsExact(Box(t), v);
    }
  }

  /** Every move costs between 1 and `maxStep`. */
  lemma MomaCosts(t: Torus, residue: Rule, maxStep: nat, start: Point, goal: Point)
    requires TorusValid(t) && CostBound(t, residue, maxStep)
    ensures forall u, v :: v in MomaProblem(t, residue, start, goal).succ(u) ==>
      1 <= MomaProblem(t, residue, start, goal).step(u, v) <= maxStep
  {
    var pb := MomaProblem(t, residue, start, goal);
    forall u, v | v in pb.succ(u) ensures 1 <= pb.step(u, v) <= maxStep {
      if u.x < t.width && u.y < t.height && v.x < t.width && v.y < t.height {
        ValueIn(t, u);
        ValueIn(t, v);
        assert pb.step(u, v) == residue(Value(t, u), Value(t, v)) + 1;
      }
    }
  }

  /** The value of a cell is one of the automaton's states. */
  lemma ValueIn(t: Torus, p: Point)
    requires TorusValid(t) && p.x < t.width && p.y < t.height
    ensures Value(t, p) in t.state
  {
    FlatInRange(t.width, t.height, p.x, p.y);
  }

  /** The Manhattan heuristic drops by at most one per move, and every move costs at least one. */
  lemma MomaConsistent(t: Torus, residue: Rule, start: Point, goal: Point)
    ensures forall u, v :: v in MomaProblem(t, residue, start, goal).succ(u) ==>
      MomaProblem(t, residue, start, goal).h(u) <= MomaProblem(t, residue, start, goal).step(u, v) + MomaProblem(t, residue, start, goal).h(v)
  {
    var pb := MomaProblem(t, residue, start, goal);
    forall u, v | v in pb.succ(u) ensures pb.h(u) <= pb.step(u, v) + pb.h(v) {
      ManhattanConsistent(u, v, goal);
    }
  }

  /** On cells whose coordinates fit `i32`, the heuristic stays below 2^31. */
  lemma MomaHeuristicFits(t: Torus, residue: Rule, start: Point, goal: Point)
    requires t.width <= 0x4000_0000 && t.height <= 0x4000_0000 && FitsI32(goal)
    ensures forall u :: u in Cells(Box(t)) ==> MomaProblem(t, residue, start, goal).h(u) < 0x8000_0000
  {
    forall u | u in Cells(Box(t)) ensures Manhattan(u, goal) < 0x8000_0000 {
      CellsExact(Box(t), u);
      ManhattanFits(u, goal);
    }
  }

  /** A unit move from `u` onto a cell of the automaton. */
  predicate Move(t: Torus, u: Point, v: Point) {
    v.x < t.width && v.y < t.height && Adjacent(u, v)
  }

  /** A sequence of unit moves from `a` to `b` inside the automaton. */
  ghost predicate CellPath(t: Torus, p: seq<Point>, a: Point, b: Point) {
    && |p| > 0 && p[0] == a && p[|p| - 1] == b
    && forall i :: 0 <= i < |p| - 1 ==> Move(t, p[i], p[i + 1])
  }

  /**
   * `a_star_moma_cost`: a cheapest path of unit moves from `start` to
   * `goal` under the move cost `residue + 1`, or `None` exactly when the
   * goal lies outside the automaton. The Manhattan distance never exceeds
   * the path's cost.
   */
  method AStarMomaCost(t: Torus, residue: Rule, start: Point, goal: Point, ghost maxStep: nat)
    returns (r: Option<seq<Point>>)
    requires SearchFits(t, residue, maxStep, start, goal)
    ensures r.Some? ==> CellPath(t, r.value, start, goal)
    ensures r.Some? ==> forall p :: CellPath(t, p, start, goal) ==>
      WalkCost(MomaProblem(t, residue, start, goal), r.value) <= WalkCost(MomaProblem(t, residue, start, goal), p)
    ensures r.Some? ==> Manhattan(start, goal) <= WalkCost(MomaProblem(t, residue, start, goal), r.value)
    ensures r.None? <==> !exists p :: CellPath(t, p, start, goal)
    ensures start == goal ==> r == Some([start])
  {
    var pb := MomaProblem(t, residue, start, goal);
    MomaWellPosed(t, residue, maxStep, start, goal);
    r := BestFirstSearch(pb, Cells(Box(t)), maxStep);
    forall p ensures WalkBetween(pb, p, start, goal) <==> CellPath(t, p, start, goal) {
      CellWalks(t, residue, start, goal, p);
    }
    if r.Some? {
      HeuristicAdmissible(pb, Cells(Box(t)), maxStep, r.value);
    }
  }

  /** Walks of the search problem and paths of unit moves inside the automaton are the same sequences. */
  lemma CellWalks(t: Torus, residue: Rule, start: Point, goal: Point, p: seq<Point>)
    ensures WalkBetween(MomaProblem(t, residue, start, goal), p, start, goal) <==> CellPath(t, p, start, goal)
  {
  }

  /** Inside a non-empty automaton every goal cell can be reached from every start cell. */
  lemma {:induction false} AllCellsConnected(t: Torus, a: Point, b: Point)
    requires a.x < t.width && a.y < t.height && b.x < t.width && b.y < t.height
    ensures exists p :: CellPath(t, p, a, b)
    decreases Manhattan(a, b)
  {
    if a == b {
      assert CellPath(t, [a], a, b);
    } else {
      var c := if a.x < b.x then Point(a.x + 1, a.y) else if a.x > b.x then Point(a.x - 1, a.y)
               else if a.y < b.y then Point(a.x, a.y + 1) else Point(a.x, a.y - 1);
      AllCellsConnected(t, c, b);
      var p :| CellPath(t, p, c, b);
      var q := [a] + p;
      assert CellPath(t, q, a, b) by {
        forall i | 0 <= i < |q| - 1 ensures Move(t, q[i], q[i + 1]) {
          if i > 0 {
            assert q[i] == p[i - 1] && q[i + 1] == p[i];
          }
        }
      }
    }
  }

  /** With no walls the search fails only for a goal outside the automaton. */
  lemma MomaNoneMeansOutside(t: Torus, start: Point, goal: Point)
    requires start.x < t.width && start.y < t.height
    ensures (exists p :: CellPath(t, p, start, goal)) <==> goal.x < t.width && goal.y < t.height
  {
    if goal.x < t.width && goal.y < t.height {
      AllCellsConnected(t, start, goal);
    }
    if exists p :: CellPath(t, p, start, goal) {
      var p :| CellPath(t, p, start, goal);
      if |p| == 1 {
        assert goal == start;
      } else {
        assert Move(t, p[|p| - 2], p[(|p| - 2) + 1]);
      }
    }
  }

  // ------------------------------------------------------- sample totals

  /** `ExperimentResult`: one strategy's running totals. */
  datatype Experiment = Experiment(name: string, samples: nat, totalPathLength: nat, totalGowersNorm: real)

  /** `ExperimentResult::new`: nothing recorded yet. */
  function NewExperiment(name: string): (e: Experiment)
    ensures e.name == name && e.samples == 0 && e.totalPathLength == 0 && e.totalGowersNorm == 0.0
  {
    Experiment(name, 0, 0, 0.0)
  }

  /** One `record_sample(path_length, gowers_norm)`. */
  function RecordSample(e: Experiment, pathLength: nat, gowersNorm: real): Experiment {
    Experiment(e.name, e.samples + 1, e.totalPathLength + pathLength, e.totalGowersNorm + gowersNorm)
  }

  /** A run's samples as `(path length, norm)` pairs, recorded in order. */
  function RecordAll(e: Experiment, xs: seq<(nat, real)>): Experiment
    decreases |xs|
  {
    if |xs| == 0 then e else RecordAll(RecordSample(e, xs[0].0, xs[0].1), xs[1..])
  }

  function SumLengths(xs: seq<(nat, real)>): nat
    decreases |xs|
  {
    if |xs| == 0 then 0 else xs[0].0 + SumLengths(xs[1..])
  }

  function SumNorms(xs: seq<(nat, real)>): real
    decreases |xs|
  {
    if |xs| == 0 then 0.0 else xs[0].1 + SumNorms(xs[1..])
  }

  /**
   * After recording a run the totals are what `report` averages: the number
   * of samples, and the exact sums of the lengths and norms recorded; the
   * name is kept.
   */
  lemma {:induction false} RecordAllTotals(e: Experiment, xs: seq<(nat, real)>)
    ensures RecordAll(e, xs).name == e.name
    ensures RecordAll(e, xs).samples == e.samples + |xs|
    ensures RecordAll(e, xs).totalPathLength == e.totalPathLength + SumLengths(xs)
    ensures RecordAll(e, xs).totalGowersNorm == e.totalGowersNorm + SumNorms(xs)
    decreases |xs|
  {
    if |xs| > 0 {
      RecordAllTotals(RecordSample(e, xs[0].0, xs[0].1), xs[1..]);
    }
  }

  /** The totals of a fresh experiment after a run. */
  lemma FreshTotals(name: string, xs: seq<(nat, real)>)
    ensures RecordAll(NewExperiment(name), xs) == Experiment(name, |xs|, SumLengths(xs), SumNorms(xs))
  {
    RecordAllTotals(NewExperiment(name), xs);
  }

  // ------------------------------------------------- path to angle samples

  /**
   * `path_to_complex_sequence_fft`: one sample per step of the path, the
   * step's `(cos, sin)` of `atan2(dy, dx)` given here by `angle`; nothing
   * for a path of fewer than two points.
   */
  method PathToAngles<T>(path: seq<(int, int)>, angle: (int, int) -> T) returns (s: seq<T>)
    ensures |path| < 2 ==> s == []
    ensures |path| >= 2 ==> |s| == |path| - 1
    ensures forall p :: 1 <= p < |path| ==> s[p - 1] == angle(path[p].0 - path[p - 1].0, path[p].1 - path[p - 1].1)
  {
    s := [];
    if |path| < 2 {
      return;
    }
    for p := 1 to |path|
      invariant |s| == p - 1
      invariant forall q :: 1 <= q < p ==> s[q - 1] == angle(path[q].0 - path[q - 1].0, path[q].1 - path[q - 1].1)
    {
      var dx := path[p].0 - path[p - 1].0;
      var dy := path[p].1 - path[p - 1].1;
      s := s + [angle(dx, dy)];
    }
  }

  /** `path.iter().map(|p| (p.x as i32, p.y as i32))`, for coordinates that fit. */
  function Coords(path: seq<Point>): (c: seq<(int, int)>)
    ensures |c| == |path|
    ensures forall i :: 0 <= i < |path| ==> c[i] == (path[i].x, path[i].y)
  {
    seq(|path|, i requires 0 <= i < |path| => (path[i].x, path[i].y))
  }

  /**
   * Every step of a path the search returns is one unit along an axis, so
   * each `atan2` sample is exactly one of the four units `Gower.Sample` gives,
   * and the path's `(cos, sin)` sequence has one entry per move.
   */
  lemma CellPathSamples(t: Torus, path: seq<Point>, a: Point, b: Point)
    requires CellPath(t, path, a, b)
    ensures Gower.AxisPath(Coords(path))
    ensures forall p :: 1 <= p < |path| ==>
      Gower.Unit(Gower.Sample(Coords(path)[p].0 - Coords(path)[p - 1].0, Coords(path)[p].1 - Coords(path)[p - 1].1))
  {
    var c := Coords(path);
    forall p | 1 <= p < |path| ensures Gower.AxisStep(c[p].0 - c[p - 1].0, c[p].1 - c[p - 1].1) {
      assert Move(t, path[p - 1], path[(p - 1) + 1]);
    }
  }
}
