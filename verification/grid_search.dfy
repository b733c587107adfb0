/**
 * `a_star` of `src/pathfinding.rs`: the best-first search instantiated with
 * the grid's open neighbours as successors, unit moves, and the Manhattan
 * distance to the goal as heuristic.
 */
module GridSearch {
  import opened Arith
  import opened Wrappers
  import opened Grids
  import opened SearchNode
  import opened Pathfinding

  /** A sequence of points from `a` to `b` whose every move enters an open neighbouring cell. */
  ghost predicate GridPath(grid: Grid, p: seq<Point>, a: Point, b: Point)
    requires Valid(grid)
  {
    && |p| > 0 && p[0] == a && p[|p| - 1] == b
    && forall i :: 0 <= i < |p| - 1 ==> Open(grid, p[i], p[i + 1])
  }

  function UnitStep(p: Point, q: Point): nat {
    1
  }

  /** The search problem `a_star` solves on `grid`. */
  function GridProblem(grid: Grid, start: Point, goal: Point): (pb: Problem)
    requires Valid(grid)
    ensures pb.start == start && pb.goal == goal
    ensures forall u, v :: v in pb.succ(u) <==> Open(grid, u, v)
    ensures forall u, v :: pb.step(u, v) == 1
    ensures forall u :: pb.h(u) == Manhattan(u, goal)
  {
    Problem(p => Neighbors(grid, p), UnitStep, p => Manhattan(p, goal), start, goal)
  }

  /** The point stored at flat index `i` of a grid `w` cells wide. */
  function CellOf(w: nat, i: nat): Point
    requires w > 0
  {
    Point(i % w, i / w)
  }

  /** Every in-bounds point, as the image of the flat indices. */
  ghost function Cells(grid: Grid): set<Point> {
    if grid.width == 0 then {} else set i | 0 <= i < |grid.cells| :: CellOf(grid.width, i)
  }

  lemma CellsCard(grid: Grid)
    requires Valid(grid)
    ensures |Cells(grid)| <= |grid.cells|
  {
    if grid.width > 0 {
      var w := grid.width;
      var f := (i: nat) => CellOf(w, i);
      ImageCard(|grid.cells|, f);
      var image := set i | 0 <= i < |grid.cells| :: f(i);
      forall p | p in Cells(grid) ensures p in image {
        var i :| 0 <= i < |grid.cells| && CellOf(w, i) == p;
        assert f(i) == p;
      }
      SubsetCard(Cells(grid), image);
    }
  }

  /** `Cells` holds exactly the in-bounds points. */
  lemma CellsExact(grid: Grid, p: Point)
    requires Valid(grid)
    ensures p in Cells(grid) <==> InBounds(grid, p)
  {
    var w := grid.width;
    if InBounds(grid, p) {
      InBoundsInRange(grid, p);
      DivModUnique(p.y, p.x, w);
      assert CellOf(w, Flat(grid, p)) == p;
    }
    if p in Cells(grid) {
      var i :| 0 <= i < |grid.cells| && CellOf(w, i) == p;
      if p.y >= grid.height {
        MulLe(grid.height, p.y, w);
      }
    }
  }

  /** With unit moves the cost of a walk is its number of moves. */
  lemma {:induction false} UnitWalkCost(pb: Problem, p: seq<Point>)
    requires forall u, v :: pb.step(u, v) == 1
    ensures WalkCost(pb, p) == if |p| == 0 then 0 else |p| - 1
    decreases |p|
  {
    if |p| >= 2 {
      UnitWalkCost(pb, p[1..]);
    }
  }

  /** Grid walks and walks of the search problem are the same sequences. */
  lemma GridWalks(grid: Grid, start: Point, goal: Point, p: seq<Point>)
    requires Valid(grid)
    ensures WalkBetween(GridProblem(grid, start, goal), p, start, goal) <==> GridPath(grid, p, start, goal)
  {
  }

  /**
   * Under the size bounds, the grid problem satisfies everything the search
   * relies on, with the in-bounds points plus the start as universe.
   */
  lemma GridWellPosed(grid: Grid, start: Point, goal: Point)
    requires Valid(grid) && grid.width <= 0x4000_0000 && grid.height <= 0x4000_0000
    requires |grid.cells| < 0x8000_0000 && FitsI32(start) && FitsI32(goal)
    ensures WellPosed(GridProblem(grid, start, goal), Cells(grid) + {start}, 1)
  {
    var pb := GridProblem(grid, start, goal);
    var universe := Cells(grid) + {start};
    CellsCard(grid);
    MulIsProduct(|universe|, 1);
    forall u, v | u in universe && v in pb.succ(u) ensures v in universe {
      CellsExact(grid, v);
    }
    forall u, v | v in pb.succ(u) ensures pb.h(u) <= pb.step(u, v) + pb.h(v) {
      ManhattanConsistent(u, v, goal);
    }
    forall u | u in universe ensures Mul(|universe|, 1) + pb.h(u) < U32_LIMIT {
      CellsExact(grid, u);
      ManhattanFits(u, goal);
    }
    ManhattanMetric(goal, goal, goal);
  }

  /**
   * `a_star`: a shortest open path from `start` to `goal`, or `None` exactly
   * when the goal cannot be reached. A found path is never shorter than the
   * Manhattan distance between its ends.
   */
  method AStar(grid: Grid, start: Point, goal: Point) returns (r: Option<seq<Point>>)
    requires Valid(grid) && grid.width <= 0x4000_0000 && grid.height <= 0x4000_0000
    requires |grid.cells| < 0x8000_0000 && FitsI32(start) && FitsI32(goal)
    ensures r.Some? ==> GridPath(grid, r.value, start, goal)
    ensures r.Some? ==> forall p :: GridPath(grid, p, start, goal) ==> |r.value| <= |p|
    ensures r.Some? ==> Manhattan(start, goal) <= |r.value| - 1
    ensures r.None? <==> !exists p :: GridPath(grid, p, start, goal)
    ensures start == goal ==> r == Some([start])
  {
    var pb := GridProblem(grid, start, goal);
    GridWellPosed(grid, start, goal);
    r := BestFirstSearch(pb, Cells(grid) + {start}, 1);
    if r.Some? {
      GridWalks(grid, start, goal, r.value);
      UnitWalkCost(pb, r.value);
      forall p | GridPath(grid, p, start, goal) ensures |r.value| <= |p| {
        GridWalks(grid, start, goal, p);
        UnitWalkCost(pb, p);
      }
      assert UnitSteps(r.value);
      ManhattanAdmissible(r.value);
    } else {
      forall p | GridPath(grid, p, start, goal) ensures false {
        GridWalks(grid, start, goal, p);
      }
    }
  }
}
