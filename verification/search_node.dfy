/**
 * The heap entry, its reversed ordering and the Manhattan heuristic of
 * `src/pathfinding.rs`, shared by both A* searches.
 */
module SearchNode {
  import opened Grids

  /** Rust's `u32`. */
  type U32 = x: nat | x < 0x1_0000_0000

  /** A frontier entry: point, g-cost (cost so far) and h-cost (heuristic). */
  datatype Node = Node(point: Point, cost: U32, heuristic: U32)

  datatype Ordering = Less | Equal | Greater

  /** The priority the heap ranks by: g + h. */
  function Key(n: Node): nat {
    n.cost + n.heuristic
  }

  function CompareNat(a: nat, b: nat): Ordering {
    if a < b then Less else if a == b then Equal else Greater
  }

  /** `Ord for Node`: the comparison of `g + h` with the operands swapped. */
  function Cmp(a: Node, b: Node): Ordering {
    CompareNat(b.cost + b.heuristic, a.cost + a.heuristic)
  }

  /** A node ranks above another in the max-heap exactly when its g + h is smaller. */
  lemma CmpReversesKey(a: Node, b: Node)
    ensures Cmp(a, b) == Greater <==> Key(a) < Key(b)
    ensures Cmp(a, b) == Less <==> Key(b) < Key(a)
    ensures Cmp(a, b) == Equal <==> Key(a) == Key(b)
  {
  }

  /** The node a max-heap pops (nothing ranks above it) has the smallest g + h. */
  lemma HeapTopHasLeastKey(top: Node, frontier: seq<Node>)
    requires forall m :: m in frontier ==> Cmp(top, m) != Less
    ensures forall m :: m in frontier ==> Key(top) <= Key(m)
  {
  }

  function AbsDiff(a: nat, b: nat): nat {
    if a >= b then a - b else b - a
  }

  /** `manhattan_distance`: |ax - bx| + |ay - by|. */
  function Manhattan(a: Point, b: Point): nat {
    AbsDiff(a.x, b.x) + AbsDiff(a.y, b.y)
  }

  /** Coordinates for which the source's `as i32` casts, subtraction, `abs` and sum are exact. */
  predicate FitsI32(p: Point) {
    p.x < 0x4000_0000 && p.y < 0x4000_0000
  }

  /** Manhattan distance is a metric: symmetric, zero exactly on equal points, triangle inequality. */
  lemma ManhattanMetric(a: Point, b: Point, c: Point)
    ensures Manhattan(a, b) == Manhattan(b, a)
    ensures Manhattan(a, b) == 0 <==> a == b
    ensures Manhattan(a, c) <= Manhattan(a, b) + Manhattan(b, c)
  {
  }

  /** For points whose coordinates fit, the distance itself fits the `u32` result. */
  lemma ManhattanFits(a: Point, b: Point)
    requires FitsI32(a) && FitsI32(b)
    ensures Manhattan(a, b) < 0x8000_0000
  {
  }

  /** Across one unit move the distance to any goal changes by at most one. */
  lemma ManhattanConsistent(u: Point, v: Point, goal: Point)
    requires Adjacent(u, v)
    ensures Manhattan(u, goal) <= 1 + Manhattan(v, goal)
    ensures Manhattan(v, goal) <= 1 + Manhattan(u, goal)
  {
  }

  /** Every step of `p` is a unit move. */
  predicate UnitSteps(p: seq<Point>) {
    forall i :: 0 <= i < |p| - 1 ==> Adjacent(p[i], p[i + 1])
  }

  /**
   * Admissibility for unit step cost: the distance between the ends of a
   * walk made of unit moves never exceeds its number of moves.
   */
  lemma {:induction false} ManhattanAdmissible(p: seq<Point>)
    requires |p| > 0 && UnitSteps(p)
    ensures Manhattan(p[0], p[|p| - 1]) <= |p| - 1
  {
    if |p| > 1 {
      var q := p[1..];
      assert UnitSteps(q) by {
        forall i | 0 <= i < |q| - 1 ensures Adjacent(q[i], q[i + 1]) {
          assert q[i] == p[i + 1] && q[i + 1] == p[i + 2];
        }
      }
      ManhattanAdmissible(q);
      assert Adjacent(p[0], p[1]);
      ManhattanConsistent(p[0], p[1], p[|p| - 1]);
    }
  }
}
