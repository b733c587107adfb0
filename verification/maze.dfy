/**
 * `generate_maze` of `src/maze.rs`: a depth-first backtracker that carves
 * passages two cells at a time through a grid that starts fully blocked,
 * then opens an entrance and an exit. The random shuffle of the four moves
 * becomes a parameter that may order them any way at every turn.
 */
module Maze {
  import opened Arith
  import opened Wrappers
  import opened Grids
  import opened GridSearch

  /** The four carving moves, in the order the source lists them before shuffling. */
  datatype Dir = West | East | North | South

  function DX(d: Dir): int {
    match d
    case West => -2
    case East => 2
    case _ => 0
  }

  function DY(d: Dir): int {
    match d
    case North => -2
    case South => 2
    case _ => 0
  }

  /** Any order of the four moves: what `directions.shuffle(&mut rng)` may produce. */
  type Shuffled = s: seq<Dir> | |s| == 4 && West in s && East in s && North in s && South in s
    witness [West, East, North, South]

  /** The carving starts here. */
  const Start: Point := Point(1, 1)

  /** The opening cut into the left wall. */
  const Entrance: Point := Point(0, 1)

  /** The opening cut into the right wall. */
  function Exit(width: nat, height: nat): Point
    requires width >= 1 && height >= 2
  {
    Point(width - 1, height - 2)
  }

  /** Both coordinates odd: the cells the backtracker visits. */
  predicate Odd(p: Point) {
    p.x % 2 == 1 && p.y % 2 == 1
  }

  /** Strictly inside the outer wall: the only cells a carving move may land on. */
  predicate Interior(g: Grid, x: int, y: int) {
    0 < x < g.width - 1 && 0 < y < g.height - 1
  }

  /** The cell at an in-bounds point: `Grids.Index`, whose index is in range there. */
  function At(g: Grid, p: Point): Cell
    requires Valid(g) && InBounds(g, p)
  {
    InBoundsInRange(g, p);
    Index(g, p)
  }

  /** Where a move from `cur` lands. */
  function Target(cur: Point, d: Dir): Point
    requires cur.x + DX(d) >= 0 && cur.y + DY(d) >= 0
  {
    Point(cur.x + DX(d), cur.y + DY(d))
  }

  /** The wall cell a move from `cur` passes through: `current + d / 2`. */
  function Wall(cur: Point, d: Dir): Point
    requires cur.x + DX(d) >= 0 && cur.y + DY(d) >= 0
  {
    Point(cur.x + DX(d) / 2, cur.y + DY(d) / 2)
  }

  /** The move `d` from `cur` lands on an interior cell that is still blocked. */
  predicate Carvable(g: Grid, cur: Point, d: Dir)
    requires Valid(g)
  {
    Interior(g, cur.x + DX(d), cur.y + DY(d)) && At(g, Target(cur, d)) == Blocked
  }

  /**
   * The inner `for` loop with its `break`: the first move in `dirs` that
   * lands on a blocked interior cell, or none when no move does.
   */
  function Pick(g: Grid, cur: Point, dirs: seq<Dir>): (r: Option<Dir>)
    requires Valid(g)
    ensures r.Some? ==> exists k :: 0 <= k < |dirs| && dirs[k] == r.value &&
                          Carvable(g, cur, dirs[k]) && forall i :: 0 <= i < k ==> !Carvable(g, cur, dirs[i])
    ensures r.None? <==> forall d :: d in dirs ==> !Carvable(g, cur, d)
  {
    if |dirs| == 0 then None
    else if Carvable(g, cur, dirs[0]) then Some(dirs[0])
    else
      var r := Pick(g, cur, dirs[1..]);
      assert forall d :: d in dirs ==> d == dirs[0] || d in dirs[1..];
      if r.Some? then
        ghost var k :| 0 <= k < |dirs[1..]| && dirs[1..][k] == r.value &&
                       Carvable(g, cur, dirs[1..][k]) && forall i :: 0 <= i < k ==> !Carvable(g, cur, dirs[1..][i]);
        assert dirs[k + 1] == r.value && forall i :: 1 <= i < k + 1 ==> dirs[i] == dirs[1..][i - 1];
        r
      else r
  }

  /** A move that passes the checks of the inner loop lands inside the grid, with its wall cell. */
  lemma CarveInBounds(g: Grid, cur: Point, d: Dir)
    requires Valid(g) && Carvable(g, cur, d) && InBounds(g, cur)
    ensures InBounds(g, Target(cur, d)) && InBounds(g, Wall(cur, d))
    ensures Adjacent(cur, Wall(cur, d)) && Adjacent(Wall(cur, d), Target(cur, d))
    ensures Odd(cur) ==> Odd(Target(cur, d)) && !Odd(Wall(cur, d))
    ensures Interior(g, Wall(cur, d).x, Wall(cur, d).y) || !Interior(g, cur.x, cur.y)
  {
  }

  /** Some walk through open cells leads from `a` to `b`. */
  ghost predicate Connected(g: Grid, a: Point, b: Point)
    requires Valid(g)
  {
    exists p :: GridPath(g, p, a, b)
  }

  /** Every cell is `Blocked` or `Free`: carving writes nothing else. */
  ghost predicate TwoStates(g: Grid) {
    forall i :: 0 <= i < |g.cells| ==> g.cells[i] == Blocked || g.cells[i] == Free
  }

  /** `g2` differs from `g` only by cells that became `Free`. */
  ghost predicate Grows(g: Grid, g2: Grid) {
    && Valid(g) && Valid(g2) && g2.width == g.width && g2.height == g.height
    && forall p :: InBounds(g, p) && At(g2, p) != At(g, p) ==> At(g2, p) == Free
  }

  lemma SetGrows(g: Grid, p: Point)
    requires Valid(g) && InBounds(g, p)
    ensures InRange(g, p) && Grows(g, Set(g, p, Free))
  {
    InBoundsInRange(g, p);
    forall q | InBounds(g, q) ensures At(Set(g, p, Free), q) == if q == p then Free else At(g, q) {
      SetOnlyTouches(g, p, Free, q);
    }
  }

  lemma GrowsTrans(a: Grid, b: Grid, c: Grid)
    requires Grows(a, b) && Grows(b, c)
    ensures Grows(a, c)
  {
  }

  /** Freeing cells keeps every walk through open cells open. */
  lemma ConnectedGrows(g: Grid, g2: Grid, a: Point, b: Point)
    requires Grows(g, g2) && Connected(g, a, b)
    ensures Connected(g2, a, b)
  {
    var p :| GridPath(g, p, a, b);
    assert GridPath(g2, p, a, b);
  }

  /** A walk can be extended by one open step at its end. */
  lemma ConnectedExtend(g: Grid, a: Point, b: Point, c: Point)
    requires Valid(g) && Connected(g, a, b) && Open(g, b, c)
    ensures Connected(g, a, c)
  {
    var p :| GridPath(g, p, a, b);
    assert GridPath(g, p + [c], a, c);
  }

  /** A walk can be extended by one open step at its start. */
  lemma ConnectedPrepend(g: Grid, z: Point, a: Point, b: Point)
    requires Valid(g) && Connected(g, a, b) && Open(g, z, a)
    ensures Connected(g, z, b)
  {
    var p :| GridPath(g, p, a, b);
    assert GridPath(g, [z] + p, z, b);
  }

  /** A cell with no carvable move: what the backtracker knows of a cell it has popped. */
  ghost predicate Finished(g: Grid, p: Point)
    requires Valid(g)
  {
    forall d :: !Carvable(g, p, d)
  }

  lemma FinishedGrows(g: Grid, g2: Grid, p: Point)
    requires Grows(g, g2) && Finished(g, p)
    ensures Finished(g2, p)
  {
    forall d ensures !Carvable(g2, p, d) {
      if Carvable(g2, p, d) {
        assert Carvable(g, p, d);
      }
    }
  }

  /** The shape of the grid while carving: odd sides, at least three rows, and `(1, 1)` addressable. */
  ghost predicate Shape(g: Grid) {
    Valid(g) && g.width % 2 == 1 && g.height % 2 == 1 && g.height >= 3 && InRange(g, Start)
  }

  /** Every stacked cell is an odd, free cell (inside the wall, or the start itself). */
  ghost predicate OnStack(g: Grid, stack: seq<Point>)
    requires Valid(g)
  {
    forall i :: 0 <= i < |stack| ==>
      Odd(stack[i]) && InRange(g, stack[i]) && Index(g, stack[i]) == Free &&
      (stack[i] == Start || Interior(g, stack[i].x, stack[i].y))
  }

  /** Apart from the start's own cell, nothing outside the interior has been touched. */
  ghost predicate BorderBlocked(g: Grid)
    requires Valid(g)
  {
    forall p :: InBounds(g, p) && !Interior(g, p.x, p.y) && Flat(g, p) != Flat(g, Start) ==> At(g, p) == Blocked
  }

  /** Every free odd interior cell that has left the stack has no blocked neighbour left to carve to. */
  ghost predicate Explored(g: Grid, stack: seq<Point>)
    requires Valid(g)
  {
    forall p :: Odd(p) && Interior(g, p.x, p.y) && At(g, p) == Free && p !in stack ==> Finished(g, p)
  }

  /** Every free odd interior cell is joined to the start through open cells. */
  ghost predicate Linked(g: Grid)
    requires Valid(g)
  {
    forall p :: Odd(p) && Interior(g, p.x, p.y) && At(g, p) == Free ==> Connected(g, Start, p)
  }

  /** The invariant of the carving loop. */
  ghost predicate Carving(g: Grid, stack: seq<Point>) {
    && Shape(g) && TwoStates(g) && Index(g, Start) == Free
    && OnStack(g, stack) && BorderBlocked(g) && Explored(g, stack)
    && (g.width >= 3 ==> Linked(g))
  }

  /** Flat positions of the blocked cells: each carving turn removes at least one. */
  ghost function BlockedCells(g: Grid): set<nat> {
    set i | 0 <= i < |g.cells| && g.cells[i] == Blocked
  }

  /** The cells carving one move writes. */
  function Carve(g: Grid, cur: Point, d: Dir): Grid
    requires Valid(g) && InBounds(g, cur) && Carvable(g, cur, d)
  {
    CarveInBounds(g, cur, d);
    InBoundsInRange(g, Target(cur, d));
    var g1 := Set(g, Target(cur, d), Free);
    InBoundsInRange(g1, Wall(cur, d));
    Set(g1, Wall(cur, d), Free)
  }

  /** Carving frees the target and its wall and nothing else. */
  lemma CarveGrows(g: Grid, cur: Point, d: Dir)
    requires Valid(g) && InBounds(g, cur) && Carvable(g, cur, d)
    ensures Grows(g, Carve(g, cur, d))
    ensures At(Carve(g, cur, d), Target(cur, d)) == Free && At(Carve(g, cur, d), Wall(cur, d)) == Free
    ensures forall p :: InBounds(g, p) && p != Target(cur, d) && p != Wall(cur, d) ==> At(Carve(g, cur, d), p) == At(g, p)
    ensures BlockedCells(Carve(g, cur, d)) < BlockedCells(g)
    ensures TwoStates(g) ==> TwoStates(Carve(g, cur, d))
  {
    CarveInBounds(g, cur, d);
    InBoundsInRange(g, Target(cur, d));
    InBoundsInRange(g, Wall(cur, d));
    var t := Target(cur, d);
    var w := Wall(cur, d);
    SetGrows(g, t);
    var g1 := Set(g, t, Free);
    SetGrows(g1, w);
    var g2 := Set(g1, w, Free);
    GrowsTrans(g, g1, g2);
    forall p | InBounds(g, p) ensures At(g2, p) == if p == w || p == t then Free else At(g, p) {
      SetOnlyTouches(g, t, Free, p);
      SetOnlyTouches(g1, w, Free, p);
    }
    assert Flat(g, t) in BlockedCells(g) - BlockedCells(g2);
    assert g2.cells == g.cells[Flat(g, t) := Free][Flat(g, w) := Free];
  }

  /** A carving turn keeps the shape, the two cell states, the stack and the border. */
  lemma CarveBasics(g: Grid, stack: seq<Point>, d: Dir)
    requires Carving(g, stack) && |stack| > 0
    requires InBounds(g, stack[|stack| - 1]) && Carvable(g, stack[|stack| - 1], d)
    ensures var cur := stack[|stack| - 1];
            var g2 := Carve(g, cur, d);
            Shape(g2) && TwoStates(g2) && Index(g2, Start) == Free &&
            OnStack(g2, stack + [Target(cur, d)]) && BorderBlocked(g2)
  {
    var cur := stack[|stack| - 1];
    var g2 := Carve(g, cur, d);
    CarveGrows(g, cur, d);
    CarveInBounds(g, cur, d);
    var t := Target(cur, d);
    forall i | 0 <= i < |stack| + 1
      ensures Odd((stack + [t])[i]) && InRange(g2, (stack + [t])[i]) && Index(g2, (stack + [t])[i]) == Free
    {
      if i < |stack| {
        InBoundsInRange(g2, stack[i]);
      } else {
        InBoundsInRange(g2, t);
      }
    }
  }

  /** A carving turn keeps every popped cell finished. */
  lemma CarveExplored(g: Grid, stack: seq<Point>, d: Dir)
    requires Carving(g, stack) && |stack| > 0
    requires InBounds(g, stack[|stack| - 1]) && Carvable(g, stack[|stack| - 1], d)
    ensures var cur := stack[|stack| - 1];
            Explored(Carve(g, cur, d), stack + [Target(cur, d)])
  {
    var cur := stack[|stack| - 1];
    var g2 := Carve(g, cur, d);
    var t := Target(cur, d);
    CarveGrows(g, cur, d);
    CarveInBounds(g, cur, d);
    forall p | Odd(p) && Interior(g2, p.x, p.y) && At(g2, p) == Free && p !in stack + [t]
      ensures Finished(g2, p)
    {
      assert p != Wall(cur, d);
      FinishedGrows(g, g2, p);
    }
  }

  /** A carving turn joins the new cell to the start through the current cell and the wall between. */
  lemma CarveLinked(g: Grid, stack: seq<Point>, d: Dir)
    requires Carving(g, stack) && |stack| > 0 && g.width >= 3
    requires InBounds(g, stack[|stack| - 1]) && Carvable(g, stack[|stack| - 1], d)
    ensures Linked(Carve(g, stack[|stack| - 1], d))
  {
    var cur := stack[|stack| - 1];
    var g2 := Carve(g, cur, d);
    var t := Target(cur, d);
    var w := Wall(cur, d);
    CarveGrows(g, cur, d);
    CarveInBounds(g, cur, d);
    assert Odd(cur) && Interior(g, cur.x, cur.y) && At(g, cur) == Free;
    ConnectedGrows(g, g2, Start, cur);
    ConnectedExtend(g2, Start, cur, w);
    ConnectedExtend(g2, Start, w, t);
    forall p | Odd(p) && Interior(g2, p.x, p.y) && At(g2, p) == Free ensures Connected(g2, Start, p) {
      if p != t {
        ConnectedGrows(g, g2, Start, p);
      }
    }
  }

  /** A carving turn keeps the loop invariant and removes a blocked cell. */
  lemma CarveStep(g: Grid, stack: seq<Point>, d: Dir)
    requires Carving(g, stack) && |stack| > 0
    requires InBounds(g, stack[|stack| - 1]) && Carvable(g, stack[|stack| - 1], d)
    ensures var cur := stack[|stack| - 1];
            Carving(Carve(g, cur, d), stack + [Target(cur, d)]) &&
            BlockedCells(Carve(g, cur, d)) < BlockedCells(g)
  {
    CarveBasics(g, stack, d);
    CarveExplored(g, stack, d);
    if g.width >= 3 {
      CarveLinked(g, stack, d);
    }
    CarveGrows(g, stack[|stack| - 1], d);
  }

  /** Backtracking from a cell with no carvable move keeps the loop invariant. */
  lemma PopStep(g: Grid, stack: seq<Point>)
    requires Carving(g, stack) && |stack| > 0
    requires InBounds(g, stack[|stack| - 1]) ==> Finished(g, stack[|stack| - 1])
    ensures Carving(g, stack[..|stack| - 1])
  {
    var rest := stack[..|stack| - 1];
    forall p | Odd(p) && Interior(g, p.x, p.y) && At(g, p) == Free && p !in rest
      ensures Finished(g, p)
    {
    }
  }

  /** When nothing is left on the stack every odd interior cell is free: each is reached from a freed neighbour. */
  lemma {:induction false} AllOddFree(g: Grid, x: nat, y: nat)
    requires Valid(g) && TwoStates(g) && Explored(g, [])
    requires InBounds(g, Start) && At(g, Start) == Free
    requires Odd(Point(x, y)) && Interior(g, x, y)
    ensures At(g, Point(x, y)) == Free
    decreases x + y
  {
    var p := Point(x, y);
    InBoundsInRange(g, p);
    if x > 1 {
      var q := Point(x - 2, y);
      AllOddFree(g, q.x, q.y);
      assert Finished(g, q);
      assert !Carvable(g, q, East);
      assert Target(q, East) == p;
    } else if y > 1 {
      var q := Point(x, y - 2);
      AllOddFree(g, q.x, q.y);
      assert Finished(g, q);
      assert !Carvable(g, q, South);
      assert Target(q, South) == p;
    } else {
      assert p == Start;
    }
  }

  /** `(1, 1)` is addressable exactly when there are at least two rows (for odd sides). */
  lemma StartInRange(g: Grid)
    requires Valid(g) && g.width % 2 == 1 && g.height % 2 == 1
    ensures InRange(g, Start) <==> g.height >= 3
  {
    if g.height >= 3 {
      MulLe(3, g.height, g.width);
    }
  }

  /** Right after `(1, 1)` is freed the loop invariant holds, with the start alone on the stack. */
  lemma CarvingStart(width: nat, height: nat)
    requires width % 2 == 1 && height % 2 == 1 && height >= 3
    ensures InRange(New(width, height, Blocked), Start)
    ensures Carving(Set(New(width, height, Blocked), Start, Free), [Start])
  {
    var g0 := New(width, height, Blocked);
    StartInRange(g0);
    var g := Set(g0, Start, Free);
    assert g.cells == g0.cells[Flat(g0, Start) := Free];
    forall p | InBounds(g, p) && Flat(g, p) != Flat(g, Start) ensures At(g, p) == Blocked {
      InBoundsInRange(g0, p);
    }
    forall p | Odd(p) && Interior(g, p.x, p.y) && At(g, p) == Free ensures p == Start {
      InBoundsInRange(g0, p);
      if p != Start {
        FlatInjective(g, p, Start);
      }
    }
    if width >= 3 {
      assert GridPath(g, [Start], Start, Start);
    }
  }

  /** Opening the entrance and the exit. */
  function Openings(g: Grid): (r: Grid)
    requires Shape(g)
    ensures Grows(g, r) && At(r, Entrance) == Free && At(r, Exit(g.width, g.height)) == Free
    ensures forall p :: InBounds(g, p) && p != Entrance && p != Exit(g.width, g.height) ==> At(r, p) == At(g, p)
  {
    SetGrows(g, Entrance);
    var g1 := Set(g, Entrance, Free);
    SetGrows(g1, Exit(g.width, g.height));
    var r := Set(g1, Exit(g.width, g.height), Free);
    GrowsTrans(g, g1, r);
    assert forall p :: InBounds(g, p) ==> At(r, p) == if p == Exit(g.width, g.height) then Free else At(g1, p) by {
      forall p | InBounds(g, p) ensures At(r, p) == if p == Exit(g.width, g.height) then Free else At(g1, p) {
        SetOnlyTouches(g1, Exit(g.width, g.height), Free, p);
      }
    }
    assert forall p :: InBounds(g, p) ==> At(g1, p) == if p == Entrance then Free else At(g, p) by {
      forall p | InBounds(g, p) ensures At(g1, p) == if p == Entrance then Free else At(g, p) {
        SetOnlyTouches(g, Entrance, Free, p);
      }
    }
    r
  }

  /** With three or more columns, the finished maze joins the entrance to the exit. */
  lemma EntranceToExit(g: Grid)
    requires Carving(g, []) && g.width >= 3
    ensures Connected(Openings(g), Entrance, Exit(g.width, g.height))
  {
    var r := Openings(g);
    var last := Point(g.width - 2, g.height - 2);
    AllOddFree(g, last.x, last.y);
    assert Connected(g, Start, last);
    ConnectedGrows(g, r, Start, last);
    ConnectedExtend(r, Start, last, Exit(g.width, g.height));
    AllOddFree(g, 1, 1);
    ConnectedPrepend(r, Entrance, Start, Exit(g.width, g.height));
  }

  /** With three or more columns, every odd interior cell of the finished maze is reachable from the entrance. */
  lemma EntranceReachesAll(g: Grid)
    requires Carving(g, []) && g.width >= 3
    ensures forall p :: Odd(p) && Interior(Openings(g), p.x, p.y) ==> Connected(Openings(g), Entrance, p)
  {
    var r := Openings(g);
    AllOddFree(g, 1, 1);
    forall p | Odd(p) && Interior(r, p.x, p.y) ensures Connected(r, Entrance, p) {
      AllOddFree(g, p.x, p.y);
      assert Connected(g, Start, p);
      ConnectedGrows(g, r, Start, p);
      ConnectedPrepend(r, Entrance, Start, p);
    }
  }

  /** What the finished maze promises once the openings are cut. */
  lemma FinishedMaze(g: Grid)
    requires Carving(g, [])
    ensures var r := Openings(g);
            && Valid(r) && r.width == g.width && r.height == g.height
            && InRange(r, Start) && Index(r, Start) == Free
            && At(r, Entrance) == Free && At(r, Exit(g.width, g.height)) == Free
            && (forall p :: InBounds(r, p) && !Interior(r, p.x, p.y) &&
                              p != Entrance && p != Exit(g.width, g.height) && Flat(r, p) != Flat(r, Start) ==>
                              At(r, p) == Blocked)
            && (g.width >= 3 ==> forall p :: Odd(p) && Interior(r, p.x, p.y) ==> At(r, p) == Free)
            && (g.width >= 3 ==> Connected(r, Entrance, Exit(g.width, g.height)))
            && (g.width >= 3 ==> forall p :: Odd(p) && Interior(r, p.x, p.y) ==> Connected(r, Entrance, p))
  {
    var r := Openings(g);
    assert Index(r, Start) == Free by {
      if g.width >= 3 {
        assert InBounds(g, Start);
      } else {
        assert r.cells[Flat(r, Start)] == g.cells[Flat(g, Start)];
      }
    }
    if g.width >= 3 {
      EntranceToExit(g);
      EntranceReachesAll(g);
      forall p | Odd(p) && Interior(r, p.x, p.y) ensures At(r, p) == Free {
        AllOddFree(g, p.x, p.y);
      }
    }
  }

  /** The `while let Some(current) = stack.last()` loop: carve or backtrack until the stack is empty. */
  method CarveAll(g0: Grid, stack0: seq<Point>, shuffle: nat -> Shuffled) returns (g: Grid)
    requires Carving(g0, stack0)
    ensures Carving(g, []) && g.width == g0.width && g.height == g0.height
  {
    g := g0;
    var stack := stack0;
    var turn := 0;
    while |stack| > 0
      invariant g.width == g0.width && g.height == g0.height
      invariant Carving(g, stack)
      decreases BlockedCells(g), |stack|
    {
      var current := stack[|stack| - 1];
      var dirs := shuffle(turn);
      turn := turn + 1;
      match Pick(g, current, dirs)
      case Some(d) =>
        CarveStep(g, stack, d);
        g := Carve(g, current, d);
        stack := stack + [Target(current, d)];
      case None =>
        PopStep(g, stack);
        stack := stack[..|stack| - 1];
    }
  }

  /**
   * `generate_maze(width, height)` with the shuffle of turn `k` given by
   * `shuffle(k)`. `None` stands for the panics: the `assert!` on even
   * sides, and the out-of-bounds write of `(1, 1)` on a one-row grid.
   */
  method GenerateMaze(width: nat, height: nat, shuffle: nat -> Shuffled) returns (r: Option<Grid>)
    ensures r.None? <==> width % 2 == 0 || height % 2 == 0 || height == 1
    ensures r.Some? ==> Valid(r.value) && r.value.width == width && r.value.height == height
    ensures r.Some? ==> InRange(r.value, Start) && Index(r.value, Start) == Free
    ensures r.Some? ==> At(r.value, Entrance) == Free && At(r.value, Exit(width, height)) == Free
    ensures r.Some? ==> forall p :: InBounds(r.value, p) && !Interior(r.value, p.x, p.y) &&
                                    p != Entrance && p != Exit(width, height) && Flat(r.value, p) != Flat(r.value, Start) ==>
                                    At(r.value, p) == Blocked
    ensures r.Some? && width >= 3 ==> forall p :: Odd(p) && Interior(r.value, p.x, p.y) ==> At(r.value, p) == Free
    ensures r.Some? && width >= 3 ==> Connected(r.value, Entrance, Exit(width, height))
    ensures r.Some? && width >= 3 ==> forall p :: Odd(p) && Interior(r.value, p.x, p.y) ==> Connected(r.value, Entrance, p)
  {
    if width % 2 == 0 || height % 2 == 0 {
      return None;
    }
    var grid := New(width, height, Blocked);
    StartInRange(grid);
    if !InRange(grid, Start) {
      return None;
    }
    CarvingStart(width, height);
    grid := Set(grid, Start, Free);
    grid := CarveAll(grid, [Start], shuffle);
    FinishedMaze(grid);
    return Some(Openings(grid));
  }

  /**
   * A one-column maze keeps only the entrance, the exit and the flat cell
   * that the `(1, 1)` write lands on (flat index 2, the point `(0, 2)`) open.
   * At height 7 the cells `(0, 3)` and `(0, 4)` between them stay walls.
   */
  lemma WidthOneSplits(r: Grid)
    requires Valid(r) && r.width == 1 && r.height == 7
    requires forall p :: InBounds(r, p) && !Interior(r, p.x, p.y) &&
                         p != Entrance && p != Exit(1, 7) && Flat(r, p) != Flat(r, Start) ==>
                         At(r, p) == Blocked
    ensures !Connected(r, Entrance, Exit(1, 7))
  {
    if p :| GridPath(r, p, Entrance, Exit(1, 7)) {
      StaysAbove(r, p, |p| - 1);
    }
  }

  /** Every point of a walk from the entrance of that grid stays in rows 0 to 2. */
  lemma {:induction false} StaysAbove(r: Grid, p: seq<Point>, i: nat)
    requires Valid(r) && r.width == 1 && r.height == 7
    requires forall q :: InBounds(r, q) && !Interior(r, q.x, q.y) &&
                         q != Entrance && q != Exit(1, 7) && Flat(r, q) != Flat(r, Start) ==>
                         At(r, q) == Blocked
    requires GridPath(r, p, Entrance, Exit(1, 7)) && i < |p|
    ensures p[i].x == 0 && p[i].y <= 2
  {
    if i > 0 {
      StaysAbove(r, p, i - 1);
      assert Open(r, p[i - 1], p[i]);
    }
  }

  /**
   * `generate_maze(1, 7)` as written: it does not panic, yet its result has
   * no path from the entrance to the exit that the doc comment promises.
   */
  method WidthOneMaze(shuffle: nat -> Shuffled) returns (r: Option<Grid>)
    ensures r.Some? && Valid(r.value) && !Connected(r.value, Entrance, Exit(1, 7))
  {
    r := GenerateMaze(1, 7, shuffle);
    WidthOneSplits(r.value);
  }

  /**
   * `generate_maze` with the evidently intended guard: a single column is
   * rejected like an even side, and every maze it returns joins the
   * entrance to the exit.
   */
  method GenerateMazeGuarded(width: nat, height: nat, shuffle: nat -> Shuffled) returns (r: Option<Grid>)
    ensures r.None? <==> width % 2 == 0 || height % 2 == 0 || width == 1 || height == 1
    ensures r.Some? ==> Valid(r.value) && r.value.width == width && r.value.height == height
    ensures r.Some? ==> Connected(r.value, Entrance, Exit(width, height))
    ensures r.Some? ==> forall p :: Odd(p) && Interior(r.value, p.x, p.y) ==> At(r.value, p) == Free
    ensures r.Some? ==> forall p :: Odd(p) && Interior(r.value, p.x, p.y) ==> Connected(r.value, Entrance, p)
  {
    if width == 1 {
      return None;
    }
    r := GenerateMaze(width, height, shuffle);
  }
}
