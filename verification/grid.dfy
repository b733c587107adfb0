/**
 * The 2-D grid of `src/grid.rs`: points, cell states, a row-major cell
 * vector with `Index`/`IndexMut`, and the wall-aware 4-neighbourhood.
 */
module Grids {
  import opened Arith

  /** A grid coordinate; the source's `usize` components become `nat`. */
  datatype Point = Point(x: nat, y: nat)

  datatype Cell = Blocked | Free | Path

  /** `cells` is row-major: the cell at (x, y) is stored at `y * width + x`. */
  datatype Grid = Grid(width: nat, height: nat, cells: seq<Cell>)

  /** The shape every constructed grid has. */
  predicate Valid(g: Grid) {
    |g.cells| == g.width * g.height
  }

  predicate InBounds(g: Grid, p: Point) {
    p.x < g.width && p.y < g.height
  }

  /** Position of `p` in the flat cell vector. */
  function Flat(g: Grid, p: Point): nat {
    p.y * g.width + p.x
  }

  /** Two points are one unit move apart (Manhattan distance exactly 1). */
  predicate Adjacent(p: Point, q: Point) {
    (q.y == p.y && (q.x + 1 == p.x || p.x + 1 == q.x)) ||
    (q.x == p.x && (q.y + 1 == p.y || p.y + 1 == q.y))
  }

  /** `Grid::new`: `width * height` copies of `c`. */
  function New(width: nat, height: nat, c: Cell): (g: Grid)
    ensures Valid(g) && g.width == width && g.height == height
    ensures forall p :: InBounds(g, p) ==> InRange(g, p) && Index(g, p) == c
  {
    var g := Grid(width, height, seq(width * height, _ => c));
    assert forall p :: InBounds(g, p) ==> InRange(g, p) by {
      forall p | InBounds(g, p) ensures InRange(g, p) {
        InBoundsInRange(g, p);
      }
    }
    g
  }

  /** The flat position of `p` addresses a cell (what Rust's slice indexing checks). */
  predicate InRange(g: Grid, p: Point) {
    Flat(g, p) < |g.cells|
  }

  /** `Index<Point>`: panics exactly when the flat position is past the cell vector. */
  function Index(g: Grid, p: Point): Cell
    requires InRange(g, p)
  {
    g.cells[Flat(g, p)]
  }

  /** `IndexMut<Point>` followed by an assignment. */
  function Set(g: Grid, p: Point, c: Cell): (r: Grid)
    requires InRange(g, p)
    ensures r.width == g.width && r.height == g.height && |r.cells| == |g.cells|
    ensures Valid(g) ==> Valid(r)
    ensures Index(r, p) == c
    ensures forall q :: InRange(g, q) && Flat(g, q) != Flat(g, p) ==> Index(r, q) == Index(g, q)
  {
    g.(cells := g.cells[Flat(g, p) := c])
  }

  /** An in-bounds point addresses a cell of a valid grid. */
  lemma InBoundsInRange(g: Grid, p: Point)
    requires Valid(g) && InBounds(g, p)
    ensures InRange(g, p)
  {
    MulMono(p.y, g.height, g.width);
  }

  /** Distinct in-bounds points occupy distinct cells, so `Set` at one leaves the other alone. */
  lemma FlatInjective(g: Grid, p: Point, q: Point)
    requires p.x < g.width && q.x < g.width && p != q
    ensures Flat(g, p) != Flat(g, q)
  {
    if p.y < q.y {
      MulMono(p.y, q.y, g.width);
    } else if q.y < p.y {
      MulMono(q.y, p.y, g.width);
    }
  }

  /** Writing one in-bounds point changes exactly that point of the grid. */
  lemma SetOnlyTouches(g: Grid, p: Point, c: Cell, q: Point)
    requires Valid(g) && InBounds(g, p) && InBounds(g, q)
    ensures InRange(g, p) && InRange(Set(g, p, c), q)
    ensures Index(Set(g, p, c), q) == if q == p then c else Index(g, q)
  {
    InBoundsInRange(g, p);
    InBoundsInRange(g, q);
    if q != p {
      FlatInjective(g, p, q);
    }
  }

  /** The neighbour offered by one offset, if it is inside the grid and not a wall. */
  function Candidate(g: Grid, p: Point, dx: int, dy: int): seq<Point>
    requires Valid(g)
  {
    var nx := p.x + dx;
    var ny := p.y + dy;
    if 0 <= nx < g.width && 0 <= ny < g.height then
      var q := Point(nx, ny);
      InBoundsInRange(g, q);
      if Index(g, q) != Blocked then [q] else []
    else []
  }

  /** Rank of the offset leading from `p` to `q` in the order left, right, up, down. */
  function DirRank(p: Point, q: Point): nat {
    if q.x + 1 == p.x then 0 else if p.x + 1 == q.x then 1 else if q.y + 1 == p.y then 2 else 3
  }

  /** Free-or-path cell one unit away from `p`: what `neighbors` must yield. */
  predicate Open(g: Grid, p: Point, q: Point)
    requires Valid(g)
  {
    InBounds(g, q) && Adjacent(p, q) &&
    (InBoundsInRange(g, q); Index(g, q) != Blocked)
  }

  /**
   * `Grid::neighbors`: the in-bounds, non-`Blocked` points one unit away,
   * yielded in the order left, right, up, down.
   */
  function Neighbors(g: Grid, p: Point): (r: seq<Point>)
    requires Valid(g)
    ensures |r| <= 4
    ensures forall q :: q in r <==> Open(g, p, q)
    ensures forall i, j :: 0 <= i < j < |r| ==> DirRank(p, r[i]) < DirRank(p, r[j])
  {
    Candidate(g, p, -1, 0) + Candidate(g, p, 1, 0) + Candidate(g, p, 0, -1) + Candidate(g, p, 0, 1)
  }
}
