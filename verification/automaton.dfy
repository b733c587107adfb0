/**
 * The cellular automata of `src/automaton.rs`: a ring of `u64` cells
 * (`CellularAutomaton`) and a torus of them (`Moma2dAutomaton`). Both update
 * every cell synchronously from the old state. The update rule
 * `MomaRing::residue` belongs to a library outside the repository, so it is a
 * parameter here: any function from (centre value, context) to a `u64`.
 */
module Automaton {
  import opened Arith

  /** `MomaRing::residue(value, context)`, left uninterpreted. */
  type Rule = (U64, U64) -> U64

  /** `u64::wrapping_add`: the sum reduced modulo 2^64. */
  function WrappingAdd(a: U64, b: U64): (r: U64)
    ensures a + b <= U64_MAX ==> r == a + b
    ensures a + b > U64_MAX ==> r == a + b - (U64_MAX + 1)
  {
    (a + b) % (U64_MAX + 1)
  }

  // ---------------------------------------------------------------- ring

  /** A one-dimensional automaton; `new` makes `width` the length of `state`. */
  datatype Ring = Ring(state: seq<U64>, width: nat)

  predicate RingValid(ca: Ring) {
    ca.width == |ca.state|
  }

  /** The index of the left neighbour of cell `i` on a ring of `n` cells. */
  function Left(i: nat, n: nat): (j: nat)
    requires i < n
    ensures j < n
  {
    (i + n - 1) % n
  }

  /** The index of the right neighbour of cell `i` on a ring of `n` cells. */
  function Right(i: nat, n: nat): (j: nat)
    requires i < n
    ensures j < n
  {
    (i + 1) % n
  }

  /** The value cell `i` takes after one step of the ring. */
  function RingCell(s: seq<U64>, residue: Rule, i: nat): U64
    requires i < |s|
  {
    residue(s[i], WrappingAdd(s[Left(i, |s|)], s[Right(i, |s|)]))
  }

  /** The whole ring after one step, as a reference for the loop in `StepRing`. */
  function RingNext(s: seq<U64>, residue: Rule): seq<U64> {
    seq(|s|, i requires 0 <= i < |s| => RingCell(s, residue, i))
  }

  /**
   * `CellularAutomaton::step`: each cell becomes the rule applied to its old
   * value and the wrapped sum of its two old neighbours. All reads are from
   * the old state, so the cells are updated as if simultaneously.
   */
  method StepRing(ca: Ring, residue: Rule) returns (next: Ring)
    requires RingValid(ca)
    ensures RingValid(next) && next.width == ca.width
    ensures forall i :: 0 <= i < |ca.state| ==>
      next.state[i] == residue(ca.state[i], WrappingAdd(ca.state[Left(i, ca.width)], ca.state[Right(i, ca.width)]))
    ensures next.state == RingNext(ca.state, residue)
  {
    var nextState := ca.state;
    for i := 0 to ca.width
      invariant |nextState| == |ca.state|
      invariant forall j :: 0 <= j < i ==> nextState[j] == RingCell(ca.state, residue, j)
    {
      var left := ca.state[(i + ca.width - 1) % ca.width];
      var center := ca.state[i];
      var right := ca.state[(i + 1) % ca.width];
      var context := WrappingAdd(left, right);
      nextState := nextState[i := residue(center, context)];
    }
    next := ca.(state := nextState);
  }

  /** The ring read from position `k` onwards, wrapping round. */
  function Rotate(s: seq<U64>, k: nat): (r: seq<U64>)
    ensures |r| == |s|
  {
    seq(|s|, i requires 0 <= i < |s| => s[(i + k) % |s|])
  }

  /**
   * The ring has no distinguished position: stepping a rotated ring gives
   * the rotation of the stepped ring.
   */
  lemma RotateStepRing(s: seq<U64>, residue: Rule, k: nat)
    ensures RingNext(Rotate(s, k), residue) == Rotate(RingNext(s, residue), k)
  {
    forall i | 0 <= i < |s|
      ensures RingCell(Rotate(s, k), residue, i) == RingCell(s, residue, (i + k) % |s|)
    {
      RotateCell(s, residue, k, i);
    }
  }

  lemma RotateCell(s: seq<U64>, residue: Rule, k: nat, i: nat)
    requires i < |s|
    ensures RingCell(Rotate(s, k), residue, i) == RingCell(s, residue, (i + k) % |s|)
  {
    var n := |s|;
    var r := Rotate(s, k);
    RotateLeft(i, k, n);
    assert r[Left(i, n)] == s[(Left(i, n) + k) % n];
    RotateRight(i, k, n);
    assert r[Right(i, n)] == s[(Right(i, n) + k) % n];
  }

  /** The left neighbour of a rotated position is the rotated left neighbour. */
  lemma RotateLeft(i: nat, k: nat, n: nat)
    requires i < n
    ensures (Left(i, n) + k) % n == Left((i + k) % n, n)
  {
    var j := (i + k) % n;
    ModAddLeft(i + n - 1, k, n);
    assert (Left(i, n) + k) % n == (i + k + n - 1) % n;
    ModAddLeft(i + k, n - 1, n);
    assert (j + (n - 1)) % n == (i + k + n - 1) % n;
  }

  /** The right neighbour of a rotated position is the rotated right neighbour. */
  lemma RotateRight(i: nat, k: nat, n: nat)
    requires i < n
    ensures (Right(i, n) + k) % n == Right((i + k) % n, n)
  {
    ModAddLeft(i + 1, k, n);
    assert (Right(i, n) + k) % n == (i + k + 1) % n;
    ModAddLeft(i + k, 1, n);
  }

  /** The ten display symbols of `render`, indexed by the value modulo 10. */
  const Symbols: string := " .:-=+*#%@"

  /** The symbol `render` matches a cell value to. */
  function Glyph(v: U64): char {
    match v % 10
    case 0 => ' '
    case 1 => '.'
    case 2 => ':'
    case 3 => '-'
    case 4 => '='
    case 5 => '+'
    case 6 => '*'
    case 7 => '#'
    case 8 => '%'
    case _ => '@'
  }

  /** `CellularAutomaton::render`: one symbol per cell, chosen by the value modulo 10. */
  function Render(s: seq<U64>): (r: string)
    ensures |r| == |s|
    ensures forall i :: 0 <= i < |s| ==> r[i] == Symbols[s[i] % 10]
  {
    seq(|s|, i requires 0 <= i < |s| => Glyph(s[i]))
  }

  /** The ten symbols are distinct, so a rendering shows every cell's value modulo 10. */
  lemma RenderShowsDigits(a: seq<U64>, b: seq<U64>)
    ensures Render(a) == Render(b) <==>
      |a| == |b| && forall i :: 0 <= i < |a| ==> a[i] % 10 == b[i] % 10
  {
    if Render(a) == Render(b) {
      forall i | 0 <= i < |a|
        ensures a[i] % 10 == b[i] % 10
      {
        assert Symbols[a[i] % 10] == Symbols[b[i] % 10];
      }
    }
  }

  // --------------------------------------------------------------- torus

  /** A two-dimensional automaton, its cells stored row by row. */
  datatype Torus = Torus(state: seq<U64>, width: nat, height: nat)

  /**
   * `new` gives the torus `width * height` cells, the product written as
   * `Arith.Mul`, which equals `*` (`Arith.MulIsProduct`).
   */
  predicate TorusValid(t: Torus) {
    |t.state| == Mul(t.height, t.width)
  }

  /**
   * The row-major index `y * w + x` of column `x`, row `y`: the layout of
   * `Grids.Flat`, restated for the torus's bare width with the product as
   * `Arith.Mul`, so that the torus proofs never meet a nonlinear `*`
   * (`FlatIsRowMajor` ties the two forms together).
   */
  function Flat(w: nat, x: nat, y: nat): nat {
    Mul(y, w) + x
  }

  lemma FlatIsRowMajor(w: nat, x: nat, y: nat)
    ensures Flat(w, x, y) == y * w + x
  {
    MulIsProduct(y, w);
  }

  lemma FlatInRange(w: nat, h: nat, x: nat, y: nat)
    requires x < w && y < h
    ensures Flat(w, x, y) < Mul(h, w)
  {
    MulMonotone(y + 1, h, w);
  }

  /** Distinct cells have distinct row-major indices. */
  lemma FlatUnique(w: nat, x: nat, y: nat, x': nat, y': nat)
    requires x < w && x' < w && Flat(w, x, y) == Flat(w, x', y')
    ensures x == x' && y == y'
  {
    if y < y' {
      MulMonotone(y + 1, y', w);
    } else if y' < y {
      MulMonotone(y' + 1, y, w);
    }
  }

  /** The coordinate one step `d` away from `x` on a circle of `n`, as `(x + d + n) % n`. */
  function Wrap(x: nat, d: int, n: nat): (r: nat)
    requires x < n && -1 <= d <= 1
    ensures r < n
  {
    (x + d + n) % n
  }

  /** The cell at column `x`, row `y`. */
  function At(t: Torus, x: nat, y: nat): U64
    requires TorusValid(t) && x < t.width && y < t.height
  {
    FlatInRange(t.width, t.height, x, y);
    t.state[Flat(t.width, x, y)]
  }

  /** The neighbour of `(x, y)` at offset `(dx, dy)`, wrapping round both edges. */
  function Neighbour(t: Torus, x: nat, y: nat, dx: int, dy: int): U64
    requires TorusValid(t) && x < t.width && y < t.height
    requires -1 <= dx <= 1 && -1 <= dy <= 1
  {
    At(t, Wrap(x, dx, t.width), Wrap(y, dy, t.height))
  }

  /** The eight offsets of the Moore neighbourhood, in the order the source visits them. */
  const Moore: seq<(int, int)> := [(-1, -1), (0, -1), (1, -1), (-1, 0), (1, 0), (-1, 1), (0, 1), (1, 1)]

  predicate Offsets(os: seq<(int, int)>) {
    forall k :: 0 <= k < |os| ==> -1 <= os[k].0 <= 1 && -1 <= os[k].1 <= 1
  }

  /** The sum of the neighbours of `(x, y)` at the listed offsets. */
  function SumAt(t: Torus, x: nat, y: nat, os: seq<(int, int)>): nat
    requires TorusValid(t) && x < t.width && y < t.height && Offsets(os)
  {
    if |os| == 0 then 0
    else SumAt(t, x, y, os[..|os| - 1]) + Neighbour(t, x, y, os[|os| - 1].0, os[|os| - 1].1)
  }

  /** The Moore sum: the eight cells around `(x, y)`, without the centre. */
  function MooreSum(t: Torus, x: nat, y: nat): nat
    requires TorusValid(t) && x < t.width && y < t.height
  {
    SumAt(t, x, y, Moore)
  }

  /** The value cell `(x, y)` takes after one step of the torus. */
  function TorusCell(t: Torus, residue: Rule, x: nat, y: nat): U64
    requires TorusValid(t) && x < t.width && y < t.height && MooreSum(t, x, y) <= U64_MAX
  {
    residue(At(t, x, y), MooreSum(t, x, y))
  }

  /**
   * The source adds neighbours with a plain `u64` `+=`, which must not
   * overflow: every Moore sum fits in a `u64`.
   */
  predicate NoOverflow(t: Torus)
    requires TorusValid(t)
  {
    forall x: nat, y: nat :: x < t.width && y < t.height ==> MooreSum(t, x, y) <= U64_MAX
  }

  /** Adding more neighbours never makes the sum smaller. */
  lemma {:induction false} SumPrefix(t: Torus, x: nat, y: nat, os: seq<(int, int)>, k: nat)
    requires TorusValid(t) && x < t.width && y < t.height && Offsets(os) && k <= |os|
    ensures SumAt(t, x, y, os[..k]) <= SumAt(t, x, y, os)
    decreases |os|
  {
    if k < |os| {
      assert os[..|os| - 1][..k] == os[..k];
      SumPrefix(t, x, y, os[..|os| - 1], k);
    } else {
      assert os[..k] == os;
    }
  }

  /**
   * The neighbour sum of `Moma2dAutomaton::step`. The source scans the
   * 3-by-3 block with `dy` outer and `dx` inner and skips the centre; the
   * loop here visits the same eight offsets in the same order.
   */
  method NeighbourSum(t: Torus, x: nat, y: nat) returns (sum: U64)
    requires TorusValid(t) && x < t.width && y < t.height && MooreSum(t, x, y) <= U64_MAX
    ensures sum == MooreSum(t, x, y)
  {
    sum := 0;
    for k := 0 to |Moore|
      invariant sum == SumAt(t, x, y, Moore[..k])
    {
      var dx, dy := Moore[k].0, Moore[k].1;
      MooreStep(t, x, y, k);
      NeighbourIndex(t, x, y, dx, dy);
      var nx := Wrap(x, dx, t.width);
      var ny := Wrap(y, dy, t.height);
      sum := sum + t.state[Flat(t.width, nx, ny)];
    }
    assert Moore[..|Moore|] == Moore;
  }

  /** One more offset of the Moore scan adds that neighbour, and stays within the full sum. */
  lemma MooreStep(t: Torus, x: nat, y: nat, k: nat)
    requires TorusValid(t) && x < t.width && y < t.height && k < |Moore|
    ensures Offsets(Moore[..k]) && Offsets(Moore[..k + 1])
    ensures SumAt(t, x, y, Moore[..k + 1]) ==
            SumAt(t, x, y, Moore[..k]) + Neighbour(t, x, y, Moore[k].0, Moore[k].1)
    ensures SumAt(t, x, y, Moore[..k + 1]) <= MooreSum(t, x, y)
  {
    assert Moore[..k + 1][..k] == Moore[..k];
    SumPrefix(t, x, y, Moore, k + 1);
  }

  /** The flat index the source reads for the neighbour at offset `(dx, dy)`. */
  lemma NeighbourIndex(t: Torus, x: nat, y: nat, dx: int, dy: int)
    requires TorusValid(t) && x < t.width && y < t.height
    requires -1 <= dx <= 1 && -1 <= dy <= 1
    ensures Flat(t.width, Wrap(x, dx, t.width), Wrap(y, dy, t.height)) < |t.state|
    ensures Neighbour(t, x, y, dx, dy) == t.state[Flat(t.width, Wrap(x, dx, t.width), Wrap(y, dy, t.height))]
  {
    FlatInRange(t.width, t.height, Wrap(x, dx, t.width), Wrap(y, dy, t.height));
  }

  /** The first `n` cells of `s`, in row-major order, hold their stepped values. */
  ghost predicate Filled(t: Torus, residue: Rule, s: seq<U64>, n: nat)
    requires TorusValid(t) && NoOverflow(t)
  {
    |s| == |t.state| &&
    forall x: nat, y: nat :: x < t.width && y < t.height && Flat(t.width, x, y) < n ==>
      At(t.(state := s), x, y) == TorusCell(t, residue, x, y)
  }

  /** Writing cell `(x, y)` extends the filled prefix by one. */
  lemma FillStep(t: Torus, residue: Rule, s: seq<U64>, x: nat, y: nat)
    requires TorusValid(t) && NoOverflow(t) && x < t.width && y < t.height
    requires Filled(t, residue, s, Flat(t.width, x, y))
    ensures Flat(t.width, x, y) < |s|
    ensures Filled(t, residue, s[Flat(t.width, x, y) := TorusCell(t, residue, x, y)], Flat(t.width, x, y) + 1)
  {
    var w := t.width;
    var i := Flat(w, x, y);
    FlatInRange(w, t.height, x, y);
    var s' := s[i := TorusCell(t, residue, x, y)];
    forall x': nat, y': nat | x' < w && y' < t.height && Flat(w, x', y') < i + 1
      ensures At(t.(state := s'), x', y') == TorusCell(t, residue, x', y')
    {
      if Flat(w, x', y') == i {
        FlatUnique(w, x, y, x', y');
      }
    }
  }

  /** A fully filled state is the stepped torus, cell for cell. */
  lemma FilledAll(t: Torus, residue: Rule, s: seq<U64>)
    requires TorusValid(t) && NoOverflow(t) && Filled(t, residue, s, |t.state|)
    ensures forall x: nat, y: nat :: x < t.width && y < t.height ==>
      At(t.(state := s), x, y) == residue(At(t, x, y), MooreSum(t, x, y))
  {
    forall x: nat, y: nat | x < t.width && y < t.height
      ensures At(t.(state := s), x, y) == residue(At(t, x, y), MooreSum(t, x, y))
    {
      FlatInRange(t.width, t.height, x, y);
    }
  }

  /**
   * `Moma2dAutomaton::step`: each cell becomes the rule applied to its old
   * value and the sum of its eight old Moore neighbours on the torus. The
   * row-by-row scan visits the flat indices in increasing order.
   */
  method StepTorus(t: Torus, residue: Rule) returns (next: Torus)
    requires TorusValid(t) && NoOverflow(t)
    ensures TorusValid(next) && next.width == t.width && next.height == t.height
    ensures forall x: nat, y: nat :: x < t.width && y < t.height ==>
      At(next, x, y) == residue(At(t, x, y), MooreSum(t, x, y))
  {
    var nextState: seq<U64> := t.state;
    for y := 0 to t.height
      invariant Filled(t, residue, nextState, Mul(y, t.width))
    {
      nextState := StepRow(t, residue, nextState, y);
    }
    next := t.(state := nextState);
    FilledAll(t, residue, nextState);
  }

  /** The inner loop of `Moma2dAutomaton::step`: one row, left to right. */
  method StepRow(t: Torus, residue: Rule, s: seq<U64>, y: nat) returns (r: seq<U64>)
    requires TorusValid(t) && NoOverflow(t) && y < t.height
    requires Filled(t, residue, s, Flat(t.width, 0, y))
    ensures Filled(t, residue, r, Flat(t.width, t.width, y))
  {
    r := s;
    for x := 0 to t.width
      invariant Filled(t, residue, r, Flat(t.width, x, y))
    {
      var sum := NeighbourSum(t, x, y);
      var current := Flat(t.width, x, y);
      FillStep(t, residue, r, x, y);
      r := r[current := residue(t.state[current], sum)];
    }
  }

  /** With every cell at most `c`, a sum over offsets is at most `c` per offset. */
  lemma {:induction false} SumAtMost(t: Torus, x: nat, y: nat, os: seq<(int, int)>, c: nat)
    requires TorusValid(t) && x < t.width && y < t.height && Offsets(os)
    requires forall i :: 0 <= i < |t.state| ==> t.state[i] <= c
    ensures SumAt(t, x, y, os) <= Mul(|os|, c)
  {
    if |os| > 0 {
      var k := |os| - 1;
      NeighbourIndex(t, x, y, os[k].0, os[k].1);
      SumAtMost(t, x, y, os[..k], c);
      assert Mul(|os|, c) == Mul(k, c) + c;
    }
  }

  /** With every cell equal to `c`, a sum over offsets is exactly `c` per offset. */
  lemma {:induction false} SumUniform(t: Torus, x: nat, y: nat, os: seq<(int, int)>, c: nat)
    requires TorusValid(t) && x < t.width && y < t.height && Offsets(os)
    requires forall i :: 0 <= i < |t.state| ==> t.state[i] == c
    ensures SumAt(t, x, y, os) == Mul(|os|, c)
  {
    if |os| > 0 {
      var k := |os| - 1;
      NeighbourIndex(t, x, y, os[k].0, os[k].1);
      SumUniform(t, x, y, os[..k], c);
      assert Mul(|os|, c) == Mul(k, c) + c;
    }
  }

  /** Cells no larger than a `u64` over eight can never make a neighbour sum overflow. */
  lemma SmallCellsNoOverflow(t: Torus)
    requires TorusValid(t)
    requires forall i :: 0 <= i < |t.state| ==> t.state[i] <= U64_MAX / 8
    ensures NoOverflow(t)
  {
    forall x: nat, y: nat | x < t.width && y < t.height
      ensures MooreSum(t, x, y) <= U64_MAX
    {
      SumAtMost(t, x, y, Moore, U64_MAX / 8);
      MulIsProduct(8, U64_MAX / 8);
    }
  }

  /** On a torus where every cell holds `c`, every cell sees the context `8 * c`. */
  lemma UniformTorus(t: Torus, c: U64, x: nat, y: nat)
    requires TorusValid(t) && x < t.width && y < t.height
    requires forall i :: 0 <= i < |t.state| ==> t.state[i] == c
    ensures MooreSum(t, x, y) == 8 * c
  {
    SumUniform(t, x, y, Moore, c);
    MulIsProduct(8, c);
  }

  /** The cells `f(x, y)` of a `w`-by-`h` grid, row by row. */
  function Tabulate(w: nat, h: nat, f: (nat, nat) -> U64): (s: seq<U64>)
    ensures |s| == Mul(h, w)
  {
    if h == 0 then [] else Tabulate(w, h - 1, f) + seq(w, i requires 0 <= i < w => f(i, h - 1))
  }

  lemma {:induction false} TabulateAt(w: nat, h: nat, f: (nat, nat) -> U64, x: nat, y: nat)
    requires x < w && y < h
    ensures Flat(w, x, y) < Mul(h, w) && Tabulate(w, h, f)[Flat(w, x, y)] == f(x, y)
  {
    FlatInRange(w, h, x, y);
    if y < h - 1 {
      FlatInRange(w, h - 1, x, y);
      TabulateAt(w, h - 1, f, x, y);
    }
  }

  /** What cell `(x, y)` of the shifted torus shows. */
  function Shifted(t: Torus, a: nat, b: nat, x: nat, y: nat): U64 {
    if TorusValid(t) && x < t.width && y < t.height
    then At(t, (x + a) % t.width, (y + b) % t.height)
    else 0
  }

  /** The torus shifted so that cell `(x, y)` shows what was at `(x + a, y + b)`. */
  function Shift(t: Torus, a: nat, b: nat): (r: Torus)
    requires TorusValid(t)
    ensures TorusValid(r) && r.width == t.width && r.height == t.height
  {
    t.(state := Tabulate(t.width, t.height, (x: nat, y: nat) => Shifted(t, a, b, x, y)))
  }

  lemma ShiftAt(t: Torus, a: nat, b: nat, x: nat, y: nat)
    requires TorusValid(t) && x < t.width && y < t.height
    ensures At(Shift(t, a, b), x, y) == At(t, (x + a) % t.width, (y + b) % t.height)
  {
    TabulateAt(t.width, t.height, (x: nat, y: nat) => Shifted(t, a, b, x, y), x, y);
  }

  /** Shifting and then stepping one coordinate is stepping and then shifting it. */
  lemma WrapShift(x: nat, a: nat, d: int, n: nat)
    requires x < n && -1 <= d <= 1
    ensures Wrap((x + a) % n, d, n) == (Wrap(x, d, n) + a) % n
  {
    var m: nat := x + a + d + n;
    ModAddLeft(x + a, d + n, n);
    assert Wrap((x + a) % n, d, n) == m % n;
    ModAddLeft(x + d + n, a, n);
    assert (Wrap(x, d, n) + a) % n == m % n;
  }

  lemma {:induction false} ShiftSum(t: Torus, a: nat, b: nat, x: nat, y: nat, os: seq<(int, int)>)
    requires TorusValid(t) && x < t.width && y < t.height && Offsets(os)
    ensures SumAt(Shift(t, a, b), x, y, os) == SumAt(t, (x + a) % t.width, (y + b) % t.height, os)
  {
    if |os| > 0 {
      var (dx, dy) := os[|os| - 1];
      WrapShift(x, a, dx, t.width);
      WrapShift(y, b, dy, t.height);
      ShiftAt(t, a, b, Wrap(x, dx, t.width), Wrap(y, dy, t.height));
      ShiftSum(t, a, b, x, y, os[..|os| - 1]);
    }
  }

  /**
   * The torus has no distinguished cell: the shifted torus steps, cell for
   * cell, to the shift of what the original steps to.
   */
  lemma ShiftStepTorus(t: Torus, residue: Rule, a: nat, b: nat, x: nat, y: nat)
    requires TorusValid(t) && NoOverflow(t) && x < t.width && y < t.height
    ensures NoOverflow(Shift(t, a, b))
    ensures TorusCell(Shift(t, a, b), residue, x, y) ==
            TorusCell(t, residue, (x + a) % t.width, (y + b) % t.height)
  {
    var s := Shift(t, a, b);
    forall x': nat, y': nat | x' < t.width && y' < t.height
      ensures MooreSum(s, x', y') == MooreSum(t, (x' + a) % t.width, (y' + b) % t.height)
    {
      ShiftSum(t, a, b, x', y', Moore);
    }
    ShiftAt(t, a, b, x, y);
  }
}
