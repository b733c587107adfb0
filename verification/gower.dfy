/**
 * The direct Gowers U2 sum of `examples/moma_gower/src/main.rs`, up to the
 * average: a path becomes the sequence of its step directions as unit
 * complex numbers, and the sum runs over the "rectangles"
 * `x, x + h1, x + h2, x + h1 + h2` that fit in the sequence.
 *
 * The source works in `f64` with `atan2`, `cos` and `sin`. For steps along an
 * axis the direction is exactly one of `1`, `-1`, `i`, `-i`, so the model
 * uses Gaussian integers and every sum is exact.
 */
module Gower {

  /** `Complex`, with integer parts. */
  datatype Complex = Complex(re: int, im: int)

  const Zero := Complex(0, 0)
  const One := Complex(1, 0)
  const MinusOne := Complex(-1, 0)
  const I := Complex(0, 1)
  const MinusI := Complex(0, -1)

  /**
   * Integer multiplication by repeated addition: `|b|` copies of `a`,
   * negated for negative `b`. It equals `*` (`TimesIsProduct`). It is kept
   * apart from `Arith.Mul`, which is over naturals, because Gaussian
   * products take negative factors; the repeated-addition form lets
   * `TimesSmall` and `UnitMul` be proved without nonlinear arithmetic.
   */
  function Times(a: int, b: int): int {
    if b < 0 then -TimesNat(a, -b) else TimesNat(a, b)
  }

  function TimesNat(a: int, b: nat): int {
    if b == 0 then 0 else TimesNat(a, b - 1) + a
  }

  lemma TimesIsProduct(a: int, b: int)
    ensures Times(a, b) == a * b
  {
    if b < 0 {
      TimesNatIsProduct(a, -b);
    } else {
      TimesNatIsProduct(a, b);
    }
  }

  lemma {:induction false} TimesNatIsProduct(a: int, b: nat)
    ensures TimesNat(a, b) == a * b
  {
    if b > 0 {
      TimesNatIsProduct(a, b - 1);
    }
  }

  /** `Complex::mul`: `(a + bi)(c + di) = (ac - bd) + (ad + bc)i`. */
  function Mul(z: Complex, w: Complex): Complex {
    Complex(Times(z.re, w.re) - Times(z.im, w.im), Times(z.re, w.im) + Times(z.im, w.re))
  }

  /** `Mul` with the products written out. */
  lemma MulIsProduct(z: Complex, w: Complex)
    ensures Mul(z, w) == Complex(z.re * w.re - z.im * w.im, z.re * w.im + z.im * w.re)
  {
    TimesIsProduct(z.re, w.re);
    TimesIsProduct(z.im, w.im);
    TimesIsProduct(z.re, w.im);
    TimesIsProduct(z.im, w.re);
  }

  /** The component-wise `+=` of the running total. */
  function Add(z: Complex, w: Complex): Complex {
    Complex(z.re + w.re, z.im + w.im)
  }

  lemma MulCommutes(z: Complex, w: Complex)
    ensures Mul(z, w) == Mul(w, z)
  {
    MulIsProduct(z, w);
    MulIsProduct(w, z);
  }

  lemma MulAssociates(z: Complex, w: Complex, v: Complex)
    ensures Mul(Mul(z, w), v) == Mul(z, Mul(w, v))
  {
    MulIsProduct(z, w);
    MulIsProduct(Mul(z, w), v);
    MulIsProduct(w, v);
    MulIsProduct(z, Mul(w, v));
    Expand(z.re, z.im, w.re, w.im, v.re, v.im);
  }

  /** The polynomial identities behind associativity. */
  lemma Expand(a: int, b: int, c: int, d: int, e: int, f: int)
    ensures (a * c - b * d) * e - (a * d + b * c) * f == a * (c * e - d * f) - b * (c * f + d * e)
    ensures (a * c - b * d) * f + (a * d + b * c) * e == a * (c * f + d * e) + b * (c * e - d * f)
  {
  }

  lemma OneIsNeutral(z: Complex)
    ensures Mul(One, z) == z && Mul(z, One) == z
  {
    MulIsProduct(One, z);
    MulIsProduct(z, One);
  }

  /** The four directions a grid step can have. */
  predicate Unit(z: Complex) {
    z == One || z == MinusOne || z == I || z == MinusI
  }

  /** Multiplying by a unit turns `w` by a multiple of a right angle. */
  function Turn(z: Complex, w: Complex): Complex
    requires Unit(z)
  {
    if z == One then w
    else if z == MinusOne then Complex(-w.re, -w.im)
    else if z == I then Complex(-w.im, w.re)
    else Complex(w.im, -w.re)
  }

  lemma MulByUnit(z: Complex, w: Complex)
    requires Unit(z)
    ensures Mul(z, w) == Turn(z, w)
  {
    TimesSmall(w.re);
    TimesSmall(w.im);
  }

  /** `Times` by `0`, `1` and `-1`, the only components a unit has. */
  lemma TimesSmall(b: int)
    ensures Times(0, b) == 0 && Times(1, b) == b && Times(-1, b) == -b
  {
    var n: nat := if b < 0 then -b else b;
    TimesNatSmall(n);
  }

  lemma {:induction false} TimesNatSmall(b: nat)
    ensures TimesNat(0, b) == 0 && TimesNat(1, b) == b && TimesNat(-1, b) + b == 0
  {
    if b > 0 {
      TimesNatSmall(b - 1);
    }
  }


  /** Units are closed under multiplication. */
  lemma UnitMul(z: Complex, w: Complex)
    requires Unit(z) && Unit(w)
    ensures Unit(Mul(z, w))
  {
    MulByUnit(z, w);
  }

  // ------------------------------------------------------------ samples

  /** A step the model can express exactly: along an axis, or no move at all. */
  predicate AxisStep(dx: int, dy: int) {
    dx == 0 || dy == 0
  }

  function Sign(v: int): int {
    if v > 0 then 1 else if v < 0 then -1 else 0
  }

  /**
   * `cos` and `sin` of `atan2(dy, dx)`: the unit in the step's direction.
   * `atan2(0, 0)` is `0`, so a step that does not move gives `1`.
   */
  function Sample(dx: int, dy: int): (z: Complex)
    requires AxisStep(dx, dy)
    ensures Unit(z)
    ensures dx != 0 || dy != 0 ==> z == Complex(Sign(dx), Sign(dy))
    ensures dx == 0 && dy == 0 ==> z == One
  {
    if dy == 0 then (if dx < 0 then MinusOne else One)
    else if dy > 0 then I
    else MinusI
  }

  /** The unit grid step a sample stands for. */
  function StepOf(z: Complex): (int, int) {
    (z.re, z.im)
  }

  /** For 4-neighbour moves the sample is the move itself: `StepOf` undoes `Sample`. */
  lemma SampleDecodes(dx: int, dy: int)
    requires (dx == 0 && (dy == 1 || dy == -1)) || (dy == 0 && (dx == 1 || dx == -1))
    ensures StepOf(Sample(dx, dy)) == (dx, dy)
  {
  }

  predicate AxisPath(path: seq<(int, int)>) {
    forall p :: 1 <= p < |path| ==> AxisStep(path[p].0 - path[p - 1].0, path[p].1 - path[p - 1].1)
  }

  /**
   * `path_to_complex_sequence`: one sample per step, none for a path of fewer
   * than two points.
   */
  method PathToSequence(path: seq<(int, int)>) returns (s: seq<Complex>)
    requires AxisPath(path)
    ensures |path| < 2 ==> s == []
    ensures |path| >= 2 ==> |s| == |path| - 1
    ensures forall p :: 1 <= p < |path| ==>
      s[p - 1] == Sample(path[p].0 - path[p - 1].0, path[p].1 - path[p - 1].1)
    ensures forall k :: 0 <= k < |s| ==> Unit(s[k])
  {
    s := [];
    if |path| < 2 {
      return;
    }
    for p := 1 to |path|
      invariant |s| == p - 1
      invariant forall k :: 0 <= k < |s| ==> Unit(s[k])
      invariant forall q :: 1 <= q < p ==>
        s[q - 1] == Sample(path[q].0 - path[q - 1].0, path[q].1 - path[q - 1].1)
    {
      var dx := path[p].0 - path[p - 1].0;
      var dy := path[p].1 - path[p - 1].1;
      s := s + [Sample(dx, dy)];
    }
  }

  // --------------------------------------------------------- the U2 sum

  /** The running total and the number of rectangles counted. */
  datatype Acc = Acc(total: Complex, quads: nat)

  function Plus(a: Acc, b: Acc): Acc {
    Acc(Add(a.total, b.total), a.quads + b.quads)
  }

  /** The rectangle at `x` with sides `h1`, `h2` lies inside the sequence. */
  predicate Fits(n: nat, x: nat, h1: nat, h2: nat) {
    x + h1 + h2 < n && x + h1 < n && x + h2 < n
  }

  /** What one rectangle contributes: its corner product and a count of one, or nothing. */
  function Term(s: seq<Complex>, x: nat, h1: nat, h2: nat): Acc {
    if Fits(|s|, x, h1, h2)
    then Acc(Corner(s, x, h1, h2), 1)
    else Acc(Zero, 0)
  }

  /** The product of the rectangle's four corners. */
  function Corner(s: seq<Complex>, x: nat, h1: nat, h2: nat): Complex
    requires Fits(|s|, x, h1, h2)
  {
    Mul(Mul(Mul(s[x], s[x + h1]), s[x + h2]), s[x + h1 + h2])
  }

  /** The innermost loop: `h2` below `m`. */
  function SumH2(s: seq<Complex>, x: nat, h1: nat, m: nat): Acc {
    if m == 0 then Acc(Zero, 0) else Plus(SumH2(s, x, h1, m - 1), Term(s, x, h1, m - 1))
  }

  /** The middle loop: `h1` below `m`, each with the full `h2` range. */
  function SumH1(s: seq<Complex>, x: nat, m: nat): Acc
    requires |s| >= 1
  {
    if m == 0 then Acc(Zero, 0) else Plus(SumH1(s, x, m - 1), SumH2(s, x, m - 1, |s| - 1))
  }

  /** The outer loop: `x` below `m`, each with the full `h1` range. */
  function SumX(s: seq<Complex>, m: nat): Acc
    requires |s| >= 1
  {
    if m == 0 then Acc(Zero, 0) else Plus(SumX(s, m - 1), SumH1(s, m - 1, |s| - 1))
  }

  /**
   * The total over every rectangle `x, h1, h2 < n - 1` that fits, and how
   * many there are.
   */
  function Quads(s: seq<Complex>): Acc
    requires |s| >= 1
  {
    SumX(s, |s| - 1)
  }

  /** The triple loop of `calculate_u2_norm_complex`. */
  method SumQuads(s: seq<Complex>) returns (acc: Acc)
    requires |s| >= 2
    ensures acc == Quads(s)
  {
    var n := |s|;
    acc := Acc(Zero, 0);
    for x := 0 to n - 1
      invariant acc == SumX(s, x)
    {
      for h1 := 0 to n - 1
        invariant acc == Plus(SumX(s, x), SumH1(s, x, h1))
      {
        acc := SumRow(s, x, h1, acc);
        PlusTerm(SumX(s, x), SumH1(s, x, h1), SumH2(s, x, h1, n - 1));
      }
    }
  }

  /** The innermost loop, over `h2`, adding to the running total `acc0`. */
  method SumRow(s: seq<Complex>, x: nat, h1: nat, acc0: Acc) returns (acc: Acc)
    requires |s| >= 2
    ensures acc == Plus(acc0, SumH2(s, x, h1, |s| - 1))
  {
    var n := |s|;
    acc := acc0;
    for h2 := 0 to n - 1
      invariant acc == Plus(acc0, SumH2(s, x, h1, h2))
    {
      var p1, p2, p3, p4 := x, x + h1, x + h2, x + h1 + h2;
      RowStep(s, x, h1, h2, acc0);
      if p4 < n && p2 < n && p3 < n {
        var product := Mul(Mul(Mul(s[p1], s[p2]), s[p3]), s[p4]);
        acc := Acc(Add(acc.total, product), acc.quads + 1);
      }
    }
  }

  /** One more `h2`: a fitting rectangle adds its product and one to the count, any other nothing. */
  lemma RowStep(s: seq<Complex>, x: nat, h1: nat, h2: nat, acc0: Acc)
    ensures Fits(|s|, x, h1, h2) ==>
      Plus(acc0, SumH2(s, x, h1, h2 + 1)) ==
      Acc(Add(Plus(acc0, SumH2(s, x, h1, h2)).total, Corner(s, x, h1, h2)),
          Plus(acc0, SumH2(s, x, h1, h2)).quads + 1)
    ensures !Fits(|s|, x, h1, h2) ==> Plus(acc0, SumH2(s, x, h1, h2 + 1)) == Plus(acc0, SumH2(s, x, h1, h2))
  {
    var before := Plus(acc0, SumH2(s, x, h1, h2));
    var t := Term(s, x, h1, h2);
    assert SumH2(s, x, h1, h2 + 1) == Plus(SumH2(s, x, h1, h2), t);
    PlusTerm(acc0, SumH2(s, x, h1, h2), t);
    if !Fits(|s|, x, h1, h2) {
      assert t == Acc(Zero, 0);
      assert Plus(before, t) == before;
    }
  }

  /** Adding one more contribution to a running sum. */
  lemma PlusTerm(a: Acc, b: Acc, c: Acc)
    ensures Plus(Plus(a, b), c) == Plus(a, Plus(b, c))
  {
  }

  /** What `calculate_u2_norm_complex` has before the magnitude and the fourth root. */
  datatype U2 = Trivial | Average(total: Complex, quads: nat)

  /**
   * `calculate_u2_norm_complex` up to the average: `Trivial` (the source
   * returns `0`) for a sequence shorter than two; otherwise the total over all
   * fitting rectangles and their number, which is never zero.
   */
  method U2Average(s: seq<Complex>) returns (r: U2)
    ensures r.Trivial? <==> |s| < 2
    ensures r.Average? ==> r.quads >= 1 && Acc(r.total, r.quads) == Quads(s)
  {
    if |s| < 2 {
      return Trivial;
    }
    var acc := SumQuads(s);
    QuadsPositive(s);
    if acc.quads == 0 {
      return Trivial;
    }
    r := Average(acc.total, acc.quads);
  }

  // ------------------------------------------------------------ properties

  lemma {:induction false} SumH2Grows(s: seq<Complex>, x: nat, h1: nat, m: nat)
    ensures SumH2(s, x, h1, m).quads >= (if m > 0 && Fits(|s|, x, h1, 0) then 1 else 0)
  {
    if m > 0 {
      SumH2Grows(s, x, h1, m - 1);
    }
  }

  lemma {:induction false} SumH1Grows(s: seq<Complex>, x: nat, m: nat)
    requires |s| >= 2
    ensures SumH1(s, x, m).quads >= (if m > 0 && x + 1 < |s| then 1 else 0)
  {
    if m > 0 {
      SumH1Grows(s, x, m - 1);
      SumH2Grows(s, x, m - 1, |s| - 1);
    }
  }

  lemma {:induction false} SumXGrows(s: seq<Complex>, m: nat)
    requires |s| >= 2
    ensures SumX(s, m).quads >= (if m > 0 then 1 else 0)
  {
    if m > 0 {
      SumXGrows(s, m - 1);
      if m == 1 {
        SumH1Grows(s, 0, |s| - 1);
      }
    }
  }

  /**
   * Every sequence of two or more samples has a rectangle (`x = h1 = h2 = 0`),
   * so the source's guard against dividing by zero never fires.
   */
  lemma QuadsPositive(s: seq<Complex>)
    requires |s| >= 2
    ensures Quads(s).quads >= 1
  {
    SumXGrows(s, |s| - 1);
  }

  /** Every sample is `1`, as for a straight path to the right. */
  predicate AllOne(s: seq<Complex>) {
    forall k :: 0 <= k < |s| ==> s[k] == One
  }

  /** An accumulator whose total is exactly its count: every product was `1`. */
  predicate Exact(a: Acc) {
    a.total == Complex(a.quads, 0)
  }

  lemma TermOne(s: seq<Complex>, x: nat, h1: nat, h2: nat)
    requires AllOne(s)
    ensures Exact(Term(s, x, h1, h2))
  {
    if Fits(|s|, x, h1, h2) {
      assert s[x] == One && s[x + h1] == One && s[x + h2] == One && s[x + h1 + h2] == One;
      OneIsNeutral(One);
    }
  }

  lemma {:induction false} AllOneH2(s: seq<Complex>, x: nat, h1: nat, m: nat)
    requires AllOne(s)
    ensures Exact(SumH2(s, x, h1, m))
  {
    if m > 0 {
      AllOneH2(s, x, h1, m - 1);
      ExactH2Step(s, x, h1, m - 1);
    }
  }

  /** One more rectangle of ones keeps the row's partial sum exact. */
  lemma ExactH2Step(s: seq<Complex>, x: nat, h1: nat, m: nat)
    requires AllOne(s) && Exact(SumH2(s, x, h1, m))
    ensures Exact(SumH2(s, x, h1, m + 1))
  {
    var a, b := SumH2(s, x, h1, m), Term(s, x, h1, m);
    TermOne(s, x, h1, m);
    ExactPlus(a, b);
  }

  lemma ExactPlus(a: Acc, b: Acc)
    requires Exact(a) && Exact(b)
    ensures Exact(Plus(a, b))
  {
  }

  lemma {:induction false} AllOneH1(s: seq<Complex>, x: nat, m: nat)
    requires AllOne(s) && |s| >= 1
    ensures Exact(SumH1(s, x, m))
  {
    if m > 0 {
      var a, b := SumH1(s, x, m - 1), SumH2(s, x, m - 1, |s| - 1);
      AllOneH1(s, x, m - 1);
      AllOneH2(s, x, m - 1, |s| - 1);
      ExactPlus(a, b);
    }
  }

  lemma {:induction false} AllOneX(s: seq<Complex>, m: nat)
    requires AllOne(s) && |s| >= 1
    ensures Exact(SumX(s, m))
  {
    if m > 0 {
      var a, b := SumX(s, m - 1), SumH1(s, m - 1, |s| - 1);
      AllOneX(s, m - 1);
      AllOneH1(s, m - 1, |s| - 1);
      ExactPlus(a, b);
    }
  }

  /** For a straight line every product is `1`, so the average is exactly `1`. */
  lemma StraightLineAverage(s: seq<Complex>)
    requires AllOne(s) && |s| >= 2
    ensures Quads(s).quads >= 1 && Quads(s).total == Complex(Quads(s).quads, 0)
  {
    QuadsPositive(s);
    AllOneX(s, |s| - 1);
  }

  /** The straight path of `main`, six points moving right, samples to five `1`s. */
  lemma StraightLineSamples()
    ensures AxisPath([(0, 0), (1, 0), (2, 0), (3, 0), (4, 0), (5, 0)])
    ensures forall p :: 1 <= p < 6 ==>
      Sample([(0, 0), (1, 0), (2, 0), (3, 0), (4, 0), (5, 0)][p].0 - [(0, 0), (1, 0), (2, 0), (3, 0), (4, 0), (5, 0)][p - 1].0,
             [(0, 0), (1, 0), (2, 0), (3, 0), (4, 0), (5, 0)][p].1 - [(0, 0), (1, 0), (2, 0), (3, 0), (4, 0), (5, 0)][p - 1].1) == One
  {
  }

  function Abs(v: int): nat {
    if v < 0 then -v else v
  }

  /** The size `|re| + |im|`, which bounds the magnitude from above. */
  function Size(z: Complex): nat {
    Abs(z.re) + Abs(z.im)
  }

  /**
   * The total is no larger than the count: each rectangle adds a unit or
   * nothing. `Size(total) <= quads`, written as the four linear bounds it
   * amounts to.
   */
  predicate Bounded(a: Acc) {
    var re, im := a.total.re, a.total.im;
    re + im <= a.quads && re - im <= a.quads && -re + im <= a.quads && -re - im <= a.quads
  }

  predicate AllUnits(s: seq<Complex>) {
    forall k :: 0 <= k < |s| ==> Unit(s[k])
  }

  /** The product of a rectangle's four corners is again a unit. */
  lemma CornersUnit(a: Complex, b: Complex, c: Complex, d: Complex)
    requires Unit(a) && Unit(b) && Unit(c) && Unit(d)
    ensures Unit(Mul(Mul(Mul(a, b), c), d))
  {
    var ab := Mul(a, b);
    UnitMul(a, b);
    var abc := Mul(ab, c);
    UnitMul(ab, c);
    UnitMul(abc, d);
  }

  lemma TermBounded(s: seq<Complex>, x: nat, h1: nat, h2: nat)
    requires AllUnits(s)
    ensures Bounded(Term(s, x, h1, h2))
  {
    if Fits(|s|, x, h1, h2) {
      CornersUnit(s[x], s[x + h1], s[x + h2], s[x + h1 + h2]);
    }
  }

  lemma BoundedPlus(a: Acc, b: Acc)
    requires Bounded(a) && Bounded(b)
    ensures Bounded(Plus(a, b))
  {
  }

  lemma {:induction false} UnitsH2(s: seq<Complex>, x: nat, h1: nat, m: nat)
    requires AllUnits(s)
    ensures Bounded(SumH2(s, x, h1, m))
  {
    if m > 0 {
      UnitsH2(s, x, h1, m - 1);
      BoundedH2Step(s, x, h1, m - 1);
    }
  }

  /** One more rectangle keeps the row's partial sum bounded. */
  lemma BoundedH2Step(s: seq<Complex>, x: nat, h1: nat, m: nat)
    requires AllUnits(s) && Bounded(SumH2(s, x, h1, m))
    ensures Bounded(SumH2(s, x, h1, m + 1))
  {
    var a, b := SumH2(s, x, h1, m), Term(s, x, h1, m);
    TermBounded(s, x, h1, m);
    BoundedPlus(a, b);
  }

  lemma {:induction false} UnitsH1(s: seq<Complex>, x: nat, m: nat)
    requires AllUnits(s) && |s| >= 1
    ensures Bounded(SumH1(s, x, m))
  {
    if m > 0 {
      var a, b := SumH1(s, x, m - 1), SumH2(s, x, m - 1, |s| - 1);
      UnitsH1(s, x, m - 1);
      UnitsH2(s, x, m - 1, |s| - 1);
      BoundedPlus(a, b);
    }
  }

  lemma {:induction false} UnitsX(s: seq<Complex>, m: nat)
    requires AllUnits(s) && |s| >= 1
    ensures Bounded(SumX(s, m))
  {
    if m > 0 {
      var a, b := SumX(s, m - 1), SumH1(s, m - 1, |s| - 1);
      UnitsX(s, m - 1);
      UnitsH1(s, m - 1, |s| - 1);
      BoundedPlus(a, b);
    }
  }

  /**
   * For a grid path the average has size at most one, so its magnitude, and
   * with it the U2 norm, is at most one.
   */
  lemma AverageAtMostOne(s: seq<Complex>)
    requires AllUnits(s) && |s| >= 1
    ensures Size(Quads(s).total) <= Quads(s).quads
  {
    UnitsX(s, |s| - 1);
    assert Bounded(Quads(s));
  }
}
