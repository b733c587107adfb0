/** Arithmetic and set facts shared by the models: monotone products, products as repeated sums, subset cardinalities. */
module Arith {

  const U64_MAX: nat := 0xFFFF_FFFF_FFFF_FFFF

  /** The values of Rust's `u64`. */
  type U64 = x: nat | x <= U64_MAX

  lemma MulLe(a: nat, b: nat, w: nat)
    requires a <= b
    ensures a * w <= b * w
  {
  }

  lemma MulSucc(a: nat, w: nat)
    ensures (a + 1) * w == a * w + w
  {
  }

  lemma MulMono(a: nat, b: nat, w: nat)
    requires a < b
    ensures a * w + w <= b * w
  {
    calc {
      a * w + w;
      (a + 1) * w;
    <= { MulLe(a + 1, b, w); }
      b * w;
    }
  }

  lemma SubsetCard<T>(a: set<T>, b: set<T>)
    requires a <= b
    ensures |a| <= |b|
  {
    assert b == a + (b - a);
  }

  /** A proper subset is strictly smaller. */
  lemma ProperSubsetCard<T>(a: set<T>, b: set<T>)
    requires a < b
    ensures |a| < |b|
  {
    assert b == a + (b - a);
    var x :| x in b - a;
  }

  /** The image of `[0, n)` under any map has at most `n` elements. */
  lemma {:induction false} ImageCard<T>(n: nat, f: nat -> T)
    ensures |set i | 0 <= i < n :: f(i)| <= n
  {
    if n > 0 {
      ImageCard(n - 1, f);
      var s := set i | 0 <= i < n - 1 :: f(i);
      assert (set i | 0 <= i < n :: f(i)) == s + {f(n - 1)};
    }
  }

  /** Euclidean division recovers the row and column of a row-major index. */
  lemma DivModUnique(q: nat, r: nat, w: nat)
    requires r < w
    ensures (q * w + r) / w == q && (q * w + r) % w == r
  {
    var i := q * w + r;
    var d, m := i / w, i % w;
    assert i == d * w + m;
    if d < q {
      MulMono(d, q, w);
    } else if q < d {
      MulMono(q, d, w);
    }
  }

  /** Reducing a summand modulo `n` first does not change the sum modulo `n`. */
  lemma ModAddLeft(a: nat, b: nat, n: nat)
    requires n > 0
    ensures (a % n + b) % n == (a + b) % n
  {
    var q, d, r := a / n, (a % n + b) / n, (a % n + b) % n;
    assert a == q * n + a % n;
    assert a % n + b == d * n + r;
    assert (q + d) * n == q * n + d * n;
    DivModUnique(q + d, r, n);
  }

  /**
   * Multiplication of naturals by repeated addition: `Mul(a, b)` is `a`
   * copies of `b` (equal to `a * b` by `MulIsProduct`).
   */
  function Mul(a: nat, b: nat): nat {
    if a == 0 then 0 else Mul(a - 1, b) + b
  }

  lemma {:induction false} MulIsProduct(a: nat, b: nat)
    ensures Mul(a, b) == a * b
  {
    if a > 0 {
      MulIsProduct(a - 1, b);
      MulSucc(a - 1, b);
    }
  }

  /** The converse of `MulMonotone` for a strict bound. */
  lemma {:induction false} MulLtCancel(a: nat, c: nat, b: nat)
    requires Mul(a, b) < Mul(c, b)
    ensures a < c
  {
    if a > 0 {
      MulLtCancel(a - 1, c - 1, b);
    }
  }

  /** Doubling the second factor doubles the product. */
  lemma {:induction false} MulDouble(a: nat, b: nat)
    ensures Mul(a, 2 * b) == 2 * Mul(a, b)
  {
    if a > 0 {
      MulDouble(a - 1, b);
    }
  }

  lemma {:induction false} MulMonotone(a: nat, c: nat, b: nat)
    requires a <= c
    ensures Mul(a, b) <= Mul(c, b)
    decreases c
  {
    if a < c {
      MulMonotone(a, c - 1, b);
    }
  }
}
