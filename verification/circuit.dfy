/**
 * The index structure of the state-vector simulator (`src/circuit.rs`): the
 * initial basis state, the stride pairing of a single-qubit gate, Pauli-X,
 * and the CNOT permutation.
 *
 * Amplitudes are exact complex numbers over `real` instead of `f64` pairs;
 * the claims below are about which amplitudes move where, and for Pauli-X
 * (entries 0 and 1 only) the floating-point products are exact anyway.
 * Bit `t` of an index and `i ^ (1 << t)` are written arithmetically
 * (`Bit`, `Flip`).
 */
module Circuit {
  import opened Arith

  // --------------------------------------------------------- amplitudes

  datatype Amp = Amp(re: real, im: real)

  const AZero := Amp(0.0, 0.0)
  const AOne := Amp(1.0, 0.0)

  function Times(a: Amp, b: Amp): Amp {
    Amp(a.re * b.re - a.im * b.im, a.re * b.im + a.im * b.re)
  }

  function Plus(a: Amp, b: Amp): Amp {
    Amp(a.re + b.re, a.im + b.im)
  }

  /** A 2x2 gate matrix `[[g00, g01], [g10, g11]]`. */
  datatype Gate = Gate(g00: Amp, g01: Amp, g10: Amp, g11: Amp)

  /** `gates::PAULI_X`: `[[0, 1], [1, 0]]`. */
  const PauliX := Gate(AZero, AOne, AOne, AZero)

  /** The gate matrix times the column `(a0, a1)`. */
  function Mix(g: Gate, a0: Amp, a1: Amp): (Amp, Amp) {
    (Plus(Times(g.g00, a0), Times(g.g01, a1)), Plus(Times(g.g10, a0), Times(g.g11, a1)))
  }

  /** Pauli-X exchanges the two amplitudes of a pair, exactly. */
  lemma PauliXSwaps(a0: Amp, a1: Amp)
    ensures Mix(PauliX, a0, a1) == (a1, a0)
  {
  }

  // -------------------------------------------------------------- bits

  /** `1 << n`. */
  function Pow2(n: nat): (r: nat)
    ensures r >= 1
  {
    if n == 0 then 1 else 2 * Pow2(n - 1)
  }

  /** Bit `t` of `k`, the test `k & (1 << t) != 0`. */
  function Bit(k: nat, t: nat): (b: nat)
    ensures b <= 1
  {
    if t == 0 then k % 2 else Bit(k / 2, t - 1)
  }

  /** `k ^ (1 << t)`: `k` with bit `t` flipped. */
  function Flip(k: nat, t: nat): nat {
    if t == 0 then (if k % 2 == 0 then k + 1 else k - 1) else 2 * Flip(k / 2, t - 1) + k % 2
  }

  /** Flipping a clear bit adds `1 << t`; flipping a set bit subtracts it. */
  lemma {:induction false} FlipMoves(k: nat, t: nat)
    ensures Bit(k, t) == 0 ==> Flip(k, t) == k + Pow2(t)
    ensures Bit(k, t) == 1 ==> k >= Pow2(t) && Flip(k, t) == k - Pow2(t)
  {
    if t > 0 {
      FlipMoves(k / 2, t - 1);
    }
  }

  /** Flipping bit `t` toggles bit `t` and keeps every other bit. */
  lemma {:induction false} FlipBit(k: nat, t: nat, c: nat)
    ensures Bit(Flip(k, t), c) == if c == t then 1 - Bit(k, t) else Bit(k, c)
  {
    if t == 0 {
      if c > 0 {
        assert Flip(k, t) / 2 == k / 2;
      }
    } else if c == 0 {
      assert Flip(k, t) % 2 == k % 2;
    } else {
      assert Flip(k, t) / 2 == Flip(k / 2, t - 1);
      FlipBit(k / 2, t - 1, c - 1);
    }
  }

  /** `(k ^ m) ^ m == k`. */
  lemma FlipFlip(k: nat, t: nat)
    ensures Flip(Flip(k, t), t) == k
  {
    FlipMoves(k, t);
    FlipBit(k, t, t);
    FlipMoves(Flip(k, t), t);
  }

  /** A clear bit below the register width can be set without leaving the register. */
  lemma {:induction false} ClearBitRoom(k: nat, t: nat, n: nat)
    requires k < Pow2(n) && t < n && Bit(k, t) == 0
    ensures k + Pow2(t) < Pow2(n)
  {
    var half, p := k / 2, Pow2(n - 1);
    assert k == 2 * half + k % 2 && Pow2(n) == 2 * p;
    if t == 0 {
      assert k % 2 == 0;
    } else {
      ClearBitRoom(half, t - 1, n - 1);
      assert half + Pow2(t - 1) < p;
    }
  }

  /** `k ^ (1 << t)` stays inside a register of `n > t` qubits. */
  lemma FlipInRange(k: nat, t: nat, n: nat)
    requires k < Pow2(n) && t < n
    ensures Flip(k, t) < Pow2(n)
  {
    FlipMoves(k, t);
    if Bit(k, t) == 0 {
      ClearBitRoom(k, t, n);
    }
  }

  /**
   * The pairing across bit `t` of a register of `n > t` qubits: every index
   * has a distinct partner in range, the partner's partner is the index, and
   * exactly one of the two has bit `t` clear.
   */
  lemma Pairing(k: nat, t: nat, n: nat)
    requires k < Pow2(n) && t < n
    ensures Flip(k, t) < Pow2(n) && Flip(k, t) != k && Flip(Flip(k, t), t) == k
    ensures Bit(k, t) == 0 <==> Bit(Flip(k, t), t) == 1
  {
    FlipInRange(k, t, n);
    FlipFlip(k, t);
    FlipBit(k, t, t);
  }

  /** Index `0` has no bit set. */
  lemma {:induction false} ZeroBits(t: nat)
    ensures Bit(0, t) == 0
  {
    if t > 0 {
      ZeroBits(t - 1);
    }
  }

  /** An index of an `n`-qubit register has no bit at position `n` or above. */
  lemma {:induction false} HighBitZero(k: nat, c: nat, n: nat)
    requires k < Pow2(n) && n <= c
    ensures Bit(k, c) == 0
  {
    if n == 0 {
      ZeroBits(c);
    } else {
      HighBitZero(k / 2, c - 1, n - 1);
    }
  }

  /** Inside a block of `2 * (1 << t)` indices, the first half has bit `t` clear. */
  lemma {:induction false} BlockBits(b: nat, r: nat, t: nat)
    requires r < Pow2(t)
    ensures Bit(Mul(b, 2 * Pow2(t)) + r, t) == 0
  {
    if t == 0 {
      MulDouble(b, 1);
    } else {
      var p := Pow2(t - 1);
      MulDouble(b, 2 * p);
      var half := Mul(b, 2 * p) + r / 2;
      assert (Mul(b, 2 * Pow2(t)) + r) / 2 == half;
      BlockBits(b, r / 2, t - 1);
    }
  }

  /** `2^n` blocks of `2 * (1 << t)` indices each make up the register. */
  lemma {:induction false} Pow2Split(n: nat, t: nat)
    requires t < n
    ensures Pow2(n) == Mul(Pow2(n - t - 1), 2 * Pow2(t))
  {
    if t == 0 {
      MulDouble(Pow2(n - 1), 1);
      OneRight(Pow2(n - 1));
    } else {
      Pow2Split(n - 1, t - 1);
      MulDouble(Pow2(n - t - 1), Pow2(t));
    }
  }

  lemma {:induction false} OneRight(a: nat)
    ensures Mul(a, 1) == a
  {
    if a > 0 {
      OneRight(a - 1);
    }
  }

  // -------------------------------------------------------- the register

  /** A register of `n` qubits holds `1 << n` amplitudes. */
  predicate Register(v: seq<Amp>, n: nat) {
    |v| == Pow2(n)
  }

  /** `QuantumCircuit::new`: the basis state `|0...0>`, all weight on index 0. */
  function New(n: nat): (v: seq<Amp>)
    ensures Register(v, n)
    ensures v[0] == AOne && forall k :: 0 < k < |v| ==> v[k] == AZero
  {
    seq(Pow2(n), k => if k == 0 then AOne else AZero)
  }

  /** The amplitude at `k ^ (1 << t)`. */
  function FlipAt(v: seq<Amp>, n: nat, t: nat, k: nat): Amp
    requires Register(v, n) && t < n && k < |v|
  {
    FlipInRange(k, t, n);
    v[Flip(k, t)]
  }

  /**
   * What a single-qubit gate on qubit `t` leaves at index `k`: the index
   * with bit `t` clear is the first row of the gate applied to the pair,
   * its partner with bit `t` set the second row.
   */
  function Applied(v: seq<Amp>, n: nat, t: nat, g: Gate, k: nat): Amp
    requires Register(v, n) && t < n && k < |v|
  {
    if Bit(k, t) == 0 then Mix(g, v[k], FlipAt(v, n, t, k)).0 else Mix(g, FlipAt(v, n, t, k), v[k]).1
  }

  /** The whole vector after a single-qubit gate on qubit `t`. */
  function Gated(v: seq<Amp>, n: nat, t: nat, g: Gate): (r: seq<Amp>)
    requires Register(v, n) && t < n
    ensures Register(r, n)
  {
    seq(|v|, k requires 0 <= k < |v| => Applied(v, n, t, g, k))
  }

  /** Every amplitude moved to its partner across bit `t`. */
  function Flipped(v: seq<Amp>, n: nat, t: nat): (r: seq<Amp>)
    requires Register(v, n) && t < n
    ensures Register(r, n)
  {
    seq(|v|, k requires 0 <= k < |v| => FlipAt(v, n, t, k))
  }

  /**
   * The qubits `apply_cnot_gate` accepts without indexing past the vector:
   * a target inside the register, or a control outside it, which no index
   * has set (`HighBitZero`). Only `c < n <= t` reaches an out-of-range swap.
   */
  predicate CnotFits(n: nat, c: nat, t: nat) {
    t < n || n <= c
  }

  /**
   * What `apply_cnot_gate` leaves at index `k`: the amplitudes of `k` and
   * `k ^ (1 << t)` are exchanged when both indices have the control bit set.
   * With both qubits outside the register nothing moves.
   */
  function CnotAt(v: seq<Amp>, n: nat, c: nat, t: nat, k: nat): Amp
    requires Register(v, n) && CnotFits(n, c, t) && k < |v|
  {
    if t < n && Bit(k, c) == 1 && Bit(Flip(k, t), c) == 1 then FlipAt(v, n, t, k) else v[k]
  }

  function CnotOf(v: seq<Amp>, n: nat, c: nat, t: nat): (r: seq<Amp>)
    requires Register(v, n) && CnotFits(n, c, t)
    ensures Register(r, n)
  {
    seq(|v|, k requires 0 <= k < |v| => CnotAt(v, n, c, t, k))
  }

  // ------------------------------------------------------------- gates

  /**
   * `apply_single_qubit_gate`: blocks of `2 * stride` indices, and inside
   * each block the index `j` paired with `j + stride`. Every index ends up
   * with its `Applied` amplitude, computed from the old vector only.
   */
  method ApplySingleQubitGate(v: seq<Amp>, n: nat, t: nat, g: Gate) returns (r: seq<Amp>)
    requires Register(v, n) && t < n
    ensures r == Gated(v, n, t, g)
  {
    var stride := Pow2(t);
    ghost var blocks := Pow2(n - t - 1);
    Pow2Split(n, t);
    ghost var w := Gated(v, n, t, g);
    r := v;
    var i := 0;
    var b := 0;
    while i < |v|
      invariant |r| == |v| && i == Mul(b, 2 * stride) && i <= |v|
      invariant forall k :: 0 <= k < i ==> r[k] == w[k]
      invariant forall k :: i <= k < |v| ==> r[k] == v[k]
      decreases |v| - i
    {
      MulLtCancel(b, blocks, 2 * stride);
      MulMonotone(b + 1, blocks, 2 * stride);
      r := PairBlock(v, n, t, g, w, r, i, stride, b);
      i := i + 2 * stride;
      b := b + 1;
    }
  }

  /** One block: the inner loop over `j` in `i..i + stride`. */
  method PairBlock(v: seq<Amp>, n: nat, t: nat, g: Gate, ghost w: seq<Amp>, r0: seq<Amp>, i: nat, stride: nat, ghost b: nat)
    returns (r: seq<Amp>)
    requires Register(v, n) && t < n && |r0| == |v| && w == Gated(v, n, t, g)
    requires stride == Pow2(t) && i == Mul(b, 2 * stride) && i + 2 * stride <= |v|
    requires forall k :: 0 <= k < i ==> r0[k] == w[k]
    requires forall k :: i <= k < |v| ==> r0[k] == v[k]
    ensures |r| == |v|
    ensures forall k :: 0 <= k < i + 2 * stride ==> r[k] == w[k]
    ensures forall k :: i + 2 * stride <= k < |v| ==> r[k] == v[k]
  {
    r := r0;
    for j := i to i + stride
      invariant Progress(v, w, r, i, j, stride)
    {
      var amplitude0 := r[j];
      var amplitude1 := r[j + stride];
      var low := Plus(Times(g.g00, amplitude0), Times(g.g01, amplitude1));
      var high := Plus(Times(g.g10, amplitude0), Times(g.g11, amplitude1));
      PairGated(v, n, t, g, w, b, j - i);
      assert low == w[j] && high == w[j + stride];
      var r' := r[j := low][j + stride := high];
      ProgressStep(v, w, r, r', i, j, stride);
      r := r';
    }
  }

  /**
   * The inner loop's invariant at `j`: pairs below `j` hold their gated
   * amplitudes, pairs from `j` on still hold the old ones.
   */
  ghost predicate Progress(v: seq<Amp>, w: seq<Amp>, r: seq<Amp>, i: nat, j: nat, stride: nat) {
    |r| == |v| == |w| && i <= j <= i + stride && i + 2 * stride <= |v| &&
    (forall k :: 0 <= k < j ==> r[k] == w[k]) &&
    (forall k :: i + stride <= k < j + stride ==> r[k] == w[k]) &&
    (forall k :: j <= k < i + stride ==> r[k] == v[k]) &&
    (forall k :: j + stride <= k < |v| ==> r[k] == v[k])
  }

  lemma ProgressStep(v: seq<Amp>, w: seq<Amp>, r: seq<Amp>, r': seq<Amp>, i: nat, j: nat, stride: nat)
    requires Progress(v, w, r, i, j, stride) && j < i + stride
    requires r' == r[j := w[j]][j + stride := w[j + stride]]
    ensures Progress(v, w, r', i, j + 1, stride)
  {
  }

  /** The `r`-th pair of block `b`: the low index has bit `t` clear and the high index is its partner. */
  lemma PairIndices(v: seq<Amp>, n: nat, t: nat, b: nat, r: nat)
    requires Register(v, n) && t < n && r < Pow2(t)
    requires Mul(b, 2 * Pow2(t)) + 2 * Pow2(t) <= |v|
    ensures var j := Mul(b, 2 * Pow2(t)) + r;
      Bit(j, t) == 0 && Flip(j, t) == j + Pow2(t) && Bit(j + Pow2(t), t) == 1 && Flip(j + Pow2(t), t) == j
  {
    var j := Mul(b, 2 * Pow2(t)) + r;
    BlockBits(b, r, t);
    FlipMoves(j, t);
    FlipBit(j, t, t);
    FlipFlip(j, t);
  }

  /** The two amplitudes the `r`-th pair of block `b` receives. */
  lemma PairGated(v: seq<Amp>, n: nat, t: nat, g: Gate, w: seq<Amp>, b: nat, r: nat)
    requires Register(v, n) && t < n && r < Pow2(t) && w == Gated(v, n, t, g)
    requires Mul(b, 2 * Pow2(t)) + 2 * Pow2(t) <= |v|
    ensures var j, s := Mul(b, 2 * Pow2(t)) + r, Pow2(t);
      w[j] == Plus(Times(g.g00, v[j]), Times(g.g01, v[j + s])) &&
      w[j + s] == Plus(Times(g.g10, v[j]), Times(g.g11, v[j + s]))
  {
    var j, s := Mul(b, 2 * Pow2(t)) + r, Pow2(t);
    PairIndices(v, n, t, b, r);
    assert FlipAt(v, n, t, j) == v[j + s] && FlipAt(v, n, t, j + s) == v[j];
    assert w[j] == Applied(v, n, t, g, j) && w[j + s] == Applied(v, n, t, g, j + s);
  }
  // -------------------------------------------------------- Pauli-X

  /** `x(t)`: the single-qubit gate with `PAULI_X`. */
  method X(v: seq<Amp>, n: nat, t: nat) returns (r: seq<Amp>)
    requires Register(v, n) && t < n
    ensures r == Flipped(v, n, t)
  {
    r := ApplySingleQubitGate(v, n, t, PauliX);
    PauliXFlips(v, n, t);
  }

  /** With `PAULI_X` every index receives its partner's amplitude. */
  lemma PauliXFlips(v: seq<Amp>, n: nat, t: nat)
    requires Register(v, n) && t < n
    ensures Gated(v, n, t, PauliX) == Flipped(v, n, t)
  {
    forall k | 0 <= k < |v|
      ensures Applied(v, n, t, PauliX, k) == FlipAt(v, n, t, k)
    {
      PauliXSwaps(v[k], FlipAt(v, n, t, k));
      PauliXSwaps(FlipAt(v, n, t, k), v[k]);
    }
  }

  /** Pauli-X twice restores the vector. */
  lemma FlippedTwice(v: seq<Amp>, n: nat, t: nat)
    requires Register(v, n) && t < n
    ensures Flipped(Flipped(v, n, t), n, t) == v
  {
    var w := Flipped(v, n, t);
    forall k | 0 <= k < |v|
      ensures Flipped(w, n, t)[k] == v[k]
    {
      FlipFlip(k, t);
      FlipInRange(k, t, n);
    }
  }

  /** `x(t)` on `|0...0>` gives the basis state with only bit `t` set. */
  lemma XOnNew(n: nat, t: nat)
    requires t < n
    ensures forall k :: 0 <= k < Pow2(n) ==> Flipped(New(n), n, t)[k] == if k == Pow2(t) then AOne else AZero
  {
    ZeroBits(t);
    FlipMoves(0, t);
    var v := New(n);
    forall k | 0 <= k < Pow2(n)
      ensures Flipped(v, n, t)[k] == if k == Pow2(t) then AOne else AZero
    {
      FlipFlip(k, t);
      FlipFlip(0, t);
      FlipInRange(k, t, n);
      assert Flipped(v, n, t)[k] == v[Flip(k, t)];
    }
  }

  // ------------------------------------------------------------- CNOT

  /**
   * `apply_cnot_gate`: for each index with the control bit set, swap it
   * with its partner across the target bit when it is the smaller of the two.
   */
  method ApplyCnotGate(v: seq<Amp>, n: nat, c: nat, t: nat) returns (r: seq<Amp>)
    requires Register(v, n) && CnotFits(n, c, t)
    ensures r == CnotOf(v, n, c, t)
  {
    r := v;
    for i := 0 to |v|
      invariant CnotProgress(v, r, n, c, t, i)
    {
      var r' := r;
      if n <= c {
        HighBitZero(i, c, n);
      }
      if Bit(i, c) == 1 {
        var j := Flip(i, t);
        if i < j {
          FlipInRange(i, t, n);
          r' := r[i := r[j]][j := r[i]];
        }
      }
      CnotStep(v, r, r', n, c, t, i);
      r := r';
    }
    CnotDone(v, r, n, c, t);
  }

  /** The pair of `m` has been swapped by the time the loop reaches `i`. */
  predicate Swapped(m: nat, c: nat, t: nat, i: nat) {
    Bit(m, c) == 1 && Bit(Flip(m, t), c) == 1 && (m < i || Flip(m, t) < i)
  }

  ghost predicate CnotProgress(v: seq<Amp>, r: seq<Amp>, n: nat, c: nat, t: nat, i: nat)
    requires Register(v, n) && CnotFits(n, c, t)
  {
    |r| == |v| && i <= |v| &&
    forall m :: 0 <= m < |v| ==> r[m] == if t < n && Swapped(m, c, t, i) then FlipAt(v, n, t, m) else v[m]
  }

  /** One loop round keeps `CnotProgress`; with both qubits outside the register it changes nothing. */
  lemma CnotStep(v: seq<Amp>, r: seq<Amp>, r': seq<Amp>, n: nat, c: nat, t: nat, i: nat)
    requires Register(v, n) && CnotFits(n, c, t) && i < |v| && CnotProgress(v, r, n, c, t, i)
    requires r' == if Bit(i, c) == 1 && i < Flip(i, t) < |v| then r[i := r[Flip(i, t)]][Flip(i, t) := r[i]] else r
    ensures CnotProgress(v, r', n, c, t, i + 1)
  {
    if t < n {
      CnotSwapStep(v, r, r', n, c, t, i);
    } else {
      HighBitZero(i, c, n);
    }
  }

  /** One loop round with the target inside the register: the pair of `i` is swapped once, when `i` is its smaller index. */
  lemma CnotSwapStep(v: seq<Amp>, r: seq<Amp>, r': seq<Amp>, n: nat, c: nat, t: nat, i: nat)
    requires Register(v, n) && t < n && i < |v| && CnotProgress(v, r, n, c, t, i)
    requires r' == if Bit(i, c) == 1 && i < Flip(i, t) < |v| then r[i := r[Flip(i, t)]][Flip(i, t) := r[i]] else r
    ensures CnotProgress(v, r', n, c, t, i + 1)
  {
    var j := Flip(i, t);
    FlipInRange(i, t, n);
    FlipFlip(i, t);
    FlipMoves(i, t);
    FlipBit(i, t, c);
    forall m | 0 <= m < |v|
      ensures r'[m] == if Swapped(m, c, t, i + 1) then FlipAt(v, n, t, m) else v[m]
    {
      FlipFlip(m, t);
      FlipInRange(m, t, n);
      if m != i && m != j {
        assert Swapped(m, c, t, i + 1) == Swapped(m, c, t, i);
      }
    }
  }

  /** When the loop has passed every index, `CnotOf` is what it leaves. */
  lemma CnotDone(v: seq<Amp>, r: seq<Amp>, n: nat, c: nat, t: nat)
    requires Register(v, n) && CnotFits(n, c, t) && CnotProgress(v, r, n, c, t, |v|)
    ensures r == CnotOf(v, n, c, t)
  {
    forall m | 0 <= m < |v|
      ensures r[m] == CnotOf(v, n, c, t)[m]
    {
      if t < n {
        FlipInRange(m, t, n);
      }
    }
  }

  /** A control qubit outside the register is never set: CNOT leaves the vector as it was. */
  lemma CnotOutsideControl(v: seq<Amp>, n: nat, c: nat, t: nat)
    requires Register(v, n) && n <= c
    ensures CnotOf(v, n, c, t) == v
  {
    forall k | 0 <= k < |v|
      ensures CnotOf(v, n, c, t)[k] == v[k]
    {
      HighBitZero(k, c, n);
    }
  }

  /** For distinct qubits, CNOT flips the target bit of exactly the indices with the control bit set. */
  lemma CnotFlipsTarget(v: seq<Amp>, n: nat, c: nat, t: nat)
    requires Register(v, n) && t < n && c != t
    ensures forall k :: 0 <= k < |v| ==> CnotOf(v, n, c, t)[k] == if Bit(k, c) == 1 then FlipAt(v, n, t, k) else v[k]
  {
    forall k | 0 <= k < |v|
      ensures Bit(Flip(k, t), c) == Bit(k, c)
    {
      FlipBit(k, t, c);
    }
  }

  /** With control and target the same qubit no pair qualifies: the vector is unchanged. */
  lemma CnotSameQubit(v: seq<Amp>, n: nat, t: nat)
    requires Register(v, n) && t < n
    ensures CnotOf(v, n, t, t) == v
  {
    forall k | 0 <= k < |v|
      ensures CnotOf(v, n, t, t)[k] == v[k]
    {
      FlipBit(k, t, t);
    }
  }

  /** CNOT twice restores the vector: each pair is exchanged once and back. */
  lemma CnotTwice(v: seq<Amp>, n: nat, c: nat, t: nat)
    requires Register(v, n) && CnotFits(n, c, t)
    ensures CnotOf(CnotOf(v, n, c, t), n, c, t) == v
  {
    var w := CnotOf(v, n, c, t);
    forall k | 0 <= k < |v|
      ensures CnotOf(w, n, c, t)[k] == v[k]
    {
      if t < n {
        FlipFlip(k, t);
        FlipInRange(k, t, n);
      }
    }
  }

  /** CNOT leaves `|0...0>` alone: index 0 has no control bit and no partner of a swapped index is 0. */
  lemma CnotOnNew(n: nat, c: nat, t: nat)
    requires CnotFits(n, c, t)
    ensures CnotOf(New(n), n, c, t) == New(n)
  {
    var v := New(n);
    ZeroBits(c);
    forall k | 0 <= k < |v|
      ensures CnotOf(v, n, c, t)[k] == v[k]
    {
      if t < n && Bit(k, c) == 1 && Bit(Flip(k, t), c) == 1 {
        FlipInRange(k, t, n);
        assert k != 0 && Flip(k, t) != 0;
      }
    }
  }
}
