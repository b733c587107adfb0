/**
 * The Game-of-Life example (`examples/moma_conways_game_of_life/src/main.rs`):
 * a 320-by-240 torus automaton of the same kind as `Automaton.StepTorus`,
 * drawn into an RGBA frame through a palette of random colours.
 *
 * The palette's random generator (ChaCha8 seeded with 1337) is outside the
 * model: `draw(j)` stands for the `j`-th value it yields for
 * `gen_range(50..=255)`.
 */
module GameOfLife {
  import opened Arith
  import opened Automaton

  type Byte = x: nat | x < 256

  /** One `[u8; 4]` colour: red, green, blue, alpha. */
  type Rgba = c: seq<Byte> | |c| == 4 witness [0, 0, 0, 0]

  /** A value of `gen_range(50..=255)`. */
  type Channel = x: nat | 50 <= x <= 255 witness 50

  const Width: nat := 320
  const Height: nat := 240
  const Modulus: nat := 16

  /** Every colour is opaque and no channel is darker than 50. */
  predicate Vivid(palette: seq<Rgba>) {
    forall k :: 0 <= k < |palette| ==>
      palette[k][3] == 0xff && 50 <= palette[k][0] && 50 <= palette[k][1] && 50 <= palette[k][2]
  }

  /**
   * The palette of `main`: one colour per cell state, each drawing red, green
   * and blue from the generator in that order and fixing alpha at `0xff`.
   */
  method MakePalette(modulus: nat, draw: nat -> Channel) returns (palette: seq<Rgba>)
    ensures |palette| == modulus && Vivid(palette)
    ensures forall k :: 0 <= k < modulus ==>
      palette[k][0] == draw(3 * k) && palette[k][1] == draw(3 * k + 1) && palette[k][2] == draw(3 * k + 2)
  {
    palette := [];
    var next := 0;
    while |palette| < modulus
      invariant |palette| <= modulus && next == 3 * |palette| && Vivid(palette)
      invariant forall k :: 0 <= k < |palette| ==>
        palette[k][0] == draw(3 * k) && palette[k][1] == draw(3 * k + 1) && palette[k][2] == draw(3 * k + 2)
    {
      var r := draw(next);
      var g := draw(next + 1);
      var b := draw(next + 2);
      next := next + 3;
      palette := palette + [[r, g, b, 0xff]];
    }
  }

  /** The `i`-th 4-byte chunk of a frame. */
  function Chunk(frame: seq<Byte>, i: nat): seq<Byte>
    requires 4 * i + 4 <= |frame|
  {
    frame[4 * i..4 * i + 4]
  }

  /** `draw` indexes the state and the palette without a bounds failure. */
  predicate Drawable(frame: seq<Byte>, state: seq<U64>, palette: seq<Rgba>) {
    |frame| / 4 <= |state| && forall i :: 0 <= i < |frame| / 4 ==> state[i] < |palette|
  }

  /**
   * `draw`: the `i`-th complete 4-byte chunk of the frame becomes the colour
   * of cell `i`'s state; trailing bytes that do not fill a chunk are left as
   * they were, as `chunks_exact_mut` skips them.
   */
  method Draw(frame: seq<Byte>, state: seq<U64>, palette: seq<Rgba>) returns (out: seq<Byte>)
    requires Drawable(frame, state, palette)
    ensures |out| == |frame|
    ensures forall i :: 0 <= i < |frame| / 4 ==> Chunk(out, i) == palette[state[i]]
    ensures forall j :: 4 * (|frame| / 4) <= j < |frame| ==> out[j] == frame[j]
  {
    out := frame;
    for i := 0 to |frame| / 4
      invariant |out| == |frame|
      invariant forall k :: 0 <= k < i ==> Chunk(out, k) == palette[state[k]]
      invariant forall j :: 4 * i <= j < |frame| ==> out[j] == frame[j]
    {
      var color := palette[state[i]];
      out := CopyChunk(out, i, color);
    }
  }

  /** `copy_from_slice` into chunk `i`: that chunk becomes `color`, every other byte stays. */
  function CopyChunk(frame: seq<Byte>, i: nat, color: Rgba): (r: seq<Byte>)
    requires 4 * i + 4 <= |frame|
    ensures |r| == |frame| && Chunk(r, i) == color
    ensures forall j :: 0 <= j < |frame| && (j < 4 * i || 4 * i + 4 <= j) ==> r[j] == frame[j]
    ensures forall k :: 0 <= k < i ==> Chunk(r, k) == Chunk(frame, k)
  {
    var r := frame[..4 * i] + color + frame[4 * i + 4..];
    assert forall k :: 0 <= k < i ==> Chunk(r, k) == Chunk(frame, k) by {
      forall k | 0 <= k < i
        ensures Chunk(r, k) == Chunk(frame, k)
      {
        assert forall j :: 4 * k <= j < 4 * k + 4 ==> r[j] == frame[j];
      }
    }
    r
  }

  /** In a drawn frame every complete pixel is opaque when the palette is. */
  lemma DrawnOpaque(out: seq<Byte>, state: seq<U64>, palette: seq<Rgba>, i: nat)
    requires Vivid(palette) && 4 * i + 4 <= |out| && i < |state| && state[i] < |palette|
    requires Chunk(out, i) == palette[state[i]]
    ensures out[4 * i + 3] == 0xff
  {
    assert Chunk(out, i)[3] == out[4 * i + 3];
  }

  /**
   * In `main` the frame is the `WIDTH * HEIGHT` RGBA pixel buffer, the state
   * has one cell per pixel, and the palette one colour per state below the
   * modulus: `draw` then never fails.
   */
  lemma MainDrawable(frame: seq<Byte>, t: Torus, palette: seq<Rgba>)
    requires |frame| == 4 * (Width * Height)
    requires TorusValid(t) && t.width == Width && t.height == Height
    requires |palette| == Modulus
    requires forall i :: 0 <= i < |t.state| ==> t.state[i] < Modulus
    ensures Drawable(frame, t.state, palette)
  {
    MulIsProduct(Height, Width);
  }
}
