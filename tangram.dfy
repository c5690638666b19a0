/** Engine macros, game constants and plain records of the Tangram header. */
module Tangram {

  /** Screen width in pixels (`width`). */
  const Width: nat := 960
  /** Screen height in pixels (`height`). */
  const Height: nat := 720
  /** Target frame rate (`fps`). */
  const Fps: nat := 60
  /** Number of cells of the screen buffer. */
  const Cells: nat := Width * Height

  /** C `unsigned int` and SDL `Uint64`. */
  newtype u32 = x: int | 0 <= x < 0x1_0000_0000
  newtype u64 = x: int | 0 <= x < 0x1_0000_0000_0000_0000

  /** A packed colour held in an `unsigned int`. */
  type Color = bv32

  /** Byte `k` of a packed colour, byte 0 being the least significant. */
  function Byte(c: Color, k: nat): Color
    requires k < 4
  {
    if k == 0 then c & 0xFF
    else if k == 1 then (c >> 8) & 0xFF
    else if k == 2 then (c >> 16) & 0xFF
    else c >> 24
  }

  /** `RGB_TO_BGR`: swaps bytes 0 and 2, keeps byte 1 and clears byte 3. */
  function RgbToBgr(c: Color): (r: Color)
    ensures Byte(r, 0) == Byte(c, 2)
    ensures Byte(r, 1) == Byte(c, 1)
    ensures Byte(r, 2) == Byte(c, 0)
    ensures Byte(r, 3) == 0
  {
    ((c & 0xFF) << 16) | (c & 0xFF00) | ((c & 0xFF0000) >> 16)
  }

  /** Whatever is in bits 24-31 of the input, the result fits in 24 bits. */
  lemma RgbToBgrIs24Bit(c: Color)
    ensures RgbToBgr(c) < 0x100_0000
  {
  }

  /** On 24-bit colours the swap is its own inverse. */
  lemma RgbToBgrInvolution(c: Color)
    requires c < 0x100_0000
    ensures RgbToBgr(RgbToBgr(c)) == c
  {
  }

  /** The `max` macro: one of its arguments, and no smaller than either. */
  function Max(a: int, b: int): (r: int)
    ensures r == a || r == b
    ensures a <= r && b <= r
  {
    if a > b then a else b
  }

  /** The `min` macro: one of its arguments, and no larger than either. */
  function Min(a: int, b: int): (r: int)
    ensures r == a || r == b
    ensures r <= a && r <= b
  {
    if a < b then a else b
  }

  /** The `sign` macro: a unit whose sign is that of `x`, zero counting as positive. */
  function Sign(x: int): (r: int)
    ensures r * r == 1
    ensures r < 0 <==> x < 0
  {
    if x < 0 then -1 else 1
  }

  /** The buffer size that follows from the constants. */
  lemma ScreenConstants()
    ensures Cells == 691200
  {
  }

  /** A drawing position (`Point`); the source holds floats, the model integer-valued ones. */
  datatype Point = Point(x: int, y: int)

  /** A pixel-aligned position or size (`IPoint`). */
  datatype IPoint = IPoint(x: int, y: int)

  /** A decoded image (`TangramTexture`): interleaved RGBA bytes, `w` by `h`. */
  datatype Texture = Texture(data: seq<bv8>, w: int, h: int, channels: int)

  // Integer facts the proofs of the other modules share.

  lemma MulMono(a: int, b: int, c: nat)
    requires a <= b
    ensures a * c <= b * c
  {
  }

  /** Only the zero multiple of n lies strictly between -n and n. */
  lemma SmallMultiple(n: int, x: int)
    requires n > 0 && -n < n * x < n
    ensures x == 0
  {
  }

  /** Adding a multiple of n does not change the remainder modulo n. */
  lemma ModAdd(a: int, b: int, n: int)
    requires n > 0 && a % n == 0
    ensures (a + b) % n == b % n
  {
    var x := (a + b) / n - a / n - b / n;
    assert n * x == n * ((a + b) / n) - n * (a / n) - n * (b / n);
    assert n * x == b % n - (a + b) % n;
    SmallMultiple(n, x);
  }
}
