/**
 * Packing a colour sum into a 32-bit RGBA word (src/Color.hpp).
 *
 * Each channel is averaged over the samples, clamped to [0, 0.999],
 * quantised to a byte by `static_cast<uint8_t>(255.999 * x)` and shifted
 * into place; the low byte (alpha) is left 0.
 *
 * The truncation and the byte conversion are written as small recursive
 * functions (`Truncate`, `ByteOf`) whose contracts say what they compute;
 * the solver handles these far better than `.Floor` and `as bv32` next to
 * the bit operations of the packing.
 */
module Colors {

  import opened RealArith
  import opened Vectors

  /** `clamp(x, lo, hi)`, the usual clamp to [lo, hi]; these headers do not define it. */
  function Clamp(x: real, lo: real, hi: real): (r: real)
    requires lo <= hi
    ensures lo <= r <= hi
    ensures lo <= x <= hi ==> r == x
    ensures x < lo ==> r == lo
    ensures hi < x ==> r == hi
  {
    if x < lo then lo else if x > hi then hi else x
  }

  /**
   * Truncation of a value `y` with `k <= y`, counting up from `k`: the
   * largest integer between `k` and 255 that is not above `y`.
   */
  function Truncate(y: real, k: int): (n: int)
    requires 0 <= k <= 255
    requires k as real <= y
    ensures k <= n <= 255
    ensures n as real <= y
    ensures n < 255 ==> y < (n + 1) as real
    decreases 255 - k
  {
    if k == 255 || y < (k + 1) as real then k else Truncate(y, k + 1)
  }

  /** On [0, 256), `Truncate` is the floor, which there is C++'s truncating conversion. */
  lemma TruncateIsFloor(y: real)
    requires 0.0 <= y < 256.0
    ensures Truncate(y, 0) == y.Floor
  {
  }

  /** The value of one channel's byte: `255.999 * clamp(x, 0.0, 0.999)`, truncated. */
  function ByteValue(x: real): (b: int)
    ensures 0 <= b <= 255
    ensures b == (255.999 * Clamp(x, 0.0, 0.999)).Floor
  {
    var y := 255.999 * Clamp(x, 0.0, 0.999);
    TruncateIsFloor(y);
    Truncate(y, 0)
  }

  /** The byte whose value is `n`, as the unsigned 32-bit word it is widened to. */
  function ByteOf(n: int): (b: bv32)
    requires 0 <= n < 256
    ensures b as int == n
    decreases n
  {
    if n == 0 then 0 else ByteOf(n - 1) + 1
  }

  /** `static_cast<uint8_t>(255.999 * clamp(x, 0.0, 0.999))`, widened to `uint32_t`. */
  function ToByte(x: real): (b: bv32)
    ensures b < 256
  {
    ByteOf(ByteValue(x))
  }

  /** `1.0 / samplesPerPixel`. */
  function SampleScale(samplesPerPixel: int): real
    requires samplesPerPixel != 0
  {
    1.0 / samplesPerPixel as real
  }

  /** A channel after `x *= scale`. */
  function Average(x: real, scale: real): real {
    x * scale
  }

  /** The byte value a channel sum ends up as. */
  function ChannelValue(x: real, samplesPerPixel: int): int
    requires samplesPerPixel != 0
  {
    ByteValue(Average(x, SampleScale(samplesPerPixel)))
  }

  /** The same byte, as a word. */
  function ChannelByte(x: real, samplesPerPixel: int): bv32
    requires samplesPerPixel != 0
  {
    ToByte(Average(x, SampleScale(samplesPerPixel)))
  }

  /** The word of a channel holds its byte value. */
  lemma ChannelByteValue(x: real, samplesPerPixel: int)
    requires samplesPerPixel != 0
    ensures ChannelByte(x, samplesPerPixel) as int == ChannelValue(x, samplesPerPixel)
    ensures ChannelByte(x, samplesPerPixel) < 256
  {
  }

  /** The word `convertRGBA` builds from three bytes. */
  function Rgba(rb: bv32, gb: bv32, bb: bv32): bv32 {
    ((((rb << 8) | gb) << 8) | bb) << 8
  }

  /**
   * `convertRGBA(pixelColor, samplesPerPixel)`: the word of the three
   * channel bytes (see `RgbaChannels` for where each byte lands).  The
   * source divides by `samplesPerPixel`; the model requires it to be
   * non-zero.
   */
  method ConvertRGBA(pixelColor: Color, samplesPerPixel: int) returns (c: bv32)
    requires samplesPerPixel != 0
    ensures c == Rgba(ChannelByte(pixelColor.x, samplesPerPixel),
                      ChannelByte(pixelColor.y, samplesPerPixel),
                      ChannelByte(pixelColor.z, samplesPerPixel))
  {
    var r := pixelColor.x;
    var g := pixelColor.y;
    var b := pixelColor.z;

    var scale := SampleScale(samplesPerPixel);
    r := Average(r, scale);
    g := Average(g, scale);
    b := Average(b, scale);

    var rb := ToByte(r);
    var gb := ToByte(g);
    var bb := ToByte(b);
    c := rb;
    c := c << 8;
    c := c | gb;
    c := c << 8;
    c := c | bb;
    c := c << 8;
  }

  /**
   * Unpacking the word gives the three bytes back: R in the top byte, then
   * G, then B, and 0 in the low (alpha) byte.
   */
  lemma RgbaChannels(rb: bv32, gb: bv32, bb: bv32)
    requires rb < 256 && gb < 256 && bb < 256
    ensures Rgba(rb, gb, bb) >> 24 == rb
    ensures (Rgba(rb, gb, bb) >> 16) & 0xFF == gb
    ensures (Rgba(rb, gb, bb) >> 8) & 0xFF == bb
    ensures Rgba(rb, gb, bb) & 0xFF == 0
  {
  }

  /**
   * In the arithmetic of 32-bit words the packed word is
   * R * 2^24 + G * 2^16 + B * 2^8; with bytes below 256 no term wraps.
   */
  lemma RgbaSum(rb: bv32, gb: bv32, bb: bv32)
    requires rb < 256 && gb < 256 && bb < 256
    ensures Rgba(rb, gb, bb) == rb * 0x100_0000 + gb * 0x1_0000 + bb * 0x100
  {
  }

  /** A brighter channel never gives a smaller byte. */
  lemma ByteValueMonotone(x1: real, x2: real)
    requires x1 <= x2
    ensures ByteValue(x1) <= ByteValue(x2)
  {
    var y1 := 255.999 * Clamp(x1, 0.0, 0.999);
    var y2 := 255.999 * Clamp(x2, 0.0, 0.999);
    TruncateMonotone(y1, y2);
  }

  lemma TruncateMonotone(y1: real, y2: real)
    requires 0.0 <= y1 <= y2
    ensures Truncate(y1, 0) <= Truncate(y2, 0)
  {
  }

  /** Averaging over a positive sample count keeps the order of channel sums. */
  lemma ChannelMonotone(x1: real, x2: real, samplesPerPixel: int)
    requires 0 < samplesPerPixel
    requires x1 <= x2
    ensures ChannelValue(x1, samplesPerPixel) <= ChannelValue(x2, samplesPerPixel)
  {
    var scale := SampleScale(samplesPerPixel);
    MulMonotone(scale, x1, x2);
    ByteValueMonotone(Average(x1, scale), Average(x2, scale));
  }

  /** A channel sum that is not positive gives byte 0. */
  lemma DarkChannel(x: real, samplesPerPixel: int)
    requires 0 < samplesPerPixel
    requires x <= 0.0
    ensures ChannelValue(x, samplesPerPixel) == 0
  {
    var scale := SampleScale(samplesPerPixel);
    MulMonotone(scale, x, 0.0);
  }

  /** A channel sum of at least 0.999 per sample saturates at byte 255. */
  lemma SaturatedChannel(x: real, samplesPerPixel: int)
    requires 0 < samplesPerPixel
    requires 0.999 * samplesPerPixel as real <= x
    ensures ChannelValue(x, samplesPerPixel) == 255
  {
    var n := samplesPerPixel as real;
    var scale := SampleScale(samplesPerPixel);
    MulMonotone(scale, 0.999 * n, x);
    assert scale * (0.999 * n) == 0.999;
  }
}
