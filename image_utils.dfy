/**
 * ImageUtils.Argb1555ToRgba8888: every ARGB1555 pixel widened to a 32-bit
 * RGBA8888 word, red in the top byte and alpha in the bottom byte.
 */
module ImageUtils {
  import opened Bytes
  import opened Argb1555

  /** A 5-bit channel scaled to 8 bits: (c * 255) / 31, rounding down. */
  function Expand5(c: nat): (e: nat)
    requires c < 0x20
    ensures e <= 0xFF
    ensures e == 0 <==> c == 0
    ensures e == 0xFF <==> c == 0x1F
  {
    (c * 255) / 31
  }

  /**
   * One pixel: R << 24 | G << 16 | B << 8 | A, where A is 255 when the alpha
   * bit is clear and 0 when it is set (the bit marks a transparent pixel).
   * The shifts are done on a signed 32-bit int and the result reinterpreted
   * as unsigned, which gives the same bits as this sum.
   */
  function Rgba(p: u16): u32
  {
    var a := if A(p) == 0 then 0xFF else 0;
    Expand5(R(p)) * 0x100_0000 + Expand5(G(p)) * 0x1_0000 + Expand5(B(p)) * 0x100 + a
  }

  /** The whole image, pixel by pixel. */
  function Rgba8888(pixels: seq<u16>): (out: seq<u32>)
    ensures |out| == |pixels|
    ensures forall i :: 0 <= i < |pixels| ==> out[i] == Rgba(pixels[i])
  {
    seq(|pixels|, i requires 0 <= i < |pixels| => Rgba(pixels[i]))
  }

  /** ImageUtils.Argb1555ToRgba8888: a fresh array of the same length; the input is only read. */
  method Argb1555ToRgba8888(pixels: array<u16>) returns (outPixels: array<u32>)
    ensures fresh(outPixels)
    ensures outPixels[..] == Rgba8888(pixels[..])
  {
    outPixels := new u32[pixels.Length];
    var i := 0;
    while i < pixels.Length
      invariant i <= pixels.Length
      invariant forall t :: 0 <= t < i ==> outPixels[t] == Rgba(pixels[t])
    {
      outPixels[i] := Rgba(pixels[i]);
      i := i + 1;
    }
  }

  /** A brighter 5-bit channel gives a strictly brighter 8-bit channel. */
  lemma {:induction false} Expand5Monotone(c: nat, d: nat)
    requires c < d < 0x20
    ensures Expand5(c) < Expand5(d)
  {
    assert (c * 255) + 255 <= d * 255;
  }

  /** A word packed from four bytes, high byte first, gives each byte back. */
  lemma {:induction false} WordBytes(r: nat, g: nat, b: nat, a: nat)
    requires r < 0x100 && g < 0x100 && b < 0x100 && a < 0x100
    ensures var w := r * 0x100_0000 + g * 0x1_0000 + b * 0x100 + a;
      && w / 0x100_0000 == r && (w / 0x1_0000) % 0x100 == g && (w / 0x100) % 0x100 == b && w % 0x100 == a
  {
    var w := r * 0x100_0000 + g * 0x1_0000 + b * 0x100 + a;
    assert w == (r * 0x100 + g) * 0x1_0000 + (b * 0x100 + a);
    assert w == ((r * 0x100 + g) * 0x100 + b) * 0x100 + a;
  }

  /** Each byte of the word holds one channel of the pixel, so the pixel can be read back from it. */
  lemma {:induction false} RgbaBytes(p: u16)
    ensures Rgba(p) / 0x100_0000 == Expand5(R(p))
    ensures (Rgba(p) / 0x1_0000) % 0x100 == Expand5(G(p))
    ensures (Rgba(p) / 0x100) % 0x100 == Expand5(B(p))
    ensures Rgba(p) % 0x100 == if A(p) == 0 then 0xFF else 0
  {
    WordBytes(Expand5(R(p)), Expand5(G(p)), Expand5(B(p)), if A(p) == 0 then 0xFF else 0);
  }
}
