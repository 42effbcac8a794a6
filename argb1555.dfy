/**
 * The ARGB1555 pixel format every texture of the game uses: bit 15 is the
 * alpha bit, bits 10-14 red, bits 5-9 green and bits 0-4 blue.
 */
module Argb1555 {
  import opened Bytes

  /** (pixel >> 15) & 1 */
  function A(p: u16): nat { p / 0x8000 }

  /** (pixel >> 10) & 0x1F */
  function R(p: u16): nat { (p / 0x400) % 0x20 }

  /** (pixel >> 5) & 0x1F */
  function G(p: u16): nat { (p / 0x20) % 0x20 }

  /** pixel & 0x1F */
  function B(p: u16): nat { p % 0x20 }

  /** (a << 15) | (r << 10) | (g << 5) | b: the fields read back unchanged. */
  function Pack(a: nat, r: nat, g: nat, b: nat): (p: u16)
    requires a < 2 && r < 0x20 && g < 0x20 && b < 0x20
    ensures A(p) == a && R(p) == r && G(p) == g && B(p) == b
  {
    var q := a * 0x20 + r;
    var h := q * 0x20 + g;
    var p := h * 0x20 + b;
    assert p / 0x20 == h;
    assert h / 0x20 == q;
    assert p / 0x400 == q;
    p
  }

  /** The four fields of a pixel are in range and pack back into it. */
  lemma {:induction false} Unpack(p: u16)
    ensures A(p) < 2 && R(p) < 0x20 && G(p) < 0x20 && B(p) < 0x20
    ensures Pack(A(p), R(p), G(p), B(p)) == p
  {
    var h := p / 0x20;
    var q := h / 0x20;
    assert p / 0x400 == q;
    assert q == A(p) * 0x20 + R(p);
    assert h == q * 0x20 + G(p);
    assert p == h * 0x20 + B(p);
  }
}
