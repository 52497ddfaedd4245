/**
 * The pixel buffer of the LPD8806 LED strip driver (LED/notification.py):
 * three bytes per pixel in green, red, blue order, each with its top bit
 * set as the strip's protocol requires. Python integers are unbounded, so
 * the stored values are `int`; `show` later sends only the low eight bits
 * of each.
 */
module PixelStrip {
  import opened Wrappers

  function Pow2(k: nat): (p: nat)
    ensures p >= 1
  {
    if k == 0 then 1 else 2 * Pow2(k - 1)
  }

  /** Bit 7 of a Python integer (two's complement for negative ones). */
  function Bit7(x: int): int {
    (x / 128) % 2
  }

  /** `x | 0x80` on a Python integer: bit 7 set, every other bit kept. */
  function Or128(x: int): (r: int)
    ensures Bit7(r) == 1
    ensures r == x || r == x + 128
    ensures Bit7(x) == 1 ==> r == x
  {
    if Bit7(x) == 1 then x else x + 128
  }

  /** `x >> k` on a Python integer: division rounded down. */
  function Shr(x: int, k: nat): int {
    x / Pow2(k)
  }

  /** `x | y` on Python integers, bit by bit (two's complement for negative ones). */
  function OrInt(x: int, y: int): int
    decreases Abs(x) + Abs(y)
  {
    if x == 0 || y == -1 then y
    else if y == 0 || x == -1 then x
    else 2 * OrInt(x / 2, y / 2) + (if x % 2 == 1 || y % 2 == 1 then 1 else 0)
  }

  function Abs(x: int): nat {
    if x < 0 then -x else x
  }

  /** Or-ing a value below 2^k into a multiple of 2^k just adds it. */
  lemma {:induction false} OrIntoZeroBits(a: nat, c: nat, k: nat)
    requires c < Pow2(k)
    ensures OrInt(a * Pow2(k), c) == a * Pow2(k) + c
    decreases k
  {
    if k > 0 && a > 0 && c > 0 {
      var h := Pow2(k - 1);
      assert a * Pow2(k) == 2 * (a * h);
      assert (a * Pow2(k)) / 2 == a * h && (a * Pow2(k)) % 2 == 0;
      OrIntoZeroBits(a, c / 2, k - 1);
    }
  }

  /**
   * `color(r, g, b)`: ((g | 0x80) << 16) | ((r | 0x80) << 8) | (b | 0x80),
   * built the way the source builds it, for any Python integers. With byte
   * components the three marked bytes sit side by side: green, red, blue.
   */
  function Color(r: int, g: int, b: int): (c: int)
    ensures 0 <= r < 256 && 0 <= g < 256 && 0 <= b < 256 ==>
              c == Or128(g) * 65536 + Or128(r) * 256 + Or128(b)
  {
    var x := Or128(g) * 256;
    var y := OrInt(x, Or128(r)) * 256;
    if 0 <= r < 256 && 0 <= g < 256 && 0 <= b < 256 then
      var G, R, B := Or128(g), Or128(r), Or128(b);
      assert Pow2(8) == 256;
      OrIntoZeroBits(G, R, 8);
      OrIntoZeroBits(G * 256 + R, B, 8);
      OrInt(y, B)
    else
      OrInt(y, Or128(b))
  }

  /** Each marked byte of a byte-component colour reads back on its own. */
  lemma ColorBytes(r: nat, g: nat, b: nat)
    requires r < 256 && g < 256 && b < 256
    ensures Color(r, g, b) / 65536 == Or128(g)
    ensures (Color(r, g, b) / 256) % 256 == Or128(r)
    ensures Color(r, g, b) % 256 == Or128(b)
  {
    var G, R, B := Or128(g), Or128(r), Or128(b);
    assert G < 256 && R < 256 && B < 256;
    ThreeBytes(G, R, B);
  }

  /** Three bytes placed side by side read back one by one. */
  lemma ThreeBytes(hi: nat, mid: nat, lo: nat)
    requires hi < 256 && mid < 256 && lo < 256
    ensures (hi * 256 + mid) * 256 + lo == hi * 65536 + mid * 256 + lo
    ensures (hi * 65536 + mid * 256 + lo) / 65536 == hi
    ensures ((hi * 65536 + mid * 256 + lo) / 256) % 256 == mid
    ensures (hi * 65536 + mid * 256 + lo) % 256 == lo
  {
    var m := hi * 256 + mid;
    assert m * 256 + lo == hi * 65536 + mid * 256 + lo;
    assert (m * 256 + lo) / 256 == m && (m * 256 + lo) % 256 == lo;
    assert m % 256 == mid;
    assert mid * 256 + lo < 65536;
  }

  /** Every slot is still zero or has its top bit set. */
  predicate Marked(v: int) {
    v == 0 || Bit7(v) == 1
  }

  class Strip {
    const count: nat
    const pixels: array<int>

    /** `__init__`: a buffer of three zeros per pixel. The data and clock pins are not modelled. */
    constructor (count: nat)
      ensures this.count == count && fresh(pixels)
      ensures pixels.Length == 3 * count && forall i :: 0 <= i < pixels.Length ==> pixels[i] == 0
    {
      this.count := count;
      pixels := new int[3 * count](_ => 0);
    }

    /** `numPixels`. */
    function NumPixels(): (n: nat)
      ensures n == count
    {
      count
    }

    /** The pixel a Python index addresses: a negative n counts from the end. */
    function Slot(n: int): (p: nat)
      requires 0 <= n + count && n < count
      ensures p < count
    {
      if n < 0 then n + count else n
    }

    /**
     * `setPixelRGB`: no-op for n >= count; otherwise the pixel's three slots
     * get g | 0x80, r | 0x80, b | 0x80 and nothing else changes. A negative
     * n counts from the end; below -count the first write raises IndexError
     * and nothing changes.
     */
    method SetPixelRGB(n: int, r: int, g: int, b: int) returns (error: Option<string>)
      requires pixels.Length == 3 * count
      modifies pixels
      ensures error.Some? <==> n + count < 0
      ensures error.Some? ==> error.value == "IndexError"
      ensures n >= count || n + count < 0 ==> pixels[..] == old(pixels[..])
      ensures 0 <= n + count && n < count ==>
                pixels[..] == old(pixels[..])[3 * Slot(n) := Or128(g)][3 * Slot(n) + 1 := Or128(r)]
                                              [3 * Slot(n) + 2 := Or128(b)]
      ensures (forall i :: 0 <= i < pixels.Length ==> Marked(old(pixels[i]))) ==>
                forall i :: 0 <= i < pixels.Length ==> Marked(pixels[i])
    {
      if n >= count {
        return None;
      }
      if n + count < 0 {
        return Some("IndexError");
      }
      var p := Slot(n);
      pixels[3 * p] := Or128(g);
      pixels[3 * p + 1] := Or128(r);
      pixels[3 * p + 2] := Or128(b);
      error := None;
    }

    /**
     * `setPixelColor`: no-op for n >= count; otherwise (c >> 16) | 0x80,
     * (c >> 8) | 0x80 and c | 0x80, not masked to eight bits. Below -count
     * the first write raises IndexError and nothing changes.
     */
    method SetPixelColor(n: int, c: int) returns (error: Option<string>)
      requires pixels.Length == 3 * count
      modifies pixels
      ensures error.Some? <==> n + count < 0
      ensures error.Some? ==> error.value == "IndexError"
      ensures n >= count || n + count < 0 ==> pixels[..] == old(pixels[..])
      ensures 0 <= n + count && n < count ==>
                pixels[..] == old(pixels[..])[3 * Slot(n) := Or128(Shr(c, 16))]
                                              [3 * Slot(n) + 1 := Or128(Shr(c, 8))]
                                              [3 * Slot(n) + 2 := Or128(c)]
      ensures (forall i :: 0 <= i < pixels.Length ==> Marked(old(pixels[i]))) ==>
                forall i :: 0 <= i < pixels.Length ==> Marked(pixels[i])
    {
      if n >= count {
        return None;
      }
      if n + count < 0 {
        return Some("IndexError");
      }
      var p := Slot(n);
      pixels[3 * p] := Or128(Shr(c, 16));
      pixels[3 * p + 1] := Or128(Shr(c, 8));
      pixels[3 * p + 2] := Or128(c);
      error := None;
    }
  }

  /**
   * Setting a pixel to `color(r, g, b)` puts on the wire what setting it
   * with r, g, b does: the unmasked middle value differs, but its low byte
   * (all that `write8` sends) is the same.
   */
  lemma ColorMatchesRGB(r: nat, g: nat, b: nat)
    requires r < 256 && g < 256 && b < 256
    ensures Or128(Shr(Color(r, g, b), 16)) == Or128(g)
    ensures Or128(Shr(Color(r, g, b), 8)) % 256 == Or128(r)
    ensures Or128(Color(r, g, b)) % 256 == Or128(b)
  {
    var c := Color(r, g, b);
    assert Pow2(8) == 256 && Pow2(16) == 65536;
    var G, R, B := Or128(g), Or128(r), Or128(b);
    assert 128 <= G < 256 && 128 <= R < 256 && 128 <= B < 256;
    var m := G * 256 + R;
    assert c == m * 256 + B;
    LowByteMarked(0, G);
    assert Shr(c, 16) == G;
    LowByteMarked(m, B);
    assert Shr(c, 8) == m;
    LowByteMarked(G, R);
  }

  /** A value whose low byte has its top bit set is left alone by `| 0x80`, and keeps that low byte. */
  lemma LowByteMarked(hi: nat, lo: nat)
    requires 128 <= lo < 256
    ensures Or128(hi * 256 + lo) == hi * 256 + lo
    ensures (hi * 256 + lo) % 256 == lo && (hi * 256 + lo) / 256 == hi
  {
    assert (hi * 256 + lo) / 128 == hi * 2 + 1;
  }
}
