/**
 * The grayscale post-filter: an in-place pass over the canvas's RGBA byte
 * buffer that replaces red, green and blue by the pixel's luminance
 * 0.3 R + 0.59 G + 0.11 B and leaves alpha alone.
 *
 * The weights are exact hundredths. The buffer is a clamped byte array, so a
 * stored value is rounded to the nearest integer, halves to the even one.
 */
module ColorFilters {

  newtype byte = x: int | 0 <= x < 256

  /** The luminance of a pixel in hundredths: 30 R + 59 G + 11 B. */
  function Weighted(r: byte, g: byte, b: byte): int
  {
    30 * r as int + 59 * g as int + 11 * b as int
  }

  /** The integer a clamped byte array keeps for n / 100: nearest, halves to even. */
  function RoundHundredths(n: int): int
  {
    var q, rem := n / 100, n % 100;
    if rem > 50 || (rem == 50 && q % 2 == 1) then q + 1 else q
  }

  function Min3(a: byte, b: byte, c: byte): byte
  {
    if a <= b && a <= c then a else if b <= c then b else c
  }

  function Max3(a: byte, b: byte, c: byte): byte
  {
    if a >= b && a >= c then a else if b >= c then b else c
  }

  /** Since the weights sum to one, the grey value lies between the pixel's darkest and brightest channel. */
  lemma GreyWithin(r: byte, g: byte, b: byte)
    ensures Min3(r, g, b) as int <= RoundHundredths(Weighted(r, g, b)) <= Max3(r, g, b) as int
  {
    var n := Weighted(r, g, b);
    var lo, hi := Min3(r, g, b) as int, Max3(r, g, b) as int;
    assert 100 * lo <= n <= 100 * hi;
    var q, rem := n / 100, n % 100;
    assert n == 100 * q + rem && 0 <= rem < 100;
    assert lo <= q <= hi;
    if rem > 0 {
      assert q < hi;
    }
  }

  /** The value written to red, green and blue. */
  function Grey(r: byte, g: byte, b: byte): (v: byte)
    ensures Min3(r, g, b) <= v <= Max3(r, g, b)
  {
    GreyWithin(r, g, b);
    RoundHundredths(Weighted(r, g, b)) as byte
  }

  /** A pixel that is already grey keeps its value. */
  lemma GreyOfGrey(c: byte)
    ensures Grey(c, c, c) == c
  {
    assert Weighted(c, c, c) == 100 * c as int;
  }

  /** Byte k of the buffer after the pass over s: alpha as it was, a colour channel the pixel's grey. */
  function FilteredByte(s: seq<byte>, k: nat): (b: byte)
    requires |s| % 4 == 0 && k < |s|
  {
    var start := k - k % 4;
    if k % 4 == 3 then s[k] else Grey(s[start], s[start + 1], s[start + 2])
  }

  /** An alpha byte is kept; a colour byte lies between its pixel's darkest and brightest colour channel. */
  lemma FilteredByteWithin(s: seq<byte>, k: nat)
    requires |s| % 4 == 0 && k < |s|
    ensures var start := k - k % 4;
            if k % 4 == 3 then FilteredByte(s, k) == s[k]
            else Min3(s[start], s[start + 1], s[start + 2]) <= FilteredByte(s, k) <= Max3(s[start], s[start + 1], s[start + 2])
  {
  }

  /** The whole buffer after the pass. */
  function Grayscaled(s: seq<byte>): (t: seq<byte>)
    requires |s| % 4 == 0
    ensures |t| == |s|
  {
    seq(|s|, k requires 0 <= k < |s| => FilteredByte(s, k))
  }

  lemma GrayscaledAt(s: seq<byte>, k: nat)
    requires |s| % 4 == 0 && k < |s|
    ensures Grayscaled(s)[k] == FilteredByte(s, k)
  {
  }

  /** The four bytes of the pixel starting at i, for i a multiple of 4 inside a whole-pixel buffer. */
  lemma PixelBytes(n: nat, i: nat)
    requires n % 4 == 0 && i % 4 == 0 && i < n
    ensures i + 3 < n
    ensures (i + 1) % 4 == 1 && (i + 2) % 4 == 2 && (i + 3) % 4 == 3
  {
    var a, b := n / 4, i / 4;
    assert n == 4 * a && i == 4 * b;
    assert b + 1 <= a;
  }

  /** The four filtered bytes of the pixel starting at i. */
  lemma PixelFiltered(s: seq<byte>, i: nat)
    requires |s| % 4 == 0 && i % 4 == 0 && i < |s|
    ensures i + 3 < |s|
    ensures var v := Grey(s[i], s[i + 1], s[i + 2]);
            FilteredByte(s, i) == v && FilteredByte(s, i + 1) == v && FilteredByte(s, i + 2) == v &&
            FilteredByte(s, i + 3) == s[i + 3]
  {
    PixelBytes(|s|, i);
  }

  /**
   * grayscaleEffect's loop: for each pixel start i (a multiple of 4 below the
   * length) write the grey value to bytes i, i+1, i+2.
   */
  method GrayscaleEffect(pixels: array<byte>)
    requires pixels.Length % 4 == 0
    modifies pixels
    ensures pixels[..] == Grayscaled(old(pixels[..]))
  {
    ghost var original := pixels[..];
    var i, n := 0, pixels.Length;
    while i < n
      invariant 0 <= i <= n && i % 4 == 0
      invariant forall k :: 0 <= k < i ==> pixels[k] == FilteredByte(original, k)
      invariant forall k :: i <= k < n ==> pixels[k] == original[k]
    {
      PixelBytes(n, i);
      var grayscale := Grey(pixels[i], pixels[i + 1], pixels[i + 2]);
      pixels[i] := grayscale;      // red
      pixels[i + 1] := grayscale;  // green
      pixels[i + 2] := grayscale;  // blue
      PixelFiltered(original, i);
      i := i + 4;
    }
  }

  /** After the pass every pixel has R = G = B, the grey of its own original channels, and its old alpha. */
  lemma GrayscaledPixel(s: seq<byte>, p: nat)
    requires |s| % 4 == 0 && 4 * p < |s|
    ensures var t, i := Grayscaled(s), 4 * p;
            var v := Grey(s[i], s[i + 1], s[i + 2]);
            t[i] == v && t[i + 1] == v && t[i + 2] == v && t[i + 3] == s[i + 3]
  {
    var i := 4 * p;
    PixelBytes(|s|, i);
    GrayscaledAt(s, i);
    GrayscaledAt(s, i + 1);
    GrayscaledAt(s, i + 2);
    GrayscaledAt(s, i + 3);
  }

  /** A pixel's output depends on that pixel's four input bytes alone, not on other pixels. */
  lemma GrayscaledIsLocal(s: seq<byte>, s': seq<byte>, p: nat)
    requires |s| % 4 == 0 && |s'| == |s| && 4 * p < |s|
    requires forall k :: 4 * p <= k < 4 * p + 4 ==> s[k] == s'[k]
    ensures forall k :: 4 * p <= k < 4 * p + 4 ==> Grayscaled(s)[k] == Grayscaled(s')[k]
  {
    var i := 4 * p;
    PixelBytes(|s|, i);
    assert s[i] == s'[i] && s[i + 1] == s'[i + 1] && s[i + 2] == s'[i + 2] && s[i + 3] == s'[i + 3];
    GrayscaledPixel(s, p);
    GrayscaledPixel(s', p);
    forall k | i <= k < i + 4
      ensures Grayscaled(s)[k] == Grayscaled(s')[k]
    {
      assert k == i || k == i + 1 || k == i + 2 || k == i + 3;
    }
  }

  /** A second pass changes nothing: every pixel is already grey. */
  lemma GrayscaleIdempotent(s: seq<byte>)
    requires |s| % 4 == 0
    ensures Grayscaled(Grayscaled(s)) == Grayscaled(s)
  {
    forall k | 0 <= k < |s|
      ensures Grayscaled(Grayscaled(s))[k] == Grayscaled(s)[k]
    {
      GrayscaledTwiceAt(s, k);
    }
  }

  lemma GrayscaledTwiceAt(s: seq<byte>, k: nat)
    requires |s| % 4 == 0 && k < |s|
    ensures Grayscaled(Grayscaled(s))[k] == Grayscaled(s)[k]
  {
    var t := Grayscaled(s);
    var p := k / 4;
    var i := 4 * p;
    assert i <= k < i + 4;
    GrayscaledPixel(s, p);
    GrayscaledPixel(t, p);
    GreyOfGrey(t[i]);
  }

  /** A pixel of (100, 150, 200) becomes 140 in all three channels: 140.5 rounds to the even 140. */
  lemma GreyExample()
    ensures Grey(100, 150, 200) == 140
  {
    assert Weighted(100, 150, 200) == 14050;
  }
}
