/**
 * RGBA pixel buffers as canvases hand them out (`ImageData.data`): four bytes per pixel,
 * pixels in row-major order, and the weighted grayscale conversion both converters use.
 */
module Pixels {
  import opened Numeric

  /** The index of channel `c` (0 red, 1 green, 2 blue, 3 alpha) of pixel `p`. */
  function Ch(p: nat, c: nat): nat { 4 * p + c }

  /** The pixel number of column `x`, row `y` in an image `w` pixels wide. */
  function Px(w: nat, x: nat, y: nat): nat { y * w + x }

  /** The index of channel `c` of the pixel in column `x`, row `y`. */
  function Idx(w: nat, x: nat, y: nat, c: nat): nat { Ch(Px(w, x, y), c) }

  /** Pixels of earlier rows come first: row `y` spans the pixel numbers [y*w, y*w + w). */
  lemma RowBounds(w: nat, x: nat, y: nat)
    requires x < w
    ensures y * w <= Px(w, x, y) < (y + 1) * w
  {
    assert (y + 1) * w == y * w + w;
  }

  /** Multiplying by a natural number keeps order. */
  lemma {:induction false} MulMono(a: nat, b: nat, w: nat)
    requires a <= b
    ensures a * w <= b * w
    decreases b - a
  {
    if a < b {
      MulMono(a, b - 1, w);
      assert b * w == (b - 1) * w + w;
    }
  }

  /** Row-major order of pixel numbers is the order of (row, column). */
  lemma RowMajorOrder(w: nat, x: nat, y: nat, x': nat, y': nat)
    requires x < w && x' < w
    ensures Px(w, x, y) < Px(w, x', y') <==> y < y' || (y == y' && x < x')
  {
    RowBounds(w, x, y);
    RowBounds(w, x', y');
    if y < y' {
      MulMono(y + 1, y', w);
    } else if y' < y {
      MulMono(y' + 1, y, w);
    }
  }

  /** Every pixel of a `w` x `h` image has a number below `w * h`. */
  lemma PxInImage(w: nat, h: nat, x: nat, y: nat)
    requires x < w && y < h
    ensures Px(w, x, y) < w * h
  {
    RowBounds(w, x, y);
    MulMono(y + 1, h, w);
  }

  /** A buffer holding a `w` x `h` RGBA image. */
  predicate IsImage(s: seq<byte>, w: nat, h: nat) { |s| == 4 * (w * h) }

  /** Row `y` lies inside a `w` x `h` image. */
  lemma RowInImage(w: nat, h: nat, y: nat)
    requires y < h
    ensures y * w + w <= w * h
  {
    MulMono(y + 1, h, w);
  }

  /** The pixel below column `x`, row `y` comes one row width later. */
  lemma NextRow(w: nat, x: nat, y: nat)
    ensures Px(w, x, y + 1) == Px(w, x, y) + w
  {
    assert (y + 1) * w == y * w + w;
  }

  /** Pixels at distinct positions of an image have distinct numbers. */
  lemma PxInjective(w: nat, x: nat, y: nat, x': nat, y': nat)
    requires x < w && x' < w
    requires Px(w, x, y) == Px(w, x', y')
    ensures x == x' && y == y'
  {
    RowMajorOrder(w, x, y, x', y');
    RowMajorOrder(w, x', y', x, y);
  }

  /** A buffer of whole pixels. */
  predicate IsRgba(s: seq<byte>) { |s| % 4 == 0 }

  /** A pixel that starts before the end of a whole-pixel buffer ends within it. */
  lemma NextPixel(i: nat, length: nat)
    requires i % 4 == 0 && length % 4 == 0 && i < length
    ensures i + 4 <= length && (i + 4) % 4 == 0
  {
  }

  /** A `w` x `h` image is whole pixels, with `w * h` of them; pixel `p < w * h` lies inside it. */
  lemma ImageIsRgba(s: seq<byte>, w: nat, h: nat)
    requires IsImage(s, w, h)
    ensures IsRgba(s) && |s| / 4 == w * h
    ensures forall p: nat, c: nat {:trigger Ch(p, c)} :: p < w * h && c < 4 ==> Ch(p, c) < |s|
  {
    var n := w * h;
    assert |s| == 4 * n;
  }

  /** Whole pixels after whole pixels are whole pixels. */
  lemma RgbaAppend(a: seq<byte>, b: seq<byte>)
    requires IsRgba(a) && IsRgba(b)
    ensures IsRgba(a + b)
  {
  }

  /**
   * A pass that rewrites a buffer `s0` into `g` pixel by pixel: once red, green and blue of
   * pixel `i` take their new values (alpha being the same in both), the rewritten prefix grows
   * by one pixel.
   */
  lemma PixelSplice(before: seq<byte>, after: seq<byte>, s0: seq<byte>, g: seq<byte>, i: nat)
    requires |s0| == |g| && i + 4 <= |s0| && before == g[..i] + s0[i..]
    requires after == before[i := g[i]][i + 1 := g[i + 1]][i + 2 := g[i + 2]]
    requires s0[i + 3] == g[i + 3]
    ensures after == g[..i + 4] + s0[i + 4..]
  {
  }

  /** ITU-R BT.709 luma, rounded with `Math.round` (the tone pipeline's first stage). */
  function Luma709(r: byte, g: byte, b: byte): (l: byte)
    ensures r == g == b ==> l == r
  {
    RoundByte(0.2126 * r as real + 0.7152 * g as real + 0.0722 * b as real);
    Round(0.2126 * r as real + 0.7152 * g as real + 0.0722 * b as real)
  }

  /** ITU-R BT.601 luma, rounded with `Math.round` (the crop stage's conversion). */
  function Luma601(r: byte, g: byte, b: byte): (l: byte)
    ensures r == g == b ==> l == r
  {
    RoundByte(0.299 * r as real + 0.587 * g as real + 0.114 * b as real);
    Round(0.299 * r as real + 0.587 * g as real + 0.114 * b as real)
  }

  /**
   * The buffer after a grayscale pass with `luma`, built pixel by pixel: red, green and blue
   * of each pixel become `luma` of its old colour and alpha is kept.
   */
  function GrayPass(s: seq<byte>, luma: (byte, byte, byte) -> byte): (r: seq<byte>)
    requires IsRgba(s)
    ensures |r| == |s|
    decreases |s|
  {
    if s == [] then []
    else
      var k := |s| - 4;
      var l := luma(s[k], s[k + 1], s[k + 2]);
      GrayPass(s[..k], luma) + [l, l, l, s[k + 3]]
  }

  /**
   * Pixel by pixel (`i` is the index of a pixel's red byte): after the pass red = green =
   * blue = `luma` of the old colour, and alpha is kept.
   */
  lemma {:induction false} GrayPassAt(s: seq<byte>, luma: (byte, byte, byte) -> byte, i: nat)
    requires IsRgba(s) && i % 4 == 0 && i + 4 <= |s|
    ensures var r := GrayPass(s, luma);
      && r[i] == r[i + 1] == r[i + 2] == luma(s[i], s[i + 1], s[i + 2])
      && r[i + 3] == s[i + 3]
    decreases |s|
  {
    var k := |s| - 4;
    if i < k {
      GrayPassAt(s[..k], luma, i);
    }
  }

  /** Converting a gray buffer again changes nothing, for either luma. */
  lemma {:induction false} GrayPassIdempotent(s: seq<byte>, luma: (byte, byte, byte) -> byte)
    requires IsRgba(s)
    requires luma == Luma709 || luma == Luma601
    ensures GrayPass(GrayPass(s, luma), luma) == GrayPass(s, luma)
    decreases |s|
  {
    if s != [] {
      var k := |s| - 4;
      var g := GrayPass(s, luma);
      GrayPassIdempotent(s[..k], luma);
      assert g[..k] == GrayPass(s[..k], luma);
    }
  }
}
