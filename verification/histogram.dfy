/**
 * The 256-bucket luminance histogram of a gray RGBA buffer and the percentile walk over it
 * (the auto-levels helpers of the tone pipeline, lib/timeless-bw.ts).
 */
module Histogram {
  import opened Numeric
  import opened Pixels

  /** The sum of the buckets. */
  function Sum(h: seq<nat>): nat
  {
    if h == [] then 0 else Sum(h[..|h| - 1]) + h[|h| - 1]
  }

  /** The number of pixels of `s` whose red channel is `v`. */
  function Count(s: seq<byte>, v: int): (n: nat)
    requires IsRgba(s)
    ensures n <= |s| / 4
    decreases |s|
  {
    if s == [] then 0
    else Count(s[..|s| - 4], v) + (if s[|s| - 4] == v then 1 else 0)
  }

  /** The histogram of the red channel: bucket `v` counts the pixels whose red byte is `v`. */
  function HistogramOf(s: seq<byte>): (h: seq<nat>)
    requires IsRgba(s)
    ensures |h| == 256
  {
    seq(256, v requires 0 <= v < 256 => Count(s, v))
  }

  /** Adding one to bucket `l` adds one to the sum. */
  lemma {:induction false} SumBump(a: seq<nat>, b: seq<nat>, l: nat)
    requires |a| == |b| && l < |a|
    requires forall v :: 0 <= v < |a| ==> b[v] == a[v] + (if v == l then 1 else 0)
    ensures Sum(b) == Sum(a) + 1
    decreases |a|
  {
    var k := |a| - 1;
    if l < k {
      SumBump(a[..k], b[..k], l);
    } else {
      assert a[..k] == b[..k];
    }
  }

  /** The buckets add up to the number of pixels. */
  lemma {:induction false} HistogramSum(s: seq<byte>)
    requires IsRgba(s)
    ensures Sum(HistogramOf(s)) == |s| / 4
    decreases |s|
  {
    if s == [] {
      var h := HistogramOf(s);
      assert forall v :: 0 <= v < 256 ==> h[v] == 0;
      ZeroSum(h);
    } else {
      var k := |s| - 4;
      HistogramSum(s[..k]);
      SumBump(HistogramOf(s[..k]), HistogramOf(s), s[k]);
    }
  }

  lemma {:induction false} ZeroSum(h: seq<nat>)
    requires forall v :: 0 <= v < |h| ==> h[v] == 0
    ensures Sum(h) == 0
    decreases |h|
  {
    if h != [] {
      ZeroSum(h[..|h| - 1]);
    }
  }

  /** The prefix sums grow with the prefix. */
  lemma {:induction false} SumPrefixMono(h: seq<nat>, i: nat, j: nat)
    requires i <= j <= |h|
    ensures Sum(h[..i]) <= Sum(h[..j])
    decreases j - i
  {
    if i < j {
      SumPrefixMono(h, i, j - 1);
      assert h[..j][..j - 1] == h[..j - 1];
    }
  }

  /** The prefix `h[0..j)` has not reached `target` yet. */
  predicate Below(h: seq<nat>, target: real, j: nat)
    requires j <= |h|
  {
    (Sum(h[..j]) as real) < target
  }

  /**
   * The walk of `getPercentileIndex` from bucket `idx` on: it stops at the first `idx` whose
   * prefix sum `hist[0..idx)` reaches `target`, or at 255.
   */
  function WalkFrom(h: seq<nat>, target: real, idx: nat): (r: nat)
    requires |h| == 256 && idx <= 255
    ensures idx <= r <= 255
    ensures r < 255 ==> Sum(h[..r]) as real >= target
    ensures forall j :: idx <= j < r ==> Below(h, target, j)
    decreases 255 - idx
  {
    if Sum(h[..idx]) as real >= target || idx == 255 then idx else WalkFrom(h, target, idx + 1)
  }

  /**
   * `getPercentileIndex` with `target = percentile * pixelCount`: the least index up to 255
   * whose prefix sum reaches the target, or 255 when none below 255 does.
   */
  function PercentileIndex(h: seq<nat>, target: real): (r: int)
    requires |h| == 256
    ensures 0 <= r <= 255
    ensures r < 255 ==> Sum(h[..r]) as real >= target
    ensures forall j :: 0 <= j < r ==> Below(h, target, j)
  {
    var idx := WalkFrom(h, target, 0);
    if idx < 0 then 0 else if idx > 255 then 255 else idx
  }

  /** A larger target never gives a smaller index. */
  lemma PercentileMonotone(h: seq<nat>, t1: real, t2: real)
    requires |h| == 256 && t1 <= t2
    ensures PercentileIndex(h, t1) <= PercentileIndex(h, t2)
  {
    var r1, r2 := PercentileIndex(h, t1), PercentileIndex(h, t2);
    // below r1 the prefix sums stay under t1 <= t2, so the walk for t2 cannot stop there
    assert r2 < r1 ==> Below(h, t1, r2);
  }

  /** The three percentiles the pipeline takes are ordered: lo <= median <= hi. */
  lemma PercentilesOrdered(h: seq<nat>, pixelCount: nat)
    requires |h| == 256
    ensures PercentileIndex(h, Target(0.01, pixelCount)) <= PercentileIndex(h, Target(0.5, pixelCount))
    ensures PercentileIndex(h, Target(0.5, pixelCount)) <= PercentileIndex(h, Target(0.99, pixelCount))
  {
    PercentileMonotone(h, Target(0.01, pixelCount), Target(0.5, pixelCount));
    PercentileMonotone(h, Target(0.5, pixelCount), Target(0.99, pixelCount));
  }

  /** `percentile * pixelCount`: the pixel count a percentile search aims for. */
  function Target(percentile: real, pixelCount: nat): real
  {
    percentile * pixelCount as real
  }

  /** `255 / Math.max(1, hi - lo)`: the gain of a levels stretch; never a division by zero. */
  function LevelScale(lo: int, hi: int): (k: real)
    ensures 0.0 < k <= 255.0
    ensures hi - lo >= 1 ==> k * (hi - lo) as real == 255.0
  {
    255.0 / (if hi - lo > 1 then hi - lo else 1) as real
  }

  /** `(value - lo) * scale`: one value shifted by the low level and multiplied by the gain. */
  function Gain(v: real, lo: int, scale: real): real
  {
    (v - lo as real) * scale
  }

  /** `Math.max(0, Math.min(255, (value - lo) * scale))`: the levels stretch of one value. */
  function Stretch(v: real, lo: int, hi: int): (e: real)
    ensures 0.0 <= e <= 255.0
  {
    Clamp(Gain(v, lo, LevelScale(lo, hi)), 0.0, 255.0)
  }

  /** The stretch keeps the order of values. */
  lemma StretchMonotone(v1: real, v2: real, lo: int, hi: int)
    requires v1 <= v2
    ensures Stretch(v1, lo, hi) <= Stretch(v2, lo, hi)
  {
    var k := LevelScale(lo, hi);
    assert (v2 - lo as real) * k - (v1 - lo as real) * k == (v2 - v1) * k;
    assert (v2 - v1) * k >= 0.0;
  }

  /** Values up to `lo` go to black and, when `lo < hi`, values from `hi` on go to white. */
  lemma StretchEnds(v: real, lo: int, hi: int)
    ensures v <= lo as real ==> Stretch(v, lo, hi) == 0.0
    ensures lo < hi && v >= hi as real ==> Stretch(v, lo, hi) == 255.0
  {
    var k := LevelScale(lo, hi);
    if lo < hi && v >= hi as real {
      assert (v - lo as real) * k >= (hi - lo) as real * k;
    }
  }

  /** The first loop of the pipeline: BT.709 gray in place, and the histogram of the result. */
  method GrayscaleAndHistogram(data: array<byte>) returns (hist: array<nat>)
    requires IsRgba(data[..])
    modifies data
    ensures fresh(hist) && hist.Length == 256
    ensures data[..] == GrayPass(old(data[..]), Luma709)
    ensures hist[..] == HistogramOf(data[..])
  {
    hist := new nat[256](_ => 0);
    ghost var s0 := data[..];
    EmptyHistogram(hist[..], GrayPass(s0, Luma709)[..0]);
    var i := 0;
    while i < data.Length
      invariant i <= data.Length && |s0| == data.Length
      invariant GrayPrefix(data[..], hist[..], s0, i)
      invariant fresh(hist)
    {
      GrayPixel(data, hist, i, s0);
      i := i + 4;
    }
    assert GrayPass(s0, Luma709)[..i] == GrayPass(s0, Luma709);
  }

  /**
   * The state of the first loop before the pixel at `i`: the pixels before it are gray, the
   * rest are as they were, and `h` is the histogram of the gray ones.
   */
  ghost predicate GrayPrefix(cur: seq<byte>, h: seq<nat>, s0: seq<byte>, i: nat)
  {
    && IsRgba(s0) && i % 4 == 0 && i <= |s0|
    && cur == GrayPass(s0, Luma709)[..i] + s0[i..]
    && h == HistogramOf(GrayPass(s0, Luma709)[..i])
  }

  /** The histogram of no pixels is all zeros. */
  lemma EmptyHistogram(h: seq<nat>, s: seq<byte>)
    requires s == [] && |h| == 256 && forall v :: 0 <= v < 256 ==> h[v] == 0
    ensures h == HistogramOf(s)
  {
  }

  /** The next pixel's red byte. */
  lemma StepFour(i: int)
    requires i % 4 == 0
    ensures (i + 4) % 4 == 0
  {
  }

  /**
   * One pass of the first loop: the pixel at `i` gets the BT.709 luma of its colour in red,
   * green and blue, and its histogram bucket grows by one.
   */
  method GrayPixel(data: array<byte>, hist: array<nat>, i: nat, ghost s0: seq<byte>)
    requires hist.Length == 256 && hist as object != data
    requires i < data.Length && GrayPrefix(data[..], hist[..], s0, i)
    modifies data, hist
    ensures GrayPrefix(data[..], hist[..], s0, i + 4)
  {
    ghost var g := GrayPass(s0, Luma709);
    GrayPassAt(s0, Luma709, i);
    ghost var before := data[..];
    ghost var hb := hist[..];
    assert before[i] == s0[i] && before[i + 1] == s0[i + 1] && before[i + 2] == s0[i + 2];
    var lum := Luma709(data[i], data[i + 1], data[i + 2]);
    assert lum == g[i];
    data[i] := lum;
    data[i + 1] := lum;
    data[i + 2] := lum;
    assert data[..] == before[i := lum][i + 1 := lum][i + 2 := lum];
    hist[lum] := hist[lum] + 1;
    assert hist[..] == hb[lum := hb[lum] + 1];
    PixelSplice(before, data[..], s0, g, i);
    HistogramStep(hb, hist[..], g, i);
    StepFour(i);
  }

  /** The histogram after one more gray pixel: the bucket of its red byte grows by one. */
  lemma HistogramStep(hb: seq<nat>, ha: seq<nat>, g: seq<byte>, i: nat)
    requires i % 4 == 0 && i + 4 <= |g|
    requires hb == HistogramOf(g[..i]) && ha == hb[g[i] := hb[g[i]] + 1]
    ensures ha == HistogramOf(g[..i + 4])
  {
    forall v | 0 <= v < 256
      ensures ha[v] == Count(g[..i + 4], v)
    {
      CountSnoc(g, i, v);
    }
  }

  /** The histogram count over one more pixel. */
  lemma CountSnoc(g: seq<byte>, i: nat, v: int)
    requires i % 4 == 0 && i + 4 <= |g|
    ensures Count(g[..i + 4], v) == Count(g[..i], v) + (if g[i] == v then 1 else 0)
  {
    assert g[..i + 4][..i] == g[..i];
  }

  /** The percentile walk as the source runs it, on the histogram array. */
  method GetPercentileIndex(hist: array<nat>, pixelCount: nat, percentile: real) returns (r: int)
    requires hist.Length == 256
    ensures r == PercentileIndex(hist[..], Target(percentile, pixelCount))
  {
    ghost var h := hist[..];
    var acc: nat := 0;
    var idx: nat := 0;
    var target := Target(percentile, pixelCount);
    while (acc as real) < target && idx < 255
      invariant idx <= 255
      invariant acc == Sum(h[..idx])
      invariant WalkFrom(h, target, idx) == WalkFrom(h, target, 0)
      decreases 255 - idx
    {
      WalkStep(h, target, idx);
      acc := acc + hist[idx];
      idx := idx + 1;
    }
    assert WalkFrom(h, target, idx) == idx;
    r := if idx < 0 then 0 else if idx > 255 then 255 else idx;
  }

  /** One step of the walk: below the target, the walk moves on and the sum grows by the bucket. */
  lemma WalkStep(h: seq<nat>, target: real, idx: nat)
    requires |h| == 256 && idx < 255 && (Sum(h[..idx]) as real) < target
    ensures WalkFrom(h, target, idx) == WalkFrom(h, target, idx + 1)
    ensures Sum(h[..idx + 1]) == Sum(h[..idx]) + h[idx]
  {
    assert h[..idx + 1][..idx] == h[..idx];
  }
}
