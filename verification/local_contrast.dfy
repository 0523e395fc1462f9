/**
 * The tiled local-contrast stretch (`applyLocalContrast` in lib/timeless-bw.ts). The image
 * is cut into 64 x 64 tiles, clipped at the right and bottom edges. For each tile, a
 * histogram of its red bytes is built. A scan over that histogram picks a low and a high
 * bucket. Every pixel of the tile is then stretched between them into a fresh buffer:
 * red, green and blue take the stretched value and alpha is copied.
 */
module LocalContrast {
  import opened Numeric
  import opened Pixels
  import opened Histogram

  /** `Math.ceil(n / 64)`: the number of tiles along an edge of `n` pixels. */
  function TileCount(n: nat): (t: nat)
    ensures n <= 64 * t
    ensures t > 0 ==> 64 * (t - 1) < n
  {
    (n + 63) / 64
  }

  /** `Math.min(start + 64, n)`: where a tile starting at `start` ends. */
  function TileEnd(start: nat, n: nat): (e: nat)
    ensures e <= start + 64 && e <= n
    ensures e == start + 64 || e == n
  {
    if start + 64 <= n then start + 64 else n
  }

  /** The RGBA bytes of columns [x0, x1) of row `y`: one contiguous run of the buffer. */
  function RowRun(s: seq<byte>, w: nat, h: nat, x0: nat, x1: nat, y: nat): (r: seq<byte>)
    requires IsImage(s, w, h) && x0 <= x1 <= w && y < h
    ensures |r| == 4 * (x1 - x0) && IsRgba(r)
  {
    RowInImage(w, h, y);
    s[Idx(w, x0, y, 0)..Idx(w, x1, y, 0)]
  }

  /** The pixels of columns [x0, x1) in rows [y0, y), row after row, as the tile loops visit them. */
  function TileRows(s: seq<byte>, w: nat, h: nat, x0: nat, x1: nat, y0: nat, y: nat): (r: seq<byte>)
    requires IsImage(s, w, h) && x0 <= x1 <= w && y0 <= y <= h
    ensures IsRgba(r)
    decreases y - y0
  {
    if y == y0 then []
    else
      var prev := TileRows(s, w, h, x0, x1, y0, y - 1);
      var run := RowRun(s, w, h, x0, x1, y - 1);
      RgbaAppend(prev, run);
      prev + run
  }

  /** Rows [y0, y) of columns [x0, x1) hold `(x1 - x0) * (y - y0)` pixels. */
  lemma {:induction false} TileRowsLength(s: seq<byte>, w: nat, h: nat, x0: nat, x1: nat, y0: nat, y: nat)
    requires IsImage(s, w, h) && x0 <= x1 <= w && y0 <= y <= h
    ensures |TileRows(s, w, h, x0, x1, y0, y)| == 4 * ((x1 - x0) * (y - y0))
    decreases y - y0
  {
    if y > y0 {
      TileRowsLength(s, w, h, x0, x1, y0, y - 1);
      assert (x1 - x0) * (y - y0) == (x1 - x0) * (y - 1 - y0) + (x1 - x0);
    }
  }

  /** The pixels of tile (`tx`, `ty`). */
  function Tile(s: seq<byte>, w: nat, h: nat, tx: nat, ty: nat): (r: seq<byte>)
    requires IsImage(s, w, h) && 64 * tx < w && 64 * ty < h
    ensures IsRgba(r) && |r| > 0
  {
    var x1 := TileEnd(64 * tx, w);
    var y1 := TileEnd(64 * ty, h);
    assert (x1 - 64 * tx) * (y1 - 64 * ty) > 0;
    TileRowsLength(s, w, h, 64 * tx, x1, 64 * ty, y1);
    TileRows(s, w, h, 64 * tx, x1, 64 * ty, y1)
  }

  /** The running sum reaches `t` at bucket `j`: `hist[0] + ... + hist[j] >= t`. */
  predicate Reaches(h: seq<nat>, t: real, j: nat)
    requires j < |h|
  {
    Sum(h[..j + 1]) as real >= t
  }

  /**
   * The scan for `tileLow` and `tileHigh`, from bucket `i` on, with running sum `acc` and
   * the current `tileLow` value `lo`. `tileLow` is taken at a bucket where the running sum
   * reaches the low target only while it is still 0. The scan stops at the first bucket
   * where the running sum reaches the high target; that bucket is `tileHigh`. The
   * `tileHigh === 255` test of the source is always true while the scan runs, since the
   * scan stops as soon as `tileHigh` is set.
   */
  function Scan(h: seq<nat>, lowT: real, highT: real, i: nat, acc: nat, lo: nat): (r: (nat, nat))
    requires |h| == 256 && i <= 256
    decreases 256 - i
  {
    if i == 256 then (lo, 255)
    else
      var acc' := acc + h[i];
      var lo' := if acc' as real >= lowT && lo == 0 then i else lo;
      if acc' as real >= highT then (lo', i) else Scan(h, lowT, highT, i + 1, acc', lo')
  }

  /** The low and high buckets of a tile of `pixels` pixels with histogram `h` (targets 1% and 99%). */
  function TileBounds(h: seq<nat>, pixels: nat): (r: (nat, nat))
    requires |h| == 256
  {
    Scan(h, pixels as real * 0.01, pixels as real * 0.99, 0, 0, 0)
  }

  /** The low and high buckets of tile (`tx`, `ty`). */
  function TileStats(s: seq<byte>, w: nat, h: nat, tx: nat, ty: nat): (r: (nat, nat))
    requires IsImage(s, w, h) && 64 * tx < w && 64 * ty < h
  {
    var t := Tile(s, w, h, tx, ty);
    TileBounds(HistogramOf(t), |t| / 4)
  }

  /**
   * What the scan finds, stated without the scan. `hi` is the first bucket where the running
   * sum reaches the high target. When bucket 0 alone already reaches the low target, `lo` is
   * 1, or 0 when `hi` is 0 too: the `tileLow === 0` test cannot tell "not yet set" from "set
   * to 0", so the low bucket moves on to 1. Otherwise `lo` is the first bucket where the
   * running sum reaches the low target, and it is positive and at most `hi`.
   */
  ghost predicate ScanResult(h: seq<nat>, lowT: real, highT: real, r: (nat, nat))
    requires |h| == 256
  {
    var (lo, hi) := r;
    && hi <= 255 && Reaches(h, highT, hi)
    && (forall j :: 0 <= j < hi ==> !Reaches(h, highT, j))
    && (Reaches(h, lowT, 0) ==> lo == (if hi >= 1 then 1 else 0))
    && (!Reaches(h, lowT, 0) ==>
          && 0 < lo <= hi && Reaches(h, lowT, lo)
          && forall j :: 0 <= j < lo ==> !Reaches(h, lowT, j))
  }

  /** The value of `tileLow` after buckets [0, i) were scanned without reaching the high target. */
  ghost predicate LowSoFar(h: seq<nat>, lowT: real, i: nat, lo: nat)
    requires |h| == 256 && i <= 256
  {
    if i == 0 then lo == 0
    else if Reaches(h, lowT, 0) then lo == (if i >= 2 then 1 else 0)
    else
      || (lo == 0 && forall j :: 0 <= j < i ==> !Reaches(h, lowT, j))
      || (0 < lo < i && Reaches(h, lowT, lo) && forall j :: 0 <= j < lo ==> !Reaches(h, lowT, j))
  }

  /** Adding the next bucket to the running sum. */
  lemma SumNext(h: seq<nat>, i: nat)
    requires i < |h|
    ensures Sum(h[..i + 1]) == Sum(h[..i]) + h[i]
  {
    assert h[..i + 1][..i] == h[..i];
  }

  /** One bucket of the scan keeps `LowSoFar`. */
  lemma LowStep(h: seq<nat>, lowT: real, i: nat, acc: nat, lo: nat)
    requires |h| == 256 && i < 256 && acc == Sum(h[..i]) && LowSoFar(h, lowT, i, lo)
    ensures var acc' := acc + h[i];
      LowSoFar(h, lowT, i + 1, if acc' as real >= lowT && lo == 0 then i else lo)
  {
    SumNext(h, i);
    if i == 1 && Reaches(h, lowT, 0) {
      SumNext(h, 1);
    }
  }

  /** The scan from bucket `i` on finds `ScanResult`. */
  lemma {:induction false} ScanFrom(h: seq<nat>, lowT: real, highT: real, i: nat, acc: nat, lo: nat)
    requires |h| == 256 && i <= 255 && lowT <= highT <= Sum(h) as real
    requires acc == Sum(h[..i]) && LowSoFar(h, lowT, i, lo)
    requires forall j :: 0 <= j < i ==> !Reaches(h, highT, j)
    ensures ScanResult(h, lowT, highT, Scan(h, lowT, highT, i, acc, lo))
    decreases 256 - i
  {
    if (acc + h[i]) as real >= highT {
      ScanHere(h, lowT, highT, i, acc, lo);
    } else {
      var acc', lo' := ScanOn(h, lowT, highT, i, acc, lo);
      ScanFrom(h, lowT, highT, i + 1, acc', lo');
    }
  }

  /** The scan stops at bucket `i` when it reaches the high target there. */
  lemma ScanHere(h: seq<nat>, lowT: real, highT: real, i: nat, acc: nat, lo: nat)
    requires |h| == 256 && i <= 255 && lowT <= highT
    requires acc == Sum(h[..i]) && LowSoFar(h, lowT, i, lo)
    requires forall j :: 0 <= j < i ==> !Reaches(h, highT, j)
    requires (acc + h[i]) as real >= highT
    ensures ScanResult(h, lowT, highT, Scan(h, lowT, highT, i, acc, lo))
  {
    LowStep(h, lowT, i, acc, lo);
    SumNext(h, i);
    ScanUnfold(h, lowT, highT, i, acc, lo);
    ScanStop(h, lowT, highT, i, if (acc + h[i]) as real >= lowT && lo == 0 then i else lo);
  }

  /** The scan moves past bucket `i` when it does not reach the high target there. */
  lemma ScanOn(h: seq<nat>, lowT: real, highT: real, i: nat, acc: nat, lo: nat) returns (acc': nat, lo': nat)
    requires |h| == 256 && i <= 255 && highT <= Sum(h) as real
    requires acc == Sum(h[..i]) && LowSoFar(h, lowT, i, lo)
    requires forall j :: 0 <= j < i ==> !Reaches(h, highT, j)
    requires (acc + h[i]) as real < highT
    ensures i + 1 <= 255 && acc' == acc + h[i] == Sum(h[..i + 1])
    ensures lo' == if acc' as real >= lowT && lo == 0 then i else lo
    ensures LowSoFar(h, lowT, i + 1, lo')
    ensures forall j :: 0 <= j < i + 1 ==> !Reaches(h, highT, j)
    ensures Scan(h, lowT, highT, i, acc, lo) == Scan(h, lowT, highT, i + 1, acc', lo')
  {
    acc' := acc + h[i];
    lo' := if acc' as real >= lowT && lo == 0 then i else lo;
    LowStep(h, lowT, i, acc, lo);
    SumNext(h, i);
    SumAll(h);
    ScanUnfold(h, lowT, highT, i, acc, lo);
  }

  /** The sum of all of `h` taken as a prefix. */
  lemma SumAll(h: seq<nat>)
    ensures Sum(h[..|h|]) == Sum(h)
  {
    assert h[..|h|] == h;
  }

  /** The scan stops at bucket `i`, the first one where the running sum reaches the high target. */
  lemma ScanStop(h: seq<nat>, lowT: real, highT: real, i: nat, lo: nat)
    requires |h| == 256 && i <= 255 && lowT <= highT
    requires LowSoFar(h, lowT, i + 1, lo) && Reaches(h, highT, i)
    requires forall j :: 0 <= j < i ==> !Reaches(h, highT, j)
    ensures ScanResult(h, lowT, highT, (lo, i))
  {
    assert Reaches(h, lowT, i);
  }

  /** The scan over a whole tile histogram finds `ScanResult`; in particular `lo <= hi`. */
  lemma TileBoundsSpec(h: seq<nat>, pixels: nat)
    requires |h| == 256 && Sum(h) == pixels
    ensures var (lo, hi) := TileBounds(h, pixels);
      && ScanResult(h, pixels as real * 0.01, pixels as real * 0.99, (lo, hi))
      && lo <= hi
  {
    ScanFrom(h, pixels as real * 0.01, pixels as real * 0.99, 0, 0, 0);
    var r := TileBounds(h, pixels);
    assert ScanResult(h, pixels as real * 0.01, pixels as real * 0.99, r);
  }

  /** Every tile gets ordered low and high buckets, so its gain `255 / max(1, hi - lo)` is finite. */
  lemma TileStatsOrdered(s: seq<byte>, w: nat, h: nat, tx: nat, ty: nat)
    requires IsImage(s, w, h) && 64 * tx < w && 64 * ty < h
    ensures TileStats(s, w, h, tx, ty).0 <= TileStats(s, w, h, tx, ty).1 <= 255
  {
    var t := Tile(s, w, h, tx, ty);
    HistogramSum(t);
    TileBoundsSpec(HistogramOf(t), |t| / 4);
  }

  /** The stored value of `enhanced`: a `Uint8ClampedArray` store of the stretched value. */
  function Enhanced(v: byte, lo: int, hi: int): byte
  {
    ToClampedByte(Stretch(v as real, lo, hi))
  }

  /**
   * Pixel (`x`, `y`) of the output `r` of the image `s`: red, green and blue hold the
   * stretch of the input red byte between the low and high buckets of the pixel's tile;
   * alpha holds the input alpha.
   */
  ghost predicate Final(r: seq<byte>, s: seq<byte>, w: nat, h: nat, x: nat, y: nat)
    requires IsImage(s, w, h) && |r| == |s| && x < w && y < h
  {
    && Idx(w, x, y, 3) < |s|
    && var (lo, hi) := TileStats(s, w, h, x / 64, y / 64);
       Stretched(r, s, w, x, y, lo, hi)
  }

  /** Pixel (`x`, `y`) of `r` holds the stretch of pixel (`x`, `y`) of `s` between `lo` and `hi`. */
  ghost predicate Stretched(r: seq<byte>, s: seq<byte>, w: nat, x: nat, y: nat, lo: nat, hi: nat)
  {
    && Idx(w, x, y, 3) < |s| && |r| == |s|
    && var e := Enhanced(s[Idx(w, x, y, 0)], lo, hi);
       && r[Idx(w, x, y, 0)] == e && r[Idx(w, x, y, 1)] == e && r[Idx(w, x, y, 2)] == e
       && r[Idx(w, x, y, 3)] == s[Idx(w, x, y, 3)]
  }

  /**
   * Pixel (`x'`, `y'`) was visited before the loops reached tile (`tx`, `ty`), row `y`,
   * column `x`: it lies in an earlier row of tiles, in an earlier tile of this row of tiles,
   * or in this tile before the cursor.
   */
  predicate Done(tx: nat, ty: nat, x: nat, y: nat, x': nat, y': nat)
  {
    || y' < 64 * ty
    || (y' < 64 * ty + 64 && (x' < 64 * tx || (x' < 64 * tx + 64 && (y' < y || (y' == y && x' < x)))))
  }

  /**
   * Every pixel visited so far holds its final value, with the low and high buckets of each
   * tile looked up in the table `st`.
   */
  ghost predicate StoredUpTo(r: seq<byte>, s: seq<byte>, w: nat, h: nat, st: map<(nat, nat), (nat, nat)>,
                             tx: nat, ty: nat, x: nat, y: nat)
  {
    forall x': nat, y': nat :: x' < w && y' < h && Done(tx, ty, x, y, x', y') ==>
      (x' / 64, y' / 64) in st && Stretched(r, s, w, x', y', st[(x' / 64, y' / 64)].0, st[(x' / 64, y' / 64)].1)
  }

  /** Every pixel of the tiles before tile (`tx`, `ty`) holds its final value. */
  ghost predicate TilesBefore(r: seq<byte>, s: seq<byte>, w: nat, h: nat, st: map<(nat, nat), (nat, nat)>, tx: nat, ty: nat)
  {
    StoredUpTo(r, s, w, h, st, tx, ty, 64 * tx, 64 * ty)
  }

  /** Storing pixel (`x`, `y`) of tile (`tx`, `ty`) makes the cursor move one column on. */
  lemma PixelStep(r: seq<byte>, r': seq<byte>, s: seq<byte>, w: nat, h: nat, st: map<(nat, nat), (nat, nat)>,
                  tx: nat, ty: nat, x: nat, y: nat)
    requires IsImage(s, w, h) && |r| == |s|
    requires 64 * tx <= x < 64 * tx + 64 && x < w && 64 * ty <= y < 64 * ty + 64 && y < h
    requires StoredUpTo(r, s, w, h, st, tx, ty, x, y) && (tx, ty) in st
    requires Idx(w, x, y, 3) < |s|
    requires var i := Idx(w, x, y, 0);
      var e := Enhanced(s[i], st[(tx, ty)].0, st[(tx, ty)].1);
      r' == r[i := e][i + 1 := e][i + 2 := e][i + 3 := s[i + 3]]
    ensures StoredUpTo(r', s, w, h, st, tx, ty, x + 1, y)
  {
    assert x / 64 == tx && y / 64 == ty;
    forall x': nat, y': nat | x' < w && y' < h && Done(tx, ty, x + 1, y, x', y')
      ensures (x' / 64, y' / 64) in st && Stretched(r', s, w, x', y', st[(x' / 64, y' / 64)].0, st[(x' / 64, y' / 64)].1)
    {
      if x' != x || y' != y {
        if Px(w, x', y') == Px(w, x, y) {
          PxInjective(w, x', y', x, y);
        }
      }
    }
  }

  /** At the end of a row of the tile the cursor moves to the start of the next row. */
  lemma RowEnd(r: seq<byte>, s: seq<byte>, w: nat, h: nat, st: map<(nat, nat), (nat, nat)>, tx: nat, ty: nat, y: nat)
    requires StoredUpTo(r, s, w, h, st, tx, ty, TileEnd(64 * tx, w), y)
    ensures StoredUpTo(r, s, w, h, st, tx, ty, 64 * tx, y + 1)
  {
  }

  /** After the last row of a tile the cursor moves to the next tile of the row of tiles. */
  lemma TileDone(r: seq<byte>, s: seq<byte>, w: nat, h: nat, st: map<(nat, nat), (nat, nat)>, tx: nat, ty: nat)
    requires StoredUpTo(r, s, w, h, st, tx, ty, 64 * tx, TileEnd(64 * ty, h))
    ensures TilesBefore(r, s, w, h, st, tx + 1, ty)
  {
  }

  /** After the last tile of a row of tiles the cursor moves to the next row of tiles. */
  lemma TileRowDone(r: seq<byte>, s: seq<byte>, w: nat, h: nat, st: map<(nat, nat), (nat, nat)>, ty: nat)
    requires TilesBefore(r, s, w, h, st, TileCount(w), ty)
    ensures TilesBefore(r, s, w, h, st, 0, ty + 1)
  {
  }

  /** `tileHist[value]++` for one more pixel of the tile, whose red byte is `value`. */
  lemma HistogramSnoc(a: seq<byte>, b: seq<byte>, v: byte, before: seq<nat>, after: seq<nat>)
    requires IsRgba(a) && |b| == 4 && b[0] == v
    requires before == HistogramOf(a) && after == before[v := before[v] + 1]
    ensures IsRgba(a + b) && after == HistogramOf(a + b)
  {
    assert (a + b)[..|a + b| - 4] == a;
  }

  /** The histogram loops of one tile: bucket counts of the tile's red bytes and the pixel count. */
  method TileHistogram(data: array<byte>, width: nat, height: nat, startX: nat, endX: nat, startY: nat, endY: nat)
    returns (tileHist: array<nat>, tilePixels: nat)
    requires IsImage(data[..], width, height) && startX <= endX <= width && startY <= endY <= height
    ensures fresh(tileHist) && tileHist.Length == 256
    ensures tileHist[..] == HistogramOf(TileRows(data[..], width, height, startX, endX, startY, endY))
    ensures tilePixels == |TileRows(data[..], width, height, startX, endX, startY, endY)| / 4
  {
    ghost var s := data[..];
    tileHist := EmptyHistogram();
    tilePixels := 0;
    var y := startY;
    while y < endY
      invariant startY <= y <= endY && fresh(tileHist) && data[..] == s
      invariant tileHist[..] == HistogramOf(TileRows(s, width, height, startX, endX, startY, y))
      invariant tilePixels == |TileRows(s, width, height, startX, endX, startY, y)| / 4
    {
      tilePixels, y := CountRow(data, tileHist, width, height, startX, endX, startY, y, tilePixels, s);
    }
  }

  /** `new Array(256).fill(0)`: the histogram of no pixels. */
  method EmptyHistogram() returns (hist: array<nat>)
    ensures fresh(hist) && hist[..] == HistogramOf([])
  {
    hist := new nat[256](_ => 0);
    assert hist[..] == HistogramOf([]);
  }

  /**
   * One row of the tile histogram loops: the pixels of columns [startX, endX) of row `y` are
   * counted, and `next` is the row after it.
   */
  method CountRow(data: array<byte>, tileHist: array<nat>, width: nat, height: nat, startX: nat, endX: nat,
                  startY: nat, y: nat, tilePixels: nat, ghost s: seq<byte>) returns (tilePixels': nat, next: nat)
    requires data[..] == s && IsImage(s, width, height) && startX <= endX <= width && startY <= y < height
    requires tileHist.Length == 256 && tileHist as object != data
    requires tileHist[..] == HistogramOf(TileRows(s, width, height, startX, endX, startY, y))
    requires tilePixels == |TileRows(s, width, height, startX, endX, startY, y)| / 4
    modifies tileHist
    ensures next == y + 1 && data[..] == s
    ensures tileHist[..] == HistogramOf(TileRows(s, width, height, startX, endX, startY, next))
    ensures tilePixels' == |TileRows(s, width, height, startX, endX, startY, next)| / 4
  {
    next := y + 1;
    ghost var before := TileRows(s, width, height, startX, endX, startY, y);
    TileRowsStep(s, width, height, startX, endX, startY, y, next);
    tilePixels' := CountRun(data, tileHist, width, startX, endX, y, before, tilePixels);
  }

  /**
   * The inner histogram loop over columns [startX, endX) of row `y`: the histogram of the pixels
   * `seen` so far grows by the run of the row, and the pixel count by its length.
   */
  method CountRun(data: array<byte>, tileHist: array<nat>, width: nat, startX: nat, endX: nat, y: nat,
                  ghost seen: seq<byte>, tilePixels: nat) returns (tilePixels': nat)
    requires startX <= endX && Idx(width, endX, y, 0) == Idx(width, startX, y, 0) + 4 * (endX - startX) <= data.Length
    requires tileHist.Length == 256 && tileHist as object != data
    requires IsRgba(seen) && tileHist[..] == HistogramOf(seen) && 4 * tilePixels == |seen|
    modifies tileHist
    ensures var run := data[Idx(width, startX, y, 0)..Idx(width, endX, y, 0)];
      IsRgba(seen + run) && tileHist[..] == HistogramOf(seen + run) && 4 * tilePixels' == |seen + run|
  {
    ghost var s := data[..];
    ghost var a := Idx(width, startX, y, 0);
    ghost var done := seen;
    tilePixels' := tilePixels;
    var x := startX;
    ghost var e := a;
    while x < endX
      invariant startX <= x <= endX && IsRgba(done) && data[..] == s
      invariant e == a + 4 * (x - startX) && done == seen + s[a..e]
      invariant tileHist[..] == HistogramOf(done)
      invariant 4 * tilePixels' == |done|
    {
      var idx := (y * width + x) * 4;
      assert idx == e;
      CountPixel(data, tileHist, idx, done);
      RunStep(seen, s, a, e);
      done := done + s[e..e + 4];
      e := e + 4;
      tilePixels' := tilePixels' + 1;
      x := x + 1;
    }
  }

  /** `tileHist[data[idx]]++`: the histogram of the pixels seen so far grows by the pixel at `idx`. */
  method CountPixel(data: array<byte>, tileHist: array<nat>, idx: nat, ghost seen: seq<byte>)
    requires idx + 4 <= data.Length && tileHist.Length == 256
    requires IsRgba(seen) && tileHist[..] == HistogramOf(seen)
    modifies tileHist
    ensures IsRgba(seen + data[idx..idx + 4]) && tileHist[..] == HistogramOf(seen + data[idx..idx + 4])
  {
    var value := data[idx];
    ghost var hb := tileHist[..];
    tileHist[value] := tileHist[value] + 1;
    assert tileHist[..] == hb[value := hb[value] + 1];
    HistogramSnoc(seen, data[idx..idx + 4], value, hb, tileHist[..]);
  }

  /** The run of a row grows by one pixel. */
  lemma RunStep(before: seq<byte>, s: seq<byte>, a: nat, b: nat)
    requires a <= b && b + 4 <= |s|
    ensures before + s[a..b] + s[b..b + 4] == before + s[a..b + 4]
  {
    assert s[a..b + 4] == s[a..b] + s[b..b + 4];
  }

  /** The tile rows grow by one row run. */
  lemma TileRowsStep(s: seq<byte>, w: nat, h: nat, x0: nat, x1: nat, y0: nat, y: nat, next: nat)
    requires IsImage(s, w, h) && x0 <= x1 <= w && y0 <= y < h && next == y + 1
    ensures Idx(w, x1, y, 0) == Idx(w, x0, y, 0) + 4 * (x1 - x0) <= |s|
    ensures TileRows(s, w, h, x0, x1, y0, next) == TileRows(s, w, h, x0, x1, y0, y) + s[Idx(w, x0, y, 0)..Idx(w, x1, y, 0)]
  {
    RowInImage(w, h, y);
    assert next - 1 == y;
  }

  /** The scan for `tileLow` and `tileHigh`, with its early `break`. */
  method ScanTile(tileHist: array<nat>, tilePixels: nat) returns (tileLow: nat, tileHigh: nat)
    requires tileHist.Length == 256
    ensures (tileLow, tileHigh) == TileBounds(tileHist[..], tilePixels)
  {
    ghost var h := tileHist[..];
    tileLow, tileHigh := 0, 255;
    var acc := 0;
    var lowTarget := tilePixels as real * 0.01;
    var highTarget := tilePixels as real * 0.99;
    ghost var goal := Scan(h, lowTarget, highTarget, 0, 0, 0);
    assert goal == TileBounds(h, tilePixels);
    var i := 0;
    while i < 256
      invariant i <= 256 && tileHigh == 255
      invariant Scan(h, lowTarget, highTarget, i, acc, tileLow) == goal
    {
      ScanUnfold(h, lowTarget, highTarget, i, acc, tileLow);
      acc := acc + tileHist[i];
      if acc as real >= lowTarget && tileLow == 0 {
        tileLow := i;
      }
      if acc as real >= highTarget && tileHigh == 255 {
        tileHigh := i;
        assert (tileLow, tileHigh) == goal;
        break;
      }
      i := i + 1;
    }
    if i == 256 {
      assert Scan(h, lowTarget, highTarget, i, acc, tileLow) == (tileLow, 255);
    }
  }

  /** One bucket of the scan. */
  lemma ScanUnfold(h: seq<nat>, lowT: real, highT: real, i: nat, acc: nat, lo: nat)
    requires |h| == 256 && i < 256
    ensures var acc' := acc + h[i];
      var lo' := if acc' as real >= lowT && lo == 0 then i else lo;
      Scan(h, lowT, highT, i, acc, lo) == if acc' as real >= highT then (lo', i) else Scan(h, lowT, highT, i + 1, acc', lo')
  {
  }

  /** `result[idx..idx + 4]` for one pixel: the enhanced value three times, then the input alpha. */
  method StretchPixel(data: array<byte>, result: array<byte>, idx: nat, tileLow: nat, tileHigh: nat)
    requires result != data && result.Length == data.Length && idx + 3 < data.Length
    modifies result
    ensures var e := Enhanced(data[idx], tileLow, tileHigh);
      result[..] == old(result[..])[idx := e][idx + 1 := e][idx + 2 := e][idx + 3 := data[idx + 3]]
  {
    var value := data[idx];
    var enhanced := Stretch(value as real, tileLow, tileHigh);
    result[idx] := ToClampedByte(enhanced);
    result[idx + 1] := ToClampedByte(enhanced);
    result[idx + 2] := ToClampedByte(enhanced);
    result[idx + 3] := data[idx + 3];
  }

  /** The stretch loops of tile (`tileX`, `tileY`). */
  method StretchTile(data: array<byte>, result: array<byte>, width: nat, height: nat, tileX: nat, tileY: nat,
                     tileLow: nat, tileHigh: nat, ghost st: map<(nat, nat), (nat, nat)>)
    requires IsImage(data[..], width, height) && result != data && result.Length == data.Length
    requires 64 * tileX < width && 64 * tileY < height
    requires (tileX, tileY) in st && st[(tileX, tileY)] == (tileLow, tileHigh)
    requires TilesBefore(result[..], data[..], width, height, st, tileX, tileY)
    modifies result
    ensures TilesBefore(result[..], data[..], width, height, st, tileX + 1, tileY)
  {
    var startX := tileX * 64;
    var startY := tileY * 64;
    var endX := TileEnd(startX, width);
    var endY := TileEnd(startY, height);
    var y := startY;
    while y < endY
      invariant startY <= y <= endY
      invariant StoredUpTo(result[..], data[..], width, height, st, tileX, tileY, startX, y)
    {
      var x := startX;
      while x < endX
        invariant startX <= x <= endX
        invariant StoredUpTo(result[..], data[..], width, height, st, tileX, tileY, x, y)
      {
        PxInImage(width, height, x, y);
        var idx := (y * width + x) * 4;
        ghost var before := result[..];
        StretchPixel(data, result, idx, tileLow, tileHigh);
        PixelStep(before, result[..], data[..], width, height, st, tileX, tileY, x, y);
        x := x + 1;
      }
      RowEnd(result[..], data[..], width, height, st, tileX, tileY, y);
      y := y + 1;
    }
    TileDone(result[..], data[..], width, height, st, tileX, tileY);
  }

  /** The table of every tile's low and high buckets. */
  ghost function StatsTable(s: seq<byte>, w: nat, h: nat): map<(nat, nat), (nat, nat)>
    requires IsImage(s, w, h)
  {
    map tx: nat, ty: nat | tx < w && ty < h && 64 * tx < w && 64 * ty < h :: (tx, ty) := TileStats(s, w, h, tx, ty)
  }

  /** The table holds exactly the tiles of the image, each with its own low and high buckets. */
  lemma StatsTableLookup(s: seq<byte>, w: nat, h: nat, tx: nat, ty: nat)
    requires IsImage(s, w, h)
    ensures (tx, ty) in StatsTable(s, w, h) <==> 64 * tx < w && 64 * ty < h
    ensures (tx, ty) in StatsTable(s, w, h) ==> StatsTable(s, w, h)[(tx, ty)] == TileStats(s, w, h, tx, ty)
  {
  }

  /** `applyLocalContrast`: a fresh buffer with every pixel stretched within its own tile. */
  method ApplyLocalContrast(data: array<byte>, width: nat, height: nat) returns (result: array<byte>)
    requires IsImage(data[..], width, height)
    ensures fresh(result) && result.Length == data.Length
    ensures forall x: nat, y: nat :: x < width && y < height ==> Final(result[..], data[..], width, height, x, y)
  {
    ghost var st := StatsTable(data[..], width, height);
    result := new byte[data.Length](_ => 0);
    var tilesX := TileCount(width);
    var tilesY := TileCount(height);
    var tileY := 0;
    while tileY < tilesY
      invariant tileY <= tilesY && fresh(result) && result.Length == data.Length
      invariant TilesBefore(result[..], data[..], width, height, st, 0, tileY)
    {
      var tileX := 0;
      while tileX < tilesX
        invariant tileX <= tilesX
        invariant TilesBefore(result[..], data[..], width, height, st, tileX, tileY)
      {
        StatsTableLookup(data[..], width, height, tileX, tileY);
        ProcessTile(data, result, width, height, tileX, tileY, st);
        ghost var next := tileX + 1;
        tileX := tileX + 1;
        assert next == tileX;
      }
      TileRowDone(result[..], data[..], width, height, st, tileY);
      ghost var next := tileY + 1;
      tileY := tileY + 1;
      assert next == tileY;
    }
    AllTilesDone(result[..], data[..], width, height, st);
  }

  /** One iteration of the tile loops: histogram, low and high buckets, then the stretch. */
  method ProcessTile(data: array<byte>, result: array<byte>, width: nat, height: nat, tileX: nat, tileY: nat,
                     ghost st: map<(nat, nat), (nat, nat)>)
    requires IsImage(data[..], width, height) && result != data && result.Length == data.Length
    requires 64 * tileX < width && 64 * tileY < height
    requires (tileX, tileY) in st && st[(tileX, tileY)] == TileStats(data[..], width, height, tileX, tileY)
    requires TilesBefore(result[..], data[..], width, height, st, tileX, tileY)
    modifies result
    ensures TilesBefore(result[..], data[..], width, height, st, tileX + 1, tileY)
  {
    var tileLow, tileHigh := TileLevels(data, width, height, tileX, tileY);
    StretchTile(data, result, width, height, tileX, tileY, tileLow, tileHigh, st);
  }

  /** The histogram of the tile at (tileX, tileY) and the low and high levels scanned from it. */
  method TileLevels(data: array<byte>, width: nat, height: nat, tileX: nat, tileY: nat) returns (tileLow: nat, tileHigh: nat)
    requires IsImage(data[..], width, height) && 64 * tileX < width && 64 * tileY < height
    ensures (tileLow, tileHigh) == TileStats(data[..], width, height, tileX, tileY)
  {
    var startX := tileX * 64;
    var startY := tileY * 64;
    var endX := TileEnd(startX, width);
    var endY := TileEnd(startY, height);
    var tileHist, tilePixels := TileHistogram(data, width, height, startX, endX, startY, endY);
    tileLow, tileHigh := ScanTile(tileHist, tilePixels);
  }

  /** Once every row of tiles is done, every pixel holds its final value. */
  lemma AllTilesDone(r: seq<byte>, s: seq<byte>, w: nat, h: nat, st: map<(nat, nat), (nat, nat)>)
    requires IsImage(s, w, h) && |r| == |s| && st == StatsTable(s, w, h)
    requires TilesBefore(r, s, w, h, st, 0, TileCount(h))
    ensures forall x: nat, y: nat :: x < w && y < h ==> Final(r, s, w, h, x, y)
  {
    forall x: nat, y: nat | x < w && y < h
      ensures Final(r, s, w, h, x, y)
    {
      PxInImage(w, h, x, y);
      StatsTableLookup(s, w, h, x / 64, y / 64);
    }
  }
}
