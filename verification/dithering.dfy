/**
 * Floyd-Steinberg dithering to pure black and white (`applyDithering` in lib/timeless-bw.ts):
 * pixels are visited in row-major order; each pixel's red byte is thresholded at 128, red,
 * green and blue take the result, and the error is pushed into the red byte of the
 * unvisited neighbours with weights 7/16 (right), 3/16 (below left), 5/16 (below) and 1/16
 * (below right), each store clamped to [0, 255].
 */
module Dithering {
  import opened Numeric
  import opened Pixels

  /** `oldPixel < 128 ? 0 : 255`. */
  function Threshold(v: byte): (n: byte)
    ensures n == 0 || n == 255
    ensures v < 128 <==> n == 0
  {
    if v < 128 then 0 else 255
  }

  /** The stored value of `Math.max(0, Math.min(255, v + (error * k) / 16))`. */
  function Diffused(v: byte, err: int, k: int): byte
  {
    ToClampedByte(Clamp(v as real + (err * k) as real / 16.0, 0.0, 255.0))
  }

  /** `data[j] = Math.max(0, Math.min(255, data[j] + (error * k) / 16))`. */
  function Diffuse(s: seq<byte>, j: nat, err: int, k: int): (r: seq<byte>)
    requires j < |s|
    ensures |r| == |s|
  {
    s[j := Diffused(s[j], err, k)]
  }

  /** A neighbour that receives error: its pixel number and its weight out of 16. */
  datatype Share = Share(pixel: nat, weight: int)

  /**
   * The unvisited neighbours of pixel number `k` in column `x` that receive its error, in
   * the order the source updates them: right, below left, below, below right. The row below
   * exists exactly when it lies inside the image.
   */
  function Neighbours(w: nat, h: nat, k: nat, x: nat): (ns: seq<Share>)
    requires x <= k && x < w && k - x + w <= w * h
    ensures forall j :: 0 <= j < |ns| ==> k < ns[j].pixel < w * h
  {
    var below := k - x + 2 * w <= w * h;
    (if x + 1 < w then [Share(k + 1, 7)] else [])
    + (if below && x > 0 then [Share(k + w - 1, 3)] else [])
    + (if below then [Share(k + w, 5)] else [])
    + (if below && x + 1 < w then [Share(k + w + 1, 1)] else [])
  }

  /** The error `err` pushed into the red byte of each neighbour in `ns`, in order. */
  function Spread(s: seq<byte>, ns: seq<Share>, err: int): (r: seq<byte>)
    requires forall j :: 0 <= j < |ns| ==> Ch(ns[j].pixel, 0) < |s|
    ensures |r| == |s|
    decreases |ns|
  {
    if ns == [] then s
    else Spread(Diffuse(s, Ch(ns[0].pixel, 0), err, ns[0].weight), ns[1..], err)
  }

  /**
   * One visit to pixel number `k` in column `x` (the row containing it starts at `k - x` and
   * lies inside the image): red, green and blue become the thresholded red byte, and the
   * error is spread over the unvisited neighbours.
   */
  function DitherStep(s: seq<byte>, w: nat, h: nat, k: nat, x: nat): (r: seq<byte>)
    requires IsImage(s, w, h) && x <= k && x < w && k - x + w <= w * h
    ensures |r| == |s|
  {
    var i := Ch(k, 0);
    var n := Threshold(s[i]);
    Spread(s[i := n][i + 1 := n][i + 2 := n], Neighbours(w, h, k, x), s[i] as int - n as int)
  }

  /** Spreading error touches only the red bytes of the listed neighbours. */
  lemma {:induction false} SpreadElsewhere(s: seq<byte>, ns: seq<Share>, err: int, p: nat, c: nat)
    requires forall j :: 0 <= j < |ns| ==> Ch(ns[j].pixel, 0) < |s|
    requires Ch(p, c) < |s| && c < 4
    requires c != 0 || forall j :: 0 <= j < |ns| ==> ns[j].pixel != p
    ensures Spread(s, ns, err)[Ch(p, c)] == s[Ch(p, c)]
    decreases |ns|
  {
    if ns != [] {
      var s' := Diffuse(s, Ch(ns[0].pixel, 0), err, ns[0].weight);
      SpreadElsewhere(s', ns[1..], err, p, c);
    }
  }

  /** Spreading over a single neighbour is one store. */
  lemma SpreadOne(s: seq<byte>, sh: Share, err: int)
    requires Ch(sh.pixel, 0) < |s|
    ensures Spread(s, [sh], err) == Diffuse(s, Ch(sh.pixel, 0), err, sh.weight)
  {
  }

  /** Spreading one list after another is spreading their concatenation. */
  lemma {:induction false} SpreadAppend(s: seq<byte>, a: seq<Share>, b: seq<Share>, err: int)
    requires forall j :: 0 <= j < |a| ==> Ch(a[j].pixel, 0) < |s|
    requires forall j :: 0 <= j < |b| ==> Ch(b[j].pixel, 0) < |s|
    ensures Spread(s, a + b, err) == Spread(Spread(s, a, err), b, err)
    decreases |a|
  {
    if a != [] {
      assert (a + b)[1..] == a[1..] + b;
      SpreadAppend(Diffuse(s, Ch(a[0].pixel, 0), err, a[0].weight), a[1..], b, err);
    } else {
      assert a + b == b;
    }
  }

  /** Row `y` after its first `x` pixels were visited. */
  function DitherRow(s: seq<byte>, w: nat, h: nat, y: nat, x: nat): (r: seq<byte>)
    requires IsImage(s, w, h) && y < h && x <= w
    ensures |r| == |s|
    decreases x
  {
    if x == 0 then s
    else
      RowInImage(w, h, y);
      DitherStep(DitherRow(s, w, h, y, x - 1), w, h, y * w + x - 1, x - 1)
  }

  /** The last of the first `x` visits in row `y` is the one to column `x - 1`. */
  lemma RowStep(s: seq<byte>, w: nat, h: nat, y: nat, x: nat, start: nat)
    requires IsImage(s, w, h) && y < h && 0 < x <= w && start == y * w
    ensures start + w <= w * h
    ensures DitherRow(s, w, h, y, x) == DitherStep(DitherRow(s, w, h, y, x - 1), w, h, start + (x - 1), x - 1)
  {
    RowInImage(w, h, y);
  }

  /** The visit to column `x` extends the first `x` visits of row `y`. */
  lemma RowNext(s: seq<byte>, w: nat, h: nat, y: nat, x: nat, next: nat, start: nat, before: seq<byte>, after: seq<byte>)
    requires IsImage(s, w, h) && y < h && x < w && next == x + 1 && start == y * w && start + w <= w * h
    requires before == DitherRow(s, w, h, y, x) && after == DitherStep(before, w, h, start + x, x)
    ensures after == DitherRow(s, w, h, y, next)
  {
    RowStep(s, w, h, y, next, start);
    assert next - 1 == x;
  }

  /** The buffer after the first `y` rows were visited. */
  function DitherRows(s: seq<byte>, w: nat, h: nat, y: nat): (r: seq<byte>)
    requires IsImage(s, w, h) && y <= h
    ensures |r| == |s|
  {
    if y == 0 then s else DitherRow(DitherRows(s, w, h, y - 1), w, h, y - 1, w)
  }

  /** The whole pass. */
  function Dither(s: seq<byte>, w: nat, h: nat): (r: seq<byte>)
    requires IsImage(s, w, h)
    ensures |r| == |s|
  {
    DitherRows(s, w, h, h)
  }

  /** A byte of a pure black-and-white image. */
  predicate IsBW(v: byte) { v == 0 || v == 255 }

  /** Channel `c` of pixel `p` of `s` is 0 or 255. */
  predicate BWAt(s: seq<byte>, p: nat, c: nat)
  {
    Ch(p, c) < |s| && IsBW(s[Ch(p, c)])
  }

  /** The first `k` pixels have red, green and blue in {0, 255}. */
  predicate BinaryBefore(s: seq<byte>, k: nat)
  {
    forall p: nat, c: nat :: p < k && c < 3 ==> BWAt(s, p, c)
  }

  /**
   * A visit changes only red, green and blue of the visited pixel and the red byte of
   * pixels later in row-major order, that is, of pixels not visited yet.
   */
  lemma StepLocal(s: seq<byte>, w: nat, h: nat, k: nat, x: nat, p: nat, c: nat)
    requires IsImage(s, w, h) && x <= k && x < w && k - x + w <= w * h
    requires p < w * h && c < 4
    ensures var r := DitherStep(s, w, h, k, x);
      r[Ch(p, c)] != s[Ch(p, c)] ==> (p == k && c < 3) || (k < p && c == 0)
  {
    var i := Ch(k, 0);
    var n := Threshold(s[i]);
    var s1 := s[i := n][i + 1 := n][i + 2 := n];
    if p <= k || c != 0 {
      SpreadElsewhere(s1, Neighbours(w, h, k, x), s[i] as int - n as int, p, c);
    }
  }

  /** The visited pixel ends up thresholded in red, green and blue. */
  lemma StepPixel(s: seq<byte>, w: nat, h: nat, k: nat, x: nat, c: nat)
    requires IsImage(s, w, h) && x <= k && x < w && k - x + w <= w * h && c < 3
    ensures DitherStep(s, w, h, k, x)[Ch(k, c)] == Threshold(s[Ch(k, 0)])
  {
    var i := Ch(k, 0);
    var n := Threshold(s[i]);
    SpreadElsewhere(s[i := n][i + 1 := n][i + 2 := n], Neighbours(w, h, k, x), s[i] as int - n as int, k, c);
  }

  /** One visit extends the black-and-white prefix by the visited pixel. */
  lemma StepExtendsBinary(s: seq<byte>, w: nat, h: nat, k: nat, x: nat)
    requires IsImage(s, w, h) && x <= k && x < w && k - x + w <= w * h
    requires BinaryBefore(s, k)
    ensures BinaryBefore(DitherStep(s, w, h, k, x), k + 1)
  {
    var r := DitherStep(s, w, h, k, x);
    forall p: nat, c: nat | p < k + 1 && c < 3
      ensures BWAt(r, p, c)
    {
      if p == k {
        StepPixel(s, w, h, k, x, c);
      } else {
        assert BWAt(s, p, c);
        StepLocal(s, w, h, k, x, p, c);
      }
    }
  }

  /** After `x` visits in row `y` the prefix up to that pixel is black and white. */
  lemma {:induction false} RowBinary(s: seq<byte>, w: nat, h: nat, y: nat, x: nat, start: nat)
    requires IsImage(s, w, h) && y < h && x <= w
    requires start == y * w && BinaryBefore(s, start)
    ensures BinaryBefore(DitherRow(s, w, h, y, x), start + x)
    decreases x
  {
    if x > 0 {
      RowBinary(s, w, h, y, x - 1, start);
      RowBinaryStep(s, w, h, y, x, start);
    } else {
      BinaryTransfer(s, DitherRow(s, w, h, y, x), start, start + x);
    }
  }

  /** The visit to column `x - 1` of row `y` extends the black-and-white prefix by that pixel. */
  lemma RowBinaryStep(s: seq<byte>, w: nat, h: nat, y: nat, x: nat, start: nat)
    requires IsImage(s, w, h) && y < h && 0 < x <= w && start == y * w
    requires BinaryBefore(DitherRow(s, w, h, y, x - 1), start + (x - 1))
    ensures BinaryBefore(DitherRow(s, w, h, y, x), start + x)
  {
    var prev := DitherRow(s, w, h, y, x - 1);
    RowStep(s, w, h, y, x, start);
    StepExtendsBinary(prev, w, h, start + (x - 1), x - 1);
    BinaryTransfer(DitherStep(prev, w, h, start + (x - 1), x - 1), DitherRow(s, w, h, y, x), start + (x - 1) + 1, start + x);
  }

  /** A byte of a buffer, read from an equal buffer. */
  lemma ByteTransfer(a: seq<byte>, b: seq<byte>, i: nat)
    requires a == b && i < |a|
    ensures b[i] == a[i]
  {
  }

  /** The black-and-white prefix of a buffer, carried over to an equal buffer and an equal length. */
  lemma BinaryTransfer(a: seq<byte>, b: seq<byte>, k: nat, m: nat)
    requires a == b && k == m && BinaryBefore(a, k)
    ensures BinaryBefore(b, m)
  {
  }

  /** After `y` rows the first `y * w` pixels are black and white. */
  lemma {:induction false} RowsBinary(s: seq<byte>, w: nat, h: nat, y: nat)
    requires IsImage(s, w, h) && y <= h
    ensures y * w <= w * h && BinaryBefore(DitherRows(s, w, h, y), y * w)
    decreases y
  {
    MulMono(y, h, w);
    if y > 0 {
      RowsBinary(s, w, h, y - 1);
      RowInImage(w, h, y - 1);
      RowBinary(DitherRows(s, w, h, y - 1), w, h, y - 1, w, (y - 1) * w);
      assert (y - 1) * w + w == y * w;
    }
  }

  /** After the pass every pixel is pure black or pure white in red, green and blue. */
  lemma DitherBinary(s: seq<byte>, w: nat, h: nat, p: nat, c: nat)
    requires IsImage(s, w, h) && p < w * h && c < 3
    ensures IsBW(Dither(s, w, h)[Ch(p, c)])
  {
    RowsBinary(s, w, h, h);
    assert BWAt(Dither(s, w, h), p, c);
  }

  /** A visit never changes an alpha byte. */
  lemma StepKeepsAlpha(s: seq<byte>, w: nat, h: nat, k: nat, x: nat, p: nat)
    requires IsImage(s, w, h) && x <= k && x < w && k - x + w <= w * h && p < w * h
    ensures DitherStep(s, w, h, k, x)[Ch(p, 3)] == s[Ch(p, 3)]
  {
    StepLocal(s, w, h, k, x, p, 3);
  }

  /** The first `x` visits in row `y` leave every alpha byte as it was. */
  lemma {:induction false} RowKeepsAlpha(s: seq<byte>, w: nat, h: nat, y: nat, x: nat, p: nat, start: nat)
    requires IsImage(s, w, h) && y < h && x <= w && p < w * h && start == y * w
    ensures DitherRow(s, w, h, y, x)[Ch(p, 3)] == s[Ch(p, 3)]
    decreases x
  {
    if x > 0 {
      RowKeepsAlpha(s, w, h, y, x - 1, p, start);
      RowAlphaStep(s, w, h, y, x, p, start, DitherRow(s, w, h, y, x - 1), DitherRow(s, w, h, y, x));
    }
  }

  /** The visit to column `x - 1` of row `y` (from `before` to `after`) leaves the alpha byte of pixel `p` as it was. */
  lemma RowAlphaStep(s: seq<byte>, w: nat, h: nat, y: nat, x: nat, p: nat, start: nat, before: seq<byte>, after: seq<byte>)
    requires IsImage(s, w, h) && y < h && 0 < x <= w && p < w * h && start == y * w
    requires before == DitherRow(s, w, h, y, x - 1) && after == DitherRow(s, w, h, y, x)
    ensures after[Ch(p, 3)] == before[Ch(p, 3)]
  {
    RowStep(s, w, h, y, x, start);
    StepKeepsAlpha(before, w, h, start + (x - 1), x - 1, p);
    ByteTransfer(DitherStep(before, w, h, start + (x - 1), x - 1), after, Ch(p, 3));
  }

  lemma {:induction false} RowsKeepAlpha(s: seq<byte>, w: nat, h: nat, y: nat, p: nat)
    requires IsImage(s, w, h) && y <= h && p < w * h
    ensures DitherRows(s, w, h, y)[Ch(p, 3)] == s[Ch(p, 3)]
    decreases y
  {
    if y > 0 {
      RowsKeepAlpha(s, w, h, y - 1, p);
      RowKeepsAlpha(DitherRows(s, w, h, y - 1), w, h, y - 1, w, p, (y - 1) * w);
    }
  }

  /** The pass leaves every alpha byte as it was. */
  lemma DitherKeepsAlpha(s: seq<byte>, w: nat, h: nat, p: nat)
    requires IsImage(s, w, h) && p < w * h
    ensures Dither(s, w, h)[Ch(p, 3)] == s[Ch(p, 3)]
  {
    RowsKeepAlpha(s, w, h, h, p);
  }

  /** The row below row `y` exists exactly when it lies inside the image. */
  lemma BelowInImage(w: nat, h: nat, y: nat)
    requires w > 0
    ensures y + 1 < h <==> y * w + 2 * w <= w * h
  {
    if y + 1 < h {
      RowInImage(w, h, y + 1);
    } else {
      MulMono(h + 1, y + 2, w);
    }
  }

  /** One visit, on the buffer in place, statement by statement as the source does it. */
  method DitherPixel(data: array<byte>, w: nat, h: nat, x: nat, y: nat, ghost k: nat)
    requires IsImage(data[..], w, h) && x < w && y < h
    requires k == y * w + x && k - x + w <= w * h && (y + 1 < h <==> k - x + 2 * w <= w * h)
    modifies data
    ensures data[..] == DitherStep(old(data[..]), w, h, k, x)
  {
    ghost var s0 := data[..];
    var idx := Idx(w, x, y, 0);
    var error := ThresholdPixel(data, idx);
    StepUnfold(s0, w, h, k, x, data[..], error);
    SpreadError(data, w, h, x, y, error, k);
  }

  /** Red, green and blue of the pixel whose red byte is at `idx` set to its thresholded red byte; the error is returned. */
  method ThresholdPixel(data: array<byte>, idx: nat) returns (error: int)
    requires idx + 2 < data.Length
    modifies data
    ensures var n := Threshold(old(data[idx]));
      && data[..] == old(data[..])[idx := n][idx + 1 := n][idx + 2 := n]
      && error == old(data[idx]) as int - n as int
  {
    var oldPixel := data[idx];
    var newPixel := Threshold(oldPixel);
    error := oldPixel as int - newPixel as int;
    data[idx] := newPixel;
    data[idx + 1] := newPixel;
    data[idx + 2] := newPixel;
  }

  /** A visit is the three stores of the thresholded value followed by the spread of the error. */
  lemma StepUnfold(s0: seq<byte>, w: nat, h: nat, k: nat, x: nat, s1: seq<byte>, error: int)
    requires IsImage(s0, w, h) && x <= k && x < w && k - x + w <= w * h
    requires var i, n := Ch(k, 0), Threshold(s0[Ch(k, 0)]);
      s1 == s0[i := n][i + 1 := n][i + 2 := n] && error == s0[i] as int - n as int
    ensures DitherStep(s0, w, h, k, x) == Spread(s1, Neighbours(w, h, k, x), error)
  {
  }

  /** The error of the pixel at column `x`, row `y` pushed into its unvisited neighbours. */
  method SpreadError(data: array<byte>, w: nat, h: nat, x: nat, y: nat, error: int, ghost k: nat)
    requires IsImage(data[..], w, h) && x < w && y < h
    requires k == y * w + x && k - x + w <= w * h && (y + 1 < h <==> k - x + 2 * w <= w * h)
    modifies data
    ensures data[..] == Spread(old(data[..]), Neighbours(w, h, k, x), error)
  {
    ghost var s1 := data[..];
    ghost var done := SpreadRight(data, w, h, x, y, error, k, s1);
    if y + 1 < h {
      done := SpreadBelow(data, w, h, x, y, error, k, s1, done);
    }
    NeighboursInOrder(w, h, k, x, y + 1 < h, done);
  }

  /** The share of the pixel to the right, when there is one. */
  method SpreadRight(data: array<byte>, w: nat, h: nat, x: nat, y: nat, error: int, ghost k: nat, ghost s1: seq<byte>)
    returns (ghost done: seq<Share>)
    requires x < w && y < h && k == y * w + x && k - x + w <= w * h && data.Length == |s1| == 4 * (w * h)
    requires data[..] == s1
    modifies data
    ensures done == if x + 1 < w then [Share(k + 1, 7)] else []
    ensures forall j :: 0 <= j < |done| ==> Ch(done[j].pixel, 0) < |s1|
    ensures data[..] == Spread(s1, done, error)
  {
    done := [];
    if x + 1 < w {
      Push(data, Idx(w, x + 1, y, 0), 7, Share(k + 1, 7), error, s1, done);
      done := [Share(k + 1, 7)];
    }
  }

  /** The three shares of the row below, left to right, after the ones in `done`. */
  method SpreadBelow(data: array<byte>, w: nat, h: nat, x: nat, y: nat, error: int, ghost k: nat,
                     ghost s1: seq<byte>, ghost done: seq<Share>)
    returns (ghost done': seq<Share>)
    requires x < w && y + 1 < h && k == y * w + x && k - x + 2 * w <= w * h && data.Length == |s1| == 4 * (w * h)
    requires forall j :: 0 <= j < |done| ==> Ch(done[j].pixel, 0) < |s1|
    requires data[..] == Spread(s1, done, error)
    modifies data
    ensures var bottomLeft := if x > 0 then done + [Share(k + w - 1, 3)] else done;
      var bottom := bottomLeft + [Share(k + w, 5)];
      done' == if x + 1 < w then bottom + [Share(k + w + 1, 1)] else bottom
    ensures forall j :: 0 <= j < |done'| ==> Ch(done'[j].pixel, 0) < |s1|
    ensures data[..] == Spread(s1, done', error)
  {
    NextRow(w, x, y);
    done' := done;
    if x > 0 {
      Push(data, Idx(w, x - 1, y + 1, 0), 3, Share(k + w - 1, 3), error, s1, done');
      done' := done' + [Share(k + w - 1, 3)];
    }
    Push(data, Idx(w, x, y + 1, 0), 5, Share(k + w, 5), error, s1, done');
    done' := done' + [Share(k + w, 5)];
    if x + 1 < w {
      Push(data, Idx(w, x + 1, y + 1, 0), 1, Share(k + w + 1, 1), error, s1, done');
      done' := done' + [Share(k + w + 1, 1)];
    }
  }

  /** The neighbours listed one at a time, as the source visits them. */
  lemma NeighboursInOrder(w: nat, h: nat, k: nat, x: nat, below: bool, ns: seq<Share>)
    requires x <= k && x < w && k - x + w <= w * h
    requires below <==> k - x + 2 * w <= w * h
    requires var right := if x + 1 < w then [Share(k + 1, 7)] else [];
      var bottomLeft := if below && x > 0 then right + [Share(k + w - 1, 3)] else right;
      var bottom := if below then bottomLeft + [Share(k + w, 5)] else bottomLeft;
      ns == if below && x + 1 < w then bottom + [Share(k + w + 1, 1)] else bottom
    ensures ns == Neighbours(w, h, k, x)
  {
  }

  /** One error store `data[i] += error * weight / 16`, with `i` the red byte of the share's pixel. */
  method Push(data: array<byte>, i: nat, weight: int, ghost sh: Share, error: int, ghost s1: seq<byte>, ghost done: seq<Share>)
    requires i == Ch(sh.pixel, 0) && weight == sh.weight && i < data.Length == |s1|
    requires forall j :: 0 <= j < |done| ==> Ch(done[j].pixel, 0) < |s1|
    requires data[..] == Spread(s1, done, error)
    modifies data
    ensures data[..] == Spread(s1, done + [sh], error)
  {
    SpreadAppend(s1, done, [sh], error);
    SpreadOne(data[..], sh, error);
    data[i] := Diffused(data[i], error, weight);
  }

  /** `applyDithering`: the pass over the whole buffer in place. */
  method ApplyDithering(data: array<byte>, w: nat, h: nat)
    requires IsImage(data[..], w, h)
    modifies data
    ensures data[..] == Dither(old(data[..]), w, h)
  {
    ghost var s0 := data[..];
    var y := 0;
    while y < h
      invariant y <= h
      invariant data[..] == DitherRows(s0, w, h, y)
    {
      DitherRowInPlace(data, w, h, y);
      y := y + 1;
    }
  }

  /** The inner loop of the pass: row `y`, left to right. */
  method DitherRowInPlace(data: array<byte>, w: nat, h: nat, y: nat)
    requires IsImage(data[..], w, h) && y < h
    modifies data
    ensures data[..] == DitherRow(old(data[..]), w, h, y, w)
  {
    ghost var row := data[..];
    MulMono(0, y, w);
    ghost var start: nat := y * w;
    RowInImage(w, h, y);
    if w > 0 {
      BelowInImage(w, h, y);
    }
    var x := 0;
    while x < w
      invariant x <= w
      invariant data[..] == DitherRow(row, w, h, y, x)
    {
      x := DitherNext(data, w, h, x, y, start, row);
    }
  }

  /** The visit to column `x` of row `y`, after the first `x` visits of the row; `next` is the column after it. */
  method DitherNext(data: array<byte>, w: nat, h: nat, x: nat, y: nat, ghost start: nat, ghost row: seq<byte>)
    returns (next: nat)
    requires IsImage(row, w, h) && x < w && y < h
    requires start == y * w && start + w <= w * h && (y + 1 < h <==> start + 2 * w <= w * h)
    requires data[..] == DitherRow(row, w, h, y, x)
    modifies data
    ensures next == x + 1 && data[..] == DitherRow(row, w, h, y, next)
  {
    next := x + 1;
    ghost var before := data[..];
    DitherPixel(data, w, h, x, y, start + x);
    RowNext(row, w, h, y, x, next, start, before, data[..]);
  }
}
