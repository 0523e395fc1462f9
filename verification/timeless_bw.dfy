/**
 * The tone pipeline of `timelessBW` (lib/timeless-bw.ts): BT.709 gray and histogram,
 * auto-levels from three percentiles, gamma and film S-curve lookup tables, optional local
 * contrast, film grain, and optional Floyd-Steinberg dithering, all on the RGBA buffer of
 * the canvas.
 */
module TimelessBW {
  import opened Wrappers
  import opened Numeric
  import opened Pixels
  import opened Histogram
  import LocalContrast
  import Dithering

  /** `TimelessBWOptions`: every field may be left undefined. */
  datatype Options = Options(
    enableLocalContrast: Option<bool>, addGrain: Option<bool>, addVignette: Option<bool>,
    enableDithering: Option<bool>, gamma: Option<real>, sCurveStrength: Option<real>,
    grainIntensity: Option<real>, vignetteStrength: Option<real>)

  /** The options after destructuring with their defaults; `gamma` stays optional. */
  datatype Settings = Settings(
    enableLocalContrast: bool, addGrain: bool, addVignette: bool, enableDithering: bool,
    gamma: Option<real>, sCurveStrength: real, grainIntensity: real, vignetteStrength: real)

  /** The destructuring of `options`: a field left undefined takes its default. */
  function Resolve(o: Options): Settings
  {
    Settings(
      o.enableLocalContrast.GetOr(false), o.addGrain.GetOr(true), o.addVignette.GetOr(false),
      o.enableDithering.GetOr(false), o.gamma, o.sCurveStrength.GetOr(8.0),
      o.grainIntensity.GetOr(16.0), o.vignetteStrength.GetOr(0.15))
  }

  /** With no options: no local contrast, grain on, no vignette, no dithering, auto gamma, 8, 16, 0.15. */
  lemma ResolveDefaults()
    ensures Resolve(Options(None, None, None, None, None, None, None, None))
         == Settings(false, true, false, false, None, 8.0, 16.0, 0.15)
  {
  }

  /** Every field that is given is used as given. */
  lemma ResolveGiven(lc: bool, grain: bool, vig: bool, dither: bool, g: real, k: real, gi: real, vs: real)
    ensures Resolve(Options(Some(lc), Some(grain), Some(vig), Some(dither), Some(g), Some(k), Some(gi), Some(vs)))
         == Settings(lc, grain, vig, dither, Some(g), k, gi, vs)
  {
  }

  /**
   * `gamma ?? (median < 128 ? 0.8 : 1.2)`: a given gamma wins; otherwise a dark image (median
   * below mid-gray) gets an exponent below 1, which brightens it, and a bright one above 1.
   */
  function AutoGamma(gamma: Option<real>, median: int): (g: real)
    ensures gamma.Some? ==> g == gamma.value
    ensures gamma.None? ==> 0.8 <= g <= 1.2 && (g < 1.0 <==> median < 128)
  {
    if gamma.Some? then gamma.value else if median < 128 then 0.8 else 1.2
  }

  /** `Math.pow(i / 255, gamma)` for every table index; `pow` stands for `Math.pow`. */
  function GammaCurve(pow: (real, real) -> real, g: real): (c: seq<real>)
    ensures |c| == 256
  {
    seq(256, i requires 0 <= i < 256 => pow(i as real / 255.0, g))
  }

  /** `1 / (1 + Math.exp(-k * (x - 0.5)))`: the logistic S-curve of strength `k` centred on 0.5. */
  function Sigmoid(exp: real -> real, k: real, x: real): real
    requires forall x :: exp(x) > 0.0
  {
    1.0 / (1.0 + exp(-k * (x - 0.5)))
  }

  /** The S-curve at every table index `i / 255`; `exp` stands for `Math.exp`. */
  function SCurve(exp: real -> real, k: real): (c: seq<real>)
    requires forall x :: exp(x) > 0.0
    ensures |c| == 256
  {
    seq(256, i requires 0 <= i < 256 => Sigmoid(exp, k, i as real / 255.0))
  }

  /** A non-decreasing table. */
  predicate Monotone(c: seq<real>)
  {
    forall i, j :: 0 <= i <= j < |c| ==> c[i] <= c[j]
  }

  /** A non-decreasing byte table. */
  predicate MonotoneBytes(t: seq<byte>)
  {
    forall i, j :: 0 <= i <= j < |t| ==> t[i] <= t[j]
  }

  /**
   * `Math.round(255 * v)` stored into a `Uint8ClampedArray`: for `v` within [0, 1] the byte
   * nearest to `255 * v`.
   */
  function ScaleToByte(v: real): (b: byte)
    ensures 0.0 <= v <= 1.0 ==> 255.0 * v - 0.5 < b as real <= 255.0 * v + 0.5
  {
    ToClampedByteOfInt(Round(255.0 * v));
    ToClampedByte(Round(255.0 * v) as real)
  }

  /** The lookup table of a curve: entry `i` is `ScaleToByte(curve[i])`. */
  function Lut(curve: seq<real>): (t: seq<byte>)
    requires |curve| == 256
    ensures |t| == 256
  {
    seq(256, i requires 0 <= i < 256 => ScaleToByte(curve[i]))
  }

  /** A non-decreasing curve gives a non-decreasing table. */
  lemma LutMonotone(curve: seq<real>)
    requires |curve| == 256 && Monotone(curve)
    ensures MonotoneBytes(Lut(curve))
  {
    forall i, j | 0 <= i <= j < 256
      ensures Lut(curve)[i] <= Lut(curve)[j]
    {
      RoundMonotone(255.0 * curve[i], 255.0 * curve[j]);
      ToClampedByteOfInt(Round(255.0 * curve[i]));
      ToClampedByteOfInt(Round(255.0 * curve[j]));
    }
  }

  /** When `pow(0, g) == 0` and `pow(1, g) == 1`, the gamma table keeps black and white. */
  lemma GammaLutEnds(pow: (real, real) -> real, g: real)
    requires pow(0.0, g) == 0.0 && pow(1.0, g) == 1.0
    ensures Lut(GammaCurve(pow, g))[0] == 0 && Lut(GammaCurve(pow, g))[255] == 255
  {
    assert GammaCurve(pow, g)[0] == 0.0;
    assert GammaCurve(pow, g)[255] == 1.0;
  }

  /** A power that grows with its base gives a non-decreasing gamma curve. */
  lemma GammaCurveMonotone(pow: (real, real) -> real, g: real)
    requires forall a, b :: 0.0 <= a <= b <= 1.0 ==> pow(a, g) <= pow(b, g)
    ensures Monotone(GammaCurve(pow, g))
  {
    forall i, j | 0 <= i <= j < 256
      ensures GammaCurve(pow, g)[i] <= GammaCurve(pow, g)[j]
    {
      assert i as real / 255.0 <= j as real / 255.0;
    }
  }

  /** A larger positive denominator gives a smaller reciprocal. */
  lemma ReciprocalAntitone(da: real, db: real)
    requires 0.0 < db <= da
    ensures 1.0 / da <= 1.0 / db
  {
    assert 1.0 / da * da == 1.0 && 1.0 / db * db == 1.0;
    assert 1.0 / db - 1.0 / da == (da - db) / (da * db);
  }

  /** For a non-negative strength and a growing `exp`, the sigmoid grows with `x` and stays within (0, 1). */
  lemma SigmoidMonotone(exp: real -> real, k: real, x: real, y: real)
    requires forall x :: exp(x) > 0.0
    requires forall x, y :: x <= y ==> exp(x) <= exp(y)
    requires k >= 0.0 && x <= y
    ensures 0.0 < Sigmoid(exp, k, x) <= Sigmoid(exp, k, y) < 1.0
  {
    var a := -k * (x - 0.5);
    var b := -k * (y - 0.5);
    assert b <= a by {
      assert a - b == k * (y - x);
    }
    var da := 1.0 + exp(a);
    var db := 1.0 + exp(b);
    assert 1.0 < db <= da;
    ReciprocalAntitone(da, db);
    assert 1.0 / da * da == 1.0;
    assert 1.0 / db * db == 1.0;
  }

  /** For a non-negative strength and a growing `exp`, the S-curve is non-decreasing and within (0, 1). */
  lemma SCurveMonotone(exp: real -> real, k: real)
    requires forall x :: exp(x) > 0.0
    requires forall x, y :: x <= y ==> exp(x) <= exp(y)
    requires k >= 0.0
    ensures Monotone(SCurve(exp, k))
    ensures forall i :: 0 <= i < 256 ==> 0.0 < SCurve(exp, k)[i] < 1.0
  {
    var c := SCurve(exp, k);
    forall i, j | 0 <= i <= j < 256
      ensures 0.0 < c[i] <= c[j] < 1.0
    {
      assert i as real / 255.0 <= j as real / 255.0;
      SigmoidMonotone(exp, k, i as real / 255.0, j as real / 255.0);
    }
  }

  /** Stage 3, `gammaLUT[i] = Math.round(255 * Math.pow(i / 255, autoGamma))`, entry by entry. */
  method BuildGammaLut(pow: (real, real) -> real, g: real) returns (lut: array<byte>)
    ensures fresh(lut) && lut[..] == Lut(GammaCurve(pow, g))
  {
    lut := new byte[256](_ => 0);
    for i := 0 to 256
      invariant forall j :: 0 <= j < i ==> lut[j] == Lut(GammaCurve(pow, g))[j]
    {
      lut[i] := ScaleToByte(pow(i as real / 255.0, g));
    }
  }

  /** Stage 5, `sCurveLUT[i] = Math.round(255 * sCurve)`, entry by entry. */
  method BuildSCurveLut(exp: real -> real, k: real) returns (lut: array<byte>)
    requires forall x :: exp(x) > 0.0
    ensures fresh(lut) && lut[..] == Lut(SCurve(exp, k))
  {
    ghost var target := Lut(SCurve(exp, k));
    lut := new byte[256](_ => 0);
    for i := 0 to 256
      invariant forall j :: 0 <= j < i ==> lut[j] == target[j]
    {
      var normalized := i as real / 255.0;
      var sCurve := 1.0 / (1.0 + exp(-k * (normalized - 0.5)));
      SCurveLutAt(exp, k, i, normalized, sCurve);
      lut[i] := ScaleToByte(sCurve);
    }
    assert lut[..] == target;
  }

  /** Entry `i` of the S-curve table is the rounded sigmoid at `i / 255`. */
  lemma SCurveLutAt(exp: real -> real, k: real, i: nat, normalized: real, sCurve: real)
    requires forall x :: exp(x) > 0.0
    requires i < 256 && normalized == i as real / 255.0 && sCurve == 1.0 / (1.0 + exp(-k * (normalized - 0.5)))
    ensures Lut(SCurve(exp, k))[i] == ScaleToByte(sCurve)
  {
    assert SCurve(exp, k)[i] == Sigmoid(exp, k, normalized);
  }

  /**
   * One pixel without grain: the local-contrast byte when there is one, else the auto-levels
   * stretch of the gray byte; then `Math.round` into the gamma table and the S-curve table.
   */
  function Tone(v: byte, local: Option<byte>, lo: int, hi: int, gammaLut: seq<byte>, sLut: seq<byte>): byte
    requires |gammaLut| == 256 && |sLut| == 256
  {
    var value := if local.Some? then local.value as real else Stretch(v as real, lo, hi);
    RoundByte(value);
    var afterGamma := gammaLut[Round(value)];
    RoundInt(afterGamma);
    sLut[Round(afterGamma as real)]
  }

  /** Without local contrast and with non-decreasing tables, a lighter gray byte never comes out darker. */
  lemma ToneMonotone(v1: byte, v2: byte, lo: int, hi: int, gammaLut: seq<byte>, sLut: seq<byte>)
    requires |gammaLut| == 256 && |sLut| == 256 && MonotoneBytes(gammaLut) && MonotoneBytes(sLut)
    requires v1 <= v2
    ensures Tone(v1, None, lo, hi, gammaLut, sLut) <= Tone(v2, None, lo, hi, gammaLut, sLut)
  {
    var a1 := Stretch(v1 as real, lo, hi);
    var a2 := Stretch(v2 as real, lo, hi);
    StretchMonotone(v1 as real, v2 as real, lo, hi);
    RoundMonotone(a1, a2);
    RoundByte(a1);
    RoundByte(a2);
    var g1 := gammaLut[Round(a1)];
    var g2 := gammaLut[Round(a2)];
    RoundInt(g1);
    RoundInt(g2);
  }

  /**
   * Without local contrast, gray bytes at or below the low percentile map to the table image
   * of black, and (when `lo < hi`) bytes at or above the high percentile to that of white.
   */
  lemma ToneEnds(v: byte, lo: int, hi: int, gammaLut: seq<byte>, sLut: seq<byte>)
    requires |gammaLut| == 256 && |sLut| == 256
    ensures v as real <= lo as real ==> Tone(v, None, lo, hi, gammaLut, sLut) == sLut[gammaLut[0]]
    ensures lo < hi && v >= hi ==> Tone(v, None, lo, hi, gammaLut, sLut) == sLut[gammaLut[255]]
  {
    StretchEnds(v as real, lo, hi);
    RoundInt(0);
    RoundInt(255);
    RoundInt(gammaLut[0]);
    RoundInt(gammaLut[255]);
  }

  /**
   * Stage 6 and the write-back: add the grain, clamp to [0, 255] and store `Math.round` of the
   * result. Without grain the toned byte is kept; with grain `d` the stored byte is at most
   * `|d| + 0.5` away from it.
   */
  function Finish(t: byte, grain: Option<real>): (b: byte)
    ensures grain.None? ==> b == t
    ensures grain.Some? ==> var d := grain.value;
      -(if d < 0.0 then -d else d) - 0.5 <= b as real - t as real <= (if d < 0.0 then -d else d) + 0.5
  {
    var value := if grain.Some? then Clamp(t as real + grain.value, 0.0, 255.0) else t as real;
    RoundByte(value);
    RoundInt(t);
    ToClampedByteOfInt(Round(value));
    ToClampedByte(Round(value) as real)
  }

  /** `(Math.random() - 0.5) * grainIntensity` for pixel `p`, when grain is on; `noise[p]` is the draw. */
  function Grain(addGrain: bool, grainIntensity: real, noise: seq<real>, p: nat): Option<real>
    requires p < |noise|
  {
    if addGrain then Some((noise[p] - 0.5) * grainIntensity) else None
  }

  /** Byte `j` of the buffer after the per-pixel loop: red, green and blue get the pixel's value, alpha is kept. */
  function ToneAt(s: seq<byte>, local: Option<seq<byte>>, lo: int, hi: int, gammaLut: seq<byte>, sLut: seq<byte>,
                  addGrain: bool, grainIntensity: real, noise: seq<real>, j: nat): byte
    requires IsRgba(s) && j < |s| && (local.Some? ==> |local.value| == |s|)
    requires |gammaLut| == 256 && |sLut| == 256 && |noise| == |s| / 4
  {
    if j % 4 == 3 then s[j]
    else
      var p := j / 4;
      var lv := if local.Some? then Some(local.value[Ch(p, 0)]) else None;
      Finish(Tone(s[Ch(p, 0)], lv, lo, hi, gammaLut, sLut), Grain(addGrain, grainIntensity, noise, p))
  }

  /** The buffer after the per-pixel loop. */
  function ToneAll(s: seq<byte>, local: Option<seq<byte>>, lo: int, hi: int, gammaLut: seq<byte>, sLut: seq<byte>,
                   addGrain: bool, grainIntensity: real, noise: seq<real>): (r: seq<byte>)
    requires IsRgba(s) && (local.Some? ==> |local.value| == |s|)
    requires |gammaLut| == 256 && |sLut| == 256 && |noise| == |s| / 4
    ensures |r| == |s|
  {
    seq(|s|, j requires 0 <= j < |s| => ToneAt(s, local, lo, hi, gammaLut, sLut, addGrain, grainIntensity, noise, j))
  }

  /** After the per-pixel loop every pixel is gray (red = green = blue) and keeps its alpha. */
  lemma ToneAllGray(s: seq<byte>, local: Option<seq<byte>>, lo: int, hi: int, gammaLut: seq<byte>, sLut: seq<byte>,
                    addGrain: bool, grainIntensity: real, noise: seq<real>, p: nat)
    requires IsRgba(s) && (local.Some? ==> |local.value| == |s|)
    requires |gammaLut| == 256 && |sLut| == 256 && |noise| == |s| / 4
    requires Ch(p, 3) < |s|
    ensures var r := ToneAll(s, local, lo, hi, gammaLut, sLut, addGrain, grainIntensity, noise);
      && r[Ch(p, 0)] == r[Ch(p, 1)] == r[Ch(p, 2)]
      && r[Ch(p, 3)] == s[Ch(p, 3)]
  {
    assert Ch(p, 1) / 4 == p && Ch(p, 1) % 4 == 1;
    assert Ch(p, 2) / 4 == p && Ch(p, 2) % 4 == 2;
    assert Ch(p, 0) / 4 == p && Ch(p, 0) % 4 == 0;
    assert Ch(p, 3) % 4 == 3;
  }

  /** The bytes of pixel `p` after the loop body, given the pixel's toned value `out`. */
  lemma ToneAtPixel(s: seq<byte>, local: Option<seq<byte>>, lo: int, hi: int, gammaLut: seq<byte>, sLut: seq<byte>,
                    addGrain: bool, grainIntensity: real, noise: seq<real>, i: nat, out: byte)
    requires IsRgba(s) && i % 4 == 0 && i + 4 <= |s| && (local.Some? ==> |local.value| == |s|)
    requires |gammaLut| == 256 && |sLut| == 256 && |noise| == |s| / 4
    requires var lv := if local.Some? then Some(local.value[i]) else None;
      out == Finish(Tone(s[i], lv, lo, hi, gammaLut, sLut), Grain(addGrain, grainIntensity, noise, i / 4))
    ensures ToneAt(s, local, lo, hi, gammaLut, sLut, addGrain, grainIntensity, noise, i) == out
    ensures ToneAt(s, local, lo, hi, gammaLut, sLut, addGrain, grainIntensity, noise, i + 1) == out
    ensures ToneAt(s, local, lo, hi, gammaLut, sLut, addGrain, grainIntensity, noise, i + 2) == out
    ensures ToneAt(s, local, lo, hi, gammaLut, sLut, addGrain, grainIntensity, noise, i + 3) == s[i + 3]
  {
    assert (i + 1) / 4 == i / 4 && (i + 2) / 4 == i / 4 && (i + 3) % 4 == 3;
    assert Ch(i / 4, 0) == i;
  }

  /**
   * The per-pixel loop of `timelessBW` on the gray buffer: `scale` is the auto-levels gain and
   * `local` the local-contrast buffer or null.
   */
  method ToneLoop(data: array<byte>, local: array?<byte>, lo: int, scale: real, ghost hi: int,
                  gammaLut: array<byte>, sLut: array<byte>, addGrain: bool, grainIntensity: real, noise: seq<real>)
    requires IsRgba(data[..]) && |noise| == data.Length / 4 && scale == LevelScale(lo, hi)
    requires gammaLut.Length == 256 && sLut.Length == 256 && gammaLut != data && sLut != data
    requires local != null ==> local.Length == data.Length && local != data
    modifies data
    ensures data[..] == ToneAll(old(data[..]), if local == null then None else Some(local[..]), lo, hi,
                                gammaLut[..], sLut[..], addGrain, grainIntensity, noise)
  {
    ghost var s := data[..];
    ghost var lv := if local == null then None else Some(local[..]);
    ghost var t := ToneAll(s, lv, lo, hi, gammaLut[..], sLut[..], addGrain, grainIntensity, noise);
    var i := 0;
    while i < data.Length
      invariant i <= data.Length && i % 4 == 0
      invariant data[..] == t[..i] + s[i..]
    {
      NextPixel(i, data.Length);
      ToneStep(data, local, i, lo, scale, hi, gammaLut, sLut, addGrain, grainIntensity, noise, s, lv, t);
      i := i + 4;
    }
    assert t[..i] + s[i..] == t;
  }

  /** One iteration of the per-pixel loop: pixel `i / 4` goes from its gray value `s` to its final value `t`. */
  method ToneStep(data: array<byte>, local: array?<byte>, i: nat, lo: int, scale: real, ghost hi: int,
                  gammaLut: array<byte>, sLut: array<byte>, addGrain: bool, grainIntensity: real, noise: seq<real>,
                  ghost s: seq<byte>, ghost lv: Option<seq<byte>>, ghost t: seq<byte>)
    requires IsRgba(s) && |s| == data.Length && i % 4 == 0 && i + 4 <= |s|
    requires |noise| == |s| / 4 && scale == LevelScale(lo, hi)
    requires gammaLut.Length == 256 && sLut.Length == 256 && gammaLut != data && sLut != data
    requires local != null ==> local.Length == data.Length && local != data
    requires lv == if local == null then None else Some(local[..])
    requires t == ToneAll(s, lv, lo, hi, gammaLut[..], sLut[..], addGrain, grainIntensity, noise)
    requires data[..] == t[..i] + s[i..]
    modifies data
    ensures data[..] == t[..i + 4] + s[i + 4..]
  {
    assert data[i] == s[i];
    var out := TonePixel(data, local, i, lo, scale, hi, gammaLut, sLut, addGrain, grainIntensity, noise);
    ToneAtPixel(s, lv, lo, hi, gammaLut[..], sLut[..], addGrain, grainIntensity, noise, i, out);
    ghost var before := data[..];
    WriteGray(data, i, out);
    PixelSplice(before, data[..], s, t, i);
  }

  /** `data[i] = data[i + 1] = data[i + 2] = out`. */
  method WriteGray(data: array<byte>, i: nat, out: byte)
    requires i + 3 <= data.Length
    modifies data
    ensures data[..] == old(data[..])[i := out][i + 1 := out][i + 2 := out]
  {
    data[i] := out;
    data[i + 1] := out;
    data[i + 2] := out;
  }

  /** The body of the per-pixel loop up to the write-back: the value of the pixel at `i`. */
  method TonePixel(data: array<byte>, local: array?<byte>, i: nat, lo: int, scale: real, ghost hi: int,
                   gammaLut: array<byte>, sLut: array<byte>, addGrain: bool, grainIntensity: real, noise: seq<real>)
    returns (out: byte)
    requires i % 4 == 0 && i + 4 <= data.Length && |noise| == data.Length / 4 && scale == LevelScale(lo, hi)
    requires gammaLut.Length == 256 && sLut.Length == 256
    requires local != null ==> local.Length == data.Length
    ensures var lv := if local != null then Some(local[i]) else None;
      out == Finish(Tone(data[i], lv, lo, hi, gammaLut[..], sLut[..]), Grain(addGrain, grainIntensity, noise, i / 4))
  {
    var value: real := data[i] as real;
    if local != null {
      value := local[i] as real;
    } else {
      value := Clamp(Gain(value, lo, scale), 0.0, 255.0);
    }
    RoundByte(value);
    var afterGamma := gammaLut[Round(value)];
    RoundInt(afterGamma);
    var toned := sLut[Round(afterGamma as real)];
    out := ApplyGrain(toned, addGrain, grainIntensity, noise, i / 4);
  }

  /** Stage 6 and the write-back for one pixel whose toned value is `toned`. */
  method ApplyGrain(toned: byte, addGrain: bool, grainIntensity: real, noise: seq<real>, p: nat) returns (out: byte)
    requires p < |noise|
    ensures out == Finish(toned, Grain(addGrain, grainIntensity, noise, p))
  {
    var value := toned as real;
    if addGrain {
      var grain := (noise[p] - 0.5) * grainIntensity;
      value := Clamp(value + grain, 0.0, 255.0);
    }
    RoundByte(value);
    out := ToClampedByte(Round(value) as real);
  }

  /**
   * The low, high and median percentile buckets of a histogram `h` of `pixelCount` pixels:
   * the 1%, 99% and 50% targets, ordered low <= median <= high.
   */
  function Levels(h: seq<nat>, pixelCount: nat): (r: (int, int, int))
    requires |h| == 256
    ensures r.0 <= r.2 <= r.1
  {
    PercentilesOrdered(h, pixelCount);
    (PercentileIndex(h, Target(0.01, pixelCount)), PercentileIndex(h, Target(0.99, pixelCount)),
     PercentileIndex(h, Target(0.5, pixelCount)))
  }


  /**
   * The whole buffer after `timelessBW` (without the vignette): `gray` is the BT.709 buffer,
   * `local` the local-contrast buffer when that stage is on.
   */
  ghost function Pipeline(gray: seq<byte>, w: nat, h: nat, st: Settings, local: Option<seq<byte>>,
                          pow: (real, real) -> real, exp: real -> real, noise: seq<real>): (r: seq<byte>)
    requires IsImage(gray, w, h) && (local.Some? ==> |local.value| == |gray|)
    requires forall x :: exp(x) > 0.0
    requires |noise| == |gray| / 4
    ensures |r| == |gray|
  {
    var (lo, hi, median) := Levels(HistogramOf(gray), |gray| / 4);
    var toned := ToneAll(gray, local, lo, hi, Lut(GammaCurve(pow, AutoGamma(st.gamma, median))),
                         Lut(SCurve(exp, st.sCurveStrength)), st.addGrain, st.grainIntensity, noise);
    if st.enableDithering then Dithering.Dither(toned, w, h) else toned
  }

  /** The output keeps every alpha byte of the gray buffer. */
  lemma PipelineKeepsAlpha(gray: seq<byte>, w: nat, h: nat, st: Settings, local: Option<seq<byte>>,
                           pow: (real, real) -> real, exp: real -> real, noise: seq<real>, p: nat)
    requires IsImage(gray, w, h) && (local.Some? ==> |local.value| == |gray|)
    requires forall x :: exp(x) > 0.0
    requires |noise| == |gray| / 4 && p < w * h
    ensures Pipeline(gray, w, h, st, local, pow, exp, noise)[Ch(p, 3)] == gray[Ch(p, 3)]
  {
    var (lo, hi, median) := Levels(HistogramOf(gray), |gray| / 4);
    var gl := Lut(GammaCurve(pow, AutoGamma(st.gamma, median)));
    var sl := Lut(SCurve(exp, st.sCurveStrength));
    ImageIsRgba(gray, w, h);
    ToneAllGray(gray, local, lo, hi, gl, sl, st.addGrain, st.grainIntensity, noise, p);
    if st.enableDithering {
      Dithering.DitherKeepsAlpha(ToneAll(gray, local, lo, hi, gl, sl, st.addGrain, st.grainIntensity, noise), w, h, p);
    }
  }

  /**
   * With dithering on, red, green and blue of every pixel end up 0 or 255; with it off, every
   * pixel is gray (red = green = blue).
   */
  lemma PipelineColours(gray: seq<byte>, w: nat, h: nat, st: Settings, local: Option<seq<byte>>,
                        pow: (real, real) -> real, exp: real -> real, noise: seq<real>, p: nat)
    requires IsImage(gray, w, h) && (local.Some? ==> |local.value| == |gray|)
    requires forall x :: exp(x) > 0.0
    requires |noise| == |gray| / 4 && p < w * h
    ensures var r := Pipeline(gray, w, h, st, local, pow, exp, noise);
      if st.enableDithering then forall c :: 0 <= c < 3 ==> Dithering.IsBW(r[Ch(p, c)])
      else r[Ch(p, 0)] == r[Ch(p, 1)] == r[Ch(p, 2)]
  {
    var (lo, hi, median) := Levels(HistogramOf(gray), |gray| / 4);
    var gl := Lut(GammaCurve(pow, AutoGamma(st.gamma, median)));
    var sl := Lut(SCurve(exp, st.sCurveStrength));
    ImageIsRgba(gray, w, h);
    var toned := ToneAll(gray, local, lo, hi, gl, sl, st.addGrain, st.grainIntensity, noise);
    if st.enableDithering {
      forall c | 0 <= c < 3
        ensures Dithering.IsBW(Dithering.Dither(toned, w, h)[Ch(p, c)])
      {
        Dithering.DitherBinary(toned, w, h, p, c);
      }
    } else {
      ToneAllGray(gray, local, lo, hi, gl, sl, st.addGrain, st.grainIntensity, noise, p);
    }
  }

  /** The three `getPercentileIndex` calls of `timelessBW`. */
  method FindLevels(hist: array<nat>, pixelCount: nat) returns (lo: int, hi: int, median: int)
    requires hist.Length == 256
    ensures (lo, hi, median) == Levels(hist[..], pixelCount)
  {
    lo := GetPercentileIndex(hist, pixelCount, 0.01);
    hi := GetPercentileIndex(hist, pixelCount, 0.99);
    median := GetPercentileIndex(hist, pixelCount, 0.5);
  }

  /**
   * `timelessBW` on the canvas buffer `data` of a `width` x `height` image. `pow` and `exp`
   * stand for `Math.pow` and `Math.exp`, `noise[p]` for the `Math.random()` draw of pixel `p`.
   * The ghost result is the local-contrast buffer when that stage ran.
   */
  method TimelessBW(data: array<byte>, width: nat, height: nat, options: Options,
                    pow: (real, real) -> real, exp: real -> real, noise: seq<real>)
    returns (ghost local: Option<seq<byte>>)
    requires IsImage(data[..], width, height)
    requires forall x :: exp(x) > 0.0
    requires |noise| == data.Length / 4
    modifies data
    ensures var gray := GrayPass(old(data[..]), Luma709);
      && (local.Some? <==> Resolve(options).enableLocalContrast)
      && (local.Some? ==>
            && |local.value| == |gray|
            && forall x: nat, y: nat :: x < width && y < height ==> LocalContrast.Final(local.value, gray, width, height, x, y))
      && data[..] == Pipeline(gray, width, height, Resolve(options), local, pow, exp, noise)
  {
    var settings := Resolve(options);
    ghost var s0 := data[..];
    var hist := GrayscaleAndHistogram(data);
    ghost var gray := data[..];
    var pixelCount := data.Length / 4;
    var lo, hi, median := FindLevels(hist, pixelCount);
    ImageIsRgba(gray, width, height);
    var scale := 255.0 / (if hi - lo > 1 then hi - lo else 1) as real;
    var autoGamma := AutoGamma(settings.gamma, median);
    var gammaLut := BuildGammaLut(pow, autoGamma);
    var sLut := BuildSCurveLut(exp, settings.sCurveStrength);
    var lc: array?<byte> := null;
    local := None;
    if settings.enableLocalContrast {
      lc := LocalContrast.ApplyLocalContrast(data, width, height);
      local := Some(lc[..]);
    }
    ToneLoop(data, lc, lo, scale, hi, gammaLut, sLut, settings.addGrain, settings.grainIntensity, noise);
    if settings.enableDithering {
      Dithering.ApplyDithering(data, width, height);
    }
  }
}
