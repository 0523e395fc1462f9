/**
 * One half of a printed card (lib/pdf-card-renderer.ts): a canvas three times the face size
 * with a white background, the photo fitted to 3:4 at the top, a text banner below it (the
 * event banner, black with white text, or the date badge, framed white with black text) and
 * the sequence number in white at the bottom. Text is set in a monospace font whose size comes
 * from the probed width of an "M", kept in a cache shared by every face.
 */
module CardRenderer {
  import opened Wrappers
  import opened Numeric
  import opened Canvas2D
  import opened JsText
  import opened Decimal
  import opened PdfDoc

  /** The canvas-to-millimetre scale of a face. */
  const Scale: nat := 3

  /** Where the photo, the banner and the sequence number go on a face canvas. */
  datatype FaceLayout = FaceLayout(image: Rect, banner: Rect, sequenceY: real)

  /** The height left for the photo once margins, banner and sequence line are reserved. */
  function AvailableHeight(halfHeight: nat): real
  {
    var s := Scale as real;
    (halfHeight * Scale) as real - 1.5 * s * 2.0 - 20.0 * s - 2.0 * s - 6.0 * s - 1.0 * s
  }

  /** The width left for the photo once the side margins are reserved. */
  function AvailableWidth(cardWidth: nat): real
  {
    (cardWidth * Scale) as real - 1.5 * (Scale as real) * 2.0
  }

  /** The layout of a `cardWidth` x `halfHeight` face, as `renderCardFace` computes it. */
  function Layout(cardWidth: nat, halfHeight: nat): FaceLayout
  {
    var s := Scale as real;
    var w, h := (cardWidth * Scale) as real, (halfHeight * Scale) as real;
    var imageMargin, textHeight, textSpacing, sequenceIdSpacing := 1.5 * s, 20.0 * s, 2.0 * s, 1.0 * s;
    var availableImageHeight := AvailableHeight(halfHeight);
    var availableImageWidth := AvailableWidth(cardWidth);
    var size :=
      if RatioExceeds(availableImageWidth, availableImageHeight, 0.75) then
        (availableImageHeight * 0.75, availableImageHeight)
      else
        (availableImageWidth, availableImageWidth / 0.75);
    var bannerY := imageMargin + size.1 + textSpacing;
    var bannerWidth := w - 4.0 * s;
    FaceLayout(Rect((w - size.0) / 2.0, imageMargin, size.0, size.1),
               Rect((w - bannerWidth) / 2.0, bannerY, bannerWidth, textHeight),
               bannerY + textHeight + sequenceIdSpacing)
  }

  /**
   * The photo is exactly 3:4, as large as the available area allows, horizontally centred and
   * `1.5 * scale` from the top; the banner, as wide as the canvas less `2 * scale` on each side,
   * starts `2 * scale` below the photo; the sequence line starts `scale` below the banner. When
   * there is room for a photo at all, everything ends at least the top margin above the bottom
   * edge.
   */
  lemma LayoutGeometry(cardWidth: nat, halfHeight: nat)
    ensures var w, h, l := (cardWidth * Scale) as real, (halfHeight * Scale) as real, Layout(cardWidth, halfHeight);
      && 4.0 * l.image.width == 3.0 * l.image.height
      && 2.0 * l.image.x + l.image.width == w && l.image.y == 4.5
      && (AvailableWidth(cardWidth) >= 0.0 && AvailableHeight(halfHeight) >= 0.0 ==>
            && 0.0 <= l.image.width <= AvailableWidth(cardWidth)
            && 0.0 <= l.image.height <= AvailableHeight(halfHeight)
            && l.sequenceY + 18.0 + 4.5 <= h)
      && l.banner.y == l.image.y + l.image.height + 6.0 && l.banner.height == 60.0
      && l.banner.width == w - 12.0 && 2.0 * l.banner.x + l.banner.width == w
      && l.sequenceY == l.banner.y + l.banner.height + 3.0
  {
  }

  /** The faces of the export (43 mm x 95 mm): a 120 x 160 photo over a 117-wide banner. */
  lemma ExportFaceLayout()
    ensures Layout(43, 95) == FaceLayout(Rect(4.5, 4.5, 120.0, 160.0), Rect(6.0, 170.5, 117.0, 60.0), 233.5)
  {
    assert !RatioExceeds(AvailableWidth(43), AvailableHeight(95), 0.75);
  }

  /** `text.trim().slice(0, 20)`: at most 20 characters, the start of the trimmed text. */
  function CappedText(s: string): (t: string)
    ensures |t| <= 20 && |t| <= |Trim(s)| && t == Trim(s)[..|t|]
    ensures |Trim(s)| <= 20 ==> t == Trim(s)
  {
    Prefix(Trim(s), 20)
  }

  /** The character count a line is sized for: the least of 5, 15 and 20 that holds `n` characters. */
  function Tier(n: nat): (t: nat)
    ensures t == 5 || t == 15 || t == 20
    ensures n <= 20 ==> n <= t
    ensures t == 15 ==> n > 5
    ensures t == 20 ==> n > 15
  {
    if n <= 5 then 5 else if n <= 15 then 15 else 20
  }

  /** `Math.floor((avail / (cw * maxChars)) * scale)`, with `cw` the width of an "M" at size `scale`. */
  function MonoFontSize(avail: real, cw: real, maxChars: nat, scale: real): int
    requires cw > 0.0 && maxChars > 0
  {
    (avail / (cw * maxChars as real) * scale).Floor
  }

  /**
   * A monospace character is `cw * px / scale` wide at size `px`, so `maxChars` of them take
   * `px * (cw * maxChars) / scale`: the size chosen is the largest whole size whose line fits in
   * `avail`, that is `px * (cw * maxChars) <= avail * scale < (px + 1) * (cw * maxChars)`.
   */
  lemma MonoFontSizeLargestFit(avail: real, cw: real, maxChars: nat, scale: real)
    requires cw > 0.0 && maxChars > 0 && scale > 0.0
    ensures var px, d := MonoFontSize(avail, cw, maxChars, scale), cw * maxChars as real;
      px as real * d <= avail * scale < (px + 1) as real * d
  {
    var px, d := MonoFontSize(avail, cw, maxChars, scale), cw * maxChars as real;
    var q := avail / d * scale;
    DivMulCancel(avail, d, scale);
    assert q * d == avail * scale;
    assert px as real <= q < (px + 1) as real;
    MulLe(px as real, q, d);
    MulLt(q, (px + 1) as real, d);
    assert px as real * d <= avail * scale;
    assert avail * scale < (px + 1) as real * d;
  }

  lemma DivMulCancel(a: real, d: real, s: real)
    requires d > 0.0
    ensures a / d * s * d == a * s
  {
    assert a / d * d == a;
  }

  lemma MulLe(a: real, b: real, c: real)
    requires a <= b && c > 0.0
    ensures a * c <= b * c
  {
  }

  lemma MulLt(a: real, b: real, c: real)
    requires a < b && c > 0.0
    ensures a * c < b * c
  {
  }

  /** Sizing a line for more characters never gives a larger font. */
  lemma MonoFontSizeAntitone(avail: real, cw: real, m1: nat, m2: nat, scale: real)
    requires avail >= 0.0 && cw > 0.0 && scale > 0.0 && 0 < m1 <= m2
    ensures MonoFontSize(avail, cw, m2, scale) <= MonoFontSize(avail, cw, m1, scale)
  {
    var d1, d2 := cw * m1 as real, cw * m2 as real;
    assert 0.0 < d1 <= d2 by {
      MulLe(m1 as real, m2 as real, cw);
    }
    assert avail / d2 <= avail / d1 by {
      assert avail / d1 * d1 == avail && avail / d2 * d2 == avail;
      assert avail / d1 - avail / d2 == avail * (d2 - d1) / (d1 * d2);
    }
    MulLe(avail / d2, avail / d1, scale);
  }

  /** The cache entry for `size` counts as a hit when it is there and not 0 (`if (cache)`). */
  predicate HitIn(widths: map<real, real>, size: real)
  {
    size in widths && widths[size] != 0.0
  }

  /** The cache after probing `size`: unchanged on a hit, else with the measured width stored. */
  function Probed(widths: map<real, real>, size: real, measure: real -> real): (r: map<real, real>)
    ensures size in r
    ensures measure(size) != 0.0 ==> HitIn(r, size)
  {
    if HitIn(widths, size) then widths else widths[size := measure(size)]
  }

  /** The width a probe of `size` returns: the cached one on a hit, else the measured one. */
  function ProbeWidth(widths: map<real, real>, size: real, measure: real -> real): real
  {
    if HitIn(widths, size) then widths[size] else measure(size)
  }

  /** The context font after probing `size`: a miss sets the regular (not bold) monospace font. */
  function FontAfterProbe(widths: map<real, real>, size: real, font: Font): Font
  {
    if HitIn(widths, size) then font else Font(false, size, CourierNew)
  }

  /** Every cached width is the width the oracle measures for that size. */
  predicate Measured(widths: map<real, real>, measure: real -> real)
  {
    forall k :: k in widths ==> widths[k] == measure(k)
  }

  /**
   * A cache faithful to the oracle stays faithful when probed, and the probe then returns the
   * measured width whether it hits or not; other sizes keep their entries; and once a size has
   * been probed with a non-zero width every later probe of it is a hit that changes nothing.
   */
  lemma ProbeMeasured(widths: map<real, real>, size: real, measure: real -> real)
    ensures Measured(widths, measure) ==>
      Measured(Probed(widths, size, measure), measure) && ProbeWidth(widths, size, measure) == measure(size)
    ensures forall k :: k in widths && k != size ==> k in Probed(widths, size, measure) && Probed(widths, size, measure)[k] == widths[k]
    ensures measure(size) != 0.0 ==>
      var w := Probed(widths, size, measure);
      HitIn(w, size) && Probed(w, size, measure) == w && FontAfterProbe(w, size, Font(true, size, CourierNew)).bold
  {
  }

  /**
   * The memo of `monoCharWidth`: probed "M" widths by font size, shared by all faces.
   * `measure(px)` stands for `measureText("M").width` under the regular `px` monospace font.
   */
  class CharWidthCache {
    var widths: map<real, real>

    constructor()
      ensures widths == map[]
    {
      widths := map[];
    }

    /**
     * `monoCharWidth(ctx, size)`: the cached width on a hit, with nothing else done; on a miss
     * the context font becomes the regular monospace font of that size, the width is measured
     * and stored.
     */
    method MonoCharWidth(ctx: Canvas, size: real, measure: real -> real) returns (w: real)
      modifies this, ctx
      ensures w == ProbeWidth(old(widths), size, measure)
      ensures widths == Probed(old(widths), size, measure)
      ensures ctx.style == old(ctx.style).(font := FontAfterProbe(old(widths), size, old(ctx.style.font)))
      ensures ctx.ops == old(ctx.ops) && ctx.width == old(ctx.width) && ctx.height == old(ctx.height)
    {
      var cache := if size in widths then widths[size] else 0.0;
      if cache != 0.0 {
        return cache;
      }
      ctx.style := ctx.style.(font := Font(false, size, CourierNew));
      w := measure(size);
      widths := widths[size := w];
    }

    /** `calcMonoFontSize(ctx, avail, maxChars, scale)`: probe the width at `scale`, then size the font. */
    method CalcMonoFontSize(ctx: Canvas, avail: real, maxChars: nat, scale: real, measure: real -> real)
      returns (px: int)
      requires maxChars > 0 && measure(scale) > 0.0 && Measured(widths, measure)
      modifies this, ctx
      ensures px == MonoFontSize(avail, measure(scale), maxChars, scale)
      ensures widths == Probed(old(widths), scale, measure) && Measured(widths, measure)
      ensures ctx.style == old(ctx.style).(font := FontAfterProbe(old(widths), scale, old(ctx.style.font)))
      ensures ctx.ops == old(ctx.ops) && ctx.width == old(ctx.width) && ctx.height == old(ctx.height)
    {
      ProbeMeasured(widths, scale, measure);
      var cw := MonoCharWidth(ctx, scale, measure);
      px := MonoFontSize(avail, cw, maxChars, scale);
    }
  }

  /**
   * The left edge of a line of `n` characters `charW` wide that is centred in `box`
   * (`x + width / 2 - txtW / 2`): the line's midpoint is the box's midpoint.
   */
  function CenterStart(box: Rect, charW: real, n: nat): (x: real)
    ensures x + charW * n as real / 2.0 == box.x + box.width / 2.0
  {
    box.x + box.width / 2.0 - charW * n as real / 2.0
  }

  /** What a drawing step appends to the canvas and the cache it leaves. */
  datatype Drawn = Drawn(ops: seq<DrawOp>, widths: map<real, real>)

  /**
   * One banner line: set `font`, probe the character width at its size, and draw `text`
   * left-aligned from the point that centres it in `box`. On a cache miss the probe replaces
   * the font by the regular face of the same size, so the line is drawn in that instead.
   */
  function TextLine(widths: map<real, real>, box: Rect, text: string, y: real, font: Font, fill: string,
                    measure: real -> real): (d: Drawn)
    requires Measured(widths, measure)
    ensures |d.ops| == 1 && d.ops[0].FillText? && d.ops[0].text == text && d.ops[0].y == y
    ensures d.ops[0].font == FontAfterProbe(widths, font.px, font) && d.ops[0].font.px == font.px
    ensures d.ops[0].fill == fill && d.ops[0].align == "left" && d.ops[0].baseline == "middle"
    ensures d.ops[0].x == CenterStart(box, measure(font.px), |text|)
    ensures d.widths == Probed(widths, font.px, measure) && Measured(d.widths, measure)
  {
    ProbeMeasured(widths, font.px, measure);
    var charW := ProbeWidth(widths, font.px, measure);
    Drawn([DrawOp.FillText(text, CenterStart(box, charW, |text|), y, FontAfterProbe(widths, font.px, font), fill, "left", "middle")],
          Probed(widths, font.px, measure))
  }

  /**
   * `calcMonoFontSize` for `maxChars` characters in the box less `4 * scale`, then one text line
   * in a monospace font of that size.
   */
  function SizedLine(widths: map<real, real>, box: Rect, text: string, y: real, maxChars: nat, bold: bool, fill: string,
                     scale: real, measure: real -> real): (d: Drawn)
    requires maxChars > 0 && measure(scale) > 0.0 && Measured(widths, measure)
    ensures |d.ops| == 1 && d.ops[0].FillText? && d.ops[0].align == "left"
    ensures Measured(d.widths, measure)
  {
    ProbeMeasured(widths, scale, measure);
    var px := MonoFontSize(box.width - 4.0 * scale, measure(scale), maxChars, scale);
    TextLine(Probed(widths, scale, measure), box, text, y, Font(bold, px as real, CourierNew), fill, measure)
  }

  /**
   * A sized line is `text` in monospace of the size chosen for `maxChars` characters, bold
   * exactly when bold was asked for and the probe of that size hits the cache, at height `y`
   * and horizontally centred in the box.
   */
  lemma SizedLineText(widths: map<real, real>, box: Rect, text: string, y: real, maxChars: nat, bold: bool, fill: string,
                      scale: real, measure: real -> real)
    requires maxChars > 0 && measure(scale) > 0.0 && Measured(widths, measure)
    ensures var op := SizedLine(widths, box, text, y, maxChars, bold, fill, scale, measure).ops[0];
      var px := MonoFontSize(box.width - 4.0 * scale, measure(scale), maxChars, scale);
      && op.text == text && op.fill == fill && op.baseline == "middle" && op.y == y
      && op.font == Font(bold && HitIn(Probed(widths, scale, measure), px as real), px as real, CourierNew)
      && op.x == CenterStart(box, measure(px as real), |text|)
  {
    ProbeMeasured(widths, scale, measure);
  }

  /**
   * `drawCanvasEventBanner` on `banner`: a black box, then the capped text in bold white
   * monospace sized for its tier, at mid-height.
   */
  function EventBanner(widths: map<real, real>, banner: Rect, text: string, scale: real, measure: real -> real): (d: Drawn)
    requires measure(scale) > 0.0 && Measured(widths, measure)
    ensures |d.ops| == 2 && d.ops[0] == DrawOp.FillRect(banner, "#000")
    ensures d.ops[1].FillText? && d.ops[1].align == "left"
    ensures Measured(d.widths, measure)
  {
    var t := CappedText(text);
    var line := SizedLine(widths, banner, t, banner.y + banner.height / 2.0, Tier(|t|), true, "#fff", scale, measure);
    Drawn([DrawOp.FillRect(banner, "#000")] + line.ops, line.widths)
  }

  /**
   * The event banner's text line: the capped text in white monospace, sized for its tier,
   * vertically centred and horizontally centred in the banner; bold only when the probe of its
   * size hits the cache.
   */
  lemma EventBannerText(widths: map<real, real>, banner: Rect, text: string, scale: real, measure: real -> real)
    requires measure(scale) > 0.0 && Measured(widths, measure)
    ensures var op := EventBanner(widths, banner, text, scale, measure).ops[1];
      var t := CappedText(text);
      var px := MonoFontSize(banner.width - 4.0 * scale, measure(scale), Tier(|t|), scale);
      && op.text == t && |t| <= Tier(|t|)
      && op.font == Font(HitIn(Probed(widths, scale, measure), px as real), px as real, CourierNew)
      && op.fill == "#fff" && op.baseline == "middle"
      && op.y == banner.y + banner.height / 2.0
      && op.x == CenterStart(banner, measure(px as real), |t|)
  {
    var t := CappedText(text);
    SizedLineText(widths, banner, t, banner.y + banner.height / 2.0, Tier(|t|), true, "#fff", scale, measure);
  }

  /** Whether the badge has an event line: `eventName?.trim()` is a non-empty string. */
  predicate HasEventLine(eventName: Option<string>)
  {
    eventName.Some? && Trim(eventName.value) != []
  }

  /** The date line of the badge. */
  function DateLine(widths: map<real, real>, banner: Rect, dateText: string, scale: real, measure: real -> real): (d: Drawn)
    requires measure(scale) > 0.0 && Measured(widths, measure)
    ensures |d.ops| == 1 && d.ops[0].FillText? && d.ops[0].align == "left"
    ensures Measured(d.widths, measure)
  {
    SizedLine(widths, banner, dateText, banner.y + banner.height / 4.0, 8, true, "#000", scale, measure)
  }

  /** The event line of the badge. */
  function EventLine(widths: map<real, real>, banner: Rect, eventName: string, scale: real, measure: real -> real): (d: Drawn)
    requires measure(scale) > 0.0 && Measured(widths, measure)
    ensures |d.ops| == 1 && d.ops[0].FillText? && d.ops[0].align == "left"
    ensures Measured(d.widths, measure)
  {
    var t := CappedText(eventName);
    SizedLine(widths, banner, t, banner.y + 3.0 * banner.height / 4.0, Tier(|t|), false, "#000", scale, measure)
  }

  /**
   * `drawCanvasYearBadge` on `banner`: a white box framed in black, the date line, and the
   * event line only when the event name has non-blank text.
   */
  function YearBadge(widths: map<real, real>, banner: Rect, dateText: string, scale: real,
                     eventName: Option<string>, measure: real -> real): (d: Drawn)
    requires measure(scale) > 0.0 && Measured(widths, measure)
    ensures |d.ops| == (if HasEventLine(eventName) then 4 else 3)
    ensures d.ops[0] == DrawOp.FillRect(banner, "#fff") && d.ops[1] == DrawOp.StrokeRect(banner, "#000", 0.3 * scale)
    ensures d.ops[2].FillText? && d.ops[2].align == "left"
    ensures |d.ops| == 4 ==> d.ops[3].FillText? && d.ops[3].align == "left"
    ensures Measured(d.widths, measure)
  {
    var date := DateLine(widths, banner, dateText, scale, measure);
    var frame := [DrawOp.FillRect(banner, "#fff"), DrawOp.StrokeRect(banner, "#000", 0.3 * scale)] + date.ops;
    if HasEventLine(eventName) then
      var line := EventLine(date.widths, banner, eventName.value, scale, measure);
      Drawn(frame + line.ops, line.widths)
    else
      Drawn(frame, date.widths)
  }

  /**
   * The date line of the badge: the date in black monospace sized for 8 characters, a quarter
   * of the way down and centred in the banner; bold only when the probe of its size hits.
   */
  lemma YearBadgeDateLine(widths: map<real, real>, banner: Rect, dateText: string, scale: real,
                          eventName: Option<string>, measure: real -> real)
    requires measure(scale) > 0.0 && Measured(widths, measure)
    ensures var op := YearBadge(widths, banner, dateText, scale, eventName, measure).ops[2];
      var px := MonoFontSize(banner.width - 4.0 * scale, measure(scale), 8, scale);
      && op.text == dateText && op.fill == "#000" && op.baseline == "middle"
      && op.font == Font(HitIn(Probed(widths, scale, measure), px as real), px as real, CourierNew)
      && op.y == banner.y + banner.height / 4.0
      && op.x == CenterStart(banner, measure(px as real), |dateText|)
  {
    SizedLineText(widths, banner, dateText, banner.y + banner.height / 4.0, 8, true, "#000", scale, measure);
  }

  /**
   * The event line of the badge, drawn exactly when the event name has non-blank text: the
   * capped name in the regular black monospace face sized for its tier, three quarters of the
   * way down and centred in the banner.
   */
  lemma YearBadgeEventLine(widths: map<real, real>, banner: Rect, dateText: string, scale: real,
                           eventName: Option<string>, measure: real -> real)
    requires measure(scale) > 0.0 && Measured(widths, measure)
    ensures HasEventLine(eventName) ==>
      var op := YearBadge(widths, banner, dateText, scale, eventName, measure).ops[3];
      var t := CappedText(eventName.value);
      var px := MonoFontSize(banner.width - 4.0 * scale, measure(scale), Tier(|t|), scale);
      && op.text == t && op.fill == "#000"
      && op.font == Font(false, px as real, CourierNew)
      && op.y == banner.y + 3.0 * banner.height / 4.0
      && op.x == CenterStart(banner, measure(px as real), |t|)
  {
    if HasEventLine(eventName) {
      var date := DateLine(widths, banner, dateText, scale, measure);
      var t := CappedText(eventName.value);
      SizedLineText(date.widths, banner, t, banner.y + 3.0 * banner.height / 4.0, Tier(|t|), false, "#000", scale, measure);
    }
  }

  /** `drawSequenceId`: the number in white Arial `4 * scale` px, centred horizontally, top at `y`. */
  function SequenceIdOp(centerX: real, y: real, sequenceId: int, scale: real): DrawOp
  {
    DrawOp.FillText(IntToString(sequenceId), centerX, y, Font(false, 4.0 * scale, Arial), "#ffffff", "center", "top")
  }

  /** The banner of a face: the event banner on the event side, the date badge on the other. */
  function Banner(widths: map<real, real>, banner: Rect, text: string, isEventSide: bool,
                  eventName: Option<string>, measure: real -> real): (d: Drawn)
    requires measure(Scale as real) > 0.0 && Measured(widths, measure)
    ensures 3 <= |d.ops| + (if isEventSide then 1 else 0) <= 4
    ensures d.ops[0] == DrawOp.FillRect(banner, if isEventSide then "#000" else "#fff")
    ensures forall i :: 0 <= i < |d.ops| ==> d.ops[i].FillText? ==> d.ops[i].align == "left"
    ensures Measured(d.widths, measure)
  {
    if isEventSide then EventBanner(widths, banner, text, Scale as real, measure)
    else YearBadge(widths, banner, text, Scale as real, eventName, measure)
  }

  /** The first two layers of a face: white over the whole canvas, then the picture in the photo rectangle. */
  function Background(image: Bitmap, cardWidth: nat, halfHeight: nat): seq<DrawOp>
  {
    var w, h := (cardWidth * Scale) as real, (halfHeight * Scale) as real;
    [DrawOp.FillRect(Rect(0.0, 0.0, w, h), "#ffffff"), DrawOp.DrawImage(image, None, Layout(cardWidth, halfHeight).image)]
  }

  /** The sequence number, centred on the canvas at the sequence line, when there is one. */
  function SequenceIdLayer(sequenceId: Option<int>, cardWidth: nat, halfHeight: nat): seq<DrawOp>
  {
    if sequenceId.Some? then
      [SequenceIdOp((cardWidth * Scale) as real / 2.0, Layout(cardWidth, halfHeight).sequenceY, sequenceId.value, Scale as real)]
    else
      []
  }

  /**
   * `renderCardFace`: the background, the banner of the side, and the sequence number; the
   * cache stays faithful to the oracle.
   */
  function Face(widths: map<real, real>, image: Bitmap, text: string, isEventSide: bool, cardWidth: nat, halfHeight: nat,
                sequenceId: Option<int>, eventName: Option<string>, measure: real -> real): (d: Drawn)
    requires measure(Scale as real) > 0.0 && Measured(widths, measure)
    ensures Measured(d.widths, measure)
  {
    var banner := Banner(widths, Layout(cardWidth, halfHeight).banner, text, isEventSide, eventName, measure);
    Drawn(Background(image, cardWidth, halfHeight) + banner.ops + SequenceIdLayer(sequenceId, cardWidth, halfHeight), banner.widths)
  }

  /**
   * The layers of a face from the bottom: white over the whole canvas, the picture in the photo
   * rectangle, the banner box (black on the event side, white on the date side), and, last, the
   * sequence number exactly when there is one.
   */
  lemma FaceLayers(widths: map<real, real>, image: Bitmap, text: string, isEventSide: bool, cardWidth: nat, halfHeight: nat,
                   sequenceId: Option<int>, eventName: Option<string>, measure: real -> real)
    requires measure(Scale as real) > 0.0 && Measured(widths, measure)
    ensures var ops, w, h, l := Face(widths, image, text, isEventSide, cardWidth, halfHeight, sequenceId, eventName, measure).ops,
        (cardWidth * Scale) as real, (halfHeight * Scale) as real, Layout(cardWidth, halfHeight);
      && |ops| >= 4
      && ops[0] == DrawOp.FillRect(Rect(0.0, 0.0, w, h), "#ffffff")
      && ops[1] == DrawOp.DrawImage(image, None, l.image)
      && ops[2] == DrawOp.FillRect(l.banner, if isEventSide then "#000" else "#fff")
      && (sequenceId.Some? ==> ops[|ops| - 1] == SequenceIdOp(w / 2.0, l.sequenceY, sequenceId.value, Scale as real))
  {
    var banner := Banner(widths, Layout(cardWidth, halfHeight).banner, text, isEventSide, eventName, measure);
    var ops := Face(widths, image, text, isEventSide, cardWidth, halfHeight, sequenceId, eventName, measure).ops;
    assert ops[2] == banner.ops[0];
  }

  /**
   * A face without a sequence number draws no centred text at all: the sequence number is the
   * only centred line, and every banner line is left-aligned.
   */
  lemma FaceWithoutSequenceId(widths: map<real, real>, image: Bitmap, text: string, isEventSide: bool, cardWidth: nat,
                              halfHeight: nat, eventName: Option<string>, measure: real -> real)
    requires measure(Scale as real) > 0.0 && Measured(widths, measure)
    ensures var ops := Face(widths, image, text, isEventSide, cardWidth, halfHeight, None, eventName, measure).ops;
      forall i :: 0 <= i < |ops| ==> !(ops[i].FillText? && ops[i].align == "center")
  {
    var banner := Banner(widths, Layout(cardWidth, halfHeight).banner, text, isEventSide, eventName, measure);
    var ops := Face(widths, image, text, isEventSide, cardWidth, halfHeight, None, eventName, measure).ops;
    assert ops == Background(image, cardWidth, halfHeight) + banner.ops;
    forall i | 0 <= i < |ops|
      ensures !(ops[i].FillText? && ops[i].align == "center")
    {
      if i >= 2 {
        assert ops[i] == banner.ops[i - 2];
      }
    }
  }

  /** The picture `flipCanvas` makes of a canvas picture: the same size, drawn upside down. */
  function Flipped(b: Bitmap): (f: Bitmap)
    requires b.Snapshot?
    ensures f.Snapshot? && f.width == b.width && f.height == b.height
  {
    var w, h := b.width as real, b.height as real;
    Snapshot(b.width, b.height, [Translate(w / 2.0, h / 2.0), RotateHalfTurn, DrawImage(b, None, Rect(-w / 2.0, -h / 2.0, w, h))])
  }

  /** The statements every banner line shares: font, width probe, left alignment, `fillText`. */
  method DrawTextLine(cache: CharWidthCache, ctx: Canvas, box: Rect, text: string, y: real, font: Font, measure: real -> real)
    requires Measured(cache.widths, measure) && ctx.style.baseline == "middle"
    modifies cache, ctx
    ensures ctx.ops == old(ctx.ops) + TextLine(old(cache.widths), box, text, y, font, old(ctx.style.fill), measure).ops
    ensures cache.widths == TextLine(old(cache.widths), box, text, y, font, old(ctx.style.fill), measure).widths
    ensures ctx.style == old(ctx.style).(font := FontAfterProbe(old(cache.widths), font.px, font), align := "left")
    ensures Measured(cache.widths, measure)
    ensures ctx.width == old(ctx.width) && ctx.height == old(ctx.height)
  {
    ctx.style := ctx.style.(font := font);
    var charW := cache.MonoCharWidth(ctx, font.px, measure);
    var cx := CenterStart(box, charW, |text|);
    ctx.style := ctx.style.(align := "left");
    ctx.FillText(text, cx, y);
  }

  /**
   * `calcMonoFontSize(ctx, width - 4 * scale, maxChars, scale)` followed by the statements of
   * one text line; the caller has set the fill style and the `middle` baseline.
   */
  method DrawSizedLine(cache: CharWidthCache, ctx: Canvas, box: Rect, text: string, y: real, maxChars: nat, bold: bool,
                       scale: real, measure: real -> real)
    requires maxChars > 0 && measure(scale) > 0.0 && Measured(cache.widths, measure) && ctx.style.baseline == "middle"
    modifies cache, ctx
    ensures var d := SizedLine(old(cache.widths), box, text, y, maxChars, bold, old(ctx.style.fill), scale, measure);
      ctx.ops == old(ctx.ops) + d.ops && cache.widths == d.widths
    ensures ctx.style.fill == old(ctx.style.fill) && ctx.style.baseline == "middle" && ctx.style.align == "left"
    ensures ctx.width == old(ctx.width) && ctx.height == old(ctx.height)
  {
    var px := cache.CalcMonoFontSize(ctx, box.width - 4.0 * scale, maxChars, scale, measure);
    DrawTextLine(cache, ctx, box, text, y, Font(bold, px as real, CourierNew), measure);
  }

  /**
   * `drawCanvasEventBanner(ctx, x, y, width, height, text, scale)`; the white fill and the
   * baseline are set before the font is sized rather than after, which sizing does not read.
   */
  method DrawEventBanner(cache: CharWidthCache, ctx: Canvas, banner: Rect, text: string, scale: real, measure: real -> real)
    requires measure(scale) > 0.0 && Measured(cache.widths, measure)
    modifies cache, ctx
    ensures var d := EventBanner(old(cache.widths), banner, text, scale, measure);
      ctx.ops == old(ctx.ops) + d.ops && cache.widths == d.widths
    ensures ctx.width == old(ctx.width) && ctx.height == old(ctx.height)
  {
    ctx.style := ctx.style.(fill := "#000");
    ctx.FillRect(banner);
    var t := CappedText(text);
    var tier := Tier(|t|);
    ctx.style := ctx.style.(fill := "#fff", baseline := "middle");
    DrawSizedLine(cache, ctx, banner, t, banner.y + banner.height / 2.0, tier, true, scale, measure);
  }

  /** `drawCanvasYearBadge(ctx, x, y, width, height, dateText, scale, eventName)`, with the same reordering. */
  method DrawYearBadge(cache: CharWidthCache, ctx: Canvas, banner: Rect, dateText: string, scale: real,
                       eventName: Option<string>, measure: real -> real)
    requires measure(scale) > 0.0 && Measured(cache.widths, measure)
    modifies cache, ctx
    ensures var d := YearBadge(old(cache.widths), banner, dateText, scale, eventName, measure);
      ctx.ops == old(ctx.ops) + d.ops && cache.widths == d.widths
    ensures ctx.width == old(ctx.width) && ctx.height == old(ctx.height)
  {
    ghost var ops0, widths0 := ctx.ops, cache.widths;
    DrawBadgeFrame(cache, ctx, banner, dateText, scale, measure);
    ghost var date := DateLine(widths0, banner, dateText, scale, measure);
    ghost var frame := [DrawOp.FillRect(banner, "#fff"), DrawOp.StrokeRect(banner, "#000", 0.3 * scale)] + date.ops;
    if HasEventLine(eventName) {
      var t := CappedText(eventName.value);
      var tier := Tier(|t|);
      DrawSizedLine(cache, ctx, banner, t, banner.y + 3.0 * banner.height / 4.0, tier, false, scale, measure);
      assert ctx.ops == ops0 + (frame + EventLine(date.widths, banner, eventName.value, scale, measure).ops);
    }
  }

  /** The framed white box of the badge and its date line, leaving black fill and the `middle` baseline set. */
  method DrawBadgeFrame(cache: CharWidthCache, ctx: Canvas, banner: Rect, dateText: string, scale: real, measure: real -> real)
    requires measure(scale) > 0.0 && Measured(cache.widths, measure)
    modifies cache, ctx
    ensures var date := DateLine(old(cache.widths), banner, dateText, scale, measure);
      && ctx.ops == old(ctx.ops) + ([DrawOp.FillRect(banner, "#fff"), DrawOp.StrokeRect(banner, "#000", 0.3 * scale)] + date.ops)
      && cache.widths == date.widths
    ensures Measured(cache.widths, measure)
    ensures ctx.style.fill == "#000" && ctx.style.baseline == "middle"
    ensures ctx.width == old(ctx.width) && ctx.height == old(ctx.height)
  {
    ghost var ops0, widths0 := ctx.ops, cache.widths;
    ctx.style := ctx.style.(fill := "#fff", stroke := "#000", lineWidth := 0.3 * scale);
    ctx.FillRect(banner);
    ctx.StrokeRect(banner);
    ctx.style := ctx.style.(fill := "#000", baseline := "middle");
    DrawSizedLine(cache, ctx, banner, dateText, banner.y + banner.height / 4.0, 8, true, scale, measure);
  }

  /** `drawSequenceId(ctx, centerX, y, sequenceId, scale)`. */
  method DrawSequenceId(ctx: Canvas, centerX: real, y: real, sequenceId: int, scale: real)
    modifies ctx
    ensures ctx.ops == old(ctx.ops) + [SequenceIdOp(centerX, y, sequenceId, scale)]
    ensures ctx.width == old(ctx.width) && ctx.height == old(ctx.height)
  {
    ctx.style := ctx.style.(fill := "#ffffff", font := Font(false, 4.0 * scale, Arial), align := "center", baseline := "top");
    ctx.FillText(IntToString(sequenceId), centerX, y);
  }

  /**
   * `renderCardFace(imageData, text, isEventSide, cardWidth, halfHeight, sequenceId, eventName)`
   * with the picture already loaded.
   */
  method RenderCardFace(cache: CharWidthCache, image: Bitmap, text: string, isEventSide: bool, cardWidth: nat, halfHeight: nat,
                        sequenceId: Option<int>, eventName: Option<string>, measure: real -> real)
    returns (canvas: Canvas)
    requires measure(Scale as real) > 0.0 && Measured(cache.widths, measure)
    modifies cache
    ensures fresh(canvas) && canvas.width == cardWidth * Scale && canvas.height == halfHeight * Scale
    ensures var d := Face(old(cache.widths), image, text, isEventSide, cardWidth, halfHeight, sequenceId, eventName, measure);
      canvas.ops == d.ops && cache.widths == d.widths
    ensures Measured(cache.widths, measure)
  {
    canvas := new Canvas(cardWidth * Scale, halfHeight * Scale);
    var l := Layout(cardWidth, halfHeight);
    DrawBackground(canvas, image, l.image);
    ghost var background := Background(image, cardWidth, halfHeight);
    assert canvas.ops == background;
    ghost var banner := Banner(old(cache.widths), l.banner, text, isEventSide, eventName, measure);
    DrawBanner(cache, canvas, l.banner, text, isEventSide, eventName, measure);
    assert canvas.ops == background + banner.ops;
    if sequenceId.Some? {
      DrawSequenceId(canvas, canvas.width as real / 2.0, l.sequenceY, sequenceId.value, Scale as real);
    }
    assert canvas.ops == background + banner.ops + SequenceIdLayer(sequenceId, cardWidth, halfHeight);
  }

  /** The white fill over the whole canvas, then the picture drawn into `dest`. */
  method DrawBackground(ctx: Canvas, image: Bitmap, dest: Rect)
    modifies ctx
    ensures ctx.ops == old(ctx.ops) + [DrawOp.FillRect(Rect(0.0, 0.0, ctx.width as real, ctx.height as real), "#ffffff"),
                                       DrawOp.DrawImage(image, None, dest)]
    ensures ctx.width == old(ctx.width) && ctx.height == old(ctx.height)
  {
    ctx.style := ctx.style.(fill := "#ffffff");
    ctx.FillRect(Rect(0.0, 0.0, ctx.width as real, ctx.height as real));
    ctx.DrawImage(image, None, dest);
  }

  /** The banner statement of `renderCardFace`: the event banner on the event side, the date badge otherwise. */
  method DrawBanner(cache: CharWidthCache, ctx: Canvas, banner: Rect, text: string, isEventSide: bool,
                    eventName: Option<string>, measure: real -> real)
    requires measure(Scale as real) > 0.0 && Measured(cache.widths, measure)
    modifies cache, ctx
    ensures var d := Banner(old(cache.widths), banner, text, isEventSide, eventName, measure);
      ctx.ops == old(ctx.ops) + d.ops && cache.widths == d.widths
    ensures Measured(cache.widths, measure)
    ensures ctx.width == old(ctx.width) && ctx.height == old(ctx.height)
  {
    ghost var widths0 := cache.widths;
    if isEventSide {
      DrawEventBanner(cache, ctx, banner, text, Scale as real, measure);
    } else {
      DrawYearBadge(cache, ctx, banner, text, Scale as real, eventName, measure);
    }
    assert cache.widths == Banner(widths0, banner, text, isEventSide, eventName, measure).widths;
  }

  /** `flipCanvas(canvas)`: a canvas of the same size showing the picture upside down. */
  method FlipCanvas(canvas: Canvas) returns (flipped: Canvas)
    ensures fresh(flipped) && flipped.width == canvas.width && flipped.height == canvas.height
    ensures flipped.ToDataURL() == Flipped(canvas.ToDataURL())
  {
    flipped := new Canvas(canvas.width, canvas.height);
    var w, h := flipped.width as real, flipped.height as real;
    flipped.Translate(w / 2.0, h / 2.0);
    flipped.RotateHalfTurn();
    flipped.DrawImage(canvas.ToDataURL(), None, Rect(-w / 2.0, -h / 2.0, w, h));
  }

  /** The picture of a face. */
  function FaceImage(widths: map<real, real>, image: Bitmap, text: string, isEventSide: bool, cardWidth: nat, halfHeight: nat,
                     sequenceId: Option<int>, eventName: Option<string>, measure: real -> real): (b: Bitmap)
    requires measure(Scale as real) > 0.0 && Measured(widths, measure)
    ensures b.Snapshot? && b.width == cardWidth * Scale && b.height == halfHeight * Scale
  {
    Snapshot(cardWidth * Scale, halfHeight * Scale,
             Face(widths, image, text, isEventSide, cardWidth, halfHeight, sequenceId, eventName, measure).ops)
  }

  /** `drawCardFace(pdf, ...)`: the face placed as a JPEG at `(x, y)`, `cardWidth` x `halfHeight` mm. */
  method DrawCardFace(pdf: Pdf, cache: CharWidthCache, image: Bitmap, text: string, isEventSide: bool, x: real, y: real,
                      cardWidth: nat, halfHeight: nat, sequenceId: Option<int>, eventName: Option<string>, measure: real -> real)
    requires measure(Scale as real) > 0.0 && Measured(cache.widths, measure)
    modifies pdf, cache
    ensures pdf.ops == old(pdf.ops) + [PdfOp.AddImage(
      FaceImage(old(cache.widths), image, text, isEventSide, cardWidth, halfHeight, sequenceId, eventName, measure),
      "JPEG", x, y, cardWidth as real, halfHeight as real)]
    ensures cache.widths == Face(old(cache.widths), image, text, isEventSide, cardWidth, halfHeight, sequenceId, eventName, measure).widths
    ensures Measured(cache.widths, measure)
  {
    var canvas := RenderCardFace(cache, image, text, isEventSide, cardWidth, halfHeight, sequenceId, eventName, measure);
    pdf.AddImage(canvas.ToDataURL(), "JPEG", x, y, cardWidth as real, halfHeight as real);
  }

  /** `drawFlippedCardFace(pdf, ...)`: the same with the face turned upside down. */
  method DrawFlippedCardFace(pdf: Pdf, cache: CharWidthCache, image: Bitmap, text: string, isEventSide: bool, x: real, y: real,
                             cardWidth: nat, halfHeight: nat, sequenceId: Option<int>, eventName: Option<string>, measure: real -> real)
    requires measure(Scale as real) > 0.0 && Measured(cache.widths, measure)
    modifies pdf, cache
    ensures pdf.ops == old(pdf.ops) + [PdfOp.AddImage(
      Flipped(FaceImage(old(cache.widths), image, text, isEventSide, cardWidth, halfHeight, sequenceId, eventName, measure)),
      "JPEG", x, y, cardWidth as real, halfHeight as real)]
    ensures cache.widths == Face(old(cache.widths), image, text, isEventSide, cardWidth, halfHeight, sequenceId, eventName, measure).widths
    ensures Measured(cache.widths, measure)
  {
    var canvas := RenderCardFace(cache, image, text, isEventSide, cardWidth, halfHeight, sequenceId, eventName, measure);
    var flipped := FlipCanvas(canvas);
    pdf.AddImage(flipped.ToDataURL(), "JPEG", x, y, cardWidth as real, halfHeight as real);
  }
}
