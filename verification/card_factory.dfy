/**
 * One printed card (lib/pdf-card-factory.ts): the date face, turned upside down, on the upper
 * half and the event face on the lower half, so that the card reads correctly on both sides
 * once folded along the middle. Both faces show the same gray 3:4 crop of the photo, or a gray
 * "Image" placeholder when the photo cannot be loaded.
 */
module CardFactory {
  import opened Wrappers
  import opened Numeric
  import opened Pixels
  import opened Canvas2D
  import opened Decimal
  import opened PdfDoc
  import opened TimelineCards
  import ImageUtils
  import opened CardRenderer

  const MonthNames: seq<string> := ["Jan", "Feb", "Mar", "Apr", "May", "Jun", "Jul", "Aug", "Sep", "Oct", "Nov", "Dec"]

  /**
   * `formatDateText(card, yearCounts)`: "<month> <year>" when the card has a full date, else
   * just the year; `yearCounts` is not read. The text always ends with the year, which reads
   * back as the card's year.
   */
  function FormatDateText(card: TimelineCard, yearCounts: map<int, nat>): (s: string)
    ensures var y := IntToString(card.year);
      |s| >= |y| && s[|s| - |y|..] == y
    ensures card.fullDate.None? ==> s == IntToString(card.year)
    ensures card.fullDate.Some? ==> |s| >= 4 && s[..4] == MonthNames[card.fullDate.value.month] + " "
    ensures card.fullDate.Some? ==> |s| == 4 + |IntToString(card.year)|
  {
    if card.fullDate.Some? then
      MonthNames[card.fullDate.value.month] + " " + IntToString(card.year)
    else
      IntToString(card.year)
  }

  /**
   * A four-digit year gives a date text of at most 8 characters, exactly the count the badge's
   * date line is sized for, and the year can be read back from its last four characters.
   */
  lemma DateTextFitsBadge(card: TimelineCard, yearCounts: map<int, nat>)
    requires 1000 <= card.year < 10000
    ensures var s := FormatDateText(card, yearCounts);
      |s| == (if card.fullDate.Some? then 8 else 4) && ParseInt(s[|s| - 4..]) == card.year
  {
    FourDigits(card.year);
    IntToStringRoundTrip(card.year);
  }

  /** What loading the photo yields: its natural size and the pixels read back after cropping. */
  datatype Loaded = Loaded(width: nat, height: nat, pixels: seq<byte>)

  /** The size of the cropped picture both faces show. */
  const CropWidth: nat := 150
  const CropHeight: nat := 200

  /** The cropped gray picture of a loaded photo. */
  function CroppedPhoto(url: string, photo: Loaded): Bitmap
    requires IsImage(photo.pixels, CropWidth * ImageUtils.Scale, CropHeight * ImageUtils.Scale)
  {
    ImageIsRgba(photo.pixels, CropWidth * ImageUtils.Scale, CropHeight * ImageUtils.Scale);
    var w, h := (CropWidth * ImageUtils.Scale) as real, (CropHeight * ImageUtils.Scale) as real;
    Snapshot(CropWidth * ImageUtils.Scale, CropHeight * ImageUtils.Scale,
      [DrawImage(Photo(url), Some(ImageUtils.CropWindow(photo.width, photo.height)), Rect(0.0, 0.0, w, h)),
       PutImageData(GrayPass(photo.pixels, Luma601))])
  }

  /**
   * The two `addImage` calls of a card and the cache after them: the date face with the sequence
   * number and the event line, flipped, at `(x, y)`; the event face with the sequence number at
   * `(x, y + halfHeight)`.
   */
  function CardFaces(widths: map<real, real>, image: Bitmap, dateText: string, eventText: string, x: real, y: real,
                     cardWidth: nat, halfHeight: nat, sequenceId: int, measure: real -> real): (r: (seq<PdfOp>, map<real, real>))
    requires measure(Scale as real) > 0.0 && Measured(widths, measure)
    ensures |r.0| == 2 && AddedPages(r.0) == 0 && Measured(r.1, measure)
    ensures r.0[0].AddImage? && r.0[1].AddImage?
    ensures r.0[0].x == r.0[1].x == x && r.0[0].y == y && r.0[1].y == y + halfHeight as real
    ensures r.0[0].width == r.0[1].width == cardWidth as real && r.0[0].height == r.0[1].height == halfHeight as real
  {
    var top := Face(widths, image, dateText, false, cardWidth, halfHeight, Some(sequenceId), Some(eventText), measure);
    var bottom := Face(top.widths, image, eventText, true, cardWidth, halfHeight, Some(sequenceId), None, measure);
    var ops := [PdfOp.AddImage(Flipped(FaceImage(widths, image, dateText, false, cardWidth, halfHeight, Some(sequenceId), Some(eventText), measure)),
                               "JPEG", x, y, cardWidth as real, halfHeight as real),
                PdfOp.AddImage(FaceImage(top.widths, image, eventText, true, cardWidth, halfHeight, Some(sequenceId), None, measure),
                               "JPEG", x, y + halfHeight as real, cardWidth as real, halfHeight as real)];
    assert AddedPages(ops[..1]) == 0;
    (ops, bottom.widths)
  }

  /**
   * Both faces of a card show the same picture and the same sequence number: the upper one
   * upside down with the date badge (black on white), the lower one upright with the event banner
   * (white on black).
   */
  lemma CardFacesPair(widths: map<real, real>, image: Bitmap, dateText: string, eventText: string, x: real, y: real,
                      cardWidth: nat, halfHeight: nat, sequenceId: int, measure: real -> real)
    requires measure(Scale as real) > 0.0 && Measured(widths, measure)
    ensures var ops := CardFaces(widths, image, dateText, eventText, x, y, cardWidth, halfHeight, sequenceId, measure).0;
      var l := Layout(cardWidth, halfHeight);
      var upper := ops[0].image.ops[2].image;
      var lower := ops[1].image;
      && ops[0].image.ops[2].DrawImage? && upper.Snapshot? && lower.Snapshot?
      && upper.ops[1] == DrawImage(image, None, l.image) && lower.ops[1] == DrawImage(image, None, l.image)
      && upper.ops[2] == DrawOp.FillRect(l.banner, "#fff") && lower.ops[2] == DrawOp.FillRect(l.banner, "#000")
      && upper.ops[|upper.ops| - 1] == lower.ops[|lower.ops| - 1]
      && upper.ops[|upper.ops| - 1] == SequenceIdOp((cardWidth * Scale) as real / 2.0, l.sequenceY, sequenceId, Scale as real)
  {
    var top := Face(widths, image, dateText, false, cardWidth, halfHeight, Some(sequenceId), Some(eventText), measure);
    FaceLayers(widths, image, dateText, false, cardWidth, halfHeight, Some(sequenceId), Some(eventText), measure);
    FaceLayers(top.widths, image, eventText, true, cardWidth, halfHeight, Some(sequenceId), None, measure);
  }

  /** The two face statements `addImageToCard` and `addPlaceholderToCard` share. */
  method AddFaces(pdf: Pdf, cache: CharWidthCache, image: Bitmap, dateText: string, eventText: string, x: real, y: real,
                  cardWidth: nat, halfHeight: nat, sequenceId: int, measure: real -> real)
    requires measure(Scale as real) > 0.0 && Measured(cache.widths, measure)
    modifies pdf, cache
    ensures var r := CardFaces(old(cache.widths), image, dateText, eventText, x, y, cardWidth, halfHeight, sequenceId, measure);
      pdf.ops == old(pdf.ops) + r.0 && cache.widths == r.1
    ensures Measured(cache.widths, measure)
  {
    ghost var r := CardFaces(cache.widths, image, dateText, eventText, x, y, cardWidth, halfHeight, sequenceId, measure);
    ghost var ops0 := pdf.ops;
    DrawFlippedCardFace(pdf, cache, image, dateText, false, x, y, cardWidth, halfHeight,
                        Some(sequenceId), Some(eventText), measure);
    assert pdf.ops == ops0 + r.0[..1];
    DrawCardFace(pdf, cache, image, eventText, true, x, y + halfHeight as real, cardWidth, halfHeight,
                 Some(sequenceId), None, measure);
    assert pdf.ops == ops0 + r.0[..1] + r.0[1..];
  }

  /**
   * `addImageToCard(pdf, card, x, y, cardWidth, halfHeight, yearCounts, sequenceId)`. `photo` is
   * the outcome of loading `card.image`: when it fails to load the call rejects (`false`) before
   * touching the document; otherwise the photo is cropped once and both faces are added.
   */
  method AddImageToCard(pdf: Pdf, cache: CharWidthCache, card: TimelineCard, x: real, y: real, cardWidth: nat, halfHeight: nat,
                        yearCounts: map<int, nat>, sequenceId: int, photo: Option<Loaded>, measure: real -> real)
    returns (ok: bool)
    requires photo.Some? ==> IsImage(photo.value.pixels, CropWidth * ImageUtils.Scale, CropHeight * ImageUtils.Scale)
    requires measure(Scale as real) > 0.0 && Measured(cache.widths, measure)
    modifies pdf, cache
    ensures ok <==> photo.Some?
    ensures !ok ==> pdf.ops == old(pdf.ops) && cache.widths == old(cache.widths)
    ensures ok ==>
      var r := CardFaces(old(cache.widths), CroppedPhoto(card.image, photo.value), FormatDateText(card, yearCounts),
                         card.eventName, x, y, cardWidth, halfHeight, sequenceId, measure);
      pdf.ops == old(pdf.ops) + r.0 && cache.widths == r.1
    ensures Measured(cache.widths, measure)
  {
    if photo.None? {
      return false;
    }
    var normalBWImageData, gray := ImageUtils.CropImageTo3x4(card.image, photo.value.width, photo.value.height,
                                                             CropWidth, CropHeight, photo.value.pixels);
    var dateText := FormatDateText(card, yearCounts);
    var eventText := card.eventName;
    AddFaces(pdf, cache, normalBWImageData, dateText, eventText, x, y, cardWidth, halfHeight, sequenceId, measure);
    ok := true;
  }

  /** The placeholder picture: light gray with "Image" in mid-gray 20 px Arial at its centre. */
  const PlaceholderImage: Bitmap := Snapshot(CropWidth, CropHeight,
    [DrawOp.FillRect(Rect(0.0, 0.0, 150.0, 200.0), "#f0f0f0"),
     DrawOp.FillText("Image", 75.0, 100.0, Font(false, 20.0, Arial), "#999999", "center", "alphabetic")])

  /** The placeholder canvas of `addPlaceholderToCard`, drawn and encoded. */
  method DrawPlaceholder() returns (image: Bitmap)
    ensures image == PlaceholderImage
  {
    var canvas := new Canvas(CropWidth, CropHeight);
    canvas.style := canvas.style.(fill := "#f0f0f0");
    canvas.FillRect(Rect(0.0, 0.0, canvas.width as real, canvas.height as real));
    canvas.style := canvas.style.(fill := "#999999", font := Font(false, 20.0, Arial), align := "center");
    canvas.FillText("Image", canvas.width as real / 2.0, canvas.height as real / 2.0);
    image := canvas.ToDataURL();
  }

  /**
   * `addPlaceholderToCard(pdf, card, x, y, cardWidth, halfHeight, yearCounts, sequenceId)`: the
   * same two faces as a loaded card, with the placeholder as the picture.
   */
  method AddPlaceholderToCard(pdf: Pdf, cache: CharWidthCache, card: TimelineCard, x: real, y: real, cardWidth: nat,
                              halfHeight: nat, yearCounts: map<int, nat>, sequenceId: int, measure: real -> real)
    requires measure(Scale as real) > 0.0 && Measured(cache.widths, measure)
    modifies pdf, cache
    ensures var r := CardFaces(old(cache.widths), PlaceholderImage, FormatDateText(card, yearCounts),
                               card.eventName, x, y, cardWidth, halfHeight, sequenceId, measure);
      pdf.ops == old(pdf.ops) + r.0 && cache.widths == r.1
    ensures Measured(cache.widths, measure)
  {
    var placeholderImageData := DrawPlaceholder();
    var dateText := FormatDateText(card, yearCounts);
    var eventText := card.eventName;
    AddFaces(pdf, cache, placeholderImageData, dateText, eventText, x, y, cardWidth, halfHeight, sequenceId, measure);
  }
}
