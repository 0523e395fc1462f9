# Personalized timeline cards, modelled in Dafny

The application turns a batch of photos into printable, double-sided timeline cards. Each photo
becomes a card record holding a year, an optional full date, a file name and an event name. The
list of cards is kept sorted by date. Placeholder event names (`EVENT_n`) are renumbered after
each insertion. The user can rename every card after its file name; those names are remembered
in browser storage under a key built from the date and the file name.

Export lays the cards out five to a landscape US-letter page. Each card is drawn at the same slot
as two halves separated by a fold line. The upper half shows the date badge and is rotated
upside down. The lower half shows the event banner. Cutting guides run between neighbouring
cards. Each half is rendered on a canvas three times larger than its size in millimetres: a white
background, the photo cropped to 3:4 and turned gray, a text banner sized with a monospace font,
and an invisible sequence number. The photo pipeline `timelessBW` also offers a richer
black-and-white look:

- BT.709 gray and a histogram;
- auto-levels from the 1%, 50% and 99% percentiles;
- gamma and S-curve lookup tables;
- optional tile-based local contrast;
- film grain;
- optional Floyd–Steinberg dithering.

The modules follow the source files:

| module | file(s) | what it holds |
|---|---|---|
| `TimelineCards` | `timeline_card.dfy` | the card record |
| `Wrappers` | `wrappers.dfy` | `Option` |
| `Numeric` | `numeric.dfy` | `Math.round`, clamping, the conversion of `Uint8ClampedArray` |
| `Decimal` | `decimal.dfy` | decimal rendering of integers |
| `JsText` | `js_text.dfy` | `trim`, `slice`, `startsWith` |
| `Pixels` | `pixels.dfy` | RGBA buffers and the two luma formulas |
| `Histogram` | `histogram.dfy` | grayscale + histogram, percentiles, stretch |
| `LocalContrast` | `local_contrast.dfy` | `applyLocalContrast` |
| `Dithering` | `dithering.dfy` | `applyDithering` |
| `TimelessBW` | `timeless_bw.dfy` | options, lookup tables, the per-pixel loop, the whole pipeline |
| `Canvas2D` | `canvas.dfy` | a canvas as a recorded list of drawing operations |
| `PdfDoc` | `pdf.dfy` | a jsPDF document as a recorded list of calls |
| `ImageUtils` | `image_utils.dfy` | the 3:4 crop and the BT.601 gray pass |
| `CardRenderer` | `card_renderer.dfy` | card faces, banners, the character-width cache |
| `CardFactory` | `card_factory.dfy` | date text, the photo and placeholder cards |
| `PdfGenerator` | `pdf_generator.dfy` | page layout and the export loop |
| `EventCache` | `event_cache.dfy` | cache keys and browser storage |
| `CardList` | `card_list.dfy` | sorting, adding, updating and removing cards |
| `CardsGrid` | `cards_grid.dfy` | "use file names as event names" |
| `ExifDates` | `exif.dfy` | the EXIF date search |

Imperative source code stays imperative. The in-place buffer passes work on `array<byte>`:

- the gray passes, the histogram, the per-pixel tone loop, local contrast and dithering;
- each is proved equal to a function of the old buffer.

The canvas, the jsPDF document, browser storage and the monospace width cache are classes whose
methods append to or update their fields. Sorting the card list works on an array
(`CardList.SortCards`), and adding and updating cards are methods (`CardList.AddCards`,
`CardList.UpdateCard`). Renaming, the batch update, removing a card, the date formatting and the
cache keys are functions.

A few facts about the code that are easy to misread:

- `cropImageTo3x4` in `lib/image-utils.ts` only crops to 3:4 and applies the BT.601 gray formula.
- An empty event label draws an empty black banner. The "? ? ?" placeholder appears only in
  `lib/card-designer.ts`, which the export does not use.
- The card width is `min(floor((279.4 - 20 - 40) / 5), 48) = 43` mm. The comment at
  `lib/pdf-generator.ts:27` expects "around 47-48mm".

## Model

| member | source | states |
|---|---|---|
| Numeric.Round | lib/timeless-bw.ts:51 | `Math.round`: the integer within half a unit of `x`, halves rounding up |
| Numeric.RoundMonotone | lib/timeless-bw.ts:106-109 | rounding is monotone, so lookup-table indices keep the order of values |
| Numeric.ToClampedByte | lib/timeless-bw.ts:191-194 | storing into a `Uint8ClampedArray`: 0 below 0, 255 above 255, otherwise within half a unit |
| Numeric.ToClampedByteOfInt | lib/timeless-bw.ts:52 | storing an integer clamps it into 0..255 and keeps it otherwise |
| Numeric.RatioExceedsPositive | lib/image-utils.ts:10-18 | the aspect test `w / h > r` written without division agrees with the division for positive `h` |
| Decimal.NatToString | lib/pdf-card-factory.ts:11-15 | `toString` of a natural: non-empty digits with no leading zero |
| Decimal.NatToStringRoundTrip | lib/pdf-card-factory.ts:15 | reading the digits back gives the number |
| Decimal.NatToStringInjective | lib/event-cache.ts:13-15 | different numbers give different decimal strings |
| Decimal.IntToStringRoundTrip | lib/event-cache.ts:13-15 | a leading minus exactly for negatives, and parsing the text gives the integer back |
| Decimal.FourDigits | lib/pdf-card-factory.ts:11 | a year between 1000 and 9999 has four digits |
| JsText.LeadingSpaces | lib/pdf-card-renderer.ts:149 | the length of the maximal whitespace prefix |
| JsText.Trim | lib/pdf-card-renderer.ts:149 | `trim()`: the middle of the string, with whitespace only around it and no whitespace at either end of the result |
| JsText.TrimIdempotent | lib/pdf-card-renderer.ts:199-200 | trimming twice equals trimming once |
| JsText.Prefix | lib/pdf-card-renderer.ts:149 | `slice(0, n)`: the first `min(n, length)` characters |
| Pixels.RowMajorOrder | lib/timeless-bw.ts:229-231 | pixel `(x, y)` precedes `(x', y')` in the buffer exactly when it comes earlier in row-major order |
| Pixels.PxInjective | lib/timeless-bw.ts:160 | distinct in-image coordinates have distinct buffer offsets |
| Pixels.Luma709 | lib/timeless-bw.ts:51 | BT.709 luma, rounded; a gray pixel keeps its value |
| Pixels.Luma601 | lib/image-utils.ts:34 | BT.601 luma, rounded; a gray pixel keeps its value |
| Pixels.GrayPassAt | lib/timeless-bw.ts:50-54 | after a gray pass every pixel has red = green = blue = the luma of its old colour, and alpha unchanged |
| Pixels.GrayPassIdempotent | lib/image-utils.ts:32-41 | a second gray pass changes nothing |
| Histogram.HistogramOf | lib/timeless-bw.ts:47-54 | 256 buckets counting the red bytes of an RGBA buffer |
| Histogram.HistogramSum | lib/timeless-bw.ts:46-54 | the buckets sum to the pixel count |
| Histogram.GrayscaleAndHistogram | lib/timeless-bw.ts:47-54 | the buffer becomes its BT.709 gray pass and the histogram is the histogram of the gray buffer |
| Histogram.PercentileIndex | lib/timeless-bw.ts:57-65 | the first bucket whose preceding buckets reach the target, capped at 255; every earlier index stays below it |
| Histogram.GetPercentileIndex | lib/timeless-bw.ts:57-65 | the accumulate-while-below loop returns the percentile index of the histogram |
| Histogram.PercentileMonotone | lib/timeless-bw.ts:67-69 | a larger target never yields a smaller index |
| Histogram.PercentilesOrdered | lib/timeless-bw.ts:67-69 | 1% index <= median index <= 99% index |
| Histogram.LevelScale | lib/timeless-bw.ts:70 | `255 / max(1, hi - lo)` is positive, at most 255, and maps the range `lo..hi` onto 0..255 |
| Histogram.Stretch | lib/timeless-bw.ts:102 | the auto-levels value lies in 0..255 |
| Histogram.StretchMonotone | lib/timeless-bw.ts:102 | auto-levels preserve the order of values |
| Histogram.StretchEnds | lib/timeless-bw.ts:102 | values at or below `lo` go to 0, values at or above `hi` go to 255 |
| TimelessBW.ResolveDefaults | lib/timeless-bw.ts:30-39 | with no options: no local contrast, grain on, no vignette, no dithering, automatic gamma, S-curve 8, grain 16, vignette 0.15 |
| TimelessBW.ResolveGiven | lib/timeless-bw.ts:30-39 | every given option overrides its default |
| TimelessBW.AutoGamma | lib/timeless-bw.ts:73 | a given gamma is kept; otherwise 0.8 exactly when the median is below 128 and 1.2 otherwise |
| TimelessBW.ScaleToByte | lib/timeless-bw.ts:76 | `Math.round(255 * v)` is within half a unit of `255 * v` |
| TimelessBW.LutMonotone | lib/timeless-bw.ts:74-85 | a table built from a non-decreasing curve is non-decreasing |
| TimelessBW.GammaLutEnds | lib/timeless-bw.ts:74-77 | the gamma table maps 0 to 0 and 255 to 255 |
| TimelessBW.GammaCurveMonotone | lib/timeless-bw.ts:75-77 | for a power function monotone in its base, the gamma curve is non-decreasing |
| TimelessBW.SigmoidMonotone | lib/timeless-bw.ts:83 | for a positive exponential antitone in the negated argument, the sigmoid lies in (0, 1) and is monotone |
| TimelessBW.SCurveMonotone | lib/timeless-bw.ts:80-85 | the S-curve is non-decreasing with every entry in (0, 1) |
| TimelessBW.BuildGammaLut | lib/timeless-bw.ts:74-77 | the filled array is the rounded gamma curve |
| TimelessBW.BuildSCurveLut | lib/timeless-bw.ts:80-85 | the filled array is the rounded S-curve |
| TimelessBW.ToneMonotone | lib/timeless-bw.ts:101-109 | without local contrast, auto-levels then gamma then S-curve preserve order |
| TimelessBW.ToneEnds | lib/timeless-bw.ts:101-109 | values at or below `lo` and at or above `hi` go to the table images of 0 and 255 |
| TimelessBW.Finish | lib/timeless-bw.ts:112-118 | without grain the value is kept; with grain it moves by at most the grain amount plus rounding |
| TimelessBW.ToneAllGray | lib/timeless-bw.ts:94-119 | the per-pixel pass writes one value to red, green and blue and keeps alpha |
| TimelessBW.TonePixel | lib/timeless-bw.ts:95-118 | one pixel: the local-contrast value or the stretched value, through both tables, plus grain, rounded and clamped |
| TimelessBW.ToneLoop | lib/timeless-bw.ts:94-119 | the in-place loop leaves the buffer equal to the tone function of the old buffer |
| TimelessBW.Levels | lib/timeless-bw.ts:67-69 | the three percentile indices, ordered low <= median <= high |
| TimelessBW.FindLevels | lib/timeless-bw.ts:67-69 | the three `getPercentileIndex` calls compute those levels |
| TimelessBW.PipelineKeepsAlpha | lib/timeless-bw.ts:29-135 | the whole pipeline keeps every alpha byte |
| TimelessBW.PipelineColours | lib/timeless-bw.ts:94-132 | with dithering every colour byte ends as 0 or 255; without it every pixel is gray |
| TimelessBW.TimelessBW | lib/timeless-bw.ts:29-135 | gray pass, levels, tables, optional local contrast, tone loop and optional dithering turn the buffer into the pipeline function of its gray pass |
| LocalContrast.TileCount | lib/timeless-bw.ts:143-144 | `ceil(n / 64)` tiles cover all `n` columns or rows, with none left empty |
| LocalContrast.TileEnd | lib/timeless-bw.ts:151-152 | a tile ends 64 past its start or at the image edge, whichever comes first |
| LocalContrast.TileRowsLength | lib/timeless-bw.ts:158-165 | a tile's pixels are its width times its height |
| LocalContrast.TileHistogram | lib/timeless-bw.ts:155-165 | the histogram and pixel count built are those of exactly the tile's pixels |
| LocalContrast.TileLevels | lib/timeless-bw.ts:149-181 | the low and high levels the tile loop finds are the bounds of the tile's own histogram |
| LocalContrast.TileBoundsSpec | lib/timeless-bw.ts:168-181 | the high bound is the first bucket where the running sum reaches 99%. The low bound is the first bucket where it reaches 1%, except when bucket 0 already does: then it is 1 (0 when the high bound is 0), because the `tileLow === 0` test cannot tell an unset bound from 0. low <= high |
| LocalContrast.TileStatsOrdered | lib/timeless-bw.ts:168-183 | each tile's bounds satisfy low <= high <= 255 |
| LocalContrast.ScanTile | lib/timeless-bw.ts:168-181 | the scan loop with its early exit returns those bounds |
| LocalContrast.StatsTableLookup | lib/timeless-bw.ts:147-152 | exactly the tiles whose start lies inside the image are processed, each with its own bounds |
| LocalContrast.ApplyLocalContrast | lib/timeless-bw.ts:140-201 | the result has the input's length, and every pixel holds its tile-stretched gray value with the input's alpha |
| Dithering.Threshold | lib/timeless-bw.ts:233 | a pixel becomes 0 exactly when it is below 128, and 255 otherwise |
| Dithering.Neighbours | lib/timeless-bw.ts:239-253 | the error goes only to pixels later in the buffer and inside the image |
| Dithering.NeighboursInOrder | lib/timeless-bw.ts:239-253 | the right, bottom-left, bottom and bottom-right shares 7, 3, 5, 1 in that order, each only when inside the image |
| Dithering.SpreadAppend | lib/timeless-bw.ts:239-253 | spreading two lists of shares one after the other equals spreading their concatenation |
| Dithering.StepLocal | lib/timeless-bw.ts:231-253 | one step changes only the current pixel's colour bytes and the red byte of later pixels |
| Dithering.DitherBinary | lib/timeless-bw.ts:225-259 | after the pass every colour byte of every pixel is 0 or 255 |
| Dithering.DitherKeepsAlpha | lib/timeless-bw.ts:225-259 | the pass keeps every alpha byte |
| Dithering.DitherPixel | lib/timeless-bw.ts:231-253 | the in-place step equals the step function on the old buffer |
| Dithering.ApplyDithering | lib/timeless-bw.ts:225-259 | the in-place double loop leaves the buffer equal to the dithering function of the old buffer |
| Canvas2D.Canvas.constructor | lib/pdf-card-renderer.ts:13-19 | a fresh canvas of the given size with the default style and nothing drawn |
| Canvas2D.Canvas.ToDataURL | lib/pdf-card-renderer.ts:227 | the snapshot records the canvas size and everything drawn |
| Canvas2D.Canvas.FillRect | lib/pdf-card-renderer.ts:23 | appends a fill with the current fill style and changes nothing else |
| Canvas2D.Canvas.StrokeRect | lib/pdf-card-renderer.ts:183 | appends a stroke with the current stroke style and line width |
| Canvas2D.Canvas.FillText | lib/pdf-card-renderer.ts:163 | appends text with the current font, fill, alignment and baseline |
| Canvas2D.Canvas.DrawImage | lib/pdf-card-renderer.ts:57 | appends an image draw |
| Canvas2D.Canvas.Translate | lib/pdf-card-renderer.ts:95 | appends a translation |
| Canvas2D.Canvas.RotateHalfTurn | lib/pdf-card-renderer.ts:96 | appends a half-turn rotation |
| Canvas2D.Canvas.PutImageData | lib/image-utils.ts:44 | appends a pixel write |
| Canvas2D.HalfTurnCovers | lib/pdf-card-renderer.ts:95-97 | translating to the centre, turning half a turn and drawing at minus half the size maps each point `(a, b)` to `(w - a, h - b)`, inside the canvas |
| PdfDoc.AddedPagesAppend | lib/pdf-generator.ts:41-45 | the pages added by two runs of calls add up |
| PdfDoc.Pdf.constructor | lib/pdf-generator.ts:6 | a new document records no calls |
| PdfDoc.Pdf.AddPage | lib/pdf-generator.ts:44 | records a page break and the page count grows by one |
| PdfDoc.Pdf.SetDrawColor | lib/pdf-generator.ts:64 | records the colour call |
| PdfDoc.Pdf.SetLineWidth | lib/pdf-generator.ts:65 | records the width call |
| PdfDoc.Pdf.Line | lib/pdf-generator.ts:66 | records the line |
| PdfDoc.Pdf.AddImage | lib/pdf-card-renderer.ts:228 | records the image placement |
| PdfDoc.Pdf.Save | lib/pdf-generator.ts:85 | records the save |
| ImageUtils.CropWindow | lib/image-utils.ts:9-23 | the centred source window with a 3:4 ratio inside the image: full height for images wider than 3:4, full width otherwise |
| ImageUtils.SourceWindow | lib/image-utils.ts:12-23 | the branch code computes that window |
| ImageUtils.Grayscale601 | lib/image-utils.ts:32-41 | the in-place loop leaves the buffer equal to its BT.601 gray pass |
| ImageUtils.GrayBuffer | lib/image-utils.ts:29-44 | the canvas buffer read back is the BT.601 gray pass of the drawn pixels |
| ImageUtils.GrayPassPixel601 | lib/image-utils.ts:32-41 | each pixel becomes BT.601 gray and keeps alpha |
| ImageUtils.CropImageTo3x4 | lib/image-utils.ts:1-47 | the picture is the cropped window drawn onto a canvas three times the target size, then overwritten with its BT.601 gray pixels |
| ImageUtils.CreateRotatedBWImage | lib/image-utils.ts:49-107 | the same picture, drawn after translating to the centre and turning half a turn |
| CardRenderer.LayoutGeometry | lib/pdf-card-renderer.ts:25-68 | the photo box is 3:4, centred horizontally, at the margin from the top, and inside the space left for it; the banner sits 6 units below it, 60 high, 12 narrower than the canvas and centred; the sequence line sits 3 units below the banner and inside the face |
| CardRenderer.ExportFaceLayout | lib/pdf-card-renderer.ts:25-68 | for the exported 43 x 95 mm half: photo 120 x 160 at (4.5, 4.5), banner 117 x 60 at (6, 170.5), sequence line at 233.5 |
| CardRenderer.CappedText | lib/pdf-card-renderer.ts:149 | the trimmed text cut to 20 characters: a prefix of the trimmed text, and all of it when short enough |
| CardRenderer.Tier | lib/pdf-card-renderer.ts:150 | the text length tier is 5, 15 or 20, the smallest that holds the text |
| CardRenderer.MonoFontSizeLargestFit | lib/pdf-card-renderer.ts:125-133 | the floored size is the largest at which `maxChars` characters fit the available width |
| CardRenderer.MonoFontSizeAntitone | lib/pdf-card-renderer.ts:125-133 | more characters never give a larger font |
| CardRenderer.Probed | lib/pdf-card-renderer.ts:114-122 | after a probe the size is cached, and a non-zero width counts as a cache hit |
| CardRenderer.ProbeMeasured | lib/pdf-card-renderer.ts:114-122 | the cache stays faithful to the measurement, returns the measured width, leaves other sizes alone, and a second probe of a hit neither measures nor touches the font |
| CardRenderer.CharWidthCache.constructor | lib/pdf-card-renderer.ts:114-117 | the cache starts empty |
| CardRenderer.CharWidthCache.MonoCharWidth | lib/pdf-card-renderer.ts:114-122 | returns the cached or measured width of "M"; only a miss sets the canvas font; nothing is drawn |
| CardRenderer.CharWidthCache.CalcMonoFontSize | lib/pdf-card-renderer.ts:125-133 | returns the largest fitting font size for the measured width |
| CardRenderer.CenterStart | lib/pdf-card-renderer.ts:157-160 | the left-aligned start puts the text's midpoint at the box's centre |
| CardRenderer.TextLine | lib/pdf-card-renderer.ts:193-196 | one left-aligned, middle-baseline text draw at the centring start, with the font the probe leaves behind |
| CardRenderer.SizedLineText | lib/pdf-card-renderer.ts:152-163 | a line sized to `maxChars` is drawn in Courier at the fitting size `px`; it is bold exactly when bold is requested and the probe at `px` hits the cache, as the unit-size probe left it |
| CardRenderer.EventBanner | lib/pdf-card-renderer.ts:137-164 | a black box, then one left-aligned text draw |
| CardRenderer.EventBannerText | lib/pdf-card-renderer.ts:149-163 | the text is the capped label in white, sized to its tier, centred vertically and horizontally |
| CardRenderer.YearBadge | lib/pdf-card-renderer.ts:168-209 | a white box with a thin black frame, the date line, and a second line exactly when the trimmed event name is non-empty |
| CardRenderer.YearBadgeDateLine | lib/pdf-card-renderer.ts:185-196 | the date is drawn in black, sized for 8 characters, a quarter down the badge and centred |
| CardRenderer.YearBadgeEventLine | lib/pdf-card-renderer.ts:198-208 | the event line is the capped name, regular weight, sized to its tier, three quarters down and centred |
| CardRenderer.Banner | lib/pdf-card-renderer.ts:70-76 | the event side gets a black banner, the date side a white badge; every text is left-aligned |
| CardRenderer.FaceLayers | lib/pdf-card-renderer.ts:21-82 | white background first, then the photo in its box, then the banner, and the sequence number last when given |
| CardRenderer.FaceWithoutSequenceId | lib/pdf-card-renderer.ts:79-82 | without a sequence number no centred text is drawn |
| CardRenderer.DrawEventBanner | lib/pdf-card-renderer.ts:137-164 | the canvas calls append exactly the event banner |
| CardRenderer.DrawYearBadge | lib/pdf-card-renderer.ts:168-209 | the canvas calls append exactly the badge |
| CardRenderer.DrawSequenceId | lib/pdf-card-renderer.ts:102-109 | appends the number in white 12 px Arial, centred, top baseline |
| CardRenderer.RenderCardFace | lib/pdf-card-renderer.ts:3-85 | a fresh canvas three times the half size holding exactly the face layers |
| CardRenderer.Flipped | lib/pdf-card-renderer.ts:87-100 | the flipped picture keeps the size |
| CardRenderer.FlipCanvas | lib/pdf-card-renderer.ts:87-100 | a fresh canvas of the same size whose picture is the source turned half a turn about its centre |
| CardRenderer.DrawCardFace | lib/pdf-card-renderer.ts:211-229 | one JPEG image of the face is placed at `(x, y)` in card units |
| CardRenderer.DrawFlippedCardFace | lib/pdf-card-renderer.ts:231-252 | one JPEG image of the turned face is placed at `(x, y)` |
| CardFactory.FormatDateText | lib/pdf-card-factory.ts:6-16 | the text ends with the year; with a full date it is the month's three-letter name, a space and the year, and nothing else; otherwise it is the year alone |
| CardFactory.DateTextFitsBadge | lib/pdf-card-factory.ts:6-16 | for four-digit years the text has 8 or 4 characters, and its last four parse back to the year |
| CardFactory.CardFaces | lib/pdf-card-factory.ts:46-61 | two images add no page: the upper half at `(x, y)` and the lower half at `(x, y + halfHeight)`, both the card's width and half its height |
| CardFactory.CardFacesPair | lib/pdf-card-factory.ts:46-61 | the upper half is the date badge turned over, the lower half the event banner; both show the same photo in the same box and carry the same sequence number |
| CardFactory.AddImageToCard | lib/pdf-card-factory.ts:18-65 | a photo that fails to load rejects before anything is drawn; otherwise the cropped gray photo is drawn on both faces |
| CardFactory.DrawPlaceholder | lib/pdf-card-factory.ts:77-90 | the placeholder is light gray with "Image" centred in mid-gray 20 px Arial |
| CardFactory.AddPlaceholderToCard | lib/pdf-card-factory.ts:67-101 | both faces show the placeholder |
| PdfGenerator.FinalCardWidth | lib/pdf-generator.ts:23-28 | the card width is 43 mm |
| PdfGenerator.FinalSpacing | lib/pdf-generator.ts:29 | five cards and six equal gaps fill the page width exactly, and the gap is positive |
| PdfGenerator.SlotsTilePage | lib/pdf-generator.ts:59-61 | slots start one gap in, follow one card and one gap apart, and end one gap before the edge; the card is centred vertically; each guide lies halfway between neighbouring cards |
| PdfGenerator.PageBreak | lib/pdf-generator.ts:41-45 | a page is added before every fifth card except the first |
| PdfGenerator.FoldLine | lib/pdf-generator.ts:63-66 | the fold line calls add no page |
| PdfGenerator.CuttingGuide | lib/pdf-generator.ts:75-81 | the guide calls add no page |
| PdfGenerator.CardOpsPlacement | lib/pdf-generator.ts:47-81 | a card's calls: the fold line across the middle of its slot, then its two faces stacked to fill the card, then a guide from 5 mm above to 5 mm below when it is not the first on its page |
| PdfGenerator.CardOpsAddNoPage | lib/pdf-generator.ts:59-81 | placing a card adds no page |
| PdfGenerator.CardRunsPrefix | lib/pdf-generator.ts:41-83 | the calls for the first `i` cards are a prefix of those for the first `k` |
| PdfGenerator.CardRunsInOrder | lib/pdf-generator.ts:47-73 | card `i` is placed after cards `0..i-1`, using the width cache they leave behind |
| PdfGenerator.AssemblePages | lib/pdf-generator.ts:41-45 | `n > 0` cards add `(n - 1) / 5` pages, so the document has `ceil(n / 5)` pages |
| PdfGenerator.AssemblePrefix | lib/pdf-generator.ts:41-83 | the output for a prefix of the cards is a prefix of the output |
| PdfGenerator.CardPage | lib/pdf-generator.ts:41-49 | card `i` is drawn on page `i / 5` |
| PdfGenerator.YearCountsCount | lib/pdf-generator.ts:32-38 | a year is a key exactly when some card has it, and its value is the number of such cards |
| PdfGenerator.YearCountsTotal | lib/pdf-generator.ts:32-38 | the counts add up to the number of cards |
| PdfGenerator.CountYears | lib/pdf-generator.ts:32-38 | the reduce loop builds those counts |
| PdfGenerator.PlaceCard | lib/pdf-generator.ts:59-81 | one card's calls are appended and the cache updated as the card function says |
| PdfGenerator.FillPage | lib/pdf-generator.ts:48-82 | one page's inner loop places cards `first..last` |
| PdfGenerator.PlacePages | lib/pdf-generator.ts:41-83 | the page loop draws all cards in order, with the page breaks |
| PdfGenerator.GeneratePDF | lib/pdf-generator.ts:5-86 | the document records every card in order, with a page before every fifth, then the save as `timeline-cards.pdf` |
| EventCache.CleanFilename | lib/event-cache.ts:9 | each character that is not an ASCII letter or digit becomes `_`; the rest are kept |
| EventCache.CleanIdempotent | lib/event-cache.ts:9 | a cleaned name holds only letters, digits and `_`, and cleaning it again changes nothing |
| EventCache.GenerateCacheKey | lib/event-cache.ts:6-16 | the key ends with `_` and the cleaned file name; it starts with `file_` exactly when there is no date |
| EventCache.CacheKeyInjective | lib/event-cache.ts:6-16 | equal keys mean both dated or both undated, equal cleaned names, and equal timestamps |
| EventCache.StorageKey | lib/event-cache.ts:24 | the storage key is `timeline_event_` followed by the cache key |
| EventCache.StorageKeyInjective | lib/event-cache.ts:24 | different cache keys give different storage keys |
| EventCache.SaveThenLoad | lib/event-cache.ts:18-43 | a load right after a save returns the saved name, or nothing for an empty name |
| EventCache.SaveKeepsOtherKeys | lib/event-cache.ts:18-43 | a save does not change what another cache key loads |
| EventCache.ClearedKeeps | lib/event-cache.ts:45-73 | clearing removes exactly the prefixed entries that are older than the limit or unreadable. Every other entry is kept, including empty entries and `NoTime` entries, whose timestamp converts to `NaN` (missing, an object, or non-numeric text). Clearing is idempotent |
| EventCache.LoadAfterClear | lib/event-cache.ts:30-73 | after clearing, a load of an expired entry gives nothing and any other load is unchanged |
| EventCache.LocalStorage.constructor | lib/event-cache.ts:18-28 | storage with the given entries and availability |
| EventCache.LocalStorage.SaveEventName | lib/event-cache.ts:18-28 | when storage is usable and accepts the write, the entry is stored with the current time; otherwise nothing changes |
| EventCache.LocalStorage.LoadEventName | lib/event-cache.ts:30-43 | returns the stored name exactly when it is non-empty, whether or not the entry has a timestamp. It returns nothing for a missing, empty or unreadable entry, or when storage is unavailable |
| EventCache.LocalStorage.CollectExpired | lib/event-cache.ts:49-67 | the keys collected are exactly the prefixed entries that are older than the limit or unreadable. `NoTime` entries, whose timestamp converts to `NaN`, are not collected. A timestamp that converts to a number, such as `null` (0), is compared like any other |
| EventCache.LocalStorage.ClearOldCache | lib/event-cache.ts:45-73 | the entries become the cleared map (see `ClearedKeeps`); unavailable storage is left as it was |
| EventCache.LocalStorage.ClearOldCacheDefault | lib/event-cache.ts:45 | the call without an argument clears with the default limit of 30 days in milliseconds |
| CardList.CompareNames | app/page.tsx:26 | a three-way comparison that is 0 only for equal names |
| CardList.CompareNamesFlip | app/page.tsx:26 | swapping the arguments negates the result |
| CardList.CompareNamesTrans | app/page.tsx:26 | the comparison is transitive |
| CardList.CompareFlip | app/page.tsx:10-27 | the card comparator is antisymmetric and total |
| CardList.LeTrans | app/page.tsx:10-27 | the card order is transitive |
| CardList.CompareCases | app/page.tsx:12-26 | by year first; within a year by time when both are dated; dated before undated; undated by file name |
| CardList.SortCards | app/page.tsx:9-28 | the array ends sorted and is a permutation of its old contents |
| CardList.SortedList | app/page.tsx:9-28 | a sorted permutation of the cards |
| CardList.RenameKeepsFields | app/page.tsx:37-40 | renumbering only changes the event name, and only for `EVENT_` names |
| CardList.RenameKeepsOrder | app/page.tsx:37-40 | renumbering keeps the list sorted |
| CardList.RenamedDistinct | app/page.tsx:37-40 | two renumbered placeholder cards get different names |
| CardList.AddCards | app/page.tsx:33-42 | the result is the sorted union of old and new cards, renumbered |
| CardList.MergeSpec | app/page.tsx:45 | merging an update is idempotent, a name update sets just the name, and an empty update changes nothing |
| CardList.UpdateMatching | app/page.tsx:45 | cards with the id get the update merged in; all others are unchanged |
| CardList.UpdateCard | app/page.tsx:44-53 | a truthy year re-sorts the updated cards (as a permutation); otherwise the updated list is kept in order |
| CardList.FindUpdate | app/page.tsx:57 | `find`: nothing when no update has the id, otherwise the first that does |
| CardList.FindUpdateFirst | app/page.tsx:57 | when ids are distinct, the update at position `i` is the one found for its id |
| CardList.UpdateAllCards | app/page.tsx:55-61 | every card gets the first update with its id, if any |
| CardList.RemoveCard | app/page.tsx:63-65 | the remaining cards are exactly those with another id |
| CardList.RemoveCardAppend | app/page.tsx:64 | removal distributes over concatenation, so order is kept |
| CardList.RemoveCardAbsent | app/page.tsx:64 | removing an absent id changes nothing |
| CardsGrid.ExtensionBefore | components/cards-grid.tsx:39 | finds the position matching `\.[^/.]+$`, or reports that none exists |
| CardsGrid.ExtensionUnique | components/cards-grid.tsx:39 | at most one position matches |
| CardsGrid.StripExtension | components/cards-grid.tsx:39 | a prefix of the name: the part before the extension when there is one, the whole name otherwise |
| CardsGrid.DeriveName | components/cards-grid.tsx:39-40 | at most 20 characters and a prefix of the name without its extension, all of it when short enough |
| CardsGrid.DeriveNameKeepsPlainNames | components/cards-grid.tsx:39 | a name with no dot before its last character keeps every character |
| CardsGrid.FilenameUpdates | components/cards-grid.tsx:37-50 | one update per card, in card order, with the card's id |
| CardsGrid.ApplySavesLoad | lib/event-cache.ts:18-43 | after a run of saves, each accepted name loads back unless a later save reused its key |
| CardsGrid.SaveNamesLoad | components/cards-grid.tsx:42-44 | after the batch each card's derived name loads back from its cache key, unless that save failed or a later card shares the key |
| CardsGrid.UseFilenamesRenames | components/cards-grid.tsx:35-54 | with distinct ids, applying the batch sets each card's event name to its derived name and changes nothing else |
| CardsGrid.UseFilename | components/cards-grid.tsx:37-50 | one card: the name is saved under its cache key and the update sets it |
| CardsGrid.HandleUseFilenames | components/cards-grid.tsx:35-54 | the batch is the filename updates, and storage holds the saves in card order |
| ExifDates.DateString | lib/exif-utils.ts:17-23 | a truthy description is used; else a truthy value, or its first element for an array; else the field is skipped |
| ExifDates.NormalizeExifString | lib/exif-utils.ts:29-30 | the first 19 characters, with `YYYY:MM:DD` rewritten to `YYYY-MM-DD` when it matches and nothing else changed |
| ExifDates.FirstExifDate | lib/exif-utils.ts:12-48 | the first field in order whose date parses, with every earlier field failing; nothing exactly when all fail |
| ExifDates.PhotoDateFallback | lib/exif-utils.ts:36-65 | the year is the date's full year; an unreadable file falls back to the modification date with the error source; otherwise the fallback is taken exactly when no field yields a date |
| ExifDates.PhotoDateField | lib/exif-utils.ts:12-48 | a found date is the first field's date |
| ExifDates.PhotoDateAt | lib/exif-utils.ts:36-43 | when field `i` is the first to parse, the result is its date with source `EXIF <field>` |
| ExifDates.PhotoDateNone | lib/exif-utils.ts:50-56 | when no field parses, the file's modification date is used |
| ExifDates.TryField | lib/exif-utils.ts:13-47 | one iteration computes the field's date or nothing |
| ExifDates.ExtractExifDate | lib/exif-utils.ts:3-66 | the loop returns the photo date the search defines |

## Left out

- Asynchrony. `await`, promises, image `onload`/`onerror` and React state are modelled as sequential calls. A failed photo load is an `Option` argument, and the `catch` in `generatePDF` becomes a branch on it.
- `addPlaceholderToCard` does not await its two face draws. The model draws them in order, as if they completed before the next card. The program behaves differently, and this is likely a defect in it. The faces are added to the PDF only when their asynchronous image work finishes. Meanwhile `generatePDF` moves on to the next card. If the failed card is in the fifth slot of a page, the next `addPage` can run first, and the faces land on the following page. If the last card fails, `pdf.save` (lib/pdf-generator.ts:85) runs before the faces are added, and they are missing from the saved file.
- Strings are sequences of characters, not UTF-16 code units. This matters wherever a length or a position is taken: `CardRenderer.CappedText` and `CardRenderer.Tier` (`slice(0, 20)` and `.length`), `CardsGrid.DeriveName` (`length > 20` and `substring(0, 20)`), and `EventCache.CleanFilename`. For `CleanFilename`, the regex has no `u` flag, so the source turns one character outside the Basic Multilingual Plane into `__`.
- Rasterisation. A canvas is the list of drawing calls made on it, and `toDataURL` is a snapshot of that list. Pixels, JPEG encoding, quality 0.85 and image smoothing are not modelled.
- Font metrics. `measureText("M").width` is a parameter `measure`. A cached width of 0 counts as a miss, as in the source.
- The cross-origin photo loads. The photo's natural size and the pixels read back after the crop are inputs.
- `Date`. A date is an instant with its month index. `getTime`, `getFullYear`, `Date.now()` and `new Date(...)` parsing are parameters or oracle functions. One `now` stands for the whole `handleUseFilenames` batch.
- ExtractExifDate: per-field exceptions are folded into the parse oracle returning nothing. `ExifReader.load` failure is the `None` tag map. Logging is omitted.
- `Math.pow`, `Math.exp` and `Math.random` are parameters. Grain is a given per-pixel noise value, and gamma and S-curve tables are exact only up to these oracles.
- TimelessBW: the vignette stage (a radial gradient composited with `multiply`) is rasterisation and is not modelled. With `addVignette` on, the model's dithering sees the buffer without the vignette.
- `quickBWFilter` applies CSS filters on a canvas, which is rasterisation, and is not modelled.
- Floating point. Arithmetic is on exact reals. `Math.round`, `Math.floor` and `Uint8ClampedArray` rounding (half to even) are written out. IEEE rounding of products such as `0.2126 * r` is not.
- CardList.CompareNames: `localeCompare` is modelled as code-point order over characters, not locale collation.
- CardList.SortCards: `Array.prototype.sort` is modelled as an insertion sort. The contract promises a sorted permutation; the relative order of equal cards (stability) is not promised.
- EventCache.LocalStorage: quota errors and the availability of `localStorage` are the `fits` and `available` inputs. A parsed timestamp is taken through the number conversion of `-`. One that converts to a number, such as `null`, `""`, `true`, `"1700000000000"` or `[5]`, is an `Event` with that number. One that converts to `NaN` makes the entry `NoTime`, which loads its name and is never cleared. A `null` entry throws on field access, so it is grouped with text `JSON.parse` rejects. Not modelled: a stored `eventName` that is not a string, and a timestamp that converts to a non-integer number.
- Logging, toasts, the download of the saved PDF and the React rendering of the grid are not modelled.
- `lib/card-designer.ts`, `components/upload-section.tsx`, `components/card-item.tsx` and `components/instructions-card.tsx` are not part of this model.
