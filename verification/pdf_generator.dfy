/**
 * The export (lib/pdf-generator.ts): a landscape US-letter document with five cards per page,
 * evenly spaced, each with a fold line across its middle and, between neighbouring cards, a
 * vertical cutting guide; a card whose photo fails to load gets the placeholder picture.
 */
module PdfGenerator {
  import opened Wrappers
  import opened Numeric
  import opened Pixels
  import opened Canvas2D
  import opened PdfDoc
  import opened TimelineCards
  import ImageUtils
  import opened CardRenderer
  import opened CardFactory

  const PageWidth: real := 279.4
  const PageHeight: real := 215.9
  const CardHeight: nat := 190
  const HalfHeight: nat := 95
  const Spacing: real := 10.0
  const CardsPerPage: nat := 5

  /**
   * `finalCardWidth`: the whole-millimetre width that fits five cards and six 10 mm gaps,
   * capped at 48 mm. It comes to 43 mm, well under the cap.
   */
  function FinalCardWidth(): (w: int)
    ensures w == 43
  {
    var availableWidth := PageWidth - 2.0 * Spacing;
    var availableForCards := availableWidth - (CardsPerPage - 1) as real * Spacing;
    var optimizedCardWidth := (availableForCards / CardsPerPage as real).Floor;
    assert optimizedCardWidth == 43 by {
      assert availableForCards / CardsPerPage as real == 43.88;
    }
    Min(optimizedCardWidth, 48)
  }

  /** `finalSpacing`: the gap that spreads the five cards evenly, with equal outer margins. */
  function FinalSpacing(): (s: real)
    ensures 5.0 * FinalCardWidth() as real + 6.0 * s == PageWidth && s > 0.0
  {
    (PageWidth - CardsPerPage as real * FinalCardWidth() as real) / (CardsPerPage + 1) as real
  }

  /** The left edge of the card in `slot`. */
  function SlotX(slot: nat): real
  {
    FinalSpacing() + slot as real * (FinalCardWidth() as real + FinalSpacing())
  }

  /** The top edge of every card. */
  function CardTop(): real
  {
    (PageHeight - CardHeight as real) / 2.0
  }

  /** Where the cutting guide left of `slot` stands. */
  function GuideX(slot: nat): real
  {
    SlotX(slot) - FinalSpacing() / 2.0
  }

  /**
   * The five slots tile the page: the first card starts one gap from the left edge, each next
   * card starts one gap after the previous one ends, and the last one ends one gap before the
   * right edge; the cards are vertically centred on the page; a guide stands midway between two
   * neighbouring cards and spans the card with 5 mm to spare at both ends.
   */
  lemma SlotsTilePage(slot: nat)
    requires slot < CardsPerPage
    ensures SlotX(0) == FinalSpacing()
    ensures slot + 1 < CardsPerPage ==> SlotX(slot) + FinalCardWidth() as real + FinalSpacing() == SlotX(slot + 1)
    ensures SlotX(CardsPerPage - 1) + FinalCardWidth() as real + FinalSpacing() == PageWidth
    ensures CardTop() > 0.0 && CardTop() + CardHeight as real + CardTop() == PageHeight
    ensures slot > 0 ==>
      GuideX(slot) - (SlotX(slot - 1) + FinalCardWidth() as real) == SlotX(slot) - GuideX(slot) == FinalSpacing() / 2.0
  {
  }

  /** The page break before card `i`: `addPage` before the first card of every page but the first. */
  function PageBreak(i: nat): (ops: seq<PdfOp>)
    ensures AddedPages(ops) == (if i > 0 && i % 5 == 0 then 1 else 0)
  {
    var ops := if i > 0 && i % 5 == 0 then [PdfOp.AddPage] else [];
    assert AddedPages([PdfOp.AddPage]) == AddedPages([]) + 1;
    ops
  }

  /** One more card adds a page exactly when it starts a new one. */
  lemma PagesStep(k: nat)
    requires k > 0
    ensures (if k - 1 == 0 then 0 else (k - 2) / 5) + (if k - 1 > 0 && (k - 1) % 5 == 0 then 1 else 0)
            == (k - 1) / 5
  {
  }

  /** Every load that succeeded read back a full 450 x 600 picture. */
  predicate ValidPhotos(photos: seq<Option<Loaded>>)
  {
    forall i :: 0 <= i < |photos| ==> photos[i].Some? ==>
      IsImage(photos[i].value.pixels, CropWidth * ImageUtils.Scale, CropHeight * ImageUtils.Scale)
  }

  /** The picture card `i` shows: its cropped photo, or the placeholder when the photo failed to load. */
  function CardImage(card: TimelineCard, photo: Option<Loaded>): Bitmap
    requires photo.Some? ==> IsImage(photo.value.pixels, CropWidth * ImageUtils.Scale, CropHeight * ImageUtils.Scale)
  {
    if photo.Some? then CroppedPhoto(card.image, photo.value) else PlaceholderImage
  }

  /** The fold line of the card in `slot`: light gray, 0.2 mm, across the card's middle. */
  function FoldLine(slot: nat): (ops: seq<PdfOp>)
    ensures AddedPages(ops) == 0
  {
    var x, y, w := SlotX(slot), CardTop(), FinalCardWidth() as real;
    var ops := [PdfOp.SetDrawColor(200), PdfOp.SetLineWidth(0.2),
                PdfOp.Line(x, y + HalfHeight as real, x + w, y + HalfHeight as real)];
    NoAddedPages(ops);
    ops
  }

  /**
   * The cutting guide left of the card in `slot`: darker gray, 0.1 mm, vertical, reaching 5 mm
   * beyond the card at both ends; the first slot of a page gets none.
   */
  function CuttingGuide(slot: nat): (ops: seq<PdfOp>)
    ensures AddedPages(ops) == 0
  {
    var y := CardTop();
    var ops := if slot > 0 then [PdfOp.SetDrawColor(150), PdfOp.SetLineWidth(0.1),
                                 PdfOp.Line(GuideX(slot), y - 5.0, GuideX(slot), y + CardHeight as real + 5.0)]
               else [];
    NoAddedPages(ops);
    ops
  }

  /**
   * The calls for card `i` (slot `i % 5`): the fold line, the two faces, and the cutting guide
   * to its left unless it is the first card of its page.
   */
  function CardOps(widths: map<real, real>, card: TimelineCard, photo: Option<Loaded>, yearCounts: map<int, nat>,
                   i: nat, measure: real -> real): (r: (seq<PdfOp>, map<real, real>))
    requires photo.Some? ==> IsImage(photo.value.pixels, CropWidth * ImageUtils.Scale, CropHeight * ImageUtils.Scale)
    requires measure(Scale as real) > 0.0 && Measured(widths, measure)
    ensures Measured(r.1, measure)
  {
    var slot := i % 5;
    var faces := CardFaces(widths, CardImage(card, photo), FormatDateText(card, yearCounts), card.eventName,
                           SlotX(slot), CardTop(), FinalCardWidth(), HalfHeight, i + 1, measure);
    (FoldLine(slot) + faces.0 + CuttingGuide(slot), faces.1)
  }

  /** A card never starts a page of its own. */
  lemma CardOpsAddNoPage(widths: map<real, real>, card: TimelineCard, photo: Option<Loaded>, yearCounts: map<int, nat>,
                         i: nat, measure: real -> real)
    requires photo.Some? ==> IsImage(photo.value.pixels, CropWidth * ImageUtils.Scale, CropHeight * ImageUtils.Scale)
    requires measure(Scale as real) > 0.0 && Measured(widths, measure)
    ensures AddedPages(CardOps(widths, card, photo, yearCounts, i, measure).0) == 0
  {
    var slot := i % 5;
    var faces := CardFaces(widths, CardImage(card, photo), FormatDateText(card, yearCounts), card.eventName,
                           SlotX(slot), CardTop(), FinalCardWidth(), HalfHeight, i + 1, measure);
    AddedPagesAppend(FoldLine(slot), faces.0);
    AddedPagesAppend(FoldLine(slot) + faces.0, CuttingGuide(slot));
  }

  /**
   * Card `i` is drawn at slot `i % 5` with sequence number `i + 1`: the fold line spans the card
   * at its middle, which is exactly where the upper face ends and the lower face begins; the
   * guide, present exactly when the slot is not the first, stands left of the card.
   */
  lemma CardOpsPlacement(widths: map<real, real>, card: TimelineCard, photo: Option<Loaded>, yearCounts: map<int, nat>,
                         i: nat, measure: real -> real)
    requires photo.Some? ==> IsImage(photo.value.pixels, CropWidth * ImageUtils.Scale, CropHeight * ImageUtils.Scale)
    requires measure(Scale as real) > 0.0 && Measured(widths, measure)
    ensures var ops, slot := CardOps(widths, card, photo, yearCounts, i, measure).0, i % 5;
      var x, y, w := SlotX(slot), CardTop(), FinalCardWidth() as real;
      && |ops| == (if slot > 0 then 8 else 5)
      && ops[2] == PdfOp.Line(x, y + HalfHeight as real, x + w, y + HalfHeight as real)
      && ops[3].AddImage? && ops[3].x == x && ops[3].y == y && ops[3].width == w
      && ops[4].AddImage? && ops[4].x == x && ops[4].y == y + HalfHeight as real
      && ops[3].y + ops[3].height == ops[4].y == ops[2].y1
      && ops[4].y + ops[4].height == y + CardHeight as real
      && (slot > 0 ==> ops[7] == PdfOp.Line(GuideX(slot), y - 5.0, GuideX(slot), y + CardHeight as real + 5.0))
    ensures var ops := CardOps(widths, card, photo, yearCounts, i, measure).0;
      var faces := CardFaces(widths, CardImage(card, photo), FormatDateText(card, yearCounts), card.eventName,
                             SlotX(i % 5), CardTop(), FinalCardWidth(), HalfHeight, i + 1, measure).0;
      ops[3..5] == faces
  {
  }

  /**
   * The calls for each of the first `k` cards, card by card, and the cache after them; every
   * card starts from the cache the previous one left.
   */
  function CardRuns(widths: map<real, real>, cards: seq<TimelineCard>, photos: seq<Option<Loaded>>, yearCounts: map<int, nat>,
                    k: nat, measure: real -> real): (r: (seq<seq<PdfOp>>, map<real, real>))
    requires k <= |cards| == |photos| && ValidPhotos(photos)
    requires measure(Scale as real) > 0.0 && Measured(widths, measure)
    ensures |r.0| == k && Measured(r.1, measure)
    decreases k
  {
    if k == 0 then ([], widths)
    else
      var prev := CardRuns(widths, cards, photos, yearCounts, k - 1, measure);
      var card := CardOps(prev.1, cards[k - 1], photos[k - 1], yearCounts, k - 1, measure);
      (prev.0 + [card.0], card.1)
  }

  /** The runs of the first `k` cards extend those of the first `k - 1` by card `k - 1`'s. */
  lemma CardRunsStep(widths: map<real, real>, cards: seq<TimelineCard>, photos: seq<Option<Loaded>>,
                     yearCounts: map<int, nat>, k: nat, measure: real -> real)
    requires 0 < k <= |cards| == |photos| && ValidPhotos(photos)
    requires measure(Scale as real) > 0.0 && Measured(widths, measure)
    ensures var prev := CardRuns(widths, cards, photos, yearCounts, k - 1, measure);
      var card := CardOps(prev.1, cards[k - 1], photos[k - 1], yearCounts, k - 1, measure);
      CardRuns(widths, cards, photos, yearCounts, k, measure) == (prev.0 + [card.0], card.1)
  {
  }

  /** The runs of the first `i` cards begin the runs of any longer prefix of the cards. */
  lemma {:induction false} CardRunsPrefix(widths: map<real, real>, cards: seq<TimelineCard>, photos: seq<Option<Loaded>>,
                                          yearCounts: map<int, nat>, i: nat, k: nat, measure: real -> real)
    requires i <= k <= |cards| == |photos| && ValidPhotos(photos)
    requires measure(Scale as real) > 0.0 && Measured(widths, measure)
    ensures CardRuns(widths, cards, photos, yearCounts, k, measure).0[..i] == CardRuns(widths, cards, photos, yearCounts, i, measure).0
    decreases k
  {
    if i < k {
      CardRunsPrefix(widths, cards, photos, yearCounts, i, k - 1, measure);
      CardRunsPrefixStep(widths, cards, photos, yearCounts, i, k, measure);
    } else {
      WholePrefix(CardRuns(widths, cards, photos, yearCounts, k, measure).0);
    }
  }

  /** If the runs of the first `i` cards begin those of the first `k - 1`, they begin those of the first `k`. */
  lemma CardRunsPrefixStep(widths: map<real, real>, cards: seq<TimelineCard>, photos: seq<Option<Loaded>>,
                           yearCounts: map<int, nat>, i: nat, k: nat, measure: real -> real)
    requires i < k <= |cards| == |photos| && ValidPhotos(photos)
    requires measure(Scale as real) > 0.0 && Measured(widths, measure)
    requires CardRuns(widths, cards, photos, yearCounts, k - 1, measure).0[..i] == CardRuns(widths, cards, photos, yearCounts, i, measure).0
    ensures CardRuns(widths, cards, photos, yearCounts, k, measure).0[..i] == CardRuns(widths, cards, photos, yearCounts, i, measure).0
  {
    CardRunsGrow(widths, cards, photos, yearCounts, k, measure);
    PrefixOfPrefix(CardRuns(widths, cards, photos, yearCounts, k, measure).0, CardRuns(widths, cards, photos, yearCounts, k - 1, measure).0,
                   CardRuns(widths, cards, photos, yearCounts, i, measure).0, i);
  }

  /** The runs of the first `k` cards begin with those of the first `k - 1`. */
  lemma CardRunsGrow(widths: map<real, real>, cards: seq<TimelineCard>, photos: seq<Option<Loaded>>,
                     yearCounts: map<int, nat>, k: nat, measure: real -> real)
    requires 0 < k <= |cards| == |photos| && ValidPhotos(photos)
    requires measure(Scale as real) > 0.0 && Measured(widths, measure)
    ensures CardRuns(widths, cards, photos, yearCounts, k, measure).0[..k - 1] == CardRuns(widths, cards, photos, yearCounts, k - 1, measure).0
  {
    CardRunsStep(widths, cards, photos, yearCounts, k, measure);
    var prev := CardRuns(widths, cards, photos, yearCounts, k - 1, measure);
    var card := CardOps(prev.1, cards[k - 1], photos[k - 1], yearCounts, k - 1, measure);
    SliceOfAppend(prev.0, card.0, k - 1);
  }

  lemma WholePrefix<T>(a: seq<T>)
    ensures a[..|a|] == a
  {
  }

  lemma PrefixOfPrefix<T>(a: seq<T>, b: seq<T>, c: seq<T>, i: nat)
    requires i <= |b| <= |a| && a[..|b|] == b && b[..i] == c
    ensures a[..i] == c
  {
    assert a[..i] == a[..|b|][..i];
  }

  /**
   * Cards are laid out once each and in order: the runs of the first `i` cards begin the runs
   * of any longer prefix, and the run of card `i` is its `CardOps` drawn from the cache the
   * cards before it left.
   */
  lemma CardRunsInOrder(widths: map<real, real>, cards: seq<TimelineCard>, photos: seq<Option<Loaded>>,
                        yearCounts: map<int, nat>, i: nat, k: nat, measure: real -> real)
    requires i < k <= |cards| == |photos| && ValidPhotos(photos)
    requires measure(Scale as real) > 0.0 && Measured(widths, measure)
    ensures var before := CardRuns(widths, cards, photos, yearCounts, i, measure);
      var runs := CardRuns(widths, cards, photos, yearCounts, k, measure).0;
      runs[..i] == before.0 && runs[i] == CardOps(before.1, cards[i], photos[i], yearCounts, i, measure).0
  {
    var runs := CardRuns(widths, cards, photos, yearCounts, k, measure).0;
    var next := i + 1;
    var upTo := CardRuns(widths, cards, photos, yearCounts, next, measure).0;
    CardRunsPrefix(widths, cards, photos, yearCounts, i, k, measure);
    CardRunsPrefix(widths, cards, photos, yearCounts, next, k, measure);
    CardRunsStep(widths, cards, photos, yearCounts, next, measure);
    assert runs[i] == runs[..next][i] == upTo[i];
  }

  lemma SliceOfAppend<T>(a: seq<T>, x: T, i: nat)
    requires i <= |a|
    ensures (a + [x])[..i] == a[..i] && (i < |a| ==> (a + [x])[i] == a[i]) && (a + [x])[|a|] == x
    ensures i == |a| ==> a[..i] == a
  {
  }

  /** No card's run starts a page of its own. */
  lemma CardRunsAddNoPage(widths: map<real, real>, cards: seq<TimelineCard>, photos: seq<Option<Loaded>>,
                          yearCounts: map<int, nat>, k: nat, measure: real -> real)
    requires k <= |cards| == |photos| && ValidPhotos(photos)
    requires measure(Scale as real) > 0.0 && Measured(widths, measure)
    ensures var runs := CardRuns(widths, cards, photos, yearCounts, k, measure).0;
      forall j :: 0 <= j < k ==> AddedPages(runs[j]) == 0
  {
    forall j | 0 <= j < k
      ensures AddedPages(CardRuns(widths, cards, photos, yearCounts, k, measure).0[j]) == 0
    {
      CardRunsInOrder(widths, cards, photos, yearCounts, j, k, measure);
      var before := CardRuns(widths, cards, photos, yearCounts, j, measure);
      CardOpsAddNoPage(before.1, cards[j], photos[j], yearCounts, j, measure);
    }
  }

  /** The document's calls: each card's run, preceded by its page break. */
  function Assemble(runs: seq<seq<PdfOp>>): seq<PdfOp>
  {
    if runs == [] then [] else Assemble(runs[..|runs| - 1]) + PageBreak(|runs| - 1) + runs[|runs| - 1]
  }

  lemma AssembleStep(runs: seq<seq<PdfOp>>, run: seq<PdfOp>)
    ensures Assemble(runs + [run]) == Assemble(runs) + PageBreak(|runs|) + run
  {
    assert (runs + [run])[..|runs|] == runs;
  }

  /**
   * Runs that add no page of their own add `(k - 1) / 5` pages to the first one: a document of
   * `k >= 1` cards has `ceil(k / 5)` pages, one of no cards has the single page it starts with.
   */
  lemma {:induction false} AssemblePages(runs: seq<seq<PdfOp>>)
    requires forall j :: 0 <= j < |runs| ==> AddedPages(runs[j]) == 0
    ensures AddedPages(Assemble(runs)) == (if runs == [] then 0 else (|runs| - 1) / 5)
    decreases |runs|
  {
    if runs != [] {
      var k := |runs|;
      AssemblePages(runs[..k - 1]);
      AddedPagesAppend(Assemble(runs[..k - 1]), PageBreak(k - 1));
      AddedPagesAppend(Assemble(runs[..k - 1]) + PageBreak(k - 1), runs[k - 1]);
      PagesStep(k);
    }
  }

  /** The document's calls for the first `i` cards begin its calls for all of them. */
  lemma {:induction false} AssemblePrefix(runs: seq<seq<PdfOp>>, i: nat)
    requires i <= |runs|
    ensures Assemble(runs[..i]) <= Assemble(runs)
    decreases |runs|
  {
    if i < |runs| {
      var k := |runs|;
      AssemblePrefix(runs[..k - 1], i);
      assert runs[..k - 1][..i] == runs[..i];
      PrefixTrans(Assemble(runs[..i]), Assemble(runs[..k - 1]), PageBreak(k - 1), runs[k - 1]);
    } else {
      assert runs[..i] == runs;
    }
  }

  /** Card `i` lands on page `i / 5`, counting the first page as 0. */
  lemma CardPage(runs: seq<seq<PdfOp>>, i: nat)
    requires i < |runs| && forall j :: 0 <= j < |runs| ==> AddedPages(runs[j]) == 0
    ensures AddedPages(Assemble(runs[..i]) + PageBreak(i)) == i / 5
  {
    AssemblePages(runs[..i]);
    AddedPagesAppend(Assemble(runs[..i]), PageBreak(i));
    PagesStep(i + 1);
  }

  /** A prefix stays a prefix when the longer run is extended. */
  lemma PrefixTrans<T>(a: seq<T>, b: seq<T>, x: seq<T>, y: seq<T>)
    requires a <= b
    ensures a <= b + x + y
  {
    assert (b + x + y)[..|a|] == b[..|a|];
  }

  /** `acc[card.year] = (acc[card.year] || 0) + 1` over the cards in order. */
  function YearCounts(cards: seq<TimelineCard>): map<int, nat>
    decreases |cards|
  {
    if cards == [] then map[]
    else
      var acc := YearCounts(cards[..|cards| - 1]);
      var year := cards[|cards| - 1].year;
      acc[year := (if year in acc then acc[year] else 0) + 1]
  }

  /** How many of `cards` have year `y`. */
  function CountYear(cards: seq<TimelineCard>, y: int): (c: nat)
    ensures c <= |cards|
    decreases |cards|
  {
    if cards == [] then 0 else CountYear(cards[..|cards| - 1], y) + (if cards[|cards| - 1].year == y then 1 else 0)
  }

  /** Every year of the cards, and only those, has an entry, and the entry counts its cards. */
  lemma {:induction false} YearCountsCount(cards: seq<TimelineCard>, y: int)
    ensures y in YearCounts(cards) <==> CountYear(cards, y) > 0
    ensures y in YearCounts(cards) ==> YearCounts(cards)[y] == CountYear(cards, y)
    decreases |cards|
  {
    if cards != [] {
      YearCountsCount(cards[..|cards| - 1], y);
    }
  }

  /** A table with an entry has a key. */
  lemma SomeKey(m: map<int, nat>)
    requires m != map[]
    ensures exists k :: k in m
  {
    if forall k :: k !in m { assert false; }
  }

  /** The sum of the values of a count table. */
  ghost function SumCounts(m: map<int, nat>): nat
    decreases |m|
  {
    if m == map[] then 0
    else
      SomeKey(m);
      var k :| k in m;
      m[k] + SumCounts(m - {k})
  }

  /** The sum does not depend on which key is taken first. */
  lemma {:induction false} SumCountsAt(m: map<int, nat>, k: int)
    requires k in m
    ensures SumCounts(m) == m[k] + SumCounts(m - {k})
    decreases |m|
  {
    var j :| j in m && SumCounts(m) == m[j] + SumCounts(m - {j});
    if j != k {
      assert (m - {j}) - {k} == (m - {k}) - {j};
      assert |m - {j}| < |m| by {
        assert m.Keys == (m - {j}).Keys + {j};
      }
      assert |m - {k}| < |m| by {
        assert m.Keys == (m - {k}).Keys + {k};
      }
      SumCountsAt(m - {j}, k);
      SumCountsAt(m - {k}, j);
    }
  }

  /** The counts add up to the number of cards. */
  lemma {:induction false} YearCountsTotal(cards: seq<TimelineCard>)
    ensures SumCounts(YearCounts(cards)) == |cards|
    decreases |cards|
  {
    if cards != [] {
      var rest := cards[..|cards| - 1];
      var acc := YearCounts(rest);
      var year := cards[|cards| - 1].year;
      var m := YearCounts(cards);
      YearCountsTotal(rest);
      SumCountsAt(m, year);
      assert m - {year} == acc - {year};
      if year in acc {
        SumCountsAt(acc, year);
      } else {
        assert acc - {year} == acc;
      }
    }
  }

  /** The `reduce` that builds `yearCounts`. */
  method CountYears(cards: seq<TimelineCard>) returns (acc: map<int, nat>)
    ensures acc == YearCounts(cards)
  {
    acc := map[];
    var i := 0;
    while i < |cards|
      invariant i <= |cards| && acc == YearCounts(cards[..i])
    {
      assert cards[..i + 1][..i] == cards[..i];
      var year := cards[i].year;
      acc := acc[year := (if year in acc then acc[year] else 0) + 1];
      i := i + 1;
    }
    assert cards[..i] == cards;
  }

  /**
   * One pass of the slot loop for card `i`: the fold line, `addImageToCard`, falling back to
   * `addPlaceholderToCard` at the same place when the photo does not load, and the guide.
   */
  method PlaceCard(pdf: Pdf, cache: CharWidthCache, card: TimelineCard, photo: Option<Loaded>, yearCounts: map<int, nat>,
                   i: nat, measure: real -> real)
    requires photo.Some? ==> IsImage(photo.value.pixels, CropWidth * ImageUtils.Scale, CropHeight * ImageUtils.Scale)
    requires measure(Scale as real) > 0.0 && Measured(cache.widths, measure)
    modifies pdf, cache
    ensures var r := CardOps(old(cache.widths), card, photo, yearCounts, i, measure);
      pdf.ops == old(pdf.ops) + r.0 && cache.widths == r.1
  {
    ghost var ops0, widths0 := pdf.ops, cache.widths;
    var positionOnPage := i % 5;
    var sequenceId := i + 1;
    var finalCardWidth := FinalCardWidth();
    var x, y := SlotX(positionOnPage), CardTop();
    DrawFoldLine(pdf, positionOnPage);
    ghost var faces := CardFaces(widths0, CardImage(card, photo), FormatDateText(card, yearCounts), card.eventName,
                                 x, y, finalCardWidth, HalfHeight, sequenceId, measure);
    var ok := AddImageToCard(pdf, cache, card, x, y, finalCardWidth, HalfHeight, yearCounts, sequenceId, photo, measure);
    if !ok {
      AddPlaceholderToCard(pdf, cache, card, x, y, finalCardWidth, HalfHeight, yearCounts, sequenceId, measure);
    }
    assert pdf.ops == ops0 + FoldLine(positionOnPage) + faces.0 && cache.widths == faces.1;
    DrawCuttingGuide(pdf, positionOnPage);
    AppendAssoc(ops0, FoldLine(positionOnPage), faces.0, CuttingGuide(positionOnPage));
  }

  /** The fold-line statements of the slot loop. */
  method DrawFoldLine(pdf: Pdf, positionOnPage: nat)
    modifies pdf
    ensures pdf.ops == old(pdf.ops) + FoldLine(positionOnPage)
  {
    var x, y, finalCardWidth := SlotX(positionOnPage), CardTop(), FinalCardWidth();
    pdf.SetDrawColor(200);
    pdf.SetLineWidth(0.2);
    pdf.Line(x, y + HalfHeight as real, x + finalCardWidth as real, y + HalfHeight as real);
  }

  /** The cutting-guide statements of the slot loop, skipped for the first slot of a page. */
  method DrawCuttingGuide(pdf: Pdf, positionOnPage: nat)
    modifies pdf
    ensures pdf.ops == old(pdf.ops) + CuttingGuide(positionOnPage)
  {
    if positionOnPage > 0 {
      var x, y := SlotX(positionOnPage), CardTop();
      var guideX := x - FinalSpacing() / 2.0;
      pdf.SetDrawColor(150);
      pdf.SetLineWidth(0.1);
      pdf.Line(guideX, y - 5.0, guideX, y + CardHeight as real + 5.0);
    }
  }

  lemma AppendAssoc<T>(a: seq<T>, b: seq<T>, c: seq<T>, d: seq<T>)
    ensures a + b + c + d == a + (b + c + d)
  {
  }

  /** Card `5 * pageIndex + positionOnPage` sits in slot `positionOnPage`. */
  lemma SlotOfIndex(k: nat, pageIndex: nat, positionOnPage: nat)
    requires positionOnPage < CardsPerPage && k == 5 * pageIndex + positionOnPage
    ensures k % 5 == positionOnPage
    ensures PageBreak(k) == (if pageIndex > 0 && positionOnPage == 0 then [PdfOp.AddPage] else [])
  {
  }

  /** One more card: its page break and its run follow the document's calls so far. */
  lemma RunsExtend(widths: map<real, real>, cards: seq<TimelineCard>, photos: seq<Option<Loaded>>,
                   yearCounts: map<int, nat>, k: nat, next: nat, measure: real -> real)
    requires k < |cards| == |photos| && ValidPhotos(photos) && next == k + 1
    requires measure(Scale as real) > 0.0 && Measured(widths, measure)
    ensures var before := CardRuns(widths, cards, photos, yearCounts, k, measure);
      var card := CardOps(before.1, cards[k], photos[k], yearCounts, k, measure);
      var after := CardRuns(widths, cards, photos, yearCounts, next, measure);
      Assemble(after.0) == Assemble(before.0) + PageBreak(k) + card.0 && after.1 == card.1
  {
    var before := CardRuns(widths, cards, photos, yearCounts, k, measure);
    var card := CardOps(before.1, cards[k], photos[k], yearCounts, k, measure);
    CardRunsStep(widths, cards, photos, yearCounts, next, measure);
    AssembleStep(before.0, card.0);
  }

  /** One pass of the slot loop, as a step of the whole document: card `cardIndex` follows the cards before it. */
  method PlaceNextCard(pdf: Pdf, cache: CharWidthCache, cards: seq<TimelineCard>, photos: seq<Option<Loaded>>,
                       yearCounts: map<int, nat>, cardIndex: nat, ghost widths0: map<real, real>, ghost next: nat,
                       measure: real -> real)
    requires |photos| == |cards| && ValidPhotos(photos) && cardIndex < |cards| && next == cardIndex + 1
    requires measure(Scale as real) > 0.0 && Measured(widths0, measure)
    requires var r := CardRuns(widths0, cards, photos, yearCounts, cardIndex, measure);
      pdf.ops == Assemble(r.0) + PageBreak(cardIndex) && cache.widths == r.1
    modifies pdf, cache
    ensures var r := CardRuns(widths0, cards, photos, yearCounts, next, measure);
      pdf.ops == Assemble(r.0) && cache.widths == r.1
  {
    ghost var before := CardRuns(widths0, cards, photos, yearCounts, cardIndex, measure);
    ghost var card := CardOps(before.1, cards[cardIndex], photos[cardIndex], yearCounts, cardIndex, measure);
    PlaceCard(pdf, cache, cards[cardIndex], photos[cardIndex], yearCounts, cardIndex, measure);
    assert pdf.ops == Assemble(before.0) + PageBreak(cardIndex) + card.0 && cache.widths == card.1;
    RunsExtend(widths0, cards, photos, yearCounts, cardIndex, next, measure);
  }

  /**
   * The slot loop of page `pageIndex`: up to five cards, stopping after the last card; the
   * page's `addPage` (if any) has been made already.
   */
  method FillPage(pdf: Pdf, cache: CharWidthCache, cards: seq<TimelineCard>, photos: seq<Option<Loaded>>,
                  yearCounts: map<int, nat>, pageIndex: nat, ghost widths0: map<real, real>, ghost first: nat, ghost last: nat,
                  measure: real -> real)
    requires |photos| == |cards| && ValidPhotos(photos) && first == 5 * pageIndex < |cards|
    requires last == Min(first + 5, |cards|)
    requires measure(Scale as real) > 0.0 && Measured(widths0, measure)
    requires var r := CardRuns(widths0, cards, photos, yearCounts, first, measure);
      pdf.ops == Assemble(r.0) + PageBreak(first) && cache.widths == r.1
    modifies pdf, cache
    ensures var r := CardRuns(widths0, cards, photos, yearCounts, last, measure);
      pdf.ops == Assemble(r.0) && cache.widths == r.1
  {
    var n := |cards|;
    var positionOnPage := 0;
    ghost var k := first;
    while positionOnPage < CardsPerPage
      invariant positionOnPage <= CardsPerPage && k == first + positionOnPage <= n
      invariant var r := CardRuns(widths0, cards, photos, yearCounts, k, measure);
        pdf.ops == Assemble(r.0) + (if positionOnPage == 0 then PageBreak(k) else []) && cache.widths == r.1
    {
      var cardIndex := 5 * pageIndex + positionOnPage;
      if cardIndex >= n {
        break;
      }
      assert cardIndex == k;
      SlotOfIndex(k, pageIndex, positionOnPage);
      ghost var next := k + 1;
      PlaceNextCard(pdf, cache, cards, photos, yearCounts, cardIndex, widths0, next, measure);
      AppendEmpty(pdf.ops);
      positionOnPage := positionOnPage + 1;
      k := next;
    }
    assert k == last;
    AppendEmpty(pdf.ops);
  }

  /**
   * `generatePDF(cards)`, with `photos[i]` the outcome of loading card `i`'s photo: page by page
   * and slot by slot, every card is placed in order, then the document is saved as
   * "timeline-cards.pdf".
   */
  method GeneratePDF(cards: seq<TimelineCard>, photos: seq<Option<Loaded>>, cache: CharWidthCache, measure: real -> real)
    returns (pdf: Pdf)
    requires |photos| == |cards| && ValidPhotos(photos)
    requires measure(Scale as real) > 0.0 && Measured(cache.widths, measure)
    modifies cache
    ensures fresh(pdf)
    ensures var r := CardRuns(old(cache.widths), cards, photos, YearCounts(cards), |cards|, measure);
      pdf.ops == Assemble(r.0) + [PdfOp.Save("timeline-cards.pdf")] && cache.widths == r.1
  {
    pdf := new Pdf();
    var yearCounts := CountYears(cards);
    PlacePages(pdf, cache, cards, photos, yearCounts, measure);
    assert Drawn(pdf.ops, cache.widths, old(cache.widths), cards, photos, yearCounts, |cards|, measure);
    pdf.Save("timeline-cards.pdf");
  }

  /** The page loop of `generatePDF`: page after page, each card in order on a fresh document. */
  method PlacePages(pdf: Pdf, cache: CharWidthCache, cards: seq<TimelineCard>, photos: seq<Option<Loaded>>,
                    yearCounts: map<int, nat>, measure: real -> real)
    requires |photos| == |cards| && ValidPhotos(photos) && pdf.ops == []
    requires measure(Scale as real) > 0.0 && Measured(cache.widths, measure)
    modifies pdf, cache
    ensures Drawn(pdf.ops, cache.widths, old(cache.widths), cards, photos, yearCounts, |cards|, measure)
  {
    ghost var widths0 := cache.widths;
    var n := |cards|;
    var pageCount := (n + 4) / 5;  // Math.ceil(cards.length / cardsPerPage), five cards per page
    var pageIndex := 0;
    ghost var done := 0;
    while pageIndex < pageCount
      invariant pageIndex <= pageCount && done == Min(5 * pageIndex, n)
      invariant Drawn(pdf.ops, cache.widths, widths0, cards, photos, yearCounts, done, measure)
    {
      PageStart(n, pageIndex);
      ghost var last := Min(done + 5, n);
      PlacePage(pdf, cache, cards, photos, yearCounts, pageIndex, widths0, done, last, measure);
      pageIndex := pageIndex + 1;
      done := last;
    }
    PageStart(n, pageIndex);
  }

  /**
   * `ops` and `widths` are the document's calls and the cache once the first `k` cards are
   * placed, starting from the cache `widths0`.
   */
  ghost predicate Drawn(ops: seq<PdfOp>, widths: map<real, real>, widths0: map<real, real>, cards: seq<TimelineCard>,
                        photos: seq<Option<Loaded>>, yearCounts: map<int, nat>, k: nat, measure: real -> real)
  {
    && k <= |cards| == |photos| && ValidPhotos(photos) && measure(Scale as real) > 0.0 && Measured(widths0, measure)
    && var r := CardRuns(widths0, cards, photos, yearCounts, k, measure);
       ops == Assemble(r.0) && widths == r.1
  }

  /** Page `pageIndex` of `ceil(n / 5)` starts at card `5 * pageIndex`, and after the last page every card is placed. */
  lemma PageStart(n: nat, pageIndex: nat)
    requires pageIndex <= (n + 4) / 5
    ensures pageIndex < (n + 4) / 5 ==> Min(5 * pageIndex, n) == 5 * pageIndex < n
    ensures pageIndex < (n + 4) / 5 ==> Min(5 * pageIndex + 5, n) == Min(5 * (pageIndex + 1), n)
    ensures pageIndex == (n + 4) / 5 ==> Min(5 * pageIndex, n) == n
  {
  }

  /** One pass of the page loop: `addPage` for every page after the first, then its cards. */
  method PlacePage(pdf: Pdf, cache: CharWidthCache, cards: seq<TimelineCard>, photos: seq<Option<Loaded>>,
                   yearCounts: map<int, nat>, pageIndex: nat, ghost widths0: map<real, real>, ghost first: nat, ghost last: nat,
                   measure: real -> real)
    requires first == 5 * pageIndex < |cards| && last == Min(first + 5, |cards|)
    requires Drawn(pdf.ops, cache.widths, widths0, cards, photos, yearCounts, first, measure)
    modifies pdf, cache
    ensures Drawn(pdf.ops, cache.widths, widths0, cards, photos, yearCounts, last, measure)
  {
    StartPage(pdf, pageIndex, first);
    FillPage(pdf, cache, cards, photos, yearCounts, pageIndex, widths0, first, last, measure);
  }

  /** `if (pageIndex > 0) pdf.addPage()`: the page break before card `first`, the page's first card. */
  method StartPage(pdf: Pdf, pageIndex: nat, ghost first: nat)
    requires first == 5 * pageIndex
    modifies pdf
    ensures pdf.ops == old(pdf.ops) + PageBreak(first)
  {
    SlotOfIndex(first, pageIndex, 0);
    if pageIndex > 0 {
      pdf.AddPage();
    } else {
      AppendEmpty(pdf.ops);
    }
  }

  lemma AppendEmpty<T>(a: seq<T>)
    ensures a + [] == a && [] + a == a
  {
  }
}
