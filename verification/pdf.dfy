/**
 * The jsPDF document the export writes, as the ordered list of calls made on it: pages added,
 * line colour and width, lines, placed JPEG images and the final save.
 */
module PdfDoc {
  import opened Canvas2D

  datatype PdfOp =
    | AddPage
    | SetDrawColor(gray: int)
    | SetLineWidth(width: real)
    | Line(x1: real, y1: real, x2: real, y2: real)
    | AddImage(image: Bitmap, format: string, x: real, y: real, width: real, height: real)
    | Save(filename: string)

  /** The number of `addPage` calls among `ops`. */
  function AddedPages(ops: seq<PdfOp>): (n: nat)
    ensures n <= |ops|
  {
    if ops == [] then 0 else AddedPages(ops[..|ops| - 1]) + (if ops[|ops| - 1].AddPage? then 1 else 0)
  }

  /** Counting pages over two runs of calls adds up. */
  lemma {:induction false} AddedPagesAppend(a: seq<PdfOp>, b: seq<PdfOp>)
    ensures AddedPages(a + b) == AddedPages(a) + AddedPages(b)
    decreases |b|
  {
    if b == [] {
      assert a + b == a;
    } else {
      var k := |b| - 1;
      assert (a + b)[..|a + b| - 1] == a + b[..k];
      AddedPagesAppend(a, b[..k]);
    }
  }

  /** Calls that include no `addPage` add no page. */
  lemma {:induction false} NoAddedPages(ops: seq<PdfOp>)
    requires forall i :: 0 <= i < |ops| ==> !ops[i].AddPage?
    ensures AddedPages(ops) == 0
    decreases |ops|
  {
    if ops != [] {
      NoAddedPages(ops[..|ops| - 1]);
    }
  }

  /** `new jsPDF("landscape", "mm", "letter")` and the calls made on it since. */
  class Pdf {
    var ops: seq<PdfOp>

    /** A fresh document: one page, no calls yet. */
    constructor()
      ensures ops == []
    {
      ops := [];
    }

    /** The pages the document holds: the first one plus every `addPage`. */
    function PageCount(): nat
      reads this
    {
      1 + AddedPages(ops)
    }

    method AddPage()
      modifies this
      ensures ops == old(ops) + [PdfOp.AddPage]
      ensures PageCount() == old(PageCount()) + 1
    {
      AddedPagesAppend(ops, [PdfOp.AddPage]);
      ops := ops + [PdfOp.AddPage];
    }

    method SetDrawColor(gray: int)
      modifies this
      ensures ops == old(ops) + [PdfOp.SetDrawColor(gray)]
    {
      ops := ops + [PdfOp.SetDrawColor(gray)];
    }

    method SetLineWidth(width: real)
      modifies this
      ensures ops == old(ops) + [PdfOp.SetLineWidth(width)]
    {
      ops := ops + [PdfOp.SetLineWidth(width)];
    }

    method Line(x1: real, y1: real, x2: real, y2: real)
      modifies this
      ensures ops == old(ops) + [PdfOp.Line(x1, y1, x2, y2)]
    {
      ops := ops + [PdfOp.Line(x1, y1, x2, y2)];
    }

    method AddImage(image: Bitmap, format: string, x: real, y: real, width: real, height: real)
      modifies this
      ensures ops == old(ops) + [PdfOp.AddImage(image, format, x, y, width, height)]
    {
      ops := ops + [PdfOp.AddImage(image, format, x, y, width, height)];
    }

    method Save(filename: string)
      modifies this
      ensures ops == old(ops) + [PdfOp.Save(filename)]
    {
      ops := ops + [PdfOp.Save(filename)];
    }
  }
}
