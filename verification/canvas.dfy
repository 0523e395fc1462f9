/**
 * The part of an HTML canvas and its 2D context that the card code drives: the size, the
 * drawing state it assigns (fill and stroke style, line width, font, text alignment) and the
 * drawing calls, which are recorded in order. Rasterisation, resampling and JPEG encoding are
 * not modelled: `toDataURL` yields the recorded picture.
 */
module Canvas2D {
  import opened Wrappers
  import opened Numeric

  /** A rectangle given by its top-left corner and its size, in canvas pixels or millimetres. */
  datatype Rect = Rect(x: real, y: real, width: real, height: real)

  datatype Family = SansSerif | Arial | CourierNew

  /** A CSS font as the card code writes it: `[bold ]<px>px <family>`. */
  datatype Font = Font(bold: bool, px: real, family: Family)

  /** The context attributes the card code assigns before drawing. */
  datatype Style = Style(fill: string, stroke: string, lineWidth: real, font: Font, align: string, baseline: string)

  /** The attributes of a fresh 2D context. */
  const DefaultStyle := Style("#000000", "#000000", 1.0, Font(false, 10.0, SansSerif), "start", "alphabetic")

  /**
   * A picture: a photo given by its URL, or the picture recorded on a canvas of the given size
   * (what `toDataURL` encodes).
   */
  datatype Bitmap = Photo(url: string) | Snapshot(width: nat, height: nat, ops: seq<DrawOp>)

  /** One drawing call, with the style attributes it uses. */
  datatype DrawOp =
    | FillRect(rect: Rect, fill: string)
    | StrokeRect(rect: Rect, stroke: string, lineWidth: real)
    | FillText(text: string, x: real, y: real, font: Font, fill: string, align: string, baseline: string)
    | DrawImage(image: Bitmap, source: Option<Rect>, dest: Rect)
    | Translate(dx: real, dy: real)
    | RotateHalfTurn
    | PutImageData(pixels: seq<byte>)

  /** A canvas element with its 2D context. */
  class Canvas {
    var width: nat
    var height: nat
    var style: Style
    var ops: seq<DrawOp>

    /** `document.createElement("canvas")` followed by setting its width and height. */
    constructor(w: nat, h: nat)
      ensures width == w && height == h && style == DefaultStyle && ops == []
    {
      width := w;
      height := h;
      style := DefaultStyle;
      ops := [];
    }

    /** `canvas.toDataURL(...)`: the picture drawn so far. */
    function ToDataURL(): (b: Bitmap)
      reads this
      ensures b.Snapshot? && b.width == width && b.height == height && b.ops == ops
    {
      Snapshot(width, height, ops)
    }

    /** `fillRect(x, y, w, h)` with the current fill style. */
    method FillRect(r: Rect)
      modifies this
      ensures ops == old(ops) + [DrawOp.FillRect(r, style.fill)]
      ensures style == old(style) && width == old(width) && height == old(height)
    {
      ops := ops + [DrawOp.FillRect(r, style.fill)];
    }

    /** `strokeRect(x, y, w, h)` with the current stroke style and line width. */
    method StrokeRect(r: Rect)
      modifies this
      ensures ops == old(ops) + [DrawOp.StrokeRect(r, style.stroke, style.lineWidth)]
      ensures style == old(style) && width == old(width) && height == old(height)
    {
      ops := ops + [DrawOp.StrokeRect(r, style.stroke, style.lineWidth)];
    }

    /** `fillText(text, x, y)` with the current font, fill style and alignment. */
    method FillText(text: string, x: real, y: real)
      modifies this
      ensures ops == old(ops) + [DrawOp.FillText(text, x, y, style.font, style.fill, style.align, style.baseline)]
      ensures style == old(style) && width == old(width) && height == old(height)
    {
      ops := ops + [DrawOp.FillText(text, x, y, style.font, style.fill, style.align, style.baseline)];
    }

    /** `drawImage(image, [sx, sy, sw, sh,] dx, dy, dw, dh)`. */
    method DrawImage(image: Bitmap, source: Option<Rect>, dest: Rect)
      modifies this
      ensures ops == old(ops) + [DrawOp.DrawImage(image, source, dest)]
      ensures style == old(style) && width == old(width) && height == old(height)
    {
      ops := ops + [DrawOp.DrawImage(image, source, dest)];
    }

    /** `translate(dx, dy)`. */
    method Translate(dx: real, dy: real)
      modifies this
      ensures ops == old(ops) + [DrawOp.Translate(dx, dy)]
      ensures style == old(style) && width == old(width) && height == old(height)
    {
      ops := ops + [DrawOp.Translate(dx, dy)];
    }

    /** `rotate(Math.PI)`. */
    method RotateHalfTurn()
      modifies this
      ensures ops == old(ops) + [DrawOp.RotateHalfTurn]
      ensures style == old(style) && width == old(width) && height == old(height)
    {
      ops := ops + [DrawOp.RotateHalfTurn];
    }

    /** `putImageData(imageData, 0, 0)`: the pixel buffer replaces the canvas contents. */
    method PutImageData(pixels: seq<byte>)
      modifies this
      ensures ops == old(ops) + [DrawOp.PutImageData(pixels)]
      ensures style == old(style) && width == old(width) && height == old(height)
    {
      ops := ops + [DrawOp.PutImageData(pixels)];
    }
  }

  /**
   * Where a point `(u, v)` of the coordinates set up by `translate(w / 2, h / 2)` and
   * `rotate(Math.PI)` lands on the canvas.
   */
  function HalfTurnAbout(w: real, h: real, u: real, v: real): (real, real)
  {
    (w / 2.0 - u, h / 2.0 - v)
  }

  /**
   * Drawing a `w` x `h` picture at `(-w / 2, -h / 2)` after that transform covers the canvas
   * exactly, turned upside down: the picture's point `(a, b)` lands at `(w - a, h - b)`.
   */
  lemma HalfTurnCovers(w: real, h: real, a: real, b: real)
    requires 0.0 <= a <= w && 0.0 <= b <= h
    ensures var (px, py) := HalfTurnAbout(w, h, -w / 2.0 + a, -h / 2.0 + b);
      px == w - a && py == h - b && 0.0 <= px <= w && 0.0 <= py <= h
  {
  }
}
