/**
 * The export-time photo preparation of lib/image-utils.ts: cut the largest centred 3:4 window
 * out of the photo, draw it onto a canvas three times the target size (upside down in the
 * rotated variant) and turn the pixels gray with BT.601 weights.
 */
module ImageUtils {
  import opened Wrappers
  import opened Numeric
  import opened Pixels
  import opened Canvas2D

  /** The canvas-to-target scale both converters use. */
  const Scale: nat := 3

  /**
   * The source window for an `imgW` x `imgH` photo: when the photo is wider than 3:4 it keeps
   * the full height and a centred 3:4 strip of the width, otherwise the full width and a centred
   * strip of the height. The window lies inside the photo, is exactly 3:4 and is centred.
   */
  function CropWindow(imgW: nat, imgH: nat): (r: Rect)
    ensures 4.0 * r.width == 3.0 * r.height
    ensures 2.0 * r.x + r.width == imgW as real && 2.0 * r.y + r.height == imgH as real
    ensures 0.0 <= r.x && 0.0 <= r.y && r.x + r.width <= imgW as real && r.y + r.height <= imgH as real
    ensures RatioExceeds(imgW as real, imgH as real, 0.75) ==> r.y == 0.0 && r.height == imgH as real
    ensures !RatioExceeds(imgW as real, imgH as real, 0.75) ==> r.x == 0.0 && r.width == imgW as real
  {
    var w, h := imgW as real, imgH as real;
    if RatioExceeds(w, h, 0.75) then
      Rect((w - h * 0.75) / 2.0, 0.0, h * 0.75, h)
    else
      Rect(0.0, (h - w / 0.75) / 2.0, w, w / 0.75)
  }

  /**
   * The source-window statements of `cropImageTo3x4` and `createRotatedBWImage`: start from the
   * whole photo and narrow the width or the height.
   */
  method SourceWindow(imgW: nat, imgH: nat) returns (window: Rect)
    ensures window == CropWindow(imgW, imgH)
  {
    var targetAspectRatio := 0.75;
    var sourceX, sourceY := 0.0, 0.0;
    var sourceWidth, sourceHeight := imgW as real, imgH as real;
    if RatioExceeds(imgW as real, imgH as real, targetAspectRatio) {
      sourceWidth := imgH as real * targetAspectRatio;
      sourceX := (imgW as real - sourceWidth) / 2.0;
    } else {
      sourceHeight := imgW as real / targetAspectRatio;
      sourceY := (imgH as real - sourceHeight) / 2.0;
    }
    window := Rect(sourceX, sourceY, sourceWidth, sourceHeight);
  }

  /**
   * The grayscale loop of both converters: each pixel's red, green and blue become the rounded
   * BT.601 luma of its colour, alpha is left alone.
   */
  method Grayscale601(data: array<byte>)
    requires IsRgba(data[..])
    modifies data
    ensures data[..] == GrayPass(old(data[..]), Luma601)
  {
    ghost var s0 := data[..];
    ghost var g := GrayPass(s0, Luma601);
    var i := 0;
    while i < data.Length
      invariant i <= data.Length && i % 4 == 0
      invariant data[..] == g[..i] + s0[i..]
    {
      NextPixel(i, data.Length);
      GrayStep(data, i, s0, g);
      i := i + 4;
    }
    assert g[..i] + s0[i..] == g;
  }

  /** One pass of the gray loop: pixel `i / 4` takes its gray value. */
  method GrayStep(data: array<byte>, i: nat, ghost s0: seq<byte>, ghost g: seq<byte>)
    requires IsRgba(s0) && i % 4 == 0 && i + 4 <= |s0| == data.Length
    requires g == GrayPass(s0, Luma601) && data[..] == g[..i] + s0[i..]
    modifies data
    ensures data[..] == g[..i + 4] + s0[i + 4..]
  {
    GrayPassAt(s0, Luma601, i);
    ghost var before := data[..];
    assert data[i] == s0[i] && data[i + 1] == s0[i + 1] && data[i + 2] == s0[i + 2];
    var gray := Luma601(data[i], data[i + 1], data[i + 2]);
    data[i] := gray;
    data[i + 1] := gray;
    data[i + 2] := gray;
    PixelSplice(before, data[..], s0, g, i);
  }

  /** `getImageData`, the gray loop, and the buffer handed to `putImageData`. */
  method GrayBuffer(pixels: seq<byte>) returns (gray: seq<byte>)
    requires IsRgba(pixels)
    ensures gray == GrayPass(pixels, Luma601)
  {
    var data := new byte[|pixels|](i requires 0 <= i < |pixels| => pixels[i]);
    assert data[..] == pixels;
    Grayscale601(data);
    gray := data[..];
  }

  /**
   * `cropImageTo3x4(img, targetWidth, targetHeight)` for the photo at `url` of size
   * `imgW` x `imgH`. `pixels` is what `getImageData` reads back after the photo was drawn
   * (the browser's resampling). The result is the picture the data URL encodes: the window
   * drawn over the whole canvas, then the gray pixels put back.
   */
  method CropImageTo3x4(url: string, imgW: nat, imgH: nat, targetWidth: nat, targetHeight: nat, pixels: seq<byte>)
    returns (image: Bitmap, ghost gray: seq<byte>)
    requires IsImage(pixels, targetWidth * Scale, targetHeight * Scale)
    ensures gray == GrayPass(pixels, Luma601)
    ensures image == Snapshot(targetWidth * Scale, targetHeight * Scale,
      [DrawImage(Photo(url), Some(CropWindow(imgW, imgH)),
                 Rect(0.0, 0.0, (targetWidth * Scale) as real, (targetHeight * Scale) as real)),
       PutImageData(gray)])
  {
    var canvas := new Canvas(targetWidth * Scale, targetHeight * Scale);
    var window := SourceWindow(imgW, imgH);
    canvas.DrawImage(Photo(url), Some(window), Rect(0.0, 0.0, canvas.width as real, canvas.height as real));
    ImageIsRgba(pixels, targetWidth * Scale, targetHeight * Scale);
    var buffer := GrayBuffer(pixels);
    gray := buffer;
    canvas.PutImageData(buffer);
    image := canvas.ToDataURL();
  }

  /**
   * `createRotatedBWImage(img, targetWidth, targetHeight)`: the same window and the same gray
   * pass, with the photo drawn after turning the canvas half a turn about its centre.
   */
  method CreateRotatedBWImage(url: string, imgW: nat, imgH: nat, targetWidth: nat, targetHeight: nat, pixels: seq<byte>)
    returns (image: Bitmap, ghost gray: seq<byte>)
    requires IsImage(pixels, targetWidth * Scale, targetHeight * Scale)
    ensures gray == GrayPass(pixels, Luma601)
    ensures var w, h := (targetWidth * Scale) as real, (targetHeight * Scale) as real;
      image == Snapshot(targetWidth * Scale, targetHeight * Scale,
        [Translate(w / 2.0, h / 2.0), RotateHalfTurn,
         DrawImage(Photo(url), Some(CropWindow(imgW, imgH)), Rect(-w / 2.0, -h / 2.0, w, h)),
         PutImageData(gray)])
  {
    var canvas := new Canvas(targetWidth * Scale, targetHeight * Scale);
    var window := SourceWindow(imgW, imgH);
    var w, h := canvas.width as real, canvas.height as real;
    canvas.Translate(w / 2.0, h / 2.0);
    canvas.RotateHalfTurn();
    canvas.DrawImage(Photo(url), Some(window), Rect(-w / 2.0, -h / 2.0, w, h));
    ImageIsRgba(pixels, targetWidth * Scale, targetHeight * Scale);
    var buffer := GrayBuffer(pixels);
    gray := buffer;
    canvas.PutImageData(buffer);
    image := canvas.ToDataURL();
  }

  /** After the gray pass every pixel is gray with the BT.601 luma of its old colour, and keeps its alpha. */
  lemma GrayPassPixel601(s: seq<byte>, p: nat)
    requires IsRgba(s) && Ch(p, 3) < |s|
    ensures var r := GrayPass(s, Luma601);
      && r[Ch(p, 0)] == r[Ch(p, 1)] == r[Ch(p, 2)] == Luma601(s[Ch(p, 0)], s[Ch(p, 1)], s[Ch(p, 2)])
      && r[Ch(p, 3)] == s[Ch(p, 3)]
  {
    assert Ch(p, 0) % 4 == 0;
    GrayPassAt(s, Luma601, Ch(p, 0));
  }
}
