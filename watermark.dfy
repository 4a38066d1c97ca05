/**
 * The two five-argument addWatermarkToBitmap overloads of BitmapUtil: a new
 * mutable bitmap of the source's size, the source drawn at (0, 0), and then
 * a watermark image (scaled so that its width is `ratio` of the source's)
 * or a red 16-pixel text, `offset` pixels in from the named corner.
 */
module Watermark {
  import opened JavaLang
  import opened Geometry
  import opened Platform

  /** Paint.setTextSize(16) in the text overload. */
  const TextSize := 16
  /** Paint.setColor(0xFFFF0000): opaque red. */
  const TextColor := 0xFFFF0000

  function AbsReal(x: real): (y: real)
    ensures y >= 0.0 && (y == x || y == -x)
  {
    if x < 0.0 then -x else x
  }

  /** The scale that makes a watermark `watermarkWidth` wide span `ratio` of a canvas `width` wide. */
  function WatermarkScale(width: int, ratio: real, watermarkWidth: int): (scale: real)
    requires watermarkWidth > 0
    ensures scale * watermarkWidth as real == width as real * ratio
  {
    (width as real * ratio) / watermarkWidth as real
  }

  /** A side of n pixels under a scale matrix: the rounded length of the mapped (sorted) rectangle's side. */
  function ScaledSide(n: int, scale: real): (m: int)
    ensures m as real - 0.5 <= AbsReal(n as real * scale) < m as real + 0.5
  {
    Round(AbsReal(n as real * scale))
  }

  /**
   * Bitmap.createBitmap(watermark, 0, 0, w, h, scale matrix, true): an
   * immutable watermark at scale 1 comes back as itself; otherwise the
   * mapped rectangle's rounded size is allocated, and a size of zero is
   * refused.
   */
  function ScaledWatermark(watermark: Image, mutable: bool, scale: real, device: Device): (r: Outcome<Image>)
    ensures r.Thrown? ==> r.error == IllegalArgument
    ensures r.Returned? && !(!mutable && scale == 1.0) ==>
      r.value.width as real - 0.5 <= AbsReal(watermark.width as real * scale) < r.value.width as real + 0.5 &&
      r.value.height as real - 0.5 <= AbsReal(watermark.height as real * scale) < r.value.height as real + 0.5
    ensures r.Returned? && !mutable && scale == 1.0 ==> r.value == watermark
  {
    if !mutable && scale == 1.0 then Returned(watermark)
    else
      var w := ScaledSide(watermark.width, scale);
      var h := ScaledSide(watermark.height, scale);
      if w <= 0 || h <= 0 then Thrown(IllegalArgument)
      else if device.allocationFails(w, h) then OutOfMemory
      else Returned(Image(w, h, ScaledTo(watermark.pixels, w, h)))
  }

  /** `src` drawn on a new canvas of its size, with `overlay` of size w x h placed at the named corner (if any). */
  function Stamped(src: Image, overlay: Overlay, w: int, h: int, location: string, offset: int): (r: Image)
    ensures r.width == src.width && r.height == src.height && r.pixels.Canvas? && r.pixels.base == src.pixels
    ensures r.pixels.overlay.Some? <==> location in {TopLeft, TopRight, BottomLeft, BottomRight}
  {
    var placement :=
      match OverlayPosition(location, src.width, src.height, w, h, offset)
      case Some((x, y)) => Some(Placement(overlay, x, y))
      case None => None;
    Image(src.width, src.height, Canvas(src.pixels, placement))
  }

  /**
   * addWatermarkToBitmap(src, watermark, ratio, location, offset): the canvas
   * is allocated first (refused for an empty source, possibly out of
   * memory), then the scaled watermark.
   */
  function ImageWatermarkSpec(src: Image, watermark: Image, watermarkMutable: bool, ratio: real, location: string, offset: int, device: Device)
    : (r: Outcome<Image>)
    requires watermark.width > 0
  {
    if src.width <= 0 || src.height <= 0 then Thrown(IllegalArgument)
    else if device.allocationFails(src.width, src.height) then OutOfMemory
    else
      var scale := WatermarkScale(src.width, ratio, watermark.width);
      match ScaledWatermark(watermark, watermarkMutable, scale, device)
      case Returned(mark) => Returned(Stamped(src, ImageOverlay(mark.pixels), mark.width, mark.height, location, offset))
      case OutOfMemory => OutOfMemory
      case Thrown(e) => Thrown(e)
  }

  /**
   * The image overload keeps the source's size and pixels underneath and
   * draws the scaled watermark at the named corner; an unknown location
   * draws nothing.
   */
  lemma ImageWatermarkShape(src: Image, watermark: Image, watermarkMutable: bool, ratio: real, location: string, offset: int, device: Device)
    requires watermark.width > 0
    ensures var r := ImageWatermarkSpec(src, watermark, watermarkMutable, ratio, location, offset, device);
      r.Returned? ==>
        src.width > 0 && src.height > 0 &&
        r.value.width == src.width && r.value.height == src.height && r.value.pixels.Canvas? && r.value.pixels.base == src.pixels &&
        (r.value.pixels.overlay.Some? <==> location in {TopLeft, TopRight, BottomLeft, BottomRight})
    ensures var r := ImageWatermarkSpec(src, watermark, watermarkMutable, ratio, location, offset, device);
      r.Returned? && r.value.pixels.overlay.Some? ==>
        var p := r.value.pixels.overlay.value;
        var mark := ScaledWatermark(watermark, watermarkMutable, WatermarkScale(src.width, ratio, watermark.width), device).value;
        p.overlay == ImageOverlay(mark.pixels) &&
        Some((p.x, p.y)) == OverlayPosition(location, src.width, src.height, mark.width, mark.height, offset)
  {
  }

  /**
   * The scaled watermark is within half a pixel of `ratio` times the canvas
   * width (exactly that width when the watermark is reused as is).
   */
  lemma WatermarkSpansRatio(width: int, watermark: Image, watermarkMutable: bool, ratio: real, device: Device)
    requires watermark.width > 0
    ensures var r := ScaledWatermark(watermark, watermarkMutable, WatermarkScale(width, ratio, watermark.width), device);
      r.Returned? ==> r.value.width as real - 0.5 <= AbsReal(width as real * ratio) < r.value.width as real + 0.5
  {
    SpansScaled(watermark, watermarkMutable, WatermarkScale(width, ratio, watermark.width), width as real * ratio, device);
  }

  /** A watermark scaled by any factor that maps its width onto `spanned` comes out within half a pixel of it. */
  lemma SpansScaled(watermark: Image, watermarkMutable: bool, scale: real, spanned: real, device: Device)
    requires watermark.width > 0 && scale * watermark.width as real == spanned
    ensures var r := ScaledWatermark(watermark, watermarkMutable, scale, device);
      r.Returned? ==> r.value.width as real - 0.5 <= AbsReal(spanned) < r.value.width as real + 0.5
  {
    var r := ScaledWatermark(watermark, watermarkMutable, scale, device);
    if r.Returned? {
      if !watermarkMutable && scale == 1.0 {
        UnitScaleSpans(watermark.width, scale, spanned);
      } else {
        ScaleSpans(watermark.width, scale, spanned);
      }
    }
  }

  lemma ScaleSpans(n: int, scale: real, spanned: real)
    requires scale * n as real == spanned
    ensures AbsReal(n as real * scale) == AbsReal(spanned)
  {
    assert n as real * scale == spanned;
  }

  lemma UnitScaleSpans(n: int, scale: real, spanned: real)
    requires n > 0 && scale == 1.0 && scale * n as real == spanned
    ensures AbsReal(spanned) == n as real
  {
  }

  /** The createBitmap call that scales the watermark bitmap. */
  method ScaleWatermark(watermark: Bitmap, scale: real, device: Device) returns (r: Outcome<Bitmap>)
    ensures BitmapOutcome(r) == ScaledWatermark(watermark.image, watermark.mutable, scale, device)
    ensures r.Returned? ==> r.value == watermark || (fresh(r.value) && r.value.mutable)
  {
    if !watermark.mutable && scale == 1.0 {
      return Returned(watermark);
    }
    var w := ScaledSide(watermark.image.width, scale);
    var h := ScaledSide(watermark.image.height, scale);
    if w <= 0 || h <= 0 {
      return Thrown(IllegalArgument);
    }
    if device.allocationFails(w, h) {
      return OutOfMemory;
    }
    var mark := new Bitmap(Image(w, h, ScaledTo(watermark.image.pixels, w, h)), true);
    return Returned(mark);
  }

  method AddImageWatermark(src: Bitmap, watermark: Bitmap, ratio: real, location: string, offset: int, device: Device)
    returns (r: Outcome<Bitmap>)
    requires watermark.image.width > 0
    ensures BitmapOutcome(r) == ImageWatermarkSpec(src.image, watermark.image, watermark.mutable, ratio, location, offset, device)
    ensures r.Returned? ==> fresh(r.value) && r.value.mutable
  {
    var width, height := src.image.width, src.image.height;
    if width <= 0 || height <= 0 {
      return Thrown(IllegalArgument);
    }
    if device.allocationFails(width, height) {
      return OutOfMemory;
    }
    var scale := WatermarkScale(width, ratio, watermark.image.width);
    var scaled := ScaleWatermark(watermark, scale, device);
    match scaled {
      case OutOfMemory => return OutOfMemory;
      case Thrown(e) => return Thrown(e);
      case Returned(mark) =>
        var ret := new Bitmap(Stamped(src.image, ImageOverlay(mark.image.pixels), mark.image.width, mark.image.height, location, offset), true);
        return Returned(ret);
    }
  }

  /**
   * addWatermarkToBitmap(src, text, ratio, location, offset): the text is
   * measured at size 16 and placed by its bounds; the scale computed from
   * `ratio` is never applied, so `ratio` has no effect.
   */
  function TextWatermarkSpec(src: Image, text: string, ratio: real, location: string, offset: int, device: Device)
    : (r: Outcome<Image>)
    ensures r.Returned? ==> r.value.width == src.width && r.value.height == src.height
    ensures r.Returned? ==> r.value.pixels.Canvas? && r.value.pixels.base == src.pixels
    ensures r.Thrown? ==> r.error == IllegalArgument
  {
    if src.width <= 0 || src.height <= 0 then Thrown(IllegalArgument)
    else if device.allocationFails(src.width, src.height) then OutOfMemory
    else
      var bounds := device.textBounds(text, TextSize);
      Returned(Stamped(src, TextOverlay(text, TextSize, TextColor), bounds.0, bounds.1, location, offset))
  }

  /** The ratio argument of the text overload is dead: any two ratios give the same bitmap. */
  lemma TextWatermarkIgnoresRatio(src: Image, text: string, ratio: real, other: real, location: string, offset: int, device: Device)
    ensures TextWatermarkSpec(src, text, ratio, location, offset, device) == TextWatermarkSpec(src, text, other, location, offset, device)
  {
  }

  /**
   * The text lands `offset` in from the named corner by its measured bounds;
   * drawText takes that point as the text's baseline origin.
   */
  lemma TextWatermarkPlacement(src: Image, text: string, ratio: real, location: string, offset: int, device: Device)
    requires location in {TopLeft, TopRight, BottomLeft, BottomRight}
    ensures var r := TextWatermarkSpec(src, text, ratio, location, offset, device);
      var bounds := device.textBounds(text, TextSize);
      r.Returned? ==>
        r.value.pixels.overlay.Some? &&
        r.value.pixels.overlay.value.overlay == TextOverlay(text, TextSize, TextColor) &&
        Some((r.value.pixels.overlay.value.x, r.value.pixels.overlay.value.y))
          == OverlayPosition(location, src.width, src.height, bounds.0, bounds.1, offset)
  {
  }

  method AddTextWatermark(src: Bitmap, text: string, ratio: real, location: string, offset: int, device: Device)
    returns (r: Outcome<Bitmap>)
    ensures BitmapOutcome(r) == TextWatermarkSpec(src.image, text, ratio, location, offset, device)
    ensures r.Returned? ==> fresh(r.value) && r.value.mutable
  {
    var width, height := src.image.width, src.image.height;
    if width <= 0 || height <= 0 {
      return Thrown(IllegalArgument);
    }
    if device.allocationFails(width, height) {
      return OutOfMemory;
    }
    var bounds := device.textBounds(text, TextSize);
    var ret := new Bitmap(Stamped(src.image, TextOverlay(text, TextSize, TextColor), bounds.0, bounds.1, location, offset), true);
    return Returned(ret);
  }
}
