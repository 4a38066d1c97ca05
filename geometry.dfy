/**
 * Rectangles: `Rect` (integer pixel edges), `RectF` (fractions of the image
 * size), getRectFromFittedCrop, and the corner arithmetic both
 * addWatermarkToBitmap overloads use to place their overlay.
 */
module Geometry {
  import opened JavaLang

  /** android.graphics.Rect. */
  datatype Rect = Rect(left: int, top: int, right: int, bottom: int) {
    function Width(): int { right - left }
    function Height(): int { bottom - top }
  }

  /** android.graphics.RectF holding a crop given as fractions of the image's width and height. */
  datatype RectF = RectF(left: real, top: real, right: real, bottom: real)

  /** A fitted crop as the design intends it: 0 <= left < right <= 1 and 0 <= top < bottom <= 1. */
  predicate IsFitted(f: RectF)
  {
    0.0 <= f.left < f.right <= 1.0 && 0.0 <= f.top < f.bottom <= 1.0
  }

  /**
   * getRectFromFittedCrop: each edge is the fraction times the image size,
   * rounded to the nearest pixel.
   */
  function RectFromFittedCrop(fitted: RectF, imageWidth: int, imageHeight: int): (r: Rect)
    ensures r.left as real - 0.5 <= fitted.left * imageWidth as real < r.left as real + 0.5
    ensures r.top as real - 0.5 <= fitted.top * imageHeight as real < r.top as real + 0.5
    ensures r.right as real - 0.5 <= fitted.right * imageWidth as real < r.right as real + 0.5
    ensures r.bottom as real - 0.5 <= fitted.bottom * imageHeight as real < r.bottom as real + 0.5
  {
    Rect(Round(fitted.left * imageWidth as real), Round(fitted.top * imageHeight as real),
         Round(fitted.right * imageWidth as real), Round(fitted.bottom * imageHeight as real))
  }

  /** A fraction in [0, 1] of a non-negative length lies between 0 and the length. */
  lemma UnitScale(x: real, n: real)
    requires 0.0 <= x <= 1.0 && n >= 0.0
    ensures 0.0 <= x * n <= n
  {
    assert (1.0 - x) * n >= 0.0;
  }

  /** Scaling by a non-negative length preserves order. */
  lemma ScaleMonotone(a: real, b: real, n: real)
    requires a <= b && n >= 0.0
    ensures a * n <= b * n
  {
    assert (b - a) * n >= 0.0;
  }

  /** One axis of a fitted crop: both rounded edges lie in [0, n] and keep their order. */
  lemma FittedEdges(low: real, high: real, n: int)
    requires 0.0 <= low <= high <= 1.0 && n >= 0
    ensures 0 <= Round(low * n as real) <= Round(high * n as real) <= n
  {
    UnitScale(low, n as real);
    UnitScale(high, n as real);
    ScaleMonotone(low, high, n as real);
    RoundBetween(low * n as real, high * n as real, n);
  }

  /** Rounding two ordered values in [0, n] gives two ordered integers in [0, n]. */
  lemma RoundBetween(l: real, h: real, n: int)
    requires 0.0 <= l <= h <= n as real
    ensures 0 <= Round(l) <= Round(h) <= n
  {
    RoundMonotone(0.0, l);
    RoundMonotone(l, h);
    RoundMonotone(h, n as real);
    assert Round(0.0) == 0;
    assert Round(n as real) == n;
  }

  /** A fitted crop lands inside the image, with its edges in order. */
  lemma FittedRectInsideImage(fitted: RectF, imageWidth: int, imageHeight: int)
    requires IsFitted(fitted) && imageWidth >= 0 && imageHeight >= 0
    ensures var r := RectFromFittedCrop(fitted, imageWidth, imageHeight);
      0 <= r.left <= r.right <= imageWidth && 0 <= r.top <= r.bottom <= imageHeight
  {
    var r := RectFromFittedCrop(fitted, imageWidth, imageHeight);
    assert r.left == Round(fitted.left * imageWidth as real) && r.right == Round(fitted.right * imageWidth as real);
    assert r.top == Round(fitted.top * imageHeight as real) && r.bottom == Round(fitted.bottom * imageHeight as real);
    FittedEdges(fitted.left, fitted.right, imageWidth);
    FittedEdges(fitted.top, fitted.bottom, imageHeight);
  }

  /** The whole-image crop maps to the whole image. */
  lemma WholeFittedRect(imageWidth: int, imageHeight: int)
    ensures RectFromFittedCrop(RectF(0.0, 0.0, 1.0, 1.0), imageWidth, imageHeight)
         == Rect(0, 0, imageWidth, imageHeight)
  {
  }

  // ---------------------------------------------------------------------
  // Watermark anchors

  const TopLeft := "topLeft"
  const TopRight := "topRight"
  const BottomLeft := "bottomLeft"
  const BottomRight := "bottomRight"

  /**
   * Where addWatermarkToBitmap draws an overlay of size w x h on a
   * width x height canvas, `offset` pixels in from the named corner; `None`
   * for any other location string (nothing is drawn).
   */
  function OverlayPosition(location: string, width: int, height: int, w: int, h: int, offset: int): (p: Option<(int, int)>)
    ensures p.Some? <==> location in {TopLeft, TopRight, BottomLeft, BottomRight}
    ensures p.Some? && location in {TopLeft, BottomLeft} ==> p.value.0 == offset
    ensures p.Some? && location in {TopRight, BottomRight} ==> width - (p.value.0 + w) == offset
    ensures p.Some? && location in {TopLeft, TopRight} ==> p.value.1 == offset
    ensures p.Some? && location in {BottomLeft, BottomRight} ==> height - (p.value.1 + h) == offset
  {
    if location == TopLeft then Some((offset, offset))
    else if location == TopRight then Some((width - w - offset, offset))
    else if location == BottomLeft then Some((offset, height - h - offset))
    else if location == BottomRight then Some((width - w - offset, height - h - offset))
    else None
  }

  /**
   * With a non-negative offset and an overlay that fits inside the canvas
   * with the offset to spare, every recognised corner keeps the overlay
   * entirely on the canvas.
   */
  lemma OverlayInsideCanvas(location: string, width: int, height: int, w: int, h: int, offset: int)
    requires offset >= 0 && w >= 0 && h >= 0 && w + offset <= width && h + offset <= height
    requires location in {TopLeft, TopRight, BottomLeft, BottomRight}
    ensures var p := OverlayPosition(location, width, height, w, h, offset).value;
      0 <= p.0 && p.0 + w <= width && 0 <= p.1 && p.1 + h <= height
  {
  }

  /** The right-hand corners mirror the left-hand ones, and the bottom corners the top ones. */
  lemma OverlayCornersMirror(width: int, height: int, w: int, h: int, offset: int)
    ensures OverlayPosition(TopRight, width, height, w, h, offset).value.0
         == width - w - OverlayPosition(TopLeft, width, height, w, h, offset).value.0
    ensures OverlayPosition(BottomLeft, width, height, w, h, offset).value.1
         == height - h - OverlayPosition(TopLeft, width, height, w, h, offset).value.1
    ensures OverlayPosition(BottomRight, width, height, w, h, offset)
         == Some((OverlayPosition(TopRight, width, height, w, h, offset).value.0,
                  OverlayPosition(BottomLeft, width, height, w, h, offset).value.1))
  {
  }
}
