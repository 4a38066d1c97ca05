/**
 * Sample-size arithmetic of BitmapUtil: the power-of-two down-sampling
 * factors derived from a requested size and from the device's maximum
 * texture size, and the lazily memoised texture limit.
 */
module SampleSize {
  import opened JavaLang

  /** 1, 2, 4, 8, ... */
  predicate IsPow2(n: int)
    decreases n
  {
    n >= 1 && (n == 1 || (n % 2 == 0 && IsPow2(n / 2)))
  }

  /** 2 to the power k. */
  function Pow2(k: nat): (r: int)
    ensures IsPow2(r)
  {
    if k == 0 then 1 else 2 * Pow2(k - 1)
  }

  function Abs(x: int): nat { if x < 0 then -x else x }

  lemma {:induction false} Pow2Gap(a: int, b: int)
    requires IsPow2(a) && IsPow2(b) && a < b
    ensures 2 * a <= b
    decreases b
  {
    if a > 1 {
      Pow2Gap(a / 2, b / 2);
    }
  }

  // ---------------------------------------------------------------------
  // calculateInSampleSizeByReqestedSize

  /** The loop guard of calculateInSampleSizeByReqestedSize at factor s. */
  predicate KeepsHalving(width: int, height: int, reqWidth: int, reqHeight: int, s: int)
    requires s >= 1
  {
    Div(Div(height, 2), s) > reqHeight && Div(Div(width, 2), s) > reqWidth
  }

  /** The doubling loop started at s: the first power of two at which the guard fails. */
  function HalvingFrom(width: int, height: int, reqWidth: int, reqHeight: int, s: int): (r: int)
    requires IsPow2(s)
    requires reqWidth >= 0 || reqHeight >= 0
    ensures IsPow2(r) && s <= r
    ensures !KeepsHalving(width, height, reqWidth, reqHeight, r)
    ensures forall p :: s <= p < r && IsPow2(p) ==> KeepsHalving(width, height, reqWidth, reqHeight, p)
    decreases Abs(width) + Abs(height) - s
  {
    if KeepsHalving(width, height, reqWidth, reqHeight, s) then
      assert 2 * s <= Abs(width) + Abs(height) by {
        if reqHeight >= 0 {
          DivAtLeastOne(Div(height, 2), s);
        } else {
          DivAtLeastOne(Div(width, 2), s);
        }
      }
      var r := HalvingFrom(width, height, reqWidth, reqHeight, 2 * s);
      assert forall p :: s < p < r && IsPow2(p) ==> 2 * s <= p by {
        forall p | s < p < r && IsPow2(p) ensures 2 * s <= p { Pow2Gap(s, p); }
      }
      r
    else
      s
  }

  /**
   * The factor calculateInSampleSizeByReqestedSize returns: 1 unless the image
   * exceeds the request in some dimension, otherwise the first power of two at
   * which halving once more would no longer keep both dimensions above the request.
   */
  function RequestedSampleSize(width: int, height: int, reqWidth: int, reqHeight: int): (r: int)
    requires (height <= reqHeight && width <= reqWidth) || reqWidth >= 0 || reqHeight >= 0
    ensures IsPow2(r)
    ensures !(height > reqHeight || width > reqWidth) ==> r == 1
    ensures (height > reqHeight || width > reqWidth) ==>
      !KeepsHalving(width, height, reqWidth, reqHeight, r) &&
      forall p :: 1 <= p < r && IsPow2(p) ==> KeepsHalving(width, height, reqWidth, reqHeight, p)
  {
    if height > reqHeight || width > reqWidth then HalvingFrom(width, height, reqWidth, reqHeight, 1) else 1
  }

  /**
   * What the factor means: once it is above 1, both dimensions divided by it
   * are still larger than requested, and doubling it would bring one of them
   * to the request or below. It also never exceeds either dimension, so the
   * doubling never overflows a Java int.
   */
  lemma RequestedSampleSizeBounds(width: int, height: int, reqWidth: int, reqHeight: int)
    requires reqWidth >= 0 && reqHeight >= 0
    ensures var s := RequestedSampleSize(width, height, reqWidth, reqHeight);
      && (s > 1 ==> Div(height, s) > reqHeight && Div(width, s) > reqWidth && s <= height && s <= width)
      && ((height > reqHeight || width > reqWidth) ==> Div(height, 2 * s) <= reqHeight || Div(width, 2 * s) <= reqWidth)
  {
    var s := RequestedSampleSize(width, height, reqWidth, reqHeight);
    NestedDiv(height, 2, s);
    NestedDiv(width, 2, s);
    assert 2 * s == s * 2;
    if s > 1 {
      var h := s / 2;
      assert IsPow2(h) && 1 <= h < s && s == 2 * h;
      assert KeepsHalving(width, height, reqWidth, reqHeight, h);
      NestedDiv(height, 2, h);
      NestedDiv(width, 2, h);
      assert Div(height, s) >= 1 && Div(width, s) >= 1;
      DivAtLeastOne(height, s);
      DivAtLeastOne(width, s);
    }
  }

  /** When the request equals the image's own size the factor is 1 (the crop paths rely on this). */
  lemma RequestedSampleSizeOfOwnSize(width: int, height: int)
    ensures RequestedSampleSize(width, height, width, height) == 1
  {
  }

  method CalculateInSampleSizeByRequestedSize(width: int, height: int, reqWidth: int, reqHeight: int)
    returns (inSampleSize: int)
    requires (height <= reqHeight && width <= reqWidth) || reqWidth >= 0 || reqHeight >= 0
    ensures inSampleSize == RequestedSampleSize(width, height, reqWidth, reqHeight)
  {
    inSampleSize := 1;
    if height > reqHeight || width > reqWidth {
      while Div(Div(height, 2), inSampleSize) > reqHeight && Div(Div(width, 2), inSampleSize) > reqWidth
        invariant IsPow2(inSampleSize)
        invariant HalvingFrom(width, height, reqWidth, reqHeight, inSampleSize)
               == HalvingFrom(width, height, reqWidth, reqHeight, 1)
        decreases HalvingFrom(width, height, reqWidth, reqHeight, 1) - inSampleSize
      {
        inSampleSize := inSampleSize * 2;
      }
    }
  }

  // ---------------------------------------------------------------------
  // calculateInSampleSizeByMaxTextureSize and the texture-size memo

  /** The loop guard of calculateInSampleSizeByMaxTextureSize: some dimension is still above the limit. */
  predicate ExceedsTexture(width: int, height: int, maxSize: int, s: int)
    requires s >= 1
  {
    Div(height, s) > maxSize || Div(width, s) > maxSize
  }

  function TextureFrom(width: int, height: int, maxSize: int, s: int): (r: int)
    requires IsPow2(s) && maxSize > 0
    ensures IsPow2(r) && s <= r
    ensures !ExceedsTexture(width, height, maxSize, r)
    ensures forall p :: s <= p < r && IsPow2(p) ==> ExceedsTexture(width, height, maxSize, p)
    decreases Abs(width) + Abs(height) - s
  {
    if ExceedsTexture(width, height, maxSize, s) then
      assert 2 * s <= Abs(width) + Abs(height) by {
        if Div(height, s) > maxSize {
          DivAtLeastOne(height, 2 * s) by { NestedDiv(height, s, 2); DivBounds(Div(height, s), 2); }
        } else {
          DivAtLeastOne(width, 2 * s) by { NestedDiv(width, s, 2); DivBounds(Div(width, s), 2); }
        }
      }
      var r := TextureFrom(width, height, maxSize, 2 * s);
      assert forall p :: s < p < r && IsPow2(p) ==> 2 * s <= p by {
        forall p | s < p < r && IsPow2(p) ensures 2 * s <= p { Pow2Gap(s, p); }
      }
      r
    else
      s
  }

  /**
   * The factor calculateInSampleSizeByMaxTextureSize returns for a known limit:
   * the smallest power of two that brings both dimensions within the limit,
   * and 1 when the limit is not positive.
   */
  function TextureSampleSize(width: int, height: int, maxSize: int): (r: int)
    ensures IsPow2(r)
    ensures maxSize > 0 ==> !ExceedsTexture(width, height, maxSize, r)
    ensures maxSize > 0 ==> forall p :: 1 <= p < r && IsPow2(p) ==> ExceedsTexture(width, height, maxSize, p)
    ensures maxSize <= 0 ==> r == 1
  {
    if maxSize > 0 then TextureFrom(width, height, maxSize, 1) else 1
  }

  /** Once the dimensions fit at factor s they fit at every larger factor. */
  lemma FitsTextureAbove(width: int, height: int, maxSize: int, s: int, t: int)
    requires maxSize > 0 && 1 <= s <= t
    requires !ExceedsTexture(width, height, maxSize, s)
    ensures !ExceedsTexture(width, height, maxSize, t)
  {
    DivAntitone(width, s, t);
    DivAntitone(height, s, t);
  }

  /**
   * decodeSampledBitmap takes the larger of the two factors: the result is a
   * power of two, at least the requested-size factor, and within the texture limit.
   */
  lemma CombinedSampleSize(width: int, height: int, reqWidth: int, reqHeight: int, maxSize: int)
    requires reqWidth >= 0 && reqHeight >= 0 && maxSize > 0
    ensures var s := Max(RequestedSampleSize(width, height, reqWidth, reqHeight), TextureSampleSize(width, height, maxSize));
      IsPow2(s) && s >= RequestedSampleSize(width, height, reqWidth, reqHeight) &&
      !ExceedsTexture(width, height, maxSize, s)
  {
    var t := TextureSampleSize(width, height, maxSize);
    var s := Max(RequestedSampleSize(width, height, reqWidth, reqHeight), t);
    FitsTextureAbove(width, height, maxSize, t, s);
  }

  function Max(a: int, b: int): int { if a >= b then a else b }

  /** The largest of the queried sizes, or 0 when there are none (the loop's running maximum). */
  function LargestSize(sizes: seq<int>): (r: int)
    ensures r >= 0
    ensures forall i :: 0 <= i < |sizes| ==> sizes[i] <= r
    ensures r == 0 || r in sizes
    decreases |sizes|
  {
    if sizes == [] then 0
    else
      var m := LargestSize(sizes[..|sizes| - 1]);
      assert forall x :: x in sizes[..|sizes| - 1] ==> x in sizes;
      Max(m, sizes[|sizes| - 1])
  }

  /** The smallest texture size BitmapUtil ever assumes (IMAGE_MAX_BITMAP_DIMENSION). */
  const ImageMaxBitmapDimension := 2048

  /**
   * getMaxTextureSize: the largest EGL_MAX_PBUFFER_WIDTH over the device's
   * configurations but at least 2048, and 2048 when querying EGL throws
   * (`None`).
   */
  function MaxTextureSize(egl: Option<seq<int>>): (r: int)
    ensures r >= ImageMaxBitmapDimension
    ensures egl.Some? ==> forall i :: 0 <= i < |egl.value| ==> egl.value[i] <= r
    ensures r == ImageMaxBitmapDimension || (egl.Some? && r in egl.value)
  {
    match egl
    case None => ImageMaxBitmapDimension
    case Some(sizes) => Max(LargestSize(sizes), ImageMaxBitmapDimension)
  }

  method GetMaxTextureSize(egl: Option<seq<int>>) returns (r: int)
    ensures r == MaxTextureSize(egl)
  {
    if egl.None? {
      return ImageMaxBitmapDimension;
    }
    var sizes := egl.value;
    var maximumTextureSize := 0;
    for i := 0 to |sizes|
      invariant maximumTextureSize == LargestSize(sizes[..i])
    {
      assert sizes[..i + 1][..i] == sizes[..i];
      if maximumTextureSize < sizes[i] {
        maximumTextureSize := sizes[i];
      }
    }
    assert sizes[..|sizes|] == sizes;
    r := Max(maximumTextureSize, ImageMaxBitmapDimension);
  }

  /**
   * The static field mMaxTextureSize of BitmapUtil. It starts at 0 and is
   * filled in on first use; getMaxTextureSize never returns less than 2048,
   * so once set it never goes back to 0.
   */
  class TextureSizeCache {
    var maxTextureSize: int

    ghost predicate Valid()
      reads this
    {
      maxTextureSize == 0 || maxTextureSize >= ImageMaxBitmapDimension
    }

    constructor ()
      ensures Valid() && maxTextureSize == 0
    {
      maxTextureSize := 0;
    }

    method CalculateInSampleSizeByMaxTextureSize(width: int, height: int, egl: Option<seq<int>>)
      returns (inSampleSize: int)
      requires Valid()
      modifies this
      ensures Valid() && maxTextureSize >= ImageMaxBitmapDimension
      ensures maxTextureSize == if old(maxTextureSize) == 0 then MaxTextureSize(egl) else old(maxTextureSize)
      ensures inSampleSize == TextureSampleSize(width, height, maxTextureSize)
    {
      inSampleSize := 1;
      if maxTextureSize == 0 {
        maxTextureSize := GetMaxTextureSize(egl);
      }
      if maxTextureSize > 0 {
        while Div(height, inSampleSize) > maxTextureSize || Div(width, inSampleSize) > maxTextureSize
          invariant IsPow2(inSampleSize)
          invariant TextureFrom(width, height, maxTextureSize, inSampleSize) == TextureFrom(width, height, maxTextureSize, 1)
          decreases TextureFrom(width, height, maxTextureSize, 1) - inSampleSize
        {
          inSampleSize := inSampleSize * 2;
        }
      }
    }
  }
}
