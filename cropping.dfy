/**
 * The crop path of BitmapUtil: cropBitmapObjectWithScale (crop an in-memory
 * bitmap, scaled down by 1/divisor), cropBitmapObjectHandleOOM (divisors 1,
 * 2, 4, 8), the private cropBitmap overloads (region decode first, full
 * decode and crop as the fallback) and the public cropBitmap (sampleMulti
 * 1, 2, 4, 8, 16).
 */
module Cropping {
  import opened JavaLang
  import opened Geometry
  import opened SampleSize
  import opened RetryLadder
  import opened Platform
  import opened Decoding

  /** The largest divisor cropBitmapObjectHandleOOM tries. */
  const ScaleCeiling := 8
  /** The largest sampleMulti the public cropBitmap tries. */
  const SampleMultiCeiling := 16

  /** Bitmap.createBitmap(source, x, y, width, height, ...) accepts the rectangle. */
  predicate RectInside(rect: Rect, width: int, height: int)
  {
    rect.left >= 0 && rect.top >= 0 && rect.Width() > 0 && rect.Height() > 0 &&
    rect.right <= width && rect.bottom <= height
  }

  /** A side of n pixels scaled by 1/divisor: the rounded length of the mapped rectangle. */
  function ScaledLength(n: int, divisor: int): (m: int)
    requires divisor >= 1
    ensures m as real - 0.5 <= n as real / divisor as real < m as real + 0.5
  {
    Round(n as real / divisor as real)
  }

  lemma RealDivAntitone(n: real, d: real, e: real)
    requires n >= 0.0 && 0.0 < d <= e
    ensures n / e <= n / d
  {
    var q := n / d;
    assert q >= 0.0;
    assert d / e <= 1.0;
    assert n / e == q * (d / e);
  }

  /** A larger divisor never gives a longer side: the reason the OOM ladders double it. */
  lemma ScaledLengthAntitone(n: int, divisor: int, larger: int)
    requires n >= 0 && 1 <= divisor <= larger
    ensures ScaledLength(n, larger) <= ScaledLength(n, divisor)
  {
    RealDivAntitone(n as real, divisor as real, larger as real);
    RoundMonotone(n as real / larger as real, n as real / divisor as real);
  }

  /** Divisor 1 keeps the length. */
  lemma ScaledLengthOne(n: int)
    ensures ScaledLength(n, 1) == n
  {
  }

  /**
   * cropBitmapObjectWithScale on a bitmap with the given image and
   * mutability. createBitmap refuses a rectangle outside the image; the
   * whole image of an immutable bitmap at divisor 1 comes back as the source
   * itself, which is then copied; otherwise a new bitmap of the scaled size
   * is allocated. Each allocation may run out of memory.
   */
  function ScaledCropSpec(image: Image, mutable: bool, fitted: RectF, divisor: int, device: Device): (r: Outcome<Image>)
    requires divisor >= 1
  {
    var rect := RectFromFittedCrop(fitted, image.width, image.height);
    if !RectInside(rect, image.width, image.height) then Thrown(IllegalArgument)
    else if !mutable && divisor == 1 && rect == Rect(0, 0, image.width, image.height) then
      if device.allocationFails(image.width, image.height) then OutOfMemory else Returned(image)
    else
      var w, h := ScaledLength(rect.Width(), divisor), ScaledLength(rect.Height(), divisor);
      if w <= 0 || h <= 0 then Thrown(IllegalArgument)
      else if device.allocationFails(w, h) then OutOfMemory
      else Returned(Image(w, h, Crop(image.pixels, rect, divisor)))
  }

  /**
   * A crop at divisor 1 has the pixel size of the crop rectangle, and every
   * crop has the scaled size of that rectangle; the rectangle lies inside
   * the image.
   */
  lemma ScaledCropSize(image: Image, mutable: bool, fitted: RectF, divisor: int, device: Device)
    requires divisor >= 1
    ensures var r := ScaledCropSpec(image, mutable, fitted, divisor, device);
      var rect := RectFromFittedCrop(fitted, image.width, image.height);
      r.Returned? ==>
        RectInside(rect, image.width, image.height) &&
        r.value.width == ScaledLength(rect.Width(), divisor) && r.value.height == ScaledLength(rect.Height(), divisor) &&
        (divisor == 1 ==> r.value.width == rect.Width() && r.value.height == rect.Height())
  {
    var rect := RectFromFittedCrop(fitted, image.width, image.height);
    ScaledLengthOne(rect.Width());
    ScaledLengthOne(rect.Height());
  }

  method CropBitmapObjectWithScale(bitmap: Bitmap, fitted: RectF, divisor: int, device: Device) returns (r: Outcome<Bitmap>)
    requires divisor >= 1
    ensures BitmapOutcome(r) == ScaledCropSpec(bitmap.image, bitmap.mutable, fitted, divisor, device)
    ensures r.Returned? ==> fresh(r.value)
  {
    var width, height := bitmap.image.width, bitmap.image.height;
    var rect := RectFromFittedCrop(fitted, width, height);
    if !RectInside(rect, width, height) {
      return Thrown(IllegalArgument);
    }
    var result: Bitmap;
    if !bitmap.mutable && divisor == 1 && rect == Rect(0, 0, width, height) {
      result := bitmap;
    } else {
      var w, h := ScaledLength(rect.Width(), divisor), ScaledLength(rect.Height(), divisor);
      if w <= 0 || h <= 0 {
        return Thrown(IllegalArgument);
      }
      if device.allocationFails(w, h) {
        return OutOfMemory;
      }
      result := new Bitmap(Image(w, h, Crop(bitmap.image.pixels, rect, divisor)), true);
    }
    if result == bitmap {
      // the whole bitmap was selected: copy it
      if device.allocationFails(width, height) {
        return OutOfMemory;
      }
      result := new Bitmap(bitmap.image, false);
    }
    return Returned(result);
  }

  // ---------------------------------------------------------------------
  // cropBitmapObjectHandleOOM

  function ScaleOomAt(image: Image, mutable: bool, fitted: RectF, device: Device): int -> bool
  {
    divisor => divisor >= 1 && ScaledCropSpec(image, mutable, fitted, divisor, device).OutOfMemory?
  }

  /**
   * cropBitmapObjectHandleOOM: the crop at the first divisor of 1, 2, 4, 8
   * that does not run out of memory, with that divisor as the sample size;
   * the OutOfMemoryError itself when all four do; other exceptions as they
   * come.
   */
  function HandleOomSpec(image: Image, mutable: bool, fitted: RectF, device: Device): (r: Outcome<Sampled>)
    ensures r.Returned? ==> r.value.image.Some?
  {
    match Ladder(1, ScaleCeiling, ScaleOomAt(image, mutable, fitted, device)).end
    case Exhausted(_) => OutOfMemory
    case Stopped(divisor) =>
      match ScaledCropSpec(image, mutable, fitted, divisor, device)
      case Returned(crop) => Returned(Sampled(Some(crop), divisor))
      case Thrown(e) => Thrown(e)
      case OutOfMemory => OutOfMemory
  }

  lemma Pow2UpTo8(s: int)
    requires IsPow2(s) && s <= 8
    ensures s == 1 || s == 2 || s == 4 || s == 8
  {
    if s != 1 {
      assert IsPow2(s / 2) && s / 2 <= 4;
      if s / 2 != 1 {
        assert IsPow2(s / 4) && s / 4 <= 2;
        if s / 4 != 1 {
          assert IsPow2(s / 8) && s / 8 <= 1;
        }
      }
    }
  }

  /**
   * The sample size cropBitmapObjectHandleOOM reports is one of 1, 2, 4, 8,
   * the crop returned is the crop at that divisor, and every divisor tried
   * before it ran out of memory.
   */
  lemma HandleOomDivisor(image: Image, mutable: bool, fitted: RectF, device: Device)
    ensures var r := HandleOomSpec(image, mutable, fitted, device);
      r.Returned? ==>
        var d := r.value.sampleSize;
        (d == 1 || d == 2 || d == 4 || d == 8) &&
        ScaledCropSpec(image, mutable, fitted, d, device) == Returned(r.value.image.value) &&
        forall k :: k in Ladder(1, ScaleCeiling, ScaleOomAt(image, mutable, fitted, device)).tried && k < d ==>
          ScaledCropSpec(image, mutable, fitted, k, device).OutOfMemory?
  {
    var oom := ScaleOomAt(image, mutable, fitted, device);
    var run := Ladder(1, ScaleCeiling, oom);
    var r := HandleOomSpec(image, mutable, fitted, device);
    if r.Returned? {
      var d := r.value.sampleSize;
      var t := run.tried;
      assert d == t[|t| - 1];
      LadderPow2(1, ScaleCeiling, oom);
      LadderBounded(1, ScaleCeiling, oom);
      Pow2UpTo8(d);
      forall k | k in t && k < d
        ensures ScaledCropSpec(image, mutable, fitted, k, device).OutOfMemory?
      {
        var i :| 0 <= i < |t| && t[i] == k;
        assert oom(t[i]);
      }
    }
  }

  /**
   * cropBitmapObjectHandleOOM lets the OutOfMemoryError out exactly when the
   * crop runs out of memory at divisors 1, 2, 4 and 8.
   */
  lemma HandleOomGivesUp(image: Image, mutable: bool, fitted: RectF, device: Device)
    ensures HandleOomSpec(image, mutable, fitted, device).OutOfMemory? <==>
      forall d :: d in [1, 2, 4, 8] ==> ScaledCropSpec(image, mutable, fitted, d, device).OutOfMemory?
  {
    var oom := ScaleOomAt(image, mutable, fitted, device);
    ScaleLadderExhausted(oom);
    var run := Ladder(1, ScaleCeiling, oom);
    if run.end.Stopped? {
      LadderBounded(1, ScaleCeiling, oom);
      assert !oom(Last(run.tried));
    }
  }

  method CropBitmapObjectHandleOOM(bitmap: Bitmap, fitted: RectF, device: Device) returns (r: Outcome<BitmapSampled>)
    ensures SampledOutcome(r) == HandleOomSpec(bitmap.image, bitmap.mutable, fitted, device)
    ensures r.Returned? ==> fresh(r.value.bitmap)
  {
    var scale := 1;
    ghost var oom := ScaleOomAt(bitmap.image, bitmap.mutable, fitted, device);
    while true
      invariant scale >= 1
      invariant Ladder(scale, ScaleCeiling, oom).end == Ladder(1, ScaleCeiling, oom).end
      decreases if scale <= ScaleCeiling then ScaleCeiling + 1 - scale else 0
    {
      var crop := CropBitmapObjectWithScale(bitmap, fitted, scale, device);
      assert oom(scale) == crop.OutOfMemory?;
      if !crop.OutOfMemory? {
        assert Ladder(scale, ScaleCeiling, oom).end == Stopped(scale);
        match crop
        case Returned(b) => return Returned(BitmapSampled(b, scale));
        case Thrown(e) => return Thrown(e);
      }
      if 2 * scale > ScaleCeiling {
        assert Ladder(scale, ScaleCeiling, oom).end == Exhausted(2 * scale);
        return OutOfMemory;
      }
      LadderStep(scale, ScaleCeiling, oom);
      scale := scale * 2;
    }
  }

  // ---------------------------------------------------------------------
  // The private cropBitmap overloads

  /**
   * The full-decode fallback: decodeImage from RegionStart, then
   * cropBitmapObjectWithScale at divisor 1 on the decoded bitmap. It reports
   * RegionStart even when decodeImage had to go higher; a null decode
   * gives a null bitmap; out-of-memory in the crop passes through; every
   * exception is wrapped as "Failed to load sampled bitmap".
   */
  function FallbackSpec(source: ImageSource, fitted: RectF, sampleMulti: int, rect: Rect, width: int, height: int, device: Device)
    : (r: Outcome<Sampled>)
    requires sampleMulti >= 1
    requires (rect.Height() <= height && rect.Width() <= width) || width >= 0 || height >= 0
    ensures r.Returned? ==> r.value.sampleSize == RegionStart(rect, width, height, sampleMulti)
    ensures r.Thrown? ==> r.error.LoadFailed?
  {
    var sampleSize := RegionStart(rect, width, height, sampleMulti);
    match DecodeImageSpec(source, sampleSize).result
    case Thrown(e) => Thrown(LoadFailed(e))
    case OutOfMemory => OutOfMemory
    case Returned(None) => Returned(Sampled(None, sampleSize))
    case Returned(Some(full)) =>
      match ScaledCropSpec(full, false, fitted, 1, device)
      case Returned(crop) => Returned(Sampled(Some(crop), sampleSize))
      case OutOfMemory => OutOfMemory
      case Thrown(e) => Thrown(LoadFailed(e))
  }

  /**
   * The fallback crop: `full` is the bitmap decodeImage produced (null when
   * there was none). The crop is never that bitmap, so the fallback always
   * recycles it.
   */
  method CropFromFullDecode(resolver: Resolver, fitted: RectF, sampleMulti: int, rect: Rect, width: int, height: int, device: Device)
    returns (r: Outcome<BitmapSampled>, ghost full: Bitmap?)
    requires sampleMulti >= 1
    requires (rect.Height() <= height && rect.Width() <= width) || width >= 0 || height >= 0
    modifies resolver
    ensures SampledOutcome(r) == FallbackSpec(resolver.source, fitted, sampleMulti, rect, width, height, device)
    ensures full != null ==> full.recycled && fresh(full)
    ensures (full != null) <==> DecodeImageSpec(resolver.source, RegionStart(rect, width, height, sampleMulti)).result.Returned? &&
                                DecodeImageSpec(resolver.source, RegionStart(rect, width, height, sampleMulti)).result.value.Some?
    ensures r.Returned? && r.value.bitmap != null ==> fresh(r.value.bitmap) && r.value.bitmap != full
    ensures resolver.decodeCalls == old(resolver.decodeCalls) + DecodeAttempts(resolver.source, RegionStart(rect, width, height, sampleMulti))
    ensures resolver.streamsOpened - old(resolver.streamsOpened) == |DecodeAttempts(resolver.source, RegionStart(rect, width, height, sampleMulti))|
    ensures resolver.streamsOpened - old(resolver.streamsOpened) == resolver.streamsClosed - old(resolver.streamsClosed)
    ensures resolver.regionCalls == old(resolver.regionCalls) && resolver.writes == old(resolver.writes)
    ensures resolver.decoders == old(resolver.decoders) && resolver.decodersRecycled == old(resolver.decodersRecycled)
  {
    full := null;
    var requested := CalculateInSampleSizeByRequestedSize(rect.Width(), rect.Height(), width, height);
    MulAtLeast(sampleMulti, requested);
    var sampleSize := sampleMulti * requested;
    var options := new DecodeOptions();
    options.inSampleSize := sampleSize;
    var decoded := DecodeImage(resolver, options);
    match decoded {
      case Thrown(e) =>
        r := Thrown(LoadFailed(e));
      case OutOfMemory =>
        r := OutOfMemory;
      case Returned(fullBitmap) =>
        if fullBitmap == null {
          r := Returned(BitmapSampled(null, sampleSize));
        } else {
          full := fullBitmap;
          var crop := CropBitmapObjectWithScale(fullBitmap, fitted, 1, device);
          // the finally block: recycle the full bitmap unless it is the result
          if !(crop.Returned? && crop.value == fullBitmap) {
            fullBitmap.Recycle();
          }
          match crop {
            case Returned(b) => r := Returned(BitmapSampled(b, sampleSize));
            case OutOfMemory => r := OutOfMemory;
            case Thrown(e) => r := Thrown(LoadFailed(e));
          }
        }
    }
  }

  /**
   * The private cropBitmap with a sampleMulti: the region decode of the
   * rectangle when it yields a bitmap, otherwise (null result or any
   * exception) the full-decode fallback.
   */
  function CropSpec(source: ImageSource, fitted: RectF, orgWidth: int, orgHeight: int, sampleMulti: int, device: Device)
    : (r: Outcome<Sampled>)
    requires sampleMulti >= 1
  {
    var rect := RectFromFittedCrop(fitted, orgWidth, orgHeight);
    var region := RegionSpec(source, rect, rect.Width(), rect.Height(), sampleMulti);
    if region.Returned? && region.value.image.Some? then region
    else FallbackSpec(source, fitted, sampleMulti, rect, rect.Width(), rect.Height(), device)
  }

  /**
   * Because the requested size is the rectangle's own size, both the region
   * decode and the fallback start from exactly sampleMulti; the fallback
   * reports sampleMulti, and a region bitmap is the rectangle decoded at the
   * factor reported.
   */
  lemma CropStartsAtSampleMulti(source: ImageSource, fitted: RectF, orgWidth: int, orgHeight: int, sampleMulti: int, device: Device)
    requires sampleMulti >= 1
    ensures var rect := RectFromFittedCrop(fitted, orgWidth, orgHeight);
      RegionStart(rect, rect.Width(), rect.Height(), sampleMulti) == sampleMulti
    ensures var rect := RectFromFittedCrop(fitted, orgWidth, orgHeight);
      var region := RegionSpec(source, rect, rect.Width(), rect.Height(), sampleMulti);
      var r := CropSpec(source, fitted, orgWidth, orgHeight, sampleMulti, device);
      region.Returned? && region.value.image.Some? ==>
        r == region && r.value.image.value.pixels == RegionDecode(rect, r.value.sampleSize)
    ensures var rect := RectFromFittedCrop(fitted, orgWidth, orgHeight);
      var region := RegionSpec(source, rect, rect.Width(), rect.Height(), sampleMulti);
      var r := CropSpec(source, fitted, orgWidth, orgHeight, sampleMulti, device);
      !(region.Returned? && region.value.image.Some?) && r.Returned? ==> r.value.sampleSize == sampleMulti
  {
    var rect := RectFromFittedCrop(fitted, orgWidth, orgHeight);
    RequestedSampleSizeOfOwnSize(rect.Width(), rect.Height());
    RegionResultMeaning(source, rect, rect.Width(), rect.Height(), sampleMulti);
  }

  /** The factors the private crop hands to decodeRegion, in order. */
  function CropRegionAttempts(source: ImageSource, fitted: RectF, orgWidth: int, orgHeight: int, sampleMulti: int): seq<int>
    requires sampleMulti >= 1
  {
    var rect := RectFromFittedCrop(fitted, orgWidth, orgHeight);
    RegionAttempts(source, rect, rect.Width(), rect.Height(), sampleMulti)
  }

  /** The factors the private crop hands to decodeStream: those of the fallback, unless the region decode gave a bitmap. */
  function CropDecodeAttempts(source: ImageSource, fitted: RectF, orgWidth: int, orgHeight: int, sampleMulti: int): seq<int>
    requires sampleMulti >= 1
  {
    var rect := RectFromFittedCrop(fitted, orgWidth, orgHeight);
    var region := RegionSpec(source, rect, rect.Width(), rect.Height(), sampleMulti);
    if region.Returned? && region.value.image.Some? then []
    else DecodeAttempts(source, RegionStart(rect, rect.Width(), rect.Height(), sampleMulti))
  }

  method CropRegionOrFull(resolver: Resolver, fitted: RectF, orgWidth: int, orgHeight: int, sampleMulti: int, device: Device)
    returns (r: Outcome<BitmapSampled>)
    requires sampleMulti >= 1
    modifies resolver
    ensures SampledOutcome(r) == CropSpec(resolver.source, fitted, orgWidth, orgHeight, sampleMulti, device)
    ensures r.Returned? && r.value.bitmap != null ==> fresh(r.value.bitmap)
    ensures resolver.regionCalls == old(resolver.regionCalls) + CropRegionAttempts(resolver.source, fitted, orgWidth, orgHeight, sampleMulti)
    ensures resolver.decodeCalls == old(resolver.decodeCalls) + CropDecodeAttempts(resolver.source, fitted, orgWidth, orgHeight, sampleMulti)
    ensures resolver.streamsOpened - old(resolver.streamsOpened) == resolver.streamsClosed - old(resolver.streamsClosed)
    ensures resolver.decoders - old(resolver.decoders) == resolver.decodersRecycled - old(resolver.decodersRecycled)
    ensures resolver.writes == old(resolver.writes)
  {
    var rect := RectFromFittedCrop(fitted, orgWidth, orgHeight);
    var width, height := rect.Width(), rect.Height();
    var region := DecodeSampledBitmapRegion(resolver, rect, width, height, sampleMulti);
    if region.OutOfMemory? {
      // an Error, not an Exception: the catch does not swallow it
      return OutOfMemory;
    }
    if region.Returned? && region.value.bitmap != null {
      return region;
    }
    // region failed or gave nothing: full decode, then crop
    ghost var full;
    r, full := CropFromFullDecode(resolver, fitted, sampleMulti, rect, width, height, device);
  }

  // ---------------------------------------------------------------------
  // The public cropBitmap

  function CropOomAt(source: ImageSource, fitted: RectF, orgWidth: int, orgHeight: int, device: Device): int -> bool
  {
    m => m >= 1 && CropSpec(source, fitted, orgWidth, orgHeight, m, device).OutOfMemory?
  }

  /**
   * The public cropBitmap: the private crop at the first sampleMulti of 1, 2,
   * 4, 8, 16 that does not run out of memory; "Failed to handle OOM by
   * sampling (32)" when all five do.
   */
  function CropBitmapSpec(source: ImageSource, fitted: RectF, orgWidth: int, orgHeight: int, device: Device): (r: Outcome<Sampled>)
    ensures !r.OutOfMemory?
  {
    match Ladder(1, SampleMultiCeiling, CropOomAt(source, fitted, orgWidth, orgHeight, device)).end
    case Exhausted(m) => Thrown(OomNotHandled(m))
    case Stopped(m) => CropSpec(source, fitted, orgWidth, orgHeight, m, device)
  }

  /**
   * The public cropBitmap gives up exactly when the crop runs out of memory
   * at sampleMulti 1, 2, 4, 8 and 16, and the exception then reports 32.
   */
  lemma CropBitmapGivesUp(source: ImageSource, fitted: RectF, orgWidth: int, orgHeight: int, device: Device)
    ensures CropBitmapSpec(source, fitted, orgWidth, orgHeight, device).Thrown? &&
            CropBitmapSpec(source, fitted, orgWidth, orgHeight, device).error.OomNotHandled?
        <==> forall m :: m in [1, 2, 4, 8, 16] ==> CropSpec(source, fitted, orgWidth, orgHeight, m, device).OutOfMemory?
    ensures CropBitmapSpec(source, fitted, orgWidth, orgHeight, device).Thrown? &&
            CropBitmapSpec(source, fitted, orgWidth, orgHeight, device).error.OomNotHandled? ==>
            CropBitmapSpec(source, fitted, orgWidth, orgHeight, device) == Thrown(OomNotHandled(32))
  {
    var oom := CropOomAt(source, fitted, orgWidth, orgHeight, device);
    CropLadderExhausted(oom);
    var run := Ladder(1, SampleMultiCeiling, oom);
    if run.end.Stopped? {
      var m := run.end.factor;
      assert !oom(m);
      FallbackNeverOomNotHandled(source, fitted, orgWidth, orgHeight, m, device);
    }
  }

  /** The private crop never throws "Failed to handle OOM by sampling". */
  lemma FallbackNeverOomNotHandled(source: ImageSource, fitted: RectF, orgWidth: int, orgHeight: int, sampleMulti: int, device: Device)
    requires sampleMulti >= 1
    ensures var r := CropSpec(source, fitted, orgWidth, orgHeight, sampleMulti, device);
      r.Thrown? ==> r.error.LoadFailed?
  {
  }

  /**
   * The factors the public cropBitmap hands to decodeRegion, over the
   * sampleMulti values it tries in order (a value below 1 is never tried).
   */
  function CropRegionCalls(source: ImageSource, fitted: RectF, orgWidth: int, orgHeight: int, multis: seq<int>): seq<int>
  {
    if multis == [] then []
    else (if multis[0] >= 1 then CropRegionAttempts(source, fitted, orgWidth, orgHeight, multis[0]) else []) +
         CropRegionCalls(source, fitted, orgWidth, orgHeight, multis[1..])
  }

  /** The factors the public cropBitmap hands to decodeStream, over the sampleMulti values it tries in order. */
  function CropDecodeCalls(source: ImageSource, fitted: RectF, orgWidth: int, orgHeight: int, multis: seq<int>): seq<int>
  {
    if multis == [] then []
    else (if multis[0] >= 1 then CropDecodeAttempts(source, fitted, orgWidth, orgHeight, multis[0]) else []) +
         CropDecodeCalls(source, fitted, orgWidth, orgHeight, multis[1..])
  }

  /** Adding a rung to the tried sampleMulti values adds its calls at the end of both logs. */
  lemma {:induction false} CropCallsSnoc(source: ImageSource, fitted: RectF, orgWidth: int, orgHeight: int, multis: seq<int>, m: int)
    requires m >= 1
    ensures CropRegionCalls(source, fitted, orgWidth, orgHeight, multis + [m]) ==
      CropRegionCalls(source, fitted, orgWidth, orgHeight, multis) + CropRegionAttempts(source, fitted, orgWidth, orgHeight, m)
    ensures CropDecodeCalls(source, fitted, orgWidth, orgHeight, multis + [m]) ==
      CropDecodeCalls(source, fitted, orgWidth, orgHeight, multis) + CropDecodeAttempts(source, fitted, orgWidth, orgHeight, m)
    decreases |multis|
  {
    if multis == [] {
      NextCropCalls(source, fitted, orgWidth, orgHeight, m, []);
    } else {
      assert (multis + [m])[0] == multis[0];
      assert (multis + [m])[1..] == multis[1..] + [m];
      CropCallsSnoc(source, fitted, orgWidth, orgHeight, multis[1..], m);
      var head := if multis[0] >= 1 then CropRegionAttempts(source, fitted, orgWidth, orgHeight, multis[0]) else [];
      var headDecode := if multis[0] >= 1 then CropDecodeAttempts(source, fitted, orgWidth, orgHeight, multis[0]) else [];
      AppendAssoc(head, CropRegionCalls(source, fitted, orgWidth, orgHeight, multis[1..]), CropRegionAttempts(source, fitted, orgWidth, orgHeight, m));
      AppendAssoc(headDecode, CropDecodeCalls(source, fitted, orgWidth, orgHeight, multis[1..]), CropDecodeAttempts(source, fitted, orgWidth, orgHeight, m));
    }
  }

  /**
   * One pass of the while loop of the public cropBitmap: the private crop at
   * sampleMulti, whose calls extend logs that already hold those of the
   * sampleMulti values tried before it.
   */
  method CropRung(resolver: Resolver, fitted: RectF, orgWidth: int, orgHeight: int, sampleMulti: int, device: Device,
                  ghost multis: seq<int>, ghost regionBase: seq<int>, ghost decodeBase: seq<int>)
    returns (attempt: Outcome<BitmapSampled>)
    requires sampleMulti >= 1
    requires resolver.regionCalls == regionBase + CropRegionCalls(resolver.source, fitted, orgWidth, orgHeight, multis)
    requires resolver.decodeCalls == decodeBase + CropDecodeCalls(resolver.source, fitted, orgWidth, orgHeight, multis)
    modifies resolver
    ensures attempt.OutOfMemory? == CropOomAt(resolver.source, fitted, orgWidth, orgHeight, device)(sampleMulti)
    ensures !attempt.OutOfMemory? ==> SampledOutcome(attempt) == CropSpec(resolver.source, fitted, orgWidth, orgHeight, sampleMulti, device)
    ensures attempt.Returned? && attempt.value.bitmap != null ==> fresh(attempt.value.bitmap)
    ensures resolver.regionCalls == regionBase + CropRegionCalls(resolver.source, fitted, orgWidth, orgHeight, multis + [sampleMulti])
    ensures resolver.decodeCalls == decodeBase + CropDecodeCalls(resolver.source, fitted, orgWidth, orgHeight, multis + [sampleMulti])
    ensures resolver.streamsOpened - old(resolver.streamsOpened) == resolver.streamsClosed - old(resolver.streamsClosed)
    ensures resolver.decoders - old(resolver.decoders) == resolver.decodersRecycled - old(resolver.decodersRecycled)
    ensures resolver.writes == old(resolver.writes)
  {
    ghost var source := resolver.source;
    attempt := CropRegionOrFull(resolver, fitted, orgWidth, orgHeight, sampleMulti, device);
    CropCallsSnoc(source, fitted, orgWidth, orgHeight, multis, sampleMulti);
    AppendAssoc(regionBase, CropRegionCalls(source, fitted, orgWidth, orgHeight, multis),
                CropRegionAttempts(source, fitted, orgWidth, orgHeight, sampleMulti));
    AppendAssoc(decodeBase, CropDecodeCalls(source, fitted, orgWidth, orgHeight, multis),
                CropDecodeAttempts(source, fitted, orgWidth, orgHeight, sampleMulti));
  }

  /**
   * The while loop of the public cropBitmap: the private crop at sampleMulti
   * 1, 2, 4, ... until one does not run out of memory or sampleMulti passes
   * 16. Gives the ladder's end and the last attempt.
   */
  method CropLadder(resolver: Resolver, fitted: RectF, orgWidth: int, orgHeight: int, device: Device)
    returns (end: LadderEnd, attempt: Outcome<BitmapSampled>)
    modifies resolver
    ensures end == Ladder(1, SampleMultiCeiling, CropOomAt(resolver.source, fitted, orgWidth, orgHeight, device)).end
    ensures end.Stopped? ==> end.factor >= 1
    ensures end.Stopped? ==> SampledOutcome(attempt) == CropSpec(resolver.source, fitted, orgWidth, orgHeight, end.factor, device)
    ensures attempt.Returned? && attempt.value.bitmap != null ==> fresh(attempt.value.bitmap)
    ensures var multis := Ladder(1, SampleMultiCeiling, CropOomAt(resolver.source, fitted, orgWidth, orgHeight, device)).tried;
      resolver.regionCalls == old(resolver.regionCalls) + CropRegionCalls(resolver.source, fitted, orgWidth, orgHeight, multis) &&
      resolver.decodeCalls == old(resolver.decodeCalls) + CropDecodeCalls(resolver.source, fitted, orgWidth, orgHeight, multis)
    ensures resolver.streamsOpened - old(resolver.streamsOpened) == resolver.streamsClosed - old(resolver.streamsClosed)
    ensures resolver.decoders - old(resolver.decoders) == resolver.decodersRecycled - old(resolver.decodersRecycled)
    ensures resolver.writes == old(resolver.writes)
  {
    var sampleMulti := 1;
    ghost var source := resolver.source;
    ghost var oom := CropOomAt(source, fitted, orgWidth, orgHeight, device);
    ghost var multis: seq<int> := [];
    while true
      invariant sampleMulti >= 1
      invariant Climbed(1, sampleMulti, SampleMultiCeiling, oom, multis)
      invariant resolver.regionCalls == old(resolver.regionCalls) + CropRegionCalls(source, fitted, orgWidth, orgHeight, multis)
      invariant resolver.decodeCalls == old(resolver.decodeCalls) + CropDecodeCalls(source, fitted, orgWidth, orgHeight, multis)
      invariant resolver.streamsOpened - old(resolver.streamsOpened) == resolver.streamsClosed - old(resolver.streamsClosed)
      invariant resolver.decoders - old(resolver.decoders) == resolver.decodersRecycled - old(resolver.decodersRecycled)
      invariant resolver.writes == old(resolver.writes)
      decreases if sampleMulti <= SampleMultiCeiling then SampleMultiCeiling + 1 - sampleMulti else 0
    {
      attempt := CropRung(resolver, fitted, orgWidth, orgHeight, sampleMulti, device,
                         multis, old(resolver.regionCalls), old(resolver.decodeCalls));
      assert oom(sampleMulti) == attempt.OutOfMemory?;
      if !attempt.OutOfMemory? || 2 * sampleMulti > SampleMultiCeiling {
        end := if attempt.OutOfMemory? then Exhausted(2 * sampleMulti) else Stopped(sampleMulti);
        ClimbedLadder(1, sampleMulti, SampleMultiCeiling, oom, multis);
        assert Ladder(sampleMulti, SampleMultiCeiling, oom) == LadderRun([sampleMulti], end);
        return;
      }
      ClimbedStep(1, sampleMulti, SampleMultiCeiling, oom, multis);
      multis := multis + [sampleMulti];
      sampleMulti := 2 * sampleMulti;
    }
  }

  method CropBitmap(resolver: Resolver, fitted: RectF, orgWidth: int, orgHeight: int, device: Device)
    returns (r: Outcome<BitmapSampled>)
    modifies resolver
    ensures SampledOutcome(r) == CropBitmapSpec(resolver.source, fitted, orgWidth, orgHeight, device)
    ensures r.Returned? && r.value.bitmap != null ==> fresh(r.value.bitmap)
    ensures var multis := Ladder(1, SampleMultiCeiling, CropOomAt(resolver.source, fitted, orgWidth, orgHeight, device)).tried;
      resolver.regionCalls == old(resolver.regionCalls) + CropRegionCalls(resolver.source, fitted, orgWidth, orgHeight, multis) &&
      resolver.decodeCalls == old(resolver.decodeCalls) + CropDecodeCalls(resolver.source, fitted, orgWidth, orgHeight, multis)
    ensures resolver.streamsOpened - old(resolver.streamsOpened) == resolver.streamsClosed - old(resolver.streamsClosed)
    ensures resolver.decoders - old(resolver.decoders) == resolver.decodersRecycled - old(resolver.decodersRecycled)
    ensures resolver.writes == old(resolver.writes)
  {
    var end, attempt := CropLadder(resolver, fitted, orgWidth, orgHeight, device);
    match end {
      case Exhausted(m) =>
        r := Thrown(OomNotHandled(m));
      case Stopped(_) =>
        r := attempt;
    }
  }

  lemma NextCropCalls(source: ImageSource, fitted: RectF, orgWidth: int, orgHeight: int, m: int, rest: seq<int>)
    requires m >= 1
    ensures CropRegionCalls(source, fitted, orgWidth, orgHeight, [m] + rest) ==
      CropRegionAttempts(source, fitted, orgWidth, orgHeight, m) + CropRegionCalls(source, fitted, orgWidth, orgHeight, rest)
    ensures CropDecodeCalls(source, fitted, orgWidth, orgHeight, [m] + rest) ==
      CropDecodeAttempts(source, fitted, orgWidth, orgHeight, m) + CropDecodeCalls(source, fitted, orgWidth, orgHeight, rest)
  {
    assert ([m] + rest)[1..] == rest;
  }
}
