/**
 * The decode path of BitmapUtil: decodeImageForOption (bounds only),
 * decodeImage (the whole image, doubling inSampleSize on out-of-memory up to
 * 512), decodeSampledBitmap (chooses the factor from the requested size and
 * the texture limit) and decodeSampledBitmapRegion (one rectangle, same
 * ladder, `(null, 1)` when it gives up).
 */
module Decoding {
  import opened JavaLang
  import opened Geometry
  import opened SampleSize
  import opened RetryLadder
  import opened Platform

  /** The largest inSampleSize the decode ladders try. */
  const DecodeCeiling := 512

  function DecodeOomAt(source: ImageSource): int -> bool
  {
    s => source.decodeAt(s).DecodeOom?
  }

  /**
   * The factor decodeImage starts from. BitmapFactory.Options starts with
   * inSampleSize 0, and doubling 0 never leaves 0; this model takes any
   * factor below 1 as 1, which is also how the decoder itself treats it.
   */
  function StartFactor(inSampleSize: int): (s: int)
    ensures s >= 1
    ensures inSampleSize >= 1 ==> s == inSampleSize
  {
    if inSampleSize < 1 then 1 else inSampleSize
  }

  /** How decodeImage ends, and the inSampleSize it leaves in the options. */
  datatype DecodeEnd = DecodeEnd(result: Outcome<Option<Image>>, sampleSize: int)

  /**
   * decodeImage: the first factor of the ladder that does not run out of
   * memory decides the result; if every factor up to 512 runs out of memory
   * it throws "Failed to decode image". An unreadable uri throws before any
   * attempt. It never lets an OutOfMemoryError through.
   */
  function DecodeImageSpec(source: ImageSource, inSampleSize: int): (d: DecodeEnd)
    ensures !d.result.OutOfMemory?
  {
    var start := StartFactor(inSampleSize);
    if !source.readable then DecodeEnd(Thrown(FileNotFound), start)
    else
      match Ladder(start, DecodeCeiling, DecodeOomAt(source)).end
      case Exhausted(f) => DecodeEnd(Thrown(DecodeFailed), f)
      case Stopped(f) => DecodeEnd(DecodeOutcome(source.decodeAt(f), FullDecode(f)), f)
  }

  /** The factors decodeImage hands to decodeStream, in order. */
  function DecodeAttempts(source: ImageSource, inSampleSize: int): seq<int>
  {
    if source.readable then Ladder(StartFactor(inSampleSize), DecodeCeiling, DecodeOomAt(source)).tried else []
  }

  /**
   * What decodeImage reports: the factor it ends on is never below where it
   * started, stays a power of two when it started on one, is the factor the
   * bitmap was decoded at, and passes both the start and 512 exactly when it gave up.
   */
  lemma DecodeImageFactor(source: ImageSource, inSampleSize: int)
    requires source.readable
    ensures var d := DecodeImageSpec(source, inSampleSize);
      d.sampleSize >= StartFactor(inSampleSize) &&
      (IsPow2(StartFactor(inSampleSize)) ==> IsPow2(d.sampleSize)) &&
      (d.result.Returned? && d.result.value.Some? ==> d.result.value.value.pixels == FullDecode(d.sampleSize)) &&
      (d.result == Thrown(DecodeFailed) <==> d.sampleSize > Max(StartFactor(inSampleSize), DecodeCeiling))
  {
    var start := StartFactor(inSampleSize);
    var run := Ladder(start, DecodeCeiling, DecodeOomAt(source));
    LadderBounded(start, DecodeCeiling, DecodeOomAt(source));
    if IsPow2(start) {
      LadderPow2(start, DecodeCeiling, DecodeOomAt(source));
    }
    if run.end.Stopped? && |run.tried| == 1 {
      assert Last(run.tried) == run.tried[0];
    }
  }

  /** At least one decode attempt happens whenever the uri can be read (the loop is a do-while). */
  lemma DecodeImageAttemptsOnce(source: ImageSource, inSampleSize: int)
    ensures source.readable <==> |DecodeAttempts(source, inSampleSize)| >= 1
    ensures source.readable ==> DecodeAttempts(source, inSampleSize)[0] == StartFactor(inSampleSize)
  {
  }

  /**
   * decodeImageForOption: opens and closes one stream and returns fresh
   * options holding the bounds, with inSampleSize left at its default 0.
   */
  method DecodeImageForOption(resolver: Resolver) returns (r: Outcome<DecodeOptions>)
    modifies resolver
    ensures r.Returned? <==> resolver.source.readable
    ensures !resolver.source.readable ==> r == Thrown(FileNotFound)
    ensures r.Returned? ==> fresh(r.value) && r.value.inSampleSize == 0
    ensures r.Returned? ==> r.value.outWidth == resolver.source.outWidth && r.value.outHeight == resolver.source.outHeight
    ensures resolver.streamsOpened == old(resolver.streamsOpened) + (if r.Returned? then 1 else 0)
    ensures resolver.streamsClosed == old(resolver.streamsClosed) + (if r.Returned? then 1 else 0)
    ensures resolver.decodeCalls == old(resolver.decodeCalls) && resolver.regionCalls == old(resolver.regionCalls)
    ensures resolver.decoders == old(resolver.decoders) && resolver.decodersRecycled == old(resolver.decodersRecycled)
    ensures resolver.writes == old(resolver.writes)
  {
    if !resolver.source.readable {
      return Thrown(FileNotFound);
    }
    resolver.streamsOpened := resolver.streamsOpened + 1;
    var options := new DecodeOptions();
    options.outWidth, options.outHeight := resolver.source.outWidth, resolver.source.outHeight;
    resolver.streamsClosed := resolver.streamsClosed + 1;
    return Returned(options);
  }

  /** One attempt of decodeImage: open a stream, decodeStream at factor s, close the stream. */
  method DecodeStream(resolver: Resolver, s: int) returns (d: DecodeResult)
    requires resolver.source.readable
    modifies resolver
    ensures d == resolver.source.decodeAt(s)
    ensures resolver.decodeCalls == old(resolver.decodeCalls) + [s]
    ensures resolver.streamsOpened == old(resolver.streamsOpened) + 1 && resolver.streamsClosed == old(resolver.streamsClosed) + 1
    ensures resolver.regionCalls == old(resolver.regionCalls) && resolver.writes == old(resolver.writes)
    ensures resolver.decoders == old(resolver.decoders) && resolver.decodersRecycled == old(resolver.decodersRecycled)
  {
    resolver.streamsOpened := resolver.streamsOpened + 1;
    d := resolver.source.decodeAt(s);
    resolver.decodeCalls := resolver.decodeCalls + [s];
    resolver.streamsClosed := resolver.streamsClosed + 1;
  }

  /**
   * The do-while loop of decodeImage: decodeStream at options.inSampleSize,
   * each attempt on a stream of its own that is closed again, doubling the
   * factor in the options after each out-of-memory until it passes 512.
   * Gives the ladder's end and the last decode result.
   */
  method DecodeLadder(resolver: Resolver, options: DecodeOptions) returns (end: LadderEnd, d: DecodeResult)
    requires options.inSampleSize >= 1 && resolver.source.readable
    modifies resolver, options
    ensures end == Ladder(old(options.inSampleSize), DecodeCeiling, DecodeOomAt(resolver.source)).end
    ensures end.Stopped? ==> d == resolver.source.decodeAt(end.factor)
    ensures options.inSampleSize == end.factor
    ensures options.outWidth == old(options.outWidth) && options.outHeight == old(options.outHeight)
    ensures resolver.decodeCalls == old(resolver.decodeCalls) + Ladder(old(options.inSampleSize), DecodeCeiling, DecodeOomAt(resolver.source)).tried
    ensures resolver.streamsOpened - old(resolver.streamsOpened) == |resolver.decodeCalls| - |old(resolver.decodeCalls)|
    ensures resolver.streamsClosed - old(resolver.streamsClosed) == |resolver.decodeCalls| - |old(resolver.decodeCalls)|
    ensures resolver.regionCalls == old(resolver.regionCalls) && resolver.writes == old(resolver.writes)
    ensures resolver.decoders == old(resolver.decoders) && resolver.decodersRecycled == old(resolver.decodersRecycled)
  {
    ghost var start := options.inSampleSize;
    ghost var oom := DecodeOomAt(resolver.source);
    ghost var calls0 := resolver.decodeCalls;
    while true
      invariant options.inSampleSize >= 1
      invariant Ladder(options.inSampleSize, DecodeCeiling, oom).end == Ladder(start, DecodeCeiling, oom).end
      invariant calls0 + Ladder(start, DecodeCeiling, oom).tried == resolver.decodeCalls + Ladder(options.inSampleSize, DecodeCeiling, oom).tried
      invariant resolver.streamsOpened - old(resolver.streamsOpened) == |resolver.decodeCalls| - |calls0|
      invariant resolver.streamsClosed - old(resolver.streamsClosed) == |resolver.decodeCalls| - |calls0|
      invariant options.outWidth == old(options.outWidth) && options.outHeight == old(options.outHeight)
      invariant resolver.regionCalls == old(resolver.regionCalls) && resolver.writes == old(resolver.writes)
      invariant resolver.decoders == old(resolver.decoders) && resolver.decodersRecycled == old(resolver.decodersRecycled)
      decreases if options.inSampleSize <= DecodeCeiling then DecodeCeiling + 1 - options.inSampleSize else 0
    {
      var s := options.inSampleSize;
      ghost var before := resolver.decodeCalls;
      d := DecodeStream(resolver, s);
      assert oom(s) == d.DecodeOom?;
      if !d.DecodeOom? {
        assert Ladder(s, DecodeCeiling, oom) == LadderRun([s], Stopped(s));
        return Stopped(s), d;
      }
      options.inSampleSize := s * 2;
      if options.inSampleSize > DecodeCeiling {
        assert Ladder(s, DecodeCeiling, oom) == LadderRun([s], Exhausted(2 * s));
        return Exhausted(2 * s), d;
      }
      LadderStep(s, DecodeCeiling, oom);
      AppendAssoc(before, [s], Ladder(2 * s, DecodeCeiling, oom).tried);
    }
  }

  /**
   * decodeImage: the factor is clamped to at least 1, then the decode
   * ladder runs; its end decides the result.
   */
  method DecodeImage(resolver: Resolver, options: DecodeOptions) returns (r: Outcome<Bitmap?>)
    modifies resolver, options
    ensures var spec := DecodeImageSpec(resolver.source, old(options.inSampleSize));
      ImageOutcome(r) == spec.result && options.inSampleSize == spec.sampleSize
    ensures r.Returned? && r.value != null ==> fresh(r.value) && !r.value.mutable
    ensures options.outWidth == old(options.outWidth) && options.outHeight == old(options.outHeight)
    ensures resolver.decodeCalls == old(resolver.decodeCalls) + DecodeAttempts(resolver.source, old(options.inSampleSize))
    ensures resolver.streamsOpened - old(resolver.streamsOpened) == |DecodeAttempts(resolver.source, old(options.inSampleSize))|
    ensures resolver.streamsClosed - old(resolver.streamsClosed) == |DecodeAttempts(resolver.source, old(options.inSampleSize))|
    ensures resolver.regionCalls == old(resolver.regionCalls) && resolver.writes == old(resolver.writes)
    ensures resolver.decoders == old(resolver.decoders) && resolver.decodersRecycled == old(resolver.decodersRecycled)
  {
    if options.inSampleSize < 1 {
      options.inSampleSize := 1;
    }
    // openInputStream is the first thing each attempt does; the uri's
    // readability does not change between attempts, so only the first can fail.
    if !resolver.source.readable {
      return Thrown(FileNotFound);
    }
    var end, d := DecodeLadder(resolver, options);
    match end {
      case Exhausted(_) =>
        r := Thrown(DecodeFailed);
      case Stopped(f) =>
        if d.DecodeRaises? {
          r := Thrown(DecoderError);
        } else if d.DecodeNull? {
          r := Returned(null);
        } else if d.DecodeOom? {
          r := OutOfMemory;
        } else {
          var bitmap := new Bitmap(Image(d.width, d.height, FullDecode(f)), false);
          r := Returned(bitmap);
        }
    }
  }

  // ---------------------------------------------------------------------
  // decodeSampledBitmap

  /**
   * decodeSampledBitmap, for the texture limit in force: bounds first ("File
   * is not a picture" when both are -1), then decodeImage from the larger of
   * the requested-size and texture factors, reporting the factor decodeImage
   * ended on. Every exception comes back wrapped as "Failed to load sampled
   * bitmap".
   */
  function DecodeSampledSpec(source: ImageSource, reqWidth: int, reqHeight: int, maxTextureSize: int): (r: Outcome<Sampled>)
    requires reqWidth >= 0 || reqHeight >= 0
    ensures !r.OutOfMemory?
    ensures r.Thrown? ==> r.error.LoadFailed?
  {
    if !source.readable then Thrown(LoadFailed(FileNotFound))
    else if source.outWidth == -1 && source.outHeight == -1 then Thrown(LoadFailed(NotAPicture))
    else
      var s := Max(RequestedSampleSize(source.outWidth, source.outHeight, reqWidth, reqHeight),
                   TextureSampleSize(source.outWidth, source.outHeight, maxTextureSize));
      var d := DecodeImageSpec(source, s);
      match d.result
      case Returned(image) => Returned(Sampled(image, d.sampleSize))
      case Thrown(e) => Thrown(LoadFailed(e))
      case OutOfMemory => OutOfMemory
  }

  /**
   * A bitmap from decodeSampledBitmap was decoded at the reported factor,
   * which is a power of two, at least the requested-size factor, and brings
   * both dimensions within the texture limit.
   */
  lemma DecodeSampledFits(source: ImageSource, reqWidth: int, reqHeight: int, maxTextureSize: int)
    requires reqWidth >= 0 && reqHeight >= 0 && maxTextureSize > 0
    ensures var r := DecodeSampledSpec(source, reqWidth, reqHeight, maxTextureSize);
      r.Returned? && r.value.image.Some? ==>
        var s := r.value.sampleSize;
        r.value.image.value.pixels == FullDecode(s) && IsPow2(s) &&
        s >= RequestedSampleSize(source.outWidth, source.outHeight, reqWidth, reqHeight) &&
        !ExceedsTexture(source.outWidth, source.outHeight, maxTextureSize, s)
  {
    var r := DecodeSampledSpec(source, reqWidth, reqHeight, maxTextureSize);
    if r.Returned? && r.value.image.Some? {
      var w, h := source.outWidth, source.outHeight;
      var t := TextureSampleSize(w, h, maxTextureSize);
      var s0 := Max(RequestedSampleSize(w, h, reqWidth, reqHeight), t);
      CombinedSampleSize(w, h, reqWidth, reqHeight, maxTextureSize);
      DecodeImageFactor(source, s0);
      FitsTextureAbove(w, h, maxTextureSize, s0, r.value.sampleSize);
    }
  }

  /** "File is not a picture" is thrown exactly for a readable uri whose bounds are both -1. */
  lemma NotAPictureExactly(source: ImageSource, reqWidth: int, reqHeight: int, maxTextureSize: int)
    requires reqWidth >= 0 || reqHeight >= 0
    ensures DecodeSampledSpec(source, reqWidth, reqHeight, maxTextureSize) == Thrown(LoadFailed(NotAPicture)) <==>
      source.readable && source.outWidth == -1 && source.outHeight == -1
  {
    if source.readable && !(source.outWidth == -1 && source.outHeight == -1) {
      var s := Max(RequestedSampleSize(source.outWidth, source.outHeight, reqWidth, reqHeight),
                   TextureSampleSize(source.outWidth, source.outHeight, maxTextureSize));
      var d := DecodeImageSpec(source, s);
      assert d.result != Thrown(NotAPicture);
    }
  }

  /** Whether decodeSampledBitmap gets past the bounds check (and so consults the texture limit). */
  predicate PastBounds(source: ImageSource)
  {
    source.readable && !(source.outWidth == -1 && source.outHeight == -1)
  }

  /** The factors decodeSampledBitmap hands to decodeStream, in order: none before the bounds check passes. */
  function SampledAttempts(source: ImageSource, reqWidth: int, reqHeight: int, maxTextureSize: int): seq<int>
    requires reqWidth >= 0 || reqHeight >= 0
  {
    if PastBounds(source) then
      DecodeAttempts(source, Max(RequestedSampleSize(source.outWidth, source.outHeight, reqWidth, reqHeight),
                                 TextureSampleSize(source.outWidth, source.outHeight, maxTextureSize)))
    else []
  }

  method DecodeSampledBitmap(resolver: Resolver, cache: TextureSizeCache, egl: Option<seq<int>>, reqWidth: int, reqHeight: int)
    returns (r: Outcome<BitmapSampled>)
    requires reqWidth >= 0 || reqHeight >= 0
    requires cache.Valid()
    modifies resolver, cache
    ensures cache.Valid()
    ensures cache.maxTextureSize ==
      if PastBounds(resolver.source) && old(cache.maxTextureSize) == 0 then MaxTextureSize(egl) else old(cache.maxTextureSize)
    ensures SampledOutcome(r) == DecodeSampledSpec(resolver.source, reqWidth, reqHeight, cache.maxTextureSize)
    ensures r.Returned? && r.value.bitmap != null ==> fresh(r.value.bitmap)
    ensures resolver.decodeCalls == old(resolver.decodeCalls) + SampledAttempts(resolver.source, reqWidth, reqHeight, cache.maxTextureSize)
    ensures resolver.streamsOpened - old(resolver.streamsOpened) ==
      (if resolver.source.readable then 1 else 0) + |SampledAttempts(resolver.source, reqWidth, reqHeight, cache.maxTextureSize)|
    ensures resolver.streamsOpened - old(resolver.streamsOpened) == resolver.streamsClosed - old(resolver.streamsClosed)
    ensures resolver.regionCalls == old(resolver.regionCalls) && resolver.writes == old(resolver.writes)
    ensures resolver.decoders == old(resolver.decoders) && resolver.decodersRecycled == old(resolver.decodersRecycled)
  {
    var bounds := DecodeImageForOption(resolver);
    if bounds.Thrown? {
      return Thrown(LoadFailed(bounds.error));
    }
    var options := bounds.value;
    if options.outWidth == -1 && options.outHeight == -1 {
      return Thrown(LoadFailed(NotAPicture));
    }
    var requested := CalculateInSampleSizeByRequestedSize(options.outWidth, options.outHeight, reqWidth, reqHeight);
    var texture := cache.CalculateInSampleSizeByMaxTextureSize(options.outWidth, options.outHeight, egl);
    options.inSampleSize := Max(requested, texture);
    var bitmap := DecodeImage(resolver, options);
    match bitmap
    case Returned(b) => r := Returned(BitmapSampled(b, options.inSampleSize));
    case Thrown(e) => r := Thrown(LoadFailed(e));
    case OutOfMemory => r := OutOfMemory;
  }

  // ---------------------------------------------------------------------
  // decodeSampledBitmapRegion

  function RegionOomAt(source: ImageSource, region: Rect): int -> bool
  {
    s => source.regionAt(region, s).DecodeOom?
  }

  /**
   * sampleMulti times the requested-size factor: where decodeSampledBitmapRegion
   * starts its ladder, and the factor the full-decode crop fallback decodes at.
   */
  function RegionStart(region: Rect, reqWidth: int, reqHeight: int, sampleMulti: int): (s: int)
    requires sampleMulti >= 1
    requires (region.Height() <= reqHeight && region.Width() <= reqWidth) || reqWidth >= 0 || reqHeight >= 0
    ensures s >= sampleMulti
  {
    var requested := RequestedSampleSize(region.Width(), region.Height(), reqWidth, reqHeight);
    MulAtLeast(sampleMulti, requested);
    sampleMulti * requested
  }

  /**
   * decodeSampledBitmapRegion: the region ladder from RegionStart; `(null, 1)`
   * when every factor up to 512 runs out of memory; every exception wrapped
   * as "Failed to load sampled bitmap"; never an OutOfMemoryError.
   */
  function RegionSpec(source: ImageSource, region: Rect, reqWidth: int, reqHeight: int, sampleMulti: int): (r: Outcome<Sampled>)
    requires sampleMulti >= 1
    requires (region.Height() <= reqHeight && region.Width() <= reqWidth) || reqWidth >= 0 || reqHeight >= 0
    ensures !r.OutOfMemory?
    ensures r.Thrown? ==> r.error.LoadFailed?
  {
    if !source.readable then Thrown(LoadFailed(FileNotFound))
    else if !source.regionCapable then Thrown(LoadFailed(RegionUnsupported))
    else
      match Ladder(RegionStart(region, reqWidth, reqHeight, sampleMulti), DecodeCeiling, RegionOomAt(source, region)).end
      case Exhausted(_) => Returned(Sampled(None, 1))
      case Stopped(f) =>
        match DecodeOutcome(source.regionAt(region, f), RegionDecode(region, f))
        case Returned(image) => Returned(Sampled(image, f))
        case Thrown(e) => Thrown(LoadFailed(e))
        case OutOfMemory => OutOfMemory
  }

  /** The factors decodeSampledBitmapRegion hands to decodeRegion, in order. */
  function RegionAttempts(source: ImageSource, region: Rect, reqWidth: int, reqHeight: int, sampleMulti: int): seq<int>
    requires sampleMulti >= 1
    requires (region.Height() <= reqHeight && region.Width() <= reqWidth) || reqWidth >= 0 || reqHeight >= 0
  {
    if source.readable && source.regionCapable then
      Ladder(RegionStart(region, reqWidth, reqHeight, sampleMulti), DecodeCeiling, RegionOomAt(source, region)).tried
    else []
  }

  /**
   * A region result without a bitmap means either that the ladder gave up
   * (and then the sample size is 1) or that decodeRegion returned null at the
   * reported factor; a bitmap comes from decodeRegion of that rectangle at
   * the reported factor.
   */
  lemma RegionResultMeaning(source: ImageSource, region: Rect, reqWidth: int, reqHeight: int, sampleMulti: int)
    requires sampleMulti >= 1
    requires (region.Height() <= reqHeight && region.Width() <= reqWidth) || reqWidth >= 0 || reqHeight >= 0
    ensures var r := RegionSpec(source, region, reqWidth, reqHeight, sampleMulti);
      r.Returned? ==>
        (r.value.image.None? <==>
          (r.value.sampleSize == 1 && (forall s :: s in RegionAttempts(source, region, reqWidth, reqHeight, sampleMulti) ==> source.regionAt(region, s).DecodeOom?))
          || source.regionAt(region, r.value.sampleSize).DecodeNull?) &&
        (r.value.image.Some? ==> r.value.image.value.pixels == RegionDecode(region, r.value.sampleSize))
  {
    var r := RegionSpec(source, region, reqWidth, reqHeight, sampleMulti);
    if r.Returned? {
      var start := RegionStart(region, reqWidth, reqHeight, sampleMulti);
      var run := Ladder(start, DecodeCeiling, RegionOomAt(source, region));
      assert Last(run.tried) == run.tried[|run.tried| - 1];
      if run.end.Stopped? {
        assert !source.regionAt(region, Last(run.tried)).DecodeOom?;
      }
    }
  }

  /**
   * The do-while loop of decodeSampledBitmapRegion: decodeRegion at start,
   * 2 start, ... until one does not run out of memory or the factor passes
   * 512. Gives the ladder's end and the last decodeRegion result.
   */
  method RegionLadder(resolver: Resolver, region: Rect, start: int) returns (end: LadderEnd, d: DecodeResult)
    requires start >= 1
    modifies resolver
    ensures end == Ladder(start, DecodeCeiling, RegionOomAt(resolver.source, region)).end
    ensures end.Stopped? ==> d == resolver.source.regionAt(region, end.factor)
    ensures resolver.regionCalls == old(resolver.regionCalls) + Ladder(start, DecodeCeiling, RegionOomAt(resolver.source, region)).tried
    ensures resolver.streamsOpened == old(resolver.streamsOpened) && resolver.streamsClosed == old(resolver.streamsClosed)
    ensures resolver.decoders == old(resolver.decoders) && resolver.decodersRecycled == old(resolver.decodersRecycled)
    ensures resolver.decodeCalls == old(resolver.decodeCalls) && resolver.writes == old(resolver.writes)
  {
    var inSampleSize := start;
    ghost var oom := RegionOomAt(resolver.source, region);
    ghost var calls0 := resolver.regionCalls;
    while true
      invariant inSampleSize >= 1
      invariant Ladder(inSampleSize, DecodeCeiling, oom).end == Ladder(start, DecodeCeiling, oom).end
      invariant calls0 + Ladder(start, DecodeCeiling, oom).tried == resolver.regionCalls + Ladder(inSampleSize, DecodeCeiling, oom).tried
      invariant resolver.streamsOpened == old(resolver.streamsOpened) && resolver.streamsClosed == old(resolver.streamsClosed)
      invariant resolver.decoders == old(resolver.decoders) && resolver.decodersRecycled == old(resolver.decodersRecycled)
      invariant resolver.decodeCalls == old(resolver.decodeCalls) && resolver.writes == old(resolver.writes)
      decreases if inSampleSize <= DecodeCeiling then DecodeCeiling + 1 - inSampleSize else 0
    {
      var s := inSampleSize;
      ghost var before := resolver.regionCalls;
      d := resolver.source.regionAt(region, s);
      resolver.regionCalls := resolver.regionCalls + [s];
      assert oom(s) == d.DecodeOom?;
      if !d.DecodeOom? {
        assert Ladder(s, DecodeCeiling, oom) == LadderRun([s], Stopped(s));
        return Stopped(s), d;
      }
      inSampleSize := s * 2;
      if inSampleSize > DecodeCeiling {
        assert Ladder(s, DecodeCeiling, oom) == LadderRun([s], Exhausted(2 * s));
        return Exhausted(inSampleSize), d;
      }
      LadderStep(s, DecodeCeiling, oom);
      AppendAssoc(before, [s], Ladder(2 * s, DecodeCeiling, oom).tried);
    }
  }

  method DecodeSampledBitmapRegion(resolver: Resolver, region: Rect, reqWidth: int, reqHeight: int, sampleMulti: int)
    returns (r: Outcome<BitmapSampled>)
    requires sampleMulti >= 1
    requires (region.Height() <= reqHeight && region.Width() <= reqWidth) || reqWidth >= 0 || reqHeight >= 0
    modifies resolver
    ensures SampledOutcome(r) == RegionSpec(resolver.source, region, reqWidth, reqHeight, sampleMulti)
    ensures r.Returned? && r.value.bitmap != null ==> fresh(r.value.bitmap) && !r.value.bitmap.mutable
    ensures resolver.regionCalls == old(resolver.regionCalls) + RegionAttempts(resolver.source, region, reqWidth, reqHeight, sampleMulti)
    ensures resolver.streamsOpened - old(resolver.streamsOpened) == resolver.streamsClosed - old(resolver.streamsClosed)
    ensures resolver.decoders - old(resolver.decoders) == resolver.decodersRecycled - old(resolver.decodersRecycled)
    ensures resolver.decodeCalls == old(resolver.decodeCalls) && resolver.writes == old(resolver.writes)
  {
    var requested := CalculateInSampleSizeByRequestedSize(region.Width(), region.Height(), reqWidth, reqHeight);
    MulAtLeast(sampleMulti, requested);
    var inSampleSize := sampleMulti * requested;
    if !resolver.source.readable {
      return Thrown(LoadFailed(FileNotFound));
    }
    resolver.streamsOpened := resolver.streamsOpened + 1;
    if !resolver.source.regionCapable {
      resolver.streamsClosed := resolver.streamsClosed + 1;
      return Thrown(LoadFailed(RegionUnsupported));
    }
    resolver.decoders := resolver.decoders + 1;
    var end, d := RegionLadder(resolver, region, inSampleSize);
    match end {
      case Exhausted(_) =>
        r := Returned(BitmapSampled(null, 1));
      case Stopped(f) =>
        if d.DecodeRaises? {
          r := Thrown(LoadFailed(DecoderError));
        } else if d.DecodeNull? {
          r := Returned(BitmapSampled(null, f));
        } else {
          var bitmap := new Bitmap(Image(d.width, d.height, RegionDecode(region, f)), false);
          r := Returned(BitmapSampled(bitmap, f));
        }
    }
    // the finally block
    resolver.streamsClosed := resolver.streamsClosed + 1;
    resolver.decodersRecycled := resolver.decodersRecycled + 1;
  }
}
