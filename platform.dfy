/**
 * The Android platform as the core sees it: bitmaps whose pixels are an
 * abstract record of how they were produced, decoders and the device as
 * oracles, the exceptions the core raises or lets through, and the two
 * mutable objects the decode path shares with its callers
 * (`BitmapFactory.Options` and the content resolver's stream bookkeeping).
 */
module Platform {
  import opened JavaLang
  import opened Geometry

  /** What is drawn over a base image, and where. */
  datatype Overlay =
    | ImageOverlay(pixels: Pixels)
    | TextOverlay(text: string, textSize: int, color: int)

  datatype Placement = Placement(overlay: Overlay, x: int, y: int)

  /** Abstract pixel buffers: a record of the operation that produced them. */
  datatype Pixels =
    | FullDecode(sampleSize: int)                   // BitmapFactory.decodeStream at inSampleSize
    | RegionDecode(region: Rect, sampleSize: int)   // BitmapRegionDecoder.decodeRegion
    | Crop(source: Pixels, region: Rect, divisor: int)  // createBitmap(source, region, scale 1/divisor)
    | ScaledTo(source: Pixels, width: int, height: int) // createBitmap(source, whole, matrix)
    | Canvas(base: Pixels, overlay: Option<Placement>)  // base drawn at (0, 0), then the overlay

  datatype Image = Image(width: int, height: int, pixels: Pixels)

  /**
   * android.graphics.Bitmap. Its pixels never change once made; `recycle`
   * releases them. Decoded bitmaps and `copy(config, false)` are immutable;
   * `createBitmap(width, height, config)` and the new bitmap the
   * seven-argument `createBitmap(source, x, y, w, h, matrix, filter)` makes
   * are mutable (that call gives back the source itself when it selects all
   * of an immutable source unscaled).
   */
  class Bitmap {
    const image: Image
    const mutable: bool
    var recycled: bool

    constructor (image: Image, mutable: bool)
      ensures this.image == image && this.mutable == mutable && !recycled
    {
      this.image := image;
      this.mutable := mutable;
      recycled := false;
    }

    method Recycle()
      modifies this
      ensures recycled
    {
      recycled := true;
    }
  }

  function ImageOf(b: Bitmap?): Option<Image>
  {
    if b == null then None else Some(b.image)
  }

  /** What one decode call does: run out of memory, throw, give `null`, or give a bitmap of some size. */
  datatype DecodeResult = DecodeOom | DecodeRaises | DecodeNull | Decoded(width: int, height: int)

  /** The EXIF block of an image: the DateTime tag (if present) and the orientation tag. */
  datatype Exif = Exif(dateTime: Option<string>, orientation: int)

  /**
   * What the content resolver knows about one uri. Each decode outcome
   * depends only on the sample size (and the region), so every retry at the
   * same factor behaves the same.
   */
  datatype ImageSource = ImageSource(
    readable: bool,                          // openInputStream succeeds
    outWidth: int, outHeight: int,           // bounds decode; -1 and -1 when not a picture
    decodeAt: int -> DecodeResult,           // decodeStream at an inSampleSize
    regionCapable: bool,                     // BitmapRegionDecoder.newInstance succeeds
    regionAt: (Rect, int) -> DecodeResult,   // decodeRegion of a rectangle at an inSampleSize
    exif: Option<Exif>,                      // None: the ExifInterface cannot read the stream
    mediaRow: bool                           // the MediaStore query yields a first row
  )

  /**
   * The device: its EGL configurations (None when querying EGL throws),
   * whether allocating a width x height bitmap runs out of memory, how a
   * text measures at a text size, where external downloads go (None when
   * unavailable), which output paths can be opened for writing (a name
   * holding a '/' names a directory that need not exist), and two operations
   * whose code is not part of this model: BitmapUtil.rotate and the
   * seven-argument addWatermarkToBitmap.
   */
  datatype Device = Device(
    egl: Option<seq<int>>,
    allocationFails: (int, int) -> bool,
    textBounds: (string, int) -> (int, int),
    downloadsDir: Option<string>,
    outputWritable: string -> bool,
    rotate: (Image, int) -> Image,
    stamp: (Image, string, real, string, int, int, int) -> Image
  )

  /** The exceptions the core throws or lets through. */
  datatype Exception =
    | FileNotFound                  // the resolver cannot open a stream on the uri
    | NotAPicture                   // "File is not a picture"
    | DecodeFailed                  // "Failed to decode image: " + uri
    | RegionUnsupported             // BitmapRegionDecoder.newInstance throws
    | DecoderError                  // a decode call throws (e.g. a region outside the image)
    | IllegalArgument               // Bitmap.createBitmap refuses its arguments
    | LoadFailed(cause: Exception)  // "Failed to load sampled bitmap: " + uri + ...
    | OomNotHandled(sampling: int)  // "Failed to handle OOM by sampling (" + sampling + "): " + uri
    | NullPointer                   // a null reference is dereferenced
    | ExifUnreadable                // the ExifInterface cannot be built on the stream
    | NoMediaRow                    // the MediaStore cursor is null or empty
    | IndexOutOfBounds              // an array is indexed past its end

  /** How a Java call ends: a value, an OutOfMemoryError, or an Exception. */
  datatype Outcome<T> = Returned(value: T) | OutOfMemory | Thrown(error: Exception)

  /** BitmapUtil.BitmapSampled. */
  datatype BitmapSampled = BitmapSampled(bitmap: Bitmap?, sampleSize: int)

  /** The value of a BitmapSampled. */
  datatype Sampled = Sampled(image: Option<Image>, sampleSize: int)

  function SampledOf(b: BitmapSampled): Sampled
    reads b.bitmap
  {
    Sampled(ImageOf(b.bitmap), b.sampleSize)
  }

  function ImageOutcome(r: Outcome<Bitmap?>): Outcome<Option<Image>>
    reads if r.Returned? then {r.value} else {}
  {
    match r
    case Returned(b) => Returned(ImageOf(b))
    case OutOfMemory => OutOfMemory
    case Thrown(e) => Thrown(e)
  }

  function BitmapOutcome(r: Outcome<Bitmap>): Outcome<Image>
    reads if r.Returned? then {r.value} else {}
  {
    match r
    case Returned(b) => Returned(b.image)
    case OutOfMemory => OutOfMemory
    case Thrown(e) => Thrown(e)
  }

  function SampledOutcome(r: Outcome<BitmapSampled>): Outcome<Sampled>
    reads if r.Returned? then {r.value.bitmap} else {}
  {
    match r
    case Returned(b) => Returned(SampledOf(b))
    case OutOfMemory => OutOfMemory
    case Thrown(e) => Thrown(e)
  }

  /** The outcome of a decode call that produced `pixels`, as a nullable bitmap value. */
  function DecodeOutcome(d: DecodeResult, pixels: Pixels): Outcome<Option<Image>>
  {
    match d
    case DecodeOom => OutOfMemory
    case DecodeRaises => Thrown(DecoderError)
    case DecodeNull => Returned(None)
    case Decoded(w, h) => Returned(Some(Image(w, h, pixels)))
  }

  /** BitmapFactory.Options: the decode path reads and doubles inSampleSize in place. */
  class DecodeOptions {
    var inSampleSize: int
    var outWidth: int
    var outHeight: int

    constructor ()
      ensures inSampleSize == 0 && outWidth == 0 && outHeight == 0
    {
      inSampleSize := 0;
      outWidth := 0;
      outHeight := 0;
    }
  }

  /** A JPEG written to a file in a directory. */
  datatype Write = Write(directory: string, name: string, image: Image, quality: int)

  /**
   * The content resolver for one uri, with the bookkeeping the model
   * observes: streams opened and closed, the sample sizes handed to
   * decodeStream and decodeRegion in order, region decoders created and
   * recycled, and files written.
   */
  class Resolver {
    const source: ImageSource
    var streamsOpened: nat
    var streamsClosed: nat
    var decodeCalls: seq<int>
    var regionCalls: seq<int>
    var decoders: nat
    var decodersRecycled: nat
    var writes: seq<Write>

    constructor (source: ImageSource)
      ensures this.source == source
      ensures streamsOpened == streamsClosed == 0 && decodeCalls == regionCalls == [] && decoders == decodersRecycled == 0
      ensures writes == []
    {
      this.source := source;
      streamsOpened, streamsClosed := 0, 0;
      decodeCalls, regionCalls := [], [];
      decoders, decodersRecycled := 0, 0;
      writes := [];
    }
  }
}
