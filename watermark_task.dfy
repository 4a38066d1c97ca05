/**
 * BitmapImageWatermarkTask: a background job that reads a photo's EXIF
 * date and orientation, decodes the photo, turns it upright, stamps the
 * date on it, and writes the result as "<date>_<index>.jpg" to the app's
 * downloads directory; its result reaches the listener unless the task was
 * cancelled.
 */
module WatermarkTask {
  import opened JavaLang
  import opened Platform
  import opened Decoding

  // ---------------------------------------------------------------------
  // Constants of the task

  /** ExifInterface.ORIENTATION_ROTATE_90, _180 and _270. */
  const OrientationRotate90 := 6
  const OrientationRotate180 := 3
  const OrientationRotate270 := 8

  /** The stamp's offset from the corner and its text size, as fractions of the upright image's width and height. */
  const OffsetFraction := 0.045
  const TextSizeFraction := 0.035
  /** The stamp's colour: opaque white. */
  const StampColor := 0xFFFFFFFF
  /** The JPEG quality of the written file. */
  const JpegQuality := 100

  /** The clockwise rotation that makes a photo with this EXIF orientation upright; 0 for no rotation. */
  function RotationDegrees(orientation: int): (degrees: int)
    ensures degrees in {0, 90, 180, 270}
    ensures degrees != 0 <==> orientation in {OrientationRotate90, OrientationRotate180, OrientationRotate270}
  {
    if orientation == OrientationRotate90 then 90
    else if orientation == OrientationRotate180 then 180
    else if orientation == OrientationRotate270 then 270
    else 0
  }

  /** The rotations are the inverse of the orientations they undo: each degree value comes from exactly one orientation. */
  lemma RotationDegreesInjective(a: int, b: int)
    requires RotationDegrees(a) == RotationDegrees(b) != 0
    ensures a == b
  {
  }

  /**
   * The stamped text: the date part of an EXIF DateTime ("yyyy:MM:dd
   * HH:mm:ss"), everything before the first space, with its colons turned
   * into dashes. None when indexing the split array throws (a DateTime made
   * only of spaces).
   */
  function WatermarkText(dateTime: string): (r: Option<string>)
    ensures r.None? <==> |dateTime| > 0 && forall j :: 0 <= j < |dateTime| ==> dateTime[j] == ' '
    ensures r.Some? ==> ' ' !in r.value && ':' !in r.value
    ensures r.Some? ==> |r.value| <= |dateTime|
    ensures r.Some? ==> forall j :: 0 <= j < |r.value| ==> r.value[j] == (if dateTime[j] == ':' then '-' else dateTime[j])
    ensures r.Some? && |r.value| < |dateTime| ==> dateTime[|r.value|] == ' '
  {
    match FirstField(dateTime)
    case None => None
    case Some(field) => Some(ReplaceColons(field))
  }

  /** A DateTime in the EXIF format gives its date with dashes. */
  lemma WatermarkTextOfExifDate()
    ensures WatermarkText("2020:09:09 10:11:12") == Some("2020-09-09")
  {
    var date, time := "2020:09:09", " 10:11:12";
    assert date + time == "2020:09:09 10:11:12";
    DateField(date, time);
    DateDashes();
  }

  /** The first field of a date followed by a space and more is the date. */
  lemma DateField(date: string, rest: string)
    requires |date| > 0 && ' ' !in date && |rest| > 0 && rest[0] == ' '
    ensures FirstField(date + rest) == Some(date)
  {
    var s := date + rest;
    assert s[0] == date[0];
    assert s[|date|] == ' ';
    assert forall j :: 0 <= j < |date| ==> s[j] == date[j];
    assert s[..|date|] == date;
  }

  lemma DateDashes()
    ensures ReplaceColons("2020:09:09") == "2020-09-09"
  {
    var r := ReplaceColons("2020:09:09");
    forall j | 0 <= j < 10
      ensures r[j] == "2020-09-09"[j]
    {
    }
  }

  /** The output file's name: the stamped text, the task's index, and the JPEG extension. */
  function OutputName(text: string, index: int): (name: string)
    ensures |name| == |text| + 1 + |IntToString(index)| + 4
    ensures name[..|text|] == text && name[|text|] == '_'
    ensures name[|text| + 1..|name| - 4] == IntToString(index)
    ensures name[|name| - 4..] == ".jpg"
  {
    text + "_" + IntToString(index) + ".jpg"
  }

  /** Tasks with different indices never write the same file for the same date. */
  lemma OutputNamesDistinct(text: string, index: int, other: int)
    requires index != other
    ensures OutputName(text, index) != OutputName(text, other)
  {
    var a, b := OutputName(text, index), OutputName(text, other);
    if a == b {
      IntToStringInjective(index, other);
    }
  }

  /**
   * The output uri, Uri.fromFile(new File(directory, name)), as the file's
   * path: the directory, '/' and the name joined as they are. File's
   * normalisation of repeated separators and the "file://" scheme are not
   * modelled.
   */
  function OutputPath(directory: string, name: string): string
  {
    directory + "/" + name
  }

  // ---------------------------------------------------------------------
  // The result

  /** BitmapImageWatermarkTask.Result: the written file's uri, or the exception that stopped the task. */
  datatype TaskResult = TaskResult(output: Option<string>, error: Option<Exception>)
  {
    /** The task builds a Result in exactly two ways: (output, null) and (null, exception). */
    predicate Valid()
    {
      output.Some? != error.Some?
    }
  }

  function Success(path: string): (r: TaskResult)
    ensures r.Valid() && r.output == Some(path)
  {
    TaskResult(Some(path), None)
  }

  function Failure(e: Exception): (r: TaskResult)
    ensures r.Valid() && r.error == Some(e)
  {
    TaskResult(None, Some(e))
  }

  /** What a run of doInBackground returns, and the file it wrote (if any). */
  datatype TaskRun = TaskRun(result: TaskResult, written: Option<Write>)

  /** The files a run adds to the resolver's log of writes. */
  function Written(run: TaskRun): seq<Write>
  {
    if run.written.Some? then [run.written.value] else []
  }

  // ---------------------------------------------------------------------
  // doInBackground as a function of the photo and the device

  /** Opening the photo and building the ExifInterface on the stream. */
  function ExifStep(source: ImageSource): (r: Outcome<Exif>)
    ensures !r.OutOfMemory?
  {
    if !source.readable then Thrown(FileNotFound)
    else if source.exif.None? then Thrown(ExifUnreadable)
    else Returned(source.exif.value)
  }

  /** decodeImageForOption, then decodeImage with those options (whose inSampleSize is 0). */
  function DecodeStep(source: ImageSource): (r: Outcome<Option<Image>>)
    ensures !r.OutOfMemory?
  {
    if !source.readable then Thrown(FileNotFound)
    else DecodeImageSpec(source, 0).result
  }

  /**
   * Everything after the decode: rotate, build the text, stamp it, and
   * write the JPEG. A null bitmap fails when it is first dereferenced.
   */
  function RenderStep(decoded: Option<Image>, exif: Exif, ratio: real, location: string, index: int, device: Device): (run: TaskRun)
    ensures run.result.Valid()
    ensures run.written.Some? <==> run.result.output.Some?
  {
    var degrees := RotationDegrees(exif.orientation);
    if degrees != 0 && decoded.None? then TaskRun(Failure(NullPointer), None)
    else
      var upright := if degrees != 0 then Some(device.rotate(decoded.value, degrees)) else decoded;
      StampStep(upright, exif, ratio, location, index, device)
  }

  /**
   * The upright bitmap stamped and written: a missing DateTime fails when
   * it is split, a null bitmap when it is measured, a missing downloads
   * directory when its path is read, and a path that cannot be opened when
   * the output stream is.
   */
  function StampStep(upright: Option<Image>, exif: Exif, ratio: real, location: string, index: int, device: Device): (run: TaskRun)
    ensures run.result.Valid()
    ensures run.written.Some? <==> run.result.output.Some?
  {
    if exif.dateTime.None? then TaskRun(Failure(NullPointer), None)
    else match WatermarkText(exif.dateTime.value)
    case None => TaskRun(Failure(IndexOutOfBounds), None)
    case Some(text) =>
      if upright.None? then TaskRun(Failure(NullPointer), None)
      else
        var image := upright.value;
        var offset := Truncate(image.width as real * OffsetFraction);
        var textSize := Truncate(image.height as real * TextSizeFraction);
        var stamped := device.stamp(image, text, ratio, location, offset, textSize, StampColor);
        if device.downloadsDir.None? then TaskRun(Failure(NullPointer), None)
        else
          var name := OutputName(text, index);
          if !device.outputWritable(OutputPath(device.downloadsDir.value, name)) then TaskRun(Failure(FileNotFound), None)
          else TaskRun(Success(OutputPath(device.downloadsDir.value, name)),
                       Some(Write(device.downloadsDir.value, name, stamped, JpegQuality)))
  }

  /** Whether doInBackground gets as far as decoding: the EXIF block was read and a DateTime or a media row is there. */
  predicate DecodeReached(source: ImageSource)
  {
    ExifStep(source).Returned? && !(ExifStep(source).value.dateTime.None? && !source.mediaRow)
  }

  /**
   * doInBackground of a task that was not cancelled: every exception becomes
   * the Result's error. Neither step lets an OutOfMemoryError out (which
   * `catch (Exception)` would not catch), so those cases are absent.
   */
  function TaskSpec(source: ImageSource, ratio: real, location: string, index: int, device: Device): (run: TaskRun)
    ensures run.result.Valid()
    ensures run.written.Some? <==> run.result.output.Some?
  {
    match ExifStep(source)
    case Thrown(e) => TaskRun(Failure(e), None)
    case Returned(exif) =>
      if exif.dateTime.None? && !source.mediaRow then TaskRun(Failure(NoMediaRow), None)
      else match DecodeStep(source)
      case Thrown(e) => TaskRun(Failure(e), None)
      case Returned(decoded) => RenderStep(decoded, exif, ratio, location, index, device)
  }

  /**
   * The task writes its file exactly when the photo can be read, its EXIF
   * block carries a DateTime that is not only spaces, the photo decodes,
   * and the downloads directory exists and the file's path under it, built
   * from the date, can be opened for writing; the file is then
   * "<date>_<index>.jpg" there, stamped with the date.
   */
  lemma TaskSucceedsExactlyWhen(source: ImageSource, ratio: real, location: string, index: int, device: Device)
    ensures TaskSpec(source, ratio, location, index, device).result.output.Some? <==>
      source.readable && source.exif.Some? && source.exif.value.dateTime.Some? &&
      WatermarkText(source.exif.value.dateTime.value).Some? &&
      DecodeImageSpec(source, 0).result.Returned? && DecodeImageSpec(source, 0).result.value.Some? &&
      device.downloadsDir.Some? &&
      device.outputWritable(OutputPath(device.downloadsDir.value, OutputName(WatermarkText(source.exif.value.dateTime.value).value, index)))
    ensures var run := TaskSpec(source, ratio, location, index, device);
      run.result.output.Some? ==>
        var text := WatermarkText(source.exif.value.dateTime.value).value;
        run.written.value.name == OutputName(text, index) &&
        run.written.value.directory == device.downloadsDir.value &&
        run.written.value.quality == JpegQuality &&
        run.result.output.value == OutputPath(device.downloadsDir.value, OutputName(text, index))
  {
  }

  /** A photo that has no EXIF DateTime never gets a watermark: the task always ends with an error. */
  lemma NoDateTimeAlwaysFails(source: ImageSource, ratio: real, location: string, index: int, device: Device)
    requires source.readable && source.exif.Some? && source.exif.value.dateTime.None?
    ensures TaskSpec(source, ratio, location, index, device).result.error.Some?
    ensures !source.mediaRow ==> TaskSpec(source, ratio, location, index, device).result.error == Some(NoMediaRow)
    ensures source.mediaRow ==> TaskSpec(source, ratio, location, index, device).result.error.value in {NullPointer, DecodeFailed, DecoderError}
  {
    if source.mediaRow {
      DecodeStepErrors(source);
    }
  }

  /**
   * Once the photo can be opened, decoding it fails only when every sample
   * size up to 512 runs out of memory or the decoder itself throws.
   */
  lemma DecodeStepErrors(source: ImageSource)
    requires source.readable
    ensures DecodeStep(source).Thrown? ==> DecodeStep(source).error in {DecodeFailed, DecoderError}
  {
  }

  // ---------------------------------------------------------------------
  // The task object

  /** The OnResultListener, recording every Result it is handed. */
  class Listener {
    var received: seq<TaskResult>

    constructor ()
      ensures received == []
    {
      received := [];
    }

    method OnResult(result: TaskResult)
      modifies this
      ensures received == old(received) + [result]
    {
      received := received + [result];
    }
  }

  class Task {
    const ratio: real
    const location: string
    const index: int
    const listener: Listener
    var cancelled: bool

    constructor (ratio: real, location: string, index: int, listener: Listener)
      ensures this.ratio == ratio && this.location == location && this.index == index && this.listener == listener
      ensures !cancelled
    {
      this.ratio := ratio;
      this.location := location;
      this.index := index;
      this.listener := listener;
      cancelled := false;
    }

    /** AsyncTask.cancel: from now on isCancelled() holds. */
    method Cancel()
      modifies this
      ensures cancelled
    {
      cancelled := true;
    }

    /**
     * doInBackground. A cancelled task returns null without touching the
     * photo. Otherwise the result is TaskSpec's; the stream the EXIF block is
     * read from is never closed, so a readable photo leaves exactly one
     * stream open.
     */
    method DoInBackground(resolver: Resolver, device: Device) returns (r: Option<TaskResult>)
      modifies resolver
      ensures cancelled ==> r.None? && unchanged(resolver)
      ensures !cancelled ==> r == Some(TaskSpec(resolver.source, ratio, location, index, device).result)
      ensures !cancelled ==> (resolver.writes == old(resolver.writes) + Written(TaskSpec(resolver.source, ratio, location, index, device)))
      ensures !cancelled ==> (resolver.streamsOpened - old(resolver.streamsOpened)
        == resolver.streamsClosed - old(resolver.streamsClosed) + (if resolver.source.readable then 1 else 0))
      ensures !cancelled ==>
        resolver.decodeCalls == old(resolver.decodeCalls) + (if DecodeReached(resolver.source) then DecodeAttempts(resolver.source, 0) else [])
      ensures !cancelled ==> resolver.regionCalls == old(resolver.regionCalls)
      ensures !cancelled ==> resolver.decoders == old(resolver.decoders) && resolver.decodersRecycled == old(resolver.decodersRecycled)
    {
      if cancelled {
        return None;
      }
      var exif := OpenExif(resolver);
      if exif.Thrown? {
        return Some(Failure(exif.error));
      }
      if exif.value.dateTime.None? && !resolver.source.mediaRow {
        return Some(Failure(NoMediaRow));
      }
      var decoded := DecodeForTask(resolver);
      if !decoded.Returned? {
        return Some(Failure(decoded.error));
      }
      var run := Render(resolver, decoded.value, exif.value, device);
      return Some(run);
    }

    /** The ExifInterface built on a stream that is opened and left open. */
    static method OpenExif(resolver: Resolver) returns (r: Outcome<Exif>)
      modifies resolver
      ensures r == ExifStep(resolver.source)
      ensures resolver.streamsOpened == old(resolver.streamsOpened) + (if resolver.source.readable then 1 else 0)
      ensures resolver.streamsClosed == old(resolver.streamsClosed) && resolver.writes == old(resolver.writes)
      ensures resolver.decodeCalls == old(resolver.decodeCalls) && resolver.regionCalls == old(resolver.regionCalls)
      ensures resolver.decoders == old(resolver.decoders) && resolver.decodersRecycled == old(resolver.decodersRecycled)
    {
      if !resolver.source.readable {
        return Thrown(FileNotFound);
      }
      resolver.streamsOpened := resolver.streamsOpened + 1;
      if resolver.source.exif.None? {
        return Thrown(ExifUnreadable);
      }
      return Returned(resolver.source.exif.value);
    }

    /** decodeImageForOption and decodeImage; every stream they open they close. */
    static method DecodeForTask(resolver: Resolver) returns (r: Outcome<Bitmap?>)
      modifies resolver
      ensures ImageOutcome(r) == DecodeStep(resolver.source)
      ensures r.Returned? && r.value != null ==> fresh(r.value)
      ensures resolver.streamsOpened - old(resolver.streamsOpened) == resolver.streamsClosed - old(resolver.streamsClosed)
      ensures resolver.writes == old(resolver.writes)
      ensures resolver.decodeCalls == old(resolver.decodeCalls) + DecodeAttempts(resolver.source, 0)
      ensures resolver.regionCalls == old(resolver.regionCalls)
      ensures resolver.decoders == old(resolver.decoders) && resolver.decodersRecycled == old(resolver.decodersRecycled)
    {
      var options := DecodeImageForOption(resolver);
      if !options.Returned? {
        return Thrown(options.error);
      }
      r := DecodeImage(resolver, options.value);
    }

    /** Rotate, stamp and write; the decoded bitmap is recycled once its rotated copy exists. */
    method Render(resolver: Resolver, decoded: Bitmap?, exif: Exif, device: Device) returns (r: TaskResult)
      modifies resolver, decoded
      ensures r == RenderStep(ImageOf(decoded), exif, ratio, location, index, device).result
      ensures resolver.writes == old(resolver.writes) + Written(RenderStep(ImageOf(decoded), exif, ratio, location, index, device))
      ensures resolver.streamsOpened == old(resolver.streamsOpened) && resolver.streamsClosed == old(resolver.streamsClosed)
      ensures decoded != null && RotationDegrees(exif.orientation) != 0 ==> decoded.recycled
      ensures decoded != null && RotationDegrees(exif.orientation) == 0 ==> decoded.recycled == old(decoded.recycled)
      ensures resolver.decodeCalls == old(resolver.decodeCalls)
      ensures resolver.regionCalls == old(resolver.regionCalls)
      ensures resolver.decoders == old(resolver.decoders) && resolver.decodersRecycled == old(resolver.decodersRecycled)
    {
      var degrees := RotationDegrees(exif.orientation);
      var upright := decoded;
      if degrees != 0 {
        if decoded == null {
          return Failure(NullPointer);
        }
        var rotated := new Bitmap(device.rotate(decoded.image, degrees), false);
        decoded.Recycle();
        upright := rotated;
      }
      r := StampAndWrite(resolver, upright, exif, device);
    }

    /** The stamp and the write on the upright bitmap. */
    method StampAndWrite(resolver: Resolver, upright: Bitmap?, exif: Exif, device: Device) returns (r: TaskResult)
      modifies resolver
      ensures r == StampStep(ImageOf(upright), exif, ratio, location, index, device).result
      ensures resolver.decodeCalls == old(resolver.decodeCalls)
      ensures resolver.regionCalls == old(resolver.regionCalls)
      ensures resolver.decoders == old(resolver.decoders) && resolver.decodersRecycled == old(resolver.decodersRecycled)
      ensures resolver.writes == old(resolver.writes) + Written(StampStep(ImageOf(upright), exif, ratio, location, index, device))
      ensures resolver.streamsOpened == old(resolver.streamsOpened) && resolver.streamsClosed == old(resolver.streamsClosed)
    {
      if exif.dateTime.None? {
        return Failure(NullPointer);
      }
      var text := WatermarkText(exif.dateTime.value);
      if text.None? {
        return Failure(IndexOutOfBounds);
      }
      if upright == null {
        return Failure(NullPointer);
      }
      var offset := Truncate(upright.image.width as real * OffsetFraction);
      var textSize := Truncate(upright.image.height as real * TextSizeFraction);
      var stamped := device.stamp(upright.image, text.value, ratio, location, offset, textSize, StampColor);
      if device.downloadsDir.None? {
        return Failure(NullPointer);
      }
      var name := OutputName(text.value, index);
      var path := OutputPath(device.downloadsDir.value, name);
      if !device.outputWritable(path) {
        return Failure(FileNotFound);
      }
      resolver.writes := resolver.writes + [Write(device.downloadsDir.value, name, stamped, JpegQuality)];
      return Success(path);
    }

    /** onPostExecute: the listener hears the result unless the task was cancelled or the result is null. */
    method OnPostExecute(result: Option<TaskResult>)
      modifies listener
      ensures listener.received == old(listener.received) + (if !cancelled && result.Some? then [result.value] else [])
    {
      if cancelled {
        return;
      }
      if result.Some? {
        listener.OnResult(result.value);
      }
    }
  }
}
