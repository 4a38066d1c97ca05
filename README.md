# Watermark: bitmap utilities and the watermark task, modelled in Dafny

This project models the image core of an Android app that stamps the date
a photo was taken onto the photo. The app's core has two parts.

- `BitmapUtil` does the decoding and cropping. It reads an image through the
  content resolver at a power-of-two down-sampling factor (`inSampleSize`).
  The device's maximum texture size is queried once, from EGL, and kept in a
  static field. Two factors are computed and the larger is used:
  - The requested-size factor alone keeps both sides above the request once
    it exceeds 1.
  - The texture factor keeps the image within the maximum texture size. When
    it is the larger, it takes over, and the image can then be smaller than
    requested.
  - Out-of-memory retries can double the factor again.
- When a decode or a crop runs out of memory, `BitmapUtil` retries with the
  factor doubled, up to a ceiling:
  - 512 in `decodeImage` and `decodeSampledBitmapRegion`;
  - 16 on `sampleMulti` in the public `cropBitmap`;
  - 8 on the divisor in `cropBitmapObjectHandleOOM`.
- A crop decodes just the rectangle first. If that fails, it decodes the
  whole image and cuts the rectangle out of the bitmap in memory.
- Two `addWatermarkToBitmap` overloads draw a scaled watermark image, or a
  text, `offset` pixels in from a named corner.
- `BitmapImageWatermarkTask` is the background job.
  - It reads the photo's EXIF DateTime and orientation.
  - It decodes the photo and rotates it upright.
  - It stamps the date as `yyyy-MM-dd`.
  - It writes `<date>_<index>.jpg` to the app's downloads directory.
  - It hands a `Result` (an output uri or an exception) to its listener,
    unless it has been cancelled.

The model is organised as follows.

- Each retry loop is proved against one specification function,
  `RetryLadder.Ladder`. It lists the factors tried and says how the loop ended.
- Each Java method that loops or changes state is a Dafny `method` with a loop
  and its invariants. Its `ensures` ties the result, and the new state, to a
  specification function.
- The properties the source promises are lemmas about those functions:
  - the factors are powers of two that never skip a step;
  - a decoded bitmap fits the texture limit;
  - a crop gives up exactly after the five attempts at 1, 2, 4, 8 and 16;
  - a watermark spans `ratio` of the image width;
  - the output names differ between tasks.
- Mutable Java objects are Dafny classes:
  - `BitmapFactory.Options` is `DecodeOptions`, whose `inSampleSize` is doubled in place;
  - the static `mMaxTextureSize` is `TextureSizeCache`;
  - `Bitmap` has a `recycled` flag;
  - the listener keeps a log of the results it received;
  - the content resolver keeps counters of opened and closed streams, the
    decode calls made, and the files written.

Parts of the Android platform become parameters:

- What a uri's image yields is an `ImageSource` value: whether it can be
  opened, its bounds, the outcome of a decode at each factor, the outcome of
  a region decode, its EXIF block, and its MediaStore row.
- The device is a `Device` value: its EGL configurations, which allocations
  run out of memory, how a text measures, its downloads directory, whether
  the output can be written, and the two operations whose code is not
  modelled (`rotate` and the seven-argument `addWatermarkToBitmap`).
- Pixels are a symbolic record of how a buffer was made, such as a full
  decode at a factor, a region decode, a crop or a canvas with an overlay.

## Model

| member | source | states |
|---|---|---|
| JavaLang.DivBounds | app/src/main/java/com/example/watermark/BitmapUtil.java:456 | Java `/` truncates toward zero: for a non-negative dividend the quotient times the divisor is within one divisor below it |
| JavaLang.NestedDiv | app/src/main/java/com/example/watermark/BitmapUtil.java:456 | `height / 2 / s` equals `height / (2 * s)` under truncating division, for negative heights too |
| JavaLang.DivAntitone | app/src/main/java/com/example/watermark/BitmapUtil.java:473-474 | a larger sample size never gives a larger quotient of a dimension |
| JavaLang.Round | app/src/main/java/com/example/watermark/BitmapUtil.java:164-167 | `Math.round` gives the integer within half a unit of its argument, halves rounded up |
| JavaLang.RoundMonotone | app/src/main/java/com/example/watermark/BitmapUtil.java:164-167 | `Math.round` preserves order, which keeps the rounded crop edges ordered |
| JavaLang.Truncate | app/src/main/java/com/example/watermark/BitmapImageWatermarkTask.java:116-117 | the `(int)` cast truncates toward zero: the result is within one unit of its argument, on the zero side |
| JavaLang.ParseIntToString | app/src/main/java/com/example/watermark/BitmapImageWatermarkTask.java:135 | `Integer.toString` of the index can be read back to the index |
| JavaLang.IntToStringInjective | app/src/main/java/com/example/watermark/BitmapImageWatermarkTask.java:135 | different indices print differently |
| JavaLang.FirstField | app/src/main/java/com/example/watermark/BitmapImageWatermarkTask.java:115 | `split(" ")[0]` throws exactly for a non-empty all-space string; otherwise it is the space-free prefix that ends at the first space |
| JavaLang.ReplaceColons | app/src/main/java/com/example/watermark/BitmapImageWatermarkTask.java:115 | `replaceAll(":", "-")` keeps the length and changes exactly the colons into dashes |
| SampleSize.RequestedSampleSize | app/src/main/java/com/example/watermark/BitmapUtil.java:452-461 | the factor is a power of two; it is 1 when the image does not exceed the request; otherwise it is the first power of two at which the halving guard fails, with the guard holding at every smaller power |
| SampleSize.RequestedSampleSizeBounds | app/src/main/java/com/example/watermark/BitmapUtil.java:448-461 | a factor above 1 keeps both dimensions above the request and is at most each dimension; doubling it would bring one dimension to the request or below |
| SampleSize.RequestedSampleSizeOfOwnSize | app/src/main/java/com/example/watermark/BitmapUtil.java:293-302 | requesting a rectangle's own size gives the factor 1 |
| SampleSize.CalculateInSampleSizeByRequestedSize | app/src/main/java/com/example/watermark/BitmapUtil.java:452-461 | the doubling loop returns `RequestedSampleSize` |
| SampleSize.TextureSampleSize | app/src/main/java/com/example/watermark/BitmapUtil.java:467-479 | the factor is the smallest power of two that brings both dimensions within the texture limit, and 1 when the limit is not positive |
| SampleSize.FitsTextureAbove | app/src/main/java/com/example/watermark/BitmapUtil.java:473-476 | once the dimensions fit at a factor they fit at every larger factor |
| SampleSize.CombinedSampleSize | app/src/main/java/com/example/watermark/BitmapUtil.java:146-150 | the larger of the two factors is a power of two, at least the requested-size factor, and within the texture limit |
| SampleSize.LargestSize | app/src/main/java/com/example/watermark/BitmapUtil.java:507-519 | the running maximum bounds every configuration's size and is one of them (or 0 when there are none) |
| SampleSize.MaxTextureSize | app/src/main/java/com/example/watermark/BitmapUtil.java:485-529 | the texture limit is at least 2048, at least every EGL configuration's size, and is 2048 or one of those sizes; it is 2048 when EGL throws |
| SampleSize.GetMaxTextureSize | app/src/main/java/com/example/watermark/BitmapUtil.java:485-529 | the loop over the configurations returns `MaxTextureSize` |
| SampleSize.TextureSizeCache.constructor | app/src/main/java/com/example/watermark/BitmapUtil.java:37 | the memo starts at 0 |
| SampleSize.TextureSizeCache.CalculateInSampleSizeByMaxTextureSize | app/src/main/java/com/example/watermark/BitmapUtil.java:467-479 | the limit is queried only while the memo is 0, and once set it stays set; the loop returns `TextureSampleSize` for the memoised limit |
| RetryLadder.Ladder | app/src/main/java/com/example/watermark/BitmapUtil.java:395-405 | a retry loop tries its first factor whatever it is; every attempt but the last ran out of memory; attempts after the first stay within the ceiling; the loop stops on the first attempt that does not run out of memory, or ends at twice the last factor, past the ceiling |
| RetryLadder.LadderPowers | app/src/main/java/com/example/watermark/BitmapUtil.java:401 | the i-th attempt is at the start times 2 to the i |
| RetryLadder.LadderDoubles | app/src/main/java/com/example/watermark/BitmapUtil.java:401 | each attempt is at twice the factor of the one before |
| RetryLadder.LadderBounded | app/src/main/java/com/example/watermark/BitmapUtil.java:395-405 | every attempted factor lies between the start and the larger of the start and the ceiling |
| RetryLadder.LadderPow2 | app/src/main/java/com/example/watermark/BitmapUtil.java:395-405 | from a power of two, every attempt and the final factor are powers of two |
| RetryLadder.CropLadderExhausted | app/src/main/java/com/example/watermark/BitmapUtil.java:103-128 | with ceiling 16 the loop gives up exactly when 1, 2, 4, 8 and 16 all run out of memory, after those five attempts, at 32 |
| RetryLadder.ScaleLadderExhausted | app/src/main/java/com/example/watermark/BitmapUtil.java:48-59 | with ceiling 8 the loop gives up exactly when 1, 2, 4 and 8 all run out of memory, after those four attempts |
| RetryLadder.DecodeLadderAttempts | app/src/main/java/com/example/watermark/BitmapUtil.java:395-405 | from 1 under the ceiling 512 at most ten decodes are attempted |
| RetryLadder.RunStepsAgrees | app/src/main/java/com/example/watermark/BitmapUtil.java:395-405 | the loop taken literally, step by step, finishes as `Ladder` says from any positive start |
| RetryLadder.ZeroStartNeverFinishes | app/src/main/java/com/example/watermark/BitmapUtil.java:395-405 | from inSampleSize 0, if the attempt at 0 runs out of memory, the loop is still running after any number of steps |
| Geometry.RectFromFittedCrop | app/src/main/java/com/example/watermark/BitmapUtil.java:163-170 | each pixel edge is within half a pixel of the fitted edge scaled by the image's dimension |
| Geometry.FittedEdges | app/src/main/java/com/example/watermark/BitmapUtil.java:163-170 | fitted edges 0 ≤ low ≤ high ≤ 1 give pixel edges 0 ≤ low ≤ high ≤ n |
| Geometry.FittedRectInsideImage | app/src/main/java/com/example/watermark/BitmapUtil.java:163-170 | a fitted rectangle inside the unit square maps to a rectangle inside the image |
| Geometry.WholeFittedRect | app/src/main/java/com/example/watermark/BitmapUtil.java:163-170 | the unit square maps to the whole image |
| Geometry.OverlayPosition | app/src/main/java/com/example/watermark/BitmapUtil.java:205-218 | an overlay is placed exactly for the four corner names, and it sits `offset` in from each edge of the named corner |
| Geometry.OverlayInsideCanvas | app/src/main/java/com/example/watermark/BitmapUtil.java:205-218 | an overlay that fits with the offset to spare stays entirely on the canvas at every corner |
| Geometry.OverlayCornersMirror | app/src/main/java/com/example/watermark/BitmapUtil.java:205-218 | the right corners mirror the left ones and the bottom corners the top ones |
| Decoding.StartFactor | app/src/main/java/com/example/watermark/BitmapUtil.java:392-405 | the corrected start factor is at least 1 and leaves any positive inSampleSize alone |
| Decoding.DecodeImageSpec | app/src/main/java/com/example/watermark/BitmapUtil.java:392-407 | decodeImage never lets an out-of-memory error through |
| Decoding.DecodeImageFactor | app/src/main/java/com/example/watermark/BitmapUtil.java:392-407 | the final inSampleSize is never below the start and stays a power of two; the bitmap is the full decode at that factor; "Failed to decode image" is thrown exactly when the factor passes both the start and 512 |
| Decoding.DecodeImageAttemptsOnce | app/src/main/java/com/example/watermark/BitmapUtil.java:395-399 | the loop is a do-while: a readable uri gets at least one attempt, at the start factor |
| Decoding.DecodeImageForOption | app/src/main/java/com/example/watermark/BitmapUtil.java:373-386 | it fails exactly when the uri cannot be opened; otherwise it returns fresh options holding the bounds with inSampleSize 0, closing the one stream it opened |
| Decoding.DecodeStream | app/src/main/java/com/example/watermark/BitmapUtil.java:396-404 | one attempt opens a stream, decodes at the factor, logs the call and closes the stream |
| Decoding.DecodeLadder | app/src/main/java/com/example/watermark/BitmapUtil.java:395-405 | the do-while ends as `Ladder` says, leaves the ladder's final factor in the options, makes exactly the ladder's decode calls, and opens and closes one stream per call |
| Decoding.DecodeImage | app/src/main/java/com/example/watermark/BitmapUtil.java:392-407 | the loop matches `DecodeImageSpec`, leaves the final factor in the options, makes exactly the ladder's decode calls and closes every stream it opens |
| Decoding.DecodeSampledSpec | app/src/main/java/com/example/watermark/BitmapUtil.java:134-161 | decodeSampledBitmap never lets out-of-memory through, and every failure is wrapped as "Failed to load sampled bitmap" |
| Decoding.DecodeSampledFits | app/src/main/java/com/example/watermark/BitmapUtil.java:134-161 | a returned bitmap was decoded at the reported factor, a power of two that is at least the requested-size factor and within the texture limit |
| Decoding.NotAPictureExactly | app/src/main/java/com/example/watermark/BitmapUtil.java:142-143 | "File is not a picture" comes exactly for a readable uri whose bounds are both -1 |
| Decoding.DecodeSampledBitmap | app/src/main/java/com/example/watermark/BitmapUtil.java:134-161 | the method matches `DecodeSampledSpec`; the texture memo is filled only once the bounds check passes; decodeStream is called with exactly decodeImage's factors from the combined start, and none when the bounds check fails; one bounds stream plus one stream per attempt are opened and all are closed; no region call, region decoder or file write |
| Decoding.RegionStart | app/src/main/java/com/example/watermark/BitmapUtil.java:420-424 | the region ladder, and the full-decode crop fallback, start at sampleMulti times the requested-size factor, so never below sampleMulti |
| Decoding.RegionSpec | app/src/main/java/com/example/watermark/BitmapUtil.java:415-445 | decodeSampledBitmapRegion never lets out-of-memory through and wraps every failure as "Failed to load sampled bitmap" |
| Decoding.RegionResultMeaning | app/src/main/java/com/example/watermark/BitmapUtil.java:428-444 | a missing bitmap means either that every factor tried ran out of memory (sample size 1) or that decodeRegion gave null at the reported factor; a bitmap is the rectangle decoded at the reported factor |
| Decoding.RegionLadder | app/src/main/java/com/example/watermark/BitmapUtil.java:428-434 | the do-while over decodeRegion ends as `Ladder` says and logs exactly the ladder's factors |
| Decoding.DecodeSampledBitmapRegion | app/src/main/java/com/example/watermark/BitmapUtil.java:415-445 | the method matches `RegionSpec`; the finally block closes the stream and recycles every decoder it created |
| Cropping.ScaledLength | app/src/main/java/com/example/watermark/BitmapUtil.java:78-81 | a side scaled by 1/divisor is the mapped length rounded to within half a pixel |
| Cropping.ScaledLengthAntitone | app/src/main/java/com/example/watermark/BitmapUtil.java:44-59 | a larger divisor never gives a longer side, which is why doubling it relieves memory |
| Cropping.ScaledCropSize | app/src/main/java/com/example/watermark/BitmapUtil.java:71-89 | a crop lies inside the image and has the scaled size of the rectangle, and exactly its size at divisor 1 |
| Cropping.CropBitmapObjectWithScale | app/src/main/java/com/example/watermark/BitmapUtil.java:71-89 | the method matches `ScaledCropSpec` and always returns a new bitmap: when createBitmap hands back the source, the source is copied |
| Cropping.HandleOomSpec | app/src/main/java/com/example/watermark/BitmapUtil.java:47-60 | a returned crop always holds a bitmap |
| Cropping.HandleOomGivesUp | app/src/main/java/com/example/watermark/BitmapUtil.java:47-60 | the OutOfMemoryError escapes exactly when the crop runs out of memory at divisors 1, 2, 4 and 8 |
| Cropping.HandleOomDivisor | app/src/main/java/com/example/watermark/BitmapUtil.java:47-60 | the reported divisor is 1, 2, 4 or 8, the crop is the crop at that divisor, and every smaller divisor tried ran out of memory |
| Cropping.CropBitmapObjectHandleOOM | app/src/main/java/com/example/watermark/BitmapUtil.java:47-60 | the loop matches `HandleOomSpec` |
| Cropping.FallbackSpec | app/src/main/java/com/example/watermark/BitmapUtil.java:328-367 | the fallback reports the sample size it computed before decoding, and wraps every exception as "Failed to load sampled bitmap" |
| Cropping.CropFromFullDecode | app/src/main/java/com/example/watermark/BitmapUtil.java:328-367 | the method matches `FallbackSpec`; the fully decoded bitmap is recycled whenever there was one, and is never the result; decodeStream is called with exactly decodeImage's factors from `RegionStart`, one balanced stream each; no region call, region decoder or file write |
| Cropping.CropStartsAtSampleMulti | app/src/main/java/com/example/watermark/BitmapUtil.java:281-322 | the region decode and the fallback both start from exactly sampleMulti; a kept region result is the rectangle decoded at the factor it reports, and a fallback result reports sampleMulti |
| Cropping.CropRegionOrFull | app/src/main/java/com/example/watermark/BitmapUtil.java:281-322 | the region result is kept when it has a bitmap; otherwise, on null or on any exception, the full-decode fallback runs; decodeRegion gets the region ladder's factors and decodeStream the fallback's factors only when the fallback runs; streams and region decoders are all closed; no file write |
| Cropping.CropBitmapSpec | app/src/main/java/com/example/watermark/BitmapUtil.java:96-129 | the public cropBitmap never lets out-of-memory through |
| Cropping.CropBitmapGivesUp | app/src/main/java/com/example/watermark/BitmapUtil.java:114-126 | "Failed to handle OOM by sampling" is thrown exactly when the crop runs out of memory at 1, 2, 4, 8 and 16, and it then reports 32 |
| Cropping.FallbackNeverOomNotHandled | app/src/main/java/com/example/watermark/BitmapUtil.java:305-367 | the private crop throws only "Failed to load sampled bitmap" |
| Cropping.CropCallsSnoc | app/src/main/java/com/example/watermark/BitmapUtil.java:103-128 | one more pass of the loop appends exactly that sampleMulti's decodeRegion and decodeStream calls after those of the passes before it |
| Cropping.CropRung | app/src/main/java/com/example/watermark/BitmapUtil.java:105-113 | one pass: the private crop runs out of memory exactly when the ladder's predicate holds at sampleMulti, and otherwise matches `CropSpec`; its calls extend the logs of the earlier passes; streams and region decoders are all closed; no file write |
| Cropping.CropLadder | app/src/main/java/com/example/watermark/BitmapUtil.java:103-128 | the loop ends as the ladder from 1 with ceiling 16 ends; when it stops, the last attempt is the private crop at that sampleMulti; the decodeRegion and decodeStream calls are those of each tried sampleMulti in order; streams and region decoders are all closed; no file write |
| RetryLadder.ClimbedLadder | app/src/main/java/com/example/watermark/BitmapUtil.java:103-128 | after attempts that each ran out of memory and doubled the factor, the loop's remaining attempts and its end are those of the ladder from the factor reached |
| Cropping.CropBitmap | app/src/main/java/com/example/watermark/BitmapUtil.java:96-129 | the loop matches `CropBitmapSpec`; the decodeRegion and decodeStream calls are those of each tried sampleMulti in order; streams and region decoders are all closed; no file write |
| Watermark.WatermarkScale | app/src/main/java/com/example/watermark/BitmapUtil.java:200 | the scale makes the watermark's width equal `ratio` times the canvas width |
| Watermark.ScaledSide | app/src/main/java/com/example/watermark/BitmapUtil.java:201-203 | a scaled side is the absolute mapped length, rounded to within half a pixel |
| Watermark.ScaledWatermark | app/src/main/java/com/example/watermark/BitmapUtil.java:201-203 | an immutable watermark at scale 1 is reused as is; otherwise the new bitmap has the scaled size; createBitmap throws only IllegalArgument |
| Watermark.Stamped | app/src/main/java/com/example/watermark/BitmapUtil.java:196-218 | the canvas has the source's size, with the source's pixels underneath; there is an overlay exactly for the four corner names |
| Watermark.ImageWatermarkShape | app/src/main/java/com/example/watermark/BitmapUtil.java:192-225 | the result keeps the source's size and pixels and has the scaled watermark at the `OverlayPosition` of the named corner |
| Watermark.WatermarkSpansRatio | app/src/main/java/com/example/watermark/BitmapUtil.java:200-203 | the drawn watermark's width is within half a pixel of `ratio` times the canvas width |
| Watermark.ScaleWatermark | app/src/main/java/com/example/watermark/BitmapUtil.java:201-203 | the createBitmap call matches `ScaledWatermark` and returns the watermark itself or a new mutable bitmap |
| Watermark.AddImageWatermark | app/src/main/java/com/example/watermark/BitmapUtil.java:192-225 | the method matches `ImageWatermarkSpec` and returns a new mutable bitmap |
| Watermark.TextWatermarkSpec | app/src/main/java/com/example/watermark/BitmapUtil.java:227-268 | the text overload keeps the source's size and pixels and throws only IllegalArgument |
| Watermark.TextWatermarkIgnoresRatio | app/src/main/java/com/example/watermark/BitmapUtil.java:243-245 | the scale computed from `ratio` is never used, so any two ratios give the same bitmap |
| Watermark.TextWatermarkPlacement | app/src/main/java/com/example/watermark/BitmapUtil.java:235-261 | the red size-16 text is drawn at the `OverlayPosition` of its measured bounds |
| Watermark.AddTextWatermark | app/src/main/java/com/example/watermark/BitmapUtil.java:227-268 | the method matches `TextWatermarkSpec` and returns a new mutable bitmap |
| WatermarkTask.RotationDegrees | app/src/main/java/com/example/watermark/BitmapImageWatermarkTask.java:99-109 | the rotation is 0, 90, 180 or 270, and it is non-zero exactly for EXIF orientations 6, 3 and 8 |
| WatermarkTask.RotationDegreesInjective | app/src/main/java/com/example/watermark/BitmapImageWatermarkTask.java:99-109 | each non-zero rotation comes from exactly one orientation |
| WatermarkTask.WatermarkText | app/src/main/java/com/example/watermark/BitmapImageWatermarkTask.java:115 | the stamp is the DateTime up to its first space (the character after it, if any, is a space), with the colons turned into dashes; it has no spaces and no colons; it fails exactly for an all-space DateTime |
| WatermarkTask.WatermarkTextOfExifDate | app/src/main/java/com/example/watermark/BitmapImageWatermarkTask.java:115 | "2020:09:09 10:11:12" stamps as "2020-09-09" |
| WatermarkTask.DateField | app/src/main/java/com/example/watermark/BitmapImageWatermarkTask.java:115 | a space-free date followed by a space and more splits off as the date |
| WatermarkTask.OutputName | app/src/main/java/com/example/watermark/BitmapImageWatermarkTask.java:135 | the file name is the text, an underscore, `Integer.toString` of the index and ".jpg", each part at its position |
| WatermarkTask.OutputNamesDistinct | app/src/main/java/com/example/watermark/BitmapImageWatermarkTask.java:135 | tasks with different indices never write the same file for the same date |
| WatermarkTask.Success | app/src/main/java/com/example/watermark/BitmapImageWatermarkTask.java:139 | a success Result carries the output and no error |
| WatermarkTask.Failure | app/src/main/java/com/example/watermark/BitmapImageWatermarkTask.java:140-143 | a failure Result carries the exception and no output |
| WatermarkTask.ExifStep | app/src/main/java/com/example/watermark/BitmapImageWatermarkTask.java:62-67 | reading the EXIF block throws an exception (caught by the task) and never an out-of-memory error |
| WatermarkTask.DecodeStep | app/src/main/java/com/example/watermark/BitmapImageWatermarkTask.java:94-96 | decoding for the task never lets out-of-memory through |
| WatermarkTask.RenderStep | app/src/main/java/com/example/watermark/BitmapImageWatermarkTask.java:98-139 | the result is well formed, and a file is written exactly when the task succeeds |
| WatermarkTask.StampStep | app/src/main/java/com/example/watermark/BitmapImageWatermarkTask.java:115-139 | after the rotation: the result is well formed, and a file is written exactly when the task succeeds |
| WatermarkTask.TaskSpec | app/src/main/java/com/example/watermark/BitmapImageWatermarkTask.java:60-143 | doInBackground always returns a well-formed Result, and writes a file exactly when it succeeds |
| WatermarkTask.TaskSucceedsExactlyWhen | app/src/main/java/com/example/watermark/BitmapImageWatermarkTask.java:60-143 | the task succeeds exactly when the photo opens, its EXIF has a DateTime that is not all spaces, it decodes to a bitmap, and the downloads directory exists and the path built from the date and index can be opened for writing; it then writes "<date>_<index>.jpg" at quality 100 there |
| WatermarkTask.NoDateTimeAlwaysFails | app/src/main/java/com/example/watermark/BitmapImageWatermarkTask.java:69-115 | a photo without an EXIF DateTime always ends in an error: the missing MediaStore row, or the null DateTime dereferenced (or a decode failure before it) |
| WatermarkTask.DecodeStepErrors | app/src/main/java/com/example/watermark/BitmapUtil.java:392-407 | once the photo opens, decoding fails only with "Failed to decode image" or an exception from the decoder |
| WatermarkTask.Listener.OnResult | app/src/main/java/com/example/watermark/BitmapImageWatermarkTask.java:168-171 | the listener records each Result it is handed |
| WatermarkTask.Task.constructor | app/src/main/java/com/example/watermark/BitmapImageWatermarkTask.java:38-52 | the task keeps its ratio, location, index and listener, and starts out not cancelled |
| WatermarkTask.Task.Cancel | app/src/main/java/com/example/watermark/BitmapImageWatermarkTask.java:56 | after cancellation `isCancelled()` holds |
| WatermarkTask.Task.DoInBackground | app/src/main/java/com/example/watermark/BitmapImageWatermarkTask.java:54-144 | a cancelled task returns null without touching the resolver; otherwise the result and the file written are `TaskSpec`'s, and the EXIF stream stays open (one stream more opened than closed); decodeStream gets exactly decodeImage's factors from 0 when the task reaches the decode, and none otherwise; no region call or region decoder |
| WatermarkTask.Task.OpenExif | app/src/main/java/com/example/watermark/BitmapImageWatermarkTask.java:62 | the EXIF stream is opened and never closed; nothing is decoded or written |
| WatermarkTask.Task.DecodeForTask | app/src/main/java/com/example/watermark/BitmapImageWatermarkTask.java:94-96 | decodeImageForOption and then decodeImage match `DecodeStep` and close every stream they open; decodeStream gets exactly decodeImage's factors from 0; no region call, region decoder or file write |
| WatermarkTask.Task.Render | app/src/main/java/com/example/watermark/BitmapImageWatermarkTask.java:98-139 | the method matches `RenderStep`; when the photo is rotated, the unrotated bitmap is recycled, and otherwise it is left as it was; no decode call or region decoder |
| WatermarkTask.Task.StampAndWrite | app/src/main/java/com/example/watermark/BitmapImageWatermarkTask.java:115-139 | the method matches `StampStep`, appends exactly its write, and opens no input stream; no decode call or region decoder |
| WatermarkTask.Task.OnPostExecute | app/src/main/java/com/example/watermark/BitmapImageWatermarkTask.java:146-156 | the listener gets the result exactly when the task is not cancelled and the result is not null |

## Left out

- Floating point: `float` and `double` arithmetic is done over the reals. This
  covers `Math.round` of a scaled edge, the `1 / scale` matrix, the
  watermark's scale factor, and the 0.045 and 0.035 fractions. Rounding error
  and NaN or infinite values (from a text with zero width) are not modelled.
- 32-bit overflow: sample sizes, factors and pixel sizes are unbounded
  integers.
- SampleSize.CalculateInSampleSizeByRequestedSize, Decoding.DecodeSampledSpec
  and Decoding.DecodeSampledBitmap require a non-negative requested width or
  height. With both requests negative, the Java halving loop doubles the
  factor until it wraps to Integer.MIN_VALUE and then to 0. The next
  `halfHeight / inSampleSize` then throws an ArithmeticException. That path
  is not modelled.
- Out-of-memory errors in `rotate`, and in the seven-argument
  `addWatermarkToBitmap` the task calls, are not modelled. Their code is not
  part of this model. They are `Device.rotate` and `Device.stamp` on images.
  `rotate(null, …)` is taken to throw a NullPointerException.
- `writeBitmapToUri` is reduced to one write record. Whether
  `openOutputStream` succeeds is `Device.outputWritable` of the output path.
  The path holds the date, so a DateTime with a '/' or one longer than the
  file-name limit can make it fail. Encoding the JPEG and
  closing the output stream are not modelled. The same holds for the
  `Log` calls, the `Cursor` closing, and the unused `SimpleDateFormat` and
  DateTimeOriginal/Digitized reads.
- Decoded bitmaps and `copy(config, false)` copies are immutable.
  `createBitmap(w, h, config)` bitmaps are mutable, and so is a new bitmap
  from the seven-argument `createBitmap(source, x, y, w, h, matrix, filter)`. `Bitmap.copy` is taken to succeed or to run out of memory; its
  null result for an unsupported config is not modelled.
- Only pixel allocations run out of memory in the model: `ImageSource.decodeAt`,
  `ImageSource.regionAt` and `Device.allocationFails`. An OutOfMemoryError from
  `BitmapRegionDecoder.newInstance` is not modelled. In the source it would
  pass both `catch (Exception)` blocks, so the public `cropBitmap` would
  double `sampleMulti` without running the full-decode fallback.
- WatermarkTask.OutputPath joins the directory, '/' and the name as they are.
  `new File(dir, name)` collapses a doubled or trailing '/', and
  `Uri.fromFile` adds the "file://" scheme; neither is modelled. Only a date
  that holds a '/' can be affected.
- Readability of a uri is checked once, before the decode loops. A uri that
  becomes unreadable between attempts is not modelled.
- Decoding.DecodeImage, WatermarkTask.DecodeStep, WatermarkTask.TaskSpec,
  WatermarkTask.TaskSucceedsExactlyWhen, WatermarkTask.Task.DoInBackground
  and WatermarkTask.Task.DecodeForTask start decodeImage from
  `Decoding.StartFactor`, not from the raw `inSampleSize`. A start below 1 is
  taken as 1; see Findings. The task passes options whose `inSampleSize` is
  0. Where the source loops forever (an out-of-memory error at full size),
  the model retries at 2, 4, ... up to 512.
- Each watermark overlay is placed as the source computes it. The text's
  baseline position in `drawText` is not modelled; the text is placed as a
  box.
- AsyncTask scheduling and threads are not modelled. Cancellation is a flag
  that `Cancel` sets between calls. `onCancelled` and the executor are left
  out.
- `cropBitmapObjectHandleOOM` keeps the caller's bitmap untouched. No member
  states that aliasing fact, beyond the freshness of its result.

## Findings

| source | as written | input that shows it | evidently intended | confidence | as-written member | corrected member |
|---|---|---|---|---|---|---|
| app/src/main/java/com/example/watermark/BitmapUtil.java:395-405 | after an out-of-memory error decodeImage doubles `options.inSampleSize` and retries while it is at most 512 | options with `inSampleSize` 0 (the default, which the watermark task passes at BitmapImageWatermarkTask.java:94-96), on a photo whose decode runs out of memory: 0 doubled is 0, so the loop never ends | at most ten attempts, at factors 1 to 512, then "Failed to decode image" | not executed | RetryLadder.ZeroStartNeverFinishes | Decoding.DecodeImage |
