# Fast image loader: download engine, spec builder and URL enhancers in Dafny

This project models the core of an Android image loader that downloads remote
images into a disk cache and hands them to a decoder:

- the **buffer pool** of `DownloaderImpl`, a fixed array of four reusable
  2048-byte buffers. `getBuffer` takes from the lowest filled slot or
  allocates. `returnBuffer` fills the lowest empty slot or drops the buffer;
- the **body transfer** `download(request, response)`. It streams the
  response into a `_tmp` file under the smart-cancellation guard
  `contentLength < 0 || contentLength * .5f < size || request.isValid()`.
  On end of stream it renames the temp file onto the target and records
  `fileSize`. It always deletes the temp file and returns the buffer;
- the **outcome logic** of `download(request)`. It checks validity, calls the
  HTTP client, checks the status code, transfers the body, and decodes only a
  still-valid, non-prefetch request. The same section covers the gate a
  `downloadAsync` task passes before it runs;
- **ImageLoadSpecBuilder**: its setters, the `maxDensity > 0.5` rule, and
  `build()`, which validates the dimensions and applies the density cap;
- the two **URL enhancers**: identity, and the imgIX query-parameter builder.

Files: `Wrappers.dfy` (Option, Result), `ImageLoadSpecs.dfy`,
`UriEnhancers.dfy` (modules `Decimal` and `UriEnhancers`), `BufferPools.dfy`
(what the pool operations do to the slot sequence) and `Downloader.dfy`
(classes `CacheFile`, `ImageRequest` and `DownloaderImpl`).

How the environment is modelled:

- The HTTP client's answer is a parameter. It is an `Exchange`: a response
  with status code, content length and body, or a thrown exception.
- The body is the list of lengths successive `read(buffer)` calls return. It
  then either ends (`read` returns -1) or throws.
- Opening the body stream and the temp file is one boolean (`streamsOpen`).
  The rename is another (`renamed`). Both are free parameters.
- The request's owner may clear `valid` at any time. A `CancelPoint` names
  the one moment this happens relative to the downloader's steps: after the
  headers, before the guard of read `n`, after the transfer, before the
  decode check, or never. `ConsumerStep` applies it at each of these points.
- The cache files are a `CacheFile` object: the temp file and the target
  file, each absent or holding a byte count.
- The decoder and the HTTP client are not run. `DownloadResult` records
  whether each was reached (`requested`, `decoded`), together with the
  returned `canceled`, the transfer's success and the logged error.
- `build()` reads the display density from a global. Here it is a parameter.
- Float arithmetic is idealised. The density factor is a `real`, and the
  float cast is `.Floor`. The guard `contentLength * .5f < size` is the
  integer test `2 * size > contentLength`.

The pure specification functions are `ReadLoop` (where the read loop stops
and why), `TransferResult`, `ValidAfterTransfer`, `ExpectedDownload`, `Take`,
`Put`, `BuildSpec`/`BuildSpecAsWritten` and `ImgIXEnhance`. The methods are
proved against them, and the lemmas state their properties.

## Model

| member | source | states |
|---|---|---|
| `BufferPools.FirstFilled` | fastimageloader/src/main/java/com/theartofdev/fastimageloader/impl/DownloaderImpl.java:235-241 | the index getBuffer stops at is the lowest filled slot; every slot before it is null |
| `BufferPools.FirstEmpty` | fastimageloader/src/main/java/com/theartofdev/fastimageloader/impl/DownloaderImpl.java:255-260 | the index returnBuffer stops at is the lowest null slot; every slot before it is filled |
| `BufferPools.Held` | fastimageloader/src/main/java/com/theartofdev/fastimageloader/impl/DownloaderImpl.java:70 | the pool never holds more buffers than it has slots; it is empty exactly when no slot is filled and full exactly when none is null |
| `BufferPools.TakeSpec` | fastimageloader/src/main/java/com/theartofdev/fastimageloader/impl/DownloaderImpl.java:232-247 | acquiring from a non-empty pool takes the buffer of the lowest filled slot, nulls that slot only and holds one buffer fewer; from an empty pool it changes nothing and the caller allocates |
| `BufferPools.PutSpec` | fastimageloader/src/main/java/com/theartofdev/fastimageloader/impl/DownloaderImpl.java:252-263 | releasing into a pool with room fills the lowest null slot only and holds one buffer more; into a full pool it drops the buffer and changes nothing; the pool never exceeds its slots |
| `BufferPools.ReleaseThenAcquireReuses` | fastimageloader/src/main/java/com/theartofdev/fastimageloader/impl/DownloaderImpl.java:232-263 | after any release the next acquire reuses a pooled buffer rather than allocating (a full pool drops the released one but stays full); from an empty pool it gets the released buffer back and the pool is empty again |
| `BufferPools.TakeThenPutKeepsBuffers` | fastimageloader/src/main/java/com/theartofdev/fastimageloader/impl/DownloaderImpl.java:202-224 | a transfer that acquires and then returns its buffer leaves the pool holding as many buffers as before, or the one it allocated: no pooled buffer leaks |
| `Downloader.DownloaderImpl.constructor` | fastimageloader/src/main/java/com/theartofdev/fastimageloader/impl/DownloaderImpl.java:70 | the buffer array has four slots, all null |
| `Downloader.DownloaderImpl.GetBuffer` | fastimageloader/src/main/java/com/theartofdev/fastimageloader/impl/DownloaderImpl.java:232-247 | the for loop's result is `Take` of the old slots: the lowest filled slot's buffer with that slot nulled, or a fresh 2048-byte buffer with the slots untouched; only the slot array changes |
| `Downloader.DownloaderImpl.ReturnBuffer` | fastimageloader/src/main/java/com/theartofdev/fastimageloader/impl/DownloaderImpl.java:252-263 | null leaves the slots unchanged; a buffer gives `Put` of the old slots; only the slot array changes |
| `Downloader.ImageRequest.StartDownload` | fastimageloader/src/main/java/com/theartofdev/fastimageloader/impl/DownloaderImpl.java:107 | test-and-set: true exactly for the first caller, and the flag is set afterwards |
| `Downloader.ReadLoop` | fastimageloader/src/main/java/com/theartofdev/fastimageloader/impl/DownloaderImpl.java:200-209 | the loop stops between the read it starts from and the last chunk, and the size it reports is the sum of the chunks read so far |
| `Downloader.ReadLoopSpec` | fastimageloader/src/main/java/com/theartofdev/fastimageloader/impl/DownloaderImpl.java:200-209 | every guard before the exit holds; the loop is abandoned exactly when the guard at the exit fails; otherwise it has read every chunk and ends drained exactly on end of stream, failed on the read that throws |
| `Downloader.UnknownLengthIsNeverAbandoned` | fastimageloader/src/main/java/com/theartofdev/fastimageloader/impl/DownloaderImpl.java:204-206 | with a negative content length, invalidation never stops the loop: every chunk is read |
| `Downloader.SmartCancellation` | fastimageloader/src/main/java/com/theartofdev/fastimageloader/impl/DownloaderImpl.java:204-209 | a request invalidated before read n of a known-length body is abandoned if and only if at most half of the length has arrived by then; it is abandoned there, after exactly n reads, and otherwise is read to the end |
| `Downloader.InvalidBeforeTransferReadsNothing` | fastimageloader/src/main/java/com/theartofdev/fastimageloader/impl/DownloaderImpl.java:206 | with a known length, a request already invalid when the loop starts reads nothing |
| `Downloader.ValidRequestIsReadToEnd` | fastimageloader/src/main/java/com/theartofdev/fastimageloader/impl/DownloaderImpl.java:206 | a request that stays valid through the loop is never abandoned |
| `Downloader.DownloaderImpl.ReadBody` | fastimageloader/src/main/java/com/theartofdev/fastimageloader/impl/DownloaderImpl.java:200-209 | the while loop ends as `ReadLoop` says: len is -1 exactly on end of stream, it fails exactly when a read throws, size is the bytes read and appended to the temp file, and the request's validity is as the consumer left it at the last guard |
| `Downloader.DownloaderImpl.Transfer` | fastimageloader/src/main/java/com/theartofdev/fastimageloader/impl/DownloaderImpl.java:190-227 | returns true only on end of stream with a successful rename, and then fileSize and the target file hold the bytes read; every other exit returns false or throws and leaves fileSize and the target untouched; on every path the temp file is gone and the acquired buffer is back in the pool |
| `Downloader.CompletedTransferSize` | fastimageloader/src/main/java/com/theartofdev/fastimageloader/impl/DownloaderImpl.java:211-214 | a transfer that returns true has read the whole body, so the recorded size is the body's total length |
| `Downloader.InvalidRequestIsNotFetched` | fastimageloader/src/main/java/com/theartofdev/fastimageloader/impl/DownloaderImpl.java:138-139 | a request invalid on entry never reaches the HTTP client, records no error and returns canceled |
| `Downloader.HttpErrorIsNotDownloaded` | fastimageloader/src/main/java/com/theartofdev/fastimageloader/impl/DownloaderImpl.java:145-157 | a status code of 300 or more is recorded as an error with that code, is not downloaded, not decoded and not canceled |
| `Downloader.DecodeOnlyWhenWanted` | fastimageloader/src/main/java/com/theartofdev/fastimageloader/impl/DownloaderImpl.java:164-177 | decode is called if and only if the transfer succeeded, the request is valid at the final check and it is not a prefetch; a download is never both an error and a success |
| `Downloader.SmartCancellationEndToEnd` | fastimageloader/src/main/java/com/theartofdev/fastimageloader/impl/DownloaderImpl.java:131-180 | a request invalidated during the body is reported canceled and is not decoded; its file is committed if and only if more than half the known length had arrived |
| `Downloader.DownloaderImpl.Download` | fastimageloader/src/main/java/com/theartofdev/fastimageloader/impl/DownloaderImpl.java:131-180 | the result is `ExpectedDownload` of the entry state; fileSize and the target change only when the transfer succeeded, to the body's length; a temp file is only ever removed; the pool is untouched unless the body was opened, and then ends as `Put` of `Take` of the old slots, holding as many buffers as before (or the one allocated) |
| `Downloader.DownloaderImpl.RunDownloadTask` | fastimageloader/src/main/java/com/theartofdev/fastimageloader/impl/DownloaderImpl.java:101-122 | a notification is posted if and only if the submission is a prefetch or the request is not, and the started flag was clear; it carries (fileSize > 0, canceled), where fileSize is the body's total when the download succeeded and the old size otherwise, and the target file follows it; no pooled buffer is lost; otherwise nothing at all changes |
| `Downloader.DownloaderImpl.SubmitTwice` | fastimageloader/src/main/java/com/theartofdev/fastimageloader/impl/DownloaderImpl.java:106-107 | two tasks for one request, from either queue: at most one runs the download body, and none runs once the request was started |
| `ImageLoadSpecs.ImageLoadSpecBuilder.constructor` | fastimageloader/src/main/java/com/theartofdev/fastimageloader/ImageLoadSpecBuilder.java:29-52 | a fresh builder has width and height -1, cap 1.5, JPEG and ARGB_8888 |
| `ImageLoadSpecs.UnsetDimensionsDoNotBuild` | fastimageloader/src/main/java/com/theartofdev/fastimageloader/ImageLoadSpecBuilder.java:170-171 | with the default -1 dimensions build() fails with the unset-dimensions error, whatever the display |
| `ImageLoadSpecs.ImageLoadSpecBuilder.SetFormat` | fastimageloader/src/main/java/com/theartofdev/fastimageloader/ImageLoadSpecBuilder.java:58-61 | stores the format, changes no other field, returns the builder |
| `ImageLoadSpecs.ImageLoadSpecBuilder.SetPixelConfig` | fastimageloader/src/main/java/com/theartofdev/fastimageloader/ImageLoadSpecBuilder.java:66-69 | stores the pixel layout, changes no other field, returns the builder |
| `ImageLoadSpecs.ImageLoadSpecBuilder.SetUnboundDimension` | fastimageloader/src/main/java/com/theartofdev/fastimageloader/ImageLoadSpecBuilder.java:83-87 | sets both dimensions to 0 and nothing else |
| `ImageLoadSpecs.ImageLoadSpecBuilder.SetDimension` | fastimageloader/src/main/java/com/theartofdev/fastimageloader/ImageLoadSpecBuilder.java:92-96 | sets both dimensions to the size and nothing else |
| `ImageLoadSpecs.ImageLoadSpecBuilder.SetDimensions` | fastimageloader/src/main/java/com/theartofdev/fastimageloader/ImageLoadSpecBuilder.java:101-105 | sets width and height and nothing else |
| `ImageLoadSpecs.ImageLoadSpecBuilder.SetWidth` | fastimageloader/src/main/java/com/theartofdev/fastimageloader/ImageLoadSpecBuilder.java:110-113 | sets the width only |
| `ImageLoadSpecs.ImageLoadSpecBuilder.SetHeight` | fastimageloader/src/main/java/com/theartofdev/fastimageloader/ImageLoadSpecBuilder.java:118-121 | sets the height only |
| `ImageLoadSpecs.ImageLoadSpecBuilder.SetMaxDensity` | fastimageloader/src/main/java/com/theartofdev/fastimageloader/ImageLoadSpecBuilder.java:159-164 | a cap at or below 0.5 is an invalid-argument failure that leaves the stored cap; any other cap is stored; the cap stays above 0.5 |
| `ImageLoadSpecs.ImageLoadSpecBuilder.Build` | fastimageloader/src/main/java/com/theartofdev/fastimageloader/ImageLoadSpecBuilder.java:169-177 | succeeds exactly when the fields are unbound or both positive, failing with the unset error for a negative dimension and the mixed error otherwise; the built spec has each dimension equal to floor(dim * adjustment), between 0 and the request, and keeps format and pixel layout |
| `ImageLoadSpecs.DensityAdjustment` | fastimageloader/src/main/java/com/theartofdev/fastimageloader/ImageLoadSpecBuilder.java:175 | the factor lies in (0, 1], and is below 1 exactly when the display is denser than the cap |
| `ImageLoadSpecs.BuildAcceptsExactlyWellShaped` | fastimageloader/src/main/java/com/theartofdev/fastimageloader/ImageLoadSpecBuilder.java:170-173 | build succeeds if and only if the dimensions are 0 x 0 or both positive; a negative one gives the unset error, a mixed zero/positive pair the mixed error |
| `ImageLoadSpecs.BuildSpecAsWritten` | fastimageloader/src/main/java/com/theartofdev/fastimageloader/ImageLoadSpecBuilder.java:169-177 | the source's build: success if and only if the shape is valid, the unset error exactly for a negative dimension, the mixed error exactly for a zero beside a positive; a built spec lies between 0 and the request and keeps format and pixel layout |
| `ImageLoadSpecs.BuildKeepsDimensionsUpToCap` | fastimageloader/src/main/java/com/theartofdev/fastimageloader/ImageLoadSpecBuilder.java:175-176 | when the display density is at most the cap, the spec keeps the requested width and height |
| `ImageLoadSpecs.BuildScalesAboveCap` | fastimageloader/src/main/java/com/theartofdev/fastimageloader/ImageLoadSpecBuilder.java:175-176 | above the cap each dimension of the built spec is exactly floor(dim * cap / density), 0 included, between 0 and the request; format and pixel layout are kept |
| `ImageLoadSpecs.CorrectedBuildScalesAboveCap` | fastimageloader/src/main/java/com/theartofdev/fastimageloader/ImageLoadSpecBuilder.java:175-176 | the corrected build takes the same floor, raised to one pixel only where a positive dimension would reach 0, and so keeps a valid shape within the request |
| `ImageLoadSpecs.DensityScalingExamples` | fastimageloader/src/main/java/com/theartofdev/fastimageloader/ImageLoadSpecBuilder.java:175-176 | 200 x 200 becomes 150 x 150 at density 2.0 with cap 1.5 and stays 200 x 200 at density 1.0 |
| `ImageLoadSpecs.AsWrittenBuildsMixedSpec` | fastimageloader/src/main/java/com/theartofdev/fastimageloader/ImageLoadSpecBuilder.java:175-176 | the source's scaling turns 1 x 2 into 0 x 1 and 1 x 1 into 0 x 0 at density 3.0 with cap 1.5 |
| `ImageLoadSpecs.BuiltSpecIsWellShaped` | fastimageloader/src/main/java/com/theartofdev/fastimageloader/ImageLoadSpecBuilder.java:169-177 | on every well-shaped request the corrected build succeeds, and its spec is unbound or both positive and fits in the request |
| `ImageLoadSpecs.BuildAgreesWithAsWritten` | fastimageloader/src/main/java/com/theartofdev/fastimageloader/ImageLoadSpecBuilder.java:175-176 | the corrected build equals the source's build unless that one took a positive dimension down to 0 |
| `Decimal.Digits` | fastimageloader/src/main/java/com/theartofdev/fastimageloader/UriEnhancerImgIX.java:37-38 | the decimal text of a non-negative int is non-empty, all digits, with no leading zero |
| `Decimal.DigitsValueOfDigits` | fastimageloader/src/main/java/com/theartofdev/fastimageloader/UriEnhancerImgIX.java:37-38 | reading the digits back gives the number |
| `Decimal.DecimalString` | fastimageloader/src/main/java/com/theartofdev/fastimageloader/UriEnhancerImgIX.java:37-38 | append(int) writes a non-empty text with no '=' and no '&' |
| `Decimal.ParseDecimalString` | fastimageloader/src/main/java/com/theartofdev/fastimageloader/UriEnhancerImgIX.java:37-38 | parsing the text append(int) writes gives back the int, negative values included |
| `UriEnhancers.IdentityEnhance` | fastimageloader/src/main/java/com/theartofdev/fastimageloader/UriEnhancerIdentity.java:21-23 | the result is the input URL |
| `UriEnhancers.IdentityIgnoresSpec` | fastimageloader/src/main/java/com/theartofdev/fastimageloader/UriEnhancerIdentity.java:21-23 | the result does not depend on the spec |
| `UriEnhancers.IdentityIdempotent` | fastimageloader/src/main/java/com/theartofdev/fastimageloader/UriEnhancerIdentity.java:21-23 | applying identity twice equals applying it once |
| `UriEnhancers.ImgIXAfterIdentity` | fastimageloader/src/main/java/com/theartofdev/fastimageloader/UriEnhancerIdentity.java:21-23 | imgIX after identity equals imgIX alone |
| `UriEnhancers.ImgIXEnhance` | fastimageloader/src/main/java/com/theartofdev/fastimageloader/UriEnhancerImgIX.java:22-40 | the output is longer than the URL and starts with it, the next character is '&' exactly when the URL already has a '?', and it ends with fit=crop&w=<width>&h=<height> |
| `UriEnhancers.ImgIXKeepsUrl` | fastimageloader/src/main/java/com/theartofdev/fastimageloader/UriEnhancerImgIX.java:23 | the input URL, query string included, is an unchanged proper prefix of the output |
| `UriEnhancers.ImgIXSeparator` | fastimageloader/src/main/java/com/theartofdev/fastimageloader/UriEnhancerImgIX.java:25-26 | the character after the URL is '&' if the URL contains '?', else '?' |
| `UriEnhancers.ImgIXFormatParam` | fastimageloader/src/main/java/com/theartofdev/fastimageloader/UriEnhancerImgIX.java:28-33 | JPEG, PNG and WEBP add auto=jpeg&, auto=png& and auto=webp&; a null format adds nothing and fit=crop& follows the separator |
| `UriEnhancers.ImgIXEndsWithSize` | fastimageloader/src/main/java/com/theartofdev/fastimageloader/UriEnhancerImgIX.java:35-39 | the output always ends with fit=crop&w=<width>&h=<height> in decimal |
| `UriEnhancers.ImgIXExample` | fastimageloader/src/main/java/com/theartofdev/fastimageloader/UriEnhancerImgIX.java:22-40 | http://x/img with a JPEG 100 x 50 spec gives http://x/img?auto=jpeg&fit=crop&w=100&h=50 |
| `UriEnhancers.ImgIXExampleWithQuery` | fastimageloader/src/main/java/com/theartofdev/fastimageloader/UriEnhancerImgIX.java:22-40 | http://x/img?a=1 with the same spec gives http://x/img?a=1&auto=jpeg&fit=crop&w=100&h=50 |
| `UriEnhancers.ImgIXSizeRoundTrip` | fastimageloader/src/main/java/com/theartofdev/fastimageloader/UriEnhancerImgIX.java:37-38 | for every URL and format, a reader that takes the text after the last '=' as the height and the text after the '=' before "&h" as the width gets back exactly the spec's width and height |
| `UriEnhancers.EnhancePreservesUrl` | fastimageloader/src/main/java/com/theartofdev/fastimageloader/UriEnhancerImgIX.java:23 | both strategies keep the original URL, with any query string, as a prefix of the fetched URL |

## Left out

- Thread pools, the main-thread `Handler` and the atomicity of `startDownload` are concurrency; the gate is a sequential test-and-set, and `SubmitTwice` runs two tasks one after the other.
- `HttpClient.execute`, `Decoder.decode` and `MemoryPool` are foreign collaborators. The client's answer is a parameter; the decode call is the `decoded` flag. An exception thrown by `decode` escapes `download(request)`, and no callback is posted. That path is not modelled.
- File I/O is reduced to byte counts in `CacheFile`. Byte contents are not tracked, and neither is what `read` writes into the buffer. Failing to open the body stream or the temp file is the single `streamsOpen` flag. Any failing `read` or `write` is the `ReadFails` ending of the body.
- `FILLogger` calls, including the operation record, and the `System.currentTimeMillis` timing are logging.
- IEEE float: the density factor is a real and the `(int)` cast is `.Floor`. The guard `contentLength * .5f < size` is computed exactly in integers. This differs from the float result only for lengths above 2^24.
- Downloader.DownloaderImpl.ReadBody: `size` is an unbounded integer. The source's `int size` would wrap for bodies over 2 GiB.
- Downloader.DownloaderImpl.Download: states only that the validity flag never turns back on, not its exact final value.
- The request's owner clears `valid` at most once during a download (`CancelPoint`), and the flag is never set back to true. ImageRequest.java is not part of this model. Its initial state is taken to be valid, not started and `fileSize` 0.
- `setDimensionByDisplay` and the `*ByResource` setters read Android globals and resources, so they are not modelled.
- TargetImageViewBitmapHandler.java only binds a bitmap to an `ImageView`, so it is not modelled.

## Findings

| source | as written | input that shows it | evidently intended | confidence | as-written member | corrected member |
|---|---|---|---|---|---|---|
| fastimageloader/src/main/java/com/theartofdev/fastimageloader/ImageLoadSpecBuilder.java:175-176 | each scaled dimension is cast down, so a small positive dimension becomes 0 | width 1, height 2, display density 3.0, cap 1.5: the spec is 0 x 1, a mixed shape that line 172 rejects on input; 1 x 1 becomes 0 x 0, which means unbound | a positive requested dimension stays at least one pixel, so the built spec is unbound or both positive | medium, not executed | `ImageLoadSpecs.AsWrittenBuildsMixedSpec` | `ImageLoadSpecs.BuiltSpecIsWellShaped` |
