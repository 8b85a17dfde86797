/** The download engine: the buffer pool's slot array, the smart-cancellation
    body transfer into a temp file, the per-request outcome logic and the
    single-winner gate a download task passes before it runs. */
module Downloader {
  import opened Wrappers
  import opened BufferPools

  /** A byte[] download buffer. */
  type Buffer = array<bv8>

  /** How the response body ends once its chunks are read: end of stream
      (read returns -1), or an IOException from a read or a write. */
  datatype Ending = EndOfStream | ReadFails

  /** The response body as the lengths successive read(buffer) calls return. */
  datatype Body = Body(chunks: seq<nat>, ending: Ending)

  /** HttpClient.HttpResponse; a negative content length means unknown. */
  datatype HttpResponse = HttpResponse(code: int, contentLength: int, body: Body)

  /** What HttpClient.execute does: answer, or throw. */
  datatype Exchange = Responded(response: HttpResponse) | ConnectFailed

  /** The one moment at which the request's owner marks it invalid, relative
      to the downloader's steps: after the response headers arrive, before
      the loop guard that precedes read number `index` (counting from 0),
      after the transfer returns, before the check that guards decoding, or
      never during this download. */
  datatype CancelPoint = Never | AfterResponse | BeforeRead(index: nat) | AfterTransfer | BeforeDecode

  /** How download(request, response) ends: a returned boolean, or an exception. */
  datatype TransferOutcome = Returned(ok: bool) | Threw

  /** The failure the outcome record of download(request) carries. */
  datatype DownloadError = HttpStatus(code: int) | ConnectionFailure | TransferFailure

  /** What download(request) returns (canceled) and which collaborators it
      reached: the HTTP client, the transfer's success, the error it
      recorded, and the decoder. */
  datatype DownloadResult = DownloadResult(canceled: bool, requested: bool, downloaded: bool,
                                           error: Option<DownloadError>, decoded: bool)

  /** The notification posted to the main thread: (downloaded, canceled). */
  datatype Notification = Notification(downloaded: bool, canceled: bool)

  /** The cache files of one request: the "_tmp" file being written and the
      target file, each absent or holding a number of bytes. */
  class CacheFile {
    var temp: Option<nat>
    var target: Option<nat>

    constructor (target: Option<nat>)
      ensures temp == None && this.target == target
    {
      temp := None;
      this.target := target;
    }
  }

  /** The fields of ImageRequest the downloader reads and writes. */
  class ImageRequest {
    var valid: bool
    var prefetch: bool
    var downloadStarted: bool
    var fileSize: int
    const file: CacheFile

    constructor (prefetch: bool, file: CacheFile)
      ensures valid && !downloadStarted && fileSize == 0
      ensures this.prefetch == prefetch && this.file == file
    {
      valid := true;
      this.prefetch := prefetch;
      downloadStarted := false;
      fileSize := 0;
      this.file := file;
    }

    /** Test-and-set of the started flag: true for the first caller only. */
    method StartDownload() returns (won: bool)
      modifies this`downloadStarted
      ensures won == !old(downloadStarted) && downloadStarted
    {
      won := !downloadStarted;
      downloadStarted := true;
    }
  }

  /** The owner of the request acting at step `at`: it clears the flag when
      this is its moment. */
  method ConsumerStep(req: ImageRequest, cancel: CancelPoint, at: CancelPoint)
    modifies req`valid
    ensures req.valid == (old(req.valid) && cancel != at)
  {
    if cancel == at {
      req.valid := false;
    }
  }

  /** The number of bytes in a run of chunks. */
  function Total(chunks: seq<nat>): nat {
    if chunks == [] then 0 else Total(chunks[..|chunks| - 1]) + chunks[|chunks| - 1]
  }

  lemma {:induction false} TotalGrows(chunks: seq<nat>, i: nat, j: nat)
    requires i <= j <= |chunks|
    ensures Total(chunks[..i]) <= Total(chunks[..j])
  {
    if i < j {
      assert chunks[..j][..j - 1] == chunks[..j - 1];
      TotalGrows(chunks, i, j - 1);
    }
  }

  /** One more chunk adds its length to the running total. */
  lemma TotalStep(chunks: seq<nat>, k: nat)
    requires k < |chunks|
    ensures Total(chunks[..k + 1]) == Total(chunks[..k]) + chunks[k]
  {
    assert chunks[..k + 1][..k] == chunks[..k];
  }

  /** The read-loop guard: keep reading while the length is unknown, more
      than half of it has arrived (contentLength * .5f < size), or the
      request is still valid. */
  predicate KeepReading(contentLength: int, size: int, valid: bool) {
    contentLength < 0 || 2 * size > contentLength || valid
  }

  /** The request's validity when the guard before read k is evaluated. */
  function ValidBeforeRead(valid: bool, cancel: CancelPoint, k: nat): bool {
    valid && !(cancel.BeforeRead? && cancel.index <= k)
  }

  /** Why the read loop ended: read returned -1, read threw, or the guard failed. */
  datatype ExitKind = Drained | ReadFailed | Abandoned

  datatype LoopExit = LoopExit(kind: ExitKind, count: nat, size: nat)

  /** The read loop from read k on: it stops at the first guard that fails,
      and otherwise reads every chunk and then meets the body's ending. */
  function ReadLoop(body: Body, contentLength: int, valid: bool, cancel: CancelPoint, k: nat): (e: LoopExit)
    requires k <= |body.chunks|
    ensures k <= e.count <= |body.chunks|
    ensures e.size == Total(body.chunks[..e.count])
    decreases |body.chunks| - k
  {
    var size := Total(body.chunks[..k]);
    if !KeepReading(contentLength, size, ValidBeforeRead(valid, cancel, k)) then LoopExit(Abandoned, k, size)
    else if k == |body.chunks| then
      LoopExit(if body.ending == EndOfStream then Drained else ReadFailed, k, size)
    else ReadLoop(body, contentLength, valid, cancel, k + 1)
  }

  /** Where and why the read loop stops: every guard before the exit holds;
      it is abandoned exactly when the guard at the exit fails; otherwise it
      has read every chunk and drained exactly when the stream ended. */
  lemma {:induction false} ReadLoopSpec(body: Body, contentLength: int, valid: bool, cancel: CancelPoint, k: nat)
    requires k <= |body.chunks|
    ensures var e := ReadLoop(body, contentLength, valid, cancel, k);
            && (forall i :: k <= i < e.count ==>
                  KeepReading(contentLength, Total(body.chunks[..i]), ValidBeforeRead(valid, cancel, i)))
            && (e.kind == Abandoned <==> !KeepReading(contentLength, e.size, ValidBeforeRead(valid, cancel, e.count)))
            && (e.kind != Abandoned ==> e.count == |body.chunks| && (e.kind == Drained <==> body.ending == EndOfStream))
    decreases |body.chunks| - k
  {
    if KeepReading(contentLength, Total(body.chunks[..k]), ValidBeforeRead(valid, cancel, k)) && k < |body.chunks| {
      ReadLoopSpec(body, contentLength, valid, cancel, k + 1);
    }
  }

  /** A guard that holds before a chunk passes the loop on to the next read. */
  lemma ReadLoopStep(body: Body, contentLength: int, valid: bool, cancel: CancelPoint, k: nat)
    requires k < |body.chunks|
    requires KeepReading(contentLength, Total(body.chunks[..k]), ValidBeforeRead(valid, cancel, k))
    ensures ReadLoop(body, contentLength, valid, cancel, k) == ReadLoop(body, contentLength, valid, cancel, k + 1)
  {
  }

  /** The two ways the loop stops at read k: the guard fails, or no chunk is left. */
  lemma ReadLoopStops(body: Body, contentLength: int, valid: bool, cancel: CancelPoint, k: nat)
    requires k <= |body.chunks|
    ensures var size := Total(body.chunks[..k]);
            !KeepReading(contentLength, size, ValidBeforeRead(valid, cancel, k)) ==>
              ReadLoop(body, contentLength, valid, cancel, k) == LoopExit(Abandoned, k, size)
    ensures var size := Total(body.chunks[..k]);
            KeepReading(contentLength, size, ValidBeforeRead(valid, cancel, k)) && k == |body.chunks| ==>
              ReadLoop(body, contentLength, valid, cancel, k)
              == LoopExit(if body.ending == EndOfStream then Drained else ReadFailed, k, size)
  {
  }

  /** What download(request, response) returns or throws. */
  function TransferResult(response: HttpResponse, streamsOpen: bool, renamed: bool, valid: bool, cancel: CancelPoint): TransferOutcome {
    if !streamsOpen then Threw
    else
      match ReadLoop(response.body, response.contentLength, valid, cancel, 0).kind
      case Drained => Returned(renamed)
      case ReadFailed => Threw
      case Abandoned => Returned(false)
  }

  /** The request's validity once download(request, response) is over. */
  function ValidAfterTransfer(response: HttpResponse, streamsOpen: bool, valid: bool, cancel: CancelPoint): bool {
    if !streamsOpen then valid
    else ValidBeforeRead(valid, cancel, ReadLoop(response.body, response.contentLength, valid, cancel, 0).count)
  }

  /** download(request): what it returns and which collaborators it reaches,
      given the request's validity on entry and whether it is a prefetch. */
  function ExpectedDownload(valid: bool, prefetch: bool, exchange: Exchange, streamsOpen: bool, renamed: bool,
                            cancel: CancelPoint): DownloadResult {
    if !valid then DownloadResult(true, false, false, None, false)
    else match exchange
      case ConnectFailed => DownloadResult(false, true, false, Some(ConnectionFailure), false)
      case Responded(response) =>
        if response.code >= 300 then DownloadResult(false, true, false, Some(HttpStatus(response.code)), false)
        else if cancel == AfterResponse then DownloadResult(true, true, false, None, false)
        else match TransferResult(response, streamsOpen, renamed, true, cancel)
          case Threw => DownloadResult(false, true, false, Some(TransferFailure), false)
          case Returned(ok) =>
            var stillValid := ValidAfterTransfer(response, streamsOpen, true, cancel) && cancel != AfterTransfer;
            if !ok then DownloadResult(!stillValid, true, false, None, false)
            else
              var validAtDecode := stillValid && cancel != BeforeDecode;
              DownloadResult(!validAtDecode, true, true, None, validAtDecode && !prefetch)
  }

  /** The first side of smart cancellation: with an unknown length nothing
      but the stream itself ends the transfer. */
  lemma UnknownLengthIsNeverAbandoned(body: Body, contentLength: int, valid: bool, cancel: CancelPoint)
    requires contentLength < 0
    ensures ReadLoop(body, contentLength, valid, cancel, 0).kind != Abandoned
    ensures ReadLoop(body, contentLength, valid, cancel, 0).count == |body.chunks|
  {
    ReadLoopSpec(body, contentLength, valid, cancel, 0);
  }

  /** Smart cancellation, both sides: a request invalidated before read n of
      a body of known length is abandoned right there, after n reads, exactly
      when no more than half of the length has arrived; past the half it is
      read to the end. */
  lemma SmartCancellation(body: Body, contentLength: int, n: nat)
    requires n <= |body.chunks|
    ensures var e := ReadLoop(body, contentLength, true, BeforeRead(n), 0);
            && (e.kind == Abandoned <==> contentLength >= 0 && 2 * Total(body.chunks[..n]) <= contentLength)
            && (e.kind == Abandoned ==> e.count == n && e.size == Total(body.chunks[..n]))
            && (e.kind != Abandoned ==> e.count == |body.chunks|)
  {
    ReadLoopSpec(body, contentLength, true, BeforeRead(n), 0);
    var e := ReadLoop(body, contentLength, true, BeforeRead(n), 0);
    if e.kind == Abandoned {
      assert e.count >= n;
      TotalGrows(body.chunks, n, e.count);
    }
    if contentLength >= 0 && 2 * Total(body.chunks[..n]) <= contentLength {
      assert e.count >= n;
      assert !KeepReading(contentLength, Total(body.chunks[..n]), ValidBeforeRead(true, BeforeRead(n), n));
    }
  }

  /** A request already invalid when the transfer starts, with a known length,
      reads nothing. */
  lemma InvalidBeforeTransferReadsNothing(body: Body, contentLength: int, cancel: CancelPoint)
    requires contentLength >= 0
    ensures ReadLoop(body, contentLength, false, cancel, 0) == LoopExit(Abandoned, 0, 0)
  {
  }

  /** A request that stays valid throughout is read to the end of its body. */
  lemma ValidRequestIsReadToEnd(body: Body, contentLength: int, cancel: CancelPoint)
    requires !(cancel.BeforeRead? && cancel.index <= |body.chunks|)
    ensures ReadLoop(body, contentLength, true, cancel, 0).kind != Abandoned
  {
    ReadLoopSpec(body, contentLength, true, cancel, 0);
  }

  /** A request that is invalid on entry never reaches the HTTP client and is
      reported canceled. */
  lemma InvalidRequestIsNotFetched(prefetch: bool, exchange: Exchange, streamsOpen: bool, renamed: bool, cancel: CancelPoint)
    ensures ExpectedDownload(false, prefetch, exchange, streamsOpen, renamed, cancel)
         == DownloadResult(true, false, false, None, false)
  {
  }

  /** A status code of 300 or more is recorded as an error, is never counted
      as downloaded and never decoded. */
  lemma HttpErrorIsNotDownloaded(prefetch: bool, response: HttpResponse, streamsOpen: bool, renamed: bool, cancel: CancelPoint)
    requires response.code >= 300
    ensures var r := ExpectedDownload(true, prefetch, Responded(response), streamsOpen, renamed, cancel);
            r.requested && r.error == Some(HttpStatus(response.code)) && !r.downloaded && !r.decoded && !r.canceled
  {
  }

  /** The decoder is called exactly when the transfer succeeded, the request
      is still valid after it, and it is not a prefetch; a download is never
      both an error and a success. */
  lemma DecodeOnlyWhenWanted(valid: bool, prefetch: bool, exchange: Exchange, streamsOpen: bool, renamed: bool, cancel: CancelPoint)
    ensures var r := ExpectedDownload(valid, prefetch, exchange, streamsOpen, renamed, cancel);
            && (r.decoded <==> r.downloaded && !r.canceled && !prefetch)
            && (r.downloaded ==> r.requested && r.error == None && exchange.Responded?
                                 && TransferResult(exchange.response, streamsOpen, renamed, true, cancel) == Returned(true))
            && (r.error.Some? ==> !r.downloaded)
  {
  }

  /** End to end: a valid request with a successful response of known length,
      invalidated before read n, finishes the download (and is not decoded)
      when more than half had arrived, and downloads nothing otherwise. */
  lemma SmartCancellationEndToEnd(prefetch: bool, response: HttpResponse, n: nat)
    requires response.code < 300 && response.contentLength >= 0
    requires response.body.ending == EndOfStream && n <= |response.body.chunks|
    ensures var r := ExpectedDownload(true, prefetch, Responded(response), true, true, BeforeRead(n));
            && r.canceled && !r.decoded
            && (r.downloaded <==> 2 * Total(response.body.chunks[..n]) > response.contentLength)
  {
    SmartCancellation(response.body, response.contentLength, n);
    ReadLoopSpec(response.body, response.contentLength, true, BeforeRead(n), 0);
  }

  /** DownloaderImpl: the four-slot buffer array and the download operations. */
  class DownloaderImpl {
    const buffers: array<Option<Buffer>>

    ghost predicate Valid()
      reads this
    {
      buffers.Length == PoolSlots
    }

    constructor ()
      ensures Valid() && fresh(buffers)
      ensures forall i :: 0 <= i < buffers.Length ==> buffers[i].None?
    {
      buffers := new Option<Buffer>[PoolSlots](_ => None);
    }

    /** getBuffer: the buffer in the lowest filled slot, which becomes null,
        or a fresh 2048-byte buffer when every slot is null. */
    method GetBuffer() returns (buffer: Buffer)
      requires Valid()
      modifies buffers
      ensures buffers[..] == Take(old(buffers[..])).1
      ensures Take(old(buffers[..])).0.Some? ==> buffer == Take(old(buffers[..])).0.value
      ensures Take(old(buffers[..])).0.None? ==> fresh(buffer) && buffer.Length == BufferSize
    {
      var found: Option<Buffer> := None;
      for i := 0 to buffers.Length
        invariant buffers[..] == old(buffers[..])
        invariant forall j :: 0 <= j < i ==> buffers[j].None?
      {
        if buffers[i].Some? {
          found := buffers[i];
          buffers[i] := None;
          break;
        }
      }
      if found.None? {
        buffer := new bv8[BufferSize];
      } else {
        buffer := found.value;
      }
    }

    /** returnBuffer: a non-null buffer goes into the lowest null slot, or is
        dropped when there is none; null changes nothing. */
    method ReturnBuffer(buffer: Option<Buffer>)
      requires Valid()
      modifies buffers
      ensures buffer.None? ==> buffers[..] == old(buffers[..])
      ensures buffer.Some? ==> buffers[..] == Put(old(buffers[..]), buffer.value)
    {
      if buffer.Some? {
        for i := 0 to buffers.Length
          invariant buffers[..] == old(buffers[..])
          invariant forall j :: 0 <= j < i ==> buffers[j].Some?
        {
          if buffers[i].None? {
            buffers[i] := buffer;
            break;
          }
        }
      }
    }

    /** The read loop of download(request, response): while the
        smart-cancellation guard holds, read the next chunk and append it to
        the temp file. `len` is the last value read returned (-1 at end of
        stream); `failed` says a read or write threw. */
    method ReadBody(req: ImageRequest, body: Body, contentLength: int, cancel: CancelPoint)
      returns (len: int, size: nat, failed: bool)
      requires req.file.temp == Some(0)
      modifies req`valid, req.file`temp
      ensures var e := ReadLoop(body, contentLength, old(req.valid), cancel, 0);
              && size == e.size
              && (len == -1 <==> e.kind == Drained)
              && (failed <==> e.kind == ReadFailed)
              && req.valid == ValidBeforeRead(old(req.valid), cancel, e.count)
      ensures req.file.temp == Some(size)
    {
      len, size, failed := 0, 0, false;
      var chunks := body.chunks;
      ghost var valid0 := old(req.valid);
      ghost var e := ReadLoop(body, contentLength, valid0, cancel, 0);
      var k: nat := 0;
      while true
        invariant k <= |chunks| && len >= 0 && !failed
        invariant size == Total(chunks[..k]) && req.file.temp == Some(size)
        invariant req.valid == (valid0 && !(cancel.BeforeRead? && cancel.index < k))
        invariant ReadLoop(body, contentLength, valid0, cancel, k) == e
        decreases |chunks| - k
      {
        ConsumerStep(req, cancel, BeforeRead(k));
        assert req.valid == ValidBeforeRead(valid0, cancel, k);
        ReadLoopStops(body, contentLength, valid0, cancel, k);
        if !KeepReading(contentLength, size, req.valid) {
          assert e == LoopExit(Abandoned, k, size);
          break;
        }
        if k == |chunks| {
          if body.ending == EndOfStream {
            len := -1;
          } else {
            failed := true;
          }
          assert e.count == k && e.kind != Abandoned;
          break;
        }
        ReadLoopStep(body, contentLength, valid0, cancel, k);
        len := chunks[k];
        TotalStep(chunks, k);
        size := size + len;
        req.file.temp := Some(size);
        k := k + 1;
      }
    }

    /** download(request, response): stream the body into the temp file; on
        end of stream rename the temp file onto the target and record the
        size. Whatever the exit, the temp file is deleted and the buffer goes
        back to the pool. `streamsOpen` says whether the body stream and the
        temp file opened, `renamed` whether the rename succeeds. */
    method Transfer(req: ImageRequest, response: HttpResponse, streamsOpen: bool, renamed: bool, cancel: CancelPoint)
      returns (outcome: TransferOutcome, ghost buffer: Option<Buffer>)
      requires Valid()
      modifies buffers, req`valid, req`fileSize, req.file
      ensures outcome == TransferResult(response, streamsOpen, renamed, old(req.valid), cancel)
      ensures req.valid == ValidAfterTransfer(response, streamsOpen, old(req.valid), cancel)
      ensures var e := ReadLoop(response.body, response.contentLength, old(req.valid), cancel, 0);
              outcome == Returned(true) ==> req.fileSize == e.size && req.file.target == Some(e.size)
      ensures outcome != Returned(true) ==> req.fileSize == old(req.fileSize) && req.file.target == old(req.file.target)
      ensures req.file.temp == None
      ensures buffer.Some? <==> streamsOpen
      ensures buffer.None? ==> buffers[..] == old(buffers[..])
      ensures buffer.Some? ==> buffers[..] == Put(Take(old(buffers[..])).1, buffer.value)
      ensures buffer.Some? && Take(old(buffers[..])).0.Some? ==> buffer.value == Take(old(buffers[..])).0.value
      ensures buffer.Some? && Take(old(buffers[..])).0.None? ==> fresh(buffer.value) && buffer.value.Length == BufferSize
    {
      var taken: Option<Buffer> := None;
      if !streamsOpen {
        outcome := Threw;
      } else {
        req.file.temp := Some(0);
        var b := GetBuffer();
        taken := Some(b);
        var len, size, failed := ReadBody(req, response.body, response.contentLength, cancel);
        if failed {
          outcome := Threw;
        } else if len == -1 && renamed {
          req.file.target := Some(size);
          req.file.temp := None;
          req.fileSize := size;
          outcome := Returned(true);
        } else {
          outcome := Returned(false);
        }
      }
      req.file.temp := None;
      ReturnBuffer(taken);
      buffer := taken;
    }

    /** download(request): check validity, fetch, check the status code and
        validity again, transfer the body, and decode a still valid,
        non-prefetch request whose transfer succeeded; returns whether the
        request ended canceled, with the collaborators it reached. */
    method Download(req: ImageRequest, exchange: Exchange, streamsOpen: bool, renamed: bool, cancel: CancelPoint)
      returns (r: DownloadResult, ghost buffer: Option<Buffer>)
      requires Valid()
      modifies buffers, req`valid, req`fileSize, req.file
      ensures r == ExpectedDownload(old(req.valid), req.prefetch, exchange, streamsOpen, renamed, cancel)
      ensures req.valid ==> old(req.valid)
      ensures r.downloaded ==> req.fileSize == Total(exchange.response.body.chunks)
                               && req.file.target == Some(req.fileSize)
      ensures !r.downloaded ==> req.fileSize == old(req.fileSize) && req.file.target == old(req.file.target)
      ensures req.file.temp != old(req.file.temp) ==> req.file.temp == None
      ensures !r.requested ==> req.file.temp == old(req.file.temp)
      ensures buffer.Some? ==> r.requested && streamsOpen
      ensures r.downloaded ==> buffer.Some?
      ensures buffer.None? ==> buffers[..] == old(buffers[..])
      ensures buffer.Some? ==> buffers[..] == Put(Take(old(buffers[..])).1, buffer.value)
      ensures buffer.Some? && Take(old(buffers[..])).0.Some? ==> buffer.value == Take(old(buffers[..])).0.value
      ensures Held(buffers[..]) == if buffer.Some? && Held(old(buffers[..])) == 0 then 1 else Held(old(buffers[..]))
    {
      buffer := None;
      var canceled, requested, downloaded, decoded := false, false, false, false;
      var error: Option<DownloadError> := None;
      canceled := !req.valid;
      if !canceled {
        requested := true;
        match exchange
        case ConnectFailed =>
          error := Some(ConnectionFailure);
        case Responded(response) =>
          if response.code < 300 {
            ConsumerStep(req, cancel, AfterResponse);
            canceled := !req.valid;
            if !canceled {
              var outcome;
              outcome, buffer := Transfer(req, response, streamsOpen, renamed, cancel);
              if buffer.Some? {
                TakeThenPutKeepsBuffers(old(buffers[..]), buffer.value);
              }
              if outcome == Threw {
                error := Some(TransferFailure);
              } else {
                downloaded := outcome.ok;
                ConsumerStep(req, cancel, AfterTransfer);
                canceled := !req.valid;
                if outcome.ok {
                  CompletedTransferSize(response, streamsOpen, renamed, cancel);
                }
              }
            }
          } else {
            error := Some(HttpStatus(response.code));
          }
      }
      if downloaded {
        ConsumerStep(req, cancel, BeforeDecode);
        canceled := !req.valid;
        if !canceled {
          canceled := false;
          if !req.prefetch {
            decoded := true;
          }
        }
      }
      r := DownloadResult(canceled, requested, downloaded, error, decoded);
    }

    /** The task downloadAsync queues: it runs the download only when the
        submission is a prefetch or the request is not one, and it wins the
        started flag; then it posts (fileSize > 0, canceled). Otherwise it
        changes nothing and posts nothing. */
    method RunDownloadTask(req: ImageRequest, prefetch: bool, exchange: Exchange, streamsOpen: bool, renamed: bool,
                           cancel: CancelPoint)
      returns (posted: Option<Notification>)
      requires Valid()
      modifies buffers, req`valid, req`fileSize, req`downloadStarted, req.file
      ensures posted.Some? <==> (prefetch || !req.prefetch) && !old(req.downloadStarted)
      ensures posted.Some? ==> req.downloadStarted
      ensures posted.Some? ==> posted.value == Notification(
                req.fileSize > 0,
                ExpectedDownload(old(req.valid), req.prefetch, exchange, streamsOpen, renamed, cancel).canceled)
      ensures posted.Some? ==>
                var r := ExpectedDownload(old(req.valid), req.prefetch, exchange, streamsOpen, renamed, cancel);
                && req.fileSize == (if r.downloaded then Total(exchange.response.body.chunks) else old(req.fileSize))
                && req.file.target == (if r.downloaded then Some(Total(exchange.response.body.chunks))
                                       else old(req.file.target))
      ensures req.file.temp != old(req.file.temp) ==> req.file.temp == None
      ensures posted.Some? ==> Held(buffers[..]) >= Held(old(buffers[..]))
      ensures posted.None? ==> unchanged(req, req.file) && buffers[..] == old(buffers[..])
    {
      if prefetch || !req.prefetch {
        var won := req.StartDownload();
        if won {
          var r, _ := Download(req, exchange, streamsOpen, renamed, cancel);
          posted := Some(Notification(req.fileSize > 0, r.canceled));
          return;
        }
      }
      posted := None;
    }

    /** Two tasks for the same request, from the prefetch queue and the
        on-demand queue in either order: at most one of them downloads. */
    method SubmitTwice(req: ImageRequest, firstPrefetch: bool, secondPrefetch: bool, exchange: Exchange,
                       streamsOpen: bool, renamed: bool, cancel: CancelPoint)
      returns (first: Option<Notification>, second: Option<Notification>)
      requires Valid()
      modifies buffers, req`valid, req`fileSize, req`downloadStarted, req.file
      ensures !(first.Some? && second.Some?)
      ensures old(req.downloadStarted) ==> first.None? && second.None?
    {
      first := RunDownloadTask(req, firstPrefetch, exchange, streamsOpen, renamed, cancel);
      second := RunDownloadTask(req, secondPrefetch, exchange, streamsOpen, renamed, cancel);
    }
  }

  /** The bytes a successful transfer records are the whole body. */
  lemma CompletedTransferSize(response: HttpResponse, streamsOpen: bool, renamed: bool, cancel: CancelPoint)
    requires TransferResult(response, streamsOpen, renamed, true, cancel) == Returned(true)
    ensures ReadLoop(response.body, response.contentLength, true, cancel, 0).size == Total(response.body.chunks)
  {
    ReadLoopSpec(response.body, response.contentLength, true, cancel, 0);
    assert response.body.chunks[..|response.body.chunks|] == response.body.chunks;
  }
}
