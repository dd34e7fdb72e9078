/**
 * The fetch worker TileWorker: payload validation, the classification of a download
 * attempt, the blocking retry loop, the asynchronous retry with exponential backoff, the
 * retry configuration and the loading of a cached tile.
 *
 * The network is abstracted to the reply's outcome and the disk to what a save or a load
 * observes; every signal the worker emits is appended to `log`, and the single-shot timers
 * of the asynchronous path to `timers`.
 */
module TileWork {
  import opened Wrappers
  import opened TileGeometry

  newtype byte = b: int | 0 <= b < 256

  /** The first four bytes of every PNG file. */
  const PngSignature: seq<byte> := [0x89, 0x50, 0x4E, 0x47]

  /** The attempt bound of the blocking path. */
  const BlockingAttempts: nat := 3

  /** The retry configuration a new worker starts with. */
  const DefaultRetryMax: int := 3
  const DefaultBackoffMs: int := 3000

  predicate StartsWith(data: seq<byte>, prefix: seq<byte>)
  {
    |prefix| <= |data| && data[..|prefix|] == prefix
  }

  /** A downloaded payload is kept only when it is non-empty and starts like a PNG file. */
  predicate AcceptablePayload(data: seq<byte>)
  {
    |data| > 0 && StartsWith(data, PngSignature)
  }

  /** The emptiness test is implied by the signature test: it only selects the message. */
  lemma AcceptableIsSigned(data: seq<byte>)
    ensures AcceptablePayload(data) <==> StartsWith(data, PngSignature)
    ensures AcceptablePayload(data) ==> |data| >= 4 && data[0] == 0x89 && data[1] == 0x50 && data[2] == 0x4E && data[3] == 0x47
  {
    if StartsWith(data, PngSignature) {
      assert data[..4][0] == data[0];
    }
  }

  /** How one network request ends. */
  datatype Reply =
    | Ok(data: seq<byte>)
    | NotFound               // ContentNotFoundError, the 404
    | OtherError(message: string)
    | Timeout                // the 30 s guard fired before the reply finished

  /**
   * What saving a payload observes: whether the tile's directory exists or can be created,
   * whether the file opens for writing, and how many bytes the write reports.
   */
  datatype Disk = Disk(dirReady: bool, opens: bool, written: int)

  /** A file as loadTileFromFile finds it. */
  datatype CacheFile = Absent | Unopenable(error: string) | Stored(contents: seq<byte>)

  datatype Signal =
    | TileDownloaded(key: TileKey, data: seq<byte>, success: bool, error: string)
    | TileLoadedBytes(key: TileKey, data: seq<byte>, success: bool, error: string)

  // ---------------------------------------------------------------------------
  // The blocking path: performDownload and the loop around it.

  /** What one performDownload call comes to. */
  datatype Outcome = Saved(data: seq<byte>) | Absent404 | Retryable

  /** Whether the whole payload was stored. */
  predicate SavedWhole(data: seq<byte>, disk: Disk)
  {
    disk.dirReady && disk.opens && disk.written == |data|
  }

  /** performDownload's classification of a reply and the save that follows it. */
  function Classify(reply: Reply, disk: Disk): Outcome
  {
    match reply
    case Timeout => Retryable
    case NotFound => Absent404
    case OtherError(_) => Retryable
    case Ok(data) =>
      if |data| == 0 then Retryable
      else if !StartsWith(data, PngSignature) then Retryable
      else if !disk.dirReady then Retryable
      else if !disk.opens then Retryable
      else if disk.written != |data| then Retryable
      else Saved(data)
  }

  /** The signal performDownload emits for an outcome: none for a retryable one. */
  function Report(k: TileKey, o: Outcome): seq<Signal>
  {
    match o
    case Saved(data) => [TileDownloaded(k, data, true, "")]
    case Absent404 => [TileDownloaded(k, [], false, "Tile not found (404)")]
    case Retryable => []
  }

  /** performDownload's result: true exactly when no retry is wanted. */
  predicate Done(t: (Reply, Disk))
  {
    !Classify(t.0, t.1).Retryable?
  }

  /**
   * performDownload returns true exactly when it has emitted, and then it has emitted one
   * signal; that signal reports success exactly when an acceptable payload was stored whole,
   * and carries that payload; a 404 is reported as a failure and not retried.
   */
  lemma PerformDownloadReports(k: TileKey, reply: Reply, disk: Disk)
    ensures var s := Report(k, Classify(reply, disk));
            && (Done((reply, disk)) <==> |s| == 1)
            && |s| <= 1
            && (|s| == 1 ==> s[0].TileDownloaded? && s[0].key == k)
            && (|s| == 1 && s[0].success <==>
                  reply.Ok? && AcceptablePayload(reply.data) && SavedWhole(reply.data, disk))
            && (|s| == 1 && s[0].success ==> s[0].data == reply.data)
            && (reply.NotFound? ==> s == [TileDownloaded(k, [], false, "Tile not found (404)")])
  {
  }

  /** The first of the first n attempts that is done, if any. */
  function FirstDone(tries: seq<(Reply, Disk)>, n: nat): (r: Option<nat>)
    requires n <= |tries|
    ensures r.Some? ==> r.value < n && Done(tries[r.value]) && forall j :: 0 <= j < r.value ==> !Done(tries[j])
    ensures r.None? ==> forall j :: 0 <= j < n ==> !Done(tries[j])
  {
    if n == 0 then None
    else
      var r := FirstDone(tries, n - 1);
      if r.Some? then r else if Done(tries[n - 1]) then Some(n - 1) else None
  }

  /** How many times the blocking loop calls performDownload. */
  function Calls(tries: seq<(Reply, Disk)>): nat
    requires |tries| >= BlockingAttempts
  {
    match FirstDone(tries, BlockingAttempts)
    case Some(i) => i + 1
    case None => BlockingAttempts
  }

  /** What the blocking loop emits. */
  function Blocking(k: TileKey, tries: seq<(Reply, Disk)>): seq<Signal>
    requires |tries| >= BlockingAttempts
  {
    match FirstDone(tries, BlockingAttempts)
    case Some(i) => Report(k, Classify(tries[i].0, tries[i].1))
    case None => [TileDownloaded(k, [], false, "Failed after 3 attempts")]
  }

  /** The pauses before the retries of the first n calls: 1000, 2000, ... ms. */
  function Pauses(n: nat): seq<int>
  {
    if n <= 1 then [] else Pauses(n - 1) + [1000 * (n - 1)]
  }

  /**
   * The blocking path ends every request with exactly one tileDownloaded signal for the
   * tile, after 1 to 3 calls; it stops at the first call that returns true, and it reports
   * "Failed after 3 attempts" exactly when all three calls returned false.
   */
  lemma BlockingOneSignal(k: TileKey, tries: seq<(Reply, Disk)>)
    requires |tries| >= BlockingAttempts
    ensures |Blocking(k, tries)| == 1
    ensures Blocking(k, tries)[0].TileDownloaded? && Blocking(k, tries)[0].key == k
    ensures 1 <= Calls(tries) <= BlockingAttempts
    ensures forall j :: 0 <= j < Calls(tries) - 1 ==> !Done(tries[j])
    ensures Blocking(k, tries) == [TileDownloaded(k, [], false, "Failed after 3 attempts")] <==>
              !Done(tries[0]) && !Done(tries[1]) && !Done(tries[2])
  {
    match FirstDone(tries, BlockingAttempts)
    case Some(i) =>
      PerformDownloadReports(k, tries[i].0, tries[i].1);
    case None =>
  }

  /** A 404 on the first call ends the blocking path at once with the not-found report. */
  lemma BlockingNotFoundFirst(k: TileKey, tries: seq<(Reply, Disk)>)
    requires |tries| >= BlockingAttempts && tries[0].0.NotFound?
    ensures Calls(tries) == 1
    ensures Blocking(k, tries) == [TileDownloaded(k, [], false, "Tile not found (404)")]
  {
    assert FirstDone(tries, 1) == Some(0);
    assert FirstDone(tries, 2) == Some(0);
  }

  /** The pause before call i + 1 is 1000 * i ms. */
  lemma {:induction false} PausesGrow(n: nat)
    ensures |Pauses(n)| == if n == 0 then 0 else n - 1
    ensures forall i :: 0 <= i < |Pauses(n)| ==> Pauses(n)[i] == 1000 * (i + 1)
  {
    if n > 1 {
      PausesGrow(n - 1);
    }
  }

  // ---------------------------------------------------------------------------
  // The asynchronous path: onReplyFinished.

  /** A request of the asynchronous path; `attempt` counts the earlier tries. */
  datatype Request = Request(key: TileKey, url: string, filePath: string, attempt: int)

  /** A single-shot timer that will start `request` after `delay` ms. */
  datatype Retry = Retry(delay: int, request: Request)

  /** What onReplyFinished does with a finished reply: emit a signal or schedule a retry. */
  datatype Step = Emitted(signal: Signal) | Rescheduled(retry: Retry)

  /** (int)qPow(2, a): 2^a, truncated to 0 for negative a. */
  function Pow2Trunc(a: int): nat
  {
    if a < 0 then 0 else Pow2(a)
  }

  /** The pause before the retry that follows attempt `attempt`. */
  function Backoff(initialMs: int, attempt: int): int
  {
    initialMs * Max(1, Pow2Trunc(attempt))
  }

  /** The failure signal of the asynchronous path. */
  function Fail(k: TileKey, error: string): Signal
  {
    TileDownloaded(k, [], false, error)
  }

  /**
   * The error text of an aborted reply: the 30 s guard of the asynchronous path aborts the
   * reply, which then finishes with Qt's cancellation error.
   */
  const AbortMessage: string := "Operation canceled"

  /** A failed reply other than a 404: retried while attempts remain, else reported. */
  function AfterError(retryMax: int, initialMs: int, r: Request, message: string): Step
  {
    if r.attempt + 1 < retryMax then Rescheduled(Retry(Backoff(initialMs, r.attempt), r.(attempt := r.attempt + 1)))
    else Emitted(Fail(r.key, message))
  }

  /** onReplyFinished for request r. */
  function OnReply(retryMax: int, initialMs: int, r: Request, reply: Reply, disk: Disk): Step
  {
    match reply
    case NotFound => Emitted(Fail(r.key, "Tile not found (404)"))
    case OtherError(message) => AfterError(retryMax, initialMs, r, message)
    case Timeout => AfterError(retryMax, initialMs, r, AbortMessage)
    case Ok(data) =>
      if |data| == 0 then Emitted(Fail(r.key, "Empty response"))
      else if !StartsWith(data, PngSignature) then Emitted(Fail(r.key, "Invalid PNG data"))
      else if !disk.dirReady then Emitted(Fail(r.key, "Failed to create directory"))
      else if !disk.opens then Emitted(Fail(r.key, "Failed to open file for write"))
      else if disk.written != |data| then Emitted(Fail(r.key, "Incomplete write"))
      else Emitted(TileDownloaded(r.key, data, true, ""))
  }

  /**
   * onReplyFinished reschedules exactly when the reply failed with an error other than 404
   * and attempt + 1 < retryMax, with the next attempt number and the backoff pause;
   * otherwise it emits one signal for the tile, which reports success exactly when an
   * acceptable payload was stored whole. A payload failure is never retried.
   */
  lemma OnReplyRule(retryMax: int, initialMs: int, r: Request, reply: Reply, disk: Disk)
    ensures var s := OnReply(retryMax, initialMs, r, reply, disk);
            && (s.Rescheduled? <==> (reply.OtherError? || reply.Timeout?) && r.attempt + 1 < retryMax)
            && (s.Rescheduled? ==>
                  s.retry == Retry(initialMs * Max(1, Pow2Trunc(r.attempt)), r.(attempt := r.attempt + 1)))
            && (s.Emitted? ==> s.signal.TileDownloaded? && s.signal.key == r.key)
            && (s.Emitted? && s.signal.success <==>
                  reply.Ok? && AcceptablePayload(reply.data) && SavedWhole(reply.data, disk))
            && (s.Emitted? && s.signal.success ==> s.signal.data == reply.data)
            && (s.Emitted? && !s.signal.success ==> s.signal.data == [])
  {
  }

  /** The first retry waits the initial backoff; each later one waits twice the one before. */
  lemma BackoffDoubles(initialMs: int, attempt: nat)
    ensures Backoff(initialMs, 0) == initialMs
    ensures Backoff(initialMs, attempt + 1) == 2 * Backoff(initialMs, attempt)
  {
  }

  /**
   * The signals of a request's chain of attempts, `replies[i]` being how attempt i of the
   * chain ends; nothing is emitted while the last reschedule is still pending.
   */
  function Chain(retryMax: int, initialMs: int, r: Request, replies: seq<(Reply, Disk)>): seq<Signal>
    decreases |replies|
  {
    if replies == [] then []
    else match OnReply(retryMax, initialMs, r, replies[0].0, replies[0].1)
      case Emitted(s) => [s]
      case Rescheduled(t) => Chain(retryMax, initialMs, t.request, replies[1..])
  }

  /** A chain never emits more than one signal. */
  lemma {:induction false} ChainAtMostOne(retryMax: int, initialMs: int, r: Request, replies: seq<(Reply, Disk)>)
    ensures |Chain(retryMax, initialMs, r, replies)| <= 1
    decreases |replies|
  {
    if replies != [] {
      match OnReply(retryMax, initialMs, r, replies[0].0, replies[0].1)
      case Emitted(s) =>
      case Rescheduled(t) => ChainAtMostOne(retryMax, initialMs, t.request, replies[1..]);
    }
  }

  /**
   * Exactly one terminal signal per request: once max(1, retryMax - attempt) replies have
   * come back, the chain has emitted its one signal for the tile.
   */
  lemma {:induction false} ChainEnds(retryMax: int, initialMs: int, r: Request, replies: seq<(Reply, Disk)>)
    requires 0 <= r.attempt
    requires |replies| >= Max(1, retryMax - r.attempt)
    ensures |Chain(retryMax, initialMs, r, replies)| == 1
    ensures Chain(retryMax, initialMs, r, replies)[0].key == r.key
    decreases |replies|
  {
    match OnReply(retryMax, initialMs, r, replies[0].0, replies[0].1)
    case Emitted(s) =>
      OnReplyRule(retryMax, initialMs, r, replies[0].0, replies[0].1);
    case Rescheduled(t) =>
      OnReplyRule(retryMax, initialMs, r, replies[0].0, replies[0].1);
      ChainEnds(retryMax, initialMs, t.request, replies[1..]);
  }

  /**
   * The request a retry timer starts, as written: key, path and attempt were copied into
   * the timer, the URL is read from the deleted reply when the timer fires.
   */
  function RetriedAsWritten(t: Retry, urlRead: string): (r: Request)
    ensures r.key == t.request.key && r.filePath == t.request.filePath && r.attempt == t.request.attempt
    ensures r.url == urlRead
  {
    t.request.(url := urlRead)
  }

  /**
   * A retry that reads anything but the failed request's URL from the freed reply fetches
   * another URL than the corrected retry, which re-sends the failed request itself.
   */
  lemma StaleRetryDiffers(retryMax: int, initialMs: int, r: Request, reply: Reply, disk: Disk, urlRead: string)
    requires OnReply(retryMax, initialMs, r, reply, disk).Rescheduled?
    requires urlRead != r.url
    ensures var t := OnReply(retryMax, initialMs, r, reply, disk).retry;
            && t.request.url == r.url
            && RetriedAsWritten(t, urlRead) != t.request
            && RetriedAsWritten(t, urlRead).url != r.url
  {
    OnReplyRule(retryMax, initialMs, r, reply, disk);
  }

  // ---------------------------------------------------------------------------
  // loadTileFromFile.

  /**
   * loadTileFromFile: success with the file's bytes when it exists, opens and is not
   * empty; otherwise failure with no bytes and a message naming the cause.
   */
  function LoadResult(k: TileKey, filePath: string, file: CacheFile): (s: Signal)
    ensures s.TileLoadedBytes? && s.key == k
    ensures s.success <==> file.Stored? && |file.contents| > 0
    ensures s.success ==> s.data == file.contents && s.error == ""
    ensures !s.success ==> s.data == [] && s.error != ""
  {
    match file
    case Absent => TileLoadedBytes(k, [], false, "Tile file does not exist: " + filePath)
    case Unopenable(error) => TileLoadedBytes(k, [], false, "Failed to open tile file: " + error)
    case Stored(data) =>
      if |data| == 0 then TileLoadedBytes(k, [], false, "Tile file is empty: " + filePath)
      else TileLoadedBytes(k, data, true, "")
  }

  // ---------------------------------------------------------------------------
  // The worker.

  class TileWorker {
    /** m_retryMax and m_backoffInitialMs. */
    var retryMax: int
    var backoffInitialMs: int
    /** Requests of the asynchronous path whose reply has not finished. */
    var inFlight: seq<Request>
    /** Pending single-shot retry timers. */
    var timers: seq<Retry>
    /** Every signal emitted so far. */
    var log: seq<Signal>

    constructor ()
      ensures retryMax == DefaultRetryMax && backoffInitialMs == DefaultBackoffMs
      ensures inFlight == [] && timers == [] && log == []
    {
      retryMax := DefaultRetryMax;
      backoffInitialMs := DefaultBackoffMs;
      inFlight := [];
      timers := [];
      log := [];
    }

    /** configureNetworkRetries: negative settings are stored as 0. */
    method ConfigureNetworkRetries(newRetryMax: int, newBackoffMs: int)
      modifies this`retryMax, this`backoffInitialMs
      ensures retryMax == Max(0, newRetryMax) && backoffInitialMs == Max(0, newBackoffMs)
      ensures retryMax >= 0 && backoffInitialMs >= 0
    {
      retryMax := Max(0, newRetryMax);
      backoffInitialMs := Max(0, newBackoffMs);
    }

    /** loadTileFromFile; the disk read is the `file` argument. */
    method LoadTileFromFile(k: TileKey, filePath: string, file: CacheFile)
      modifies this`log
      ensures log == old(log) + [LoadResult(k, filePath, file)]
    {
      if file.Absent? {
        log := log + [TileLoadedBytes(k, [], false, "Tile file does not exist: " + filePath)];
        return;
      }
      if file.Unopenable? {
        log := log + [TileLoadedBytes(k, [], false, "Failed to open tile file: " + file.error)];
        return;
      }
      var data := file.contents;
      if |data| == 0 {
        log := log + [TileLoadedBytes(k, [], false, "Tile file is empty: " + filePath)];
        return;
      }
      log := log + [TileLoadedBytes(k, data, true, "")];
    }

    /** performDownload for one reply and the save that follows it. */
    method PerformDownload(k: TileKey, reply: Reply, disk: Disk) returns (done: bool)
      modifies this`log
      ensures done == Done((reply, disk))
      ensures log == old(log) + Report(k, Classify(reply, disk))
    {
      if reply.Timeout? || reply.OtherError? {
        return false;
      }
      if reply.NotFound? {
        log := log + [TileDownloaded(k, [], false, "Tile not found (404)")];
        return true;
      }
      var data := reply.data;
      if |data| == 0 || !StartsWith(data, PngSignature) {
        return false;
      }
      if !disk.dirReady || !disk.opens {
        return false;
      }
      if disk.written != |data| {
        return false;
      }
      log := log + [TileDownloaded(k, data, true, "")];
      return true;
    }

    /**
     * downloadAndSaveTileAsync, the blocking path: up to three calls of performDownload,
     * `tries[i]` being how call i ends, pausing 1000 * i ms before call i + 1; when none
     * returned true the failure is reported.
     */
    method DownloadAndSaveTile(k: TileKey, tries: seq<(Reply, Disk)>) returns (pauses: seq<int>)
      requires |tries| >= BlockingAttempts
      modifies this`log
      ensures log == old(log) + Blocking(k, tries)
      ensures pauses == Pauses(Calls(tries))
    {
      var retryCount := 0;
      var success := false;
      pauses := [];
      while retryCount < BlockingAttempts && !success
        invariant 0 <= retryCount <= BlockingAttempts
        invariant success == FirstDone(tries, retryCount).Some?
        invariant success ==> FirstDone(tries, retryCount) == Some(retryCount - 1)
        invariant log == old(log) + if success then Report(k, Classify(tries[retryCount - 1].0, tries[retryCount - 1].1)) else []
        invariant pauses == Pauses(retryCount)
      {
        if retryCount > 0 {
          pauses := pauses + [1000 * retryCount];
        }
        success := PerformDownload(k, tries[retryCount].0, tries[retryCount].1);
        retryCount := retryCount + 1;
      }
      if success {
        FirstDoneStable(tries, retryCount);
      } else {
        log := log + [TileDownloaded(k, [], false, "Failed after 3 attempts")];
      }
    }

    /** startAsyncRequest: the request is sent and its reply awaited. */
    method StartAsyncRequest(k: TileKey, url: string, filePath: string, attempt: int)
      modifies this`inFlight
      ensures inFlight == old(inFlight) + [Request(k, url, filePath, attempt)]
    {
      inFlight := inFlight + [Request(k, url, filePath, attempt)];
    }

    /** downloadAsync: the first attempt of the asynchronous path. */
    method DownloadAsync(k: TileKey, url: string, filePath: string)
      modifies this`inFlight
      ensures inFlight == old(inFlight) + [Request(k, url, filePath, 0)]
    {
      StartAsyncRequest(k, url, filePath, 0);
    }

    /**
     * onReplyFinished for the i-th request in flight, which ended with `reply`; `disk` is
     * what saving its payload observes. Either one signal is emitted or one retry timer set.
     */
    method OnReplyFinished(i: nat, reply: Reply, disk: Disk)
      requires i < |inFlight|
      modifies this`inFlight, this`log, this`timers
      ensures inFlight == old(inFlight[..i] + inFlight[i + 1..])
      ensures match OnReply(retryMax, backoffInitialMs, old(inFlight[i]), reply, disk)
              case Emitted(s) => log == old(log) + [s] && timers == old(timers)
              case Rescheduled(t) => log == old(log) && timers == old(timers) + [t]
    {
      var r := inFlight[i];
      inFlight := inFlight[..i] + inFlight[i + 1..];
      if !reply.Ok? {
        if reply.NotFound? {
          log := log + [Fail(r.key, "Tile not found (404)")];
        } else {
          var message := if reply.OtherError? then reply.message else AbortMessage;
          if r.attempt + 1 < retryMax {
            var backoff := backoffInitialMs * Max(1, Pow2Trunc(r.attempt));
            timers := timers + [Retry(backoff, r.(attempt := r.attempt + 1))];
            return;
          }
          log := log + [Fail(r.key, message)];
        }
        return;
      }
      var data := reply.data;
      if |data| == 0 {
        log := log + [Fail(r.key, "Empty response")];
        return;
      }
      if !StartsWith(data, PngSignature) {
        log := log + [Fail(r.key, "Invalid PNG data")];
        return;
      }
      if !disk.dirReady {
        log := log + [Fail(r.key, "Failed to create directory")];
        return;
      }
      if !disk.opens {
        log := log + [Fail(r.key, "Failed to open file for write")];
        return;
      }
      if disk.written != |data| {
        log := log + [Fail(r.key, "Incomplete write")];
        return;
      }
      log := log + [TileDownloaded(r.key, data, true, "")];
    }

    /**
     * The j-th retry timer fires and starts its request again, with the URL of the request
     * that failed. This is the corrected retry; RetryFiresAsWritten is the source's.
     */
    method RetryFires(j: nat)
      requires j < |timers|
      modifies this`timers, this`inFlight
      ensures timers == old(timers[..j] + timers[j + 1..])
      ensures inFlight == old(inFlight) + [old(timers[j]).request]
    {
      var t := timers[j];
      timers := timers[..j] + timers[j + 1..];
      StartAsyncRequest(t.request.key, t.request.url, t.request.filePath, t.request.attempt);
    }

    /**
     * The j-th retry timer fires, as written: the URL is read from the reply that was
     * handed to deleteLater when the timer was set, so it is whatever `urlRead` the freed
     * reply yields.
     */
    method RetryFiresAsWritten(j: nat, urlRead: string)
      requires j < |timers|
      modifies this`timers, this`inFlight
      ensures timers == old(timers[..j] + timers[j + 1..])
      ensures inFlight == old(inFlight) + [RetriedAsWritten(old(timers[j]), urlRead)]
    {
      var t := timers[j];
      timers := timers[..j] + timers[j + 1..];
      StartAsyncRequest(t.request.key, urlRead, t.request.filePath, t.request.attempt);
    }
  }

  /** Once an attempt is done, later prefixes have the same first done attempt. */
  lemma {:induction false} FirstDoneStable(tries: seq<(Reply, Disk)>, n: nat)
    requires n <= BlockingAttempts <= |tries|
    requires FirstDone(tries, n).Some?
    ensures FirstDone(tries, BlockingAttempts) == FirstDone(tries, n)
    decreases BlockingAttempts - n
  {
    if n < BlockingAttempts {
      assert FirstDone(tries, n + 1) == FirstDone(tries, n);
      FirstDoneStable(tries, n + 1);
    }
  }
}
