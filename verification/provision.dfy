/**
 * Artifact provisioning: `downloadBinary(dest)` in
 * panel.freecloud.ltd/hysteria.js.  The network is replaced by a sequence of
 * attempt outcomes: the attempt made while `retryCount` is k is answered by
 * `outcomes[k]`.  The closure variable `retryCount` is shared by the four
 * failure paths, each of which retries only while `retryCount < RETRIES` and
 * increments it before scheduling the next attempt.
 */
module Provisioner {
  import opened Wrappers
  import opened Architecture
  import opened Files

  /** Download retries after the first attempt. */
  const RETRIES: nat := 2

  const HYSTERIA_VERSION: string := "v2.6.3"

  /** Octal 111: the execute bits of owner (0o100), group (0o010) and others (0o001). */
  const EXEC_BITS: bv32 := 0x49

  function BinName(a: Arch): string
  {
    "hysteria-linux-" + ArchString(a)
  }

  function ReleaseUrl(a: Arch): string
  {
    "https://github.com/apernet/hysteria/releases/download/app/" + HYSTERIA_VERSION + "/" + BinName(a)
  }

  /** How the body of a response with status below 400 reaches the file stream. */
  datatype Transfer =
    | Finished(content: string)                     // the stream's `finish`
    | StreamError(written: string, message: string) // the opened stream fails after writing `written`
    | OpenFailed(message: string)                   // the stream cannot create `dest` at all
    | Interrupted(written: string, requestError: Option<string>)
        // after `written` arrived, the request's `error` (Some) or its 30 s
        // `timeout` (None) fires; `pipe` leaves the write stream alone
    | Stalled(written: string)
        // the server closes the connection cleanly mid-body: the stream
        // neither finishes nor fails, and no request listener fires

  /** What one `https.get` attempt ends in. */
  datatype Attempt =
    | Response(status: int, transfer: Transfer)
    | RequestError(message: string)
    | Timeout

  /** The error the promise is rejected with. */
  datatype DownloadError =
    | HttpStatus(status: int)
    | StreamFailed(message: string)
    | RequestFailed(message: string)
    | DownloadTimeout

  /** How one attempt ends. */
  datatype Step =
    | Done            // `finish`: the promise resolves
    | Failed(error: DownloadError) // a failure path: retry, or reject once the budget is spent
    | Thrown          // `unlinkSync` throws inside the stream's `error` listener
    | Hung            // no listener of this attempt ever runs again

  /**
   * How `downloadBinary` ends: its promise resolves or is rejected; the
   * process exits; an uncaught exception kills the process (status 1); or
   * the promise never settles, and the process ends with status 0 once
   * nothing is left to wait for.
   */
  datatype Settled = Resolved | Rejected(error: DownloadError) | Exit(code: int) | Crashed | Pending

  /** Everything an observer sees: how it settled, the URLs requested, the files left behind. */
  datatype Run = Run(settled: Settled, requests: seq<string>, files: map<string, Entry>)

  // Reference classification of an attempt.  Whether a file is already at
  // `dest` when the attempt starts (one an interrupted attempt left) matters
  // in one case only: after a failed open the unlink then succeeds, and the
  // attempt is a failure rather than a crash.

  /** The failure paths; `present` says whether a file is at `dest` when the attempt starts. */
  predicate IsFailure(o: Attempt, present: bool)
  {
    match o
    case Response(status, transfer) =>
      status >= 400 || transfer.StreamError? || transfer.Interrupted? || (transfer.OpenFailed? && present)
    case RequestError(_) => true
    case Timeout => true
  }

  predicate IsSuccess(o: Attempt)
  {
    o.Response? && o.status < 400 && o.transfer.Finished?
  }

  /** The stream cannot create the file; with nothing at `dest`, the unlink in its `error` listener throws. */
  predicate IsCrash(o: Attempt)
  {
    o.Response? && o.status < 400 && o.transfer.OpenFailed?
  }

  predicate IsStall(o: Attempt)
  {
    o.Response? && o.status < 400 && o.transfer.Stalled?
  }

  /** The request listener that fires during an interrupted body: `error` or `timeout`. */
  function InterruptError(requestError: Option<string>): DownloadError
  {
    match requestError
    case Some(message) => RequestFailed(message)
    case None => DownloadTimeout
  }

  /** The error a failed attempt reports. */
  function FailureOf(o: Attempt): DownloadError
    requires IsFailure(o, true)
  {
    match o
    case Response(status, transfer) =>
      if status >= 400 then HttpStatus(status)
      else (
        match transfer
        case StreamError(_, message) => StreamFailed(message)
        case OpenFailed(message) => StreamFailed(message)
        case Interrupted(_, requestError) => InterruptError(requestError))
    case RequestError(message) => RequestFailed(message)
    case Timeout => DownloadTimeout
  }

  /** How an attempt that is not a failure settles the download. */
  function SettledBy(o: Attempt): Settled
    requires !IsFailure(o, false)
  {
    if IsCrash(o) then Crashed else if IsStall(o) then Pending else Resolved
  }

  /** What a failed attempt that started with `partial` at `dest` leaves there. */
  function LeftBehind(o: Attempt, partial: Option<string>): Option<string>
  {
    match o
    case Response(status, transfer) =>
      if status >= 400 then partial
      else if transfer.Interrupted? then Some(transfer.written)
      else None
    case RequestError(_) => partial
    case Timeout => partial
  }

  /** The content at `dest`, if a file is there. */
  function Leftover(files: map<string, Entry>, dest: string): Option<string>
  {
    if dest in files then Some(files[dest].content) else None
  }

  /** A file at `dest` is one an earlier attempt left: written with the creation mode, never made executable. */
  predicate OnlyPartialAt(files: map<string, Entry>, createMode: bv32, dest: string)
  {
    dest in files ==> files[dest].mode == createMode
  }

  /** The mode a file written at `path` has before the chmod. */
  function WrittenMode(files: map<string, Entry>, createMode: bv32, path: string): bv32
  {
    if path in files then files[path].mode else createMode
  }

  /**
   * The effect of one attempt on the files, and how it ends.  A status of
   * 400 or more writes nothing; any lower status (3xx included) opens the
   * write stream; a finished stream is made executable; a stream error
   * unlinks `dest`, which throws when the stream never created it; an
   * interrupted or stalled transfer leaves what was written.
   */
  function AttemptEffect(files: map<string, Entry>, createMode: bv32, dest: string, o: Attempt)
    : (map<string, Entry>, Step)
  {
    match o
    case Response(status, transfer) =>
      if status >= 400 then (files, Failed(HttpStatus(status)))
      else (
        match transfer
        case Finished(content) =>
          (files[dest := Entry(WrittenMode(files, createMode, dest) | EXEC_BITS, content)], Done)
        case StreamError(_, message) =>
          (files - {dest}, Failed(StreamFailed(message)))
        case OpenFailed(message) =>
          if dest in files then (files - {dest}, Failed(StreamFailed(message))) else (files, Thrown)
        case Interrupted(written, requestError) =>
          (files[dest := Entry(WrittenMode(files, createMode, dest), written)], Failed(InterruptError(requestError)))
        case Stalled(written) =>
          (files[dest := Entry(WrittenMode(files, createMode, dest), written)], Hung))
    case RequestError(message) => (files, Failed(RequestFailed(message)))
    case Timeout => (files, Failed(DownloadTimeout))
  }

  /** How one attempt ends, against the reference classification. */
  lemma AttemptStep(files: map<string, Entry>, createMode: bv32, dest: string, o: Attempt)
    ensures var step := AttemptEffect(files, createMode, dest, o).1;
      && (step.Failed? <==> IsFailure(o, dest in files))
      && (step.Failed? ==> step.error == FailureOf(o))
      && (step == Done <==> IsSuccess(o))
      && (step == Thrown <==> IsCrash(o) && dest !in files)
      && (step == Hung <==> IsStall(o))
  {
  }

  /** A successful or stalled attempt writes the body it received, over any partial file. */
  lemma AttemptWrites(files: map<string, Entry>, createMode: bv32, dest: string, o: Attempt)
    requires OnlyPartialAt(files, createMode, dest)
    ensures var next := AttemptEffect(files, createMode, dest, o).0;
      && (IsSuccess(o) ==> dest in next && next[dest] == Entry(createMode | EXEC_BITS, o.transfer.content))
      && (IsStall(o) ==> dest in next && next[dest] == Entry(createMode, o.transfer.written))
  {
    assert WrittenMode(files, createMode, dest) == createMode;
  }

  /** What any other attempt leaves at `dest`, and that no attempt touches another path. */
  lemma AttemptLeaves(files: map<string, Entry>, createMode: bv32, dest: string, o: Attempt)
    requires OnlyPartialAt(files, createMode, dest)
    ensures var next := AttemptEffect(files, createMode, dest, o).0;
      var step := AttemptEffect(files, createMode, dest, o).1;
      && (step.Failed? ==> Leftover(next, dest) == LeftBehind(o, Leftover(files, dest)))
      && (step == Thrown ==> dest !in next)
      && (step != Done ==> OnlyPartialAt(next, createMode, dest))
      && next - {dest} == files - {dest}
  {
    assert WrittenMode(files, createMode, dest) == createMode;
    if o.Response? && o.status < 400 && !o.transfer.StreamError? && !o.transfer.OpenFailed? {
      var next := AttemptEffect(files, createMode, dest, o).0;
      assert dest in next;
      assert next - {dest} == files - {dest};
    }
  }

  /**
   * One attempt against the reference classification, when any file at
   * `dest` is a partial one: it fails exactly on the failure paths, reports
   * that path's error and leaves at `dest` what `LeftBehind` says; a success
   * leaves an executable file holding the body; a stream that never opened
   * throws when nothing was at `dest`; a stall leaves the partial body with
   * the creation mode; no other path ever changes.
   */
  lemma AttemptEffectSpec(files: map<string, Entry>, createMode: bv32, dest: string, o: Attempt)
    requires OnlyPartialAt(files, createMode, dest)
    ensures var (next, step) := AttemptEffect(files, createMode, dest, o);
      && (step.Failed? <==> IsFailure(o, dest in files))
      && (step.Failed? ==> step.error == FailureOf(o) && Leftover(next, dest) == LeftBehind(o, Leftover(files, dest)))
      && (step == Done <==> IsSuccess(o))
      && (step == Thrown <==> IsCrash(o) && dest !in files)
      && (step == Hung <==> IsStall(o))
      && (IsSuccess(o) ==> dest in next && next[dest] == Entry(createMode | EXEC_BITS, o.transfer.content))
      && (IsStall(o) ==> dest in next && next[dest] == Entry(createMode, o.transfer.written))
      && (step == Thrown ==> dest !in next)
      && (step != Done ==> OnlyPartialAt(next, createMode, dest))
      && next - {dest} == files - {dest}
  {
    AttemptStep(files, createMode, dest, o);
    AttemptWrites(files, createMode, dest, o);
    AttemptLeaves(files, createMode, dest, o);
  }

  /**
   * The attempts made from `retryCount` on: one request per attempt, at most
   * `RETRIES + 1 - retryCount` of them, and never an exit of the script's own.
   */
  function RetryFrom(files: map<string, Entry>, createMode: bv32, dest: string, url: string,
                     outcomes: seq<Attempt>, retryCount: nat): (r: Run)
    requires retryCount <= RETRIES < |outcomes|
    ensures 1 <= |r.requests| <= RETRIES + 1 - retryCount
    ensures forall k :: 0 <= k < |r.requests| ==> r.requests[k] == url
    ensures !r.settled.Exit?
    decreases RETRIES - retryCount
  {
    var (next, step) := AttemptEffect(files, createMode, dest, outcomes[retryCount]);
    match step
    case Done => Run(Resolved, [url], next)
    case Thrown => Run(Crashed, [url], next)
    case Hung => Run(Pending, [url], next)
    case Failed(error) =>
      if retryCount < RETRIES then
        var rest := RetryFrom(next, createMode, dest, url, outcomes, retryCount + 1);
        Run(rest.settled, [url] + rest.requests, rest.files)
      else Run(Rejected(error), [url], next)
  }

  /**
   * `downloadBinary(dest)` on host architecture `host`: an unresolvable
   * architecture exits with status 1; an existing destination resolves at
   * once; otherwise the retry loop runs against the release URL.
   */
  function Download(files: map<string, Entry>, createMode: bv32, host: string, dest: string,
                    outcomes: seq<Attempt>): (r: Run)
    requires |outcomes| > RETRIES
    ensures r.settled.Exit? <==> ArchName(host).None?
    ensures r.settled.Exit? ==> r.settled.code == 1 && r.files == files
    ensures r.requests == [] <==> ArchName(host).None? || dest in files
    ensures ArchName(host).Some? && dest in files ==> r.settled == Resolved && r.files == files
    ensures |r.requests| <= RETRIES + 1
    ensures ArchName(host).Some? ==>
      forall k :: 0 <= k < |r.requests| ==> r.requests[k] == ReleaseUrl(ArchName(host).value)
  {
    match ArchName(host)
    case None => Run(Exit(1), [], files)
    case Some(arch) =>
      if dest in files then Run(Resolved, [], files)
      else RetryFrom(files, createMode, dest, ReleaseUrl(arch), outcomes, 0)
  }

  // ---------------------------------------------------------------------
  // Properties of the retry state machine
  // ---------------------------------------------------------------------

  /**
   * The first attempt index at or after `from` (and within the retry budget)
   * that is not a failure, `partial` being what is at `dest` before attempt
   * `from`.
   */
  function FirstSettling(outcomes: seq<Attempt>, from: nat, partial: Option<string>): (r: Option<nat>)
    requires RETRIES < |outcomes|
    ensures r.Some? ==> from <= r.value <= RETRIES && !IsFailure(outcomes[r.value], false)
    ensures r.None? && from <= RETRIES ==> IsFailure(outcomes[RETRIES], true)
    decreases RETRIES + 1 - from
  {
    if from > RETRIES then None
    else if !IsFailure(outcomes[from], partial.Some?) then Some(from)
    else FirstSettling(outcomes, from + 1, LeftBehind(outcomes[from], partial))
  }

  /** What is at `dest` once attempts `from` to `RETRIES` have all failed, starting from `partial`. */
  function LeftAfterAll(outcomes: seq<Attempt>, from: nat, partial: Option<string>): Option<string>
    requires RETRIES < |outcomes|
    decreases RETRIES + 1 - from
  {
    if from > RETRIES then partial
    else LeftAfterAll(outcomes, from + 1, LeftBehind(outcomes[from], partial))
  }

  /** What is at `dest` before attempt `k` of a download that started with nothing there. */
  function PartialBefore(outcomes: seq<Attempt>, k: nat): Option<string>
    requires k <= |outcomes|
  {
    if k == 0 then None else LeftBehind(outcomes[k - 1], PartialBefore(outcomes, k - 1))
  }

  /**
   * The retry loop against the first attempt that is not a failure: the
   * download settles as that attempt says right after it; when every attempt
   * within the budget fails it is rejected with the last one's error after
   * all of them.
   */
  lemma {:induction false} RetryFromDecided(files: map<string, Entry>, createMode: bv32, dest: string,
                                           url: string, outcomes: seq<Attempt>, retryCount: nat)
    requires retryCount <= RETRIES < |outcomes|
    requires OnlyPartialAt(files, createMode, dest)
    ensures var r := RetryFrom(files, createMode, dest, url, outcomes, retryCount);
      match FirstSettling(outcomes, retryCount, Leftover(files, dest))
      case Some(k) => r.settled == SettledBy(outcomes[k]) && |r.requests| == k - retryCount + 1
      case None => r.settled == Rejected(FailureOf(outcomes[RETRIES])) &&
                   |r.requests| == RETRIES + 1 - retryCount
    decreases RETRIES - retryCount
  {
    var o := outcomes[retryCount];
    var (next, step) := AttemptEffect(files, createMode, dest, o);
    AttemptStep(files, createMode, dest, o);
    if step.Failed? {
      AttemptLeaves(files, createMode, dest, o);
      assert FirstSettling(outcomes, retryCount, Leftover(files, dest)) ==
             FirstSettling(outcomes, retryCount + 1, Leftover(next, dest));
      if retryCount < RETRIES {
        RetryFromDecided(next, createMode, dest, url, outcomes, retryCount + 1);
      }
    } else {
      assert FirstSettling(outcomes, retryCount, Leftover(files, dest)) == Some(retryCount);
    }
  }

  /**
   * When any file at `dest` is a partial one: a crashed download leaves none;
   * a rejected one leaves what the failed attempts left, with the creation
   * mode; a
   * resolved one leaves the body of the first attempt that is not a failure,
   * made executable; a pending one leaves the part of that attempt's body
   * written before it stalled, with its creation mode.
   */
  lemma {:induction false} RetryFromFiles(files: map<string, Entry>, createMode: bv32, dest: string,
                                         url: string, outcomes: seq<Attempt>, retryCount: nat)
    requires retryCount <= RETRIES < |outcomes|
    requires OnlyPartialAt(files, createMode, dest)
    ensures var r := RetryFrom(files, createMode, dest, url, outcomes, retryCount);
      var partial := Leftover(files, dest);
      && r.files - {dest} == files - {dest}
      && (r.settled.Crashed? ==> dest !in r.files)
      && (r.settled.Rejected? ==>
            OnlyPartialAt(r.files, createMode, dest) &&
            Leftover(r.files, dest) == LeftAfterAll(outcomes, retryCount, partial))
      && (r.settled.Resolved? ==> dest in r.files && exists k ::
            && FirstSettling(outcomes, retryCount, partial) == Some(k) && IsSuccess(outcomes[k])
            && r.files[dest] == Entry(createMode | EXEC_BITS, outcomes[k].transfer.content))
      && (r.settled.Pending? ==> dest in r.files && exists k ::
            && FirstSettling(outcomes, retryCount, partial) == Some(k) && IsStall(outcomes[k])
            && r.files[dest] == Entry(createMode, outcomes[k].transfer.written))
    decreases RETRIES - retryCount
  {
    var o := outcomes[retryCount];
    var (next, step) := AttemptEffect(files, createMode, dest, o);
    AttemptStep(files, createMode, dest, o);
    AttemptLeaves(files, createMode, dest, o);
    if step.Failed? {
      assert FirstSettling(outcomes, retryCount, Leftover(files, dest)) ==
             FirstSettling(outcomes, retryCount + 1, Leftover(next, dest));
      assert LeftAfterAll(outcomes, retryCount, Leftover(files, dest)) ==
             LeftAfterAll(outcomes, retryCount + 1, Leftover(next, dest));
      if retryCount < RETRIES {
        RetryFromFiles(next, createMode, dest, url, outcomes, retryCount + 1);
      }
    } else {
      AttemptWrites(files, createMode, dest, o);
      assert FirstSettling(outcomes, retryCount, Leftover(files, dest)) == Some(retryCount);
    }
  }

  /** Attempt `k` is the first within the budget that is not a failure, counting from an empty `dest`. */
  ghost predicate DecidedAt(outcomes: seq<Attempt>, k: int)
  {
    && 0 <= k <= RETRIES && k < |outcomes|
    && !IsFailure(outcomes[k], PartialBefore(outcomes, k).Some?)
    && forall j :: 0 <= j < k ==> IsFailure(outcomes[j], PartialBefore(outcomes, j).Some?)
  }

  /** Every attempt within the budget fails, counting from an empty `dest`. */
  ghost predicate AllFail(outcomes: seq<Attempt>)
  {
    RETRIES < |outcomes| &&
    forall j :: 0 <= j <= RETRIES ==> IsFailure(outcomes[j], PartialBefore(outcomes, j).Some?)
  }

  /** `FirstSettling`, followed from attempt `from` after every earlier attempt failed. */
  lemma {:induction false} FirstSettlingFrom(outcomes: seq<Attempt>, from: nat)
    requires RETRIES < |outcomes| && from <= RETRIES + 1
    requires forall j :: 0 <= j < from ==> IsFailure(outcomes[j], PartialBefore(outcomes, j).Some?)
    ensures match FirstSettling(outcomes, from, PartialBefore(outcomes, from))
      case Some(k) => DecidedAt(outcomes, k)
      case None => AllFail(outcomes)
    decreases RETRIES + 1 - from
  {
    if from <= RETRIES && IsFailure(outcomes[from], PartialBefore(outcomes, from).Some?) {
      assert PartialBefore(outcomes, from + 1) == LeftBehind(outcomes[from], PartialBefore(outcomes, from));
      FirstSettlingFrom(outcomes, from + 1);
    }
  }

  /** `LeftAfterAll` from attempt `from` is what the whole run leaves. */
  lemma {:induction false} LeftAfterAllFrom(outcomes: seq<Attempt>, from: nat)
    requires RETRIES < |outcomes| && from <= RETRIES + 1
    ensures LeftAfterAll(outcomes, from, PartialBefore(outcomes, from)) == PartialBefore(outcomes, RETRIES + 1)
    decreases RETRIES + 1 - from
  {
    if from <= RETRIES {
      assert PartialBefore(outcomes, from + 1) == LeftBehind(outcomes[from], PartialBefore(outcomes, from));
      LeftAfterAllFrom(outcomes, from + 1);
    }
  }

  /** From an empty `dest`, the first settling attempt is the one `DecidedAt` names, and there is none exactly when all fail. */
  lemma FirstSettlingFromStart(outcomes: seq<Attempt>)
    requires RETRIES < |outcomes|
    ensures forall k :: DecidedAt(outcomes, k) ==> FirstSettling(outcomes, 0, None) == Some(k)
    ensures FirstSettling(outcomes, 0, None).Some? ==> DecidedAt(outcomes, FirstSettling(outcomes, 0, None).value)
    ensures FirstSettling(outcomes, 0, None).None? <==> AllFail(outcomes)
  {
    FirstSettlingFrom(outcomes, 0);
  }

  /** Retry bound: when every attempt fails, exactly RETRIES + 1 = 3 requests are made before rejection. */
  lemma AllFailuresMakeThreeAttempts(files: map<string, Entry>, createMode: bv32, host: string,
                                     dest: string, outcomes: seq<Attempt>)
    requires |outcomes| > RETRIES
    requires ArchName(host).Some? && dest !in files
    requires AllFail(outcomes)
    ensures var r := Download(files, createMode, host, dest, outcomes);
      |r.requests| == RETRIES + 1 == 3 && r.settled == Rejected(FailureOf(outcomes[RETRIES]))
  {
    var url := ReleaseUrl(ArchName(host).value);
    FirstSettlingFromStart(outcomes);
    RetryFromDecided(files, createMode, dest, url, outcomes, 0);
  }

  /**
   * For a missing destination: the download resolves exactly when the first
   * attempt that is not a failure finishes, crashes exactly when that is a
   * stream that never opened, stays pending exactly when it stalls, and is
   * rejected exactly when every attempt fails.
   */
  lemma DownloadSettles(files: map<string, Entry>, createMode: bv32, host: string,
                        dest: string, outcomes: seq<Attempt>)
    requires |outcomes| > RETRIES
    requires ArchName(host).Some? && dest !in files
    ensures var r := Download(files, createMode, host, dest, outcomes);
      && (r.settled == Resolved <==> exists k :: DecidedAt(outcomes, k) && IsSuccess(outcomes[k]))
      && (r.settled == Crashed <==> exists k :: DecidedAt(outcomes, k) && IsCrash(outcomes[k]))
      && (r.settled == Pending <==> exists k :: DecidedAt(outcomes, k) && IsStall(outcomes[k]))
      && (r.settled.Rejected? <==> AllFail(outcomes))
  {
    var url := ReleaseUrl(ArchName(host).value);
    RetryFromDecided(files, createMode, dest, url, outcomes, 0);
    FirstSettlingFromStart(outcomes);
  }

  /**
   * For a missing destination, what the download leaves: a resolved one the
   * deciding attempt's body, made executable; a pending one the part written
   * before the stall, with its creation mode; a crashed one nothing; a
   * rejected one whatever the last interrupted attempt wrote, with its
   * creation mode.  No other path changes.
   */
  lemma DownloadOutcome(files: map<string, Entry>, createMode: bv32, host: string,
                        dest: string, outcomes: seq<Attempt>)
    requires |outcomes| > RETRIES
    requires ArchName(host).Some? && dest !in files
    ensures var r := Download(files, createMode, host, dest, outcomes);
      && (r.settled.Resolved? ==> dest in r.files && exists k ::
            && DecidedAt(outcomes, k) && IsSuccess(outcomes[k])
            && r.files[dest] == Entry(createMode | EXEC_BITS, outcomes[k].transfer.content))
      && (r.settled.Pending? ==> dest in r.files && exists k ::
            && DecidedAt(outcomes, k) && IsStall(outcomes[k])
            && r.files[dest] == Entry(createMode, outcomes[k].transfer.written))
      && (r.settled.Crashed? ==> dest !in r.files)
      && (r.settled.Rejected? ==>
            OnlyPartialAt(r.files, createMode, dest) &&
            Leftover(r.files, dest) == PartialBefore(outcomes, RETRIES + 1))
      && r.files - {dest} == files - {dest}
  {
    var url := ReleaseUrl(ArchName(host).value);
    RetryFromFiles(files, createMode, dest, url, outcomes, 0);
    FirstSettlingFromStart(outcomes);
    LeftAfterAllFrom(outcomes, 0);
  }

  /**
   * A reset after part of the body, then two 404 replies: the download is
   * rejected with the last status and the partial body stays at `dest` with
   * its creation mode.  The next run finds `dest` present, makes no request
   * and resolves with that partial file in place.
   */
  lemma InterruptedThenRejectedKeepsPartial(files: map<string, Entry>, createMode: bv32, host: string,
                                            dest: string, written: string, message: string)
    requires ArchName(host).Some? && dest !in files
    ensures var outcomes := [Response(200, Interrupted(written, Some(message))),
                             Response(404, Finished("")), Response(404, Finished(""))];
      var first := Download(files, createMode, host, dest, outcomes);
      var second := Download(first.files, createMode, host, dest, outcomes);
      && first.settled == Rejected(HttpStatus(404)) && |first.requests| == 3
      && dest in first.files && first.files[dest] == Entry(createMode, written)
      && second.settled == Resolved && second.requests == [] && second.files == first.files
  {
    var outcomes := [Response(200, Interrupted(written, Some(message))),
                     Response(404, Finished("")), Response(404, Finished(""))];
    var url := ReleaseUrl(ArchName(host).value);
    var after := files[dest := Entry(createMode, written)];
    assert AttemptEffect(files, createMode, dest, outcomes[0]) == (after, Failed(RequestFailed(message)));
    assert RetryFrom(after, createMode, dest, url, outcomes, 2) == Run(Rejected(HttpStatus(404)), [url], after);
    assert RetryFrom(after, createMode, dest, url, outcomes, 1) == Run(Rejected(HttpStatus(404)), [url, url], after);
  }

  /** Octal 111 keeps every bit already set, adds the three execute bits and touches nothing else. */
  lemma ExecBitsAdded(mode: bv32)
    ensures (mode | EXEC_BITS) & mode == mode
    ensures (mode | EXEC_BITS) & 0x40 == 0x40 && (mode | EXEC_BITS) & 0x8 == 0x8 && (mode | EXEC_BITS) & 0x1 == 0x1
    ensures (mode | EXEC_BITS) & !EXEC_BITS == mode & !EXEC_BITS
  {
  }

  // ---------------------------------------------------------------------
  // The imperative code
  // ---------------------------------------------------------------------

  /** The `finish` handler: the body is on disk and `dest` is made executable. */
  method FinishTransfer(disk: Disk, dest: string, content: string)
    modifies disk
    ensures disk.files ==
      old(disk.files)[dest := Entry(WrittenMode(old(disk.files), disk.createMode, dest) | EXEC_BITS, content)]
  {
    disk.WriteFile(dest, content);
    disk.Chmod(dest, disk.Mode(dest) | EXEC_BITS);
  }

  /** The stream's `error` handler after the stream had opened: the partial file is unlinked. */
  method AbortTransfer(disk: Disk, dest: string, written: string)
    modifies disk
    ensures disk.files == old(disk.files) - {dest}
  {
    disk.WriteFile(dest, written);
    var _ := disk.Unlink(dest);
    assert disk.files == old(disk.files) - {dest};
  }

  /** One `attemptDownload()` call: the request's outcome `o` decides what happens to `dest`. */
  method AttemptDownload(disk: Disk, dest: string, o: Attempt) returns (step: Step)
    modifies disk
    ensures (disk.files, step) == AttemptEffect(old(disk.files), disk.createMode, dest, o)
  {
    match o {
      case Response(status, transfer) =>
        if status >= 400 {
          return Failed(HttpStatus(status));
        }
        match transfer {
          case Finished(content) =>
            FinishTransfer(disk, dest, content);
            return Done;
          case StreamError(written, message) =>
            AbortTransfer(disk, dest, written);
            return Failed(StreamFailed(message));
          case OpenFailed(message) =>
            var removed := disk.Unlink(dest);
            if removed {
              return Failed(StreamFailed(message));
            }
            assert disk.files == old(disk.files);
            return Thrown;
          case Interrupted(written, requestError) =>
            // the request's listener retries; nothing touches the partial file
            disk.WriteFile(dest, written);
            return Failed(InterruptError(requestError));
          case Stalled(written) =>
            disk.WriteFile(dest, written);
            return Hung;
        }
      case RequestError(message) =>
        return Failed(RequestFailed(message));
      case Timeout =>
        return Failed(DownloadTimeout);
    }
  }

  /** `downloadBinary(dest)`: returns how it settled and the URLs it requested. */
  method DownloadBinary(disk: Disk, host: string, dest: string, outcomes: seq<Attempt>)
    returns (settled: Settled, requests: seq<string>)
    requires |outcomes| > RETRIES
    modifies disk
    ensures Run(settled, requests, disk.files) ==
            Download(old(disk.files), disk.createMode, host, dest, outcomes)
  {
    var arch := ArchName(host);
    if arch.None? {
      return Exit(1), [];
    }
    if disk.Exists(dest) {
      return Resolved, [];
    }
    var url := ReleaseUrl(arch.value);
    ghost var spec := Download(old(disk.files), disk.createMode, host, dest, outcomes);
    var retryCount: nat := 0;
    requests := [];
    while true
      invariant retryCount <= RETRIES
      invariant var rest := RetryFrom(disk.files, disk.createMode, dest, url, outcomes, retryCount);
        spec == Run(rest.settled, requests + rest.requests, rest.files)
      decreases RETRIES - retryCount
    {
      requests := requests + [url];
      var step := AttemptDownload(disk, dest, outcomes[retryCount]);
      match step {
        case Done => return Resolved, requests;
        case Thrown => return Crashed, requests;
        case Hung => return Pending, requests;
        case Failed(error) =>
          if retryCount < RETRIES {
            retryCount := retryCount + 1;
          } else {
            return Rejected(error), requests;
          }
      }
    }
  }
}
