/**
 * How the execution gateway (control-plane/internal/handlers/execute.go) records
 * outcomes: the record updaters of the status callback, of completion and of
 * failure, the bounded retry around persisting them, and the two non-blocking
 * bounded job queues (async executions and completions).
 *
 * Times are milliseconds on one clock, and 0 is Go's zero time. The database is
 * represented by the sequence of outcomes it gives to successive attempts.
 */
module Completion {
  import opened Text
  import opened Exec

  // ---------------------------------------------------------------------------
  // Status callback updater (handleStatusUpdate)
  // ---------------------------------------------------------------------------

  /**
   * A status callback after normalisation: `resultBytes` is the encoded result
   * (empty when none was sent), `completedAt` a non-zero timestamp when one was
   * sent, `resultUri` where the payload store put the result, `terminal` whether
   * the normalised status is terminal, and `now` the clock reading.
   */
  datatype StatusUpdate = StatusUpdate(
    status: string,
    resultBytes: seq<byte>,
    error: string,
    durationMs: Option<int>,
    completedAt: Option<int>,
    resultUri: Option<string>,
    terminal: bool,
    now: int)

  /** The error an updater returns when the execution is gone. */
  function NotFound(executionId: string): string
  {
    "execution " + executionId + " not found"
  }

  /** The statuses for which a completion time is always recorded. */
  predicate IsFinalStatus(s: string)
  {
    s == Succeeded || s == Failed || s == Cancelled || s == Timeout
  }

  /** A requested completion time counts only when present and non-zero. */
  predicate HasCompletedAt(u: StatusUpdate)
  {
    u.completedAt.Some? && u.completedAt.value != 0
  }

  /**
   * `n` is what an update `u` writes over the current execution `c`: the
   * new status; the result only when bytes were sent; the error message set,
   * cleared on success or kept; the duration as given, else derived for a
   * terminal update of a started execution, else kept; the completion time
   * for a final status (the requested time or now), else the requested time
   * if any; and every other field unchanged.
   */
  predicate WritesUpdate(c: Execution, u: StatusUpdate, n: Execution)
  {
    && n.status == u.status
    && (|u.resultBytes| > 0 ==> n.resultPayload == u.resultBytes && n.resultUri == u.resultUri)
    && (|u.resultBytes| == 0 ==> n.resultPayload == c.resultPayload && n.resultUri == c.resultUri)
    && (u.error != "" ==> n.errorMessage == Some(u.error))
    && (u.error == "" && u.status == Succeeded ==> n.errorMessage == None)
    && (u.error == "" && u.status != Succeeded ==> n.errorMessage == c.errorMessage)
    && (u.durationMs.Some? ==> n.durationMs == u.durationMs)
    && (u.durationMs.None? && u.terminal && c.startedAt != 0 ==>
          n.durationMs == Some((if HasCompletedAt(u) then u.completedAt.value else u.now) - c.startedAt))
    && (u.durationMs.None? && !(u.terminal && c.startedAt != 0) ==> n.durationMs == c.durationMs)
    && (IsFinalStatus(u.status) ==> n.completedAt == Some(if HasCompletedAt(u) then u.completedAt.value else u.now))
    && (!IsFinalStatus(u.status) ==> n.completedAt == (if HasCompletedAt(u) then u.completedAt else None))
    && n.(status := c.status, resultPayload := c.resultPayload, resultUri := c.resultUri,
          errorMessage := c.errorMessage, durationMs := c.durationMs, completedAt := c.completedAt) == c
  }

  /**
   * The updater passed to UpdateExecutionRecord by the status callback. A missing
   * execution is an error; otherwise the status is replaced, a non-empty result
   * replaces payload and URI, an error message is set (or cleared on success),
   * the duration is taken from the request or measured from the start for a
   * terminal status, and the completion time is set for the four final statuses
   * (to the requested time or now) and otherwise follows the request. No other
   * field changes.
   */
  function ApplyStatusUpdate(executionId: string, current: Option<Execution>, u: StatusUpdate): (r: Result<Execution>)
    ensures current.None? <==> r.Err?
    ensures current.None? ==> r == Err(NotFound(executionId))
    ensures current.Some? ==> r.Ok? && WritesUpdate(current.value, u, r.value)
  {
    match current
      case None => Err(NotFound(executionId))
      case Some(c) => Ok(UpdatedExecution(c, u))
  }

  /** The row an update writes over the current execution `c`. */
  function UpdatedExecution(c: Execution, u: StatusUpdate): (n: Execution)
    ensures WritesUpdate(c, u, n)
  {
    var withResult := if |u.resultBytes| > 0 then c.(resultPayload := u.resultBytes, resultUri := u.resultUri) else c;
    var errorMessage :=
      if u.error != "" then Some(u.error)
      else if u.status == Succeeded then None
      else c.errorMessage;
    var completed := if HasCompletedAt(u) then u.completedAt.value else u.now;
    var duration :=
      if u.durationMs.Some? then u.durationMs
      else if u.terminal && c.startedAt != 0 then Some(completed - c.startedAt)
      else c.durationMs;
    var completedAt :=
      if IsFinalStatus(u.status) then Some(completed)
      else if HasCompletedAt(u) then u.completedAt
      else None;
    withResult.(status := u.status, errorMessage := errorMessage, durationMs := duration, completedAt := completedAt)
  }

  /**
   * For a final terminal status without an explicit duration, the recorded
   * duration is exactly the recorded completion time minus the start time, and
   * a non-final status without a requested time leaves no completion time.
   */
  lemma StatusUpdateTimesAgree(c: Execution, u: StatusUpdate)
    ensures var n := ApplyStatusUpdate(c.executionId, Some(c), u).value;
      && ((IsFinalStatus(u.status) && u.terminal && u.durationMs.None? && c.startedAt != 0)
            ==> n.completedAt.Some? && n.durationMs == Some(n.completedAt.value - c.startedAt))
      && (IsFinalStatus(u.status) ==> n.completedAt.Some?)
      && (!IsFinalStatus(u.status) && !HasCompletedAt(u) ==> n.completedAt.None?)
      && n.executionId == c.executionId && n.runId == c.runId && n.startedAt == c.startedAt
  {
  }

  // ---------------------------------------------------------------------------
  // completeExecution / failExecution updaters
  // ---------------------------------------------------------------------------

  /** The completion updater: success with the result, no error, finished now. */
  function CompleteUpdate(executionId: string, current: Option<Execution>, result: seq<byte>, resultUri: Option<string>, elapsedMs: int, now: int)
    : (r: Result<Execution>)
    ensures current.None? <==> r.Err?
    ensures current.None? ==> r == Err(NotFound(executionId))
    ensures current.Some? ==>
      var n := r.value;
      && n.status == Succeeded && n.resultPayload == result && n.errorMessage == None
      && n.completedAt == Some(now) && n.durationMs == Some(elapsedMs) && n.updatedAt == now
      && n.resultUri == resultUri
      && n.(status := current.value.status, resultPayload := current.value.resultPayload,
            errorMessage := current.value.errorMessage, completedAt := current.value.completedAt,
            durationMs := current.value.durationMs, updatedAt := current.value.updatedAt,
            resultUri := current.value.resultUri) == current.value
  {
    match current
      case None => Err(NotFound(executionId))
      case Some(c) =>
        Ok(c.(status := Succeeded, resultPayload := result, errorMessage := None, completedAt := Some(now),
              durationMs := Some(elapsedMs), updatedAt := now, resultUri := resultUri))
  }

  /** The failure updater: failed with the call error; a non-empty result is still kept. */
  function FailUpdate(executionId: string, current: Option<Execution>, errMsg: string, result: seq<byte>, resultUri: Option<string>, elapsedMs: int, now: int)
    : (r: Result<Execution>)
    ensures current.None? <==> r.Err?
    ensures current.None? ==> r == Err(NotFound(executionId))
    ensures current.Some? ==>
      var n := r.value;
      && n.status == Failed && n.errorMessage == Some(errMsg)
      && n.completedAt == Some(now) && n.durationMs == Some(elapsedMs) && n.updatedAt == now
      && n.resultPayload == (if |result| > 0 then result else current.value.resultPayload)
      && n.resultUri == resultUri
      && n.(status := current.value.status, resultPayload := current.value.resultPayload,
            errorMessage := current.value.errorMessage, completedAt := current.value.completedAt,
            durationMs := current.value.durationMs, updatedAt := current.value.updatedAt,
            resultUri := current.value.resultUri) == current.value
  {
    match current
      case None => Err(NotFound(executionId))
      case Some(c) =>
        Ok(c.(status := Failed, errorMessage := Some(errMsg), completedAt := Some(now), durationMs := Some(elapsedMs),
              updatedAt := now, resultPayload := if |result| > 0 then result else c.resultPayload, resultUri := resultUri))
  }

  /** A finished completion job, as handed to the completion worker. */
  datatype CompletionJob = CompletionJob(result: seq<byte>, resultUri: Option<string>, elapsedMs: int, callError: Option<string>)

  /**
   * processCompletionJob: a job with a call error is persisted as a failure,
   * otherwise as a success; either way the record ends up finished at `now`.
   */
  function ProcessCompletionJob(executionId: string, current: Option<Execution>, job: CompletionJob, now: int): (r: Result<Execution>)
    ensures current.None? <==> r.Err?
    ensures current.None? ==> r == Err(NotFound(executionId))
    ensures r.Ok? ==> (r.value.status == Failed <==> job.callError.Some?)
    ensures r.Ok? ==> (r.value.status == Succeeded <==> job.callError.None?)
    ensures r.Ok? ==> r.value.completedAt == Some(now) && r.value.durationMs == Some(job.elapsedMs)
    ensures r.Ok? && job.callError.Some? ==> r.value.errorMessage == job.callError
  {
    match job.callError
      case Some(msg) => FailUpdate(executionId, current, msg, job.result, job.resultUri, job.elapsedMs, now)
      case None => CompleteUpdate(executionId, current, job.result, job.resultUri, job.elapsedMs, now)
  }

  // ---------------------------------------------------------------------------
  // Retrying persistence
  // ---------------------------------------------------------------------------

  const MaxPersistAttempts: nat := 5

  /** What one UpdateExecutionRecord call returned; `retryable` is isRetryableDBError. */
  datatype DbOutcome = DbOk | DbErr(message: string, retryable: bool)

  predicate RetryableFailure(o: DbOutcome) { o.DbErr? && o.retryable }

  /**
   * The retry loop of completeExecution and failExecution: attempt 0..4, stop at
   * the first success (no error) or the first non-retryable error (that error);
   * after a retryable error back off (by attempt number) and try again; when five
   * attempts failed retryably, return the last error.
   */
  method PersistWithRetry(outcomes: seq<DbOutcome>) returns (err: Option<string>, attempts: nat, backoffs: seq<nat>)
    requires |outcomes| >= MaxPersistAttempts
    ensures 1 <= attempts <= MaxPersistAttempts
    ensures forall k :: 0 <= k < attempts - 1 ==> RetryableFailure(outcomes[k])
    ensures attempts < MaxPersistAttempts ==> !RetryableFailure(outcomes[attempts - 1])
    ensures err.None? <==> outcomes[attempts - 1].DbOk?
    ensures err.Some? ==> err.value == outcomes[attempts - 1].message
    ensures |backoffs| == (if RetryableFailure(outcomes[attempts - 1]) then attempts else attempts - 1)
    ensures forall k :: 0 <= k < |backoffs| ==> backoffs[k] == k
  {
    var lastErr: Option<string> := None;
    backoffs := [];
    var attempt := 0;
    while attempt < MaxPersistAttempts
      invariant 0 <= attempt <= MaxPersistAttempts
      invariant forall k :: 0 <= k < attempt ==> RetryableFailure(outcomes[k])
      invariant |backoffs| == attempt && forall k :: 0 <= k < attempt ==> backoffs[k] == k
      invariant attempt > 0 ==> lastErr == Some(outcomes[attempt - 1].message)
    {
      match outcomes[attempt] {
        case DbOk =>
          return None, attempt + 1, backoffs;
        case DbErr(msg, retryable) =>
          lastErr := Some(msg);
          if !retryable {
            return lastErr, attempt + 1, backoffs;
          }
          backoffs := backoffs + [attempt];
      }
      attempt := attempt + 1;
    }
    return lastErr, attempt, backoffs;
  }

  /** Persisting succeeds exactly when some attempt succeeds before any non-retryable error. */
  lemma {:induction false} PersistSucceedsIff(outcomes: seq<DbOutcome>, attempts: nat)
    requires 1 <= attempts <= MaxPersistAttempts <= |outcomes|
    requires forall k :: 0 <= k < attempts - 1 ==> RetryableFailure(outcomes[k])
    requires attempts < MaxPersistAttempts ==> !RetryableFailure(outcomes[attempts - 1])
    ensures outcomes[attempts - 1].DbOk? <==>
      exists j :: 0 <= j < MaxPersistAttempts && outcomes[j].DbOk? && forall k :: 0 <= k < j ==> RetryableFailure(outcomes[k])
  {
    if exists j :: 0 <= j < MaxPersistAttempts && outcomes[j].DbOk? && forall k :: 0 <= k < j ==> RetryableFailure(outcomes[k]) {
      var j :| 0 <= j < MaxPersistAttempts && outcomes[j].DbOk? && forall k :: 0 <= k < j ==> RetryableFailure(outcomes[k]);
      assert !RetryableFailure(outcomes[j]);
      assert j >= attempts - 1;
      assert j <= attempts - 1;
    }
  }

  // ---------------------------------------------------------------------------
  // Bounded queues
  // ---------------------------------------------------------------------------

  /**
   * A buffered Go channel used with a non-blocking send (`select` with `default`):
   * a send succeeds and enqueues exactly when there is room, and otherwise leaves
   * the buffer as it was. Workers take jobs in FIFO order.
   */
  class BoundedQueue<T> {
    var items: seq<T>
    const capacity: nat

    ghost predicate Valid()
      reads this
    {
      |items| <= capacity
    }

    constructor (capacity: nat)
      ensures Valid() && this.capacity == capacity && items == []
    {
      this.capacity := capacity;
      items := [];
    }

    /** The non-blocking send of `submit` / `enqueueCompletion`. */
    method TrySend(job: T) returns (ok: bool)
      requires Valid()
      modifies this
      ensures Valid()
      ensures ok <==> |old(items)| < capacity
      ensures items == if ok then old(items) + [job] else old(items)
    {
      ok := |items| < capacity;
      if ok {
        items := items + [job];
      }
    }

    /** A worker receiving the oldest job. */
    method Receive() returns (job: T)
      requires Valid() && items != []
      modifies this
      ensures Valid()
      ensures [job] + items == old(items)
    {
      job := items[0];
      items := items[1..];
    }
  }

  /** resolveIntFromEnv: a blank or non-integer variable gives the fallback. */
  function ResolveIntFromEnv(raw: string, fallback: int): (v: int)
    ensures TrimSpace(raw) == "" ==> v == fallback
    ensures ParseInt(TrimSpace(raw)).None? ==> v == fallback
    ensures ParseInt(TrimSpace(raw)).Some? ==> v == ParseInt(TrimSpace(raw)).value
  {
    var t := TrimSpace(raw);
    if t == "" then fallback
    else match ParseInt(t)
      case None => fallback
      case Some(n) => n
  }

  const DefaultAsyncQueueCapacity: nat := 1024
  const DefaultCompletionQueueCapacity: nat := 2048

  /** A queue size from the environment, with non-positive values replaced by the default. */
  function QueueCapacity(raw: string, default: nat): (c: int)
    requires default > 0
    ensures c > 0
    ensures ResolveIntFromEnv(raw, default) > 0 ==> c == ResolveIntFromEnv(raw, default)
    ensures ResolveIntFromEnv(raw, default) <= 0 ==> c == default
  {
    var v := ResolveIntFromEnv(raw, default);
    if v <= 0 then default else v
  }

  /** An accepted async execution, waiting for a worker. */
  datatype AsyncJob = AsyncJob(executionId: string)

  const QueueFullMessage := "async execution queue is full; retry later"

  /**
   * handleAsync's hand-off: when the pool accepts the job the caller gets 202;
   * when the queue is full the execution is marked failed with the queue-full
   * message (through failExecution) and the caller gets 503.
   */
  method SubmitAsync(pool: BoundedQueue<AsyncJob>, job: AsyncJob, current: Option<Execution>, now: int)
    returns (httpStatus: int, persisted: Option<Result<Execution>>)
    requires pool.Valid()
    modifies pool
    ensures pool.Valid()
    ensures |old(pool.items)| < pool.capacity ==> httpStatus == 202 && persisted.None? && pool.items == old(pool.items) + [job]
    ensures |old(pool.items)| >= pool.capacity ==>
      && httpStatus == 503 && pool.items == old(pool.items)
      && persisted == Some(FailUpdate(job.executionId, current, QueueFullMessage, [], None, 0, now))
  {
    var ok := pool.TrySend(job);
    if ok {
      return 202, None;
    }
    return 503, Some(FailUpdate(job.executionId, current, QueueFullMessage, [], None, 0, now));
  }

  /** enqueueCompletion: an error when the completion queue has no room, nothing else changes. */
  method EnqueueCompletion(queue: BoundedQueue<CompletionJob>, job: CompletionJob) returns (err: Option<string>)
    requires queue.Valid()
    modifies queue
    ensures queue.Valid()
    ensures err.None? <==> |old(queue.items)| < queue.capacity
    ensures err.Some? ==> err.value == "completion queue is full" && queue.items == old(queue.items)
    ensures err.None? ==> queue.items == old(queue.items) + [job]
  {
    var ok := queue.TrySend(job);
    if ok {
      return None;
    }
    return Some("completion queue is full");
  }
}
