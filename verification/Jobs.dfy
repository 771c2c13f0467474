/**
One row of the `jobs` table, what each queue statement does to it, and the log of the statements that took effect
on it.

A job's `history` is the model's own record: one event for every claim, renewal, report and recovery that changed
the row.  `Legal` says which logs the lease protocol allows, in terms of the log alone.  `Agrees` says which log a
row stands for.  The row steps keep both, so each guard the queue evaluates on the row has a meaning in the log.

Times and delays are whole microseconds.  Nothing relates the timestamps of different statements.
*/
module Jobs {
  import opened Options

  type Time = int
  type JobId = nat
  type WorkerId = string

  datatype Status = Queued | Running | RetryScheduled | Succeeded | DeadLettered | Cancelled

  /** The fields a client submits. */
  datatype Submission = Submission(
    queue: string, taskName: string, payload: string, priority: int, maxAttempts: nat, idempotencyKey: Option<string>)

  datatype Job = Job(
    work: Submission,
    status: Status,
    attemptCount: nat,
    availableAt: Time,
    workerId: Option<WorkerId>,
    result: Option<string>,
    lastError: Option<string>,
    startedAt: Option<Time>,
    completedAt: Option<Time>,
    leaseExpiresAt: Option<Time>,
    heartbeatAt: Option<Time>,
    createdAt: Time,
    updatedAt: Time)

  // ---------------------------------------------------------------- retry policy

  predicate ShouldRetry(retryable: bool, attemptCount: nat, maxAttempts: nat) {
    retryable && attemptCount < maxAttempts
  }

  function Pow2(n: nat): nat {
    if n == 0 then 1 else 2 * Pow2(n - 1)
  }

  function RetryDelay(attemptCount: nat, base: nat, cap: nat): nat {
    var exponential := base * Pow2(if attemptCount >= 1 then attemptCount - 1 else 0);
    if exponential <= cap then exponential else cap
  }

  // ---------------------------------------------------------------- guards on a row

  predicate Claimable(j: Job, queues: set<string>, at: Time) {
    && (j.status == Queued || j.status == RetryScheduled)
    && j.work.queue in queues
    && j.availableAt <= at
  }

  /** The WHERE clause shared by renewal, success and failure. */
  predicate Owns(j: Job, worker: WorkerId, at: Time) {
    && j.status == Running
    && j.workerId == Some(worker)
    && j.leaseExpiresAt.Some?
    && j.leaseExpiresAt.value > at
  }

  predicate Stale(j: Job, at: Time) {
    j.status == Running && (j.leaseExpiresAt.None? || j.leaseExpiresAt.value <= at)
  }

  // ---------------------------------------------------------------- what each statement writes

  const LEASE_EXPIRED := "Worker lease expired before job completion"

  function NewJob(work: Submission, at: Time): Job {
    Job(work, Queued, 0, at, None, None, None, None, None, None, None, at, at)
  }

  function ClaimJob(j: Job, worker: WorkerId, at: Time, lease: Time): Job {
    j.(status := Running, workerId := Some(worker), attemptCount := j.attemptCount + 1, startedAt := Some(at),
       leaseExpiresAt := Some(lease), heartbeatAt := Some(at), completedAt := None, result := None, updatedAt := at)
  }

  function RenewJob(j: Job, at: Time, lease: Time): Job {
    j.(heartbeatAt := Some(at), leaseExpiresAt := Some(lease), updatedAt := at)
  }

  function SucceedJob(j: Job, at: Time, result: string): Job {
    j.(status := Succeeded, result := Some(result), lastError := None, completedAt := Some(at),
       leaseExpiresAt := None, heartbeatAt := None, updatedAt := at)
  }

  function FailJob(j: Job, at: Time, error: string, retryable: bool, base: nat, cap: nat): Job {
    var j1 := j.(result := None, lastError := Some(if |error| <= 4000 then error else error[..4000]),
                 updatedAt := at, leaseExpiresAt := None, heartbeatAt := None);
    if ShouldRetry(retryable, j.attemptCount, j.work.maxAttempts) then
      j1.(status := RetryScheduled, availableAt := at + RetryDelay(j.attemptCount, base, cap),
          workerId := None, completedAt := None)
    else
      j1.(status := DeadLettered, completedAt := Some(at))
  }

  function RecoverJob(j: Job, at: Time): Job {
    var j1 := j.(workerId := None, heartbeatAt := None, leaseExpiresAt := None, result := None,
                 lastError := Some(LEASE_EXPIRED), updatedAt := at);
    if ShouldRetry(true, j.attemptCount, j.work.maxAttempts) then
      j1.(status := RetryScheduled, availableAt := at, completedAt := None)
    else
      j1.(status := DeadLettered, completedAt := Some(at))
  }

  // ---------------------------------------------------------------- the log

  datatype Event =
    | Claimed(worker: WorkerId, at: Time, lease: Time)
    | Renewed(worker: WorkerId, at: Time, lease: Time)
    | Completed(worker: WorkerId, at: Time)
    | Failed(worker: WorkerId, at: Time, retryable: bool, base: nat, cap: nat)
    | Recovered(at: Time, expired: Time)

  predicate IsOutcome(e: Event) {
    e.Completed? || e.Failed? || e.Recovered?
  }

  function Front(h: seq<Event>): seq<Event>
    requires h != []
  {
    h[..|h| - 1]
  }

  function Last(h: seq<Event>): Event
    requires h != []
  {
    h[|h| - 1]
  }

  function Claims(h: seq<Event>): nat {
    if h == [] then 0 else Claims(Front(h)) + if Last(h).Claimed? then 1 else 0
  }

  function Outcomes(h: seq<Event>): nat {
    if h == [] then 0 else Outcomes(Front(h)) + if IsOutcome(Last(h)) then 1 else 0
  }

  /** The worker whose claim is still open. */
  function Holder(h: seq<Event>): Option<WorkerId> {
    if h == [] || IsOutcome(Last(h)) then None
    else if Last(h).Claimed? then Some(Last(h).worker)
    else Holder(Front(h))
  }

  /** The time of the latest claim. */
  function ClaimTime(h: seq<Event>): Option<Time> {
    if h == [] then None
    else if Last(h).Claimed? then Some(Last(h).at)
    else ClaimTime(Front(h))
  }

  /** The log ends in an outcome that no further attempt follows. */
  predicate Final(h: seq<Event>, max: nat) {
    h != [] &&
    match Last(h)
    case Completed(_, _) => true
    case Failed(_, _, retryable, _, _) => !retryable || Claims(h) >= max
    case Recovered(_, _) => Claims(h) >= max
    case _ => false
  }

  /** The earliest time at which the outcome just logged lets the job be claimed again. */
  function ReadyAt(h: seq<Event>, created: Time): Time {
    if h == [] then created else
    match Last(h)
    case Failed(_, at, _, base, cap) => at + RetryDelay(Claims(h), base, cap)
    case Recovered(at, _) => at
    case _ => created
  }

  /** A log of the lease protocol: every event was allowed by the events before it. */
  predicate Legal(h: seq<Event>, max: nat, created: Time) {
    h == [] ||
    (Legal(Front(h), max, created) &&
     var f := Front(h);
     match Last(h)
     case Claimed(_, at, _) => Holder(f).None? && !Final(f, max) && Claims(f) < max && ReadyAt(f, created) <= at
     case Renewed(w, at, _) => Holder(f) == Some(w) && at < LeaseEnd(f)
     case Completed(w, at) => Holder(f) == Some(w) && at < LeaseEnd(f)
     case Failed(w, at, _, _, _) => Holder(f) == Some(w) && at < LeaseEnd(f)
     case Recovered(at, expired) => Holder(f).Some? && expired == LeaseEnd(f) && expired <= at)
  }

  /** The lease set by the latest claim or its last renewal (0 when no claim is open). */
  function LeaseEnd(h: seq<Event>): Time {
    if h != [] && (Last(h).Claimed? || Last(h).Renewed?) then Last(h).lease else 0
  }

  /** The row `j` is what a job with log `h` looks like. */
  predicate Agrees(j: Job, h: seq<Event>) {
    var max := j.work.maxAttempts;
    && max >= 1
    && j.attemptCount == Claims(h)
    && Claims(h) <= max
    && j.startedAt == ClaimTime(h)
    && j.status == StatusOf(h, max)
    && (Holder(h).Some? ==>
          && j.workerId == Holder(h)
          && j.leaseExpiresAt == Some(LeaseEnd(h))
          && j.heartbeatAt == Some(Last(h).at))
    && (Holder(h).None? ==> j.leaseExpiresAt.None? && j.heartbeatAt.None?)
    && j.completedAt == (if Final(h, max) then Some(Last(h).at) else None)
    && (j.result.Some? <==> h != [] && Last(h).Completed?)
    && j.updatedAt == (if h == [] then j.createdAt else Last(h).at)
    && (Holder(h).None? && !Final(h, max) ==> j.availableAt == ReadyAt(h, j.createdAt) && j.workerId.None?)
  }

  function StatusOf(h: seq<Event>, max: nat): Status {
    if h == [] then Queued
    else if Holder(h).Some? then Running
    else if Last(h).Completed? then Succeeded
    else if Final(h, max) then DeadLettered
    else RetryScheduled
  }

  datatype Row = Row(job: Job, history: seq<Event>)

  predicate RowOk(r: Row) {
    Legal(r.history, r.job.work.maxAttempts, r.job.createdAt) && Agrees(r.job, r.history)
  }

  // ---------------------------------------------------------------- row steps

  function NewRow(work: Submission, at: Time): Row {
    Row(NewJob(work, at), [])
  }

  function ClaimRow(r: Row, worker: WorkerId, at: Time, lease: Time): Row {
    Row(ClaimJob(r.job, worker, at, lease), r.history + [Claimed(worker, at, lease)])
  }

  function RenewRow(r: Row, worker: WorkerId, at: Time, lease: Time): Row {
    Row(RenewJob(r.job, at, lease), r.history + [Renewed(worker, at, lease)])
  }

  function SucceedRow(r: Row, worker: WorkerId, at: Time, result: string): Row {
    Row(SucceedJob(r.job, at, result), r.history + [Completed(worker, at)])
  }

  function FailRow(r: Row, worker: WorkerId, at: Time, error: string, retryable: bool, base: nat, cap: nat): Row {
    Row(FailJob(r.job, at, error, retryable, base, cap), r.history + [Failed(worker, at, retryable, base, cap)])
  }

  function RecoverRow(r: Row, at: Time): Row {
    Row(RecoverJob(r.job, at),
        r.history + [Recovered(at, if r.job.leaseExpiresAt.Some? then r.job.leaseExpiresAt.value else at)])
  }

  /** `r1` is `r` after at most one queue statement whose guard held. */
  ghost predicate RowStep(r: Row, r1: Row) {
    || r1 == r
    || (exists queues, worker, at, lease ::
          Claimable(r.job, queues, at) && r1 == ClaimRow(r, worker, at, lease))
    || (exists worker, at, lease ::
          Owns(r.job, worker, at) && r1 == RenewRow(r, worker, at, lease))
    || (exists worker, at, result ::
          Owns(r.job, worker, at) && r1 == SucceedRow(r, worker, at, result))
    || (exists worker, at, error, retryable, base, cap ::
          Owns(r.job, worker, at) && r1 == FailRow(r, worker, at, error, retryable, base, cap))
    || (exists at ::
          Stale(r.job, at) && r1 == RecoverRow(r, at))
  }

  lemma Snoc(h: seq<Event>, e: Event)
    ensures h + [e] != [] && Front(h + [e]) == h && Last(h + [e]) == e
  {
  }

  lemma NewRowOk(work: Submission, at: Time)
    requires work.maxAttempts >= 1
    ensures RowOk(NewRow(work, at))
  {
  }

  lemma ClaimRowOk(r: Row, queues: set<string>, worker: WorkerId, at: Time, lease: Time)
    requires RowOk(r) && Claimable(r.job, queues, at)
    ensures RowOk(ClaimRow(r, worker, at, lease))
  {
    Snoc(r.history, Claimed(worker, at, lease));
    RowShape(r);
  }

  lemma RenewRowOk(r: Row, worker: WorkerId, at: Time, lease: Time)
    requires RowOk(r) && Owns(r.job, worker, at)
    ensures RowOk(RenewRow(r, worker, at, lease))
  {
  }

  lemma SucceedRowOk(r: Row, worker: WorkerId, at: Time, result: string)
    requires RowOk(r) && Owns(r.job, worker, at)
    ensures RowOk(SucceedRow(r, worker, at, result))
  {
  }

  lemma FailRowOk(r: Row, worker: WorkerId, at: Time, error: string, retryable: bool, base: nat, cap: nat)
    requires RowOk(r) && Owns(r.job, worker, at)
    ensures RowOk(FailRow(r, worker, at, error, retryable, base, cap))
  {
  }

  lemma RecoverRowOk(r: Row, at: Time)
    requires RowOk(r) && Stale(r.job, at)
    ensures RowOk(RecoverRow(r, at))
  {
  }

  /** Reading a row's status tells which part of the log it is in. */
  lemma RowShape(r: Row)
    requires RowOk(r)
    ensures r.job.status == Running <==> Holder(r.history).Some?
    ensures Holder(r.history).Some? ==> Last(r.history).Claimed? || Last(r.history).Renewed?
    ensures r.job.status == Queued || r.job.status == RetryScheduled
            <==> Holder(r.history).None? && !Final(r.history, r.job.work.maxAttempts)
    ensures Holder(r.history).None? && !Final(r.history, r.job.work.maxAttempts)
            ==> Claims(r.history) < r.job.work.maxAttempts
    ensures r.job.status != Cancelled
  {
  }

  lemma StepKeepsWork(r: Row, r1: Row)
    requires RowStep(r, r1)
    ensures r1.job.work == r.job.work && r1.job.createdAt == r.job.createdAt
  {
  }

  /** Every row step keeps the row a faithful image of a legal log. */
  lemma RowStepOk(r: Row, r1: Row)
    requires RowOk(r) && RowStep(r, r1)
    ensures RowOk(r1)
    ensures r1.job.work == r.job.work && r1.job.createdAt == r.job.createdAt
  {
    StepKeepsWork(r, r1);
    hide Legal, Agrees, ClaimJob, RenewJob, SucceedJob, FailJob, RecoverJob;
    if r1 == r {
    } else if queues, worker, at, lease :|
        Claimable(r.job, queues, at) && r1 == ClaimRow(r, worker, at, lease) {
      ClaimRowOk(r, queues, worker, at, lease);
    } else if worker, at, lease :|
        Owns(r.job, worker, at) && r1 == RenewRow(r, worker, at, lease) {
      RenewRowOk(r, worker, at, lease);
    } else if worker, at, result :|
        Owns(r.job, worker, at) && r1 == SucceedRow(r, worker, at, result) {
      SucceedRowOk(r, worker, at, result);
    } else if worker, at, error, retryable, base, cap :|
        Owns(r.job, worker, at) && r1 == FailRow(r, worker, at, error, retryable, base, cap) {
      FailRowOk(r, worker, at, error, retryable, base, cap);
    } else {
      var at :| Stale(r.job, at) && r1 == RecoverRow(r, at);
      RecoverRowOk(r, at);
    }
  }
}
