/**
The queue and the submission service as the program writes them: loops and assignments over the rows of a table.

`JobTable` holds the committed rows and the open transactions.  Its ghost `steps` lists the steps of JobStore the
calls so far stand for, and the fields always show the store that this run leads to.  So everything proved of runs
holds of every sequence of calls.
*/
module JobQueue {
  import opened Options
  import opened Jobs
  import opened Selection
  import opened JobStore
  import opened JobView
  import opened JobRuns
  import opened Submissions
  import Recovery

  ghost function After(steps: seq<Op>): Store {
    Run(EMPTY, steps)
  }

  lemma AfterOneMore(steps: seq<Op>, op: Op)
    ensures After(steps + [op]) == Apply(After(steps), op)
  {
    RunSnoc(EMPTY, steps, op);
  }

  class JobTable {
    var jobs: map<JobId, Job>
    var open: map<TxnId, Txn>
    ghost var steps: seq<Op>

    ghost predicate Valid()
      reads this
    {
      jobs == JobsOf(After(steps)) && open == After(steps).open
    }

    constructor ()
      ensures Valid() && steps == []
    {
      jobs, open, steps := map[], map[], [];
    }

    function LockedRows(): (locked: set<JobId>)
      requires Valid()
      reads this
      ensures locked == Locked(After(steps))
    {
      set t, id | t in open && id in open[t].ids :: id
    }

    // -------------------------------------------------------------- submission

    /** `JobService.create_job` over `create_or_get_idempotent_job`. */
    method CreateJob(newId: JobId, work: Submission, at: Time) returns (answer: Outcome)
      requires Valid()
      modifies this
      ensures Valid() && steps == old(steps) + [Submit(newId, work, at)]
      ensures UniqueKeys(After(old(steps)))
      ensures newId !in old(jobs) ==> answer == Answer(After(old(steps)), newId, work)
      // In terms of the rows: a repetition of the same work is answered with its job, other work under its key refused.
      ensures !(1 <= work.maxAttempts <= 100 && -100 <= work.priority <= 100) ==> answer == Refused
      ensures 1 <= work.maxAttempts <= 100 && -100 <= work.priority <= 100 ==>
                && (forall id :: answer == Replayed(id) <==>
                      work.idempotencyKey.Some? && id in old(jobs) && old(jobs)[id].work == work)
                && (answer == Conflict <==>
                      && work.idempotencyKey.Some?
                      && exists id :: id in old(jobs) && old(jobs)[id].work.idempotencyKey == work.idempotencyKey
                                      && old(jobs)[id].work != work)
                && (answer.Created? <==>
                      && newId !in old(jobs)
                      && (work.idempotencyKey.Some? ==>
                            forall id :: id in old(jobs) ==> old(jobs)[id].work.idempotencyKey != work.idempotencyKey))
      ensures !answer.Created? ==> jobs == old(jobs)
      ensures answer.Created? ==>
                && answer.id == newId
                && jobs == old(jobs)[newId := Job(work, Queued, 0, at, None, None, None, None, None, None, None, at, at)]
    {
      ghost var s := After(steps);
      ReachableOk(steps);
      AfterOneMore(steps, Submit(newId, work, at));
      steps := steps + [Submit(newId, work, at)];
      if !ValidSubmission(work) {
        return Refused;
      }
      var owner := FindKey(work.idempotencyKey);
      assert jobs == JobsOf(s);
      OwnerIsKeyOwner(s, work, owner);
      OneOwner(s, work, owner);
      if owner.Some? {
        var j := jobs[owner.value];
        answer := if Matches(j.work, work) then Replayed(owner.value) else Conflict;
      } else if newId in jobs {
        answer := Refused;
      } else {
        jobs := jobs[newId := NewJob(work, at)];
        ReportView(s, newId, NewRow(work, at));
        answer := Created(newId);
      }
    }

    /** The lookup behind ON CONFLICT: the row that owns the key. */
    method FindKey(key: Option<string>) returns (owner: Option<JobId>)
      ensures owner.None? ==> key.None? || forall id :: id in jobs ==> jobs[id].work.idempotencyKey != key
      ensures owner.Some? ==> key.Some? && owner.value in jobs && jobs[owner.value].work.idempotencyKey == key
    {
      if key.None? {
        return None;
      }
      var rest := jobs.Keys;
      while rest != {}
        invariant rest <= jobs.Keys
        invariant forall id :: id in jobs && id !in rest ==> jobs[id].work.idempotencyKey != key
        decreases |rest|
      {
        var id :| id in rest;
        if jobs[id].work.idempotencyKey == key {
          return Some(id);
        }
        rest := rest - {id};
      }
      owner := None;
    }

    // -------------------------------------------------------------- claiming and recovering

    /** The locking SELECT of `claim_jobs`. */
    method LockClaim(txn: TxnId, worker: WorkerId, queues: set<string>, limit: int, at: Time, lease: Time)
      requires Valid() && txn !in open && queues != {} && limit >= 1
      modifies this
      ensures Valid() && steps == old(steps) + [LockForClaim(txn, worker, queues, limit, at, lease)]
      ensures jobs == old(jobs) && open.Keys == old(open).Keys + {txn} && open == old(open)[txn := open[txn]]
      ensures ClaimableNow(old(jobs), old(open), queues, at, limit, open[txn].ids)
    {
      var locked := LockedRows();
      var keys := map id | id in jobs && id !in locked && Claimable(jobs[id], queues, at)
        :: SortKey(-jobs[id].work.priority, jobs[id].availableAt, jobs[id].createdAt, id);
      ClaimKeysView(After(steps), queues, at);
      ClaimsByFields(After(steps), queues, at, limit);
      open := open[txn := ClaimTxn(Take(keys, limit), queues, worker, at, lease)];
      AfterOneMore(steps, LockForClaim(txn, worker, queues, limit, at, lease));
      steps := steps + [LockForClaim(txn, worker, queues, limit, at, lease)];
    }

    /** The locking SELECT of `recover_stale_jobs`. */
    method LockStale(txn: TxnId, limit: int, at: Time)
      requires Valid() && txn !in open && limit >= 1
      modifies this
      ensures Valid() && steps == old(steps) + [LockForRecovery(txn, limit, at)]
      ensures jobs == old(jobs) && open.Keys == old(open).Keys + {txn} && open == old(open)[txn := open[txn]]
      ensures RecoverableNow(old(jobs), old(open), at, limit, open[txn].ids)
    {
      var locked := LockedRows();
      var keys := map id | id in jobs && id !in locked && Stale(jobs[id], at)
        :: SortKey(if jobs[id].leaseExpiresAt.None? then 0 else 1,
                   if jobs[id].leaseExpiresAt.None? then 0 else jobs[id].leaseExpiresAt.value, 0, id);
      RecoverKeysView(After(steps), at);
      RecoversByFields(After(steps), at, limit);
      open := open[txn := RecoverTxn(Take(keys, limit), at)];
      AfterOneMore(steps, LockForRecovery(txn, limit, at));
      steps := steps + [LockForRecovery(txn, limit, at)];
    }

    /** The update loop of `claim_jobs` and its commit. */
    method CommitClaim(txn: TxnId) returns (claimed: seq<JobId>)
      requires Valid() && txn in open && open[txn].ClaimTxn?
      modifies this
      ensures Valid() && steps == old(steps) + [Commit(txn)]
      ensures claimed == old(open[txn].ids) && open == old(open) - {txn}
    {
      var t := open[txn];
      CommitEffect(steps, txn);
      ghost var before := jobs;
      claimed := [];
      while |claimed| < |t.ids|
        invariant claimed <= t.ids && open == old(open) && steps == old(steps)
        invariant jobs == UpdateAll(before, t, claimed) && jobs.Keys == before.Keys
      {
        var id := t.ids[|claimed|];
        var next := claimed + [id];
        assert next[..|next| - 1] == claimed;
        jobs := jobs[id := ClaimJob(jobs[id], t.worker, t.at, t.lease)];
        claimed := next;
      }
      assert claimed == t.ids;
      open := open - {txn};
      steps := steps + [Commit(txn)];
    }

    /** The update loop of `recover_stale_jobs`, its two counters and its commit. */
    method CommitRecovery(txn: TxnId) returns (retried: nat, deadLettered: nat)
      requires Valid() && txn in open && open[txn].RecoverTxn?
      modifies this
      ensures Valid() && steps == old(steps) + [Commit(txn)]
      ensures retried == CountWith(jobs, old(open[txn].ids), RetryScheduled)
      ensures deadLettered == CountWith(jobs, old(open[txn].ids), DeadLettered)
      ensures retried + deadLettered == |old(open[txn].ids)| && open == old(open) - {txn}
    {
      var t := open[txn];
      CommitEffect(steps, txn);
      ghost var before := jobs;
      retried, deadLettered := 0, 0;
      var done: seq<JobId> := [];
      while |done| < |t.ids|
        invariant done <= t.ids && open == old(open) && steps == old(steps)
        invariant jobs == UpdateAll(before, t, done) && jobs.Keys == before.Keys
        invariant retried == CountWith(jobs, done, RetryScheduled)
        invariant deadLettered == CountWith(jobs, done, DeadLettered)
        invariant retried + deadLettered == |done|
      {
        var id := t.ids[|done|];
        assert done == t.ids[..|done|];
        var next := done + [id];
        assert next[..|next| - 1] == done;
        var job := RecoverJob(jobs[id], t.at);
        CountElsewhere(jobs, done, id, job);
        if ShouldRetry(true, jobs[id].attemptCount, jobs[id].work.maxAttempts) {
          retried := retried + 1;
        } else {
          deadLettered := deadLettered + 1;
        }
        jobs := jobs[id := job];
        done := next;
      }
      assert done == t.ids;
      open := open - {txn};
      steps := steps + [Commit(txn)];
    }

    method RollbackTxn(txn: TxnId)
      requires Valid()
      modifies this
      ensures Valid() && steps == old(steps) + [Rollback(txn)] && jobs == old(jobs) && open == old(open) - {txn}
    {
      AfterOneMore(steps, Rollback(txn));
      open := open - {txn};
      steps := steps + [Rollback(txn)];
    }

    // -------------------------------------------------------------- reports of a worker

    /** `renew_lease`: the guarded UPDATE, once no other transaction holds the row. */
    method RenewLease(id: JobId, worker: WorkerId, at: Time, lease: Time) returns (renewed: bool)
      requires Valid() && id !in Locked(After(steps))
      modifies this
      ensures Valid() && steps == old(steps) + [Renew(id, worker, at, lease)]
      ensures renewed <==> ReportLands(After(old(steps)), id, worker, at)
      ensures renewed <==> IsHeldBy(old(jobs), id, worker, at)
      ensures jobs == if !renewed then old(jobs)
                      else old(jobs)[id := old(jobs)[id].(
                             heartbeatAt := Some(at), leaseExpiresAt := Some(lease), updatedAt := at)]
    {
      ghost var s := After(steps);
      AfterOneMore(steps, Renew(id, worker, at, lease));
      steps := steps + [Renew(id, worker, at, lease)];
      renewed := id in jobs && Owns(jobs[id], worker, at);
      if renewed {
        ReportView(s, id, RenewRow(s.rows[id], worker, at, lease));
        jobs := jobs[id := RenewJob(jobs[id], at, lease)];
      }
    }

    method MarkSucceeded(id: JobId, worker: WorkerId, at: Time, result: string) returns (updated: bool)
      requires Valid() && id !in Locked(After(steps))
      modifies this
      ensures Valid() && steps == old(steps) + [Succeed(id, worker, at, result)]
      ensures updated <==> ReportLands(After(old(steps)), id, worker, at)
      ensures updated <==> IsHeldBy(old(jobs), id, worker, at)
      ensures updated ==>
                var j := old(jobs)[id];
                jobs == old(jobs)[id := Job(j.work, Succeeded, j.attemptCount, j.availableAt, j.workerId, Some(result), None,
                                            j.startedAt, Some(at), None, None, j.createdAt, at)]
      ensures !updated ==> jobs == old(jobs)
    {
      ghost var s := After(steps);
      AfterOneMore(steps, Succeed(id, worker, at, result));
      steps := steps + [Succeed(id, worker, at, result)];
      updated := id in jobs && Owns(jobs[id], worker, at);
      if updated {
        ReportView(s, id, SucceedRow(s.rows[id], worker, at, result));
        jobs := jobs[id := SucceedJob(jobs[id], at, result)];
      }
    }

    /** `mark_failed`: the resulting status, or None when the worker no longer owns the job. */
    method MarkFailed(id: JobId, worker: WorkerId, at: Time, error: string, retryable: bool, base: nat, cap: nat)
      returns (status: Option<Status>)
      requires Valid() && id !in Locked(After(steps))
      modifies this
      ensures Valid() && steps == old(steps) + [Fail(id, worker, at, error, retryable, base, cap)]
      ensures status.Some? <==> ReportLands(After(old(steps)), id, worker, at)
      ensures status.Some? ==> id in jobs && status.value == jobs[id].status
      ensures status.Some? <==> IsHeldBy(old(jobs), id, worker, at)
      ensures status.None? ==> jobs == old(jobs)
      ensures status.Some? ==>
                var j := old(jobs)[id];
                var again := retryable && j.attemptCount < j.work.maxAttempts;
                jobs == old(jobs)[id :=
                  Job(j.work, if again then RetryScheduled else DeadLettered, j.attemptCount,
                      if again then at + RetryDelay(j.attemptCount, base, cap) else j.availableAt,
                      if again then None else j.workerId, None, Some(if |error| <= 4000 then error else error[..4000]),
                      j.startedAt, if again then None else Some(at), None, None, j.createdAt, at)]
    {
      FailEffect(steps, id, worker, at, error, retryable, base, cap);
      steps := steps + [Fail(id, worker, at, error, retryable, base, cap)];
      if id in jobs && Owns(jobs[id], worker, at) {
        jobs := jobs[id := FailJob(jobs[id], at, error, retryable, base, cap)];
        status := Some(jobs[id].status);
      } else {
        status := None;
      }
    }

    // -------------------------------------------------------------- whole calls, with others in between

    /** Any steps of the other processes. */
    method Interfere(ops: seq<Op>)
      requires Valid()
      modifies this
      ensures Valid() && steps == old(steps) + ops
    {
      var i := 0;
      while i < |ops|
        invariant 0 <= i <= |ops| && Valid()
        invariant steps == old(steps) + ops[..i]
      {
        assert ops[..i + 1] == ops[..i] + [ops[i]];
        Step(ops[i]);
        i := i + 1;
      }
    }

    /** One step of another process; it changes nothing if the database makes it wait or refuses it. */
    method Step(op: Op)
      requires Valid()
      modifies this
      ensures Valid() && steps == old(steps) + [op]
    {
      var locked := LockedRows();
      AfterOneMore(steps, op);
      match op
      case Submit(newId, work, at) =>
        var _ := CreateJob(newId, work, at);
      case LockForClaim(txn, worker, queues, limit, at, lease) =>
        if txn in open || queues == {} || limit < 1 { steps := steps + [op]; }
        else { LockClaim(txn, worker, queues, limit, at, lease); }
      case LockForRecovery(txn, limit, at) =>
        if txn in open || limit < 1 { steps := steps + [op]; }
        else { LockStale(txn, limit, at); }
      case Commit(txn) =>
        if txn !in open { steps := steps + [op]; }
        else if open[txn].ClaimTxn? { var _ := CommitClaim(txn); }
        else { var _, _ := CommitRecovery(txn); }
      case Rollback(txn) => RollbackTxn(txn);
      case Renew(id, worker, at, lease) =>
        if id in locked { steps := steps + [op]; } else { var _ := RenewLease(id, worker, at, lease); }
      case Succeed(id, worker, at, result) =>
        if id in locked { steps := steps + [op]; } else { var _ := MarkSucceeded(id, worker, at, result); }
      case Fail(id, worker, at, error, retryable, base, cap) =>
        if id in locked { steps := steps + [op]; }
        else { var _ := MarkFailed(id, worker, at, error, retryable, base, cap); }
    }

    /**
    `claim_jobs`, with any steps of other processes between its locking SELECT and its commit: it claims the rows
    it selected, as they were when it selected them.
    */
    method ClaimJobs(
        txn: TxnId, worker: WorkerId, queues: set<string>, limit: int, at: Time, duration: nat, others: seq<Op>)
      returns (claimed: seq<JobId>)
      requires Valid() && txn !in open && forall i :: 0 <= i < |others| ==> !Ends(others[i], txn)
      modifies this
      ensures Valid()
      ensures queues == {} || limit < 1 ==>
                claimed == [] && jobs == old(jobs) && open == old(open) && steps == old(steps)
      ensures queues != {} && limit >= 1 ==>
                && steps == old(steps) + [LockForClaim(txn, worker, queues, limit, at, at + duration)]
                            + others + [Commit(txn)]
                && claimed == Take(ClaimKeys(After(old(steps)), queues, at), limit) && txn !in open
                // In terms of the rows: which jobs it takes, which it leaves, and what it writes.
                && ClaimableNow(old(jobs), old(open), queues, at, limit, claimed)
                && (forall id :: id in claimed ==>
                      && id in old(jobs) && id in jobs
                      && var j := old(jobs)[id];
                         jobs[id] == Job(j.work, Running, j.attemptCount + 1, j.availableAt, Some(worker), None, j.lastError,
                                         Some(at), None, Some(at + duration), Some(at), j.createdAt, at))
    {
      hide ClaimableNow, Locked, StoreOk, Ends, Run;
      if queues == {} || limit < 1 {
        return [];
      }
      ghost var s0 := After(steps);
      ReachableOk(steps);
      ghost var lock := LockForClaim(txn, worker, queues, limit, at, at + duration);
      LockClaim(txn, worker, queues, limit, at, at + duration);
      AfterOneMore(old(steps), lock);
      ghost var s1 := After(steps);
      assert open[txn] == ClaimTxn(Take(ClaimKeys(s0, queues, at), limit), queues, worker, at, at + duration);
      hide Apply, Take, ClaimKeys;
      ReachableOk(steps);
      RunConcat(EMPTY, steps, others);
      LockedRowsWait(s1, others, txn);
      Interfere(others);
      ClaimedRows(s0, txn, worker, queues, limit, at, at + duration, others);
      ClaimsByFields(s0, queues, at, limit);
      AfterOneMore(steps, Commit(txn));
      claimed := CommitClaim(txn);
    }

    /**
    `recover_stale_jobs`, with any steps of other processes between its locking SELECT and its commit: it recovers the
    rows it selected, as they were when it selected them, and counts each of them once.
    */
    method RecoverStaleJobs(txn: TxnId, limit: int, at: Time, others: seq<Op>) returns (retried: nat, deadLettered: nat)
      requires Valid() && txn !in open && forall i :: 0 <= i < |others| ==> !Ends(others[i], txn)
      modifies this
      ensures Valid()
      ensures limit < 1 ==>
                jobs == old(jobs) && open == old(open) && steps == old(steps) && retried == deadLettered == 0
      ensures limit >= 1 ==>
                && steps == old(steps) + [LockForRecovery(txn, limit, at)] + others + [Commit(txn)]
                && txn !in open
                && var ids := Recovery.Selected(After(old(steps)), limit, at);
                   && retried + deadLettered == |ids|
                   && retried == CountWith(jobs, ids, RetryScheduled)
                   && deadLettered == CountWith(jobs, ids, DeadLettered)
                   // In terms of the rows: which jobs it takes, which it leaves, and what it writes.
                   && RecoverableNow(old(jobs), old(open), at, limit, ids)
                   && (forall id :: id in ids ==>
                         && id in old(jobs) && id in jobs
                         && var j := old(jobs)[id];
                            var again := j.attemptCount < j.work.maxAttempts;
                            jobs[id] == Job(j.work, if again then RetryScheduled else DeadLettered, j.attemptCount,
                                            if again then at else j.availableAt, None, None,
                                            Some("Worker lease expired before job completion"), j.startedAt,
                                            if again then None else Some(at), None, None, j.createdAt, at))
    {
      if limit < 1 {
        return 0, 0;
      }
      ghost var s0 := After(steps);
      ReachableOk(steps);
      ghost var lock := LockForRecovery(txn, limit, at);
      LockStale(txn, limit, at);
      AfterOneMore(old(steps), lock);
      ghost var s1 := After(steps);
      ReachableOk(steps);
      RunConcat(EMPTY, steps, others);
      LockedRowsWait(s1, others, txn);
      Interfere(others);
      RecoveredRows(s0, txn, limit, at, others);
      RecoversByFields(s0, at, limit);
      AfterOneMore(steps, Commit(txn));
      retried, deadLettered := CommitRecovery(txn);
    }
  }

  // ---------------------------------------------------------------- lemmas for the loops

  lemma OwnerIsKeyOwner(s: Store, work: Submission, owner: Option<JobId>)
    requires UniqueKeys(s) && ValidSubmission(work)
    requires owner.None? && work.idempotencyKey.Some? ==>
               forall id :: id in JobsOf(s) ==> JobsOf(s)[id].work.idempotencyKey != work.idempotencyKey
    requires owner.Some? ==>
               && work.idempotencyKey.Some? && owner.value in JobsOf(s)
               && JobsOf(s)[owner.value].work.idempotencyKey == work.idempotencyKey
    ensures owner.Some? <==> KeyTaken(s, work)
    ensures owner.Some? ==> owner.value == KeyOwner(s, work)
  {
    if owner.None? && work.idempotencyKey.Some? {
      forall id | id in s.rows
        ensures s.rows[id].job.work.idempotencyKey != work.idempotencyKey
      {
        assert id in JobsOf(s);
      }
    }
  }

  /** The key has one owner. */
  lemma OneOwner(s: Store, work: Submission, owner: Option<JobId>)
    requires UniqueKeys(s)
    requires owner.Some? ==>
               && work.idempotencyKey.Some? && owner.value in JobsOf(s)
               && JobsOf(s)[owner.value].work.idempotencyKey == work.idempotencyKey
    ensures owner.Some? ==>
              forall id :: id in JobsOf(s) && JobsOf(s)[id].work.idempotencyKey == work.idempotencyKey ==> id == owner.value
  {
  }

  /** What the commit of an open transaction does to the table, and that its rows are there and distinct. */
  lemma CommitEffect(steps: seq<Op>, txn: TxnId)
    requires txn in After(steps).open
    ensures var s := After(steps); var s1 := After(steps + [Commit(txn)]); var t := s.open[txn];
            && JobsOf(s1) == UpdateAll(JobsOf(s), t, t.ids) && s1.open == s.open - {txn}
            && (forall i :: 0 <= i < |t.ids| ==> t.ids[i] in JobsOf(s))
            && (forall i :: 0 <= i < |t.ids| ==> t.ids[i] !in t.ids[..i])
  {
    var s := After(steps);
    ReachableOk(steps);
    AfterOneMore(steps, Commit(txn));
    CommitView(s, txn);
    assert TxnOk(s, s.open[txn]);
  }

  /** What a failure report does to the table. */
  lemma FailEffect(
      steps: seq<Op>, id: JobId, worker: WorkerId, at: Time, error: string, retryable: bool, base: nat, cap: nat)
    ensures var s := After(steps); var s1 := After(steps + [Fail(id, worker, at, error, retryable, base, cap)]);
            && s1.open == s.open
            && JobsOf(s1) == if ReportLands(s, id, worker, at)
                             then JobsOf(s)[id := FailJob(JobsOf(s)[id], at, error, retryable, base, cap)]
                             else JobsOf(s)
  {
    var s := After(steps);
    AfterOneMore(steps, Fail(id, worker, at, error, retryable, base, cap));
    if ReportLands(s, id, worker, at) {
      ReportView(s, id, FailRow(s.rows[id], worker, at, error, retryable, base, cap));
    }
  }

  /** How many of the listed jobs have the status. */
  function CountWith(jobs: map<JobId, Job>, ids: seq<JobId>, status: Status): nat {
    if ids == [] then 0
    else
      var id := ids[|ids| - 1];
      CountWith(jobs, ids[..|ids| - 1], status) + if id in jobs && jobs[id].status == status then 1 else 0
  }

  lemma {:induction false} CountElsewhere(jobs: map<JobId, Job>, ids: seq<JobId>, id: JobId, job: Job)
    requires id !in ids
    ensures CountWith(jobs[id := job], ids, RetryScheduled) == CountWith(jobs, ids, RetryScheduled)
    ensures CountWith(jobs[id := job], ids, DeadLettered) == CountWith(jobs, ids, DeadLettered)
  {
    if ids != [] {
      CountElsewhere(jobs, ids[..|ids| - 1], id, job);
    }
  }

  /** The rows a claim returns, seen without their logs. */
  lemma ClaimedRows(
      s: Store, txn: TxnId, worker: WorkerId, queues: set<string>, limit: int, at: Time, lease: Time, ops: seq<Op>)
    requires StoreOk(s) && txn !in s.open && queues != {} && limit >= 1
    requires forall i :: 0 <= i < |ops| ==> !Ends(ops[i], txn)
    ensures var ids := Take(ClaimKeys(s, queues, at), limit);
            var after := Apply(Run(Apply(s, LockForClaim(txn, worker, queues, limit, at, lease)), ops), Commit(txn));
            forall id :: id in ids ==> id in JobsOf(s) && id in JobsOf(after)
                                       && JobsOf(after)[id] == ClaimJob(JobsOf(s)[id], worker, at, lease)
  {
    hide Apply, Run, StoreOk;
    ClaimCommitsWhatItLocked(s, txn, worker, queues, limit, at, lease, ops);
  }

  /** The rows a recovery leaves, seen without their logs. */
  lemma RecoveredRows(s: Store, txn: TxnId, limit: nat, at: Time, ops: seq<Op>)
    requires StoreOk(s) && txn !in s.open && limit >= 1 && forall i :: 0 <= i < |ops| ==> !Ends(ops[i], txn)
    ensures var ids := Recovery.Selected(s, limit, at);
            var after := Apply(Run(Apply(s, LockForRecovery(txn, limit, at)), ops), Commit(txn));
            forall id :: id in ids ==> id in JobsOf(s) && id in JobsOf(after)
                                       && JobsOf(after)[id] == RecoverJob(JobsOf(s)[id], at)
  {
    hide Apply, Run, StoreOk, Recovery.Selected;
    var w := Recovery.Wake(txn, at, [], ops, Recovery.Commits);
    Recovery.RecoveryTakesOnlyStale(s, w, limit);
    Recovery.RoundRun(s, w, limit);
  }
}
