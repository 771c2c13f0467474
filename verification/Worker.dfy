/**
The worker runtime as sequences of store calls: processing one claimed job under every pattern of exceptions, the
heartbeat beside it, and the recovery loop.  Between its calls any steps of other slots and workers may happen.
*/
module Worker {
  import opened Options
  import opened Faults
  import opened Jobs
  import opened JobHistory
  import opened Selection
  import opened JobStore
  import opened JobView
  import opened JobRuns
  import opened JobQueue
  import opened Heartbeat
  import Recovery

  datatype Handler =
    | Returns(result: string)
    | Raises(error: string, retryable: bool)
    | CancelledByShutdown

  /** What the environment does around one call of `_process_job`, and the clock readings of its two reports. */
  datatype Script = Script(
    handler: Handler, before: seq<Op>, succeedFault: Fault, succeedAt: Time,
    between: seq<Op>, failFault: Fault, failAt: Time, storeError: string)

  /** `mark_succeeded` is reached, and its statement executes. */
  predicate SuccessExecutes(c: Script) {
    c.handler.Returns? && !c.succeedFault.RaisesBefore?
  }

  /** The exception that reaches the failure branch: the handler's, or the one `mark_succeeded` raised. */
  function Caught(c: Script): Option<(string, bool)> {
    match c.handler
    case Returns(_) => if c.succeedFault.Clean? then None else Some((c.storeError, true))
    case Raises(error, retryable) => Some((error, retryable))
    case CancelledByShutdown => None
  }

  function SuccessSteps(c: Script, id: JobId, worker: WorkerId): seq<Op> {
    if SuccessExecutes(c) then [Succeed(id, worker, c.succeedAt, c.handler.result)] else []
  }

  function FailureSteps(c: Script, id: JobId, worker: WorkerId, base: nat, cap: nat): seq<Op> {
    if Caught(c).None? then []
    else
      c.between
      + if c.failFault.RaisesBefore? then []
        else [Fail(id, worker, c.failAt, Caught(c).value.0, Caught(c).value.1, base, cap)]
  }

  /**
  The reports, and what others do around them, told from what happened: a result is reported once; a handler's own error
  is reported with its own word on retrying; and a success report that raised is followed by a retryable failure report
  of that error, whether or not it had taken effect.
  */
  ghost predicate ReportsAre(c: Script, steps: seq<Op>, id: JobId, worker: WorkerId, base: nat, cap: nat) {
    match c.handler
    case CancelledByShutdown => steps == c.before
    case Raises(error, retryable) =>
      steps == c.before + c.between
               + if c.failFault.RaisesBefore? then [] else [Fail(id, worker, c.failAt, error, retryable, base, cap)]
    case Returns(result) =>
      match c.succeedFault
      case Clean => steps == c.before + [Succeed(id, worker, c.succeedAt, result)]
      case RaisesBefore =>
        steps == c.before + c.between
                 + if c.failFault.RaisesBefore? then [] else [Fail(id, worker, c.failAt, c.storeError, true, base, cap)]
      case RaisesAfter =>
        steps == c.before + [Succeed(id, worker, c.succeedAt, result)] + c.between
                 + if c.failFault.RaisesBefore? then [] else [Fail(id, worker, c.failAt, c.storeError, true, base, cap)]
  }

  lemma ScriptReports(c: Script, id: JobId, worker: WorkerId, base: nat, cap: nat)
    ensures ReportsAre(c, c.before + SuccessSteps(c, id, worker) + FailureSteps(c, id, worker, base, cap),
                       id, worker, base, cap)
  {
  }

  /** One round of a slot: the claim with what others do between its two steps, and the processing of what it claimed. */
  datatype SlotRound = SlotRound(txn: TxnId, at: Time, others: seq<Op>, claimFault: Fault, script: Script)

  function ClaimSteps(c: SlotRound, queues: set<string>, worker: WorkerId, duration: nat): seq<Op> {
    if queues == {} || c.claimFault.RaisesBefore? then []
    else [LockForClaim(c.txn, worker, queues, 1, c.at, c.at + duration)] + c.others + [Commit(c.txn)]
  }

  /** What the round's claim selects: at most one job. */
  function Picked(s: Store, c: SlotRound, queues: set<string>): (ids: seq<JobId>)
    ensures |ids| <= 1
  {
    if queues == {} || c.claimFault.RaisesBefore? then []
    else
      TakeIsSelection(ClaimKeys(s, queues, c.at), 1);
      Take(ClaimKeys(s, queues, c.at), 1)
  }

  /** Job `id` is in nobody's transaction when the reports of the script need its row. */
  ghost predicate RowFree(steps: seq<Op>, c: Script, id: JobId, worker: WorkerId) {
    && id !in Locked(After(steps + c.before))
    && id !in Locked(After(steps + c.before + SuccessSteps(c, id, worker) + c.between))
  }

  /**
  What an accepted report of `worker` ended, from the log `h0` when the slot got the job to the log `h` at the end: the
  claim that was the latest in `h0` if and only if the row's attempt count is still the one the slot was given, which
  is so if and only if no slot of the process has claimed the job again; and otherwise a later claim of the process.
  */
  ghost predicate ReportEnded(h0: seq<Event>, h: seq<Event>, worker: WorkerId, given: nat, found: nat) {
    && (LatestClaim(h) == LatestClaim(h0) <==> found == given)
    && (LatestClaim(h) == LatestClaim(h0) <==> NoClaimSince(h, |h0|, worker))
    && (LatestClaim(h) == LatestClaim(h0) && Holder(h0).Some? ==> Outcomes(h) == Outcomes(h0) + 1)
    && (LatestClaim(h) != LatestClaim(h0) ==>
          |h0| <= LatestClaim(h) < |h| && h[LatestClaim(h)].Claimed? && h[LatestClaim(h)].worker == worker)
  }

  class JobWorker {
    const table: JobTable
    const queues: set<string>
    const workerId: WorkerId
    const leaseDuration: nat
    const retryBase: nat
    const retryCap: nat

    constructor (
        table: JobTable, queues: set<string>, workerId: WorkerId, leaseDuration: nat, retryBase: nat, retryCap: nat)
      ensures this.table == table && this.queues == queues
      ensures this.workerId == workerId && this.leaseDuration == leaseDuration
      ensures this.retryBase == retryBase && this.retryCap == retryCap
    {
      this.table, this.queues, this.workerId, this.leaseDuration := table, queues, workerId, leaseDuration;
      this.retryBase, this.retryCap := retryBase, retryCap;
    }

    /**
    `_process_job`.  At most one of its reports is accepted; an accepted success stands at the end whatever was
    raised after it; and the accepted report is the outcome of the claim this slot was given exactly when the row's
    attempt count has not moved.
    */
    method ProcessJob(id: JobId, c: Script) returns (succeeded: bool, failed: bool)
      requires table.Valid() && id in table.jobs
      requires RowFree(table.steps, c, id, workerId)
      modifies table
      ensures table.Valid() && id in table.jobs
      ensures table.steps == old(table.steps) + c.before + SuccessSteps(c, id, workerId)
                             + FailureSteps(c, id, workerId, retryBase, retryCap)
      ensures old(table.steps) <= table.steps
      ensures ReportsAre(c, table.steps[|old(table.steps)|..], id, workerId, retryBase, retryCap)
      ensures !(succeeded && failed)
      ensures succeeded <==>
              SuccessExecutes(c) && ReportLands(After(old(table.steps) + c.before), id, workerId, c.succeedAt)
      ensures failed <==>
              && Caught(c).Some? && !c.failFault.RaisesBefore?
              && ReportLands(After(old(table.steps) + c.before + SuccessSteps(c, id, workerId) + c.between),
                             id, workerId, c.failAt)
      ensures succeeded ==> table.jobs[id].status == Succeeded
      ensures failed ==> table.jobs[id].status == RetryScheduled || table.jobs[id].status == DeadLettered
      ensures id in After(old(table.steps)).rows && id in After(table.steps).rows
      ensures var h0 := After(old(table.steps)).rows[id].history; var h := After(table.steps).rows[id].history;
              && h0 <= h
              && (succeeded || failed ==>
                    ReportEnded(h0, h, workerId, old(table.jobs[id].attemptCount), table.jobs[id].attemptCount))
    {
      hide After, JobsOf, ReportLands, Run, Apply, Locked, ReportEnded, ReportsAre;
      ghost var s0 := table.steps;
      succeeded := TryHandler(id, c);
      failed := HandleFailure(id, c);
      assert table.steps[|s0|..]
             == c.before + SuccessSteps(c, id, workerId) + FailureSteps(c, id, workerId, retryBase, retryCap);
      ScriptReports(c, id, workerId, retryBase, retryCap);
      ScriptOutcome(s0, c, id, workerId, retryBase, retryCap, succeeded, failed);
    }

    /** The try block: the handler, and the report of its result. */
    method TryHandler(id: JobId, c: Script) returns (succeeded: bool)
      requires table.Valid() && id !in Locked(After(table.steps + c.before))
      modifies table
      ensures table.Valid() && table.steps == old(table.steps) + c.before + SuccessSteps(c, id, workerId)
      ensures succeeded <==>
              SuccessExecutes(c) && ReportLands(After(old(table.steps) + c.before), id, workerId, c.succeedAt)
    {
      hide After, JobsOf, ReportLands, Locked;
      succeeded := false;
      table.Interfere(c.before);
      if c.handler.Returns? && !c.succeedFault.RaisesBefore? {
        succeeded := table.MarkSucceeded(id, workerId, c.succeedAt, c.handler.result);
      }
    }

    /** The except block: the report of whatever was raised. */
    method HandleFailure(id: JobId, c: Script) returns (failed: bool)
      requires table.Valid() && id !in Locked(After(table.steps + c.between))
      modifies table
      ensures table.Valid() && table.steps == old(table.steps) + FailureSteps(c, id, workerId, retryBase, retryCap)
      ensures failed <==>
              && Caught(c).Some? && !c.failFault.RaisesBefore?
              && ReportLands(After(old(table.steps) + c.between), id, workerId, c.failAt)
    {
      hide After, JobsOf, ReportLands, Locked;
      failed := false;
      var exc := Caught(c);
      if exc.Some? {
        table.Interfere(c.between);
        if !c.failFault.RaisesBefore? {
          var (error, retryable) := exc.value;
          var status := table.MarkFailed(id, workerId, c.failAt, error, retryable, retryBase, retryCap);
          failed := status.Some?;
        }
      }
    }

    /**
    One round of `_run_slot`.  It processes the job it claimed and no other, and its report ends that claim exactly
    when the row's attempt count is still the claim's; a claim that raised after its commit stays running, unprocessed,
    until recovery finds it.
    */
    method RunSlotRound(c: SlotRound) returns (claimed: Option<JobId>, succeeded: bool, failed: bool)
      requires table.Valid() && c.txn !in table.open && forall i :: 0 <= i < |c.others| ==> !Ends(c.others[i], c.txn)
      requires forall id :: id in Picked(After(table.steps), c, queues) ==>
                 RowFree(table.steps + ClaimSteps(c, queues, workerId, leaseDuration), c.script, id, workerId)
      modifies table
      ensures table.Valid() && !(succeeded && failed)
      ensures var ids := Picked(After(old(table.steps)), c, queues);
              && claimed == (if c.claimFault.Clean? && ids != [] then Some(ids[0]) else None)
              // In terms of the rows: it gets the waiting job that comes before all others, if there is one.
              && (claimed.Some? ==> IsWaiting(old(table.jobs), old(table.open), queues, c.at, claimed.value))
              && (c.claimFault.Clean? ==> forall id :: IsWaiting(old(table.jobs), old(table.open), queues, c.at, id) ==>
                    && id in old(table.jobs) && claimed.Some? && claimed.value in old(table.jobs)
                    && (id != claimed.value ==>
                          RunsBefore(old(table.jobs)[claimed.value], claimed.value, old(table.jobs)[id], id)))
              && (claimed.None? ==>
                    && !succeeded && !failed
                    && table.steps == old(table.steps) + ClaimSteps(c, queues, workerId, leaseDuration))
              && (c.claimFault.RaisesAfter? && ids != [] ==>
                    && ids[0] in table.jobs && table.jobs[ids[0]].status == Running
                    && table.jobs[ids[0]].workerId == Some(workerId))
      ensures claimed.Some? ==>
                var start := After(old(table.steps) + ClaimSteps(c, queues, workerId, leaseDuration));
                var id := claimed.value;
                && id in start.rows && id in After(table.steps).rows
                && var h0, h := start.rows[id].history, After(table.steps).rows[id].history;
                   && h0 != [] && Last(h0) == Claimed(workerId, c.at, c.at + leaseDuration) && h0 <= h
                   && id in table.jobs
                   && (succeeded || failed ==>
                         ReportEnded(h0, h, workerId, start.rows[id].job.attemptCount, table.jobs[id].attemptCount))
    {
      hide After, JobsOf, ReportLands, Run, Apply, Locked, ReportEnded, Take, ClaimKeys, RowFree;
      claimed, succeeded, failed := None, false, false;
      ghost var s0 := table.steps;
      if c.claimFault.RaisesBefore? {
        return;
      }
      PickedIsClaimed(s0, c, queues, workerId, leaseDuration);
      var jobs := table.ClaimJobs(c.txn, workerId, queues, 1, c.at, leaseDuration, c.others);
      assert queues != {} ==> table.steps == s0 + ClaimSteps(c, queues, workerId, leaseDuration);
      if c.claimFault.RaisesAfter? || jobs == [] {
        return;
      }
      claimed := Some(jobs[0]);
      ghost var s1 := table.steps;
      JobIsRow(s1, jobs[0]);
      succeeded, failed := ProcessJob(jobs[0], c.script);
    }

    /** One round of the heartbeat. */
    method SendBeat(id: JobId, b: Beat) returns (refused: bool)
      requires table.Valid()
      modifies table
      ensures table.Valid()
      ensures BeatDone(After(old(table.steps)), After(table.steps), b, id, workerId, leaseDuration)
      ensures refused <==> BeatRefused(After(old(table.steps)), b, id, workerId)
    {
      hide Run, Apply, Locked;
      refused := false;
      AfterMore(table.steps, b.before);
      table.Interfere(b.before);
      ghost var m := After(table.steps);
      var locked := table.LockedRows();
      if !b.fault.RaisesBefore? && id !in locked {
        AfterOneMore(table.steps, Renew(id, workerId, b.at, b.at + leaseDuration));
        var renewed := table.RenewLease(id, workerId, b.at, b.at + leaseDuration);
        refused := b.fault.Clean? && !renewed;
      }
    }

    /**
    `_maintain_lease`: every beat whose renewal reaches the database, and finds the row unlocked, renews the lease as of
    its own time; the loop ends early exactly when a renewal is refused.  `stores` shows the store before each beat it
    reached, and at the end.  With beats and recoveries in time the lease is never lost and reaches from the last beat.
    */
    method MaintainLease(id: JobId, beats: seq<Beat>, ghost last: Time, ghost interval: nat)
      returns (lost: bool, ghost stores: seq<Store>)
      requires table.Valid()
      modifies table
      ensures table.Valid() && 1 <= |stores| <= |beats| + 1
      ensures stores[0] == After(old(table.steps)) && stores[|stores| - 1] == After(table.steps)
      ensures forall i :: 0 <= i < |stores| - 1 ==>
                BeatDone(stores[i], stores[i + 1], beats[i], id, workerId, leaseDuration)
      ensures forall i :: 0 <= i < |stores| - 1 ==>
                (BeatRefused(stores[i], beats[i], id, workerId) <==> lost && i == |stores| - 2)
      ensures if lost then |stores| >= 2 else |stores| == |beats| + 1
      ensures interval < leaseDuration && ScriptInTime(beats, id, workerId, last, interval, leaseDuration)
              && Held(After(old(table.steps)), id, workerId, last, leaseDuration)
              ==> !lost && Held(After(table.steps), id, workerId, LastSent(beats, last), leaseDuration)
    {
      hide After, Held, StoreOk, BeatDone, BeatRefused, OthersInTime;
      ghost var inTime := interval < leaseDuration && ScriptInTime(beats, id, workerId, last, interval, leaseDuration)
                          && Held(After(table.steps), id, workerId, last, leaseDuration);
      lost, stores := false, [After(table.steps)];
      var i := 0;
      assert beats[..0] == [];
      while i < |beats| && !lost
        invariant 0 <= i <= |beats| && table.Valid() && |stores| == i + 1
        invariant stores[0] == After(old(table.steps)) && stores[i] == After(table.steps)
        invariant forall k :: 0 <= k < i ==> BeatDone(stores[k], stores[k + 1], beats[k], id, workerId, leaseDuration)
        invariant forall k :: 0 <= k < i ==> (BeatRefused(stores[k], beats[k], id, workerId) <==> lost && k == i - 1)
        invariant lost ==> i > 0
        invariant inTime ==> !lost && Held(stores[i], id, workerId, LastSent(beats[..i], last), leaseDuration)
        decreases |beats| - i, !lost
      {
        assert beats[..i + 1][..i] == beats[..i];
        ghost var s := After(table.steps);
        AfterOk(table.steps);
        lost := SendBeat(id, beats[i]);
        if inTime {
          RoundKeepsTheJob(s, After(table.steps), beats[i], id, workerId, LastSent(beats[..i], last), interval,
                           leaseDuration);
        }
        stores := stores + [After(table.steps)];
        i := i + 1;
      }
      assert beats[..|beats|] == beats;
    }

    /** One wake-up of the recovery loop; a recovery that raises adds nothing to the totals. */
    method WakeUp(w: Recovery.Wake) returns (retried: nat, deadLettered: nat)
      requires table.Valid() && Recovery.WakeOk(After(table.steps), w)
      modifies table
      ensures table.Valid() && table.steps == old(table.steps) + Recovery.WakeSteps(w, 100)
      ensures After(table.steps) == Recovery.AfterWake(After(old(table.steps)), w, 100)
      ensures !w.ending.NeverStarts? ==> w.txn !in table.open
      ensures var s1 := Run(After(old(table.steps)), w.before); var ids := Recovery.Selected(s1, 100, w.at);
              && retried == (if w.ending.Commits? then Recovery.CountLeft(s1, ids, true) else 0)
              && deadLettered == (if w.ending.Commits? then Recovery.CountLeft(s1, ids, false) else 0)
    {
      hide Recovery.Selected, Run, Recovery.CountLeft, CountWith, RecoverableNow;
      ghost var s0 := table.steps;
      retried, deadLettered := 0, 0;
      RunConcat(EMPTY, s0, w.before);
      RunConcat(EMPTY, s0, Recovery.WakeSteps(w, 100));
      table.Interfere(w.before);
      match w.ending
      case NeverStarts =>
      case RollsBack =>
        table.LockStale(w.txn, 100, w.at);
        table.Interfere(w.others);
        table.RollbackTxn(w.txn);
      case CommitsThenRaises =>
        var _, _ := table.RecoverStaleJobs(w.txn, 100, w.at, w.others);
      case Commits =>
        ghost var s1 := After(table.steps);
        retried, deadLettered := table.RecoverStaleJobs(w.txn, 100, w.at, w.others);
        CountsMatch(s1, table.jobs, Recovery.Selected(s1, 100, w.at));
      assert table.steps == s0 + Recovery.WakeSteps(w, 100);
    }

    /**
    `_run_recovery_loop`: a recovery of at most 100 jobs at each wake-up, with the totals it logs.  The totals and what
    others recovered meanwhile are exactly the recoveries that happened, and every committing wake-up takes a full
    batch of what was stale or leaves only what others had locked.
    */
    method RunRecoveryLoop(wakes: seq<Recovery.Wake>) returns (retried: nat, deadLettered: nat)
      requires table.Valid() && Recovery.WakesOk(After(table.steps), wakes, 100)
      modifies table
      ensures table.Valid() && After(table.steps) == Recovery.AfterWakes(After(old(table.steps)), wakes, 100)
      ensures retried == Recovery.Counted(After(old(table.steps)), wakes, 100, true)
      ensures deadLettered == Recovery.Counted(After(old(table.steps)), wakes, 100, false)
      ensures Recovery.TotalRecoveries(After(table.steps))
              == Recovery.TotalRecoveries(After(old(table.steps))) + retried + deadLettered
                 + Recovery.Uncounted(After(old(table.steps)), wakes, 100)
      ensures forall since :: Drains(After(old(table.steps)), wakes, After(table.steps), since)
    {
      hide Recovery.WakeOk, Recovery.AfterWake, Recovery.Uncounted, Recovery.TotalRecoveries, Recovery.Selected, After, Run;
      hide Drains;
      ghost var s0 := After(table.steps);
      retried, deadLettered := 0, 0;
      var i := 0;
      while i < |wakes|
        invariant 0 <= i <= |wakes| && table.Valid()
        invariant Recovery.WakesOk(After(table.steps), wakes[i..], 100)
        invariant Recovery.AfterWakes(After(table.steps), wakes[i..], 100) == Recovery.AfterWakes(s0, wakes, 100)
        invariant retried + Recovery.Counted(After(table.steps), wakes[i..], 100, true) == Recovery.Counted(s0, wakes, 100, true)
        invariant deadLettered + Recovery.Counted(After(table.steps), wakes[i..], 100, false)
                  == Recovery.Counted(s0, wakes, 100, false)
      {
        assert wakes[i..][0] == wakes[i] && wakes[i..][1..] == wakes[i + 1..];
        var r, d := WakeUp(wakes[i]);
        retried, deadLettered := retried + r, deadLettered + d;
        i := i + 1;
      }
      LoopAddsUp(old(table.steps), wakes);
      forall since
        ensures Drains(s0, wakes, After(table.steps), since)
      {
        LoopDrains(old(table.steps), wakes, since);
      }
    }
  }

  /** Counting by the new status is counting by the attempts left before. */
  lemma {:induction false} CountsMatch(s: Store, jobs: map<JobId, Job>, ids: seq<JobId>)
    requires forall id :: id in ids ==>
               && id in s.rows && id in jobs
               && jobs[id].status == if s.rows[id].job.attemptCount < s.rows[id].job.work.maxAttempts then RetryScheduled
                                     else DeadLettered
    ensures CountWith(jobs, ids, RetryScheduled) == Recovery.CountLeft(s, ids, true)
    ensures CountWith(jobs, ids, DeadLettered) == Recovery.CountLeft(s, ids, false)
  {
    if ids != [] {
      assert ids[|ids| - 1] in ids;
      CountsMatch(s, jobs, ids[..|ids| - 1]);
    }
  }

  /** What a recovery loop does to the jobs stale at `since`, provided its clock and all leases granted are later. */
  ghost predicate Drains(s: Store, wakes: seq<Recovery.Wake>, s1: Store, since: Time) {
    && Recovery.WakesGrantAfter(s, wakes, 100, since)
    && (forall i :: 0 <= i < |wakes| && Recovery.Recovers(wakes[i]) ==> since <= wakes[i].at)
    ==>
      var left := Recovery.StaleIds(s1, since);
      && left <= Recovery.StaleIds(s, since)
      && (|| Recovery.LockedOut(s, wakes, 100, left)
          || |left| + Recovery.Committed(wakes) * 100 <= |Recovery.StaleIds(s, since)|)
  }

  lemma LoopAddsUp(steps: seq<Op>, wakes: seq<Recovery.Wake>)
    requires Recovery.WakesOk(After(steps), wakes, 100)
    ensures Recovery.TotalRecoveries(Recovery.AfterWakes(After(steps), wakes, 100))
            == Recovery.TotalRecoveries(After(steps)) + Recovery.Counted(After(steps), wakes, 100, true)
               + Recovery.Counted(After(steps), wakes, 100, false) + Recovery.Uncounted(After(steps), wakes, 100)
  {
    ReachableOk(steps);
    Recovery.CountsAddUp(After(steps), wakes, 100);
  }

  lemma LoopDrains(steps: seq<Op>, wakes: seq<Recovery.Wake>, since: Time)
    requires Recovery.WakesOk(After(steps), wakes, 100)
    ensures Drains(After(steps), wakes, Recovery.AfterWakes(After(steps), wakes, 100), since)
  {
    ReachableOk(steps);
    if Recovery.WakesGrantAfter(After(steps), wakes, 100, since)
       && (forall i :: 0 <= i < |wakes| && Recovery.Recovers(wakes[i]) ==> since <= wakes[i].at) {
      Recovery.RecoveryDrains(After(steps), wakes, 100, since);
    }
  }

  lemma AfterMore(steps: seq<Op>, ops: seq<Op>)
    ensures After(steps + ops) == Run(After(steps), ops)
  {
    RunConcat(EMPTY, steps, ops);
  }

  lemma AfterOk(steps: seq<Op>)
    ensures StoreOk(After(steps))
  {
    ReachableOk(steps);
  }

  /** The row a slot picked carries the slot's claim as its latest event. */
  lemma PickedIsClaimed(steps: seq<Op>, c: SlotRound, queues: set<string>, worker: WorkerId, duration: nat)
    requires c.txn !in After(steps).open && forall i :: 0 <= i < |c.others| ==> !Ends(c.others[i], c.txn)
    ensures var rows := After(steps + ClaimSteps(c, queues, worker, duration)).rows;
            forall id :: id in Picked(After(steps), c, queues) ==>
              id in rows && rows[id].history != [] && Last(rows[id].history) == Claimed(worker, c.at, c.at + duration)
  {
    hide Apply, Run, StoreOk, Take, ClaimKeys, Ends;
    if queues != {} && !c.claimFault.RaisesBefore? {
      var s, lock := After(steps), LockForClaim(c.txn, worker, queues, 1, c.at, c.at + duration);
      ReachableOk(steps);
      ClaimCommitsWhatItLocked(s, c.txn, worker, queues, 1, c.at, c.at + duration, c.others);
      AfterOneMore(steps, lock);
      RunConcat(EMPTY, steps + [lock], c.others);
      AfterOneMore(steps + [lock] + c.others, Commit(c.txn));
      assert steps + ClaimSteps(c, queues, worker, duration) == steps + [lock] + c.others + [Commit(c.txn)];
    }
  }

  lemma JobIsRow(steps: seq<Op>, id: JobId)
    requires id in After(steps).rows
    ensures id in JobsOf(After(steps)) && JobsOf(After(steps))[id] == After(steps).rows[id].job
  {
  }

  // ---------------------------------------------------------------- what the reports leave behind

  lemma RowIsThere(steps: seq<Op>, id: JobId)
    requires id in JobsOf(After(steps))
    ensures id in After(steps).rows
  {
  }

  /** More steps only add to a job's log. */
  lemma LogGrows(a: seq<Op>, b: seq<Op>, id: JobId)
    requires a <= b && id in After(a).rows
    ensures id in After(b).rows && id in JobsOf(After(b))
    ensures After(a).rows[id].history <= After(b).rows[id].history
  {
    ReachableOk(a);
    assert b == a + b[|a|..];
    RunConcat(EMPTY, a, b[|a|..]);
    RowsOnlyGrow(After(a), b[|a|..], id);
  }

  /** Once a success is committed no step changes the row, and no later report is accepted. */
  lemma SuccessStands(steps: seq<Op>, id: JobId, worker: WorkerId, at: Time, result: string, later: seq<Op>)
    requires ReportLands(After(steps), id, worker, at)
    ensures var s := After(steps + [Succeed(id, worker, at, result)] + later);
            && id in s.rows && s.rows[id] == SucceedRow(After(steps).rows[id], worker, at, result)
            && id in JobsOf(s) && JobsOf(s)[id].status == Succeeded
            && forall w, t :: !ReportLands(s, id, w, t)
  {
    var op := Succeed(id, worker, at, result);
    AfterOneMore(steps, op);
    ReachableOk(steps + [op]);
    RunConcat(EMPTY, steps + [op], later);
    FinishedJobsNeverChange(After(steps + [op]), later, id);
  }

  lemma HolderReports(steps: seq<Op>, id: JobId, worker: WorkerId, at: Time)
    requires ReportLands(After(steps), id, worker, at)
    ensures Holder(After(steps).rows[id].history) == Some(worker)
  {
    ReachableOk(steps);
    RowShape(After(steps).rows[id]);
  }

  lemma FailureShows(
      steps: seq<Op>, id: JobId, worker: WorkerId, at: Time, error: string, retryable: bool, base: nat, cap: nat)
    requires ReportLands(After(steps), id, worker, at)
    ensures var s := After(steps + [Fail(id, worker, at, error, retryable, base, cap)]);
            && id in s.rows && id in JobsOf(s)
            && s.rows[id].history == After(steps).rows[id].history + [Failed(worker, at, retryable, base, cap)]
            && (JobsOf(s)[id].status == RetryScheduled || JobsOf(s)[id].status == DeadLettered)
  {
    AfterOneMore(steps, Fail(id, worker, at, error, retryable, base, cap));
  }

  /** What the two reports of a script come to. */
  lemma ScriptOutcome(
      s0: seq<Op>, c: Script, id: JobId, worker: WorkerId, base: nat, cap: nat, succeeded: bool, failed: bool)
    requires id in JobsOf(After(s0))
    requires succeeded <==> SuccessExecutes(c) && ReportLands(After(s0 + c.before), id, worker, c.succeedAt)
    requires failed <==>
             && Caught(c).Some? && !c.failFault.RaisesBefore?
             && ReportLands(After(s0 + c.before + SuccessSteps(c, id, worker) + c.between), id, worker, c.failAt)
    ensures !(succeeded && failed)
    ensures var end := s0 + c.before + SuccessSteps(c, id, worker) + FailureSteps(c, id, worker, base, cap);
            && id in JobsOf(After(end)) && id in After(s0).rows && id in After(end).rows
            && After(s0).rows[id].history <= After(end).rows[id].history
            && (succeeded ==> JobsOf(After(end))[id].status == Succeeded)
            && (failed ==> JobsOf(After(end))[id].status == RetryScheduled || JobsOf(After(end))[id].status == DeadLettered)
            && (succeeded || failed ==>
                  ReportEnded(After(s0).rows[id].history, After(end).rows[id].history, worker,
                              JobsOf(After(s0))[id].attemptCount, JobsOf(After(end))[id].attemptCount))
  {
    hide After, JobsOf, ReportLands, Run, Apply, ReportEnded;
    RowIsThere(s0, id);
    var s1, sent := s0 + c.before, SuccessSteps(c, id, worker);
    var end := s1 + sent + FailureSteps(c, id, worker, base, cap);
    LogGrows(s0, end, id);
    if succeeded {
      var op := Succeed(id, worker, c.succeedAt, c.handler.result);
      var later := FailureSteps(c, id, worker, base, cap);
      assert sent == [op];
      if Caught(c).Some? {
        SuccessStands(s1, id, worker, c.succeedAt, c.handler.result, c.between);
      }
      SuccessStands(s1, id, worker, c.succeedAt, c.handler.result, later);
      HolderReports(s1, id, worker, c.succeedAt);
      LogGrows(s0, s1, id);
      AcceptedReportEnds(s0, s1, end, id, worker);
    } else if failed {
      var s3 := s1 + sent + c.between;
      var (error, retryable) := Caught(c).value;
      assert end == s3 + [Fail(id, worker, c.failAt, error, retryable, base, cap)];
      FailureShows(s3, id, worker, c.failAt, error, retryable, base, cap);
      HolderReports(s3, id, worker, c.failAt);
      LogGrows(s0, s3, id);
      AcceptedReportEnds(s0, s3, end, id, worker);
    }
  }

  /** An accepted report, and the attempt counts of the row before and after. */
  lemma AcceptedReportEnds(start: seq<Op>, reported: seq<Op>, end: seq<Op>, id: JobId, worker: WorkerId)
    requires start <= reported && id in After(start).rows && id in After(reported).rows && id in After(end).rows
    requires var h := After(reported).rows[id].history; var h1 := After(end).rows[id].history;
             Holder(h) == Some(worker) && |h1| == |h| + 1 && h <= h1 && IsOutcome(Last(h1))
    ensures id in JobsOf(After(start)) && id in JobsOf(After(end))
    ensures ReportEnded(After(start).rows[id].history, After(end).rows[id].history, worker,
                        JobsOf(After(start))[id].attemptCount, JobsOf(After(end))[id].attemptCount)
  {
    LogGrows(start, reported, id);
    var r0, r1 := After(start).rows[id], After(end).rows[id];
    var h0, h, h1 := r0.history, After(reported).rows[id].history, r1.history;
    ReachableOk(start);
    ReachableOk(end);
    CountsOfRow(r0);
    CountsOfRow(r1);
    assert Front(h1) == h && Last(h1) == h1[|h|];
    hide After, StoreOk, RowOk, JobsOf;
    ReportEndsClaim(h0, h, worker);
    OutcomeEndsTheSame(h0, h, h1, worker);
    JobIsRow(start, id);
    JobIsRow(end, id);
  }

  lemma CountsOfRow(r: Row)
    requires RowOk(r)
    ensures r.job.attemptCount == Claims(r.history)
    ensures Claims(r.history) == Outcomes(r.history) + if Holder(r.history).Some? then 1 else 0
  {
    ClaimsAndOutcomes(r.history, r.job.work.maxAttempts, r.job.createdAt);
  }

  lemma OutcomeEndsTheSame(h0: seq<Event>, h: seq<Event>, h1: seq<Event>, worker: WorkerId)
    requires h0 <= h && h1 != [] && Front(h1) == h && IsOutcome(Last(h1))
    ensures LatestClaim(h1) == LatestClaim(h) && Claims(h1) == Claims(h) && Holder(h1).None?
    ensures NoClaimSince(h1, |h0|, worker) <==> NoClaimSince(h, |h0|, worker)
    ensures forall k :: 0 <= k < |h| ==> h1[k] == h[k]
  {
    assert forall k :: 0 <= k < |h| ==> h1[k] == h[k];
    assert h1[|h|] == Last(h1);
  }
}
