/**
What holds of every run of the job store: who may report, that finished jobs stay finished, how many steps a job can
take, and what a claim's transaction takes and leaves.
*/
module JobRuns {
  import opened Options
  import opened Jobs
  import opened JobHistory
  import opened Selection
  import opened JobStore

  lemma ReachableOk(ops: seq<Op>)
    ensures StoreOk(Run(EMPTY, ops))
  {
    RunOk(EMPTY, ops);
  }

  // ---------------------------------------------------------------- reports

  function Report(op: Op): Option<(JobId, WorkerId, Time)> {
    match op
    case Renew(id, worker, at, _) => Some((id, worker, at))
    case Succeed(id, worker, at, _) => Some((id, worker, at))
    case Fail(id, worker, at, _, _, _, _) => Some((id, worker, at))
    case _ => None
  }

  /**
  In every reachable store a renewal, success or failure report takes effect exactly when its worker made the job's
  latest claim, nothing but renewals happened since, the report is stamped before the lease, and no transaction has
  the row locked (the report then waits).
  */
  lemma ReportTakesEffectIffLeaseHeld(ops: seq<Op>, op: Op, id: JobId, worker: WorkerId, at: Time)
    requires Report(op) == Some((id, worker, at))
    ensures var s := Run(EMPTY, ops);
            Apply(s, op) != s <==> id in s.rows && id !in Locked(s) && HoldsLease(s.rows[id].history, worker, at)
  {
    var s := Run(EMPTY, ops);
    ReachableOk(ops);
    if id in s.rows {
      OwnsIffHoldsLease(s.rows[id], worker, at);
      if ReportLands(s, id, worker, at) {
        assert |Apply(s, op).rows[id].history| == |s.rows[id].history| + 1;
      }
    }
  }

  lemma StepGrows(s: Store, op: Op, id: JobId)
    requires StoreOk(s) && id in s.rows
    ensures id in Apply(s, op).rows
    ensures s.rows[id].history <= Apply(s, op).rows[id].history
    ensures Apply(s, op).rows[id].job.work == s.rows[id].job.work
  {
    hide Apply;
    ApplyRow(s, op, id);
    RowStepOk(s.rows[id], Apply(s, op).rows[id]);
  }

  /** A row's log only grows, and its submitted fields never change. */
  lemma {:induction false} RowsOnlyGrow(s: Store, ops: seq<Op>, id: JobId)
    requires StoreOk(s) && id in s.rows
    ensures id in Run(s, ops).rows
    ensures s.rows[id].history <= Run(s, ops).rows[id].history
    ensures Run(s, ops).rows[id].job.work == s.rows[id].job.work
    decreases |ops|
  {
    hide Apply, StoreOk;
    if ops != [] {
      StepGrows(s, ops[0], id);
      ApplyOk(s, ops[0]);
      RowsOnlyGrow(Apply(s, ops[0]), ops[1..], id);
    }
  }

  lemma {:induction false} FinishedJobsNeverChange(s: Store, ops: seq<Op>, id: JobId)
    requires StoreOk(s) && id in s.rows
    requires s.rows[id].job.status == Succeeded || s.rows[id].job.status == DeadLettered
    ensures id in Run(s, ops).rows && Run(s, ops).rows[id] == s.rows[id]
    decreases |ops|
  {
    if ops != [] {
      ApplyRow(s, ops[0], id);
      FinalRowStays(s.rows[id], Apply(s, ops[0]).rows[id]);
      ApplyOk(s, ops[0]);
      FinishedJobsNeverChange(Apply(s, ops[0]), ops[1..], id);
    }
  }

  /** The bookkeeping of attempts in every reachable store. */
  lemma AttemptsAreBounded(ops: seq<Op>, id: JobId)
    requires id in Run(EMPTY, ops).rows
    ensures var r := Run(EMPTY, ops).rows[id]; var h := r.history;
            && r.job.attemptCount == Claims(h) <= r.job.work.maxAttempts
            && Claims(h) == Outcomes(h) + (if r.job.status == Running then 1 else 0)
            && (r.job.status == Queued || r.job.status == RetryScheduled ==> r.job.attemptCount < r.job.work.maxAttempts)
            && Claims(h) + Outcomes(h) <= 2 * r.job.work.maxAttempts
  {
    var r := Run(EMPTY, ops).rows[id];
    ReachableOk(ops);
    RowShape(r);
    ClaimsAndOutcomes(r.history, r.job.work.maxAttempts, r.job.createdAt);
  }

  /** However the steps interleave, a job takes at most two status-changing steps per allowed attempt from here on. */
  function ChangesOf(s: Store, ops: seq<Op>, id: JobId): nat
    requires id in s.rows
    decreases |ops|
  {
    if ops == [] then 0
    else
      var s1 := Apply(s, ops[0]);
      if id !in s1.rows then 0 else
      (if s1.rows[id].job.status != s.rows[id].job.status then 1 else 0) + ChangesOf(s1, ops[1..], id)
  }

  lemma {:induction false} ChangesBounded(s: Store, ops: seq<Op>, id: JobId)
    requires StoreOk(s) && id in s.rows
    ensures ChangesOf(s, ops, id) <= Remaining(s.rows[id]) <= 2 * s.rows[id].job.work.maxAttempts
    decreases |ops|
  {
    var r := s.rows[id];
    StepUsesUpWork(r, r);
    RowShape(r);
    ClaimsAndOutcomes(r.history, r.job.work.maxAttempts, r.job.createdAt);
    hide Apply, RowStep, StoreOk, RowOk;
    hide Remaining, Claims, Outcomes;
    if ops != [] {
      var s1 := Apply(s, ops[0]);
      ApplyRow(s, ops[0], id);
      StatusChangeUsesUpWork(s.rows[id], s1.rows[id]);
      ApplyOk(s, ops[0]);
      ChangesBounded(s1, ops[1..], id);
    }
  }

  /**
  In every reachable store the spacing of a job's claims, past and possible, is certain exactly when every report and
  recovery so far kept the earlier waits.
  */
  lemma ClaimsWaitInEveryStore(ops: seq<Op>, id: JobId)
    requires id in Run(EMPTY, ops).rows
    ensures var r := Run(EMPTY, ops).rows[id]; var max, created := r.job.work.maxAttempts, r.job.createdAt;
            EveryClaimWaits(r.history, max, created)
            <==> forall k :: 0 <= k < |r.history| ==> KeepsFloors(r.history, max, created, k)
  {
    ReachableOk(ops);
    var r := Run(EMPTY, ops).rows[id];
    hide Legal, EveryClaimWaits, KeepsFloors;
    ClaimsWaitIffFloorsKept(r.history, r.job.work.maxAttempts, r.job.createdAt);
  }

  // ---------------------------------------------------------------- claims as transactions

  /**
  The lock step of a claim takes the first `limit` eligible unlocked rows in the order priority down, available,
  created, id up, and changes no row.
  */
  lemma ClaimTakesTheFirst(s: Store, txn: TxnId, worker: WorkerId, queues: set<string>, limit: int, at: Time, lease: Time)
    requires StoreOk(s) && txn !in s.open && queues != {} && limit >= 1
    ensures var s1 := Apply(s, LockForClaim(txn, worker, queues, limit, at, lease));
            && txn in s1.open && s1.rows == s.rows
            && IsSelection(ClaimKeys(s, queues, at), limit, s1.open[txn].ids)
            && (forall id :: id in s1.open[txn].ids ==> id !in Locked(s))
  {
    var keys := ClaimKeys(s, queues, at);
    TakeIsSelection(keys, limit);
    SelectionDistinct(keys, limit, Take(keys, limit));
  }

  ghost predicate Ends(op: Op, txn: TxnId) {
    (op.Commit? || op.Rollback?) && op.txn == txn
  }

  lemma LocksAreHeld(s: Store, txn: TxnId)
    requires StoreOk(s) && txn in s.open
    ensures forall id :: id in s.open[txn].ids ==> id in s.rows
    ensures forall t, id :: t in s.open && t != txn && id in s.open[txn].ids ==> id !in s.open[t].ids
  {
  }

  lemma OthersLeaveLocks(s: Store, op: Op, txn: TxnId)
    requires StoreOk(s) && txn in s.open && !Ends(op, txn)
    ensures var s1 := Apply(s, op);
            && txn in s1.open && s1.open[txn] == s.open[txn]
            && (forall id :: id in s.open[txn].ids ==> id in s.rows && id in s1.rows && s1.rows[id] == s.rows[id])
  {
    assert TxnOk(s, s.open[txn]);
    forall id | id in s.open[txn].ids
      ensures id in Apply(s, op).rows && Apply(s, op).rows[id] == s.rows[id]
    {
      InLocked(s, txn, id);
      ApplyRow(s, op, id);
      if Apply(s, op).rows[id] != s.rows[id] {
        LocksAreHeld(s, txn);
      }
    }
  }

  /** Until a transaction ends, nothing any other worker does touches the rows it locked, nor locks them again. */
  lemma {:induction false} LockedRowsWait(s: Store, ops: seq<Op>, txn: TxnId)
    requires StoreOk(s) && txn in s.open && forall i :: 0 <= i < |ops| ==> !Ends(ops[i], txn)
    ensures var s1 := Run(s, ops);
            && txn in s1.open && s1.open[txn] == s.open[txn]
            && (forall id :: id in s.open[txn].ids ==> id in s.rows && id in s1.rows && s1.rows[id] == s.rows[id])
            && (forall t, id :: t in s1.open && t != txn && id in s.open[txn].ids ==> id !in s1.open[t].ids)
    decreases |ops|
  {
    LocksAreHeld(s, txn);
    hide Apply, StoreOk;
    if ops != [] {
      var s1 := Apply(s, ops[0]);
      ApplyOk(s, ops[0]);
      OthersLeaveLocks(s, ops[0], txn);
      assert forall i :: 0 <= i < |ops[1..]| ==> ops[1..][i] == ops[i + 1];
      LockedRowsWait(s1, ops[1..], txn);
    }
  }

  /**
  A claim that locks now and commits after any steps of other workers claims exactly the rows it selected, as they
  were when it selected them; the commit changes no other row.
  */
  lemma ClaimCommitsWhatItLocked(
      s: Store, txn: TxnId, worker: WorkerId, queues: set<string>, limit: int, at: Time, lease: Time, ops: seq<Op>)
    requires StoreOk(s) && txn !in s.open && queues != {} && limit >= 1
    requires forall i :: 0 <= i < |ops| ==> !Ends(ops[i], txn)
    ensures var ids := Take(ClaimKeys(s, queues, at), limit);
            var before := Run(Apply(s, LockForClaim(txn, worker, queues, limit, at, lease)), ops);
            var after := Apply(before, Commit(txn));
            && after.rows.Keys == before.rows.Keys
            && (forall id :: id in ids ==> id in s.rows && id in after.rows
                                           && after.rows[id] == ClaimRow(s.rows[id], worker, at, lease))
            && (forall id :: id in before.rows && id !in ids ==> after.rows[id] == before.rows[id])
            && after.open == before.open - {txn}
  {
    var op := LockForClaim(txn, worker, queues, limit, at, lease);
    ApplyOk(s, op);
    LockedRowsWait(Apply(s, op), ops, txn);
    CommitTouchesItsRows(Run(Apply(s, op), ops), txn);
  }

  lemma CommitTouchesItsRows(s: Store, txn: TxnId)
    requires txn in s.open
    ensures var s1 := Apply(s, Commit(txn)); var t := s.open[txn];
            && s1.rows.Keys == s.rows.Keys && s1.open == s.open - {txn}
            && (forall id :: id in s.rows ==> s1.rows[id] == if id in t.ids then CommitRow(t, s.rows[id]) else s.rows[id])
  {
  }
}
