/** The jobs as plain rows, without their logs, and what each step of the store does to them. */
module JobView {
  import opened Options
  import opened Jobs
  import opened Selection
  import opened JobStore

  function JobsOf(s: Store): map<JobId, Job> {
    map id | id in s.rows :: s.rows[id].job
  }

  /** The update loop of a committing transaction, one row at a time. */
  function UpdateAll(jobs: map<JobId, Job>, t: Txn, ids: seq<JobId>): map<JobId, Job> {
    if ids == [] then jobs
    else
      var n := |ids| - 1;
      var done := UpdateAll(jobs, t, ids[..n]);
      if ids[n] in done then done[ids[n] := UpdateJob(t, done[ids[n]])] else done
  }

  function UpdateJob(t: Txn, j: Job): Job {
    match t
    case ClaimTxn(_, _, worker, at, lease) => ClaimJob(j, worker, at, lease)
    case RecoverTxn(_, at) => RecoverJob(j, at)
  }

  lemma {:induction false} UpdateAllRow(jobs: map<JobId, Job>, t: Txn, ids: seq<JobId>)
    requires forall i, k :: 0 <= i < k < |ids| ==> ids[i] != ids[k]
    ensures UpdateAll(jobs, t, ids).Keys == jobs.Keys
    ensures forall id :: id in jobs ==>
              UpdateAll(jobs, t, ids)[id] == if id in ids then UpdateJob(t, jobs[id]) else jobs[id]
  {
    if ids != [] {
      var n := |ids| - 1;
      UpdateAllRow(jobs, t, ids[..n]);
      assert ids == ids[..n] + [ids[n]];
      assert ids[n] !in ids[..n];
      forall id | id in jobs
        ensures id in UpdateAll(jobs, t, ids)
        ensures UpdateAll(jobs, t, ids)[id] == if id in ids then UpdateJob(t, jobs[id]) else jobs[id]
      {
        assert id in ids <==> id in ids[..n] || id == ids[n];
      }
    }
  }

  lemma CommitRowUpdates(t: Txn, r: Row)
    ensures CommitRow(t, r).job == UpdateJob(t, r.job)
  {
  }

  /** The loop over the locked rows does what the commit step says. */
  lemma CommitView(s: Store, txn: TxnId)
    requires StoreOk(s) && txn in s.open
    ensures JobsOf(Apply(s, Commit(txn))) == UpdateAll(JobsOf(s), s.open[txn], s.open[txn].ids)
  {
    var t := s.open[txn];
    var s1 := Apply(s, Commit(txn));
    assert TxnOk(s, t);
    UpdateAllRow(JobsOf(s), t, t.ids);
    hide StoreOk, TxnOk, RowOk, UpdateAll, CommitRow, UpdateJob;
    var after := UpdateAll(JobsOf(s), t, t.ids);
    assert s1.rows == CommitRows(s, t);
    assert after.Keys == JobsOf(s1).Keys;
    forall id | id in s.rows
      ensures after[id] == JobsOf(s1)[id]
    {
      assert JobsOf(s)[id] == s.rows[id].job;
      CommitRowUpdates(t, s.rows[id]);
    }
  }

  /** An accepted report changes the one row; a rejected one changes nothing. */
  lemma ReportView(s: Store, id: JobId, r: Row)
    ensures JobsOf(SetRow(s, id, r)) == JobsOf(s)[id := r.job]
  {
  }

  lemma ClaimKeysView(s: Store, queues: set<string>, at: Time)
    ensures var jobs := JobsOf(s);
            ClaimKeys(s, queues, at) ==
            map id | id in jobs && id !in Locked(s) && Claimable(jobs[id], queues, at)
              :: SortKey(-jobs[id].work.priority, jobs[id].availableAt, jobs[id].createdAt, id)
  {
  }

  lemma RecoverKeysView(s: Store, at: Time)
    ensures var jobs := JobsOf(s);
            RecoverKeys(s, at) ==
            map id | id in jobs && id !in Locked(s) && Stale(jobs[id], at)
              :: SortKey(if jobs[id].leaseExpiresAt.None? then 0 else 1,
                         if jobs[id].leaseExpiresAt.None? then 0 else jobs[id].leaseExpiresAt.value, 0, id)
  {
  }

  // ---------------------------------------------------------------- guards and selections, read off the rows

  /** The job runs under a lease of this worker that is not over. */
  predicate IsHeldBy(jobs: map<JobId, Job>, id: JobId, worker: WorkerId, at: Time) {
    && id in jobs && jobs[id].status == Running && jobs[id].workerId == Some(worker)
    && jobs[id].leaseExpiresAt.Some? && at < jobs[id].leaseExpiresAt.value
  }

  predicate Unlocked(open: map<TxnId, Txn>, id: JobId) {
    forall t :: t in open ==> id !in open[t].ids
  }

  /** Higher priority first, then earlier availability, then earlier creation, then the smaller id. */
  predicate RunsBefore(a: Job, x: JobId, b: Job, y: JobId) {
    || a.work.priority > b.work.priority
    || (a.work.priority == b.work.priority
        && (|| a.availableAt < b.availableAt
            || (a.availableAt == b.availableAt
                && (a.createdAt < b.createdAt || (a.createdAt == b.createdAt && x < y)))))
  }

  /** A job of one of the queues that is due, waits to be tried, and that nobody has locked. */
  predicate IsWaiting(jobs: map<JobId, Job>, open: map<TxnId, Txn>, queues: set<string>, at: Time, id: JobId) {
    && id in jobs && Unlocked(open, id)
    && jobs[id].work.queue in queues
    && (jobs[id].status == Queued || jobs[id].status == RetryScheduled)
    && jobs[id].availableAt <= at
  }

  /**
  What a claim by a worker of these queues may take, and what it may leave: `ids` are waiting jobs of its queues that
  nobody has locked, in order, and a waiting job that it leaves means that it took its fill of earlier ones.
  */
  ghost predicate ClaimableNow(
      jobs: map<JobId, Job>, open: map<TxnId, Txn>, queues: set<string>, at: Time, limit: nat, ids: seq<JobId>)
  {
    && |ids| <= limit
    && (forall i :: 0 <= i < |ids| ==> IsWaiting(jobs, open, queues, at, ids[i]))
    && (forall i, k :: 0 <= i < k < |ids| ==> RunsBefore(jobs[ids[i]], ids[i], jobs[ids[k]], ids[k]))
    && (forall id :: IsWaiting(jobs, open, queues, at, id) && id !in ids ==>
          |ids| == limit && forall i :: 0 <= i < |ids| ==> RunsBefore(jobs[ids[i]], ids[i], jobs[id], id))
  }

  lemma LockedOrNot(s: Store, id: JobId)
    ensures id in Locked(s) <==> !Unlocked(s.open, id)
  {
  }

  /** The candidates of a claim, and how their keys compare. */
  lemma ClaimCandidatesByFields(s: Store, queues: set<string>, at: Time)
    ensures forall id :: id in ClaimKeys(s, queues, at) <==> IsWaiting(JobsOf(s), s.open, queues, at, id)
  {
    forall id
      ensures id in ClaimKeys(s, queues, at) <==> IsWaiting(JobsOf(s), s.open, queues, at, id)
    {
      hide Unlocked, Locked;
      LockedOrNot(s, id);
    }
  }

  lemma ClaimKeysByFields(s: Store, queues: set<string>, at: Time)
    ensures var keys, jobs := ClaimKeys(s, queues, at), JobsOf(s);
            forall x, y :: x in keys && y in keys && Before(keys[x], keys[y]) ==>
              x in jobs && y in jobs && RunsBefore(jobs[x], x, jobs[y], y)
  {
    hide Locked, Claimable, Stale;
  }

  /** The locking SELECT of a claim. */
  lemma ClaimsByFields(s: Store, queues: set<string>, at: Time, limit: nat)
    ensures ClaimableNow(JobsOf(s), s.open, queues, at, limit, Take(ClaimKeys(s, queues, at), limit))
  {
    hide Take, ClaimKeys, Before, RunsBefore, IsWaiting, JobsOf;
    var keys := ClaimKeys(s, queues, at);
    var ids := Take(keys, limit);
    TakeIsSelection(keys, limit);
    SelectionFull(keys, limit, ids);
    ClaimCandidatesByFields(s, queues, at);
    ClaimKeysByFields(s, queues, at);
  }

  /** A selection that leaves a candidate is as long as the limit. */
  lemma SelectionFull(keys: map<JobId, SortKey>, n: nat, ids: seq<JobId>)
    requires Keyed(keys) && IsSelection(keys, n, ids)
    ensures |ids| <= n
    ensures |ids| < n ==> forall id :: id in keys ==> id in ids
  {
    if |ids| < n {
      SelectionDistinct(keys, n, ids);
      var all := set i | 0 <= i < |ids| :: ids[i];
      Distinct(ids);
      assert all <= keys.Keys && |all| == |keys.Keys|;
      SameSize(all, keys.Keys);
    }
  }

  lemma {:induction false} Distinct(ids: seq<JobId>)
    requires forall i, k :: 0 <= i < k < |ids| ==> ids[i] != ids[k]
    ensures |set i | 0 <= i < |ids| :: ids[i]| == |ids|
  {
    if ids != [] {
      var n := |ids| - 1;
      Distinct(ids[..n]);
      assert (set i | 0 <= i < |ids| :: ids[i]) == (set i | 0 <= i < n :: ids[..n][i]) + {ids[n]};
    }
  }

  lemma {:induction false} SameSize<T>(a: set<T>, b: set<T>)
    requires a <= b && |a| == |b|
    ensures a == b
  {
    if a != {} {
      var x :| x in a;
      SameSize(a - {x}, b - {x});
    }
  }

  /** The lease that ran out first goes first, a missing one before all; then the smaller id. */
  predicate StaleBefore(a: Job, x: JobId, b: Job, y: JobId) {
    match (a.leaseExpiresAt, b.leaseExpiresAt)
    case (None, None) => x < y
    case (None, Some(_)) => true
    case (Some(_), None) => false
    case (Some(e), Some(f)) => e < f || (e == f && x < y)
  }

  /** A running job whose lease is over or missing, and that nobody has locked. */
  predicate IsAbandoned(jobs: map<JobId, Job>, open: map<TxnId, Txn>, at: Time, id: JobId) {
    && id in jobs && Unlocked(open, id) && jobs[id].status == Running
    && (jobs[id].leaseExpiresAt.Some? ==> jobs[id].leaseExpiresAt.value <= at)
  }

  /** What a recovery may take, and what it may leave. */
  ghost predicate RecoverableNow(jobs: map<JobId, Job>, open: map<TxnId, Txn>, at: Time, limit: nat, ids: seq<JobId>) {
    && |ids| <= limit
    && (forall i :: 0 <= i < |ids| ==> IsAbandoned(jobs, open, at, ids[i]))
    && (forall i, k :: 0 <= i < k < |ids| ==> StaleBefore(jobs[ids[i]], ids[i], jobs[ids[k]], ids[k]))
    && (forall id :: IsAbandoned(jobs, open, at, id) && id !in ids ==>
          |ids| == limit && forall i :: 0 <= i < |ids| ==> StaleBefore(jobs[ids[i]], ids[i], jobs[id], id))
  }

  /** The candidates of a recovery, and how their keys compare. */
  lemma RecoverCandidatesByFields(s: Store, at: Time)
    ensures forall id :: id in RecoverKeys(s, at) <==> IsAbandoned(JobsOf(s), s.open, at, id)
  {
    forall id
      ensures id in RecoverKeys(s, at) <==> IsAbandoned(JobsOf(s), s.open, at, id)
    {
      hide Unlocked, Locked;
      LockedOrNot(s, id);
    }
  }

  lemma RecoverKeysByFields(s: Store, at: Time)
    ensures var keys, jobs := RecoverKeys(s, at), JobsOf(s);
            forall x, y :: x in keys && y in keys && Before(keys[x], keys[y]) ==>
              x in jobs && y in jobs && StaleBefore(jobs[x], x, jobs[y], y)
  {
    hide Locked, Claimable, Stale;
  }

  /** The locking SELECT of a recovery. */
  lemma RecoversByFields(s: Store, at: Time, limit: nat)
    ensures RecoverableNow(JobsOf(s), s.open, at, limit, Take(RecoverKeys(s, at), limit))
  {
    hide Take, RecoverKeys, Before, StaleBefore, IsAbandoned, JobsOf;
    var keys := RecoverKeys(s, at);
    var ids := Take(keys, limit);
    TakeIsSelection(keys, limit);
    SelectionFull(keys, limit, ids);
    RecoverCandidatesByFields(s, at);
    RecoverKeysByFields(s, at);
  }
}
