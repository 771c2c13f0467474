/** Heartbeats that come in time keep a job: every renewal is accepted and recovery never selects it. */
module Heartbeat {
  import opened Faults
  import opened Options
  import opened Jobs
  import opened JobHistory
  import opened JobStore
  import opened JobRuns
  import Selection

  /** `worker` holds `id` under a lease of `duration` taken at `last`, and no transaction has the row locked. */
  ghost predicate Held(s: Store, id: JobId, worker: WorkerId, last: Time, duration: nat) {
    && id in s.rows && id !in Locked(s)
    && s.rows[id].job.status == Running
    && s.rows[id].job.workerId == Some(worker)
    && s.rows[id].job.leaseExpiresAt == Some(last + duration)
  }

  predicate IsBeat(op: Op, id: JobId, worker: WorkerId) {
    op.Renew? && op.id == id && op.worker == worker
  }

  predicate IsReport(op: Op, id: JobId, worker: WorkerId) {
    (op.Succeed? || op.Fail?) && op.id == id && op.worker == worker
  }

  /** The stamp of the last beat in `ops`, or `last` if there is none. */
  function LastBeat(ops: seq<Op>, id: JobId, worker: WorkerId, last: Time): Time
    decreases |ops|
  {
    if ops == [] then last
    else LastBeat(ops[1..], id, worker, if IsBeat(ops[0], id, worker) then ops[0].at else last)
  }

  /** A recovery is stamped before the lease of the last beat runs out.  Nothing else is asked of other clocks. */
  predicate RecoversInTime(op: Op, last: Time, duration: nat) {
    op.LockForRecovery? ==> op.at < last + duration
  }

  /**
  The worker's beats come at most `interval` after one another and ask for the configured lease, and it does not
  report in `ops`.  Of everybody else's clocks only those of recoveries matter.
  */
  ghost predicate OnTime(ops: seq<Op>, id: JobId, worker: WorkerId, last: Time, interval: nat, duration: nat)
    decreases |ops|
  {
    ops == [] ||
    (&& !IsReport(ops[0], id, worker)
     && RecoversInTime(ops[0], last, duration)
     && (IsBeat(ops[0], id, worker) ==> ops[0].at <= last + interval && ops[0].lease == ops[0].at + duration)
     && OnTime(ops[1..], id, worker, LastBeat([ops[0]], id, worker, last), interval, duration))
  }

  /** A beat in time is accepted and moves the lease. */
  lemma BeatAccepted(s: Store, op: Op, id: JobId, worker: WorkerId, last: Time, interval: nat, duration: nat)
    requires Held(s, id, worker, last, duration) && interval < duration
    requires IsBeat(op, id, worker) && op.at <= last + interval && op.lease == op.at + duration
    ensures Held(Apply(s, op), id, worker, op.at, duration)
    ensures Apply(s, op) != s && ReportLands(s, id, worker, op.at)
  {
  }

  /** Any other step in time leaves the row as it is. */
  lemma OthersLeaveHeld(s: Store, op: Op, id: JobId, worker: WorkerId, last: Time, interval: nat, duration: nat)
    requires StoreOk(s) && Held(s, id, worker, last, duration) && interval < duration
    requires !IsBeat(op, id, worker) && !IsReport(op, id, worker)
    requires RecoversInTime(op, last, duration)
    ensures Held(Apply(s, op), id, worker, last, duration)
  {
    NoLockTaken(s, op, id, worker, last, interval, duration);
    NotLocked(s, id);
    hide StoreOk, RowOk;
  }

  /** One step in time: the job stays held, and a beat is accepted. */
  lemma BeatInTime(s: Store, op: Op, id: JobId, worker: WorkerId, last: Time, interval: nat, duration: nat)
    requires StoreOk(s) && Held(s, id, worker, last, duration) && interval < duration
    requires OnTime([op], id, worker, last, interval, duration)
    ensures Held(Apply(s, op), id, worker, LastBeat([op], id, worker, last), duration)
    ensures IsBeat(op, id, worker) ==> Apply(s, op) != s && ReportLands(s, id, worker, op.at)
  {
    hide Held, Apply, StoreOk, ReportLands;
    assert [op][1..] == [];
    if IsBeat(op, id, worker) {
      BeatAccepted(s, op, id, worker, last, interval, duration);
    } else {
      OthersLeaveHeld(s, op, id, worker, last, interval, duration);
    }
  }

  /** A step stamped before the lease runs out selects the row neither for a claim nor for recovery. */
  lemma NoLockTaken(s: Store, op: Op, id: JobId, worker: WorkerId, last: Time, interval: nat, duration: nat)
    requires Held(s, id, worker, last, duration) && interval < duration
    requires RecoversInTime(op, last, duration)
    ensures id !in Locked(Apply(s, op))
  {
    NotLocked(s, id);
    hide RowStep, ClaimKeys, RecoverKeys, Selection.Take;
    var s1 := Apply(s, op);
    forall t | t in s1.open
      ensures id !in s1.open[t].ids
    {
      if t in s.open && s1.open[t] == s.open[t] {
      } else if op.LockForClaim? {
        ClaimSelects(s, op.queues, op.worker, op.limit, op.at, op.lease);
        assert !Claimable(s.rows[id].job, op.queues, op.at);
      } else {
        RecoverySelects(s, op.limit, op.at);
        assert !Stale(s.rows[id].job, op.at);
      }
    }
  }

  /**
  The heartbeat theorem: with the interval below the lease (which the settings check), a job whose worker beats in
  time is held after every step of the run, every beat is accepted, and a final report in time would be accepted too.
  */
  lemma {:induction false} HeartbeatsKeepTheJob(
      s: Store, ops: seq<Op>, id: JobId, worker: WorkerId, last: Time, interval: nat, duration: nat, n: nat)
    requires StoreOk(s) && Held(s, id, worker, last, duration) && interval < duration
    requires OnTime(ops, id, worker, last, interval, duration) && n <= |ops|
    ensures var m := Run(s, ops[..n]); var beat := LastBeat(ops[..n], id, worker, last);
            && Held(m, id, worker, beat, duration)
            && (n < |ops| && IsBeat(ops[n], id, worker) ==> Apply(m, ops[n]) != m)
            && (forall at :: at < beat + duration ==> ReportLands(m, id, worker, at) && !Stale(m.rows[id].job, at))
    decreases n
  {
    hide Apply, StoreOk, Held, ReportLands, Stale;
    if n == 0 {
      assert ops[..0] == [];
      HeldMeansFresh(s, id, worker, last, interval, duration);
      if ops != [] {
        OnTimeHead(ops, id, worker, last, interval, duration);
        BeatInTime(s, ops[0], id, worker, last, interval, duration);
      }
    } else {
      OnTimeHead(ops, id, worker, last, interval, duration);
      BeatInTime(s, ops[0], id, worker, last, interval, duration);
      ApplyOk(s, ops[0]);
      assert ops[..n][1..] == ops[1..][..n - 1] && ops[..n][0] == ops[0];
      HeartbeatsKeepTheJob(Apply(s, ops[0]), ops[1..], id, worker, LastBeat([ops[0]], id, worker, last),
                           interval, duration, n - 1);
      if n < |ops| { assert ops[1..][n - 1] == ops[n]; }
    }
  }

  lemma HeldMeansFresh(s: Store, id: JobId, worker: WorkerId, last: Time, interval: nat, duration: nat)
    requires Held(s, id, worker, last, duration) && interval < duration
    ensures id in s.rows
    ensures forall at :: at < last + duration ==> ReportLands(s, id, worker, at) && !Stale(s.rows[id].job, at)
  {
  }

  lemma OnTimeHead(ops: seq<Op>, id: JobId, worker: WorkerId, last: Time, interval: nat, duration: nat)
    requires ops != [] && OnTime(ops, id, worker, last, interval, duration)
    ensures OnTime([ops[0]], id, worker, last, interval, duration)
    ensures LastBeat([ops[0]], id, worker, last) == if IsBeat(ops[0], id, worker) then ops[0].at else last
  {
  }

  // ---------------------------------------------------------------- the script of a heartbeat

  /** One round of the heartbeat: what others do first, when it fires, and how its renewal ends for the caller. */
  datatype Beat = Beat(before: seq<Op>, at: Time, fault: Fault)

  /** The stamp of the last renewal that reached the database, or `last` if none did. */
  function LastSent(beats: seq<Beat>, last: Time): Time {
    if beats == [] then last
    else if beats[|beats| - 1].fault.RaisesBefore? then LastSent(beats[..|beats| - 1], last)
    else beats[|beats| - 1].at
  }

  /** The steps of others: no report or renewal of this job by this worker id, and no recovery after the lease. */
  ghost predicate OthersInTime(ops: seq<Op>, id: JobId, worker: WorkerId, last: Time, duration: nat) {
    forall i :: 0 <= i < |ops| ==>
      !IsReport(ops[i], id, worker) && !IsBeat(ops[i], id, worker) && RecoversInTime(ops[i], last, duration)
  }

  /** The renewals that reach the database come at most `interval` apart, and others keep in time. */
  ghost predicate ScriptInTime(
      beats: seq<Beat>, id: JobId, worker: WorkerId, last: Time, interval: nat, duration: nat)
  {
    forall i :: 0 <= i < |beats| ==>
      && OthersInTime(beats[i].before, id, worker, LastSent(beats[..i], last), duration)
      && (!beats[i].fault.RaisesBefore? ==> beats[i].at <= LastSent(beats[..i], last) + interval)
  }

  lemma {:induction false} OthersAreOnTime(
      ops: seq<Op>, id: JobId, worker: WorkerId, last: Time, interval: nat, duration: nat)
    requires OthersInTime(ops, id, worker, last, duration)
    ensures OnTime(ops, id, worker, last, interval, duration) && LastBeat(ops, id, worker, last) == last
    decreases |ops|
  {
    if ops != [] {
      assert [ops[0]][1..] == [];
      assert forall i :: 0 <= i < |ops[1..]| ==> ops[1..][i] == ops[i + 1];
      OthersAreOnTime(ops[1..], id, worker, last, interval, duration);
    }
  }

  /**
  What one round does to the store: the renewal takes its step, stamped with the beat's own time and asking for the whole
  lease, unless it raised before or the row was locked.
  */
  ghost predicate BeatDone(s: Store, s1: Store, b: Beat, id: JobId, worker: WorkerId, duration: nat) {
    var m := Run(s, b.before);
    s1 == if b.fault.RaisesBefore? || id in Locked(m) then m else Apply(m, Renew(id, worker, b.at, b.at + duration))
  }

  /** The renewal answered that the job is no longer this worker's. */
  ghost predicate BeatRefused(s: Store, b: Beat, id: JobId, worker: WorkerId) {
    var m := Run(s, b.before);
    && b.fault.Clean? && id !in Locked(m)
    && !(&& id in m.rows && m.rows[id].job.status == Running && m.rows[id].job.workerId == Some(worker)
         && m.rows[id].job.leaseExpiresAt.Some? && b.at < m.rows[id].job.leaseExpiresAt.value)
  }

  /** One round in time: the row is free, the renewal is accepted, and the lease moves on to it. */
  lemma RoundKeepsTheJob(
      s: Store, s1: Store, b: Beat, id: JobId, worker: WorkerId, last: Time, interval: nat, duration: nat)
    requires StoreOk(s) && Held(s, id, worker, last, duration) && interval < duration
    requires OthersInTime(b.before, id, worker, last, duration) && BeatDone(s, s1, b, id, worker, duration)
    requires !b.fault.RaisesBefore? ==> b.at <= last + interval
    ensures !BeatRefused(s, b, id, worker)
    ensures Held(s1, id, worker, if b.fault.RaisesBefore? then last else b.at, duration)
  {
    var m, renewal := Run(s, b.before), Renew(id, worker, b.at, b.at + duration);
    OthersAreOnTime(b.before, id, worker, last, interval, duration);
    HeartbeatsKeepTheJob(s, b.before, id, worker, last, interval, duration, |b.before|);
    assert b.before[..|b.before|] == b.before;
    assert Held(m, id, worker, last, duration) && id !in Locked(m);
    hide StoreOk, Apply, OnTime, OthersInTime, Run;
    if !b.fault.RaisesBefore? {
      BeatAccepted(m, renewal, id, worker, last, interval, duration);
    }
  }
}
