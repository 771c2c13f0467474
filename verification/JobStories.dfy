/**
Two things the queue does not promise, each shown by a run of the store from the empty table: what clocks that run
ahead can do to the spacing of claims, and what two slots of one process can do to each other.
*/
module JobStories {
  import opened Options
  import opened Jobs
  import opened JobHistory
  import opened Selection
  import opened JobStore
  import opened JobRuns

  /** A table with one job that nobody has locked. */
  function OneJob(r: Row): Store {
    Store(map[0 := r], map[])
  }

  function ClaimOps(r: Row, worker: WorkerId, at: Time, lease: Time): seq<Op> {
    [LockForClaim(0, worker, {r.job.work.queue}, 1, at, lease), Commit(0)]
  }

  function RecoverOps(at: Time): seq<Op> {
    [LockForRecovery(0, 1, at), Commit(0)]
  }

  lemma TakeOnlyOne(keys: map<JobId, SortKey>)
    requires Keyed(keys) && keys.Keys == {0}
    ensures Take(keys, 1) == [0]
  {
    TakeIsSelection(keys, 1);
    assert |keys| == |keys.Keys| == 1;
    var ids := Take(keys, 1);
    assert ids[0] in keys;
  }

  lemma RunTwo(s: Store, a: Op, b: Op)
    ensures Run(s, [a, b]) == Apply(Apply(s, a), b)
  {
    assert [a, b][1..] == [b] && [b][1..] == [];
    assert Run(Apply(s, a), [b]) == Apply(Apply(s, a), b);
  }

  lemma SubmitStory(work: Submission)
    requires ValidSubmission(work)
    ensures Run(EMPTY, [Submit(0, work, 0)]) == OneJob(NewRow(work, 0))
  {
    assert [Submit(0, work, 0)][1..] == [];
  }

  lemma ClaimStory(r: Row, worker: WorkerId, at: Time, lease: Time)
    requires Claimable(r.job, {r.job.work.queue}, at)
    ensures Run(OneJob(r), ClaimOps(r, worker, at, lease)) == OneJob(ClaimRow(r, worker, at, lease))
  {
    var s, queues := OneJob(r), {r.job.work.queue};
    var t := ClaimTxn([0], queues, worker, at, lease);
    hide Take, ClaimJob;
    assert Locked(s) == {};
    assert ClaimKeys(s, queues, at).Keys == {0};
    TakeOnlyOne(ClaimKeys(s, queues, at));
    RunTwo(s, LockForClaim(0, worker, queues, 1, at, lease), Commit(0));
    hide Claimable, ClaimKeys;
    CommitStory(r, t);
  }

  lemma RecoverStory(r: Row, at: Time)
    requires Stale(r.job, at)
    ensures Run(OneJob(r), RecoverOps(at)) == OneJob(RecoverRow(r, at))
  {
    var s := OneJob(r);
    hide Take, RecoverJob;
    assert Locked(s) == {};
    assert RecoverKeys(s, at).Keys == {0};
    TakeOnlyOne(RecoverKeys(s, at));
    RunTwo(s, LockForRecovery(0, 1, at), Commit(0));
    hide Stale, RecoverKeys;
    CommitStory(r, RecoverTxn([0], at));
  }

  lemma CommitStory(r: Row, t: Txn)
    requires t.ids == [0]
    ensures Apply(Store(map[0 := r], map[0 := t]), Commit(0)) == OneJob(CommitRow(t, r))
  {
    hide CommitRow;
    var open: map<TxnId, Txn> := map[0 := t];
    assert open - {0} == map[];
  }

  lemma FailStory(r: Row, worker: WorkerId, at: Time, error: string, retryable: bool, base: nat, cap: nat)
    requires Owns(r.job, worker, at)
    ensures Run(OneJob(r), [Fail(0, worker, at, error, retryable, base, cap)])
            == OneJob(FailRow(r, worker, at, error, retryable, base, cap))
  {
    var op := Fail(0, worker, at, error, retryable, base, cap);
    assert [op][1..] == [];
    hide FailJob, Owns;
    assert Locked(OneJob(r)) == {};
    assert map[0 := r][0 := FailRow(r, worker, at, error, retryable, base, cap)]
           == map[0 := FailRow(r, worker, at, error, retryable, base, cap)];
  }

  lemma Then(ops: seq<Op>, r: Row, more: seq<Op>, r1: Row)
    requires Run(EMPTY, ops) == OneJob(r) && Run(OneJob(r), more) == OneJob(r1)
    ensures Run(EMPTY, ops + more) == OneJob(r1)
  {
    RunConcat(EMPTY, ops, more);
  }

  // ---------------------------------------------------------------- a clock that runs behind

  /** Two failures of a job, the second stamped long before the first by a worker whose clock is behind. */
  function EarlyReport(work: Submission): seq<Row> {
    var r0 := NewRow(work, 0);
    var r1 := ClaimRow(r0, "a", 1000, 2000);
    var r2 := FailRow(r1, "a", 1500, "error", true, 100, 1000);
    var r3 := ClaimRow(r2, "b", 1600, 2600);
    var r4 := FailRow(r3, "b", 5, "error", true, 100, 1000);
    [r0, r1, r2, r3, r4, ClaimRow(r4, "a", 205, 1205)]
  }

  function EarlyReportOps(work: Submission): seq<Op> {
    var rs := EarlyReport(work);
    [Submit(0, work, 0)]
    + ClaimOps(rs[0], "a", 1000, 2000) + [Fail(0, "a", 1500, "error", true, 100, 1000)]
    + ClaimOps(rs[2], "b", 1600, 2600) + [Fail(0, "b", 5, "error", true, 100, 1000)]
    + ClaimOps(rs[4], "a", 205, 1205)
  }

  lemma EarlyReportGuards(work: Submission)
    requires work.maxAttempts >= 3
    ensures var rs := EarlyReport(work); var queues := {work.queue};
            && (forall i :: 0 <= i < |rs| ==> rs[i].job.work == work)
            && Claimable(rs[0].job, queues, 1000) && Owns(rs[1].job, "a", 1500)
            && Claimable(rs[2].job, queues, 1600) && Owns(rs[3].job, "b", 5)
            && Claimable(rs[4].job, queues, 205)
  {
    assert Pow2(0) == 1 && Pow2(1) == 2;
  }

  lemma EarlyReportRuns(work: Submission)
    requires ValidSubmission(work) && work.maxAttempts >= 3
    ensures Run(EMPTY, EarlyReportOps(work)) == OneJob(EarlyReport(work)[5])
  {
    var rs := EarlyReport(work);
    EarlyReportGuards(work);
    hide Run, Claimable, Owns, ClaimJob, FailJob, OneJob;
    var o0 := [Submit(0, work, 0)];
    var o1 := o0 + ClaimOps(rs[0], "a", 1000, 2000);
    var o2 := o1 + [Fail(0, "a", 1500, "error", true, 100, 1000)];
    var o3 := o2 + ClaimOps(rs[2], "b", 1600, 2600);
    var o4 := o3 + [Fail(0, "b", 5, "error", true, 100, 1000)];
    SubmitStory(work);
    ClaimStory(rs[0], "a", 1000, 2000);
    Then(o0, rs[0], ClaimOps(rs[0], "a", 1000, 2000), rs[1]);
    FailStory(rs[1], "a", 1500, "error", true, 100, 1000);
    Then(o1, rs[1], [Fail(0, "a", 1500, "error", true, 100, 1000)], rs[2]);
    ClaimStory(rs[2], "b", 1600, 2600);
    Then(o2, rs[2], ClaimOps(rs[2], "b", 1600, 2600), rs[3]);
    FailStory(rs[3], "b", 5, "error", true, 100, 1000);
    Then(o3, rs[3], [Fail(0, "b", 5, "error", true, 100, 1000)], rs[4]);
    ClaimStory(rs[4], "a", 205, 1205);
    Then(o4, rs[4], ClaimOps(rs[4], "a", 205, 1205), rs[5]);
  }

  /**
  A worker's clock that is behind can undo an earlier backoff: in this run of the store the third claim precedes what
  the first failure asked for, because the second report did not keep that floor.
  */
  lemma LaterClaimNeedNotWait(work: Submission)
    requires ValidSubmission(work) && work.maxAttempts >= 3
    ensures var s := Run(EMPTY, EarlyReportOps(work));
            && 0 in s.rows
            && var r := s.rows[0]; var h := r.history;
               && h == [Claimed("a", 1000, 2000), Failed("a", 1500, true, 100, 1000), Claimed("b", 1600, 2600),
                        Failed("b", 5, true, 100, 1000), Claimed("a", 205, 1205)]
               && h[4].at == 205 < Floor(h, 1) == 1600
               && !KeepsFloors(h, work.maxAttempts, 0, 3)
  {
    EarlyReportRuns(work);
    ReachableOk(EarlyReportOps(work));
    var r := EarlyReport(work)[5];
    var h := r.history;
    var e0, e1, e2, e3, e4 := Claimed("a", 1000, 2000), Failed("a", 1500, true, 100, 1000), Claimed("b", 1600, 2600),
                              Failed("b", 5, true, 100, 1000), Claimed("a", 205, 1205);
    assert h == [e0, e1, e2, e3, e4];
    assert RowOk(r) && r.job.work == work && r.job.createdAt == 0;
    hide ClaimJob, FailJob, NewJob, Agrees;
    var h1, h2, h3, h4 := [e0], [e0, e1], [e0, e1, e2], [e0, e1, e2, e3];
    assert h[..2] == h2 && h[..4] == h4;
    assert Front(h1) == [] && Front(h2) == h1 && Front(h3) == h2 && Front(h4) == h3;
    assert Claims([]) == 0 && Claims(h1) == 1 && Claims(h2) == 1 && Claims(h3) == 2 && Claims(h4) == 2;
    assert Pow2(0) == 1 && Pow2(1) == 2;
    assert Floor(h, 1) == 1600 && ReadyAt(h4, 0) == 205 && !Final(h4, work.maxAttempts);
    assert LetsRetry(h[1]) && LetsRetry(h[3]);
  }

  // ---------------------------------------------------------------- two slots of one process

  /** A slot's lease runs out, the job is recovered and claimed by another slot of the process, and the first reports. */
  function SlowSlot(work: Submission): seq<Row> {
    var r0 := NewRow(work, 0);
    var r1 := ClaimRow(r0, "w", 10, 40);
    var r2 := RecoverRow(r1, 50);
    var r3 := ClaimRow(r2, "w", 60, 90);
    [r0, r1, r2, r3, FailRow(r3, "w", 70, "first slot's error", true, 1, 1)]
  }

  /** Up to the first slot's claim, and from there to its report. */
  function SlowSlotClaims(work: Submission): seq<Op> {
    [Submit(0, work, 0)] + ClaimOps(SlowSlot(work)[0], "w", 10, 40)
  }

  function SlowSlotReports(work: Submission): seq<Op> {
    RecoverOps(50) + ClaimOps(SlowSlot(work)[2], "w", 60, 90)
  }

  lemma SlowSlotGuards(work: Submission)
    requires work.maxAttempts >= 2
    ensures var rs := SlowSlot(work);
            && (forall i :: 0 <= i < |rs| ==> rs[i].job.work == work)
            && Claimable(rs[0].job, {work.queue}, 10) && Stale(rs[1].job, 50)
            && Claimable(rs[2].job, {work.queue}, 60) && Owns(rs[3].job, "w", 70)
  {
  }

  lemma SlowSlotRuns(work: Submission)
    requires ValidSubmission(work) && work.maxAttempts >= 2
    ensures Run(EMPTY, SlowSlotClaims(work)) == OneJob(SlowSlot(work)[1])
    ensures Run(EMPTY, SlowSlotClaims(work) + SlowSlotReports(work)) == OneJob(SlowSlot(work)[3])
    ensures Run(EMPTY, SlowSlotClaims(work) + SlowSlotReports(work)
                       + [Fail(0, "w", 70, "first slot's error", true, 1, 1)]) == OneJob(SlowSlot(work)[4])
  {
    var rs := SlowSlot(work);
    SlowSlotGuards(work);
    hide Run, Claimable, Owns, Stale, ClaimJob, FailJob, RecoverJob, OneJob;
    var o0 := [Submit(0, work, 0)];
    var o1 := SlowSlotClaims(work);
    SubmitStory(work);
    ClaimStory(rs[0], "w", 10, 40);
    Then(o0, rs[0], ClaimOps(rs[0], "w", 10, 40), rs[1]);
    RecoverStory(rs[1], 50);
    Then(o1, rs[1], RecoverOps(50), rs[2]);
    ClaimStory(rs[2], "w", 60, 90);
    Then(o1 + RecoverOps(50), rs[2], ClaimOps(rs[2], "w", 60, 90), rs[3]);
    assert o1 + RecoverOps(50) + ClaimOps(rs[2], "w", 60, 90) == o1 + SlowSlotReports(work);
    FailStory(rs[3], "w", 70, "first slot's error", true, 1, 1);
    Then(o1 + SlowSlotReports(work), rs[3], [Fail(0, "w", 70, "first slot's error", true, 1, 1)], rs[4]);
  }

  /**
  Two slots of one process share its worker id: in this run the first slot's report is accepted, although its claim,
  entry 0 of the log, was ended by recovery; it ends the other slot's claim, entry 2.  The attempt counts tell: the
  first slot was given 1 and the row it reports on shows 2.
  */
  lemma SlowSlotEndsTheOthersClaim(work: Submission)
    requires ValidSubmission(work) && work.maxAttempts >= 2
    ensures var given, found := Run(EMPTY, SlowSlotClaims(work)), Run(EMPTY, SlowSlotClaims(work) + SlowSlotReports(work));
            var end := Run(EMPTY, SlowSlotClaims(work) + SlowSlotReports(work)
                                  + [Fail(0, "w", 70, "first slot's error", true, 1, 1)]);
            && 0 in given.rows && 0 in found.rows && 0 in end.rows
            && ReportLands(found, 0, "w", 70)
            && given.rows[0].job.attemptCount == 1 && found.rows[0].job.attemptCount == 2
            && given.rows[0].history == [Claimed("w", 10, 40)]
            && end.rows[0].history == [Claimed("w", 10, 40), Recovered(50, 40), Claimed("w", 60, 90),
                                       Failed("w", 70, true, 1, 1)]
            && LatestClaim(given.rows[0].history) == 0 && LatestClaim(end.rows[0].history) == 2
  {
    SlowSlotRuns(work);
    SlowSlotGuards(work);
    hide Run;
    var e0, e1, e2, e3 := Claimed("w", 10, 40), Recovered(50, 40), Claimed("w", 60, 90), Failed("w", 70, true, 1, 1);
    assert SlowSlot(work)[4].history == [e0, e1, e2, e3];
    assert Front([e0, e1, e2, e3]) == [e0, e1, e2];
    assert Locked(OneJob(SlowSlot(work)[3])) == {};
  }
}
