/**
What the log of a job says about its claims: who owned it when, how often it was tried, how far apart the attempts
are, and what the backoff adds up to.  Everything here holds of every legal log, whatever the clocks of the workers
showed.
*/
module JobHistory {
  import opened Options
  import opened Jobs

  // ---------------------------------------------------------------- ownership

  /** Worker `w` made the latest claim, nothing but renewals followed, and `at` is before the lease set last. */
  ghost predicate HoldsLease(h: seq<Event>, w: WorkerId, at: Time) {
    exists i ::
      && 0 <= i < |h| && h[i].Claimed? && h[i].worker == w
      && (forall k :: i < k < |h| ==> h[k].Renewed?)
      && (var e := h[|h| - 1]; (e.Claimed? || e.Renewed?) && at < e.lease)
  }

  lemma {:induction false} HolderIsLatestClaim(h: seq<Event>, w: WorkerId)
    ensures Holder(h) == Some(w) <==>
            exists i :: 0 <= i < |h| && h[i].Claimed? && h[i].worker == w
                        && forall k :: i < k < |h| ==> h[k].Renewed?
  {
    if h != [] {
      var f := Front(h);
      HolderIsLatestClaim(f, w);
      if Holder(h) == Some(w) {
        if Last(h).Claimed? {
          assert h[|h| - 1].Claimed?;
        } else {
          var i :| 0 <= i < |f| && f[i].Claimed? && f[i].worker == w && forall k :: i < k < |f| ==> f[k].Renewed?;
          assert h[i] == f[i] && forall k :: i < k < |h| - 1 ==> h[k] == f[k];
        }
      }
      if i :| 0 <= i < |h| && h[i].Claimed? && h[i].worker == w && forall k :: i < k < |h| ==> h[k].Renewed? {
        if i < |h| - 1 {
          assert f[i] == h[i] && forall k :: i < k < |f| ==> f[k] == h[k];
          assert h[|h| - 1].Renewed?;
        }
      }
    }
  }

  /** The WHERE clause of every report means exactly that the reporter holds the lease. */
  lemma OwnsIffHoldsLease(r: Row, w: WorkerId, at: Time)
    requires RowOk(r)
    ensures Owns(r.job, w, at) <==> HoldsLease(r.history, w, at)
  {
    HolderIsLatestClaim(r.history, w);
    RowShape(r);
    if Owns(r.job, w, at) {
      var h := r.history;
      var i :| 0 <= i < |h| && h[i].Claimed? && h[i].worker == w && forall k :: i < k < |h| ==> h[k].Renewed?;
      assert h[i].Claimed? && at < h[|h| - 1].lease;
    }
  }

  /** Recovery selects a row exactly when a claim is open and its lease has run out; it never sees a null lease. */
  lemma StaleIffExpired(r: Row, at: Time)
    requires RowOk(r)
    ensures Stale(r.job, at) <==> Holder(r.history).Some? && LeaseEnd(r.history) <= at
    ensures Stale(r.job, at) ==> r.job.leaseExpiresAt.Some?
  {
  }

  // ---------------------------------------------------------------- whose claim a report ends

  /** The position of the latest claim, or -1. */
  function LatestClaim(h: seq<Event>): int {
    if h == [] then -1 else if Last(h).Claimed? then |h| - 1 else LatestClaim(Front(h))
  }

  /** From entry `n` on the log has no claim by `worker`: no slot of its process claimed the job again. */
  ghost predicate NoClaimSince(h: seq<Event>, n: nat, worker: WorkerId) {
    forall k :: n <= k < |h| ==> !(h[k].Claimed? && h[k].worker == worker)
  }

  /** A later log has the same latest claim if and only if it has as many claims, and else its latest claim is new. */
  lemma {:induction false} SameClaimIffSameCount(h0: seq<Event>, h: seq<Event>)
    requires h0 <= h
    ensures Claims(h0) <= Claims(h)
    ensures LatestClaim(h) == LatestClaim(h0) <==> Claims(h) == Claims(h0)
    ensures LatestClaim(h) != LatestClaim(h0) ==> |h0| <= LatestClaim(h) < |h| && h[LatestClaim(h)].Claimed?
    ensures LatestClaim(h) == LatestClaim(h0) ==> forall k :: |h0| <= k < |h| ==> !h[k].Claimed?
    ensures LatestClaim(h0) < |h0|
  {
    if |h| > |h0| {
      assert h0 <= Front(h);
      SameClaimIffSameCount(h0, Front(h));
    } else {
      assert h == h0;
      if h0 != [] {
        SameClaimIffSameCount(Front(h0), Front(h0));
      }
    }
  }

  lemma {:induction false} HolderMadeLatestClaim(h: seq<Event>)
    requires Holder(h).Some?
    ensures 0 <= LatestClaim(h) < |h| && h[LatestClaim(h)].Claimed? && h[LatestClaim(h)].worker == Holder(h).value
  {
    if !Last(h).Claimed? {
      HolderMadeLatestClaim(Front(h));
    }
  }

  /**
  A report that `worker` made in the log `h`, some time after the log was `h0`: it ends the claim that was the latest
  in `h0` if and only if the job has had no claim since, which its attempt count shows; otherwise it ends a later
  claim of the same worker id.
  */
  lemma ReportEndsClaim(h0: seq<Event>, h: seq<Event>, worker: WorkerId)
    requires h0 <= h && Holder(h) == Some(worker)
    ensures LatestClaim(h) == LatestClaim(h0) <==> Claims(h) == Claims(h0)
    ensures LatestClaim(h) == LatestClaim(h0) <==> NoClaimSince(h, |h0|, worker)
    ensures LatestClaim(h) != LatestClaim(h0) ==>
              |h0| <= LatestClaim(h) < |h| && h[LatestClaim(h)].Claimed? && h[LatestClaim(h)].worker == worker
  {
    SameClaimIffSameCount(h0, h);
    HolderMadeLatestClaim(h);
  }

  // ---------------------------------------------------------------- attempts and outcomes

  lemma {:induction false} LegalPrefix(h: seq<Event>, max: nat, created: Time, n: nat)
    requires Legal(h, max, created) && n <= |h|
    ensures Legal(h[..n], max, created)
  {
    if n == |h| {
      assert h[..n] == h;
    } else {
      LegalPrefix(Front(h), max, created, n);
      assert Front(h)[..n] == h[..n];
    }
  }

  lemma {:induction false} ClaimsAndOutcomes(h: seq<Event>, max: nat, created: Time)
    requires Legal(h, max, created)
    ensures Claims(h) == Outcomes(h) + if Holder(h).Some? then 1 else 0
    ensures Claims(h) <= max
  {
    if h != [] {
      ClaimsAndOutcomes(Front(h), max, created);
    }
  }

  /** At every moment of a job's life its claims and outcomes have alternated, so no claim gets two outcomes. */
  lemma ClaimsAlternateWithOutcomes(h: seq<Event>, max: nat, created: Time, n: nat)
    requires Legal(h, max, created) && n <= |h|
    ensures Outcomes(h[..n]) <= Claims(h[..n]) <= Outcomes(h[..n]) + 1
    ensures Claims(h[..n]) == Outcomes(h[..n]) + 1 <==> Holder(h[..n]).Some?
  {
    LegalPrefix(h, max, created, n);
    ClaimsAndOutcomes(h[..n], max, created);
  }

  /** Between two outcomes of a job there is a claim. */
  lemma {:induction false} OutcomeNeedsClaim(h: seq<Event>, max: nat, created: Time, i: nat, k: nat)
    requires Legal(h, max, created) && i < k < |h| && IsOutcome(h[i]) && IsOutcome(h[k])
    ensures exists c :: i < c < k && h[c].Claimed?
  {
    LegalPrefix(h, max, created, k + 1);
    var p := h[..k + 1];
    assert Front(p) == h[..k] && Last(p) == h[k];
    assert Holder(h[..k]).Some?;
    var w := Holder(h[..k]).value;
    HolderIsLatestClaim(h[..k], w);
    var q := h[..k];
    var c :| 0 <= c < |q| && q[c].Claimed? && q[c].worker == w && forall x :: c < x < |q| ==> q[x].Renewed?;
    assert h[c] == q[c] && h[i] == q[i];
  }

  /** A job changes status at most twice per allowed attempt. */
  lemma StatusChangesBounded(h: seq<Event>, max: nat, created: Time)
    requires Legal(h, max, created)
    ensures Claims(h) + Outcomes(h) <= 2 * max
  {
    ClaimsAndOutcomes(h, max, created);
  }

  /** The attempts a job may still make, counting a running one as half done. */
  function Remaining(r: Row): int {
    if r.job.completedAt.Some? then 0
    else 2 * (r.job.work.maxAttempts - r.job.attemptCount) + if r.job.status == Running then 1 else 0
  }

  /** Every step other than a renewal uses up some of what remains. */
  lemma StepUsesUpWork(r: Row, r1: Row)
    requires RowOk(r) && RowStep(r, r1)
    ensures 0 <= Remaining(r1) <= Remaining(r)
    ensures r1 != r && !Last(r1.history).Renewed? ==> Remaining(r1) < Remaining(r)
    ensures Remaining(r) == 0 <==> Final(r.history, r.job.work.maxAttempts)
  {
    RowStepOk(r, r1);
    RowShape(r);
    RowShape(r1);
  }

  lemma StatusChangeUsesUpWork(r: Row, r1: Row)
    requires RowOk(r) && RowStep(r, r1)
    ensures Remaining(r1) + (if r1.job.status != r.job.status then 1 else 0) <= Remaining(r)
  {
    StepUsesUpWork(r, r1);
    RowShape(r);
    hide Legal, Agrees, Remaining;
  }

  /** A succeeded or dead-lettered row is never changed again. */
  lemma FinalRowStays(r: Row, r1: Row)
    requires RowOk(r) && RowStep(r, r1)
    requires r.job.status == Succeeded || r.job.status == DeadLettered
    ensures r1 == r
  {
  }

  // ---------------------------------------------------------------- spacing of claims

  /** What an outcome makes the next claim wait for. */
  function Floor(h: seq<Event>, i: nat): Time
    requires i < |h| && (h[i].Failed? || h[i].Recovered?)
  {
    match h[i]
    case Failed(_, at, _, base, cap) => at + RetryDelay(Claims(h[..i + 1]), base, cap)
    case Recovered(_, expired) => expired
  }

  lemma ClaimFollowsOutcome(h: seq<Event>, max: nat, created: Time, k: nat)
    requires Legal(h, max, created) && k < |h| && h[k].Claimed?
    ensures ReadyAt(h[..k], created) <= h[k].at
    ensures k > 0 ==> IsOutcome(h[k - 1])
  {
    LegalPrefix(h, max, created, k + 1);
    var p := h[..k + 1];
    assert Front(p) == h[..k] && Last(p) == h[k];
    if k > 0 {
      LegalPrefix(h, max, created, k);
      assert Last(h[..k]) == h[k - 1];
    }
  }

  lemma OutcomeSetsFloor(h: seq<Event>, max: nat, created: Time, i: nat)
    requires Legal(h, max, created) && i < |h| && (h[i].Failed? || h[i].Recovered?)
    ensures Floor(h, i) <= ReadyAt(h[..i + 1], created)
  {
  }

  /** Without any assumption on the clocks: the next claim respects the backoff, or the lease recovery ended. */
  lemma NextClaimWaits(h: seq<Event>, max: nat, created: Time, i: nat, k: nat)
    requires Legal(h, max, created) && i < k < |h|
    requires h[i].Failed? || h[i].Recovered?
    requires h[k].Claimed? && forall x :: i < x < k ==> !h[x].Claimed?
    ensures Floor(h, i) <= h[k].at
    ensures k == i + 1
  {
    hide Legal, Floor, ReadyAt;
    ClaimFollowsOutcome(h, max, created, k);
    OutcomeSetsFloor(h, max, created, i);
    if k != i + 1 {
      OutcomeNeedsClaim(h, max, created, i, k - 1);
    }
  }

  /** Every report and renewal is stamped no earlier than the claim it belongs to, and leases are not negative. */
  ghost predicate ReportsFollowClaims(h: seq<Event>) {
    && (forall k :: 0 <= k < |h| ==>
          (h[k].Renewed? || h[k].Failed?) && ClaimTime(h[..k]).Some? ==> ClaimTime(h[..k]).value <= h[k].at)
    && (forall k :: 0 <= k < |h| && (h[k].Claimed? || h[k].Renewed?) ==> h[k].at <= h[k].lease)
  }

  lemma {:induction false} OutcomesFollowClaims(h: seq<Event>, max: nat, created: Time)
    requires Legal(h, max, created) && ReportsFollowClaims(h) && ClaimTime(h).Some?
    ensures Holder(h).Some? ==> ClaimTime(h).value <= LeaseEnd(h)
    ensures Last(h).Failed? || Last(h).Recovered? ==> ClaimTime(h).value <= ReadyAt(h, created)
  {
    var f := Front(h);
    assert h[..|h| - 1] == f;
    FollowPrefix(h, |h| - 1);
    if !Last(h).Claimed? {
      OutcomesFollowClaims(f, max, created);
    }
  }

  lemma FollowPrefix(h: seq<Event>, n: nat)
    requires ReportsFollowClaims(h) && n <= |h|
    ensures ReportsFollowClaims(h[..n])
  {
    var f := h[..n];
    forall k | 0 <= k < |f|
      ensures f[k] == h[k] && f[..k] == h[..k]
    {
    }
  }

  lemma {:induction false} LatestClaimWaits(h: seq<Event>, max: nat, created: Time, i: nat, k: nat)
    requires Legal(h, max, created) && ReportsFollowClaims(h)
    requires i < k < |h| && (h[i].Failed? || h[i].Recovered?) && h[k].Claimed?
    ensures ClaimTime(h).Some? && Floor(h, i) <= ClaimTime(h).value
    decreases |h|
  {
    var f := Front(h);
    FollowPrefix(h, |h| - 1);
    if c :| i < c < |f| && f[c].Claimed? {
      LatestClaimWaits(f, max, created, i, c);
      assert f[..i + 1] == h[..i + 1];
      OutcomesFollowClaims(f, max, created);
      if Last(h).Claimed? {
        ClaimNeedsOutcome(h, max, created);
      }
    } else {
      assert forall x :: i < x < |f| ==> f[x] == h[x];
      assert k == |h| - 1;
      NextClaimWaits(h, max, created, i, k);
    }
  }

  /** A claim that is not the first directly follows the outcome of the one before. */
  lemma ClaimNeedsOutcome(h: seq<Event>, max: nat, created: Time)
    requires Legal(h, max, created) && h != [] && Last(h).Claimed? && Front(h) != []
    ensures Last(Front(h)).Failed? || Last(Front(h)).Recovered?
  {
  }

  // ---------------------------------------------------------------- when every later claim waits

  predicate LetsRetry(e: Event) {
    e.Failed? || e.Recovered?
  }

  /** A claim stamped `at` respects every failure and recovery in the log. */
  ghost predicate Respected(h: seq<Event>, at: Time) {
    forall i :: 0 <= i < |h| && LetsRetry(h[i]) ==> Floor(h, i) <= at
  }

  /**
  The report or recovery `k`, if the job may be tried again after it, makes the job available no earlier than any
  earlier one asked for.  A reporter can evaluate this before it reports, from its own clock and the log.
  */
  ghost predicate KeepsFloors(h: seq<Event>, max: nat, created: Time, k: nat)
    requires k < |h|
  {
    LetsRetry(h[k]) && !Final(h[..k + 1], max) ==>
      forall i :: 0 <= i < k && LetsRetry(h[i]) ==> Floor(h, i) <= ReadyAt(h[..k + 1], created)
  }

  /** Whoever claims the job next at any point of its life, at any time the queue would accept, has waited long enough. */
  ghost predicate EveryClaimWaits(h: seq<Event>, max: nat, created: Time) {
    forall n, worker, at, lease ::
      0 <= n <= |h| && Legal(h[..n] + [Claimed(worker, at, lease)], max, created) ==> Respected(h[..n], at)
  }

  lemma FloorOfPrefix(h: seq<Event>, n: nat, i: nat)
    requires i < n <= |h| && LetsRetry(h[i])
    ensures Floor(h[..n], i) == Floor(h, i)
  {
    assert h[..n][..i + 1] == h[..i + 1];
  }

  lemma ClaimNow(h: seq<Event>, max: nat, created: Time, worker: WorkerId, at: Time, lease: Time)
    requires Legal(h, max, created)
    ensures Legal(h + [Claimed(worker, at, lease)], max, created) <==>
            Holder(h).None? && !Final(h, max) && Claims(h) < max && ReadyAt(h, created) <= at
  {
    Snoc(h, Claimed(worker, at, lease));
  }

  lemma KeptFloorsRespected(
      h: seq<Event>, max: nat, created: Time, n: nat, worker: WorkerId, at: Time, lease: Time)
    requires Legal(h, max, created) && n <= |h| && forall k :: 0 <= k < |h| ==> KeepsFloors(h, max, created, k)
    requires Legal(h[..n] + [Claimed(worker, at, lease)], max, created)
    ensures Respected(h[..n], at)
  {
    LegalPrefix(h, max, created, n);
    ClaimNow(h[..n], max, created, worker, at, lease);
    if n > 0 {
      var k := n - 1;
      Snoc(h[..n], Claimed(worker, at, lease));
      ClaimNeedsOutcome(h[..n] + [Claimed(worker, at, lease)], max, created);
      assert Last(h[..n]) == h[k] && h[..k + 1] == h[..n] && KeepsFloors(h, max, created, k);
      hide Legal, Final, ReadyAt, Holder, Claims;
      OutcomeSetsFloor(h, max, created, k);
      forall i | 0 <= i < n && LetsRetry(h[i])
        ensures Floor(h[..n], i) <= at
      {
        FloorOfPrefix(h, n, i);
      }
    }
  }

  lemma WaitingKeepsFloors(h: seq<Event>, max: nat, created: Time, k: nat)
    requires Legal(h, max, created) && k < |h| && EveryClaimWaits(h, max, created)
    ensures KeepsFloors(h, max, created, k)
  {
    var p := h[..k + 1];
    if LetsRetry(h[k]) && !Final(p, max) {
      LegalPrefix(h, max, created, k + 1);
      assert Last(p) == h[k] && Holder(p).None?;
      RetryLeavesAttempts(p, max, created);
      ClaimNow(p, max, created, "", ReadyAt(p, created), 0);
      assert Respected(p, ReadyAt(p, created));
      hide Legal, Final, ReadyAt, Holder;
      forall i | 0 <= i < k && LetsRetry(h[i])
        ensures Floor(h, i) <= ReadyAt(p, created)
      {
        FloorOfPrefix(h, k + 1, i);
        assert p[i] == h[i];
      }
    }
  }

  lemma RetryLeavesAttempts(h: seq<Event>, max: nat, created: Time)
    requires Legal(h, max, created) && h != [] && LetsRetry(Last(h)) && !Final(h, max)
    ensures Claims(h) < max
  {
  }

  /**
  Exactly when the spacing of claims is certain: every claim the queue can ever accept respects all earlier waits if
  and only if no report or recovery made the job available before an earlier one allowed.
  */
  lemma ClaimsWaitIffFloorsKept(h: seq<Event>, max: nat, created: Time)
    requires Legal(h, max, created)
    ensures EveryClaimWaits(h, max, created) <==> forall k :: 0 <= k < |h| ==> KeepsFloors(h, max, created, k)
  {
    hide Legal, Respected, KeepsFloors;
    if EveryClaimWaits(h, max, created) {
      forall k | 0 <= k < |h|
        ensures KeepsFloors(h, max, created, k)
      {
        WaitingKeepsFloors(h, max, created, k);
      }
    }
    if forall k :: 0 <= k < |h| ==> KeepsFloors(h, max, created, k) {
      forall n, worker, at, lease | 0 <= n <= |h| && Legal(h[..n] + [Claimed(worker, at, lease)], max, created)
        ensures Respected(h[..n], at)
      {
        KeptFloorsRespected(h, max, created, n, worker, at, lease);
      }
    }
  }

  lemma ThatClaimWaits(h: seq<Event>, max: nat, created: Time, n: nat, worker: WorkerId, at: Time, lease: Time)
    requires EveryClaimWaits(h, max, created) && n <= |h|
    requires Legal(h[..n] + [Claimed(worker, at, lease)], max, created)
    ensures Respected(h[..n], at)
  {
    hide Legal, Respected;
  }

  /** In particular every claim the log holds has then waited for everything before it. */
  lemma ClaimsOfLogWait(h: seq<Event>, max: nat, created: Time, i: nat, k: nat)
    requires Legal(h, max, created) && EveryClaimWaits(h, max, created)
    requires i < k < |h| && LetsRetry(h[i]) && h[k].Claimed?
    ensures Floor(h, i) <= h[k].at
  {
    hide Legal, Floor, EveryClaimWaits;
    LegalPrefix(h, max, created, k + 1);
    assert h[..k + 1] == h[..k] + [Claimed(h[k].worker, h[k].at, h[k].lease)];
    ThatClaimWaits(h, max, created, k, h[k].worker, h[k].at, h[k].lease);
    assert h[..k][i] == h[i];
    FloorOfPrefix(h, k, i);
  }

  /** The same read off a row: whoever may claim it now has waited, if and only if `available_at` is late enough. */
  lemma NextClaimWaitsIffAvailableLate(r: Row)
    requires RowOk(r) && (r.job.status == Queued || r.job.status == RetryScheduled)
    ensures (forall queues, at :: Claimable(r.job, queues, at) ==> Respected(r.history, at))
            <==> Respected(r.history, r.job.availableAt)
  {
    hide RowOk, Floor;
    var here := {r.job.work.queue};
    assert Claimable(r.job, here, r.job.availableAt);
    if Respected(r.history, r.job.availableAt) {
      forall queues, at | Claimable(r.job, queues, at)
        ensures Respected(r.history, at)
      {
      }
    }
  }

  /** The condition on a failure report, as the reporter can evaluate it before it reports. */
  lemma FailureKeepsFloorsIff(
      r: Row, worker: WorkerId, at: Time, error: string, retryable: bool, base: nat, cap: nat)
    requires RowOk(r) && Owns(r.job, worker, at) && ShouldRetry(retryable, r.job.attemptCount, r.job.work.maxAttempts)
    ensures KeepsFloors(FailRow(r, worker, at, error, retryable, base, cap).history, r.job.work.maxAttempts,
                        r.job.createdAt, |r.history|)
            <==> Respected(r.history, at + RetryDelay(r.job.attemptCount, base, cap))
  {
    LastKeepsFloors(r.history, Failed(worker, at, retryable, base, cap), r.job.work.maxAttempts, r.job.createdAt);
  }

  /** And on a recovery. */
  lemma RecoveryKeepsFloorsIff(r: Row, at: Time)
    requires RowOk(r) && Stale(r.job, at) && ShouldRetry(true, r.job.attemptCount, r.job.work.maxAttempts)
    ensures KeepsFloors(RecoverRow(r, at).history, r.job.work.maxAttempts, r.job.createdAt, |r.history|)
            <==> Respected(r.history, at)
  {
    LastKeepsFloors(r.history, Last(RecoverRow(r, at).history), r.job.work.maxAttempts, r.job.createdAt);
  }

  lemma LastKeepsFloors(h: seq<Event>, e: Event, max: nat, created: Time)
    requires LetsRetry(e) && !Final(h + [e], max)
    ensures KeepsFloors(h + [e], max, created, |h|) <==> Respected(h, ReadyAt(h + [e], created))
  {
    hide Floor, Final, ReadyAt;
    var h1 := h + [e];
    assert h1[..|h| + 1] == h1 && h1[..|h|] == h;
    forall i | 0 <= i < |h| && LetsRetry(h[i])
      ensures h1[i] == h[i] && Floor(h1, i) == Floor(h, i)
    {
      FloorOfPrefix(h1, |h|, i);
    }
  }

  /** Reports stamped no earlier than the claims they report on keep the floors. */
  lemma FollowingReportsKeepFloors(h: seq<Event>, max: nat, created: Time, k: nat)
    requires Legal(h, max, created) && ReportsFollowClaims(h) && k < |h|
    ensures KeepsFloors(h, max, created, k)
  {
    if LetsRetry(h[k]) {
      var p := h[..k + 1];
      LegalPrefix(h, max, created, k + 1);
      FollowPrefix(h, k + 1);
      assert Last(p) == h[k];
      forall i | 0 <= i < k && LetsRetry(h[i])
        ensures Floor(h, i) <= ReadyAt(p, created)
      {
        OutcomeNeedsClaim(h, max, created, i, k);
        var c :| i < c < k && h[c].Claimed?;
        assert p[i] == h[i] && p[c] == h[c];
        hide Legal, Floor, ReadyAt, ClaimTime, ReportsFollowClaims;
        LatestClaimWaits(p, max, created, i, c);
        OutcomesFollowClaims(p, max, created);
        FloorOfPrefix(h, k + 1, i);
      }
    }
  }

  /** So with such clocks every later claim respects the wait. */
  lemma LaterClaimsWait(h: seq<Event>, max: nat, created: Time, i: nat, k: nat)
    requires Legal(h, max, created) && ReportsFollowClaims(h)
    requires i < k < |h| && (h[i].Failed? || h[i].Recovered?) && h[k].Claimed?
    ensures Floor(h, i) <= h[k].at
  {
    hide Legal, ReportsFollowClaims, KeepsFloors, EveryClaimWaits, Floor;
    forall x | 0 <= x < |h|
      ensures KeepsFloors(h, max, created, x)
    {
      FollowingReportsKeepFloors(h, max, created, x);
    }
    ClaimsWaitIffFloorsKept(h, max, created);
    ClaimsOfLogWait(h, max, created, i, k);
  }
}
