/**
Recovery under interference.  Any number of recovery loops, claims and reports run at once, transactions of others may
be open at any time, and a recovery may raise before or after its commit.
*/
module Recovery {
  import opened Options
  import opened Sums
  import opened Jobs
  import opened JobHistory
  import opened Selection
  import opened JobStore
  import opened JobRuns

  function StaleIds(s: Store, at: Time): set<JobId> {
    set id | id in s.rows && Stale(s.rows[id].job, at)
  }

  function Selected(s: Store, limit: nat, at: Time): seq<JobId> {
    Take(RecoverKeys(s, at), limit)
  }

  function IdSet(ids: seq<JobId>): set<JobId> {
    set id | id in ids
  }

  lemma {:induction false} DistinctCount(ids: seq<JobId>)
    requires forall i, k :: 0 <= i < k < |ids| ==> ids[i] != ids[k]
    ensures |IdSet(ids)| == |ids|
  {
    if ids != [] {
      var n := |ids| - 1;
      DistinctCount(ids[..n]);
      assert IdSet(ids) == IdSet(ids[..n]) + {ids[n]};
      assert ids[n] !in IdSet(ids[..n]);
    }
  }

  // ---------------------------------------------------------------- what a recovery selects

  lemma SelectedAreStale(s: Store, limit: nat, at: Time)
    ensures var ids := Selected(s, limit, at);
            && |IdSet(ids)| == |ids| <= limit
            && IdSet(ids) <= StaleIds(s, at) - Locked(s)
            && forall i, k :: 0 <= i < k < |ids| ==> ids[i] != ids[k]
  {
    var keys := RecoverKeys(s, at);
    TakeIsSelection(keys, limit);
    SelectionDistinct(keys, limit, Take(keys, limit));
    DistinctCount(Take(keys, limit));
  }

  /** The selection starts with what has been stale longest: before anything newer it takes all that nobody has locked. */
  lemma OldestFirst(s: Store, limit: nat, at: Time, since: Time)
    requires since <= at
    ensures var ids := IdSet(Selected(s, limit, at));
            StaleIds(s, since) <= ids + Locked(s) || (ids <= StaleIds(s, since) && |ids| == limit)
  {
    var keys := RecoverKeys(s, at);
    var ids := Take(keys, limit);
    TakeIsSelection(keys, limit);
    SelectionDistinct(keys, limit, ids);
    DistinctCount(ids);
    MembersOf(ids);
    hide Take, IdSet, StaleIds, RecoverKeys, Before, Locked;
    if left :| left in StaleIds(s, since) && left !in IdSet(ids) && left !in Locked(s) {
      StaleLater(s, at, since, left);
      if |ids| == |keys| {
        LeftBehind(keys, ids, left);
      }
      forall id | id in IdSet(ids)
        ensures id in StaleIds(s, since)
      {
        var i :| 0 <= i < |ids| && ids[i] == id;
        assert Before(keys[ids[i]], keys[left]);
        EarlierIsStaler(s, at, since, id, left);
      }
    }
  }

  /** A job stale at some time and locked by nobody is a candidate of every later recovery. */
  lemma StaleLater(s: Store, at: Time, since: Time, id: JobId)
    requires since <= at && id in StaleIds(s, since) && id !in Locked(s)
    ensures id in RecoverKeys(s, at)
  {
  }

  lemma EarlierIsStaler(s: Store, at: Time, since: Time, id: JobId, left: JobId)
    requires var keys := RecoverKeys(s, at); id in keys && left in keys && Before(keys[id], keys[left])
    requires left in StaleIds(s, since)
    ensures id in StaleIds(s, since)
  {
  }

  lemma MembersOf(ids: seq<JobId>)
    ensures forall id :: id in IdSet(ids) <==> id in ids
  {
  }

  lemma LeftBehind(keys: map<JobId, SortKey>, ids: seq<JobId>, left: JobId)
    requires forall id :: id in ids ==> id in keys
    requires |IdSet(ids)| == |ids| && left in keys && left !in ids
    ensures |ids| < |keys|
  {
    SubsetSize(IdSet(ids) + {left}, keys.Keys);
  }

  lemma {:induction false} SubsetSize<T>(a: set<T>, b: set<T>)
    requires a <= b
    ensures |a| <= |b|
  {
    if a != {} {
      var x :| x in a;
      SubsetSize(a - {x}, b - {x});
    }
  }

  /** A stale job that somebody has locked is being recovered: only a recovery locks a running row. */
  lemma LockedStaleIsBeingRecovered(s: Store, id: JobId, at: Time)
    requires StoreOk(s) && id in StaleIds(s, at) && id in Locked(s)
    ensures exists t :: t in s.open && s.open[t].RecoverTxn? && id in s.open[t].ids
  {
    var t :| t in s.open && id in s.open[t].ids;
    assert TxnOk(s, s.open[t]) && JobStore.Selected(s.open[t], s.rows[id].job);
  }

  // ---------------------------------------------------------------- nothing becomes stale in the past

  /** Every lease the step grants ends after `since`. */
  predicate GrantsAfter(s: Store, op: Op, since: Time) {
    match op
    case Renew(_, _, _, lease) => since < lease
    case Commit(txn) => txn in s.open && s.open[txn].ClaimTxn? ==> since < s.open[txn].lease
    case _ => true
  }

  predicate AlwaysGrantsAfter(s: Store, ops: seq<Op>, since: Time)
    decreases |ops|
  {
    ops == [] || (GrantsAfter(s, ops[0], since) && AlwaysGrantsAfter(Apply(s, ops[0]), ops[1..], since))
  }

  lemma {:induction false} GrantsConcat(s: Store, ops: seq<Op>, more: seq<Op>, since: Time)
    ensures AlwaysGrantsAfter(s, ops + more, since)
            <==> AlwaysGrantsAfter(s, ops, since) && AlwaysGrantsAfter(Run(s, ops), more, since)
    decreases |ops|
  {
    if ops == [] {
      assert ops + more == more;
    } else {
      GrantsConcat(Apply(s, ops[0]), ops[1..], more, since);
      assert (ops + more)[1..] == ops[1..] + more;
    }
  }

  lemma NoNewStale(s: Store, op: Op, since: Time)
    requires StoreOk(s) && GrantsAfter(s, op, since)
    ensures StaleIds(Apply(s, op), since) <= StaleIds(s, since)
  {
    hide StoreOk, Take, ClaimKeys, RecoverKeys, Locked, FailJob, RecoverJob;
    var s1 := Apply(s, op);
    forall id | id in StaleIds(s1, since)
      ensures id in StaleIds(s, since)
    {
      if id in s.rows {
        StaleStays(s, op, since, id);
      }
    }
  }

  lemma StaleStays(s: Store, op: Op, since: Time, id: JobId)
    requires GrantsAfter(s, op, since) && id in s.rows && id in StaleIds(Apply(s, op), since)
    ensures id in StaleIds(s, since)
  {
    hide Take, ClaimKeys, RecoverKeys, Locked;
    if op.Submit? {
      assert Apply(s, op).rows[id] == s.rows[id];
    }
  }

  lemma {:induction false} RunAddsNoStale(s: Store, ops: seq<Op>, since: Time)
    requires StoreOk(s) && AlwaysGrantsAfter(s, ops, since)
    ensures StaleIds(Run(s, ops), since) <= StaleIds(s, since)
    decreases |ops|
  {
    hide StoreOk, Apply, StaleIds, GrantsAfter;
    if ops != [] {
      NoNewStale(s, ops[0], since);
      ApplyOk(s, ops[0]);
      RunAddsNoStale(Apply(s, ops[0]), ops[1..], since);
    }
  }

  // ---------------------------------------------------------------- one wake-up of a recovery loop

  /** How `recover_stale_jobs` ends: normally, raised after its commit, rolled back, or raised before it began. */
  datatype Ending = Commits | CommitsThenRaises | RollsBack | NeverStarts

  /** A wake-up: what others do before it, when it fires, and what others do between its locking SELECT and its end. */
  datatype Wake = Wake(txn: TxnId, at: Time, before: seq<Op>, others: seq<Op>, ending: Ending)

  predicate Recovers(w: Wake) {
    w.ending.Commits? || w.ending.CommitsThenRaises?
  }

  function RoundSteps(w: Wake, limit: nat): seq<Op> {
    match w.ending
    case NeverStarts => []
    case RollsBack => [LockForRecovery(w.txn, limit, w.at)] + w.others + [Rollback(w.txn)]
    case _ => [LockForRecovery(w.txn, limit, w.at)] + w.others + [Commit(w.txn)]
  }

  function WakeSteps(w: Wake, limit: nat): seq<Op> {
    w.before + RoundSteps(w, limit)
  }

  /** The transaction is a new one, and its own. */
  ghost predicate OwnTxn(s: Store, w: Wake) {
    w.txn !in s.open && forall i :: 0 <= i < |w.others| ==> !Ends(w.others[i], w.txn)
  }

  ghost predicate WakeOk(s: Store, w: Wake) {
    OwnTxn(Run(s, w.before), w)
  }

  /** The store when the commit of a round comes. */
  function AtCommit(s: Store, w: Wake, limit: nat): Store {
    Run(Apply(s, LockForRecovery(w.txn, limit, w.at)), w.others)
  }

  lemma RoundRun(s: Store, w: Wake, limit: nat)
    requires Recovers(w)
    ensures Run(s, RoundSteps(w, limit)) == Apply(AtCommit(s, w, limit), Commit(w.txn))
  {
    var lock := LockForRecovery(w.txn, limit, w.at);
    RunConcat(s, [lock] + w.others, [Commit(w.txn)]);
    RunConcat(s, [lock], w.others);
    RunOne(s, lock);
    RunOne(AtCommit(s, w, limit), Commit(w.txn));
  }

  lemma RunOne(s: Store, op: Op)
    ensures Run(s, [op]) == Apply(s, op)
  {
    assert [op][1..] == [];
  }

  /**
  A recovery takes only jobs stale at its time that nobody had locked, and recovers exactly those, as they were when
  it locked them, whatever anybody does until its commit; the commit touches no other row.
  */
  lemma RecoveryTakesOnlyStale(s: Store, w: Wake, limit: nat)
    requires StoreOk(s) && limit >= 1 && OwnTxn(s, w) && Recovers(w)
    ensures var ids := Selected(s, limit, w.at);
            var before, after := AtCommit(s, w, limit), Run(s, RoundSteps(w, limit));
            && IdSet(ids) <= StaleIds(s, w.at) - Locked(s)
            && w.txn in before.open && before.open[w.txn] == RecoverTxn(ids, w.at)
            && after.rows.Keys == before.rows.Keys
            && (forall id :: id in ids ==> id in s.rows && id in after.rows && after.rows[id] == RecoverRow(s.rows[id], w.at))
            && (forall id :: id in before.rows && id !in ids ==> after.rows[id] == before.rows[id])
  {
    var lock := LockForRecovery(w.txn, limit, w.at);
    SelectedAreStale(s, limit, w.at);
    RoundRun(s, w, limit);
    ApplyOk(s, lock);
    LockedRowsWait(Apply(s, lock), w.others, w.txn);
    CommitTouchesItsRows(AtCommit(s, w, limit), w.txn);
    hide StoreOk, Take, RecoverKeys, Locked, RecoverRow, Run;
  }

  lemma RecoveredIsNotStale(r: Row, at: Time, since: Time)
    ensures !Stale(RecoverRow(r, at).job, since)
  {
  }

  /** A committed recovery leaves nothing of what it took, and nobody adds to what was stale at `since`. */
  lemma RoundClears(s: Store, w: Wake, limit: nat, since: Time)
    requires StoreOk(s) && limit >= 1 && OwnTxn(s, w) && Recovers(w) && AlwaysGrantsAfter(s, RoundSteps(w, limit), since)
    ensures StaleIds(Run(s, RoundSteps(w, limit)), since) <= StaleIds(s, since) - IdSet(Selected(s, limit, w.at))
  {
    var s1 := Run(s, RoundSteps(w, limit));
    RunAddsNoStale(s, RoundSteps(w, limit), since);
    RecoveryTakesOnlyStale(s, w, limit);
    hide StoreOk, Run, Selected, RecoverRow, AlwaysGrantsAfter, RoundSteps;
    forall id | id in Selected(s, limit, w.at)
      ensures id !in StaleIds(s1, since)
    {
      RecoveredIsNotStale(s.rows[id], w.at, since);
    }
  }

  lemma BatchSize(backlog: set<JobId>, locked: set<JobId>, batch: set<JobId>, left: set<JobId>, n: nat)
    requires backlog <= batch + locked || (batch <= backlog && |batch| == n)
    requires left <= backlog - batch
    ensures left <= locked || |left| + n <= |backlog|
  {
    if !(backlog <= batch + locked) {
      assert backlog == (backlog - batch) + batch;
      SubsetSize(left, backlog - batch);
    }
  }

  ghost function AfterWake(s: Store, w: Wake, limit: nat): Store {
    Run(s, WakeSteps(w, limit))
  }

  lemma WakeRun(s: Store, w: Wake, limit: nat)
    ensures AfterWake(s, w, limit) == Run(Run(s, w.before), RoundSteps(w, limit))
  {
    RunConcat(s, w.before, RoundSteps(w, limit));
  }

  /**
  A wake-up never adds to what was stale at `since`.  One that commits leaves of it only what others had locked, or
  takes a full batch of it.
  */
  lemma RoundShrinksBacklog(s: Store, w: Wake, limit: nat, since: Time)
    requires StoreOk(s) && limit >= 1 && WakeOk(s, w) && AlwaysGrantsAfter(s, WakeSteps(w, limit), since)
    ensures var left := StaleIds(AfterWake(s, w, limit), since);
            && left <= StaleIds(s, since)
            && (Recovers(w) && since <= w.at ==>
                  left <= Locked(Run(s, w.before)) || |left| + limit <= |StaleIds(s, since)|)
  {
    var s1 := Run(s, w.before);
    GrantsConcat(s, w.before, RoundSteps(w, limit), since);
    RunAddsNoStale(s, WakeSteps(w, limit), since);
    RunAddsNoStale(s, w.before, since);
    RunOk(s, w.before);
    WakeRun(s, w, limit);
    hide StoreOk, Run, StaleIds, Locked, Selected, IdSet, AlwaysGrantsAfter;
    if Recovers(w) && since <= w.at {
      RoundClears(s1, w, limit, since);
      OldestFirst(s1, limit, w.at, since);
      var left := StaleIds(AfterWake(s, w, limit), since);
      BatchSize(StaleIds(s1, since), Locked(s1), IdSet(Selected(s1, limit, w.at)), left, limit);
      SubsetSize(StaleIds(s1, since), StaleIds(s, since));
    }
  }

  // ---------------------------------------------------------------- a whole loop

  ghost function AfterWakes(s: Store, wakes: seq<Wake>, limit: nat): Store
    decreases |wakes|
  {
    if wakes == [] then s else AfterWakes(AfterWake(s, wakes[0], limit), wakes[1..], limit)
  }

  ghost predicate WakesOk(s: Store, wakes: seq<Wake>, limit: nat)
    decreases |wakes|
  {
    wakes == [] || (WakeOk(s, wakes[0]) && WakesOk(AfterWake(s, wakes[0], limit), wakes[1..], limit))
  }

  ghost predicate WakesGrantAfter(s: Store, wakes: seq<Wake>, limit: nat, since: Time)
    decreases |wakes|
  {
    wakes == [] ||
    (&& AlwaysGrantsAfter(s, WakeSteps(wakes[0], limit), since)
     && WakesGrantAfter(AfterWake(s, wakes[0], limit), wakes[1..], limit, since))
  }

  /** The wake-ups that commit. */
  function Committed(wakes: seq<Wake>): nat {
    if wakes == [] then 0 else (if Recovers(wakes[0]) then 1 else 0) + Committed(wakes[1..])
  }

  /** At some committing wake-up all of `left` was locked by others. */
  ghost predicate LockedOut(s: Store, wakes: seq<Wake>, limit: nat, left: set<JobId>)
    decreases |wakes|
  {
    wakes != [] &&
    ((Recovers(wakes[0]) && left <= Locked(Run(s, wakes[0].before)))
     || LockedOut(AfterWake(s, wakes[0], limit), wakes[1..], limit, left))
  }

  /**
  Whatever slots and other loops do meanwhile, a loop drains what was stale at `since`: each committing wake-up took a
  full batch of it, or at one of them all that is left was locked by others, hence nothing if nothing was locked.
  */
  lemma {:induction false} RecoveryDrains(s: Store, wakes: seq<Wake>, limit: nat, since: Time)
    requires StoreOk(s) && limit >= 1 && WakesOk(s, wakes, limit) && WakesGrantAfter(s, wakes, limit, since)
    requires forall i :: 0 <= i < |wakes| && Recovers(wakes[i]) ==> since <= wakes[i].at
    ensures var left := StaleIds(AfterWakes(s, wakes, limit), since);
            && left <= StaleIds(s, since)
            && (LockedOut(s, wakes, limit, left) || |left| + Committed(wakes) * limit <= |StaleIds(s, since)|)
    decreases |wakes|
  {
    hide StoreOk, StaleIds, Locked, WakeOk, AlwaysGrantsAfter, AfterWake;
    if wakes != [] {
      var w, rest := wakes[0], wakes[1..];
      var s1 := AfterWake(s, w, limit);
      RoundShrinksBacklog(s, w, limit, since);
      WakeKeepsStore(s, w, limit);
      RecoveryDrains(s1, rest, limit, since);
      var left := StaleIds(AfterWakes(s, wakes, limit), since);
      SubsetSize(StaleIds(s1, since), StaleIds(s, since));
      OneMoreBatch(Committed(rest), limit, |left|, |StaleIds(s1, since)|, |StaleIds(s, since)|);
    }
  }

  /** No committing wake-up finds a row locked by others. */
  ghost predicate NeverLocked(s: Store, wakes: seq<Wake>, limit: nat)
    decreases |wakes|
  {
    wakes == [] ||
    (&& (Recovers(wakes[0]) ==> Locked(Run(s, wakes[0].before)) == {})
     && NeverLocked(AfterWake(s, wakes[0], limit), wakes[1..], limit))
  }

  lemma {:induction false} LockedOutOfNothing(s: Store, wakes: seq<Wake>, limit: nat, left: set<JobId>)
    requires NeverLocked(s, wakes, limit) && LockedOut(s, wakes, limit, left)
    ensures left == {}
    decreases |wakes|
  {
    if !(Recovers(wakes[0]) && left <= Locked(Run(s, wakes[0].before))) {
      LockedOutOfNothing(AfterWake(s, wakes[0], limit), wakes[1..], limit, left);
    }
  }

  /** A lone loop with enough committing wake-ups leaves nothing that was stale at `since`. */
  lemma LoneRecoveryDrainsAll(s: Store, wakes: seq<Wake>, limit: nat, since: Time)
    requires StoreOk(s) && limit >= 1 && WakesOk(s, wakes, limit) && WakesGrantAfter(s, wakes, limit, since)
    requires forall i :: 0 <= i < |wakes| && Recovers(wakes[i]) ==> since <= wakes[i].at
    requires NeverLocked(s, wakes, limit) && Committed(wakes) * limit >= |StaleIds(s, since)|
    ensures StaleIds(AfterWakes(s, wakes, limit), since) == {}
  {
    RecoveryDrains(s, wakes, limit, since);
    hide StoreOk, StaleIds, WakesOk, WakesGrantAfter, NeverLocked, LockedOut, AfterWakes;
    if LockedOut(s, wakes, limit, StaleIds(AfterWakes(s, wakes, limit), since)) {
      LockedOutOfNothing(s, wakes, limit, StaleIds(AfterWakes(s, wakes, limit), since));
    }
  }

  lemma OneMoreBatch(n: nat, limit: nat, left: nat, mid: nat, all: nat)
    ensures left + n * limit <= mid && mid + limit <= all ==> left + (1 + n) * limit <= all
    ensures (0 + n) * limit == n * limit
  {
  }

  lemma WakeKeepsStore(s: Store, w: Wake, limit: nat)
    requires StoreOk(s)
    ensures StoreOk(AfterWake(s, w, limit))
  {
    RunOk(s, WakeSteps(w, limit));
  }

  // ---------------------------------------------------------------- what the counts add up to

  function Recoveries(h: seq<Event>): nat {
    if h == [] then 0 else Recoveries(Front(h)) + if Last(h).Recovered? then 1 else 0
  }

  function RecoveriesOf(s: Store): JobId -> int {
    (id: JobId) => if id in s.rows then Recoveries(s.rows[id].history) else 0
  }

  /** All recoveries in the logs of all jobs. */
  ghost function TotalRecoveries(s: Store): int {
    SumSet(s.rows.Keys, RecoveriesOf(s))
  }

  /** The jobs a step recovers. */
  function Taken(s: Store, op: Op): nat {
    if op.Commit? && op.txn in s.open && s.open[op.txn].RecoverTxn? then |s.open[op.txn].ids| else 0
  }

  function TakenBy(s: Store, ops: seq<Op>): nat
    decreases |ops|
  {
    if ops == [] then 0 else Taken(s, ops[0]) + TakenBy(Apply(s, ops[0]), ops[1..])
  }

  lemma RowRecoveries(s: Store, op: Op, id: JobId)
    requires id in Apply(s, op).rows
    ensures RecoveriesOf(Apply(s, op))(id)
            == RecoveriesOf(s)(id)
               + if id in s.rows && op.Commit? && op.txn in s.open && s.open[op.txn].RecoverTxn? && id in s.open[op.txn].ids
                 then 1 else 0
  {
    hide Take, ClaimKeys, RecoverKeys, Locked, ClaimJob, RenewJob, SucceedJob, FailJob, RecoverJob, Recoveries;
    assert Recoveries([]) == 0 by { NoRecoveries(); }
    if id in s.rows {
      var h1 := Apply(s, op).rows[id].history;
      if op.Commit? && op.txn in s.open && id in s.open[op.txn].ids {
        OneMoreRecovery(s.rows[id].history, Last(h1));
      } else if h1 != s.rows[id].history {
        OneMoreRecovery(s.rows[id].history, Last(h1));
      }
    }
  }

  lemma NoRecoveries()
    ensures Recoveries([]) == 0
  {
  }

  lemma OneMoreRecovery(h: seq<Event>, e: Event)
    ensures Recoveries(h + [e]) == Recoveries(h) + if e.Recovered? then 1 else 0
  {
    Snoc(h, e);
  }

  lemma StepCountsRecoveries(s: Store, op: Op)
    requires StoreOk(s)
    ensures TotalRecoveries(Apply(s, op)) == TotalRecoveries(s) + Taken(s, op)
  {
    var s1 := Apply(s, op);
    var keys := s1.rows.Keys;
    assert s.rows.Keys <= keys by {
      forall id | id in s.rows ensures id in s1.rows { ApplyRow(s, op, id); }
    }
    forall id | id in keys
      ensures RecoveriesOf(s1)(id) == RecoveriesOf(s)(id)
              + if id in s.rows && op.Commit? && op.txn in s.open && s.open[op.txn].RecoverTxn? && id in s.open[op.txn].ids
                then 1 else 0
    {
      RowRecoveries(s, op, id);
    }
    DropZeros(keys, s.rows.Keys, RecoveriesOf(s));
    if op.Commit? && op.txn in s.open && s.open[op.txn].RecoverTxn? {
      var ids := s.open[op.txn].ids;
      assert TxnOk(s, s.open[op.txn]);
      DistinctCount(ids);
      hide Apply, StoreOk, TxnOk, RecoveriesOf;
      AddOnes(keys, IdSet(ids), RecoveriesOf(s), RecoveriesOf(s1));
    } else {
      SameOn(keys, RecoveriesOf(s), RecoveriesOf(s1));
    }
  }

  /** Over every run, every recovery in a log was counted by exactly one commit of a recovery. */
  lemma {:induction false} RecoveriesAreCounted(s: Store, ops: seq<Op>)
    requires StoreOk(s)
    ensures TotalRecoveries(Run(s, ops)) == TotalRecoveries(s) + TakenBy(s, ops)
    decreases |ops|
  {
    hide StoreOk, Apply, TotalRecoveries, Taken;
    if ops != [] {
      StepCountsRecoveries(s, ops[0]);
      ApplyOk(s, ops[0]);
      RecoveriesAreCounted(Apply(s, ops[0]), ops[1..]);
    }
  }

  /** How many of the jobs have an attempt left, or have none. */
  function CountLeft(s: Store, ids: seq<JobId>, again: bool): nat {
    if ids == [] then 0
    else
      var id := ids[|ids| - 1];
      CountLeft(s, ids[..|ids| - 1], again)
      + if id in s.rows && (s.rows[id].job.attemptCount < s.rows[id].job.work.maxAttempts) == again then 1 else 0
  }

  lemma {:induction false} AgainOrNot(s: Store, ids: seq<JobId>)
    requires forall id :: id in ids ==> id in s.rows
    ensures CountLeft(s, ids, true) + CountLeft(s, ids, false) == |ids|
  {
    if ids != [] {
      assert ids[|ids| - 1] in ids;
      AgainOrNot(s, ids[..|ids| - 1]);
    }
  }

  /** What a loop adds up over the rounds that returned: the jobs it put back, or those it gave up. */
  ghost function Counted(s: Store, wakes: seq<Wake>, limit: nat, again: bool): nat
    decreases |wakes|
  {
    if wakes == [] then 0
    else
      var w := wakes[0];
      var s1 := Run(s, w.before);
      (if w.ending.Commits? then CountLeft(s1, Selected(s1, limit, w.at), again) else 0)
      + Counted(AfterWake(s, w, limit), wakes[1..], limit, again)
  }

  /** What is recovered meanwhile without reaching the loop's totals: by others, and by rounds that raised after committing. */
  ghost function Uncounted(s: Store, wakes: seq<Wake>, limit: nat): nat
    decreases |wakes|
  {
    if wakes == [] then 0
    else
      var w := wakes[0];
      var s1 := Run(s, w.before);
      TakenBy(s, w.before)
      + (if w.ending.NeverStarts? then 0 else TakenBy(Apply(s1, LockForRecovery(w.txn, limit, w.at)), w.others))
      + (if w.ending.CommitsThenRaises? then |Selected(s1, limit, w.at)| else 0)
      + Uncounted(AfterWake(s, w, limit), wakes[1..], limit)
  }

  lemma {:induction false} TakenConcat(s: Store, ops: seq<Op>, more: seq<Op>)
    ensures TakenBy(s, ops + more) == TakenBy(s, ops) + TakenBy(Run(s, ops), more)
    decreases |ops|
  {
    if ops == [] {
      assert ops + more == more;
    } else {
      TakenConcat(Apply(s, ops[0]), ops[1..], more);
      assert (ops + more)[1..] == ops[1..] + more;
    }
  }

  lemma TakenOne(s: Store, op: Op)
    ensures TakenBy(s, [op]) == Taken(s, op)
  {
    assert [op][1..] == [];
  }

  lemma RoundTaken(s: Store, w: Wake, limit: nat)
    requires StoreOk(s) && limit >= 1 && OwnTxn(s, w)
    ensures TakenBy(s, RoundSteps(w, limit)) ==
            (if w.ending.NeverStarts? then 0 else TakenBy(Apply(s, LockForRecovery(w.txn, limit, w.at)), w.others))
            + (if Recovers(w) then |Selected(s, limit, w.at)| else 0)
  {
    if !w.ending.NeverStarts? {
      var lock, end := LockForRecovery(w.txn, limit, w.at), if Recovers(w) then Commit(w.txn) else Rollback(w.txn);
      if Recovers(w) {
        RecoveryTakesOnlyStale(s, w, limit);
      }
      hide StoreOk, Apply, Selected, Locked, StaleIds, RecoverRow;
      assert RoundSteps(w, limit) == [lock] + w.others + [end];
      RunConcat(s, [lock], w.others);
      RunOne(s, lock);
      TakenConcat(s, [lock] + w.others, [end]);
      TakenConcat(s, [lock], w.others);
      TakenOne(s, lock);
      TakenOne(AtCommit(s, w, limit), end);
    }
  }

  lemma SelectedCount(s: Store, limit: nat, at: Time)
    ensures var ids := Selected(s, limit, at); CountLeft(s, ids, true) + CountLeft(s, ids, false) == |ids|
  {
    var ids := Selected(s, limit, at);
    SelectedAreStale(s, limit, at);
    forall id | id in ids
      ensures id in s.rows
    {
      assert id in IdSet(ids);
    }
    AgainOrNot(s, ids);
  }

  /** The loop's totals and what escaped them are together exactly the recoveries that happened. */
  lemma {:induction false} CountsAddUp(s: Store, wakes: seq<Wake>, limit: nat)
    requires StoreOk(s) && limit >= 1 && WakesOk(s, wakes, limit)
    ensures TotalRecoveries(AfterWakes(s, wakes, limit))
            == TotalRecoveries(s) + Counted(s, wakes, limit, true) + Counted(s, wakes, limit, false)
               + Uncounted(s, wakes, limit)
    decreases |wakes|
  {
    hide StoreOk, TotalRecoveries, Selected, RoundSteps, Apply, OwnTxn, CountLeft;
    if wakes != [] {
      var w := wakes[0];
      RunOk(s, w.before);
      SelectedCount(Run(s, w.before), limit, w.at);
      RecoveriesAreCounted(s, WakeSteps(w, limit));
      TakenConcat(s, w.before, RoundSteps(w, limit));
      RoundTaken(Run(s, w.before), w, limit);
      WakeKeepsStore(s, w, limit);
      CountsAddUp(AfterWake(s, w, limit), wakes[1..], limit);
    }
  }
}
