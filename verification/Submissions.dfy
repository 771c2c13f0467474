/**
Idempotent submission: what `create_job` answers, decided from the table, and the rule it comes to, decided from the
run alone: the first submission with a key wins.
*/
module Submissions {
  import opened Options
  import opened Jobs
  import opened JobStore
  import Selection
  import opened JobRuns

  datatype Outcome =
    | Created(id: JobId)
    | Replayed(id: JobId)
    | Conflict
    | Refused

  /** The repeated submission asks for the same work. */
  predicate Matches(stored: Submission, work: Submission) {
    && stored.queue == work.queue
    && stored.taskName == work.taskName
    && stored.payload == work.payload
    && stored.priority == work.priority
    && stored.maxAttempts == work.maxAttempts
  }

  /** The row that owns the key. */
  function KeyOwner(s: Store, work: Submission): JobId
    requires UniqueKeys(s) && KeyTaken(s, work)
  {
    var id :| id in s.rows && s.rows[id].job.work.idempotencyKey == work.idempotencyKey;
    id
  }

  /** What the service answers, from the table as it is. */
  function Answer(s: Store, newId: JobId, work: Submission): Outcome
    requires UniqueKeys(s)
  {
    if !ValidSubmission(work) then Refused
    else if KeyTaken(s, work) then
      var owner := KeyOwner(s, work);
      if Matches(s.rows[owner].job.work, work) then Replayed(owner) else Conflict
    else if newId in s.rows then Refused
    else Created(newId)
  }

  // ---------------------------------------------------------------- the rule, from the run alone

  predicate Submits(op: Op) {
    op.Submit? && ValidSubmission(op.work)
  }

  predicate SubmitsKey(op: Op, key: string) {
    Submits(op) && op.work.idempotencyKey == Some(key)
  }

  /** The first submission with the key in the run: the id it drew and the work it asked for. */
  function FirstWithKey(ops: seq<Op>, key: string): Option<(JobId, Submission)> {
    if ops == [] then None
    else
      var last := ops[|ops| - 1];
      var earlier := FirstWithKey(ops[..|ops| - 1], key);
      if earlier.Some? then earlier
      else if SubmitsKey(last, key) then Some((last.newId, last.work)) else None
  }

  lemma {:induction false} FirstWithKeyIsFirst(ops: seq<Op>, key: string)
    ensures FirstWithKey(ops, key).Some? ==>
              exists i :: 0 <= i < |ops| && SubmitsKey(ops[i], key)
                          && FirstWithKey(ops, key).value == (ops[i].newId, ops[i].work)
                          && forall k :: 0 <= k < i ==> !SubmitsKey(ops[k], key)
    ensures FirstWithKey(ops, key).None? ==> forall k :: 0 <= k < |ops| ==> !SubmitsKey(ops[k], key)
  {
    if ops != [] {
      var n := |ops| - 1;
      FirstWithKeyIsFirst(ops[..n], key);
      assert forall k :: 0 <= k < n ==> ops[..n][k] == ops[k];
      if FirstWithKey(ops, key).Some? && FirstWithKey(ops[..n], key).None? {
        assert SubmitsKey(ops[n], key);
      }
    }
  }

  /** The answer by the rule "first submission with the key wins". */
  function FirstWins(ops: seq<Op>, newId: JobId, work: Submission): Outcome {
    if !ValidSubmission(work) then Refused
    else if work.idempotencyKey.None? then Created(newId)
    else
      match FirstWithKey(ops, work.idempotencyKey.value)
      case None => Created(newId)
      case Some((id, first)) => if Matches(first, work) then Replayed(id) else Conflict
  }

  /** Every submission draws its own new id. */
  ghost predicate FreshIds(ops: seq<Op>) {
    forall i, k :: 0 <= i < k < |ops| && ops[i].Submit? && ops[k].Submit? ==> ops[i].newId != ops[k].newId
  }

  ghost predicate Drawn(ops: seq<Op>, id: JobId) {
    exists i :: 0 <= i < |ops| && ops[i].Submit? && ops[i].newId == id
  }

  /** The distinct keys submitted, and how many submissions came without one. */
  function Keys(ops: seq<Op>): set<string> {
    if ops == [] then {}
    else
      var op := ops[|ops| - 1];
      Keys(ops[..|ops| - 1])
      + if Submits(op) && op.work.idempotencyKey.Some? then {op.work.idempotencyKey.value} else {}
  }

  function Keyless(ops: seq<Op>): nat {
    if ops == [] then 0
    else
      var op := ops[|ops| - 1];
      Keyless(ops[..|ops| - 1]) + if Submits(op) && op.work.idempotencyKey.None? then 1 else 0
  }

  lemma {:induction false} KeysAreFirsts(ops: seq<Op>, key: string)
    ensures key in Keys(ops) <==> FirstWithKey(ops, key).Some?
  {
    if ops != [] {
      KeysAreFirsts(ops[..|ops| - 1], key);
    }
  }

  /** What the table knows about the submissions so far. */
  ghost predicate Recorded(ops: seq<Op>, s: Store) {
    && (forall id :: id in s.rows ==> Drawn(ops, id))
    && (forall key :: OwnerRecorded(FirstWithKey(ops, key), key, s))
    && |s.rows| == |Keys(ops)| + Keyless(ops)
  }

  ghost predicate OwnerRecorded(first: Option<(JobId, Submission)>, key: string, s: Store) {
    match first
    case None => forall id :: id in s.rows ==> s.rows[id].job.work.idempotencyKey != Some(key)
    case Some((id, work)) => id in s.rows && s.rows[id].job.work == work && work.idempotencyKey == Some(key)
  }

  /** A step that inserts nothing keeps every row's submitted fields. */
  lemma OtherStepsKeepWork(s: Store, op: Op)
    requires StoreOk(s) && !(op.Submit? && Inserts(s, op.newId, op.work))
    ensures Apply(s, op).rows.Keys == s.rows.Keys
    ensures forall id :: id in s.rows ==> Apply(s, op).rows[id].job.work == s.rows[id].job.work
  {
    forall id | id in s.rows
      ensures id in Apply(s, op).rows && Apply(s, op).rows[id].job.work == s.rows[id].job.work
    {
      ApplyRow(s, op, id);
      RowStepOk(s.rows[id], Apply(s, op).rows[id]);
    }
    assert Apply(s, op).rows.Keys == s.rows.Keys;
  }

  lemma TakenIffSubmitted(ops: seq<Op>, s: Store, work: Submission)
    requires Recorded(ops, s) && work.idempotencyKey.Some?
    ensures KeyTaken(s, work) <==> FirstWithKey(ops, work.idempotencyKey.value).Some?
    ensures KeyTaken(s, work) <==> work.idempotencyKey.value in Keys(ops)
  {
    var key := work.idempotencyKey.value;
    assert OwnerRecorded(FirstWithKey(ops, key), key, s);
    KeysAreFirsts(ops, key);
  }

  lemma NewIdIsNew(ops: seq<Op>, s: Store, op: Op)
    requires op.Submit? && FreshIds(ops + [op]) && forall id :: id in s.rows ==> Drawn(ops, id)
    ensures op.newId !in s.rows
  {
    var all := ops + [op];
    assert all[|ops|] == op;
    forall i | 0 <= i < |ops| && ops[i].Submit?
      ensures ops[i].newId != op.newId
    {
      assert all[i] == ops[i];
    }
  }

  lemma StepRecorded(ops: seq<Op>, s: Store, op: Op)
    requires StoreOk(s) && Recorded(ops, s) && FreshIds(ops + [op])
    ensures Recorded(ops + [op], Apply(s, op))
  {
    var all := ops + [op];
    var s1 := Apply(s, op);
    assert all[..|all| - 1] == ops && all[|ops|] == op;
    if op.Submit? {
      NewIdIsNew(ops, s, op);
    }
    forall id | id in s1.rows
      ensures Drawn(all, id)
    {
      if id in s.rows {
        var i :| 0 <= i < |ops| && ops[i].Submit? && ops[i].newId == id;
        assert all[i] == ops[i];
      } else {
        assert all[|ops|].newId == id;
      }
    }
    StepKeepsOwners(ops, s, op);
    StepKeepsCount(ops, s, op);
  }

  lemma FirstGrows(ops: seq<Op>, op: Op, key: string)
    ensures FirstWithKey(ops + [op], key) ==
            if FirstWithKey(ops, key).Some? then FirstWithKey(ops, key)
            else if SubmitsKey(op, key) then Some((op.newId, op.work)) else None
  {
  }

  lemma OwnerStays(first: Option<(JobId, Submission)>, key: string, s: Store, s1: Store)
    requires OwnerRecorded(first, key, s) && s1.rows.Keys == s.rows.Keys
    requires forall id :: id in s.rows ==> s1.rows[id].job.work == s.rows[id].job.work
    ensures OwnerRecorded(first, key, s1)
  {
  }

  lemma OwnerInserted(first: Option<(JobId, Submission)>, key: string, s: Store, newId: JobId, work: Submission, at: Time)
    requires OwnerRecorded(first, key, s) && newId !in s.rows
    requires work.idempotencyKey == Some(key) ==> first.None?
    ensures OwnerRecorded(if work.idempotencyKey == Some(key) then Some((newId, work)) else first, key,
                          SetRow(s, newId, NewRow(work, at)))
  {
  }

  lemma StepKeepsOwners(ops: seq<Op>, s: Store, op: Op)
    requires StoreOk(s) && Recorded(ops, s) && (op.Submit? ==> op.newId !in s.rows)
    ensures forall key :: OwnerRecorded(FirstWithKey(ops + [op], key), key, Apply(s, op))
  {
    var inserts := op.Submit? && Inserts(s, op.newId, op.work);
    assert inserts ==> Apply(s, op) == SetRow(s, op.newId, NewRow(op.work, op.at)) && Submits(op);
    assert Submits(op) && !inserts ==> KeyTaken(s, op.work);
    if !inserts {
      OtherStepsKeepWork(s, op);
    }
    forall key
      ensures OwnerRecorded(FirstWithKey(ops + [op], key), key, Apply(s, op))
    {
      assert OwnerRecorded(FirstWithKey(ops, key), key, s);
      FirstGrows(ops, op, key);
      if SubmitsKey(op, key) {
        TakenIffSubmitted(ops, s, op.work);
      }
      hide Apply, OwnerRecorded, FirstWithKey, StoreOk, Recorded;
      if inserts {
        OwnerInserted(FirstWithKey(ops, key), key, s, op.newId, op.work, op.at);
      } else {
        OwnerStays(FirstWithKey(ops, key), key, s, Apply(s, op));
      }
    }
  }

  lemma StepKeepsCount(ops: seq<Op>, s: Store, op: Op)
    requires StoreOk(s) && Recorded(ops, s) && (op.Submit? ==> op.newId !in s.rows)
    ensures |Apply(s, op).rows| == |Keys(ops + [op])| + Keyless(ops + [op])
  {
    KeysGrow(ops, op);
    if op.Submit? && op.work.idempotencyKey.Some? {
      TakenIffSubmitted(ops, s, op.work);
    }
    StepCounts(s, op);
  }

  /** A valid submission adds to the keys unless its key is there, or to the keyless ones. */
  lemma KeysGrow(ops: seq<Op>, op: Op)
    ensures |Keys(ops + [op])| + Keyless(ops + [op]) ==
            |Keys(ops)| + Keyless(ops)
            + if Submits(op) && (op.work.idempotencyKey.None? || op.work.idempotencyKey.value !in Keys(ops)) then 1 else 0
  {
    var all := ops + [op];
    assert all[..|all| - 1] == ops && all[|ops|] == op;
    if Submits(op) && op.work.idempotencyKey.Some? && op.work.idempotencyKey.value in Keys(ops) {
      assert Keys(all) == Keys(ops);
    }
  }

  /** A step adds one row when it inserts and none otherwise. */
  lemma StepCounts(s: Store, op: Op)
    requires StoreOk(s) && (op.Submit? ==> op.newId !in s.rows)
    ensures |Apply(s, op).rows| == |s.rows| + if Submits(op) && !KeyTaken(s, op.work) then 1 else 0
  {
    hide StoreOk, RowOk, UniqueKeys, ClaimKeys, RecoverKeys, Selection.Take, CommitRows;
    if op.Submit? && Inserts(s, op.newId, op.work) {
      assert Apply(s, op).rows == s.rows[op.newId := NewRow(op.work, op.at)];
    } else {
      hide Apply;
      OtherStepsKeepWork(s, op);
      SameKeysSameSize(Apply(s, op).rows, s.rows);
    }
  }

  lemma SameKeysSameSize<K, V>(a: map<K, V>, b: map<K, V>)
    requires a.Keys == b.Keys
    ensures |a| == |b|
  {
    assert |a| == |a.Keys| && |b| == |b.Keys|;
  }

  lemma {:induction false} RunRecorded(ops: seq<Op>)
    requires FreshIds(ops)
    ensures Recorded(ops, Run(EMPTY, ops))
  {
    if ops != [] {
      var n := |ops| - 1;
      var f := ops[..n];
      assert ops == f + [ops[n]];
      RunRecorded(f);
      RunSnoc(EMPTY, f, ops[n]);
      ReachableOk(f);
      StepRecorded(f, Run(EMPTY, f), ops[n]);
    }
  }

  /**
  After any run of submissions and worker steps the answer to a submission is the one the first submission with its
  key decides, and only a created job changes the table.
  */
  lemma FirstSubmissionWins(ops: seq<Op>, newId: JobId, work: Submission, at: Time)
    requires FreshIds(ops + [Submit(newId, work, at)])
    ensures var s := Run(EMPTY, ops);
            && UniqueKeys(s)
            && Answer(s, newId, work) == FirstWins(ops, newId, work)
            && (Answer(s, newId, work) == Created(newId)
                <==> Apply(s, Submit(newId, work, at)) == SetRow(s, newId, NewRow(work, at)))
            && (!Answer(s, newId, work).Created? ==> Apply(s, Submit(newId, work, at)) == s)
  {
    var op := Submit(newId, work, at);
    var s := Run(EMPTY, ops);
    var all := ops + [op];
    assert FreshIds(ops) by {
      assert forall i :: 0 <= i < |ops| ==> all[i] == ops[i];
    }
    RunRecorded(ops);
    ReachableOk(ops);
    NewIdIsNew(ops, s, op);
    AnswerByRecord(ops, s, newId, work);
    AnswerDecidesEffect(s, newId, work, at);
  }

  /**
  The rule in terms of the work itself: the same work again is answered with the first job, any other work under the
  same key is refused, whatever it differs in.
  */
  lemma FirstWinsByWork(ops: seq<Op>, newId: JobId, work: Submission)
    requires 1 <= work.maxAttempts <= 100 && -100 <= work.priority <= 100
    ensures forall id: JobId :: FirstWins(ops, newId, work) == Replayed(id) <==>
              work.idempotencyKey.Some? && FirstWithKey(ops, work.idempotencyKey.value) == Some((id, work))
    ensures FirstWins(ops, newId, work) == Conflict <==>
              && work.idempotencyKey.Some?
              && FirstWithKey(ops, work.idempotencyKey.value).Some?
              && FirstWithKey(ops, work.idempotencyKey.value).value.1 != work
    ensures FirstWins(ops, newId, work) == Created(newId) <==>
              (work.idempotencyKey.Some? ==> FirstWithKey(ops, work.idempotencyKey.value).None?)
  {
    if work.idempotencyKey.Some? {
      FirstWithKeyIsFirst(ops, work.idempotencyKey.value);
    }
  }

  lemma AnswerByRecord(ops: seq<Op>, s: Store, newId: JobId, work: Submission)
    requires StoreOk(s) && Recorded(ops, s) && newId !in s.rows
    ensures Answer(s, newId, work) == FirstWins(ops, newId, work)
  {
    if work.idempotencyKey.Some? {
      var key := work.idempotencyKey.value;
      TakenIffSubmitted(ops, s, work);
      assert OwnerRecorded(FirstWithKey(ops, key), key, s);
    }
  }

  /** A replay and a conflict leave the table as it is; a creation adds exactly the new queued row. */
  lemma AnswerDecidesEffect(s: Store, newId: JobId, work: Submission, at: Time)
    requires StoreOk(s) && newId !in s.rows
    ensures Answer(s, newId, work).Created? <==> Inserts(s, newId, work)
    ensures Answer(s, newId, work) == Created(newId)
            <==> Apply(s, Submit(newId, work, at)) == SetRow(s, newId, NewRow(work, at))
    ensures !Answer(s, newId, work).Created? ==> Apply(s, Submit(newId, work, at)) == s
  {
  }

  /** The table holds one job per distinct key and one per submission without a key. */
  lemma JobsAreKeysPlusKeyless(ops: seq<Op>)
    requires FreshIds(ops)
    ensures |Run(EMPTY, ops).rows| == |Keys(ops)| + Keyless(ops)
  {
    RunRecorded(ops);
  }
}
