/**
The `jobs` table as a state machine.

One step is one thing the database does atomically: an insert, a guarded single-row update, the locking SELECT of a
claim or a recovery, or the commit or rollback that ends such a transaction.  A run is any sequence of steps, so the
steps of any number of workers interleave freely and each carries its own timestamp.  A step that the database would
refuse, or make wait for a locked row, leaves the store as it is.
*/
module JobStore {
  import opened Options
  import opened Jobs
  import opened Selection

  type TxnId = nat

  /** A transaction that has locked its rows and not committed yet. */
  datatype Txn =
    | ClaimTxn(ids: seq<JobId>, queues: set<string>, worker: WorkerId, at: Time, lease: Time)
    | RecoverTxn(ids: seq<JobId>, at: Time)

  datatype Store = Store(rows: map<JobId, Row>, open: map<TxnId, Txn>)

  const EMPTY := Store(map[], map[])

  datatype Op =
    | Submit(newId: JobId, work: Submission, at: Time)
    | LockForClaim(txn: TxnId, worker: WorkerId, queues: set<string>, limit: int, at: Time, lease: Time)
    | LockForRecovery(txn: TxnId, limit: int, at: Time)
    | Commit(txn: TxnId)
    | Rollback(txn: TxnId)
    | Renew(id: JobId, worker: WorkerId, at: Time, lease: Time)
    | Succeed(id: JobId, worker: WorkerId, at: Time, result: string)
    | Fail(id: JobId, worker: WorkerId, at: Time, error: string, retryable: bool, base: nat, cap: nat)

  // ---------------------------------------------------------------- locks and selections

  function Locked(s: Store): set<JobId> {
    set t, id | t in s.open && id in s.open[t].ids :: id
  }

  function ClaimKeys(s: Store, queues: set<string>, at: Time): (keys: map<JobId, SortKey>)
    ensures Keyed(keys)
  {
    var locked := Locked(s);
    map id | id in s.rows && id !in locked && Claimable(s.rows[id].job, queues, at)
      :: var j := s.rows[id].job; SortKey(-j.work.priority, j.availableAt, j.createdAt, id)
  }

  function RecoverKeys(s: Store, at: Time): (keys: map<JobId, SortKey>)
    ensures Keyed(keys)
  {
    var locked := Locked(s);
    map id | id in s.rows && id !in locked && Stale(s.rows[id].job, at)
      :: var l := s.rows[id].job.leaseExpiresAt; SortKey(if l.None? then 0 else 1, if l.None? then 0 else l.value, 0, id)
  }

  // ---------------------------------------------------------------- submission

  /** The bounds the request schema and the table constraints put on a submission. */
  predicate ValidSubmission(work: Submission) {
    && 1 <= work.maxAttempts <= 100 && -100 <= work.priority <= 100
  }

  /** The key is already in the table. */
  predicate KeyTaken(s: Store, work: Submission) {
    work.idempotencyKey.Some? && exists id :: id in s.rows && s.rows[id].job.work.idempotencyKey == work.idempotencyKey
  }

  predicate Inserts(s: Store, newId: JobId, work: Submission) {
    ValidSubmission(work) && newId !in s.rows && !KeyTaken(s, work)
  }

  // ---------------------------------------------------------------- steps

  function CommitRow(t: Txn, r: Row): Row {
    match t
    case ClaimTxn(_, _, worker, at, lease) => ClaimRow(r, worker, at, lease)
    case RecoverTxn(_, at) => RecoverRow(r, at)
  }

  function SetRow(s: Store, id: JobId, r: Row): Store {
    s.(rows := s.rows[id := r])
  }

  /** The report of `worker` finds its row and changes it. */
  predicate ReportLands(s: Store, id: JobId, worker: WorkerId, at: Time) {
    id in s.rows && id !in Locked(s) && Owns(s.rows[id].job, worker, at)
  }

  function CommitRows(s: Store, t: Txn): map<JobId, Row> {
    map id | id in s.rows :: if id in t.ids then CommitRow(t, s.rows[id]) else s.rows[id]
  }

  function Apply(s: Store, op: Op): Store {
    match op
    case Submit(newId, work, at) =>
      if Inserts(s, newId, work) then SetRow(s, newId, NewRow(work, at)) else s
    case LockForClaim(txn, worker, queues, limit, at, lease) =>
      if txn in s.open || queues == {} || limit < 1 then s
      else s.(open := s.open[txn := ClaimTxn(Take(ClaimKeys(s, queues, at), limit), queues, worker, at, lease)])
    case LockForRecovery(txn, limit, at) =>
      if txn in s.open || limit < 1 then s
      else s.(open := s.open[txn := RecoverTxn(Take(RecoverKeys(s, at), limit), at)])
    case Commit(txn) =>
      if txn !in s.open then s
      else Store(CommitRows(s, s.open[txn]), s.open - {txn})
    case Rollback(txn) =>
      s.(open := s.open - {txn})
    case Renew(id, worker, at, lease) =>
      if ReportLands(s, id, worker, at) then SetRow(s, id, RenewRow(s.rows[id], worker, at, lease)) else s
    case Succeed(id, worker, at, result) =>
      if ReportLands(s, id, worker, at) then SetRow(s, id, SucceedRow(s.rows[id], worker, at, result)) else s
    case Fail(id, worker, at, error, retryable, base, cap) =>
      if ReportLands(s, id, worker, at)
      then SetRow(s, id, FailRow(s.rows[id], worker, at, error, retryable, base, cap)) else s
  }

  function Run(s: Store, ops: seq<Op>): Store
    decreases |ops|
  {
    if ops == [] then s else Run(Apply(s, ops[0]), ops[1..])
  }

  // ---------------------------------------------------------------- the invariant

  /** The rows a transaction has locked still satisfy the WHERE clause it selected them by. */
  ghost predicate TxnOk(s: Store, t: Txn) {
    && (forall i, k :: 0 <= i < k < |t.ids| ==> t.ids[i] != t.ids[k])
    && (forall id :: id in t.ids ==> id in s.rows && Selected(t, s.rows[id].job))
  }

  predicate Selected(t: Txn, j: Job) {
    match t
    case ClaimTxn(_, queues, _, at, _) => Claimable(j, queues, at)
    case RecoverTxn(_, at) => Stale(j, at)
  }

  ghost predicate StoreOk(s: Store) {
    && (forall id :: id in s.rows ==> RowOk(s.rows[id]))
    && (forall t :: t in s.open ==> TxnOk(s, s.open[t]))
    && (forall t, u, id :: t in s.open && u in s.open && id in s.open[t].ids && id in s.open[u].ids ==> t == u)
    && UniqueKeys(s)
  }

  /** The unique constraint on the idempotency key. */
  ghost predicate UniqueKeys(s: Store) {
    forall x, y ::
      (&& x in s.rows && y in s.rows && s.rows[x].job.work.idempotencyKey.Some?
       && s.rows[x].job.work.idempotencyKey == s.rows[y].job.work.idempotencyKey) ==> x == y
  }

  lemma InLocked(s: Store, t: TxnId, id: JobId)
    requires t in s.open && id in s.open[t].ids
    ensures id in Locked(s)
  {
  }

  lemma NotLocked(s: Store, id: JobId)
    requires id !in Locked(s)
    ensures forall t :: t in s.open ==> id !in s.open[t].ids
  {
  }

  /** What a step does to one existing row: at most one guarded statement, and nothing to a row others have locked. */
  lemma ApplyRow(s: Store, op: Op, id: JobId)
    requires StoreOk(s) && id in s.rows
    ensures id in Apply(s, op).rows && RowStep(s.rows[id], Apply(s, op).rows[id])
    ensures Apply(s, op).rows[id] != s.rows[id] && id in Locked(s)
            ==> op.Commit? && op.txn in s.open && id in s.open[op.txn].ids
  {
    var r := s.rows[id];
    match op
    case Commit(txn) =>
      if txn in s.open && id in s.open[txn].ids {
        var t := s.open[txn];
        assert TxnOk(s, t) && Selected(t, r.job);
        if t.ClaimTxn? {
          assert Claimable(r.job, t.queues, t.at);
        } else {
          assert Stale(r.job, t.at);
        }
      }
    case Renew(i, worker, at, lease) =>
      if i == id && ReportLands(s, id, worker, at) { assert Owns(r.job, worker, at); }
    case Succeed(i, worker, at, result) =>
      if i == id && ReportLands(s, id, worker, at) { assert Owns(r.job, worker, at); }
    case Fail(i, worker, at, error, retryable, base, cap) =>
      if i == id && ReportLands(s, id, worker, at) { assert Owns(r.job, worker, at); }
    case _ =>
  }

  lemma ApplyRowsOk(s: Store, op: Op)
    requires StoreOk(s)
    ensures forall id :: id in Apply(s, op).rows ==> RowOk(Apply(s, op).rows[id])
    ensures UniqueKeys(Apply(s, op))
  {
    var s1 := Apply(s, op);
    forall id | id in s1.rows
      ensures RowOk(s1.rows[id])
      ensures id in s.rows ==> s1.rows[id].job.work == s.rows[id].job.work
      ensures id !in s.rows ==> op.Submit? && id == op.newId && Inserts(s, id, op.work) && s1.rows[id].job.work == op.work
    {
      if id in s.rows {
        ApplyRow(s, op, id);
        RowStepOk(s.rows[id], s1.rows[id]);
      } else {
        NewRowOk(op.work, op.at);
      }
    }
  }

  lemma LocksKept(s: Store, op: Op)
    requires StoreOk(s)
    ensures forall t :: t in s.open && t in Apply(s, op).open ==> TxnOk(Apply(s, op), s.open[t])
  {
    var s1 := Apply(s, op);
    forall t | t in s.open && t in s1.open
      ensures TxnOk(s1, s.open[t])
    {
      forall id | id in s.open[t].ids
        ensures id in s1.rows && s1.rows[id] == s.rows[id]
      {
        InLocked(s, t, id);
        assert TxnOk(s, s.open[t]);
        ApplyRow(s, op, id);
      }
    }
  }

  /** A transaction may open on rows no other transaction has locked. */
  lemma OpenOk(s: Store, txn: TxnId, t: Txn)
    requires StoreOk(s) && txn !in s.open && TxnOk(s, t) && forall id :: id in t.ids ==> id !in Locked(s)
    ensures StoreOk(s.(open := s.open[txn := t]))
  {
    hide RowOk, Selected;
    var s1 := s.(open := s.open[txn := t]);
    assert forall u :: u in s1.open ==> TxnOk(s1, s1.open[u]) by {
      forall u | u in s1.open ensures TxnOk(s1, s1.open[u]) {
        assert u == txn || TxnOk(s, s.open[u]);
      }
    }
    forall a, id | a in s.open && id in s.open[a].ids
      ensures id !in t.ids
    {
      InLocked(s, a, id);
    }
  }

  lemma SelectionDistinct(keys: map<JobId, SortKey>, n: nat, ids: seq<JobId>)
    requires Keyed(keys) && IsSelection(keys, n, ids)
    ensures forall i, k :: 0 <= i < k < |ids| ==> ids[i] != ids[k]
    ensures forall id :: id in ids ==> id in keys
  {
    forall i, k | 0 <= i < k < |ids| ensures ids[i] != ids[k] {
      assert Before(keys[ids[i]], keys[ids[k]]);
    }
  }

  /** The rows a claim selects satisfy its WHERE clause, and no other transaction has them. */
  lemma ClaimSelects(s: Store, queues: set<string>, worker: WorkerId, limit: nat, at: Time, lease: Time)
    ensures var t := ClaimTxn(Take(ClaimKeys(s, queues, at), limit), queues, worker, at, lease);
            TxnOk(s, t) && forall id :: id in t.ids ==> id !in Locked(s)
  {
    var keys := ClaimKeys(s, queues, at);
    TakeIsSelection(keys, limit);
    SelectionDistinct(keys, limit, Take(keys, limit));
  }

  lemma RecoverySelects(s: Store, limit: nat, at: Time)
    ensures var t := RecoverTxn(Take(RecoverKeys(s, at), limit), at);
            TxnOk(s, t) && forall id :: id in t.ids ==> id !in Locked(s)
  {
    var keys := RecoverKeys(s, at);
    TakeIsSelection(keys, limit);
    SelectionDistinct(keys, limit, Take(keys, limit));
  }

  lemma LockOk(s: Store, op: Op)
    requires StoreOk(s) && (op.LockForClaim? || op.LockForRecovery?)
    ensures StoreOk(Apply(s, op))
  {
    hide StoreOk, TxnOk, ClaimKeys, RecoverKeys, Take, Locked;
    if Apply(s, op) != s {
      if op.LockForClaim? {
        ClaimSelects(s, op.queues, op.worker, op.limit, op.at, op.lease);
      } else {
        RecoverySelects(s, op.limit, op.at);
      }
      OpenOk(s, op.txn, Apply(s, op).open[op.txn]);
    }
  }

  lemma ApplyOk(s: Store, op: Op)
    requires StoreOk(s)
    ensures StoreOk(Apply(s, op))
  {
    if op.LockForClaim? || op.LockForRecovery? {
      LockOk(s, op);
    } else {
      ApplyRowsOk(s, op);
      LocksKept(s, op);
    }
  }

  lemma {:induction false} RunOk(s: Store, ops: seq<Op>)
    requires StoreOk(s)
    ensures StoreOk(Run(s, ops))
    decreases |ops|
  {
    if ops != [] {
      ApplyOk(s, ops[0]);
      RunOk(Apply(s, ops[0]), ops[1..]);
    }
  }

  lemma {:induction false} RunSnoc(s: Store, ops: seq<Op>, op: Op)
    ensures Run(s, ops + [op]) == Apply(Run(s, ops), op)
    decreases |ops|
  {
    if ops == [] {
      assert [op][1..] == [];
      assert ops + [op] == [op];
    } else {
      RunSnoc(Apply(s, ops[0]), ops[1..], op);
      assert (ops + [op])[1..] == ops[1..] + [op];
    }
  }

  lemma {:induction false} RunConcat(s: Store, ops: seq<Op>, more: seq<Op>)
    ensures Run(s, ops + more) == Run(Run(s, ops), more)
    decreases |ops|
  {
    if ops == [] {
      assert ops + more == more;
    } else {
      RunConcat(Apply(s, ops[0]), ops[1..], more);
      assert (ops + more)[1..] == ops[1..] + more;
    }
  }
}
