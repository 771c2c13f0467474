/**
Row locks of the stock operations.  A transaction locks the balance rows it needs one after the other and gives them
all back when it commits or rolls back.  Because a transfer locks its two rows of one product in warehouse order,
concurrent transactions never deadlock.
*/
module LockOrder {
  import opened Sums
  import opened Ledger

  type TxnId = nat

  /** A transaction needs `rows`, and has locked the first `locked` of them. */
  datatype Txn = Txn(rows: seq<Key>, locked: nat, done: bool)

  type Locks = map<TxnId, Txn>

  datatype LockStep =
    | Begin(txn: TxnId, rows: seq<Key>)
    | Lock(txn: TxnId)
    | Commit(txn: TxnId)
    | Rollback(txn: TxnId)

  /** The rows an operation locks, in the order in which it locks them. */
  function RowsOf(op: StockOp): (rows: seq<Key>)
  {
    match op
    case Receive(p, w, _, _) => [(p, w)]
    case Issue(p, w, _, _) => [(p, w)]
    case Reserve(p, w, _, _) => [(p, w)]
    case Release(p, w, _, _) => [(p, w)]
    case Transfer(p, source, target, _, _, _) =>
      if source < target then [(p, source), (p, target)]
      else if target < source then [(p, target), (p, source)]
      else [(p, source)]
  }

  predicate HasLocked(t: Txn, row: Key) {
    !t.done && exists i :: 0 <= i < t.locked <= |t.rows| && t.rows[i] == row
  }

  predicate Free(s: Locks, row: Key) {
    forall id :: id in s ==> !HasLocked(s[id], row)
  }

  predicate CanLock(s: Locks, id: TxnId) {
    id in s && !s[id].done && s[id].locked < |s[id].rows| && Free(s, s[id].rows[s[id].locked])
  }

  predicate CanCommit(s: Locks, id: TxnId) {
    id in s && !s[id].done && s[id].locked == |s[id].rows|
  }

  function Step(s: Locks, a: LockStep): Locks {
    match a
    case Begin(id, rows) => if id in s then s else s[id := Txn(rows, 0, false)]
    case Lock(id) => if CanLock(s, id) then s[id := s[id].(locked := s[id].locked + 1)] else s
    case Commit(id) => if CanCommit(s, id) then s[id := s[id].(done := true)] else s
    case Rollback(id) => if id in s then s[id := s[id].(done := true)] else s
  }

  function Run(s: Locks, steps: seq<LockStep>): Locks
    decreases |steps|
  {
    if steps == [] then s else Run(Step(s, steps[0]), steps[1..])
  }

  // ---------------------------------------------------------------- what every run keeps

  /** All rows of one product, in ascending warehouse order. */
  predicate InOrder(rows: seq<Key>) {
    forall i, k :: 0 <= i < k < |rows| ==> rows[i].0 == rows[k].0 && rows[i].1 < rows[k].1
  }

  ghost predicate LocksOk(s: Locks) {
    && (forall id :: id in s ==> s[id].locked <= |s[id].rows| && InOrder(s[id].rows))
    && (forall a, b, row :: a in s && b in s && a != b && HasLocked(s[a], row) ==> !HasLocked(s[b], row))
  }

  /** Every transaction that begins is one of the stock operations. */
  ghost predicate Ordinary(a: LockStep) {
    a.Begin? ==> exists op :: a.rows == RowsOf(op)
  }

  lemma OperationsLockInOrder(op: StockOp)
    ensures InOrder(RowsOf(op))
    ensures forall k: Key :: k in RowsOf(op) <==>
              k.0 == op.product && k.1 in (if op.Transfer? then {op.source, op.target} else {op.warehouse})
  {
  }

  lemma StepKeepsLocks(s: Locks, a: LockStep)
    requires LocksOk(s) && Ordinary(a)
    ensures LocksOk(Step(s, a))
  {
    var s1 := Step(s, a);
    if a.Begin? {
      var op :| a.rows == RowsOf(op);
      OperationsLockInOrder(op);
    }
    forall i, k, row | i in s1 && k in s1 && i != k && HasLocked(s1[i], row)
      ensures !HasLocked(s1[k], row)
    {
      LockedBefore(s, a, i, row);
      LockedBefore(s, a, k, row);
    }
  }

  /** A row locked after a step was locked before it, or this step locked it and it was free. */
  lemma LockedBefore(s: Locks, a: LockStep, id: TxnId, row: Key)
    requires LocksOk(s) && id in Step(s, a)
    ensures HasLocked(Step(s, a)[id], row) ==>
              || (id in s && HasLocked(s[id], row))
              || (a == Lock(id) && CanLock(s, id) && row == s[id].rows[s[id].locked])
  {
    if HasLocked(Step(s, a)[id], row) {
      var t := Step(s, a)[id];
      var i :| 0 <= i < t.locked <= |t.rows| && t.rows[i] == row;
      if id in s && i < s[id].locked {
        assert s[id].rows[i] == row;
      }
    }
  }

  lemma {:induction false} RunsKeepLocks(s: Locks, steps: seq<LockStep>)
    requires LocksOk(s) && forall i :: 0 <= i < |steps| ==> Ordinary(steps[i])
    ensures LocksOk(Run(s, steps))
    decreases |steps|
  {
    hide LocksOk, Step, Ordinary;
    if steps != [] {
      StepKeepsLocks(s, steps[0]);
      RunsKeepLocks(Step(s, steps[0]), steps[1..]);
    }
  }

  // ---------------------------------------------------------------- no deadlock

  predicate Waiting(s: Locks, id: TxnId) {
    id in s && !s[id].done && s[id].locked < |s[id].rows|
  }

  function NextRow(t: Txn): Key
    requires t.locked < |t.rows|
  {
    t.rows[t.locked]
  }

  /** The warehouse of the row a transaction waits for. */
  function Reach(s: Locks, id: TxnId): int {
    if Waiting(s, id) then NextRow(s[id]).1 else -1
  }

  /** Among the waiting transactions, one that waits for a row of the greatest warehouse. */
  lemma {:induction false} FurthestWaiting(s: Locks, among: set<TxnId>) returns (id: TxnId)
    requires among != {}
    ensures id in among && forall x :: x in among ==> Reach(s, x) <= Reach(s, id)
    decreases |among|
  {
    id :| id in among;
    if among != {id} {
      var rest := among - {id};
      assert among == rest + {id};
      var other := FurthestWaiting(s, rest);
      if Reach(s, id) < Reach(s, other) {
        id := other;
      }
    }
  }

  /** Whoever holds the row that a transaction waits for waits for a later warehouse, if it waits at all. */
  lemma HolderIsFurther(s: Locks, id: TxnId, holder: TxnId)
    requires LocksOk(s) && Waiting(s, id) && Waiting(s, holder) && HasLocked(s[holder], NextRow(s[id]))
    ensures Reach(s, id) < Reach(s, holder)
  {
  }

  /** In every reachable state with an unfinished transaction, some transaction can lock its next row or commit. */
  lemma SomeTransactionProceeds(s: Locks) returns (id: TxnId)
    requires LocksOk(s) && exists x :: x in s && !s[x].done
    ensures CanLock(s, id) || CanCommit(s, id)
  {
    forall a, b | Waiting(s, a) && Waiting(s, b) && HasLocked(s[b], NextRow(s[a]))
      ensures Reach(s, a) < Reach(s, b)
    {
      HolderIsFurther(s, a, b);
    }
    id :| id in s && !s[id].done;
    if !CanCommit(s, id) {
      var waiting := set x | x in s && Waiting(s, x);
      assert id in waiting;
      id := FurthestWaiting(s, waiting);
      if !CanLock(s, id) {
        var holder :| holder in s && HasLocked(s[holder], NextRow(s[id]));
        assert holder !in waiting;
        id := holder;
      }
    }
  }

  // ---------------------------------------------------------------- and all of them finish

  function StepsLeft(s: Locks): TxnId -> int {
    (id: TxnId) => if id in s && !s[id].done && s[id].locked <= |s[id].rows| then |s[id].rows| - s[id].locked + 1 else 0
  }

  ghost function Work(s: Locks): int {
    SumSet(s.Keys, StepsLeft(s))
  }

  /** A step of a running transaction that does something. */
  predicate Effective(s: Locks, a: LockStep) {
    match a
    case Begin(_, _) => false
    case Lock(id) => CanLock(s, id)
    case Commit(id) => CanCommit(s, id)
    case Rollback(id) => id in s && !s[id].done
  }

  lemma EffectiveStepUsesWork(s: Locks, a: LockStep)
    requires LocksOk(s) && Effective(s, a)
    ensures Work(Step(s, a)) < Work(s)
  {
    var s1 := Step(s, a);
    assert s1.Keys == s.Keys;
    ChangeOne(s.Keys, StepsLeft(s), StepsLeft(s1), a.txn);
  }

  ghost predicate AllEffective(s: Locks, steps: seq<LockStep>)
    decreases |steps|
  {
    steps == [] || (Effective(s, steps[0]) && AllEffective(Step(s, steps[0]), steps[1..]))
  }

  ghost predicate Stuck(s: Locks) {
    forall id :: !CanLock(s, id) && !CanCommit(s, id)
  }

  ghost predicate AllDone(s: Locks) {
    forall id :: id in s ==> s[id].done
  }

  lemma StuckMeansDone(s: Locks)
    requires LocksOk(s) && Stuck(s)
    ensures AllDone(s)
  {
    if exists id :: id in s && !s[id].done {
      var id := SomeTransactionProceeds(s);
      assert false;
    }
  }

  /**
  Once no new transaction begins, any schedule takes at most `Work` effective steps, and it can stop taking them only
  when every transaction has finished.
  */
  lemma {:induction false} AllTransactionsFinish(s: Locks, steps: seq<LockStep>)
    requires LocksOk(s) && AllEffective(s, steps)
    ensures |steps| <= Work(s)
    ensures Stuck(Run(s, steps)) ==> AllDone(Run(s, steps))
    decreases |steps|
  {
    WorkIsNatural(s);
    hide LocksOk, Step, Work, Effective, Stuck, AllDone;
    if steps == [] {
      if Stuck(s) { StuckMeansDone(s); }
    } else {
      assert Ordinary(steps[0]) by { EffectiveIsOrdinary(s, steps[0]); }
      StepKeepsLocks(s, steps[0]);
      EffectiveStepUsesWork(s, steps[0]);
      AllTransactionsFinish(Step(s, steps[0]), steps[1..]);
    }
  }

  lemma WorkIsNatural(s: Locks)
    ensures Work(s) >= 0
  {
    NonNegative(s.Keys, StepsLeft(s));
  }

  lemma EffectiveIsOrdinary(s: Locks, a: LockStep)
    requires Effective(s, a)
    ensures Ordinary(a)
  {
  }

  /** Two opposite transfers that each hold their source row. */
  function Crossed(p: ProductId, w1: WarehouseId, w2: WarehouseId): Locks {
    map[0 := Txn([(p, w1), (p, w2)], 1, false), 1 := Txn([(p, w2), (p, w1)], 1, false)]
  }

  /** Locking the source row of a transfer first would deadlock: two opposite transfers each wait for the other. */
  lemma SourceFirstDeadlocks(p: ProductId, w1: WarehouseId, w2: WarehouseId)
    requires w1 != w2
    ensures Run(map[], [Begin(0, [(p, w1), (p, w2)]), Begin(1, [(p, w2), (p, w1)]), Lock(0), Lock(1)]) == Crossed(p, w1, w2)
    ensures Stuck(Crossed(p, w1, w2)) && !AllDone(Crossed(p, w1, w2))
  {
    var s2 := Crossed(p, w1, w2);
    assert s2[0].rows[0] == (p, w1) && s2[1].rows[0] == (p, w2);
    assert HasLocked(s2[0], (p, w1)) && HasLocked(s2[1], (p, w2));
    var a, b := Txn([(p, w1), (p, w2)], 0, false), Txn([(p, w2), (p, w1)], 0, false);
    var empty: Locks := map[];
    var steps := [Begin(0, a.rows), Begin(1, b.rows), Lock(0), Lock(1)];
    calc {
      Run(empty, steps);
      { assert steps[1..] == [Begin(1, b.rows), Lock(0), Lock(1)]; }
      Run(empty[0 := a], [Begin(1, b.rows), Lock(0), Lock(1)]);
      { assert [Begin(1, b.rows), Lock(0), Lock(1)][1..] == [Lock(0), Lock(1)]; }
      Run(empty[0 := a][1 := b], [Lock(0), Lock(1)]);
      { assert [Lock(0), Lock(1)][1..] == [Lock(1)]; }
      Run(empty[0 := a.(locked := 1)][1 := b], [Lock(1)]);
      { assert empty[0 := a.(locked := 1)][1 := b.(locked := 1)] == s2; }
      Run(s2, []);
    }
  }
}
