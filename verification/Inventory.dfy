/**
The stock operations as the service writes them: rows updated in place, a movement appended, and a rollback that
restores everything when an error is raised or the commit fails.
*/
module Inventory {
  import opened Options
  import opened Ledger
  import opened LedgerRuns

  class StockTable {
    const products: set<ProductId>
    var balances: map<Key, Balance>
    var movements: seq<Movement>

    constructor (products: set<ProductId>)
      ensures State() == Opening(products)
    {
      this.products, balances, movements := products, map[], [];
    }

    function State(): Stock
      reads this
    {
      Stock(products, balances, movements)
    }

    method InsertEmptyIfMissing(k: Key)
      modifies this
      ensures balances == old(balances)[k := BalanceOf(old(State()), k)] && movements == old(movements)
    {
      if k !in balances {
        balances := balances[k := Balance(0, 0)];
      }
      assert balances == old(balances)[k := BalanceOf(old(State()), k)];
    }

    /** Append the movement that records the balance as it now is. */
    method Record(k: Key, kind: Kind, onHand: int, reserved: int, ref: Option<Reference>, id: Option<TransferId>)
      requires k in balances
      modifies this
      ensures balances == old(balances)
      ensures movements == old(movements)
                           + [Movement(k.0, k.1, kind, onHand, reserved, balances[k].onHand, balances[k].reserved, ref, id)]
    {
      var m := Movement(k.0, k.1, kind, onHand, reserved, balances[k].onHand, balances[k].reserved, ref, id);
      movements := movements + [m];
    }

    method ReceiveStock(p: ProductId, w: WarehouseId, q: Quantity, note: Option<Reference>, commits: bool)
      returns (error: Option<Error>)
      modifies this
      ensures Settled(old(State()), Receive(p, w, q, note), commits, State(), error)
      ensures Received(old(State()), State(), p, w, q, note, commits, error)
    {
      var savedBalances, savedMovements := balances, movements;
      if p !in products {
        return Some(ProductNotFound);
      }
      var k := (p, w);
      InsertEmptyIfMissing(k);
      balances := balances[k := balances[k].(onHand := balances[k].onHand + q)];
      Record(k, RECEIPT, q, 0, note, None);
      if !commits {
        balances, movements := savedBalances, savedMovements;
        return Some(CommitFailed);
      }
      error := None;
      PostSums(savedMovements, movements[|savedMovements|]);
    }

    method IssueStock(p: ProductId, w: WarehouseId, q: Quantity, note: Option<Reference>, commits: bool)
      returns (error: Option<Error>)
      modifies this
      ensures Settled(old(State()), Issue(p, w, q, note), commits, State(), error)
      ensures Issued(old(State()), State(), p, w, q, note, commits, error)
    {
      var savedBalances, savedMovements := balances, movements;
      if p !in products {
        return Some(ProductNotFound);
      }
      var k := (p, w);
      var available := 0;
      if k in balances {
        available := balances[k].onHand - balances[k].reserved;
      }
      if k !in balances || q > available {
        return Some(InsufficientStock(available, q));
      }
      balances := balances[k := balances[k].(onHand := balances[k].onHand - q)];
      Record(k, ISSUE, -(q as int), 0, note, None);
      if !commits {
        balances, movements := savedBalances, savedMovements;
        return Some(CommitFailed);
      }
      error := None;
      PostSums(savedMovements, movements[|savedMovements|]);
    }

    method ReserveStock(p: ProductId, w: WarehouseId, q: Quantity, r: Reference, commits: bool)
      returns (error: Option<Error>)
      modifies this
      ensures Settled(old(State()), Reserve(p, w, q, r), commits, State(), error)
      ensures Reserved(old(State()), State(), p, w, q, r, commits, error)
    {
      var savedBalances, savedMovements := balances, movements;
      if p !in products {
        return Some(ProductNotFound);
      }
      var k := (p, w);
      var held := Outstanding(movements, p, w, r);
      if held > 0 {
        return Some(ReservationAlreadyExists(held));
      }
      var available := 0;
      if k in balances {
        available := balances[k].onHand - balances[k].reserved;
      }
      if k !in balances || q > available {
        return Some(InsufficientStock(available, q));
      }
      balances := balances[k := balances[k].(reserved := balances[k].reserved + q)];
      Record(k, RESERVATION, 0, q, Some(r), None);
      if !commits {
        balances, movements := savedBalances, savedMovements;
        return Some(CommitFailed);
      }
      error := None;
      PostSums(savedMovements, movements[|savedMovements|]);
    }

    method ReleaseStock(p: ProductId, w: WarehouseId, q: Quantity, r: Reference, commits: bool)
      returns (error: Option<Error>)
      modifies this
      ensures Settled(old(State()), Release(p, w, q, r), commits, State(), error)
      ensures Released(old(State()), State(), p, w, q, r, commits, error)
    {
      var savedBalances, savedMovements := balances, movements;
      if p !in products {
        return Some(ProductNotFound);
      }
      var k := (p, w);
      var held := Outstanding(movements, p, w, r);
      var releasable := 0;
      if k in balances {
        releasable := Min(held, balances[k].reserved);
      }
      if k !in balances || q > releasable {
        return Some(InsufficientReserved(releasable, q));
      }
      balances := balances[k := balances[k].(reserved := balances[k].reserved - q)];
      Record(k, RELEASE, 0, -(q as int), Some(r), None);
      if !commits {
        balances, movements := savedBalances, savedMovements;
        return Some(CommitFailed);
      }
      error := None;
      PostSums(savedMovements, movements[|savedMovements|]);
    }

    method TransferStock(
        p: ProductId, source: WarehouseId, target: WarehouseId, q: Quantity, note: Option<Reference>, drawn: TransferId,
        commits: bool)
      returns (error: Option<Error>)
      modifies this
      ensures Settled(old(State()), Transfer(p, source, target, q, note, drawn), commits, State(), error)
      ensures Transferred(old(State()), State(), p, source, target, q, note, drawn, commits, error)
    {
      hide Outstanding, HoldsMore;
      var savedBalances, savedMovements := balances, movements;
      if p !in products {
        return Some(ProductNotFound);
      }
      if source == target {
        return Some(SameWarehouse);
      }
      var from, to := (p, source), (p, target);
      InsertEmptyIfMissing(to);
      var available := 0;
      if from in balances {
        available := balances[from].onHand - balances[from].reserved;
      }
      if from !in balances || q > available {
        balances := savedBalances;
        return Some(InsufficientStock(available, q));
      }
      var id := Some(drawn);
      balances := balances[from := balances[from].(onHand := balances[from].onHand - q)];
      balances := balances[to := balances[to].(onHand := balances[to].onHand + q)];
      Record(from, TRANSFER_OUT, -(q as int), 0, note, id);
      Record(to, TRANSFER_IN, q, 0, note, id);
      if !commits {
        balances, movements := savedBalances, savedMovements;
        return Some(CommitFailed);
      }
      error := None;
      assert balances == Effect(old(State()), Transfer(p, source, target, q, note, drawn)).balances;
      TransferInPlainTerms(old(State()), p, source, target, q, note, drawn);
    }
  }

  /** The outcome of one transaction: the operation's error or a failed commit leaves nothing behind. */
  ghost predicate Settled(before: Stock, op: StockOp, commits: bool, after: Stock, error: Option<Error>) {
    if Check(before, op).Some? then after == before && error == Check(before, op)
    else if commits then after == Transact(before, op) && error == None
    else after == before && error == Some(CommitFailed)
  }

  // ---------------------------------------------------------------- what each operation does, in plain terms

  /** The balance of `k` becomes `b`, every other balance stays, and exactly one movement is appended. */
  ghost predicate OneMoved(l: Stock, l1: Stock, k: Key, b: Balance, m: Movement) {
    && l1.products == l.products
    && BalanceOf(l1, k) == b && (forall x :: x != k ==> BalanceOf(l1, x) == BalanceOf(l, x))
    && l1.movements == l.movements + [m]
  }

  /** Every reference holds what it held before, but for `amount` more at one place of reference `owner`. */
  ghost predicate HoldsMore(l: Stock, l1: Stock, k: Key, owner: Option<Reference>, amount: int) {
    forall p: ProductId, w: WarehouseId, r: Reference ::
      Outstanding(l1.movements, p, w, r)
      == Outstanding(l.movements, p, w, r) + if (p, w) == k && Some(r) == owner then amount else 0
  }

  function FreeStock(l: Stock, k: Key): int {
    BalanceOf(l, k).onHand - BalanceOf(l, k).reserved
  }

  ghost predicate Received(
      l: Stock, l1: Stock, p: ProductId, w: WarehouseId, q: Quantity, note: Option<Reference>, commits: bool,
      error: Option<Error>)
  {
    var b := BalanceOf(l, (p, w));
    && error == (if p !in l.products then Some(ProductNotFound) else if commits then None else Some(CommitFailed))
    && (error.Some? ==> l1 == l)
    && (error.None? ==>
          && OneMoved(l, l1, (p, w), Balance(b.onHand + q, b.reserved),
                      Movement(p, w, RECEIPT, q, 0, b.onHand + q, b.reserved, note, None))
          && HoldsMore(l, l1, (p, w), None, 0))
  }

  ghost predicate Issued(
      l: Stock, l1: Stock, p: ProductId, w: WarehouseId, q: Quantity, note: Option<Reference>, commits: bool,
      error: Option<Error>)
  {
    var b := BalanceOf(l, (p, w));
    && error == (if p !in l.products then Some(ProductNotFound)
                 else if FreeStock(l, (p, w)) < q || (p, w) !in l.balances
                 then Some(InsufficientStock(FreeStock(l, (p, w)), q))
                 else if commits then None else Some(CommitFailed))
    && (error.Some? ==> l1 == l)
    && (error.None? ==>
          && OneMoved(l, l1, (p, w), Balance(b.onHand - q, b.reserved),
                      Movement(p, w, ISSUE, -(q as int), 0, b.onHand - q, b.reserved, note, None))
          && HoldsMore(l, l1, (p, w), None, 0))
  }

  ghost predicate Reserved(
      l: Stock, l1: Stock, p: ProductId, w: WarehouseId, q: Quantity, r: Reference, commits: bool, error: Option<Error>)
  {
    var b := BalanceOf(l, (p, w));
    var held := Outstanding(l.movements, p, w, r);
    && error == (if p !in l.products then Some(ProductNotFound)
                 else if held > 0 then Some(ReservationAlreadyExists(held))
                 else if FreeStock(l, (p, w)) < q || (p, w) !in l.balances
                 then Some(InsufficientStock(FreeStock(l, (p, w)), q))
                 else if commits then None else Some(CommitFailed))
    && (error.Some? ==> l1 == l)
    && (error.None? ==>
          && OneMoved(l, l1, (p, w), Balance(b.onHand, b.reserved + q),
                      Movement(p, w, RESERVATION, 0, q, b.onHand, b.reserved + q, Some(r), None))
          && HoldsMore(l, l1, (p, w), Some(r), q))
  }

  ghost predicate Released(
      l: Stock, l1: Stock, p: ProductId, w: WarehouseId, q: Quantity, r: Reference, commits: bool, error: Option<Error>)
  {
    var b := BalanceOf(l, (p, w));
    var held := Outstanding(l.movements, p, w, r);
    var most := if (p, w) !in l.balances then 0 else if held <= b.reserved then held else b.reserved;
    && error == (if p !in l.products then Some(ProductNotFound)
                 else if most < q then Some(InsufficientReserved(most, q))
                 else if commits then None else Some(CommitFailed))
    && (error.Some? ==> l1 == l)
    && (error.None? ==>
          && OneMoved(l, l1, (p, w), Balance(b.onHand, b.reserved - q),
                      Movement(p, w, RELEASE, 0, -(q as int), b.onHand, b.reserved - q, Some(r), None))
          && HoldsMore(l, l1, (p, w), Some(r), -(q as int)))
  }

  ghost predicate Transferred(
      l: Stock, l1: Stock, p: ProductId, source: WarehouseId, target: WarehouseId, q: Quantity, note: Option<Reference>,
      drawn: TransferId, commits: bool, error: Option<Error>)
  {
    var from, to := (p, source), (p, target);
    var a, b := BalanceOf(l, from), BalanceOf(l, to);
    && error == (if p !in l.products then Some(ProductNotFound)
                 else if source == target then Some(SameWarehouse)
                 else if FreeStock(l, from) < q || from !in l.balances then Some(InsufficientStock(FreeStock(l, from), q))
                 else if commits then None else Some(CommitFailed))
    && (error.Some? ==> l1 == l)
    && (error.None? ==>
          && l1.products == l.products
          && BalanceOf(l1, from) == Balance(a.onHand - q, a.reserved)
          && BalanceOf(l1, to) == Balance(b.onHand + q, b.reserved)
          && (forall x :: x != from && x != to ==> BalanceOf(l1, x) == BalanceOf(l, x))
          && l1.movements == l.movements
             + [Movement(p, source, TRANSFER_OUT, -(q as int), 0, a.onHand - q, a.reserved, note, Some(drawn)),
                Movement(p, target, TRANSFER_IN, q, 0, b.onHand + q, b.reserved, note, Some(drawn))]
          && HoldsMore(l, l1, from, None, 0))
  }

  lemma TransferInPlainTerms(
      l: Stock, p: ProductId, source: WarehouseId, target: WarehouseId, q: Quantity, note: Option<Reference>,
      drawn: TransferId)
    requires source != target
    ensures HoldsMore(l, Effect(l, Transfer(p, source, target, q, note, drawn)), (p, source), None, 0)
  {
    var l2 := Effect(l, Transfer(p, source, target, q, note, drawn));
    var l1 := Post(l, (p, source), TRANSFER_OUT, -(q as int), 0, note, Some(drawn));
    PostSums(l.movements, l1.movements[|l.movements|]);
    PostSums(l1.movements, l2.movements[|l1.movements|]);
  }
}
