/**
What the accounting identity says to a customer and to the warehouse: orders and ledger agree whenever no saga is in
flight, provided no call raised after taking effect and no compensation failed.
*/
module SagaRuns {
  import opened Options
  import opened Faults
  import opened Sums
  import opened Ledger
  import opened LedgerRuns
  import opened Sagas
  import opened SagaBooks

  /** Forward calls raise only without effect, and a compensating call does not raise.  Local commits may fail. */
  predicate CleanStep(w: World, a: Action) {
    a.Advance? && a.saga in w.sagas ==>
      var s := w.sagas[a.saga];
      match s
      case Creating(_, _, lines, done) => done < |lines| ==> !a.fault.RaisesAfter?
      case Undoing(_, _, lines, left) => 0 < left <= |lines| ==> !Raises(w.stock, ReleaseCall(s, left - 1), a.fault)
      case Cancelling(_, _, lines, done) => done < |lines| ==> !a.fault.RaisesAfter?
      case Restoring(_, _, lines, next, done) =>
        next < done <= |lines| ==> !Raises(w.stock, ReserveCall(s, next), a.fault)
  }

  /** The step is not a call of order `r` that went wrong. */
  predicate CleanStepOf(w: World, a: Action, r: Reference) {
    a.Advance? && a.saga in w.sagas && w.sagas[a.saga].order == r ==> CleanStep(w, a)
  }

  /** No call of order `r` went wrong; those of other orders may have. */
  ghost predicate CleanRunOf(w: World, actions: seq<Action>, r: Reference)
    decreases |actions|
  {
    actions == [] || (CleanStepOf(w, actions[0], r) && CleanRunOf(Step(w, actions[0]), actions[1..], r))
  }

  ghost predicate CleanRun(w: World, actions: seq<Action>) {
    forall r :: CleanRunOf(w, actions, r)
  }

  ghost predicate NoDrift(w: World, r: Reference) {
    forall at :: at in w.drift && at.order == r ==> w.drift[at] == 0
  }

  lemma CleanStepKeepsDrift(w: World, a: Action, r: Reference)
    requires CleanStepOf(w, a, r) && NoDrift(w, r)
    ensures NoDrift(Step(w, a), r)
  {
    hide CallEffect, Check, ValidLines, RowLocked, Transact;
    if a.Advance? && a.saga in w.sagas {
      match w.sagas[a.saga]
      case Creating(_, _, _, _) => assert NoDrift(AdvanceCreating(w, a.saga, a.fault), r);
      case Undoing(_, _, _, _) => assert NoDrift(AdvanceUndoing(w, a.saga, a.fault), r);
      case Cancelling(_, _, _, _) => assert NoDrift(AdvanceCancelling(w, a.saga, a.fault), r);
      case Restoring(_, _, _, _, _) => assert NoDrift(AdvanceRestoring(w, a.saga, a.fault), r);
    }
  }

  lemma {:induction false} CleanRunsDoNotDrift(w: World, actions: seq<Action>, r: Reference)
    requires WorldOk(w) && NoDrift(w, r) && CleanRunOf(w, actions, r)
    ensures WorldOk(Run(w, actions)) && NoDrift(Run(w, actions), r)
    decreases |actions|
  {
    hide WorldOk, NoDrift, Step;
    if actions != [] {
      StepOk(w, actions[0]);
      CleanStepKeepsDrift(w, actions[0], r);
      CleanRunsDoNotDrift(Step(w, actions[0]), actions[1..], r);
    }
  }

  ghost predicate Quiet(w: World, r: Reference) {
    forall id :: id in w.sagas ==> w.sagas[id].order != r
  }

  lemma QuietMeansNothingInFlight(w: World, p: ProductId, wh: WarehouseId, r: Reference)
    requires Quiet(w, r)
    ensures InFlight(w.sagas, p, wh, r) == 0
  {
    SumSetZero(w.sagas.Keys, SagaShare(w.sagas, p, wh, r));
  }

  /** With each product once, a line's quantity is all the order has of its product. */
  lemma {:induction false} QtyOfLine(lines: seq<Line>, i: nat)
    requires ValidLines(lines) && i < |lines|
    ensures Qty(lines, lines[i].product) == lines[i].quantity
  {
    var n := |lines| - 1;
    if i == n {
      QtyAbsent(lines[..n], lines[n].product);
    } else {
      assert lines[..n][i] == lines[i] && ValidLines(lines[..n]);
      QtyOfLine(lines[..n], i);
    }
  }

  lemma {:induction false} QtyAbsent(lines: seq<Line>, p: ProductId)
    requires forall k :: 0 <= k < |lines| ==> lines[k].product != p
    ensures Qty(lines, p) == 0
  {
    if lines != [] {
      QtyAbsent(lines[..|lines| - 1], p);
    }
  }

  /** What the ledger must hold for line `i` of an order nobody is working on. */
  function DueFor(o: Order, i: nat): int
    requires i < |o.lines|
  {
    if o.status == RESERVED || o.status == CONFIRMED then o.lines[i].quantity else 0
  }

  /**
  After any run of creations, confirmations, cancellations, receipts, issues and transfers, interleaved call by call,
  an order whose own calls were clean and that has no saga in flight has exactly its quantities reserved, and none once
  it is cancelled; if it was never stored it has nothing reserved.  The calls of other orders may fail in any way.
  */
  lemma OrdersMatchTheLedger(products: set<ProductId>, actions: seq<Action>, r: Reference)
    requires CleanRunOf(Start(products), actions, r)
    ensures var w := Run(Start(products), actions);
            Quiet(w, r) ==>
              && (r in w.orders ==> var o := w.orders[r];
                  forall i :: 0 <= i < |o.lines| ==>
                    Outstanding(w.stock.movements, o.lines[i].product, o.warehouse, r) == DueFor(o, i))
              && (r !in w.orders ==> forall p, wh :: Outstanding(w.stock.movements, p, wh, r) == 0)
  {
    StartOk(products);
    CleanRunsDoNotDrift(Start(products), actions, r);
    var w := Run(Start(products), actions);
    if Quiet(w, r) {
      forall p, wh
        ensures Outstanding(w.stock.movements, p, wh, r) == OrderShare(w.orders, p, wh, r)
      {
        QuietMeansNothingInFlight(w, p, wh, r);
        assert Balanced(w, p, wh, r);
      }
      if r in w.orders {
        var o := w.orders[r];
        forall i | 0 <= i < |o.lines|
          ensures Qty(o.lines, o.lines[i].product) == o.lines[i].quantity
        {
          QtyOfLine(o.lines, i);
        }
      }
    }
  }

  function OrderSum(orders: map<Reference, Order>, p: ProductId, wh: WarehouseId): Reference -> int {
    (r: Reference) => OrderShare(orders, p, wh, r)
  }

  /** With no saga in flight, the reserved quantity of a balance is the sum over the live orders of its warehouse. */
  lemma ReservedIsWhatOrdersNeed(products: set<ProductId>, actions: seq<Action>, p: ProductId, wh: WarehouseId)
    requires CleanRun(Start(products), actions)
    ensures var w := Run(Start(products), actions);
            w.sagas == map[] ==>
              BalanceOf(w.stock, (p, wh)).reserved == SumSet(w.orders.Keys, OrderSum(w.orders, p, wh))
  {
    StartOk(products);
    BooksAlwaysBalance(Start(products), actions);
    var w := Run(Start(products), actions);
    if w.sagas == map[] {
      var ms := w.stock.movements;
      var all := Owners(ms) + w.orders.Keys;
      forall r
        ensures Outstanding(ms, p, wh, r) == OrderShare(w.orders, p, wh, r)
      {
        assert CleanRunOf(Start(products), actions, r);
        CleanRunsDoNotDrift(Start(products), actions, r);
        QuietMeansNothingInFlight(w, p, wh, r);
        assert Balanced(w, p, wh, r);
      }
      ReservedIsSumOfOwners(ms, all, p, wh);
      assert BalanceOf(w.stock, (p, wh)).reserved == ReservedSum(ms, p, wh);
      SameOn(all, OwnerShare(ms, p, wh), OrderSum(w.orders, p, wh));
      DropZeros(all, w.orders.Keys, OrderSum(w.orders, p, wh));
    }
  }

  /** With drift allowed: an order that is never stored keeps only what is booked as its drift. */
  lemma FailedCreationLeavesItsDrift(products: set<ProductId>, actions: seq<Action>, p: ProductId, wh: WarehouseId, r: Reference)
    ensures var w := Run(Start(products), actions);
            Quiet(w, r) && r !in w.orders
            ==> Outstanding(w.stock.movements, p, wh, r) == DriftAt(w, Place(p, wh, r))
  {
    StartOk(products);
    BooksAlwaysBalance(Start(products), actions);
    var w := Run(Start(products), actions);
    if Quiet(w, r) {
      QuietMeansNothingInFlight(w, p, wh, r);
      assert Balanced(w, p, wh, r);
    }
  }

  function Requests(ops: seq<StockOp>): seq<Action> {
    if ops == [] then [] else [StockRequest(ops[0])] + Requests(ops[1..])
  }

  /** Receipts, issues and transfers that others send while orders are in flight act on the ledger as they do alone. */
  lemma {:induction false} RequestsRunTheLedger(w: World, ops: seq<StockOp>)
    requires forall i :: 0 <= i < |ops| ==> ops[i].Receive? || ops[i].Issue? || ops[i].Transfer?
    ensures Run(w, Requests(ops)) == w.(stock := RunStock(w.stock, ops))
    decreases |ops|
  {
    if ops != [] {
      var w1 := Step(w, StockRequest(ops[0]));
      assert Requests(ops)[0] == StockRequest(ops[0]) && Requests(ops)[1..] == Requests(ops[1..]);
      assert w1 == w.(stock := Transact(w.stock, ops[0]));
      hide Step, Transact;
      RequestsRunTheLedger(w1, ops[1..]);
    }
  }
}
