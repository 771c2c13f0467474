/**
All or nothing, line by line: in every reachable world, whatever calls failed and however, the ledger holds each line
of an order or of a saga completely or not at all.  So a cancellation can rely on it, even of an order that lost lines
to earlier failures.
*/
module SagaLines {
  import opened Options
  import opened Faults
  import opened Ledger
  import opened LedgerRuns
  import opened Sagas
  import opened SagaBooks
  import opened OrderCalls

  ghost predicate Whole(l: Stock, r: Reference, wh: WarehouseId, lines: seq<Line>) {
    forall i :: 0 <= i < |lines| ==>
      var held := Outstanding(l.movements, lines[i].product, wh, r);
      held == 0 || held == lines[i].quantity
  }

  /** The order the saga works on, once it is stored. */
  predicate OfStoredOrder(w: World, s: Saga) {
    s.order in w.orders && w.orders[s.order].warehouse == s.warehouse && w.orders[s.order].lines == s.lines
  }

  ghost predicate Fresh(w: World, r: Reference) {
    forall p, wh :: Outstanding(w.stock.movements, p, wh, r) == 0
  }

  ghost predicate WholeLines(w: World) {
    && (forall r :: r in w.orders ==> Whole(w.stock, r, w.orders[r].warehouse, w.orders[r].lines))
    && (forall id :: id in w.sagas ==> Whole(w.stock, w.sagas[id].order, w.sagas[id].warehouse, w.sagas[id].lines))
    && (forall id :: id in w.sagas && (w.sagas[id].Cancelling? || w.sagas[id].Restoring?) ==> OfStoredOrder(w, w.sagas[id]))
    && (forall r :: r !in w.used ==> Fresh(w, r))
  }

  /** A call on one line of an order keeps the lines of every order whole. */
  lemma CallKeepsWhole(
      l: Stock, op: StockOp, fault: Fault, r: Reference, wh: WarehouseId, lines: seq<Line>, i: nat,
      r1: Reference, wh1: WarehouseId, lines1: seq<Line>)
    requires i < |lines| && LineOp(op, r, wh, lines, i) && ValidLines(lines)
    requires Whole(l, r1, wh1, lines1) && (r1 == r ==> wh1 == wh && lines1 == lines)
    ensures Whole(CallEffect(l, op, fault), r1, wh1, lines1)
  {
    hide CallEffect, Outstanding;
    forall k | 0 <= k < |lines1|
      ensures var held := Outstanding(CallEffect(l, op, fault).movements, lines1[k].product, wh1, r1);
              held == 0 || held == lines1[k].quantity
    {
      CallMoves(l, op, fault, lines1[k].product, wh1, r1);
    }
  }

  /** What a step of a saga does to the ledger: nothing, or one call on one of its lines. */
  ghost predicate OneCall(w: World, s: Saga, fault: Fault, w1: World, op: StockOp, i: nat) {
    i < |s.lines| && LineOp(op, s.order, s.warehouse, s.lines, i) && w1.stock == CallEffect(w.stock, op, fault)
  }

  lemma AdvanceCalls(w: World, id: SagaId, fault: Fault) returns (op: StockOp, i: nat)
    requires id in w.sagas
    ensures var w1 := AdvanceSaga(w, id, fault); w1.stock == w.stock || OneCall(w, w.sagas[id], fault, w1, op, i)
  {
    hide CallEffect, Raises, TakesEffect, DriftAt;
    var s := w.sagas[id];
    i := match s
         case Creating(_, _, _, done) => done
         case Undoing(_, _, _, left) => if left > 0 then left - 1 else 0
         case Cancelling(_, _, _, done) => done
         case Restoring(_, _, _, next, _) => next;
    if i < |s.lines| {
      op := if s.Creating? || s.Restoring? then ReserveCall(s, i) else ReleaseCall(s, i);
    } else {
      op := Receive(0, 0, 1, None);
    }
  }

  /** Two sagas on one order have the same lines, and so has the order. */
  lemma SameLines(w: World, s: Saga, t: Saga)
    requires SagaFits(w, s) && SagaFits(w, t) && s.order == t.order && Exclusive(s, t) && Exclusive(t, s)
    requires s.Cancelling? || s.Restoring? ==> OfStoredOrder(w, s)
    requires t.Cancelling? || t.Restoring? ==> OfStoredOrder(w, t)
    ensures t.warehouse == s.warehouse && t.lines == s.lines
  {
  }

  /** A call of saga `id`, before the saga itself moves on. */
  lemma CallKeepsLines(w: World, id: SagaId, op: StockOp, fault: Fault, i: nat)
    requires Shape(w) && WholeLines(w) && id in w.sagas && i < |w.sagas[id].lines|
    requires LineOp(op, w.sagas[id].order, w.sagas[id].warehouse, w.sagas[id].lines, i)
    ensures WholeLines(w.(stock := CallEffect(w.stock, op, fault)))
  {
    hide CallEffect, Outstanding, Whole, ValidLines;
    var s, w1 := w.sagas[id], w.(stock := CallEffect(w.stock, op, fault));
    assert SagaFits(w, s);
    forall r | r in w.orders
      ensures Whole(w1.stock, r, w.orders[r].warehouse, w.orders[r].lines)
    {
      CallKeepsWhole(w.stock, op, fault, s.order, s.warehouse, s.lines, i, r, w.orders[r].warehouse, w.orders[r].lines);
    }
    forall b | b in w.sagas
      ensures Whole(w1.stock, w.sagas[b].order, w.sagas[b].warehouse, w.sagas[b].lines)
    {
      var t := w.sagas[b];
      assert SagaFits(w, t);
      if t.order == s.order && b != id {
        assert Exclusive(s, t) && Exclusive(t, s);
        SameLines(w, s, t);
      }
      CallKeepsWhole(w.stock, op, fault, s.order, s.warehouse, s.lines, i, t.order, t.warehouse, t.lines);
    }
    forall r | r !in w.used
      ensures Fresh(w1, r)
    {
      OthersStayFresh(w, w1, op, fault, r);
    }
  }

  lemma AdvanceKeepsWhole(w: World, id: SagaId, fault: Fault)
    requires Shape(w) && WholeLines(w) && id in w.sagas
    ensures WholeLines(AdvanceSaga(w, id, fault))
  {
    var s, w1 := w.sagas[id], AdvanceSaga(w, id, fault);
    assert SagaFits(w, s);
    AdvanceMoves(w, id, fault);
    var op, i := AdvanceCalls(w, id, fault);
    hide AdvanceSaga, CallEffect, Shape, WholeLines, Moved, LineOp, SagaFits;
    if w1.stock != w.stock {
      CallKeepsLines(w, id, op, fault, i);
    } else {
      assert w.(stock := w1.stock) == w;
    }
    MoveKeepsLines(w, id, w1);
  }

  lemma OthersStayFresh(w: World, w1: World, op: StockOp, fault: Fault, r: Reference)
    requires Fresh(w, r) && (op.Reserve? || op.Release?) && op.owner != r && w1.stock == CallEffect(w.stock, op, fault)
    ensures Fresh(w1, r)
  {
    hide CallEffect, Outstanding;
    forall p, wh
      ensures Outstanding(w1.stock.movements, p, wh, r) == 0
    {
      CallMoves(w.stock, op, fault, p, wh, r);
      assert Outstanding(w.stock.movements, p, wh, r) == 0;
    }
  }

  /** With the ledger already moved on, the rest of a saga's step keeps the invariant. */
  lemma MoveKeepsLines(w: World, id: SagaId, w1: World)
    requires Shape(w) && id in w.sagas && Moved(w, id, w1) && WholeLines(w.(stock := w1.stock))
    ensures WholeLines(w1)
  {
    hide Whole, ValidLines, Outstanding;
    var s, v := w.sagas[id], w.(stock := w1.stock);
    assert SagaFits(w, s);
    forall r | r !in w1.used
      ensures Fresh(w1, r)
    {
      assert Fresh(v, r);
    }
    forall b | b in w1.sagas && (w1.sagas[b].Cancelling? || w1.sagas[b].Restoring?)
      ensures OfStoredOrder(w1, w1.sagas[b])
    {
      assert SagaFits(w, w.sagas[b]) && (b != id ==> Exclusive(s, w.sagas[b]));
      assert OfStoredOrder(v, w.sagas[b]);
    }
  }

  /** A step that leaves the outstanding quantities alone and starts or ends no commit. */
  lemma QuietStepKeepsWhole(w: World, w1: World)
    requires WholeLines(w)
    requires forall p, wh, r :: Outstanding(w1.stock.movements, p, wh, r) == Outstanding(w.stock.movements, p, wh, r)
    requires w1.orders == w.orders && w1.sagas == w.sagas && w1.used == w.used
    ensures WholeLines(w1)
  {
    hide Outstanding;
    forall r | r !in w.used
      ensures Fresh(w1, r)
    {
      assert Fresh(w, r);
    }
  }

  /** A request that starts: its lines are whole because they are the order's, or because the order is new. */
  lemma StartKeepsWhole(w: World, w1: World, id: SagaId, s: Saga)
    requires WholeLines(w) && id !in w.sagas && w1.sagas == w.sagas[id := s]
    requires w1.stock == w.stock && w1.orders == w.orders && w.used <= w1.used
    requires (s.Creating? && s.order !in w.used) || (s.Cancelling? && OfStoredOrder(w, s))
    ensures WholeLines(w1)
  {
    hide Outstanding;
    forall r | r !in w1.used
      ensures Fresh(w1, r)
    {
      assert Fresh(w, r);
    }
    assert s.Creating? ==> Fresh(w, s.order);
  }

  lemma ConfirmKeepsWhole(w: World, w1: World, r: Reference)
    requires WholeLines(w) && r in w.orders
    requires w1 == w.(orders := w.orders[r := w.orders[r].(status := CONFIRMED)])
    ensures WholeLines(w1)
  {
    hide Whole, Outstanding;
    forall r | r !in w.used
      ensures Fresh(w1, r)
    {
      assert Fresh(w, r);
    }
  }

  lemma StepKeepsWhole(w: World, a: Action)
    requires Shape(w) && WholeLines(w)
    ensures WholeLines(Step(w, a))
  {
    hide WholeLines, Shape, Transact, AdvanceSaga;
    var w1 := Step(w, a);
    match a
    case StockRequest(op) =>
      if OrdinaryStock(op) {
        forall p, wh, r
          ensures Outstanding(w1.stock.movements, p, wh, r) == Outstanding(w.stock.movements, p, wh, r)
        {
          OthersKeepOutstanding(w.stock, op, p, wh, r);
        }
        QuietStepKeepsWhole(w, w1);
      }
    case StartCreate(id, order, warehouse, lines) =>
      if w1 != w { StartKeepsWhole(w, w1, id, Creating(order, warehouse, lines, 0)); }
    case StartCancel(id, order) =>
      if w1 != w { StartKeepsWhole(w, w1, id, Cancelling(order, w.orders[order].warehouse, w.orders[order].lines, 0)); }
    case Confirm(order, _) =>
      if w1 != w { ConfirmKeepsWhole(w, w1, order); }
    case Advance(id, fault) =>
      if id in w.sagas { AdvanceKeepsWhole(w, id, fault); }
  }

  /** In every reachable world each line of an order is held whole or not at all, under every pattern of faults. */
  lemma {:induction false} LinesAreAllOrNothing(w: World, actions: seq<Action>)
    requires WorldOk(w) && WholeLines(w)
    ensures WorldOk(Run(w, actions)) && WholeLines(Run(w, actions))
    decreases |actions|
  {
    hide WorldOk, WholeLines, Step;
    if actions != [] {
      StepOk(w, actions[0]);
      assert Shape(w) by { assert WorldOk(w); ShapeOf(w); }
      StepKeepsWhole(w, actions[0]);
      LinesAreAllOrNothing(Step(w, actions[0]), actions[1..]);
    }
  }

  lemma ShapeOf(w: World)
    requires WorldOk(w)
    ensures Shape(w)
  {
  }

  /** What an order holds, for a cancellation to start from. */
  ghost function HeldLines(l: Stock, r: Reference, wh: WarehouseId, lines: seq<Line>): seq<bool> {
    seq(|lines|, i requires 0 <= i < |lines| => Outstanding(l.movements, lines[i].product, wh, r) != 0)
  }

  /** In every reachable world every stored order can be cancelled from what the ledger holds for it. */
  lemma CancellationCanStart(products: set<ProductId>, actions: seq<Action>, r: Reference)
    ensures var w := Run(Start(products), actions);
            r in w.orders ==>
              var Order(_, wh, lines) := w.orders[r];
              Midway(w.stock, w.stock, r, wh, lines, HeldLines(w.stock, r, wh, lines))
  {
    StartOk(products);
    LinesAreAllOrNothing(Start(products), actions);
    var w := Run(Start(products), actions);
    if r in w.orders {
      var Order(_, wh, lines) := w.orders[r];
      assert Whole(w.stock, r, wh, lines) && ValidLines(lines);
      hide Outstanding, StockOk;
    }
  }
}
