/**
The accounting identity behind the sagas: in every reachable world, under every fault and every interleaving, what
the ledger shows for an order is what the order table and the sagas in flight say, plus the recorded drift.
*/
module SagaBooks {
  import opened Options
  import opened Faults
  import opened Sums
  import opened Ledger
  import opened LedgerRuns
  import opened Sagas

  // ---------------------------------------------------------------- building blocks

  function Signed(op: StockOp): int {
    if op.Reserve? then op.quantity else if op.Release? then -(op.quantity as int) else 0
  }

  /** A call changes the outstanding quantity of its own order, product and warehouse, and only if it takes effect. */
  lemma CallMoves(l: Stock, op: StockOp, fault: Fault, p: ProductId, wh: WarehouseId, r: Reference)
    requires op.Reserve? || op.Release?
    ensures Outstanding(CallEffect(l, op, fault).movements, p, wh, r) ==
            Outstanding(l.movements, p, wh, r)
            + if TakesEffect(l, op, fault) && Concerns(op, p, wh, r) then Signed(op) else 0
  {
    if TakesEffect(l, op, fault) {
      PostSums(l.movements, Effect(l, op).movements[|l.movements|]);
    }
  }

  lemma SagaMoves(sagas: map<SagaId, Saga>, id: SagaId, s: Saga, p: ProductId, wh: WarehouseId, r: Reference)
    ensures InFlight(sagas[id := s], p, wh, r) ==
            InFlight(sagas, p, wh, r) + SagaPart(s, p, wh, r)
            - if id in sagas then SagaPart(sagas[id], p, wh, r) else 0
  {
    var f, g := SagaShare(sagas, p, wh, r), SagaShare(sagas[id := s], p, wh, r);
    assert sagas[id := s].Keys == sagas.Keys + {id};
    DropZeros(sagas.Keys + {id}, sagas.Keys, f);
    ChangeOne(sagas.Keys + {id}, f, g, id);
  }

  lemma SagaEnds(sagas: map<SagaId, Saga>, id: SagaId, p: ProductId, wh: WarehouseId, r: Reference)
    requires id in sagas
    ensures InFlight(sagas - {id}, p, wh, r) == InFlight(sagas, p, wh, r) - SagaPart(sagas[id], p, wh, r)
  {
    var f, g := SagaShare(sagas, p, wh, r), SagaShare(sagas - {id}, p, wh, r);
    assert (sagas - {id}).Keys == sagas.Keys - {id};
    TakeOut(sagas.Keys, f, id);
    SameOn(sagas.Keys - {id}, f, g);
  }

  lemma QtyStep(lines: seq<Line>, i: nat, p: ProductId)
    requires i < |lines|
    ensures Qty(lines[..i + 1], p) == Qty(lines[..i], p) + if lines[i].product == p then lines[i].quantity else 0
  {
    assert lines[..i + 1][..i] == lines[..i];
  }

  lemma QtyEnds(lines: seq<Line>, p: ProductId)
    ensures Qty(lines[..0], p) == 0 && Qty(lines[..|lines|], p) == Qty(lines, p)
  {
    assert lines[..|lines|] == lines;
  }

  /** A remote call keeps the books when the saga's part and the drift move by what the call did. */
  lemma CallBalances(
      w: World, id: SagaId, op: StockOp, fault: Fault, next: Saga, at: Place, drift: int,
      p: ProductId, wh: WarehouseId, r: Reference)
    requires id in w.sagas && (op.Reserve? || op.Release?) && Balanced(w, p, wh, r)
    requires at == Place(op.product, op.warehouse, op.owner)
    requires SagaPart(next, p, wh, r) - SagaPart(w.sagas[id], p, wh, r) + (if at == Place(p, wh, r) then drift else 0)
             == if TakesEffect(w.stock, op, fault) && Concerns(op, p, wh, r) then Signed(op) else 0
    ensures Balanced(Call(w, id, op, fault, next, at, drift), p, wh, r)
  {
    CallMoves(w.stock, op, fault, p, wh, r);
    SagaMoves(w.sagas, id, next, p, wh, r);
  }

  // ---------------------------------------------------------------- what each stage of a saga stands for

  /** The quantity of line `i` of the saga, seen at one product, warehouse and order. */
  function LinePart(s: Saga, i: nat, p: ProductId, wh: WarehouseId, r: Reference): nat
    requires i < |s.lines|
  {
    if s.order == r && s.warehouse == wh && s.lines[i].product == p then s.lines[i].quantity else 0
  }

  lemma CreatingPart(s: Saga, p: ProductId, wh: WarehouseId, r: Reference)
    requires s.Creating? && s.done <= |s.lines|
    ensures SagaPart(Undoing(s.order, s.warehouse, s.lines, s.done), p, wh, r) == SagaPart(s, p, wh, r)
    ensures s.done < |s.lines| ==>
              SagaPart(Creating(s.order, s.warehouse, s.lines, s.done + 1), p, wh, r)
              == SagaPart(s, p, wh, r) + LinePart(s, s.done, p, wh, r)
  {
    if s.done < |s.lines| { QtyStep(s.lines, s.done, p); }
  }

  lemma UndoingPart(s: Saga, p: ProductId, wh: WarehouseId, r: Reference)
    requires s.Undoing? && s.left <= |s.lines|
    ensures s.left == 0 ==> SagaPart(s, p, wh, r) == 0
    ensures s.left > 0 ==>
              SagaPart(Undoing(s.order, s.warehouse, s.lines, s.left - 1), p, wh, r)
              == SagaPart(s, p, wh, r) - LinePart(s, s.left - 1, p, wh, r)
  {
    if s.left > 0 { QtyStep(s.lines, s.left - 1, p); }
  }

  lemma CancellingPart(s: Saga, p: ProductId, wh: WarehouseId, r: Reference)
    requires s.Cancelling? && s.done <= |s.lines|
    ensures SagaPart(Restoring(s.order, s.warehouse, s.lines, 0, s.done), p, wh, r) == SagaPart(s, p, wh, r)
    ensures s.done < |s.lines| ==>
              SagaPart(Cancelling(s.order, s.warehouse, s.lines, s.done + 1), p, wh, r)
              == SagaPart(s, p, wh, r) - LinePart(s, s.done, p, wh, r)
  {
    if s.done < |s.lines| { QtyStep(s.lines, s.done, p); }
  }

  lemma RestoringPart(s: Saga, p: ProductId, wh: WarehouseId, r: Reference)
    requires s.Restoring? && s.next <= s.done <= |s.lines|
    ensures s.next == s.done ==> SagaPart(s, p, wh, r) == 0
    ensures s.next < s.done ==>
              SagaPart(Restoring(s.order, s.warehouse, s.lines, s.next + 1, s.done), p, wh, r)
              == SagaPart(s, p, wh, r) + LinePart(s, s.next, p, wh, r)
  {
    if s.next < s.done { QtyStep(s.lines, s.next, p); }
  }

  // ---------------------------------------------------------------- one saga step

  lemma CreateCommitBalances(w: World, id: SagaId, p: ProductId, wh: WarehouseId, r: Reference)
    requires id in w.sagas && w.sagas[id].Creating? && w.sagas[id].done == |w.sagas[id].lines|
    requires SagaFits(w, w.sagas[id]) && Balanced(w, p, wh, r)
    ensures Balanced(AdvanceCreating(w, id, Clean), p, wh, r)
  {
    var Creating(order, warehouse, lines, done) := w.sagas[id];
    QtyEnds(lines, p);
    assert order !in w.orders;
    hide Balanced, Qty, SagaFits;
    CommitBalances(w, id, Order(RESERVED, warehouse, lines), p, wh, r);
  }

  lemma CreatingBalances(w: World, id: SagaId, fault: Fault, p: ProductId, wh: WarehouseId, r: Reference)
    requires id in w.sagas && w.sagas[id].Creating? && SagaFits(w, w.sagas[id]) && Balanced(w, p, wh, r)
    ensures Balanced(AdvanceCreating(w, id, fault), p, wh, r)
  {
    var s := w.sagas[id];
    var Creating(order, warehouse, lines, done) := s;
    CreatingPart(s, p, wh, r);
    if done < |lines| {
      hide Balanced, SagaPart, Call, SagaFits, Check;
      var op := ReserveCall(s, done);
      if !Raises(w.stock, op, fault) {
        CallBalances(w, id, op, fault, Creating(order, warehouse, lines, done + 1), PlaceOf(s, done), 0, p, wh, r);
      } else {
        CallBalances(w, id, op, fault, Undoing(order, warehouse, lines, done), PlaceOf(s, done),
                     if TakesEffect(w.stock, op, fault) then lines[done].quantity else 0, p, wh, r);
      }
    } else if fault.Clean? {
      CreateCommitBalances(w, id, p, wh, r);
    } else {
      SwapBalances(w, id, Undoing(order, warehouse, lines, |lines|), p, wh, r);
    }
  }

  /** A local commit moves what the saga stood for into the order table. */
  lemma CommitBalances(w: World, id: SagaId, o: Order, p: ProductId, wh: WarehouseId, r: Reference)
    requires id in w.sagas && Balanced(w, p, wh, r)
    requires var order := w.sagas[id].order;
             OrderShare(w.orders[order := o], p, wh, r) == OrderShare(w.orders, p, wh, r) + SagaPart(w.sagas[id], p, wh, r)
    ensures Balanced(EndSaga(w, id).(orders := w.orders[w.sagas[id].order := o]), p, wh, r)
  {
    SagaEnds(w.sagas, id, p, wh, r);
  }

  /** A change of plan that moves no stock. */
  lemma SwapBalances(w: World, id: SagaId, next: Saga, p: ProductId, wh: WarehouseId, r: Reference)
    requires id in w.sagas && Balanced(w, p, wh, r)
    requires SagaPart(next, p, wh, r) == SagaPart(w.sagas[id], p, wh, r)
    ensures Balanced(SetSaga(w, id, next), p, wh, r)
  {
    SagaMoves(w.sagas, id, next, p, wh, r);
  }

  lemma UndoingBalances(w: World, id: SagaId, fault: Fault, p: ProductId, wh: WarehouseId, r: Reference)
    requires id in w.sagas && w.sagas[id].Undoing? && SagaFits(w, w.sagas[id]) && Balanced(w, p, wh, r)
    ensures Balanced(AdvanceUndoing(w, id, fault), p, wh, r)
  {
    var s := w.sagas[id];
    var Undoing(order, warehouse, lines, left) := s;
    UndoingPart(s, p, wh, r);
    hide Balanced, SagaPart, Call, SagaFits, Check, TakesEffect;
    if left > 0 {
      var op := ReleaseCall(s, left - 1);
      CallBalances(w, id, op, fault, Undoing(order, warehouse, lines, left - 1), PlaceOf(s, left - 1),
                   if TakesEffect(w.stock, op, fault) then 0 else lines[left - 1].quantity, p, wh, r);
    } else {
      EndBalances(w, id, p, wh, r);
    }
  }

  lemma EndBalances(w: World, id: SagaId, p: ProductId, wh: WarehouseId, r: Reference)
    requires id in w.sagas && Balanced(w, p, wh, r) && SagaPart(w.sagas[id], p, wh, r) == 0
    ensures Balanced(EndSaga(w, id), p, wh, r)
  {
    SagaEnds(w.sagas, id, p, wh, r);
  }

  lemma CancelCommitBalances(w: World, id: SagaId, p: ProductId, wh: WarehouseId, r: Reference)
    requires id in w.sagas && w.sagas[id].Cancelling? && w.sagas[id].done == |w.sagas[id].lines|
    requires SagaFits(w, w.sagas[id]) && Balanced(w, p, wh, r)
    ensures Balanced(AdvanceCancelling(w, id, Clean), p, wh, r)
  {
    var Cancelling(order, warehouse, lines, done) := w.sagas[id];
    QtyEnds(lines, p);
    hide Balanced, Qty;
    CommitBalances(w, id, w.orders[order].(status := CANCELLED), p, wh, r);
  }

  /** Booking a release: the part falls by the line, or the drift does, or nothing happened. */
  lemma ReleaseBalances(
      w: World, id: SagaId, i: nat, fault: Fault, next: Saga, drift: int, p: ProductId, wh: WarehouseId, r: Reference)
    requires id in w.sagas && i < |w.sagas[id].lines| && Balanced(w, p, wh, r)
    requires var s := w.sagas[id]; var q := s.lines[i].quantity; var fell := TakesEffect(w.stock, ReleaseCall(s, i), fault);
             || (fell && drift == 0 && SagaPart(next, p, wh, r) == SagaPart(s, p, wh, r) - LinePart(s, i, p, wh, r))
             || (fell && drift == -(q as int) && SagaPart(next, p, wh, r) == SagaPart(s, p, wh, r))
             || (!fell && drift == 0 && SagaPart(next, p, wh, r) == SagaPart(s, p, wh, r))
    ensures Balanced(Call(w, id, ReleaseCall(w.sagas[id], i), fault, next, PlaceOf(w.sagas[id], i), drift), p, wh, r)
  {
    hide Balanced, SagaPart, Call, TakesEffect;
    CallBalances(w, id, ReleaseCall(w.sagas[id], i), fault, next, PlaceOf(w.sagas[id], i), drift, p, wh, r);
  }

  /** Booking a re-reservation: the part rises by the line, and the drift falls by it if nothing happened. */
  lemma ReserveBalances(
      w: World, id: SagaId, i: nat, fault: Fault, next: Saga, drift: int, p: ProductId, wh: WarehouseId, r: Reference)
    requires id in w.sagas && i < |w.sagas[id].lines| && Balanced(w, p, wh, r)
    requires var s := w.sagas[id]; var q := s.lines[i].quantity; var rose := TakesEffect(w.stock, ReserveCall(s, i), fault);
             && SagaPart(next, p, wh, r) == SagaPart(s, p, wh, r) + LinePart(s, i, p, wh, r)
             && drift == if rose then 0 else -(q as int)
    ensures Balanced(Call(w, id, ReserveCall(w.sagas[id], i), fault, next, PlaceOf(w.sagas[id], i), drift), p, wh, r)
  {
    hide Balanced, SagaPart, Call, TakesEffect;
    CallBalances(w, id, ReserveCall(w.sagas[id], i), fault, next, PlaceOf(w.sagas[id], i), drift, p, wh, r);
  }

  lemma CancellingBalances(w: World, id: SagaId, fault: Fault, p: ProductId, wh: WarehouseId, r: Reference)
    requires id in w.sagas && w.sagas[id].Cancelling? && SagaFits(w, w.sagas[id]) && Balanced(w, p, wh, r)
    ensures Balanced(AdvanceCancelling(w, id, fault), p, wh, r)
  {
    var s := w.sagas[id];
    var Cancelling(order, warehouse, lines, done) := s;
    CancellingPart(s, p, wh, r);
    if done < |lines| {
      hide Balanced, SagaPart, LinePart, Call, SagaFits, Check;
      var fell := TakesEffect(w.stock, ReleaseCall(s, done), fault);
      if !Raises(w.stock, ReleaseCall(s, done), fault) {
        ReleaseBalances(w, id, done, fault, Cancelling(order, warehouse, lines, done + 1), 0, p, wh, r);
      } else {
        ReleaseBalances(w, id, done, fault, Restoring(order, warehouse, lines, 0, done),
                        if fell then -(lines[done].quantity as int) else 0, p, wh, r);
      }
    } else if fault.Clean? {
      CancelCommitBalances(w, id, p, wh, r);
    } else {
      SwapBalances(w, id, Restoring(order, warehouse, lines, 0, |lines|), p, wh, r);
    }
  }

  lemma RestoringBalances(w: World, id: SagaId, fault: Fault, p: ProductId, wh: WarehouseId, r: Reference)
    requires id in w.sagas && w.sagas[id].Restoring? && SagaFits(w, w.sagas[id]) && Balanced(w, p, wh, r)
    ensures Balanced(AdvanceRestoring(w, id, fault), p, wh, r)
  {
    var s := w.sagas[id];
    var Restoring(order, warehouse, lines, next, done) := s;
    assert next <= done <= |lines|;
    RestoringPart(s, p, wh, r);
    hide Balanced, SagaPart, LinePart, Call, SagaFits, TakesEffect, ReserveCall, PlaceOf, EndSaga;
    if next < done {
      ReserveBalances(w, id, next, fault, Restoring(order, warehouse, lines, next + 1, done),
                      if TakesEffect(w.stock, ReserveCall(s, next), fault) then 0 else -(lines[next].quantity as int),
                      p, wh, r);
    } else {
      EndBalances(w, id, p, wh, r);
    }
  }

  // ---------------------------------------------------------------- every step, every run

  lemma AdvanceBalances(w: World, id: SagaId, fault: Fault, p: ProductId, wh: WarehouseId, r: Reference)
    requires Shape(w) && id in w.sagas && Balanced(w, p, wh, r)
    ensures Balanced(AdvanceSaga(w, id, fault), p, wh, r)
  {
    assert SagaFits(w, w.sagas[id]);
    hide Shape, SagaFits, Balanced, AdvanceCreating, AdvanceUndoing, AdvanceCancelling, AdvanceRestoring;
    match w.sagas[id]
    case Creating(_, _, _, _) => CreatingBalances(w, id, fault, p, wh, r);
    case Undoing(_, _, _, _) => UndoingBalances(w, id, fault, p, wh, r);
    case Cancelling(_, _, _, _) => CancellingBalances(w, id, fault, p, wh, r);
    case Restoring(_, _, _, _, _) => RestoringBalances(w, id, fault, p, wh, r);
  }

  lemma StepBalances(w: World, a: Action, p: ProductId, wh: WarehouseId, r: Reference)
    requires Shape(w) && Balanced(w, p, wh, r)
    ensures Balanced(Step(w, a), p, wh, r)
  {
    match a
    case StockRequest(op) =>
      if OrdinaryStock(op) { OthersKeepOutstanding(w.stock, op, p, wh, r); }
    case StartCreate(id, order, warehouse, lines) =>
      if Step(w, a) != w { SagaMoves(w.sagas, id, Creating(order, warehouse, lines, 0), p, wh, r); }
    case StartCancel(id, order) =>
      if Step(w, a) != w {
        SagaMoves(w.sagas, id, Cancelling(order, w.orders[order].warehouse, w.orders[order].lines, 0), p, wh, r);
      }
    case Confirm(order, commits) =>
    case Advance(id, fault) =>
      if id in w.sagas {
        hide Balanced, AdvanceSaga;
        AdvanceBalances(w, id, fault, p, wh, r);
      }
  }

  /** A saga that moves on without touching the order table. */
  lemma SetKeepsShape(w: World, w1: World, id: SagaId, next: Saga)
    requires Shape(w) && id in w.sagas && SagaFits(w, next)
    requires w1.orders == w.orders && w1.used == w.used && w1.sagas == w.sagas[id := next]
    requires next.order == w.sagas[id].order
    requires next.Restoring? || (next.Creating? && w.sagas[id].Creating?) || (next.Cancelling? && w.sagas[id].Cancelling?)
             || (next.Undoing? && (w.sagas[id].Creating? || w.sagas[id].Undoing?))
    ensures Shape(w1)
  {
  }

  lemma EndKeepsShape(w: World, w1: World, id: SagaId)
    requires Shape(w) && id in w.sagas
    requires w1.orders == w.orders && w1.used == w.used && w1.sagas == w.sagas - {id}
    ensures Shape(w1)
  {
  }

  /** A saga that ends with a commit. */
  lemma CommitKeepsShape(w: World, w1: World, id: SagaId, status: OrderStatus)
    requires Shape(w) && id in w.sagas && status != PENDING
    requires w.sagas[id].Creating? || w.sagas[id].Cancelling?
    requires w1.used == w.used && w1.sagas == w.sagas - {id}
    requires w1.orders == w.orders[w.sagas[id].order := Order(status, w.sagas[id].warehouse, w.sagas[id].lines)]
    ensures Shape(w1)
  {
    var s := w.sagas[id];
    assert SagaFits(w, s);
    forall b | b in w1.sagas
      ensures SagaFits(w1, w1.sagas[b])
    {
      assert SagaFits(w, w.sagas[b]) && Exclusive(s, w.sagas[b]) && Exclusive(w.sagas[b], s);
    }
  }

  /** Where one step can take saga `id` and the order table. */
  ghost predicate Moved(w: World, id: SagaId, w1: World)
    requires id in w.sagas
  {
    var s := w.sagas[id];
    && w1.used == w.used
    && if id in w1.sagas then
         var next := w1.sagas[id];
         && w1.sagas == w.sagas[id := next] && w1.orders == w.orders
         && Bounded(next) && next.order == s.order && next.lines == s.lines && next.warehouse == s.warehouse
         && (next.Restoring? ==> s.Restoring? || s.Cancelling?) && (next.Creating? ==> s.Creating?)
         && (next.Cancelling? ==> s.Cancelling?) && (next.Undoing? ==> s.Creating? || s.Undoing?)
       else
         && w1.sagas == w.sagas - {id}
         && (w1.orders == w.orders
             || (s.Creating? && w1.orders == w.orders[s.order := Order(RESERVED, s.warehouse, s.lines)])
             || (s.Cancelling? && w1.orders == w.orders[s.order := Order(CANCELLED, s.warehouse, s.lines)]))
  }

  lemma AdvanceMoves(w: World, id: SagaId, fault: Fault)
    requires id in w.sagas && SagaFits(w, w.sagas[id])
    ensures Moved(w, id, AdvanceSaga(w, id, fault))
  {
    hide CallEffect, Raises, TakesEffect, DriftAt, ValidLines;
    match w.sagas[id]
    case Creating(_, _, _, _) => assert Moved(w, id, AdvanceCreating(w, id, fault));
    case Undoing(_, _, _, _) => assert Moved(w, id, AdvanceUndoing(w, id, fault));
    case Cancelling(_, _, _, _) => assert Moved(w, id, AdvanceCancelling(w, id, fault));
    case Restoring(_, _, _, _, _) => assert Moved(w, id, AdvanceRestoring(w, id, fault));
  }

  lemma AdvanceKeepsShape(w: World, id: SagaId, fault: Fault)
    requires Shape(w) && id in w.sagas
    ensures Shape(AdvanceSaga(w, id, fault))
  {
    var s := w.sagas[id];
    var w1 := AdvanceSaga(w, id, fault);
    assert SagaFits(w, s);
    AdvanceMoves(w, id, fault);
    hide Shape, AdvanceSaga, ValidLines;
    if id in w1.sagas {
      SetKeepsShape(w, w1, id, w1.sagas[id]);
    } else if w1.orders == w.orders {
      EndKeepsShape(w, w1, id);
    } else {
      CommitKeepsShape(w, w1, id, if s.Creating? then RESERVED else CANCELLED);
    }
  }

  lemma StepKeepsShape(w: World, a: Action)
    requires Shape(w)
    ensures Shape(Step(w, a))
  {
    if a.Advance? {
      if a.saga in w.sagas { AdvanceKeepsShape(w, a.saga, a.fault); }
    } else {
      hide AdvanceSaga, Transact;
      var w1 := Step(w, a);
      forall b | b in w.sagas
        ensures SagaFits(w1, w.sagas[b])
        ensures w1 != w && (a.StartCreate? || a.StartCancel?) ==>
                  Exclusive(w1.sagas[a.saga], w.sagas[b]) && Exclusive(w.sagas[b], w1.sagas[a.saga])
      {
        assert SagaFits(w, w.sagas[b]);
      }
    }
  }

  lemma CallKeepsStock(l: Stock, op: StockOp, fault: Fault)
    requires StockOk(l)
    ensures StockOk(CallEffect(l, op, fault))
  {
    TransactOk(l, op);
    hide StockOk, Effect, Check;
  }

  lemma StepKeepsStock(w: World, a: Action)
    requires StockOk(w.stock)
    ensures StockOk(Step(w, a).stock)
  {
    hide StockOk, CallEffect, Check, Transact;
    if a.StockRequest? {
      TransactOk(w.stock, a.op);
    } else if a.Advance? && a.saga in w.sagas {
      var s := w.sagas[a.saga];
      if s.Creating? && s.done < |s.lines| { CallKeepsStock(w.stock, ReserveCall(s, s.done), a.fault); }
      if s.Undoing? && 0 < s.left <= |s.lines| { CallKeepsStock(w.stock, ReleaseCall(s, s.left - 1), a.fault); }
      if s.Cancelling? && s.done < |s.lines| { CallKeepsStock(w.stock, ReleaseCall(s, s.done), a.fault); }
      if s.Restoring? && s.next < s.done <= |s.lines| { CallKeepsStock(w.stock, ReserveCall(s, s.next), a.fault); }
    }
  }

  ghost predicate WorldOk(w: World) {
    Shape(w) && StockOk(w.stock) && forall p, wh, r :: Balanced(w, p, wh, r)
  }

  lemma StartOk(products: set<ProductId>)
    ensures WorldOk(Start(products))
  {
  }

  lemma StepOk(w: World, a: Action)
    requires WorldOk(w)
    ensures WorldOk(Step(w, a))
  {
    StepKeepsShape(w, a);
    StepKeepsStock(w, a);
    forall p, wh, r
      ensures Balanced(Step(w, a), p, wh, r)
    {
      StepBalances(w, a, p, wh, r);
    }
  }

  /** The identity holds in every reachable world, whatever calls failed and however. */
  lemma {:induction false} BooksAlwaysBalance(w: World, actions: seq<Action>)
    requires WorldOk(w)
    ensures WorldOk(Run(w, actions))
    decreases |actions|
  {
    if actions != [] {
      StepOk(w, actions[0]);
      BooksAlwaysBalance(Step(w, actions[0]), actions[1..]);
    }
  }
}
