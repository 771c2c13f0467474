/**
What a failed creation leaves behind when any number of requests interleave and any calls fail in any way: exactly the
lines that its own calls leaked.  A compensating release is never refused, whatever happened to other orders.
*/
module SagaLeaks {
  import opened Options
  import opened Faults
  import opened Sums
  import opened Ledger
  import opened LedgerRuns
  import opened Sagas
  import opened SagaBooks
  import opened SagaRuns
  import opened OrderCalls

  // ---------------------------------------------------------------- the sign of the drift

  predicate InCreation(s: Saga) {
    s.Creating? || s.Undoing?
  }

  /** An order not begun has no drift, and one in creation has only ever kept too much. */
  ghost predicate DriftOk(w: World) {
    && (forall at: Place :: at.order !in w.used ==> DriftAt(w, at) == 0)
    && (forall id, at: Place :: id in w.sagas && InCreation(w.sagas[id]) && at.order == w.sagas[id].order ==>
          DriftAt(w, at) >= 0)
  }

  /** From `w` to `w1` the drift moved at most at one place of the saga's order, and only upwards in creation. */
  ghost predicate DriftMoved(w: World, w1: World, s: Saga, place: Place, amount: int) {
    && place.order == s.order && (InCreation(s) ==> amount >= 0)
    && forall at :: DriftAt(w1, at) == DriftAt(w, at) + if at == place then amount else 0
  }

  /** Where the next call of a saga books its drift. */
  function CallPlace(s: Saga): Place {
    var i: nat := match s
      case Creating(_, _, _, done) => done
      case Undoing(_, _, _, left) => if left > 0 then left - 1 else 0
      case Cancelling(_, _, _, done) => done
      case Restoring(_, _, _, next, _) => next;
    if i < |s.lines| then PlaceOf(s, i) else Place(0, 0, s.order)
  }

  ghost predicate DriftsAtCall(w: World, w1: World, s: Saga) {
    DriftMoved(w, w1, s, CallPlace(s), DriftAt(w1, CallPlace(s)) - DriftAt(w, CallPlace(s)))
  }

  lemma CreatingDrifts(w: World, id: SagaId, fault: Fault)
    requires id in w.sagas && w.sagas[id].Creating?
    ensures DriftsAtCall(w, AdvanceCreating(w, id, fault), w.sagas[id])
  {
    hide CallEffect, Raises, TakesEffect;
  }

  lemma UndoingDrifts(w: World, id: SagaId, fault: Fault)
    requires id in w.sagas && w.sagas[id].Undoing?
    ensures DriftsAtCall(w, AdvanceUndoing(w, id, fault), w.sagas[id])
  {
    hide CallEffect, Raises, TakesEffect;
  }

  lemma CancellingDrifts(w: World, id: SagaId, fault: Fault)
    requires id in w.sagas && w.sagas[id].Cancelling?
    ensures DriftsAtCall(w, AdvanceCancelling(w, id, fault), w.sagas[id])
  {
    hide CallEffect, Raises, TakesEffect;
  }

  lemma RestoringDrifts(w: World, id: SagaId, fault: Fault)
    requires id in w.sagas && w.sagas[id].Restoring?
    ensures DriftsAtCall(w, AdvanceRestoring(w, id, fault), w.sagas[id])
  {
    hide CallEffect, Raises, TakesEffect;
  }

  /** What one step of a saga books as drift. */
  lemma AdvanceDrifts(w: World, id: SagaId, fault: Fault) returns (place: Place, amount: int)
    requires id in w.sagas
    ensures DriftMoved(w, AdvanceSaga(w, id, fault), w.sagas[id], place, amount)
  {
    hide DriftMoved, AdvanceCreating, AdvanceUndoing, AdvanceCancelling, AdvanceRestoring, DriftAt, CallPlace;
    var s := w.sagas[id];
    place := CallPlace(s);
    amount := DriftAt(AdvanceSaga(w, id, fault), place) - DriftAt(w, place);
    match s
    case Creating(_, _, _, _) => CreatingDrifts(w, id, fault);
    case Undoing(_, _, _, _) => UndoingDrifts(w, id, fault);
    case Cancelling(_, _, _, _) => CancellingDrifts(w, id, fault);
    case Restoring(_, _, _, _, _) => RestoringDrifts(w, id, fault);
  }

  lemma StepKeepsDriftOk(w: World, a: Action)
    requires Shape(w) && DriftOk(w)
    ensures DriftOk(Step(w, a))
  {
    var w1 := Step(w, a);
    if a.Advance? && a.saga in w.sagas {
      var s := w.sagas[a.saga];
      assert SagaFits(w, s);
      AdvanceMoves(w, a.saga, a.fault);
      var place, amount := AdvanceDrifts(w, a.saga, a.fault);
      hide AdvanceSaga, DriftAt, ValidLines, Bounded;
      forall id, at: Place | id in w1.sagas && InCreation(w1.sagas[id]) && at.order == w1.sagas[id].order
        ensures DriftAt(w1, at) >= 0
      {
        var t := w.sagas[id];
        assert InCreation(t) && t.order == w1.sagas[id].order;
        assert DriftAt(w, at) >= 0;
        if id != a.saga {
          assert SagaFits(w, t) && Exclusive(s, t) && Exclusive(t, s);
        }
      }
    } else {
      hide AdvanceSaga, Transact, CallEffect, ValidLines;
      assert w1.drift == w.drift;
      assert forall at :: DriftAt(w1, at) == DriftAt(w, at);
    }
  }

  lemma {:induction false} RunsKeepDriftOk(w: World, actions: seq<Action>)
    requires WorldOk(w) && DriftOk(w)
    ensures WorldOk(Run(w, actions)) && DriftOk(Run(w, actions))
    decreases |actions|
  {
    hide DriftOk, Step, Shape, StockOk, Balanced;
    if actions != [] {
      StepOk(w, actions[0]);
      StepKeepsDriftOk(w, actions[0]);
      RunsKeepDriftOk(Step(w, actions[0]), actions[1..]);
    }
  }

  /** A release that undoes a creation finds at least its line reserved. */
  lemma UndoHoldsItsLine(w: World, id: SagaId)
    requires WorldOk(w) && DriftOk(w) && id in w.sagas && w.sagas[id].Undoing? && w.sagas[id].left > 0
    ensures w.sagas[id].left <= |w.sagas[id].lines|
    ensures Check(w.stock, ReleaseCall(w.sagas[id], w.sagas[id].left - 1)).None?
  {
    var s := w.sagas[id];
    var i := s.left - 1;
    assert SagaFits(w, s);
    var p, wh, r := s.lines[i].product, s.warehouse, s.order;
    assert Balanced(w, p, wh, r);
    OnlySagaOfOrder(w, id, p, wh, r);
    QtyStep(s.lines, i, p);
    assert DriftAt(w, Place(p, wh, r)) >= 0;
    ReleaseAcceptedUpToOutstanding(w.stock, p, wh, s.lines[i].quantity, r);
  }

  /** Of an order in creation only its own saga is in flight. */
  lemma OnlySagaOfOrder(w: World, id: SagaId, p: ProductId, wh: WarehouseId, r: Reference)
    requires Shape(w) && id in w.sagas && InCreation(w.sagas[id]) && w.sagas[id].order == r
    ensures InFlight(w.sagas, p, wh, r) == SagaPart(w.sagas[id], p, wh, r)
  {
    var s := w.sagas[id];
    assert SagaFits(w, s);
    forall other | other in w.sagas && other != id
      ensures SagaShare(w.sagas, p, wh, r)(other) == 0
    {
      NoOtherSaga(w, id, other);
    }
    DropZeros(w.sagas.Keys, {id}, SagaShare(w.sagas, p, wh, r));
    TakeOut({id}, SagaShare(w.sagas, p, wh, r), id);
    SumSetZero({id} - {id}, SagaShare(w.sagas, p, wh, r));
  }

  /**
  The compensation of a failed creation is never refused: after any run, whatever calls of whatever orders failed and
  however, a release that reaches the ledger takes effect, so it can only fail by raising.
  */
  lemma UndoIsNeverRefused(products: set<ProductId>, actions: seq<Action>, id: SagaId)
    ensures var w := Run(Start(products), actions);
            id in w.sagas && w.sagas[id].Undoing? && w.sagas[id].left > 0 ==>
              && w.sagas[id].left <= |w.sagas[id].lines|
              && Check(w.stock, ReleaseCall(w.sagas[id], w.sagas[id].left - 1)).None?
  {
    StartOk(products);
    RunsKeepDriftOk(Start(products), actions);
    var w := Run(Start(products), actions);
    if id in w.sagas && w.sagas[id].Undoing? && w.sagas[id].left > 0 {
      UndoHoldsItsLine(w, id);
    }
  }

  // ---------------------------------------------------------------- the lines a failed creation leaves

  /**
  The line that a step's own call leaks: a reservation that the ledger accepted but that raised, or a release that
  raised without having reached the ledger.
  */
  function LeakOf(w: World, a: Action, r: Reference): set<nat> {
    if !a.Advance? || a.saga !in w.sagas || w.sagas[a.saga].order != r then {}
    else
      var s := w.sagas[a.saga];
      match s
      case Creating(_, _, lines, done) =>
        if done < |lines| && a.fault.RaisesAfter? && Check(w.stock, ReserveCall(s, done)).None? then {done} else {}
      case Undoing(_, _, lines, left) =>
        if 0 < left <= |lines| && a.fault.RaisesBefore? then {left - 1} else {}
      case _ => {}
  }

  ghost function Leaks(w: World, actions: seq<Action>, r: Reference): set<nat>
    decreases |actions|
  {
    if actions == [] then {} else LeakOf(w, actions[0], r) + Leaks(Step(w, actions[0]), actions[1..], r)
  }

  /** The drift of order `r` is the leaked lines, each with its whole quantity. */
  ghost predicate DriftIsLeaks(w: World, r: Reference, wh: WarehouseId, lines: seq<Line>, leaks: set<nat>) {
    && (forall k :: 0 <= k < |lines| ==>
          DriftAt(w, Place(lines[k].product, wh, r)) == if k in leaks then lines[k].quantity else 0)
    && (forall p, x :: x != wh || !Mentions(lines, p) ==> DriftAt(w, Place(p, x, r)) == 0)
  }

  /** Where the saga of order `r` may stand once it has leaked these lines. */
  predicate LeaksFit(s: Saga, wh: WarehouseId, lines: seq<Line>, leaks: set<nat>) {
    && s.warehouse == wh && s.lines == lines
    && (s.Creating? ==> leaks == {})
    && (s.Undoing? ==> forall k :: k in leaks ==> k >= s.left)
  }

  ghost predicate LeakState(w: World, r: Reference, wh: WarehouseId, lines: seq<Line>, leaks: set<nat>) {
    && r in w.used
    && (r !in w.orders ==>
          && DriftIsLeaks(w, r, wh, lines, leaks)
          && forall id :: id in w.sagas && w.sagas[id].order == r ==> LeaksFit(w.sagas[id], wh, lines, leaks))
  }

  /** From `w` to `w1` the drift moved by the leaked line `k`, if there is one. */
  ghost predicate BooksLeak(w: World, w1: World, s: Saga, leak: set<nat>, k: nat) {
    || (leak == {} && forall at :: DriftAt(w1, at) == DriftAt(w, at))
    || (&& leak == {k} && k < |s.lines|
        && forall at :: DriftAt(w1, at) == DriftAt(w, at) + if at == PlaceOf(s, k) then s.lines[k].quantity else 0)
  }

  lemma CreatingBooksLeak(w: World, id: SagaId, fault: Fault)
    requires id in w.sagas && w.sagas[id].Creating?
    ensures var s := w.sagas[id];
            BooksLeak(w, AdvanceCreating(w, id, fault), s, LeakOf(w, Advance(id, fault), s.order), s.done)
  {
    hide CallEffect, Check;
  }

  lemma UndoingBooksLeak(w: World, id: SagaId, fault: Fault)
    requires id in w.sagas && w.sagas[id].Undoing? && w.sagas[id].left <= |w.sagas[id].lines|
    requires w.sagas[id].left > 0 ==> Check(w.stock, ReleaseCall(w.sagas[id], w.sagas[id].left - 1)).None?
    ensures var s := w.sagas[id];
            BooksLeak(w, AdvanceUndoing(w, id, fault), s, LeakOf(w, Advance(id, fault), s.order),
                      if s.left > 0 then s.left - 1 else 0)
  {
    hide CallEffect, Check;
  }

  /** A step of a saga in creation books exactly the line it leaks. */
  lemma OwnStepDrift(w: World, id: SagaId, fault: Fault) returns (k: nat)
    requires WorldOk(w) && DriftOk(w) && id in w.sagas && InCreation(w.sagas[id])
    ensures var s := w.sagas[id];
            BooksLeak(w, AdvanceSaga(w, id, fault), s, LeakOf(w, Advance(id, fault), s.order), k)
  {
    var s := w.sagas[id];
    assert SagaFits(w, s);
    hide BooksLeak, LeakOf, AdvanceCreating, AdvanceUndoing, Check;
    if s.Creating? {
      k := s.done;
      CreatingBooksLeak(w, id, fault);
    } else {
      k := if s.left > 0 then s.left - 1 else 0;
      if s.left > 0 {
        UndoHoldsItsLine(w, id);
      }
      hide WorldOk, DriftOk;
      UndoingBooksLeak(w, id, fault);
    }
  }

  lemma OneMoreLeak(w: World, w1: World, r: Reference, wh: WarehouseId, lines: seq<Line>, leaks: set<nat>, k: nat)
    requires DriftIsLeaks(w, r, wh, lines, leaks) && ValidLines(lines) && k < |lines| && k !in leaks
    requires forall at :: DriftAt(w1, at)
                          == DriftAt(w, at) + if at == Place(lines[k].product, wh, r) then lines[k].quantity else 0
    ensures DriftIsLeaks(w1, r, wh, lines, leaks + {k})
  {
    hide DriftAt;
  }

  /** Where the saga stands after its step. */
  lemma OwnStepFits(w: World, id: SagaId, fault: Fault, wh: WarehouseId, lines: seq<Line>, leaks: set<nat>)
    requires id in w.sagas && InCreation(w.sagas[id]) && LeaksFit(w.sagas[id], wh, lines, leaks)
    ensures id in AdvanceSaga(w, id, fault).sagas ==>
              LeaksFit(AdvanceSaga(w, id, fault).sagas[id], wh, lines,
                       leaks + LeakOf(w, Advance(id, fault), w.sagas[id].order))
  {
    hide CallEffect, Check;
    if w.sagas[id].Creating? {
      assert AdvanceSaga(w, id, fault) == AdvanceCreating(w, id, fault);
    } else {
      assert AdvanceSaga(w, id, fault) == AdvanceUndoing(w, id, fault);
    }
  }

  /** The step of the saga that creates `r`. */
  lemma OwnStepLeaks(
      w: World, id: SagaId, fault: Fault, r: Reference, wh: WarehouseId, lines: seq<Line>, leaks: set<nat>)
    requires WorldOk(w) && DriftOk(w) && LeakState(w, r, wh, lines, leaks) && ValidLines(lines)
    requires id in w.sagas && w.sagas[id].order == r && r !in w.orders
    ensures DriftIsLeaks(AdvanceSaga(w, id, fault), r, wh, lines, leaks + LeakOf(w, Advance(id, fault), r))
    ensures id in AdvanceSaga(w, id, fault).sagas ==>
              LeaksFit(AdvanceSaga(w, id, fault).sagas[id], wh, lines, leaks + LeakOf(w, Advance(id, fault), r))
  {
    var s, w1 := w.sagas[id], AdvanceSaga(w, id, fault);
    assert SagaFits(w, s) && LeaksFit(s, wh, lines, leaks);
    OwnStepFits(w, id, fault, wh, lines, leaks);
    var k := OwnStepDrift(w, id, fault);
    var leak := LeakOf(w, Advance(id, fault), r);
    assert leak == {k} ==> k !in leaks;
    hide WorldOk, DriftOk, AdvanceSaga, LeakOf, DriftAt, ValidLines, LeaksFit;
    if leak == {} {
      assert leaks + leak == leaks;
    } else {
      OneMoreLeak(w, w1, r, wh, lines, leaks, k);
    }
  }

  /** While an order is in creation no other saga works on it. */
  lemma NoOtherSaga(w: World, id: SagaId, other: SagaId)
    requires Shape(w) && id in w.sagas && InCreation(w.sagas[id]) && other in w.sagas && other != id
    ensures w.sagas[other].order != w.sagas[id].order
  {
    var s, t := w.sagas[id], w.sagas[other];
    assert SagaFits(w, s) && SagaFits(w, t);
    assert Exclusive(s, t);
  }

  lemma OrdersStay(w: World, a: Action, r: Reference)
    requires Shape(w) && r in w.orders
    ensures r in Step(w, a).orders
  {
    hide Transact, CallEffect, Raises, TakesEffect, ValidLines;
    if a.Advance? && a.saga in w.sagas {
      assert SagaFits(w, w.sagas[a.saga]);
      AdvanceMoves(w, a.saga, a.fault);
      hide AdvanceSaga;
    }
  }

  lemma StepLeaks(w: World, a: Action, r: Reference, wh: WarehouseId, lines: seq<Line>, leaks: set<nat>)
    requires WorldOk(w) && DriftOk(w) && LeakState(w, r, wh, lines, leaks) && ValidLines(lines)
    ensures LeakState(Step(w, a), r, wh, lines, leaks + LeakOf(w, a, r))
  {
    var w1 := Step(w, a);
    if r in w.orders {
      OrdersStay(w, a, r);
      StepKeepsUsed(w, a);
    } else if a.Advance? && a.saga in w.sagas {
      AdvanceLeaks(w, a.saga, a.fault, r, wh, lines, leaks);
    } else {
      hide AdvanceSaga, Transact, CallEffect, ValidLines, RowLocked;
      assert w1.drift == w.drift && leaks + LeakOf(w, a, r) == leaks;
      assert forall at :: DriftAt(w1, at) == DriftAt(w, at);
    }
  }

  lemma StepKeepsUsed(w: World, a: Action)
    ensures w.used <= Step(w, a).used
  {
    hide Transact, CallEffect, Raises, TakesEffect, ValidLines;
  }

  lemma AdvanceLeaks(
      w: World, id: SagaId, fault: Fault, r: Reference, wh: WarehouseId, lines: seq<Line>, leaks: set<nat>)
    requires WorldOk(w) && DriftOk(w) && LeakState(w, r, wh, lines, leaks) && ValidLines(lines)
    requires id in w.sagas && r !in w.orders
    ensures LeakState(AdvanceSaga(w, id, fault), r, wh, lines, leaks + LeakOf(w, Advance(id, fault), r))
  {
    var s, w1 := w.sagas[id], AdvanceSaga(w, id, fault);
    assert SagaFits(w, s);
    AdvanceMoves(w, id, fault);
    if r in w1.orders {
    } else if s.order == r {
      OwnStepLeaks(w, id, fault, r, wh, lines, leaks);
      hide AdvanceSaga, DriftIsLeaks, LeaksFit, ValidLines, LeakOf;
      forall b | b in w.sagas && b != id
        ensures w.sagas[b].order != r
      {
        NoOtherSaga(w, id, b);
      }
    } else {
      var place, amount := AdvanceDrifts(w, id, fault);
      hide AdvanceSaga, DriftAt, LeaksFit, ValidLines;
      assert leaks + LeakOf(w, Advance(id, fault), r) == leaks;
      assert forall p, x :: Place(p, x, r) != place;
    }
  }

  lemma {:induction false} RunLeaks(
      w: World, actions: seq<Action>, r: Reference, wh: WarehouseId, lines: seq<Line>, leaks: set<nat>)
    requires WorldOk(w) && DriftOk(w) && LeakState(w, r, wh, lines, leaks) && ValidLines(lines)
    ensures WorldOk(Run(w, actions)) && LeakState(Run(w, actions), r, wh, lines, leaks + Leaks(w, actions, r))
    decreases |actions|
  {
    hide DriftOk, Step, Shape, StockOk, Balanced, LeakState, LeakOf, ValidLines;
    if actions == [] {
      assert leaks + Leaks(w, actions, r) == leaks;
    } else {
      var leak, w1 := LeakOf(w, actions[0], r), Step(w, actions[0]);
      StepOk(w, actions[0]);
      assert Shape(w);
      StepKeepsDriftOk(w, actions[0]);
      StepLeaks(w, actions[0], r, wh, lines, leaks);
      RunLeaks(w1, actions[1..], r, wh, lines, leaks + leak);
      assert leaks + leak + Leaks(w1, actions[1..], r) == leaks + Leaks(w, actions, r);
    }
  }

  /**
  A creation that ended without storing its order leaves exactly the lines its own calls leaked, each reserved with its
  whole quantity, whatever other requests did and however their calls failed.
  */
  lemma FailedCreationLeavesItsLeaks(
      products: set<ProductId>, before: seq<Action>, id: SagaId, r: Reference, wh: WarehouseId, lines: seq<Line>,
      after: seq<Action>)
    requires var w0 := Run(Start(products), before); id !in w0.sagas && r !in w0.used && ValidLines(lines)
    ensures var w1 := Step(Run(Start(products), before), StartCreate(id, r, wh, lines));
            var w, leaks := Run(w1, after), Leaks(w1, after, r);
            Quiet(w, r) && r !in w.orders ==>
              && (forall k :: 0 <= k < |lines| ==>
                    Outstanding(w.stock.movements, lines[k].product, wh, r) == if k in leaks then lines[k].quantity else 0)
              && (forall p, x :: x != wh || !Mentions(lines, p) ==> Outstanding(w.stock.movements, p, x, r) == 0)
  {
    var w0 := Run(Start(products), before);
    var start := StartCreate(id, r, wh, lines);
    var w1 := Step(w0, start);
    var w := Run(w1, after);
    StartOk(products);
    RunsKeepDriftOk(Start(products), before);
    StepOk(w0, start);
    StepKeepsDriftOk(w0, start);
    BeginsWithoutLeaks(w0, id, r, wh, lines);
    RunLeaks(w1, after, r, wh, lines, {});
    hide Run, Step, Shape, StockOk, Outstanding;
    assert {} + Leaks(w1, after, r) == Leaks(w1, after, r);
    if Quiet(w, r) && r !in w.orders {
      forall p, x
        ensures Outstanding(w.stock.movements, p, x, r) == DriftAt(w, Place(p, x, r))
      {
        QuietMeansNothingInFlight(w, p, x, r);
        assert Balanced(w, p, x, r);
      }
    }
  }

  lemma BeginsWithoutLeaks(w: World, id: SagaId, r: Reference, wh: WarehouseId, lines: seq<Line>)
    requires WorldOk(w) && DriftOk(w) && id !in w.sagas && r !in w.used && ValidLines(lines)
    ensures LeakState(Step(w, StartCreate(id, r, wh, lines)), r, wh, lines, {})
  {
    var w1 := Step(w, StartCreate(id, r, wh, lines));
    hide ValidLines, StockOk, Balanced;
    forall p, x
      ensures DriftAt(w1, Place(p, x, r)) == 0
    {
      assert DriftAt(w, Place(p, x, r)) == 0;
    }
    forall b | b in w1.sagas && w1.sagas[b].order == r
      ensures b == id
    {
      assert b != id ==> SagaFits(w, w.sagas[b]);
    }
  }
}
