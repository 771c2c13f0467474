/**
Order creation, confirmation and cancellation as the service writes them: loops of remote calls, a local commit, and
compensation when anything raises.  Every call is given its fault beforehand, so the contracts say for every pattern
of faults what is left in the ledger.
*/
module OrderService {
  import opened Options
  import opened Faults
  import opened Ledger
  import opened Inventory
  import opened Sagas
  import opened SagaBooks
  import opened OrderCalls

  /** The faults met by one request; the functions give the fault of the call for each line. */
  datatype Weather = Weather(flushes: bool, forward: nat -> Fault, commits: bool, backward: nat -> Fault)

  datatype Outcome =
    | Done
    | Raised
    | CompensationFailed
    | OrderNotFound
    | StateConflict

  /** The world between two requests, as long as nobody else has sent one. */
  function Idle(l: Stock, orders: map<Reference, Order>): World {
    World(l, orders, map[], orders.Keys, map[])
  }

  /** The lines left reserved by a creation that failed at line `at`, given what was free before it. */
  predicate LeftByCreate(l: Stock, wh: WarehouseId, lines: seq<Line>, c: Weather, at: nat, i: nat)
    requires i < |lines|
  {
    || (i < at && c.backward(i).RaisesBefore?)
    || (i == at && c.flushes && c.forward(i).RaisesAfter? && Fits(l, wh, lines[i]))
  }

  /** Whether a cancellation that failed at line `at` leaves line `i` alone or puts it back. */
  predicate KeptByCancel(c: Weather, at: nat, i: nat) {
    !(i < at && c.backward(i).RaisesBefore?) && !(i == at && c.forward(i).RaisesAfter?)
  }

  class OrderTable {
    const stock: StockTable
    var orders: map<Reference, Order>

    constructor (stock: StockTable)
      ensures this.stock == stock && orders == map[]
    {
      this.stock, orders := stock, map[];
    }

    method CallReserve(p: ProductId, wh: WarehouseId, q: Quantity, r: Reference, fault: Fault) returns (raised: bool)
      modifies stock
      ensures stock.State() == CallEffect(old(stock.State()), Reserve(p, wh, q, r), fault)
      ensures raised <==> Raises(old(stock.State()), Reserve(p, wh, q, r), fault)
    {
      if fault.RaisesBefore? {
        return true;
      }
      var error := stock.ReserveStock(p, wh, q, r, true);
      raised := error.Some? || fault.RaisesAfter?;
    }

    method CallRelease(p: ProductId, wh: WarehouseId, q: Quantity, r: Reference, fault: Fault) returns (raised: bool)
      modifies stock
      ensures stock.State() == CallEffect(old(stock.State()), Release(p, wh, q, r), fault)
      ensures raised <==> Raises(old(stock.State()), Release(p, wh, q, r), fault)
    {
      if fault.RaisesBefore? {
        return true;
      }
      var error := stock.ReleaseStock(p, wh, q, r, true);
      raised := error.Some? || fault.RaisesAfter?;
    }

    /** `_release_lines` over the first `n` lines, last first; the failed lines it reports. */
    method ReleaseLines(
        r: Reference, wh: WarehouseId, lines: seq<Line>, n: nat, c: Weather,
        ghost l0: Stock, ghost held: seq<bool>, ghost w: World)
      returns (failures: seq<nat>, ghost left: seq<bool>, ghost trace: seq<Action>)
      requires Tracks(w, stock.State(), orders, Undoing(r, wh, lines, n))
      requires n <= |lines| && Midway(l0, stock.State(), r, wh, lines, held)
      requires |held| == |lines| && forall i :: 0 <= i < n ==> held[i]
      modifies stock
      ensures Tracks(Run(w, trace), stock.State(), orders, Undoing(r, wh, lines, 0))
      ensures Midway(l0, stock.State(), r, wh, lines, left)
      ensures |left| == |lines|
      ensures forall i :: 0 <= i < |lines| ==> left[i] == if i < n then c.backward(i).RaisesBefore? else held[i]
      ensures forall i :: i in failures <==> 0 <= i < n && !c.backward(i).Clean?
    {
      hide Midway, CallEffect, Raises, Tracks;
      failures, left, trace := [], held, [];
      var k := n;
      while k > 0
        invariant 0 <= k <= n && Midway(l0, stock.State(), r, wh, lines, left) && |left| == |lines|
        invariant Tracks(Run(w, trace), stock.State(), orders, Undoing(r, wh, lines, k))
        invariant forall i :: 0 <= i < |lines| ==> left[i] == if k <= i < n then c.backward(i).RaisesBefore? else held[i]
        invariant forall i :: i in failures <==> k <= i < n && !c.backward(i).Clean?
      {
        k := k - 1;
        ReleaseLine(l0, stock.State(), c.backward(k), r, wh, lines, left, k);
        trace := TrackUndoing(w, trace, stock.State(), orders, r, wh, lines, k, c.backward(k));
        var raised := CallRelease(lines[k].product, wh, lines[k].quantity, r, c.backward(k));
        if raised {
          failures := failures + [k];
        }
        left := if c.backward(k).RaisesBefore? then left else left[k := false];
      }
    }

    /** `_reserve_lines` over the first `n` lines; the failed lines it reports. */
    method ReserveLines(
        r: Reference, wh: WarehouseId, lines: seq<Line>, n: nat, c: Weather,
        ghost l0: Stock, ghost held: seq<bool>, ghost w: World)
      returns (failures: seq<nat>, ghost kept: seq<bool>, ghost trace: seq<Action>)
      requires Tracks(w, stock.State(), orders, Restoring(r, wh, lines, 0, n))
      requires n <= |lines| && Midway(l0, stock.State(), r, wh, lines, held)
      requires |held| == |lines| && forall i :: 0 <= i < n ==> !held[i]
      requires forall i :: 0 <= i < n ==> Outstanding(l0.movements, lines[i].product, wh, r) == lines[i].quantity
      modifies stock
      ensures Tracks(Run(w, trace), stock.State(), orders, Restoring(r, wh, lines, n, n))
      ensures Midway(l0, stock.State(), r, wh, lines, kept)
      ensures |kept| == |lines|
      ensures forall i :: 0 <= i < |lines| ==> kept[i] == if i < n then !c.backward(i).RaisesBefore? else held[i]
      ensures forall i :: i in failures <==> 0 <= i < n && !c.backward(i).Clean?
    {
      hide Midway, CallEffect, Raises, Outstanding, Tracks;
      failures, kept, trace := [], held, [];
      var k := 0;
      while k < n
        invariant 0 <= k <= n && Midway(l0, stock.State(), r, wh, lines, kept) && |kept| == |lines|
        invariant Tracks(Run(w, trace), stock.State(), orders, Restoring(r, wh, lines, k, n))
        invariant forall i :: 0 <= i < |lines| ==> kept[i] == if i < k then !c.backward(i).RaisesBefore? else held[i]
        invariant forall i :: i in failures <==> 0 <= i < k && !c.backward(i).Clean?
      {
        RestoreLine(l0, stock.State(), c.backward(k), r, wh, lines, kept, k);
        trace := TrackRestoring(w, trace, stock.State(), orders, r, wh, lines, k, n, c.backward(k));
        var raised := CallReserve(lines[k].product, wh, lines[k].quantity, r, c.backward(k));
        if raised {
          failures := failures + [k];
        }
        kept := if c.backward(k).RaisesBefore? then kept else kept[k := true];
        k := k + 1;
      }
    }

    /**
    `_create_order` once the references have been checked.  `at` is the line whose reservation raised, or their
    number when the flush or the commit did.
    */
    method CreateOrder(r: Reference, wh: WarehouseId, lines: seq<Line>, c: Weather)
      returns (outcome: Outcome, at: nat, ghost held: seq<bool>, ghost trace: seq<Action>)
      requires StockOk(stock.State()) && ValidLines(lines) && r !in orders
      requires forall p, w :: Outstanding(stock.movements, p, w, r) == 0
      modifies this, stock
      ensures Midway(old(stock.State()), stock.State(), r, wh, lines, held) && |held| == |lines|
      // The calls are the steps of one creating saga, run from its start to its end.
      ensures c.flushes ==> Ends(Step(Idle(old(stock.State()), old(orders)), StartCreate(0, r, wh, lines)),
                                 trace, stock.State(), orders)
      // It succeeds exactly when nothing raises and every line fits.
      ensures outcome == Done || outcome == Raised || outcome == CompensationFailed
      ensures outcome == Done <==>
              c.flushes && c.commits
              && forall i :: 0 <= i < |lines| ==> c.forward(i).Clean? && Fits(old(stock.State()), wh, lines[i])
      ensures outcome == Done ==>
              orders == old(orders)[r := Order(RESERVED, wh, lines)] && forall i :: 0 <= i < |lines| ==> held[i]
      // Otherwise no order is stored, `at` is the first call that raised, and exactly the leaked lines are left.
      ensures outcome != Done ==>
              && orders == old(orders)
              && at <= |lines|
              && (!c.flushes ==> at == 0)
              && (c.flushes ==> forall i :: 0 <= i < at ==> c.forward(i).Clean? && Fits(old(stock.State()), wh, lines[i]))
              && (c.flushes && at < |lines| ==> !c.forward(at).Clean? || !Fits(old(stock.State()), wh, lines[at]))
              && (forall i :: 0 <= i < |lines| ==> held[i] == LeftByCreate(old(stock.State()), wh, lines, c, at, i))
              && (outcome == CompensationFailed <==> exists i :: 0 <= i < at && !c.backward(i).Clean?)
    {
      hide Midway, CallEffect, Raises, Fits;
      ghost var l0 := stock.State();
      ghost var w := Step(Idle(l0, orders), StartCreate(0, r, wh, lines));
      trace := [];
      TrackStart(w, l0, orders, Creating(r, wh, lines, 0));
      held := seq(|lines|, _ => false);
      BeginCreate(l0, r, wh, lines, held);
      at := 0;
      var raised := !c.flushes;
      while at < |lines| && !raised
        invariant 0 <= at <= |lines| && orders == old(orders)
        invariant Midway(l0, stock.State(), r, wh, lines, held) && |held| == |lines|
        invariant Tracks(Run(w, trace), stock.State(), orders,
                         if raised && c.flushes then Undoing(r, wh, lines, at) else Creating(r, wh, lines, at))
        invariant !c.flushes ==> raised && at == 0
        invariant c.flushes ==> forall i :: 0 <= i < at ==> c.forward(i).Clean? && Fits(l0, wh, lines[i])
        invariant raised && c.flushes ==> at < |lines| && (!c.forward(at).Clean? || !Fits(l0, wh, lines[at]))
        invariant forall i :: 0 <= i < |lines| ==>
                    held[i] == (|| i < at
                                || (raised && c.flushes && i == at && !c.forward(at).RaisesBefore? && Fits(l0, wh, lines[at])))
        decreases |lines| - at, !raised
      {
        ReserveLine(l0, stock.State(), c.forward(at), r, wh, lines, held, at);
        trace := TrackCreating(w, trace, stock.State(), orders, r, wh, lines, at, c.forward(at));
        raised := CallReserve(lines[at].product, wh, lines[at].quantity, r, c.forward(at));
        held := if c.forward(at).RaisesBefore? || !Fits(l0, wh, lines[at]) then held else held[at := true];
        if !raised {
          at := at + 1;
        }
      }
      if !raised {
        trace := TrackCreateCommit(w, trace, stock.State(), orders, r, wh, lines, c.commits);
        if c.commits {
          orders := orders[r := Order(RESERVED, wh, lines)];
          return Done, at, held, trace;
        }
      }
      if !c.flushes {
        return Raised, 0, held, trace;
      }
      var failures;
      ghost var undo: seq<Action>;
      failures, held, undo := ReleaseLines(r, wh, lines, at, c, l0, held, Run(w, trace));
      trace := TrackEnd(w, trace, undo, stock.State(), orders, Undoing(r, wh, lines, 0));
      outcome := if failures != [] then CompensationFailed else Raised;
      assert failures != [] <==> exists i :: i in failures by {
        if failures != [] { assert failures[0] in failures; }
      }
    }

    /** `confirm_order`. */
    method ConfirmOrder(r: Reference, commits: bool) returns (outcome: Outcome)
      modifies this
      ensures orders == Step(Idle(stock.State(), old(orders)), Confirm(r, commits)).orders
      ensures r !in old(orders) ==> outcome == OrderNotFound && orders == old(orders)
      ensures r in old(orders) ==>
              var status := old(orders[r].status);
              && (outcome == Done <==> status == CONFIRMED || (status == RESERVED && commits))
              && (outcome == StateConflict <==> status != CONFIRMED && status != RESERVED)
              && outcome != OrderNotFound && outcome != CompensationFailed
              && orders == if outcome == Done then old(orders[r := orders[r].(status := CONFIRMED)]) else old(orders)
    {
      if r !in orders {
        return OrderNotFound;
      }
      var order := orders[r];
      if order.status == CONFIRMED {
        assert orders == orders[r := order.(status := CONFIRMED)];
        return Done;
      }
      if order.status != RESERVED {
        return StateConflict;
      }
      if !commits {
        return Raised;
      }
      orders := orders[r := order.(status := CONFIRMED)];
      outcome := Done;
    }

    /**
    `_cancel_order`.  `before` says which lines the ledger holds for the order; earlier failed compensations may have
    lost some.  `at` is the line whose release raised, or their number when the commit did.
    */
    method CancelOrder(r: Reference, c: Weather, ghost before: seq<bool>)
      returns (outcome: Outcome, at: nat, ghost held: seq<bool>, ghost trace: seq<Action>)
      requires r in orders ==> Midway(stock.State(), stock.State(), r, orders[r].warehouse, orders[r].lines, before)
      modifies this, stock
      // Only a reserved order is cancelled, and cancelling again does nothing.
      ensures r !in old(orders) ==> outcome == OrderNotFound
      ensures r in old(orders) && old(orders[r].status) != RESERVED ==>
              outcome == if old(orders[r].status) == CANCELLED then Done else StateConflict
      ensures r !in old(orders) || old(orders[r].status) != RESERVED ==>
              orders == old(orders) && stock.State() == old(stock.State())
      ensures r in old(orders) && old(orders[r].status) == RESERVED ==>
              Cancelled(old(stock.State()), stock.State(), old(orders), orders, r, c, before, outcome, at, held, trace)
    {
      hide Midway, CallEffect, Raises, Outstanding, Tracks, Ends;
      at, held, trace := 0, before, [];
      if r !in orders {
        return OrderNotFound, at, held, trace;
      }
      var order := orders[r];
      if order.status == CANCELLED {
        return Done, at, held, trace;
      }
      if order.status != RESERVED {
        return StateConflict, at, held, trace;
      }
      var wh, lines := order.warehouse, order.lines;
      ghost var l0 := stock.State();
      ghost var w := Step(Idle(l0, orders), StartCancel(0, r));
      TrackStart(w, l0, orders, Cancelling(r, wh, lines, 0));
      HeldAsBefore(l0, l0, r, wh, lines, before);
      var raised := false;
      while at < |lines| && !raised
        invariant 0 <= at <= |lines| && orders == old(orders)
        invariant Midway(l0, stock.State(), r, wh, lines, held) && |held| == |lines|
        invariant Tracks(Run(w, trace), stock.State(), orders,
                         if raised then Restoring(r, wh, lines, 0, at) else Cancelling(r, wh, lines, at))
        invariant forall i :: 0 <= i < at ==> c.forward(i).Clean? && before[i]
        invariant raised ==> at < |lines| && (!c.forward(at).Clean? || !before[at])
        invariant forall i :: 0 <= i < |lines| ==>
                    held[i] == (before[i] && i >= at && !(raised && i == at && c.forward(at).RaisesAfter?))
        decreases |lines| - at, !raised
      {
        ReleaseLine(l0, stock.State(), c.forward(at), r, wh, lines, held, at);
        trace := TrackCancelling(w, trace, stock.State(), orders, r, wh, lines, at, c.forward(at));
        raised := CallRelease(lines[at].product, wh, lines[at].quantity, r, c.forward(at));
        held := if c.forward(at).RaisesBefore? then held else held[at := false];
        if !raised {
          at := at + 1;
        }
      }
      if !raised {
        trace := TrackCancelCommit(w, trace, stock.State(), orders, r, wh, lines, c.commits);
        if c.commits {
          orders := orders[r := order.(status := CANCELLED)];
          return Done, at, held, trace;
        }
      }
      var failures;
      ghost var redo: seq<Action>;
      failures, held, redo := ReserveLines(r, wh, lines, at, c, l0, held, Run(w, trace));
      trace := TrackEnd(w, trace, redo, stock.State(), orders, Restoring(r, wh, lines, at, at));
      outcome := if failures != [] then CompensationFailed else Raised;
      assert failures != [] <==> exists i :: i in failures by {
        if failures != [] { assert failures[0] in failures; }
      }
    }
  }

  /** How the cancellation of a reserved order ends. */
  ghost predicate Cancelled(
      l: Stock, l1: Stock, orders: map<Reference, Order>, orders1: map<Reference, Order>, r: Reference, c: Weather,
      before: seq<bool>, outcome: Outcome, at: nat, held: seq<bool>, trace: seq<Action>)
    requires r in orders
  {
    var Order(_, wh, lines) := orders[r];
    && Midway(l, l1, r, wh, lines, held) && |held| == |before| == |lines|
    // The calls are the steps of one cancelling saga, run from its start to its end.
    && Ends(Step(Idle(l, orders), StartCancel(0, r)), trace, l1, orders1)
    // It succeeds exactly when nothing raises and every line was held.
    && (outcome == Done || outcome == Raised || outcome == CompensationFailed)
    && (outcome == Done <==> c.commits && forall i :: 0 <= i < |lines| ==> c.forward(i).Clean? && before[i])
    && (outcome == Done ==>
          orders1 == orders[r := orders[r].(status := CANCELLED)] && forall i :: 0 <= i < |lines| ==> !held[i])
    // Otherwise the order stays reserved, and every line held before is held again but for the lost ones.
    && (outcome != Done ==>
          && orders1 == orders
          && at <= |lines|
          && (forall i :: 0 <= i < at ==> c.forward(i).Clean? && before[i])
          && (at < |lines| ==> !c.forward(at).Clean? || !before[at])
          && (forall i :: 0 <= i < |lines| ==> held[i] == (before[i] && KeptByCancel(c, at, i)))
          && (outcome == CompensationFailed <==> exists i :: 0 <= i < at && !c.backward(i).Clean?))
  }

  /** A failed creation whose raising calls had no effect and whose releases all worked leaves every balance as it was. */
  lemma FailedCreationIsUndone(
      l: Stock, l1: Stock, r: Reference, wh: WarehouseId, lines: seq<Line>, c: Weather, at: nat, held: seq<bool>)
    requires Midway(l, l1, r, wh, lines, held) && (forall p, w :: Outstanding(l.movements, p, w, r) == 0)
    requires |held| == |lines| && forall i :: 0 <= i < |lines| ==> held[i] == LeftByCreate(l, wh, lines, c, at, i)
    requires !(c.flushes && c.forward(at).RaisesAfter?) && forall i :: 0 <= i < at ==> c.backward(i).Clean?
    ensures forall k :: BalanceOf(l1, k) == BalanceOf(l, k)
    ensures forall p, w, x :: Outstanding(l1.movements, p, w, x) == Outstanding(l.movements, p, w, x)
  {
    hide StockOk, ValidLines, Fits, OnlyOrderMoved, Holds, Outstanding;
    NothingHeldNothingChanged(l, l1, r, wh, lines, held);
  }

  /** A failed cancellation whose raising calls had no effect and whose re-reservations all worked restores every line. */
  lemma FailedCancellationRestores(
      l: Stock, l1: Stock, orders: map<Reference, Order>, orders1: map<Reference, Order>, r: Reference, c: Weather,
      before: seq<bool>, at: nat, held: seq<bool>, trace: seq<Action>)
    requires r in orders && Cancelled(l, l1, orders, orders1, r, c, before, Raised, at, held, trace)
    requires !c.forward(at).RaisesAfter?
    ensures orders1 == orders && held == before
    ensures forall i :: 0 <= i < |before| ==>
              var line := orders[r].lines[i];
              Outstanding(l1.movements, line.product, orders[r].warehouse, r) == if before[i] then line.quantity else 0
  {
    hide StockOk, ValidLines, OnlyOrderMoved, Outstanding, Ends;
    forall i | 0 <= i < |before|
      ensures held[i] == before[i]
    {
      if i < at {
        assert c.backward(i).Clean?;
      }
    }
  }

  // ---------------------------------------------------------------- the calls as steps of a saga

  /** The world shows this stock, these orders and one saga in flight. */
  ghost predicate Tracks(w: World, l: Stock, orders: map<Reference, Order>, s: Saga) {
    w.stock == l && w.orders == orders && w.sagas == map[0 := s]
  }

  /** Running `trace` from `w` ends every saga and leaves this stock and these orders. */
  ghost predicate Ends(w: World, trace: seq<Action>, l: Stock, orders: map<Reference, Order>) {
    var w1 := Run(w, trace);
    w1.stock == l && w1.orders == orders && w1.sagas == map[]
  }

  lemma {:induction false} RunSnoc(w: World, trace: seq<Action>, a: Action)
    ensures Run(w, trace + [a]) == Step(Run(w, trace), a)
    decreases |trace|
  {
    if trace == [] {
      assert trace + [a] == [a] && [a][1..] == [];
    } else {
      RunSnoc(Step(w, trace[0]), trace[1..], a);
      assert (trace + [a])[1..] == trace[1..] + [a];
    }
  }

  lemma {:induction false} RunConcat(w: World, trace: seq<Action>, more: seq<Action>)
    ensures Run(w, trace + more) == Run(Run(w, trace), more)
    decreases |trace|
  {
    if trace == [] {
      assert trace + more == more;
    } else {
      RunConcat(Step(w, trace[0]), trace[1..], more);
      assert (trace + more)[1..] == trace[1..] + more;
    }
  }

  lemma TrackStart(w: World, l: Stock, orders: map<Reference, Order>, s: Saga)
    requires Tracks(w, l, orders, s)
    ensures Tracks(Run(w, []), l, orders, s)
  {
  }

  lemma TrackCreating(
      w: World, trace: seq<Action>, l: Stock, orders: map<Reference, Order>,
      r: Reference, wh: WarehouseId, lines: seq<Line>, at: nat, fault: Fault)
    returns (longer: seq<Action>)
    requires at < |lines| && Tracks(Run(w, trace), l, orders, Creating(r, wh, lines, at))
    ensures var op := Reserve(lines[at].product, wh, lines[at].quantity, r);
            Tracks(Run(w, longer), CallEffect(l, op, fault), orders,
                   if Raises(l, op, fault) then Undoing(r, wh, lines, at) else Creating(r, wh, lines, at + 1))
  {
    longer := trace + [Advance(0, fault)];
    RunSnoc(w, trace, Advance(0, fault));
    hide CallEffect, Raises, TakesEffect, Run;
  }

  lemma TrackUndoing(
      w: World, trace: seq<Action>, l: Stock, orders: map<Reference, Order>,
      r: Reference, wh: WarehouseId, lines: seq<Line>, k: nat, fault: Fault)
    returns (longer: seq<Action>)
    requires k < |lines| && Tracks(Run(w, trace), l, orders, Undoing(r, wh, lines, k + 1))
    ensures Tracks(Run(w, longer), CallEffect(l, Release(lines[k].product, wh, lines[k].quantity, r), fault), orders,
                   Undoing(r, wh, lines, k))
  {
    longer := trace + [Advance(0, fault)];
    RunSnoc(w, trace, Advance(0, fault));
    hide CallEffect, Raises, TakesEffect, Run;
  }

  lemma TrackCancelling(
      w: World, trace: seq<Action>, l: Stock, orders: map<Reference, Order>,
      r: Reference, wh: WarehouseId, lines: seq<Line>, at: nat, fault: Fault)
    returns (longer: seq<Action>)
    requires at < |lines| && Tracks(Run(w, trace), l, orders, Cancelling(r, wh, lines, at))
    ensures var op := Release(lines[at].product, wh, lines[at].quantity, r);
            Tracks(Run(w, longer), CallEffect(l, op, fault), orders,
                   if Raises(l, op, fault) then Restoring(r, wh, lines, 0, at) else Cancelling(r, wh, lines, at + 1))
  {
    longer := trace + [Advance(0, fault)];
    RunSnoc(w, trace, Advance(0, fault));
    hide CallEffect, Raises, TakesEffect, Run;
  }

  lemma TrackRestoring(
      w: World, trace: seq<Action>, l: Stock, orders: map<Reference, Order>,
      r: Reference, wh: WarehouseId, lines: seq<Line>, k: nat, n: nat, fault: Fault)
    returns (longer: seq<Action>)
    requires k < n <= |lines| && Tracks(Run(w, trace), l, orders, Restoring(r, wh, lines, k, n))
    ensures Tracks(Run(w, longer), CallEffect(l, Reserve(lines[k].product, wh, lines[k].quantity, r), fault), orders,
                   Restoring(r, wh, lines, k + 1, n))
  {
    longer := trace + [Advance(0, fault)];
    RunSnoc(w, trace, Advance(0, fault));
    hide CallEffect, Raises, TakesEffect, Run;
  }

  /** The local commit of a creation. */
  lemma TrackCreateCommit(
      w: World, trace: seq<Action>, l: Stock, orders: map<Reference, Order>,
      r: Reference, wh: WarehouseId, lines: seq<Line>, commits: bool)
    returns (longer: seq<Action>)
    requires Tracks(Run(w, trace), l, orders, Creating(r, wh, lines, |lines|))
    ensures commits ==> Ends(w, longer, l, orders[r := Order(RESERVED, wh, lines)])
    ensures !commits ==> Tracks(Run(w, longer), l, orders, Undoing(r, wh, lines, |lines|))
  {
    var a := Advance(0, if commits then Clean else RaisesBefore);
    longer := trace + [a];
    RunSnoc(w, trace, a);
    hide Run;
    assert map[0 := Creating(r, wh, lines, |lines|)] - {0} == map[];
  }

  /** The local commit of a cancellation. */
  lemma TrackCancelCommit(
      w: World, trace: seq<Action>, l: Stock, orders: map<Reference, Order>,
      r: Reference, wh: WarehouseId, lines: seq<Line>, commits: bool)
    returns (longer: seq<Action>)
    requires Tracks(Run(w, trace), l, orders, Cancelling(r, wh, lines, |lines|)) && r in orders
    ensures commits ==> Ends(w, longer, l, orders[r := orders[r].(status := CANCELLED)])
    ensures !commits ==> Tracks(Run(w, longer), l, orders, Restoring(r, wh, lines, 0, |lines|))
  {
    var a := Advance(0, if commits then Clean else RaisesBefore);
    longer := trace + [a];
    RunSnoc(w, trace, a);
    hide Run;
    assert map[0 := Cancelling(r, wh, lines, |lines|)] - {0} == map[];
  }

  /** The end of a compensation. */
  lemma TrackEnd(
      w: World, trace: seq<Action>, more: seq<Action>, l: Stock, orders: map<Reference, Order>, s: Saga)
    returns (longer: seq<Action>)
    requires Tracks(Run(Run(w, trace), more), l, orders, s)
    requires (s.Undoing? && s.left == 0) || (s.Restoring? && s.next == s.done)
    ensures Ends(w, longer, l, orders)
  {
    longer := trace + more + [Advance(0, Clean)];
    RunConcat(w, trace, more);
    RunSnoc(w, trace + more, Advance(0, Clean));
    hide Run;
    assert map[0 := s] - {0} == map[];
  }

  lemma HeldAsBefore(l0: Stock, l: Stock, r: Reference, wh: WarehouseId, lines: seq<Line>, held: seq<bool>)
    requires Midway(l0, l, r, wh, lines, held)
    ensures |held| == |lines|
    ensures forall i :: 0 <= i < |lines| && held[i] ==>
              Outstanding(l.movements, lines[i].product, wh, r) == lines[i].quantity
  {
  }

  lemma BeginCreate(l: Stock, r: Reference, wh: WarehouseId, lines: seq<Line>, held: seq<bool>)
    requires StockOk(l) && ValidLines(lines) && forall p, w :: Outstanding(l.movements, p, w, r) == 0
    requires |held| == |lines| && forall i :: 0 <= i < |lines| ==> !held[i]
    ensures Midway(l, l, r, wh, lines, held)
  {
  }
}
