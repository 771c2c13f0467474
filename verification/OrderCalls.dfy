/**
What the calls of one order do to the ledger, line by line: lemmas for the loops of order creation and cancellation.
*/
module OrderCalls {
  import opened Options
  import opened Faults
  import opened Ledger
  import opened LedgerRuns
  import opened Sagas
  import opened SagaBooks

  predicate Mentions(lines: seq<Line>, p: ProductId) {
    exists i :: 0 <= i < |lines| && lines[i].product == p
  }

  /** Line `i` is reserved for order `r` exactly when `held[i]`. */
  ghost predicate Holds(l: Stock, r: Reference, wh: WarehouseId, lines: seq<Line>, held: seq<bool>) {
    |held| == |lines| &&
    forall i :: 0 <= i < |lines| ==>
      Outstanding(l.movements, lines[i].product, wh, r) == if held[i] then lines[i].quantity else 0
  }

  /** From `l` to `l1` only the reservations of order `r` at its lines moved, and the balances moved with them. */
  ghost predicate OnlyOrderMoved(l: Stock, l1: Stock, r: Reference, wh: WarehouseId, lines: seq<Line>) {
    && l1.products == l.products
    && (forall p, w ::
          && BalanceOf(l1, (p, w)).onHand == BalanceOf(l, (p, w)).onHand
          && BalanceOf(l1, (p, w)).reserved - Outstanding(l1.movements, p, w, r)
             == BalanceOf(l, (p, w)).reserved - Outstanding(l.movements, p, w, r))
    && (forall p, w, x :: x != r || w != wh || !Mentions(lines, p) ==>
          Outstanding(l1.movements, p, w, x) == Outstanding(l.movements, p, w, x))
  }

  /** Enough free stock for the line. */
  predicate Fits(l: Stock, wh: WarehouseId, line: Line) {
    line.product in l.products
    && line.quantity <= BalanceOf(l, (line.product, wh)).onHand - BalanceOf(l, (line.product, wh)).reserved
  }

  predicate LineOp(op: StockOp, r: Reference, wh: WarehouseId, lines: seq<Line>, i: nat)
    requires i < |lines|
  {
    op == Reserve(lines[i].product, wh, lines[i].quantity, r) || op == Release(lines[i].product, wh, lines[i].quantity, r)
  }

  lemma CallShifts(l: Stock, op: StockOp, fault: Fault, p: ProductId, w: WarehouseId)
    requires op.Reserve? || op.Release?
    ensures var l1 := CallEffect(l, op, fault);
            && l1.products == l.products
            && BalanceOf(l1, (p, w)).onHand == BalanceOf(l, (p, w)).onHand
            && BalanceOf(l1, (p, w)).reserved == BalanceOf(l, (p, w)).reserved
               + if TakesEffect(l, op, fault) && op.product == p && op.warehouse == w then Signed(op) else 0
  {
  }

  lemma CallMovesOnlyOrder(
      l0: Stock, l: Stock, op: StockOp, fault: Fault, r: Reference, wh: WarehouseId, lines: seq<Line>, i: nat)
    requires OnlyOrderMoved(l0, l, r, wh, lines) && i < |lines| && LineOp(op, r, wh, lines, i)
    ensures OnlyOrderMoved(l0, CallEffect(l, op, fault), r, wh, lines)
  {
    var l1 := CallEffect(l, op, fault);
    assert Mentions(lines, op.product);
    CallShifts(l, op, fault, 0, 0);
    forall p, w
      ensures BalanceOf(l1, (p, w)).onHand == BalanceOf(l0, (p, w)).onHand
      ensures BalanceOf(l1, (p, w)).reserved - Outstanding(l1.movements, p, w, r)
              == BalanceOf(l0, (p, w)).reserved - Outstanding(l0.movements, p, w, r)
    {
      hide CallEffect, TakesEffect, Outstanding;
      CallShifts(l, op, fault, p, w);
      CallMoves(l, op, fault, p, w, r);
    }
    forall p, w, x | x != r || w != wh || !Mentions(lines, p)
      ensures Outstanding(l1.movements, p, w, x) == Outstanding(l0.movements, p, w, x)
    {
      hide CallEffect, TakesEffect, Outstanding;
      CallMoves(l, op, fault, p, w, x);
    }
  }

  /** A call on line `i` changes what is held of line `i` alone. */
  lemma CallHolds(
      l: Stock, op: StockOp, fault: Fault, r: Reference, wh: WarehouseId, lines: seq<Line>, held: seq<bool>, i: nat)
    requires StockOk(l) && ValidLines(lines) && Holds(l, r, wh, lines, held) && i < |lines|
    requires LineOp(op, r, wh, lines, i) && held[i] == op.Release?
    ensures var l1 := CallEffect(l, op, fault);
            StockOk(l1) && Holds(l1, r, wh, lines, if TakesEffect(l, op, fault) then held[i := !held[i]] else held)
  {
    hide StockOk, CallEffect, TakesEffect, Outstanding;
    CallKeepsStock(l, op, fault);
    forall k | 0 <= k < |lines|
      ensures var held1 := if TakesEffect(l, op, fault) then held[i := !held[i]] else held;
              Outstanding(CallEffect(l, op, fault).movements, lines[k].product, wh, r)
              == if held1[k] then lines[k].quantity else 0
    {
      CallMoves(l, op, fault, lines[k].product, wh, r);
    }
  }

  /** A release of a held line is always accepted. */
  lemma HeldLineReleases(l: Stock, r: Reference, wh: WarehouseId, lines: seq<Line>, held: seq<bool>, i: nat)
    requires StockOk(l) && Holds(l, r, wh, lines, held) && i < |lines| && held[i]
    ensures Check(l, Release(lines[i].product, wh, lines[i].quantity, r)).None?
  {
    ReleaseAcceptedUpToOutstanding(l, lines[i].product, wh, lines[i].quantity, r);
  }

  /** A line nothing is reserved for can be reserved exactly when it fits what was free before the request. */
  lemma FreeLineReserves(
      l0: Stock, l: Stock, r: Reference, wh: WarehouseId, lines: seq<Line>, held: seq<bool>, i: nat)
    requires StockOk(l) && OnlyOrderMoved(l0, l, r, wh, lines) && Holds(l, r, wh, lines, held) && i < |lines| && !held[i]
    requires Outstanding(l0.movements, lines[i].product, wh, r) == 0
    ensures Check(l, Reserve(lines[i].product, wh, lines[i].quantity, r)).None? <==> Fits(l0, wh, lines[i])
  {
  }

  /** Without interference a released line can always be reserved again. */
  lemma ReleasedLineReserves(
      l0: Stock, l: Stock, r: Reference, wh: WarehouseId, lines: seq<Line>, held: seq<bool>, i: nat)
    requires StockOk(l0) && StockOk(l) && OnlyOrderMoved(l0, l, r, wh, lines)
    requires Holds(l, r, wh, lines, held) && i < |lines| && !held[i]
    requires Outstanding(l0.movements, lines[i].product, wh, r) == lines[i].quantity
    ensures Check(l, Reserve(lines[i].product, wh, lines[i].quantity, r)).None?
  {
    var p := lines[i].product;
    ReserveAcceptedIff(l, p, wh, lines[i].quantity, r);
    BalanceBounds(l0, (p, wh));
    UnknownProductHasNothing(l0, p, wh, r);
  }

  /** The ledger `l` in the middle of a request on order `r` that began with the ledger `l0`. */
  ghost predicate Midway(l0: Stock, l: Stock, r: Reference, wh: WarehouseId, lines: seq<Line>, held: seq<bool>) {
    StockOk(l0) && StockOk(l) && ValidLines(lines) && OnlyOrderMoved(l0, l, r, wh, lines) && Holds(l, r, wh, lines, held)
  }

  /** A release fails by its fault or because nothing is held, and takes effect on a held line unless it raises before. */
  lemma ReleaseLine(
      l0: Stock, l: Stock, fault: Fault, r: Reference, wh: WarehouseId, lines: seq<Line>, held: seq<bool>, i: nat)
    requires Midway(l0, l, r, wh, lines, held) && i < |lines|
    ensures var op := Release(lines[i].product, wh, lines[i].quantity, r);
            && |held| == |lines|
            && (Raises(l, op, fault) <==> !fault.Clean? || !held[i])
            && Midway(l0, CallEffect(l, op, fault), r, wh, lines, if fault.RaisesBefore? then held else held[i := false])
  {
    var op := Release(lines[i].product, wh, lines[i].quantity, r);
    if held[i] {
      HeldLineReleases(l, r, wh, lines, held, i);
      CallHolds(l, op, fault, r, wh, lines, held, i);
      CallMovesOnlyOrder(l0, l, op, fault, r, wh, lines, i);
    } else {
      assert Outstanding(l.movements, lines[i].product, wh, r) == 0;
      assert held[i := false] == held;
    }
    hide StockOk, OnlyOrderMoved, Holds, CallEffect, Check, ValidLines;
  }

  /** A reservation of a line nothing is held for: accepted when it fits, and in effect unless it raises before. */
  lemma ReserveLine(
      l0: Stock, l: Stock, fault: Fault, r: Reference, wh: WarehouseId, lines: seq<Line>, held: seq<bool>, i: nat)
    requires Midway(l0, l, r, wh, lines, held) && i < |lines| && !held[i]
    requires Outstanding(l0.movements, lines[i].product, wh, r) == 0
    ensures var op := Reserve(lines[i].product, wh, lines[i].quantity, r);
            && (Raises(l, op, fault) <==> !fault.Clean? || !Fits(l0, wh, lines[i]))
            && |held| == |lines|
            && Midway(l0, CallEffect(l, op, fault), r, wh, lines,
                      if fault.RaisesBefore? || !Fits(l0, wh, lines[i]) then held else held[i := true])
  {
    var op := Reserve(lines[i].product, wh, lines[i].quantity, r);
    FreeLineReserves(l0, l, r, wh, lines, held, i);
    CallHolds(l, op, fault, r, wh, lines, held, i);
    CallMovesOnlyOrder(l0, l, op, fault, r, wh, lines, i);
    hide StockOk, OnlyOrderMoved, Holds, CallEffect, Check, ValidLines, Fits;
  }

  /** Reserving a released line again fails only by its fault. */
  lemma RestoreLine(
      l0: Stock, l: Stock, fault: Fault, r: Reference, wh: WarehouseId, lines: seq<Line>, held: seq<bool>, i: nat)
    requires Midway(l0, l, r, wh, lines, held) && i < |lines| && !held[i]
    requires Outstanding(l0.movements, lines[i].product, wh, r) == lines[i].quantity
    ensures var op := Reserve(lines[i].product, wh, lines[i].quantity, r);
            && (Raises(l, op, fault) <==> !fault.Clean?)
            && |held| == |lines|
            && Midway(l0, CallEffect(l, op, fault), r, wh, lines, if fault.RaisesBefore? then held else held[i := true])
  {
    var op := Reserve(lines[i].product, wh, lines[i].quantity, r);
    ReleasedLineReserves(l0, l, r, wh, lines, held, i);
    CallHolds(l, op, fault, r, wh, lines, held, i);
    CallMovesOnlyOrder(l0, l, op, fault, r, wh, lines, i);
    hide StockOk, OnlyOrderMoved, Holds, CallEffect, Check, ValidLines;
  }

  /** When nothing of the order is left in the ledger, every balance is as it was. */
  lemma NothingHeldNothingChanged(l: Stock, l1: Stock, r: Reference, wh: WarehouseId, lines: seq<Line>, held: seq<bool>)
    requires OnlyOrderMoved(l, l1, r, wh, lines) && Holds(l1, r, wh, lines, held)
    requires (forall i :: 0 <= i < |lines| ==> !held[i]) && forall p, w :: Outstanding(l.movements, p, w, r) == 0
    ensures forall k :: BalanceOf(l1, k) == BalanceOf(l, k)
    ensures forall p, w, x :: Outstanding(l1.movements, p, w, x) == Outstanding(l.movements, p, w, x)
  {
    forall p, w
      ensures Outstanding(l1.movements, p, w, r) == 0
    {
      assert Outstanding(l.movements, p, w, r) == 0;
    }
    forall k: Key
      ensures BalanceOf(l1, k) == BalanceOf(l, k)
    {
      assert BalanceOf(l1, (k.0, k.1)).onHand == BalanceOf(l, (k.0, k.1)).onHand;
    }
  }
}
