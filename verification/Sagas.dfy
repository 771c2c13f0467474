/**
Order creation and cancellation as sagas over two stores that share no transaction: the order table and the stock
ledger.

A world holds both stores and every saga in flight.  One action is one remote call, one local commit, or one request
of somebody else, so any number of sagas interleave with each other and with receipts, issues and transfers.  Each
remote call may return, raise without effect, or raise after taking effect.  `drift` is the model's own account of
the calls whose effect the order service does not know of; it changes nothing else.
*/
module Sagas {
  import opened Options
  import opened Faults
  import opened Sums
  import opened Ledger
  import opened LedgerRuns

  datatype Line = Line(product: ProductId, quantity: Quantity)

  datatype OrderStatus = PENDING | RESERVED | CONFIRMED | CANCELLED

  datatype Order = Order(status: OrderStatus, warehouse: WarehouseId, lines: seq<Line>)

  type SagaId = nat

  /**
  Where a request stands: `Creating` reserved the first `done` lines; `Undoing` still has the first `left` lines to
  release, last first; `Cancelling` released the first `done` lines and holds the order's row lock; `Restoring`
  released `done` lines and reserved the first `next` of them again.
  */
  datatype Saga =
    | Creating(order: Reference, warehouse: WarehouseId, lines: seq<Line>, done: nat)
    | Undoing(order: Reference, warehouse: WarehouseId, lines: seq<Line>, left: nat)
    | Cancelling(order: Reference, warehouse: WarehouseId, lines: seq<Line>, done: nat)
    | Restoring(order: Reference, warehouse: WarehouseId, lines: seq<Line>, next: nat, done: nat)

  datatype Place = Place(product: ProductId, warehouse: WarehouseId, order: Reference)

  datatype World = World(
    stock: Stock, orders: map<Reference, Order>, sagas: map<SagaId, Saga>, used: set<Reference>, drift: map<Place, int>)

  function Start(products: set<ProductId>): World {
    World(Opening(products), map[], map[], {}, map[])
  }

  datatype Action =
    | StockRequest(op: StockOp)
    | StartCreate(saga: SagaId, order: Reference, warehouse: WarehouseId, lines: seq<Line>)
    | StartCancel(saga: SagaId, order: Reference)
    | Confirm(order: Reference, commits: bool)
    | Advance(saga: SagaId, fault: Fault)

  // ---------------------------------------------------------------- remote calls

  /** The call reaches the service and the service accepts it. */
  predicate TakesEffect(l: Stock, op: StockOp, fault: Fault) {
    !fault.RaisesBefore? && Check(l, op).None?
  }

  function CallEffect(l: Stock, op: StockOp, fault: Fault): Stock {
    if TakesEffect(l, op, fault) then Effect(l, op) else l
  }

  /** The caller sees an exception. */
  predicate Raises(l: Stock, op: StockOp, fault: Fault) {
    !fault.Clean? || Check(l, op).Some?
  }

  function ReserveCall(s: Saga, i: nat): StockOp
    requires i < |s.lines|
  {
    Reserve(s.lines[i].product, s.warehouse, s.lines[i].quantity, s.order)
  }

  function ReleaseCall(s: Saga, i: nat): StockOp
    requires i < |s.lines|
  {
    Release(s.lines[i].product, s.warehouse, s.lines[i].quantity, s.order)
  }

  // ---------------------------------------------------------------- steps

  /** The request schema: at least one line, each product once. */
  ghost predicate ValidLines(lines: seq<Line>) {
    lines != [] && forall i, k :: 0 <= i < k < |lines| ==> lines[i].product != lines[k].product
  }

  /** A cancellation that has not reached its commit or rollback holds the order's row. */
  ghost predicate RowLocked(w: World, order: Reference) {
    exists id :: id in w.sagas && w.sagas[id].Cancelling? && w.sagas[id].order == order
  }

  function DriftAt(w: World, at: Place): int {
    if at in w.drift then w.drift[at] else 0
  }

  function AddDrift(w: World, at: Place, amount: int): World {
    w.(drift := w.drift[at := DriftAt(w, at) + amount])
  }

  function PlaceOf(s: Saga, i: nat): Place
    requires i < |s.lines|
  {
    Place(s.lines[i].product, s.warehouse, s.order)
  }

  function SetSaga(w: World, id: SagaId, s: Saga): World {
    w.(sagas := w.sagas[id := s])
  }

  function EndSaga(w: World, id: SagaId): World {
    w.(sagas := w.sagas - {id})
  }

  /** One remote call of saga `id`, which then stands at `next`; `drift` books what the caller got wrong about it. */
  function Call(w: World, id: SagaId, op: StockOp, fault: Fault, next: Saga, at: Place, drift: int): World {
    AddDrift(SetSaga(w.(stock := CallEffect(w.stock, op, fault)), id, next), at, drift)
  }

  /** `_create_order`: reserve line by line, then commit; any exception turns to releasing what was reserved. */
  function AdvanceCreating(w: World, id: SagaId, fault: Fault): World
    requires id in w.sagas && w.sagas[id].Creating?
  {
    var s := w.sagas[id];
    var Creating(order, warehouse, lines, done) := s;
    if done < |lines| then
      var op, q := ReserveCall(s, done), lines[done].quantity;
      if !Raises(w.stock, op, fault)
      then Call(w, id, op, fault, Creating(order, warehouse, lines, done + 1), PlaceOf(s, done), 0)
      else Call(w, id, op, fault, Undoing(order, warehouse, lines, done), PlaceOf(s, done),
                if TakesEffect(w.stock, op, fault) then q else 0)
    else if fault.Clean? then EndSaga(w, id).(orders := w.orders[order := Order(RESERVED, warehouse, lines)])
    else SetSaga(w, id, Undoing(order, warehouse, lines, |lines|))
  }

  /** `_release_lines`: every line gets its release attempt, whatever the others did. */
  function AdvanceUndoing(w: World, id: SagaId, fault: Fault): World
    requires id in w.sagas && w.sagas[id].Undoing?
  {
    var s := w.sagas[id];
    var Undoing(order, warehouse, lines, left) := s;
    if 0 < left <= |lines| then
      var op, q := ReleaseCall(s, left - 1), lines[left - 1].quantity;
      Call(w, id, op, fault, Undoing(order, warehouse, lines, left - 1), PlaceOf(s, left - 1),
           if TakesEffect(w.stock, op, fault) then 0 else q)
    else EndSaga(w, id)
  }

  /** `_cancel_order`: release line by line, then commit; any exception turns to reserving again. */
  function AdvanceCancelling(w: World, id: SagaId, fault: Fault): World
    requires id in w.sagas && w.sagas[id].Cancelling?
  {
    var s := w.sagas[id];
    var Cancelling(order, warehouse, lines, done) := s;
    if done < |lines| then
      var op, q := ReleaseCall(s, done), lines[done].quantity;
      if !Raises(w.stock, op, fault)
      then Call(w, id, op, fault, Cancelling(order, warehouse, lines, done + 1), PlaceOf(s, done), 0)
      else Call(w, id, op, fault, Restoring(order, warehouse, lines, 0, done), PlaceOf(s, done),
                if TakesEffect(w.stock, op, fault) then -(q as int) else 0)
    else if fault.Clean? && order in w.orders
    then EndSaga(w, id).(orders := w.orders[order := w.orders[order].(status := CANCELLED)])
    else SetSaga(w, id, Restoring(order, warehouse, lines, 0, |lines|))
  }

  /** `_reserve_lines`: every released line gets its re-reservation attempt. */
  function AdvanceRestoring(w: World, id: SagaId, fault: Fault): World
    requires id in w.sagas && w.sagas[id].Restoring?
  {
    var s := w.sagas[id];
    var Restoring(order, warehouse, lines, next, done) := s;
    if next < done <= |lines| then
      var op, q := ReserveCall(s, next), lines[next].quantity;
      Call(w, id, op, fault, Restoring(order, warehouse, lines, next + 1, done), PlaceOf(s, next),
           if TakesEffect(w.stock, op, fault) then 0 else -(q as int))
    else EndSaga(w, id)
  }

  function AdvanceSaga(w: World, id: SagaId, fault: Fault): World
    requires id in w.sagas
  {
    match w.sagas[id]
    case Creating(_, _, _, _) => AdvanceCreating(w, id, fault)
    case Undoing(_, _, _, _) => AdvanceUndoing(w, id, fault)
    case Cancelling(_, _, _, _) => AdvanceCancelling(w, id, fault)
    case Restoring(_, _, _, _, _) => AdvanceRestoring(w, id, fault)
  }

  /** Reservations and releases reach the ledger through orders only. */
  predicate OrdinaryStock(op: StockOp) {
    op.Receive? || op.Issue? || op.Transfer?
  }

  ghost function Step(w: World, a: Action): World {
    match a
    case StockRequest(op) => if OrdinaryStock(op) then w.(stock := Transact(w.stock, op)) else w
    case StartCreate(id, order, warehouse, lines) =>
      if id in w.sagas || order in w.used || !ValidLines(lines) then w
      else SetSaga(w, id, Creating(order, warehouse, lines, 0)).(used := w.used + {order})
    case StartCancel(id, order) =>
      if id in w.sagas || order !in w.orders || RowLocked(w, order) || w.orders[order].status != RESERVED then w
      else SetSaga(w, id, Cancelling(order, w.orders[order].warehouse, w.orders[order].lines, 0))
    case Confirm(order, commits) =>
      if order !in w.orders || RowLocked(w, order) || w.orders[order].status != RESERVED || !commits then w
      else w.(orders := w.orders[order := w.orders[order].(status := CONFIRMED)])
    case Advance(id, fault) => if id in w.sagas then AdvanceSaga(w, id, fault) else w
  }

  ghost function Run(w: World, actions: seq<Action>): World
    decreases |actions|
  {
    if actions == [] then w else Run(Step(w, actions[0]), actions[1..])
  }

  // ---------------------------------------------------------------- the books

  /** The quantity of a product in a list of lines. */
  function Qty(lines: seq<Line>, p: ProductId): nat {
    if lines == [] then 0
    else
      var last := lines[|lines| - 1];
      Qty(lines[..|lines| - 1], p) + if last.product == p then last.quantity else 0
  }

  /** What an order in the table should have reserved. */
  function OrderShare(orders: map<Reference, Order>, p: ProductId, wh: WarehouseId, r: Reference): nat {
    if r in orders && (orders[r].status == RESERVED || orders[r].status == CONFIRMED) && orders[r].warehouse == wh
    then Qty(orders[r].lines, p) else 0
  }

  /** What a saga in flight has added to or taken from the reservations of its order. */
  function SagaPart(s: Saga, p: ProductId, wh: WarehouseId, r: Reference): int {
    if s.order != r || s.warehouse != wh || !Bounded(s) then 0
    else
      match s
      case Creating(_, _, lines, done) => Qty(lines[..done], p)
      case Undoing(_, _, lines, left) => Qty(lines[..left], p)
      case Cancelling(_, _, lines, done) => -(Qty(lines[..done], p) as int)
      case Restoring(_, _, lines, next, done) => Qty(lines[..next], p) - Qty(lines[..done], p)
  }

  predicate Bounded(s: Saga) {
    match s
    case Creating(_, _, lines, done) => done <= |lines|
    case Undoing(_, _, lines, left) => left <= |lines|
    case Cancelling(_, _, lines, done) => done <= |lines|
    case Restoring(_, _, lines, next, done) => next <= done <= |lines|
  }

  function SagaShare(sagas: map<SagaId, Saga>, p: ProductId, wh: WarehouseId, r: Reference): SagaId -> int {
    (id: SagaId) => if id in sagas then SagaPart(sagas[id], p, wh, r) else 0
  }

  ghost function InFlight(sagas: map<SagaId, Saga>, p: ProductId, wh: WarehouseId, r: Reference): int {
    SumSet(sagas.Keys, SagaShare(sagas, p, wh, r))
  }

  /** What the ledger should show for an order: the order itself, the sagas in flight on it, and the drift. */
  ghost function Books(w: World, p: ProductId, wh: WarehouseId, r: Reference): int {
    OrderShare(w.orders, p, wh, r) + InFlight(w.sagas, p, wh, r) + DriftAt(w, Place(p, wh, r))
  }

  ghost predicate Balanced(w: World, p: ProductId, wh: WarehouseId, r: Reference) {
    Outstanding(w.stock.movements, p, wh, r) == Books(w, p, wh, r)
  }

  // ---------------------------------------------------------------- the shape of a reachable world

  ghost predicate SagaFits(w: World, s: Saga) {
    && Bounded(s) && ValidLines(s.lines) && s.order in w.used
    && (s.Creating? || s.Undoing? ==> s.order !in w.orders)
    && (s.Restoring? ==> s.order in w.orders)
    && (s.Cancelling? ==> s.order in w.orders && w.orders[s.order] == Order(RESERVED, s.warehouse, s.lines))
  }

  /** Only one saga creates an order, and only one at a time holds its row to cancel it. */
  predicate Exclusive(s: Saga, t: Saga) {
    s.order == t.order ==> (s.Creating? || s.Undoing? || s.Cancelling?) ==> t.Restoring?
  }

  ghost predicate Shape(w: World) {
    && w.orders.Keys <= w.used
    && (forall r :: r in w.orders ==> ValidLines(w.orders[r].lines) && w.orders[r].status != PENDING)
    && (forall id :: id in w.sagas ==> SagaFits(w, w.sagas[id]))
    && (forall a, b :: a in w.sagas && b in w.sagas && a != b ==> Exclusive(w.sagas[a], w.sagas[b]))
  }
}
