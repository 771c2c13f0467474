/**
The inventory service's stock operations: balances per product and warehouse, and the append-only log of movements.

The operations are given as functions here; the class in the module Inventory performs them in place.  Products,
warehouses and references are compared for equality only, so naturals stand for their UUIDs and strings.  Each
operation is one transaction that locks the balances it changes.
*/
module Ledger {
  import opened Options
  import opened Sums

  type ProductId = nat
  type WarehouseId = nat
  type Reference = nat
  type TransferId = nat
  type Quantity = n: nat | n > 0 witness 1
  type Key = (ProductId, WarehouseId)

  datatype Balance = Balance(onHand: int, reserved: int)

  datatype Kind = RECEIPT | ISSUE | RESERVATION | RELEASE | TRANSFER_OUT | TRANSFER_IN

  datatype Movement = Movement(
    product: ProductId, warehouse: WarehouseId, kind: Kind, onHandDelta: int, reservedDelta: int,
    onHandAfter: int, reservedAfter: int, reference: Option<Reference>, transferId: Option<TransferId>)

  datatype Stock = Stock(products: set<ProductId>, balances: map<Key, Balance>, movements: seq<Movement>)

  datatype StockOp =
    | Receive(product: ProductId, warehouse: WarehouseId, quantity: Quantity, note: Option<Reference>)
    | Issue(product: ProductId, warehouse: WarehouseId, quantity: Quantity, note: Option<Reference>)
    | Reserve(product: ProductId, warehouse: WarehouseId, quantity: Quantity, owner: Reference)
    | Release(product: ProductId, warehouse: WarehouseId, quantity: Quantity, owner: Reference)
    | Transfer(product: ProductId, source: WarehouseId, target: WarehouseId, quantity: Quantity, note: Option<Reference>,
               id: TransferId)

  datatype Error =
    | ProductNotFound
    | InsufficientStock(available: int, requested: int)
    | ReservationAlreadyExists(reserved: int)
    | InsufficientReserved(reserved: int, requested: int)
    | SameWarehouse
    | CommitFailed

  // ---------------------------------------------------------------- queries

  function BalanceOf(l: Stock, k: Key): Balance {
    if k in l.balances then l.balances[k] else Balance(0, 0)
  }

  function Available(l: Stock, k: Key): int {
    if k in l.balances then l.balances[k].onHand - l.balances[k].reserved else 0
  }

  function RefDelta(p: ProductId, w: WarehouseId, r: Reference): Movement -> int {
    (m: Movement) =>
      if m.product == p && m.warehouse == w && m.reference == Some(r) && (m.kind == RESERVATION || m.kind == RELEASE)
      then m.reservedDelta else 0
  }

  /** What is still reserved for one reference: the sum of its RESERVATION and RELEASE deltas. */
  function Outstanding(ms: seq<Movement>, p: ProductId, w: WarehouseId, r: Reference): int {
    SumSeq(ms, RefDelta(p, w, r))
  }

  function Min(a: int, b: int): int {
    if a <= b then a else b
  }

  // ---------------------------------------------------------------- operations

  /** The error an operation raises, if it does. */
  function Check(l: Stock, op: StockOp): Option<Error> {
    if op.product !in l.products then Some(ProductNotFound)
    else
      match op
      case Receive(_, _, _, _) => None
      case Issue(p, w, q, _) =>
        if (p, w) !in l.balances || q > Available(l, (p, w)) then Some(InsufficientStock(Available(l, (p, w)), q)) else None
      case Reserve(p, w, q, r) =>
        var held := Outstanding(l.movements, p, w, r);
        if held > 0 then Some(ReservationAlreadyExists(held))
        else if (p, w) !in l.balances || q > Available(l, (p, w)) then Some(InsufficientStock(Available(l, (p, w)), q))
        else None
      case Release(p, w, q, r) =>
        var releasable :=
          if (p, w) in l.balances then Min(Outstanding(l.movements, p, w, r), l.balances[(p, w)].reserved) else 0;
        if (p, w) !in l.balances || q > releasable then Some(InsufficientReserved(releasable, q)) else None
      case Transfer(p, source, target, q, _, _) =>
        if source == target then Some(SameWarehouse)
        else if (p, source) !in l.balances || q > Available(l, (p, source))
        then Some(InsufficientStock(Available(l, (p, source)), q)) else None
  }

  /** Change one balance and append the movement that records it. */
  function Post(l: Stock, k: Key, kind: Kind, onHand: int, reserved: int, ref: Option<Reference>, id: Option<TransferId>)
    : Stock
  {
    var b := BalanceOf(l, k);
    var b1 := Balance(b.onHand + onHand, b.reserved + reserved);
    l.(balances := l.balances[k := b1],
       movements := l.movements + [Movement(k.0, k.1, kind, onHand, reserved, b1.onHand, b1.reserved, ref, id)])
  }

  /** What a successful operation does.  The id of a transfer is whatever was drawn for it. */
  function Effect(l: Stock, op: StockOp): Stock {
    match op
    case Receive(p, w, q, note) => Post(l, (p, w), RECEIPT, q, 0, note, None)
    case Issue(p, w, q, note) => Post(l, (p, w), ISSUE, -(q as int), 0, note, None)
    case Reserve(p, w, q, r) => Post(l, (p, w), RESERVATION, 0, q, Some(r), None)
    case Release(p, w, q, r) => Post(l, (p, w), RELEASE, 0, -(q as int), Some(r), None)
    case Transfer(p, source, target, q, note, id) =>
      Post(Post(l, (p, source), TRANSFER_OUT, -(q as int), 0, note, Some(id)), (p, target), TRANSFER_IN, q, 0, note, Some(id))
  }

  /** One transaction: all of it, or on an error nothing. */
  function Transact(l: Stock, op: StockOp): Stock {
    if Check(l, op).None? then Effect(l, op) else l
  }

  function RunStock(l: Stock, ops: seq<StockOp>): Stock
    decreases |ops|
  {
    if ops == [] then l else RunStock(Transact(l, ops[0]), ops[1..])
  }

  function Opening(products: set<ProductId>): Stock {
    Stock(products, map[], [])
  }

  // ---------------------------------------------------------------- what the log adds up to

  function OnHandDelta(p: ProductId, w: WarehouseId): Movement -> int {
    (m: Movement) => if m.product == p && m.warehouse == w then m.onHandDelta else 0
  }

  function ReservedDelta(p: ProductId, w: WarehouseId): Movement -> int {
    (m: Movement) => if m.product == p && m.warehouse == w then m.reservedDelta else 0
  }

  function OnHandSum(ms: seq<Movement>, p: ProductId, w: WarehouseId): int {
    SumSeq(ms, OnHandDelta(p, w))
  }

  function ReservedSum(ms: seq<Movement>, p: ProductId, w: WarehouseId): int {
    SumSeq(ms, ReservedDelta(p, w))
  }

  // ---------------------------------------------------------------- the invariant

  /** Every balance is the sum of its log and satisfies the table constraints. */
  ghost predicate BalancesAgree(l: Stock) {
    forall p, w ::
      && BalanceOf(l, (p, w)) == Balance(OnHandSum(l.movements, p, w), ReservedSum(l.movements, p, w))
      && 0 <= BalanceOf(l, (p, w)).reserved <= BalanceOf(l, (p, w)).onHand
  }

  /** The after-fields of a movement are the sums over its product and warehouse up to and including it. */
  ghost predicate AfterFieldsAgree(ms: seq<Movement>) {
    forall i :: 0 <= i < |ms| ==>
      && ms[i].onHandAfter == OnHandSum(ms[..i + 1], ms[i].product, ms[i].warehouse)
      && ms[i].reservedAfter == ReservedSum(ms[..i + 1], ms[i].product, ms[i].warehouse)
  }

  ghost predicate OwnersNonNegative(ms: seq<Movement>) {
    forall p, w, r :: Outstanding(ms, p, w, r) >= 0
  }

  /** The sign and shape each kind of movement has. */
  predicate Shaped(m: Movement) {
    match m.kind
    case RECEIPT => m.onHandDelta > 0 && m.reservedDelta == 0
    case ISSUE => m.onHandDelta < 0 && m.reservedDelta == 0
    case RESERVATION => m.onHandDelta == 0 && m.reservedDelta > 0 && m.reference.Some?
    case RELEASE => m.onHandDelta == 0 && m.reservedDelta < 0 && m.reference.Some?
    case TRANSFER_OUT => m.onHandDelta < 0 && m.reservedDelta == 0
    case TRANSFER_IN => m.onHandDelta > 0 && m.reservedDelta == 0
  }

  /** Both halves of a transfer stand side by side in the log under one id, and nothing else has an id. */
  ghost predicate TransfersPaired(ms: seq<Movement>) {
    && (forall i :: 0 <= i < |ms| && ms[i].kind == TRANSFER_OUT ==>
          && ms[i].transferId.Some? && i + 1 < |ms| && ms[i + 1].kind == TRANSFER_IN
          && ms[i + 1].transferId == ms[i].transferId
          && ms[i + 1].product == ms[i].product && ms[i + 1].warehouse != ms[i].warehouse
          && ms[i + 1].onHandDelta == -ms[i].onHandDelta)
    && (forall i :: 0 <= i < |ms| && ms[i].kind == TRANSFER_IN ==>
          i > 0 && ms[i - 1].kind == TRANSFER_OUT)
    && (forall i :: 0 <= i < |ms| && ms[i].transferId.Some? ==> ms[i].kind == TRANSFER_OUT || ms[i].kind == TRANSFER_IN)
  }

  /** No two transfers have the same id. */
  ghost predicate OneTransferEach(ms: seq<Movement>) {
    forall i, k :: 0 <= i < k < |ms| && ms[i].kind == TRANSFER_OUT && ms[k].kind == TRANSFER_OUT ==>
      ms[i].transferId != ms[k].transferId
  }

  /** A transfer that takes effect drew an id that no movement has. */
  predicate DrawsFresh(l: Stock, op: StockOp) {
    op.Transfer? && Check(l, op).None? ==> forall m :: m in l.movements ==> m.transferId != Some(op.id)
  }

  predicate AlwaysDrawsFresh(l: Stock, ops: seq<StockOp>)
    decreases |ops|
  {
    ops == [] || (DrawsFresh(l, ops[0]) && AlwaysDrawsFresh(Transact(l, ops[0]), ops[1..]))
  }

  ghost predicate StockOk(l: Stock) {
    && BalancesAgree(l)
    && AfterFieldsAgree(l.movements)
    && OwnersNonNegative(l.movements)
    && (forall m :: m in l.movements ==> Shaped(m) && m.product in l.products)
  }

  /** The sums after one more movement. */
  lemma PostSums(ms: seq<Movement>, m: Movement)
    ensures forall p, w :: OnHandSum(ms + [m], p, w) == OnHandSum(ms, p, w) + OnHandDelta(p, w)(m)
    ensures forall p, w :: ReservedSum(ms + [m], p, w) == ReservedSum(ms, p, w) + ReservedDelta(p, w)(m)
    ensures forall p, w, r :: Outstanding(ms + [m], p, w, r) == Outstanding(ms, p, w, r) + RefDelta(p, w, r)(m)
  {
    forall p, w
      ensures OnHandSum(ms + [m], p, w) == OnHandSum(ms, p, w) + OnHandDelta(p, w)(m)
      ensures ReservedSum(ms + [m], p, w) == ReservedSum(ms, p, w) + ReservedDelta(p, w)(m)
    {
      SumSeqAppend(ms, m, OnHandDelta(p, w));
      SumSeqAppend(ms, m, ReservedDelta(p, w));
    }
    forall p, w, r
      ensures Outstanding(ms + [m], p, w, r) == Outstanding(ms, p, w, r) + RefDelta(p, w, r)(m)
    {
      SumSeqAppend(ms, m, RefDelta(p, w, r));
    }
  }

  /** A movement that the balance and its owner can bear keeps the invariant. */
  lemma PostOk(l: Stock, k: Key, kind: Kind, onHand: int, reserved: int, ref: Option<Reference>, id: Option<TransferId>)
    requires StockOk(l) && k.0 in l.products
    requires var b := BalanceOf(l, k); 0 <= b.reserved + reserved <= b.onHand + onHand
    requires kind == RELEASE ==> ref.Some? && Outstanding(l.movements, k.0, k.1, ref.value) + reserved >= 0
    requires Shaped(Movement(k.0, k.1, kind, onHand, reserved, 0, 0, ref, id))
    ensures StockOk(Post(l, k, kind, onHand, reserved, ref, id))
  {
    var l1 := Post(l, k, kind, onHand, reserved, ref, id);
    var m := l1.movements[|l.movements|];
    PostBalances(l, k, kind, onHand, reserved, ref, id);
    PostOwners(l, m);
    assert BalanceOf(l1, (k.0, k.1)) == Balance(m.onHandAfter, m.reservedAfter);
    assert AfterFieldsAgree(l1.movements) by {
      assert Balance(OnHandSum(l1.movements, k.0, k.1), ReservedSum(l1.movements, k.0, k.1)) == BalanceOf(l1, (k.0, k.1));
      AfterFieldsGrow(l.movements, m);
    }
    assert forall x :: x in l1.movements ==> x in l.movements || x == m;
  }

  lemma PostBalances(
      l: Stock, k: Key, kind: Kind, onHand: int, reserved: int, ref: Option<Reference>, id: Option<TransferId>)
    requires BalancesAgree(l)
    requires var b := BalanceOf(l, k); 0 <= b.reserved + reserved <= b.onHand + onHand
    ensures BalancesAgree(Post(l, k, kind, onHand, reserved, ref, id))
  {
    var l1 := Post(l, k, kind, onHand, reserved, ref, id);
    PostSums(l.movements, l1.movements[|l.movements|]);
    forall p, w
      ensures BalanceOf(l1, (p, w)) == Balance(OnHandSum(l1.movements, p, w), ReservedSum(l1.movements, p, w))
      ensures 0 <= BalanceOf(l1, (p, w)).reserved <= BalanceOf(l1, (p, w)).onHand
    {
      assert BalanceOf(l, (p, w)) == Balance(OnHandSum(l.movements, p, w), ReservedSum(l.movements, p, w));
    }
  }

  lemma PostOwners(l: Stock, m: Movement)
    requires OwnersNonNegative(l.movements) && Shaped(m)
    requires m.kind == RELEASE ==> Outstanding(l.movements, m.product, m.warehouse, m.reference.value) + m.reservedDelta >= 0
    ensures OwnersNonNegative(l.movements + [m])
  {
    PostSums(l.movements, m);
  }

  lemma AfterFieldsGrow(ms: seq<Movement>, m: Movement)
    requires AfterFieldsAgree(ms)
    requires m.onHandAfter == OnHandSum(ms + [m], m.product, m.warehouse)
    requires m.reservedAfter == ReservedSum(ms + [m], m.product, m.warehouse)
    ensures AfterFieldsAgree(ms + [m])
  {
    var all := ms + [m];
    forall i | 0 <= i < |all|
      ensures all[i].onHandAfter == OnHandSum(all[..i + 1], all[i].product, all[i].warehouse)
      ensures all[i].reservedAfter == ReservedSum(all[..i + 1], all[i].product, all[i].warehouse)
    {
      if i < |ms| {
        assert all[..i + 1] == ms[..i + 1] && all[i] == ms[i];
      } else {
        assert all[..i + 1] == all;
      }
    }
  }
}
