/** What holds of the stock ledger after any sequence of operations. */
module LedgerRuns {
  import opened Options
  import opened Sums
  import opened Ledger

  lemma BalanceBounds(l: Stock, k: Key)
    requires StockOk(l)
    ensures 0 <= BalanceOf(l, k).reserved <= BalanceOf(l, k).onHand
  {
  }

  lemma TransactOk(l: Stock, op: StockOp)
    requires StockOk(l)
    ensures StockOk(Transact(l, op))
  {
    hide StockOk, Outstanding, Post;
    if Check(l, op).None? {
      match op
      case Receive(p, w, q, note) =>
        BalanceBounds(l, (p, w));
        PostOk(l, (p, w), RECEIPT, q, 0, note, None);
      case Issue(p, w, q, note) =>
        BalanceBounds(l, (p, w));
        PostOk(l, (p, w), ISSUE, -(q as int), 0, note, None);
      case Reserve(p, w, q, r) =>
        BalanceBounds(l, (p, w));
        PostOk(l, (p, w), RESERVATION, 0, q, Some(r), None);
      case Release(p, w, q, r) =>
        BalanceBounds(l, (p, w));
        PostOk(l, (p, w), RELEASE, 0, -(q as int), Some(r), None);
      case Transfer(p, source, target, q, note, id) =>
        TransferOk(l, p, source, target, q, note, id);
    }
  }

  lemma TransferOk(
      l: Stock, p: ProductId, source: WarehouseId, target: WarehouseId, q: Quantity, note: Option<Reference>,
      transfer: TransferId)
    requires StockOk(l) && p in l.products && source != target && (p, source) in l.balances && q <= Available(l, (p, source))
    ensures StockOk(Effect(l, Transfer(p, source, target, q, note, transfer)))
  {
    hide StockOk, Post, Available;
    var id := Some(transfer);
    var l1 := Post(l, (p, source), TRANSFER_OUT, -(q as int), 0, note, id);
    HalfTransferOk(l, (p, source), TRANSFER_OUT, -(q as int), note, id);
    HalfTransferOk(l1, (p, target), TRANSFER_IN, q, note, id);
  }

  lemma HalfTransferOk(l: Stock, k: Key, kind: Kind, onHand: int, note: Option<Reference>, id: Option<TransferId>)
    requires StockOk(l) && k.0 in l.products
    requires (kind == TRANSFER_OUT && k in l.balances && 0 < -onHand <= Available(l, k)) || (kind == TRANSFER_IN && onHand > 0)
    ensures StockOk(Post(l, k, kind, onHand, 0, note, id)) && Post(l, k, kind, onHand, 0, note, id).products == l.products
  {
    hide StockOk, Outstanding;
    BalanceBounds(l, k);
    PostOk(l, k, kind, onHand, 0, note, id);
  }

  lemma PlainKeepsPairs(ms: seq<Movement>, m: Movement)
    requires TransfersPaired(ms) && m.kind != TRANSFER_OUT && m.kind != TRANSFER_IN && m.transferId.None?
    ensures TransfersPaired(ms + [m])
  {
    var ms1 := ms + [m];
    assert forall i :: 0 <= i < |ms| ==> ms1[i] == ms[i];
  }

  lemma PairKeepsPairs(ms: seq<Movement>, out: Movement, into: Movement)
    requires TransfersPaired(ms) && out.kind == TRANSFER_OUT && into.kind == TRANSFER_IN
    requires out.transferId == into.transferId && out.transferId.Some? && out.product == into.product
    requires out.warehouse != into.warehouse && into.onHandDelta == -out.onHandDelta
    ensures TransfersPaired(ms + [out] + [into])
  {
    var ms1 := ms + [out] + [into];
    assert forall i :: 0 <= i < |ms| ==> ms1[i] == ms[i];
    assert ms1[|ms|] == out && ms1[|ms| + 1] == into;
  }

  lemma TransactPairs(l: Stock, op: StockOp)
    requires TransfersPaired(l.movements)
    ensures TransfersPaired(Transact(l, op).movements)
    ensures l.movements <= Transact(l, op).movements
  {
    hide TransfersPaired;
    if Check(l, op).None? {
      var ms := Effect(l, op).movements;
      if op.Transfer? {
        PairKeepsPairs(l.movements, ms[|l.movements|], ms[|l.movements| + 1]);
      } else {
        PlainKeepsPairs(l.movements, ms[|l.movements|]);
      }
    }
  }

  /** The ledger invariant in every reachable state; the log is only ever appended to. */
  lemma {:induction false} LedgerAlwaysAgrees(l: Stock, ops: seq<StockOp>)
    requires StockOk(l) && TransfersPaired(l.movements)
    ensures StockOk(RunStock(l, ops)) && TransfersPaired(RunStock(l, ops).movements)
    ensures l.movements <= RunStock(l, ops).movements
    decreases |ops|
  {
    if ops != [] {
      TransactOk(l, ops[0]);
      TransactPairs(l, ops[0]);
      LedgerAlwaysAgrees(Transact(l, ops[0]), ops[1..]);
    }
  }

  // ---------------------------------------------------------------- transfer ids

  lemma {:induction false} LogOnlyGrows(l: Stock, ops: seq<StockOp>)
    ensures l.movements <= RunStock(l, ops).movements
    decreases |ops|
  {
    if ops != [] {
      assert l.movements <= Transact(l, ops[0]).movements;
      LogOnlyGrows(Transact(l, ops[0]), ops[1..]);
    }
  }

  lemma NewPairIsApart(ms: seq<Movement>, out: Movement, into: Movement)
    requires TransfersPaired(ms) && OneTransferEach(ms)
    requires out.kind == TRANSFER_OUT && into.kind == TRANSFER_IN && out.transferId.Some?
    ensures OneTransferEach(ms + [out] + [into]) <==> forall m :: m in ms ==> m.transferId != out.transferId
  {
    var ms1 := ms + [out] + [into];
    assert forall i :: 0 <= i < |ms| ==> ms1[i] == ms[i] && ms[i] in ms;
    assert ms1[|ms|] == out && ms1[|ms| + 1] == into;
    if i :| 0 <= i < |ms| && ms[i].transferId == out.transferId {
      var k := if ms[i].kind == TRANSFER_OUT then i else i - 1;
      assert ms1[k].kind == TRANSFER_OUT && ms1[k].transferId == out.transferId;
    }
  }

  lemma FreshDrawKeepsIdsApart(l: Stock, op: StockOp)
    requires TransfersPaired(l.movements) && OneTransferEach(l.movements)
    ensures OneTransferEach(Transact(l, op).movements) <==> DrawsFresh(l, op)
  {
    if Check(l, op).None? {
      var ms, ms1 := l.movements, Effect(l, op).movements;
      hide Check;
      if op.Transfer? {
        assert ms1 == ms + [ms1[|ms|]] + [ms1[|ms| + 1]];
        hide OneTransferEach, TransfersPaired;
        NewPairIsApart(ms, ms1[|ms|], ms1[|ms| + 1]);
      } else {
        assert ms1 == ms + [ms1[|ms|]];
      }
    }
  }

  /** Transfers are told apart by their ids exactly when every transfer that took effect drew a fresh one. */
  lemma {:induction false} FreshDrawsKeepIdsApart(l: Stock, ops: seq<StockOp>)
    requires TransfersPaired(l.movements) && OneTransferEach(l.movements)
    ensures OneTransferEach(RunStock(l, ops).movements) <==> AlwaysDrawsFresh(l, ops)
    decreases |ops|
  {
    if ops != [] {
      FreshDrawKeepsIdsApart(l, ops[0]);
      hide DrawsFresh, Transact, OneTransferEach, TransfersPaired;
      TransactPairs(l, ops[0]);
      if DrawsFresh(l, ops[0]) {
        FreshDrawsKeepIdsApart(Transact(l, ops[0]), ops[1..]);
      } else {
        LogOnlyGrows(Transact(l, ops[0]), ops[1..]);
        SharedIdStays(Transact(l, ops[0]).movements, RunStock(l, ops).movements);
      }
    }
  }

  lemma SharedIdStays(ms: seq<Movement>, longer: seq<Movement>)
    requires ms <= longer && !OneTransferEach(ms)
    ensures !OneTransferEach(longer)
  {
    var i, k :| 0 <= i < k < |ms| && ms[i].kind == TRANSFER_OUT && ms[k].kind == TRANSFER_OUT
                && ms[i].transferId == ms[k].transferId;
    assert longer[i] == ms[i] && longer[k] == ms[k];
  }

  /** Every ledger that operations lead to from an empty one. */
  lemma EveryReachableLedgerAgrees(products: set<ProductId>, ops: seq<StockOp>)
    ensures var l := RunStock(Opening(products), ops);
            && StockOk(l) && TransfersPaired(l.movements)
            && (OneTransferEach(l.movements) <==> AlwaysDrawsFresh(Opening(products), ops))
  {
    LedgerAlwaysAgrees(Opening(products), ops);
    FreshDrawsKeepIdsApart(Opening(products), ops);
  }

  // ---------------------------------------------------------------- partition of reserved stock by owner

  /** The references that ever reserved or released anything. */
  function Owners(ms: seq<Movement>): set<Reference> {
    set m | m in ms && m.reference.Some? && (m.kind == RESERVATION || m.kind == RELEASE) :: m.reference.value
  }

  function OwnerShare(ms: seq<Movement>, p: ProductId, w: WarehouseId): Reference -> int {
    (r: Reference) => Outstanding(ms, p, w, r)
  }

  lemma {:induction false} ReservedIsSumOfOwners(ms: seq<Movement>, owners: set<Reference>, p: ProductId, w: WarehouseId)
    requires Owners(ms) <= owners && forall m :: m in ms ==> Shaped(m)
    ensures ReservedSum(ms, p, w) == SumSet(owners, OwnerShare(ms, p, w))
  {
    if ms == [] {
      SumSetZero(owners, OwnerShare(ms, p, w));
    } else {
      var n := |ms| - 1;
      var f, m := ms[..n], ms[n];
      assert ms == f + [m] && m in ms;
      assert Owners(f) <= owners by { assert forall x :: x in f ==> x in ms; }
      ReservedIsSumOfOwners(f, owners, p, w);
      PostSums(f, m);
      if m.kind == RESERVATION || m.kind == RELEASE {
        var r := m.reference.value;
        assert r in Owners(ms);
        ChangeOne(owners, OwnerShare(f, p, w), OwnerShare(ms, p, w), r);
      } else {
        SameOn(owners, OwnerShare(f, p, w), OwnerShare(ms, p, w));
      }
    }
  }

  /** Reserved stock is partitioned by reference: the owners' shares add up to it and none exceeds it. */
  lemma ReservedPartition(l: Stock, p: ProductId, w: WarehouseId, r: Reference)
    requires StockOk(l)
    ensures BalanceOf(l, (p, w)).reserved == SumSet(Owners(l.movements), OwnerShare(l.movements, p, w))
    ensures 0 <= Outstanding(l.movements, p, w, r) <= BalanceOf(l, (p, w)).reserved
  {
    var owners := Owners(l.movements);
    ReservedIsSumOfOwners(l.movements, owners, p, w);
    ReservedIsSumOfOwners(l.movements, owners + {r}, p, w);
    AtLeastEach(owners + {r}, OwnerShare(l.movements, p, w), r);
  }

  /** The defensive minimum never cuts: a release is accepted exactly up to what its reference still holds. */
  lemma ReleaseAcceptedUpToOutstanding(l: Stock, p: ProductId, w: WarehouseId, q: Quantity, r: Reference)
    requires StockOk(l)
    ensures Check(l, Release(p, w, q, r)).None? <==> q <= Outstanding(l.movements, p, w, r)
  {
    ReservedPartition(l, p, w, r);
    UnknownProductHasNothing(l, p, w, r);
  }

  lemma UnknownProductHasNothing(l: Stock, p: ProductId, w: WarehouseId, r: Reference)
    requires StockOk(l)
    ensures p !in l.products ==> Outstanding(l.movements, p, w, r) == 0
  {
    if p !in l.products {
      SumSeqZero(l.movements, RefDelta(p, w, r));
    }
  }

  /** A reservation is accepted exactly when its reference holds nothing here and enough stock is free. */
  lemma ReserveAcceptedIff(l: Stock, p: ProductId, w: WarehouseId, q: Quantity, r: Reference)
    requires StockOk(l)
    ensures Check(l, Reserve(p, w, q, r)).None? <==>
            p in l.products && Outstanding(l.movements, p, w, r) == 0
            && q <= BalanceOf(l, (p, w)).onHand - BalanceOf(l, (p, w)).reserved
  {
  }

  predicate Concerns(op: StockOp, p: ProductId, w: WarehouseId, r: Reference) {
    (op.Reserve? || op.Release?) && op.product == p && op.warehouse == w && op.owner == r
  }

  lemma OthersKeepOutstanding(l: Stock, op: StockOp, p: ProductId, w: WarehouseId, r: Reference)
    requires !Concerns(op, p, w, r)
    ensures Outstanding(Transact(l, op).movements, p, w, r) == Outstanding(l.movements, p, w, r)
    ensures Transact(l, op).products == l.products
  {
    if Check(l, op).None? {
      hide Check, Outstanding;
      if op.Transfer? {
        var l1 := Post(l, (op.product, op.source), TRANSFER_OUT, -(op.quantity as int), 0, op.note, Some(op.id));
        OneMoreOutstanding(l.movements, l1.movements[|l.movements|], p, w, r);
        OneMoreOutstanding(l1.movements, Effect(l, op).movements[|l1.movements|], p, w, r);
      } else {
        OneMoreOutstanding(l.movements, Effect(l, op).movements[|l.movements|], p, w, r);
      }
    }
  }

  lemma OneMoreOutstanding(ms: seq<Movement>, m: Movement, p: ProductId, w: WarehouseId, r: Reference)
    ensures Outstanding(ms + [m], p, w, r) == Outstanding(ms, p, w, r) + RefDelta(p, w, r)(m)
  {
    PostSums(ms, m);
  }

  /** Whatever happens to other references, the owner can still release what it holds. */
  lemma {:induction false} OwnerCanAlwaysRelease(
      l: Stock, ops: seq<StockOp>, p: ProductId, w: WarehouseId, q: Quantity, r: Reference)
    requires StockOk(l) && q <= Outstanding(l.movements, p, w, r)
    requires forall i :: 0 <= i < |ops| ==> !Concerns(ops[i], p, w, r)
    ensures Check(RunStock(l, ops), Release(p, w, q, r)).None?
    decreases |ops|
  {
    if ops == [] {
      ReleaseAcceptedUpToOutstanding(l, p, w, q, r);
    } else {
      TransactOk(l, ops[0]);
      OthersKeepOutstanding(l, ops[0], p, w, r);
      OwnerCanAlwaysRelease(Transact(l, ops[0]), ops[1..], p, w, q, r);
    }
  }

  // ---------------------------------------------------------------- conservation over warehouses

  function KindDelta(p: ProductId, kinds: set<Kind>): Movement -> int {
    (m: Movement) => if m.product == p && m.kind in kinds then m.onHandDelta else 0
  }

  function Warehouses(ms: seq<Movement>): set<WarehouseId> {
    set m | m in ms :: m.warehouse
  }

  function WarehouseShare(ms: seq<Movement>, p: ProductId): WarehouseId -> int {
    (w: WarehouseId) => OnHandSum(ms, p, w)
  }

  function ProductDelta(p: ProductId): Movement -> int {
    (m: Movement) => if m.product == p then m.onHandDelta else 0
  }

  lemma {:induction false} OnHandIsSumOfWarehouses(ms: seq<Movement>, ws: set<WarehouseId>, p: ProductId)
    requires Warehouses(ms) <= ws
    ensures SumSet(ws, WarehouseShare(ms, p)) == SumSeq(ms, ProductDelta(p))
  {
    if ms == [] {
      SumSetZero(ws, WarehouseShare(ms, p));
    } else {
      var n := |ms| - 1;
      var f, m := ms[..n], ms[n];
      assert ms == f + [m] && m in ms;
      assert Warehouses(f) <= ws by { assert forall x :: x in f ==> x in ms; }
      OnHandIsSumOfWarehouses(f, ws, p);
      PostSums(f, m);
      assert m.warehouse in Warehouses(ms);
      ChangeOne(ws, WarehouseShare(f, p), WarehouseShare(ms, p), m.warehouse);
    }
  }

  /** A sum over movement kinds splits, and reservations leave stock on hand alone. */
  lemma {:induction false} SplitByKind(ms: seq<Movement>, p: ProductId)
    requires forall m :: m in ms ==> Shaped(m)
    ensures SumSeq(ms, ProductDelta(p)) ==
            SumSeq(ms, KindDelta(p, {RECEIPT})) + SumSeq(ms, KindDelta(p, {ISSUE}))
            + SumSeq(ms, KindDelta(p, {TRANSFER_OUT, TRANSFER_IN}))
  {
    if ms != [] {
      SplitByKind(ms[..|ms| - 1], p);
      assert ms[|ms| - 1] in ms;
    }
  }

  lemma {:induction false} TransfersCancel(ms: seq<Movement>, p: ProductId, n: nat)
    requires TransfersPaired(ms) && n <= |ms|
    ensures SumSeq(ms[..n], KindDelta(p, {TRANSFER_OUT, TRANSFER_IN})) ==
            if n > 0 && ms[n - 1].kind == TRANSFER_OUT && ms[n - 1].product == p then ms[n - 1].onHandDelta else 0
  {
    if n > 0 {
      TransfersCancel(ms, p, n - 1);
      assert ms[..n][..n - 1] == ms[..n - 1];
      if n > 1 && ms[n - 1].kind == TRANSFER_IN {
        assert ms[n - 2].kind == TRANSFER_OUT;
      }
    }
  }

  /** Conservation: a product's stock over all warehouses is what was received minus what was issued. */
  lemma StockIsConserved(l: Stock, ws: set<WarehouseId>, p: ProductId)
    requires StockOk(l) && TransfersPaired(l.movements) && Warehouses(l.movements) <= ws
    ensures SumSet(ws, (w: WarehouseId) => BalanceOf(l, (p, w)).onHand)
            == SumSeq(l.movements, KindDelta(p, {RECEIPT})) + SumSeq(l.movements, KindDelta(p, {ISSUE}))
  {
    var ms := l.movements;
    OnHandIsSumOfWarehouses(ms, ws, p);
    SplitByKind(ms, p);
    TransfersCancel(ms, p, |ms|);
    assert ms[..|ms|] == ms;
    SameOn(ws, (w: WarehouseId) => BalanceOf(l, (p, w)).onHand, WarehouseShare(ms, p));
  }

  /** What the accepted receipts and issues of a run bring in. */
  function NetReceived(l: Stock, ops: seq<StockOp>, p: ProductId): int
    decreases |ops|
  {
    if ops == [] then 0
    else
      var op := ops[0];
      (if Check(l, op).Some? || op.product != p then 0
       else if op.Receive? then op.quantity else if op.Issue? then -(op.quantity as int) else 0)
      + NetReceived(Transact(l, op), ops[1..], p)
  }

  function NetDelta(ms: seq<Movement>, p: ProductId): int {
    SumSeq(ms, KindDelta(p, {RECEIPT})) + SumSeq(ms, KindDelta(p, {ISSUE}))
  }

  lemma OneMoreNet(ms: seq<Movement>, m: Movement, p: ProductId)
    ensures NetDelta(ms + [m], p)
            == NetDelta(ms, p) + if m.product == p && (m.kind == RECEIPT || m.kind == ISSUE) then m.onHandDelta else 0
  {
    SumSeqAppend(ms, m, KindDelta(p, {RECEIPT}));
    SumSeqAppend(ms, m, KindDelta(p, {ISSUE}));
  }

  lemma StepNetReceived(l: Stock, op: StockOp, p: ProductId)
    ensures NetDelta(Transact(l, op).movements, p) == NetDelta(l.movements, p) + NetReceived(l, [op], p)
  {
    assert [op][1..] == [];
    hide NetDelta, Outstanding, Available, BalanceOf;
    if Check(l, op).None? {
      var ms, ms1 := l.movements, Effect(l, op).movements;
      hide Check;
      OneMoreNet(ms, ms1[|ms|], p);
      if op.Transfer? {
        assert ms1 == ms + [ms1[|ms|]] + [ms1[|ms| + 1]];
        OneMoreNet(ms + [ms1[|ms|]], ms1[|ms| + 1], p);
      } else {
        assert ms1 == ms + [ms1[|ms|]];
      }
    }
  }

  lemma {:induction false} LogRecordsRequests(l: Stock, ops: seq<StockOp>, p: ProductId)
    ensures NetDelta(RunStock(l, ops).movements, p) == NetDelta(l.movements, p) + NetReceived(l, ops, p)
    decreases |ops|
  {
    hide Transact, Check, NetDelta;
    if ops != [] {
      StepNetReceived(l, ops[0], p);
      assert [ops[0]][1..] == [];
      LogRecordsRequests(Transact(l, ops[0]), ops[1..], p);
    }
  }

  /** Over every run from an empty ledger a product's stock is what was accepted in receipts minus issues. */
  lemma RunsConserveStock(products: set<ProductId>, ops: seq<StockOp>, ws: set<WarehouseId>, p: ProductId)
    requires Warehouses(RunStock(Opening(products), ops).movements) <= ws
    ensures var l := RunStock(Opening(products), ops);
            SumSet(ws, (w: WarehouseId) => BalanceOf(l, (p, w)).onHand) == NetReceived(Opening(products), ops, p)
  {
    EveryReachableLedgerAgrees(products, ops);
    LogRecordsRequests(Opening(products), ops, p);
    StockIsConserved(RunStock(Opening(products), ops), ws, p);
  }

  /** Each transfer id in the log labels exactly one outbound and one inbound movement, with opposite deltas. */
  lemma TransferIdsLabelPairs(ms: seq<Movement>, i: nat)
    requires TransfersPaired(ms) && OneTransferEach(ms) && i < |ms| && ms[i].transferId.Some?
    ensures exists out, into ::
              && 0 <= out < |ms| && 0 <= into < |ms|
              && ms[out].kind == TRANSFER_OUT && ms[into].kind == TRANSFER_IN
              && ms[out].product == ms[into].product && ms[out].warehouse != ms[into].warehouse
              && ms[out].onHandDelta + ms[into].onHandDelta == 0
              && (forall k :: 0 <= k < |ms| ==> (ms[k].transferId == ms[i].transferId <==> k == out || k == into))
  {
    var out := if ms[i].kind == TRANSFER_OUT then i else i - 1;
    assert ms[out].kind == TRANSFER_OUT && ms[out].transferId == ms[i].transferId;
    assert ms[out + 1].kind == TRANSFER_IN && ms[out + 1].transferId == ms[i].transferId;
    forall k | 0 <= k < |ms|
      ensures ms[k].transferId == ms[i].transferId <==> k == out || k == out + 1
    {
      if ms[k].transferId == ms[i].transferId {
        var other := if ms[k].kind == TRANSFER_OUT then k else k - 1;
        assert ms[other].kind == TRANSFER_OUT && ms[other].transferId == ms[i].transferId;
        assert other == out;
      }
    }
  }
}
