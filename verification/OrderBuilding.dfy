/**
The line loop of `_build_order`: prices are looked up one by one, rounded half up to cents, multiplied and added.
*/
module OrderBuilding {
  import opened Options
  import opened Sums
  import opened Sagas

  /** The inventory service's answer for one product: an error, or its price. */
  datatype Lookup = Refused | Priced(price: real)

  datatype Item = Item(line: Line, unitCents: nat, totalCents: nat)

  datatype BuildError = LookupFailed | NegativePrice

  /** `quantize` to cents, ROUND_HALF_UP. */
  function HalfUp(amount: real): (cents: nat)
    requires amount >= 0.0
    ensures -0.5 < cents as real - 100.0 * amount <= 0.5
  {
    (100.0 * amount + 0.5).Floor
  }

  /** A product of rounded cents and a quantity is not changed by rounding it again. */
  lemma WholeCentsStay(cents: nat, quantity: nat)
    ensures HalfUp(cents as real / 100.0 * quantity as real) == cents * quantity
  {
  }

  /** The item of a line whose price is known. */
  predicate ItemFor(item: Item, line: Line, price: real) {
    && item.line == line
    && -0.5 < item.unitCents as real - 100.0 * price <= 0.5
    && item.totalCents == item.unitCents * line.quantity
  }

  /** Either every line gets its item and the total is their sum, or the first unusable answer is reported. */
  method BuildOrder(lines: seq<Line>, lookups: seq<Lookup>) returns (error: Option<BuildError>, items: seq<Item>, total: nat)
    requires |lookups| == |lines|
    ensures error.None? <==> forall i :: 0 <= i < |lines| ==> lookups[i].Priced? && lookups[i].price >= 0.0
    ensures error.None? ==> |items| == |lines| && total == SumSeq(items, (item: Item) => item.unitCents * item.line.quantity)
    ensures error.None? ==> forall i :: 0 <= i < |lines| ==> ItemFor(items[i], lines[i], lookups[i].price)
    ensures error.Some? ==>
              && |items| < |lines|
              && (forall i :: 0 <= i < |items| ==> lookups[i].Priced? && lookups[i].price >= 0.0)
              && (error.value == LookupFailed ==> lookups[|items|].Refused?)
              && (error.value == NegativePrice ==> lookups[|items|].Priced? && lookups[|items|].price < 0.0)
  {
    items, total := [], 0;
    ghost var cents := (item: Item) => item.unitCents * item.line.quantity;
    for n := 0 to |lines|
      invariant |items| == n && total == SumSeq(items, cents)
      invariant forall i :: 0 <= i < n ==>
                  lookups[i].Priced? && lookups[i].price >= 0.0 && ItemFor(items[i], lines[i], lookups[i].price)
    {
      if lookups[n].Refused? {
        return Some(LookupFailed), items, total;
      }
      if lookups[n].price < 0.0 {
        return Some(NegativePrice), items, total;
      }
      var unit := HalfUp(lookups[n].price);
      var lineTotal := HalfUp(unit as real / 100.0 * lines[n].quantity as real);
      WholeCentsStay(unit, lines[n].quantity);
      var item := Item(lines[n], unit, lineTotal);
      SumSeqAppend(items, item, cents);
      items, total := items + [item], total + lineTotal;
    }
    error := None;
  }
}
