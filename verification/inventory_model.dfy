/**
  The home-inventory ledger of the Tesco Ireland integration, as values.

  The ledger maps a product key to an entry that keeps a running total and the
  delivery batches that make it up, oldest first.  Receipts append one batch
  per line; removal consumes the oldest batches first (FIFO) and deletes the
  entry once its total drops to zero or below.  The ledger is persisted as a
  versioned document, and a version-1 document is upgraded on load by giving
  every entry without batches a single "migrated" batch.

  This module holds the data model, the specification of every ledger
  operation as a function, and the lemmas about them; the stateful sensor
  that runs the operations step by step is in module InventorySensor.
*/
module InventoryModel {
  import opened Common

  /** The schema version the ledger writes. */
  const StorageVersion := 2

  /** One delivery of a product: how many units arrived, when, on which order. */
  datatype Batch = Batch(batchId: string, quantity: int, deliveredAt: string, orderNumber: Option<string>)

  /** A ledger entry: the running total and its delivery batches, oldest first. */
  datatype Entry = Entry(
    name: string,
    unit: string,
    quantity: int,
    added: Option<string>,
    lastAdded: Option<string>,
    deliveries: seq<Batch>)

  type Inventory = map<string, Entry>

  /** One line of a receipt; every field may be missing. */
  datatype ReceiptItem = ReceiptItem(id: Option<string>, name: Option<string>, quantity: Option<int>, unit: Option<string>)

  /** What every batch created by one receipt call shares. */
  datatype Delivery = Delivery(batchId: string, deliveredAt: string, orderNumber: Option<string>)

  // ---------------------------------------------------------------------------
  // Totals and the ledger invariant
  // ---------------------------------------------------------------------------

  function BatchSum(bs: seq<Batch>): int {
    if bs == [] then 0 else bs[0].quantity + BatchSum(bs[1..])
  }

  /** The ledger invariant: an entry's total is the sum of its batches. */
  predicate Consistent(e: Entry) {
    e.quantity == BatchSum(e.deliveries)
  }

  predicate AllConsistent(inv: Inventory) {
    forall k :: k in inv ==> Consistent(inv[k])
  }

  predicate NonNegativeBatches(bs: seq<Batch>) {
    forall i :: 0 <= i < |bs| ==> bs[i].quantity >= 0
  }

  predicate AllNonNegative(inv: Inventory) {
    forall k :: k in inv ==> NonNegativeBatches(inv[k].deliveries)
  }

  lemma {:induction false} BatchSumConcat(a: seq<Batch>, b: seq<Batch>)
    ensures BatchSum(a + b) == BatchSum(a) + BatchSum(b)
    decreases |a|
  {
    if a == [] {
      assert a + b == b;
    } else {
      assert (a + b)[1..] == a[1..] + b;
      BatchSumConcat(a[1..], b);
    }
  }

  // ---------------------------------------------------------------------------
  // Receipt ingestion
  // ---------------------------------------------------------------------------

  /** The key a receipt line is filed under: its id, else its name, else "unknown". */
  function ItemKey(item: ReceiptItem): string {
    match item.id
    case Some(id) => id
    case None => item.name.GetOr("unknown")
  }

  /** The quantity of a receipt line, 1 when it gives none. */
  function ItemQuantity(item: ReceiptItem): int {
    item.quantity.GetOr(1)
  }

  function BatchOf(item: ReceiptItem, d: Delivery): Batch {
    Batch(d.batchId, ItemQuantity(item), d.deliveredAt, d.orderNumber)
  }

  /** The entry created for a key seen for the first time. */
  function NewEntry(item: ReceiptItem, d: Delivery): Entry {
    Entry(item.name.GetOr("Unknown"), item.unit.GetOr("item"), ItemQuantity(item),
          Some(d.deliveredAt), Some(d.deliveredAt), [BatchOf(item, d)])
  }

  /** An existing entry after one more receipt line for its key. */
  function Restock(e: Entry, item: ReceiptItem, d: Delivery): Entry {
    e.(quantity := e.quantity + ItemQuantity(item),
       lastAdded := Some(d.deliveredAt),
       deliveries := e.deliveries + [BatchOf(item, d)])
  }

  /** One pass of the receipt loop. */
  function AddLine(inv: Inventory, item: ReceiptItem, d: Delivery): Inventory {
    var k := ItemKey(item);
    if k in inv then inv[k := Restock(inv[k], item, d)] else inv[k := NewEntry(item, d)]
  }

  /** The ledger after a whole receipt, its lines taken in order. */
  function ApplyReceipt(inv: Inventory, items: seq<ReceiptItem>, d: Delivery): Inventory
    decreases |items|
  {
    if items == [] then inv else ApplyReceipt(AddLine(inv, items[0], d), items[1..], d)
  }

  /** The keys a receipt files lines under. */
  function ReceiptKeys(items: seq<ReceiptItem>): set<string> {
    set i | 0 <= i < |items| :: ItemKey(items[i])
  }

  /** The lines of a receipt filed under key k, in receipt order. */
  function LinesFor(items: seq<ReceiptItem>, k: string): (r: seq<ReceiptItem>)
    ensures |r| <= |items|
    ensures r == [] <==> k !in ReceiptKeys(items)
  {
    if items == [] then []
    else if ItemKey(items[0]) == k then [items[0]] + LinesFor(items[1..], k)
    else
      assert ReceiptKeys(items) == {ItemKey(items[0])} + ReceiptKeys(items[1..]);
      LinesFor(items[1..], k)
  }

  function QuantityOf(items: seq<ReceiptItem>): int {
    if items == [] then 0 else ItemQuantity(items[0]) + QuantityOf(items[1..])
  }

  function BatchesOf(items: seq<ReceiptItem>, d: Delivery): (r: seq<Batch>)
    ensures |r| == |items|
    ensures forall i :: 0 <= i < |r| ==> r[i] == BatchOf(items[i], d)
  {
    if items == [] then [] else [BatchOf(items[0], d)] + BatchesOf(items[1..], d)
  }

  /** Entry e after the given lines, all filed under its key, in one receipt. */
  function RestockAll(e: Entry, items: seq<ReceiptItem>, d: Delivery): Entry {
    if items == [] then e
    else e.(quantity := e.quantity + QuantityOf(items),
            lastAdded := Some(d.deliveredAt),
            deliveries := e.deliveries + BatchesOf(items, d))
  }

  lemma RestockAllCons(e: Entry, item: ReceiptItem, rest: seq<ReceiptItem>, d: Delivery)
    ensures RestockAll(e, [item] + rest, d) == RestockAll(Restock(e, item, d), rest, d)
  {
    var items := [item] + rest;
    assert items[1..] == rest;
    if rest != [] {
      assert BatchesOf(items, d) == [BatchOf(item, d)] + BatchesOf(rest, d);
      assert e.deliveries + BatchesOf(items, d) == (e.deliveries + [BatchOf(item, d)]) + BatchesOf(rest, d);
    }
  }

  /**
    What a receipt does to one key, independently of the other lines: an
    existing entry gets the key's lines appended as batches, in receipt
    order, and its total raised by their quantities; a new key gets an entry
    built from its first line and restocked with the others; a key with no
    lines is untouched.
  */
  lemma {:induction false} ApplyReceiptAt(inv: Inventory, items: seq<ReceiptItem>, d: Delivery, k: string)
    ensures k in ApplyReceipt(inv, items, d) <==> k in inv || k in ReceiptKeys(items)
    ensures k in inv ==> ApplyReceipt(inv, items, d)[k] == RestockAll(inv[k], LinesFor(items, k), d)
    ensures k !in inv && k in ReceiptKeys(items) ==>
      var lines := LinesFor(items, k);
      ApplyReceipt(inv, items, d)[k] == RestockAll(NewEntry(lines[0], d), lines[1..], d)
    decreases |items|
  {
    if items != [] {
      var item, rest := items[0], items[1..];
      assert items == [item] + rest;
      assert ReceiptKeys(items) == {ItemKey(item)} + ReceiptKeys(rest);
      var inv' := AddLine(inv, item, d);
      ApplyReceiptAt(inv', rest, d, k);
      if ItemKey(item) == k {
        assert LinesFor(items, k) == [item] + LinesFor(rest, k);
        if k in inv {
          RestockAllCons(inv[k], item, LinesFor(rest, k), d);
        }
      }
    }
  }

  /** A receipt adds exactly the keys of its lines: native_value after ingestion. */
  lemma ApplyReceiptKeys(inv: Inventory, items: seq<ReceiptItem>, d: Delivery)
    ensures ApplyReceipt(inv, items, d).Keys == inv.Keys + ReceiptKeys(items)
    ensures |ApplyReceipt(inv, items, d)| == |inv.Keys + ReceiptKeys(items)|
  {
    var r := ApplyReceipt(inv, items, d);
    forall k | k in r.Keys + inv.Keys + ReceiptKeys(items)
      ensures k in r.Keys <==> k in inv.Keys + ReceiptKeys(items)
    {
      ApplyReceiptAt(inv, items, d, k);
    }
    assert r.Keys == inv.Keys + ReceiptKeys(items);
  }

  lemma RestockAllDeliveries(e: Entry, items: seq<ReceiptItem>, d: Delivery)
    ensures RestockAll(e, items, d).deliveries == e.deliveries + BatchesOf(items, d)
  {
    if items == [] {
      assert e.deliveries + BatchesOf(items, d) == e.deliveries;
    }
  }

  /**
    Batches of one receipt go at the end of each entry, after the batches it
    already had, one per line filed under the key and in receipt order, and
    all share the receipt's batch id, delivery time and order number.
  */
  lemma ReceiptAppendsSharedBatches(inv: Inventory, items: seq<ReceiptItem>, d: Delivery, k: string)
    requires k in ApplyReceipt(inv, items, d)
    ensures var before := if k in inv then inv[k].deliveries else [];
            var after := ApplyReceipt(inv, items, d)[k].deliveries;
            && after == before + BatchesOf(LinesFor(items, k), d)
            && forall j :: |before| <= j < |after| ==>
                 && after[j].batchId == d.batchId
                 && after[j].deliveredAt == d.deliveredAt
                 && after[j].orderNumber == d.orderNumber
  {
    ApplyReceiptAt(inv, items, d, k);
    var lines := LinesFor(items, k);
    if k in inv {
      RestockAllDeliveries(inv[k], lines, d);
    } else {
      var e := NewEntry(lines[0], d);
      RestockAllDeliveries(e, lines[1..], d);
      assert lines == [lines[0]] + lines[1..];
      assert BatchesOf(lines, d) == [BatchOf(lines[0], d)] + BatchesOf(lines[1..], d);
    }
  }

  lemma {:induction false} QuantityOfBatches(items: seq<ReceiptItem>, d: Delivery)
    ensures BatchSum(BatchesOf(items, d)) == QuantityOf(items)
    decreases |items|
  {
    if items != [] {
      QuantityOfBatches(items[1..], d);
      assert BatchesOf(items, d)[1..] == BatchesOf(items[1..], d);
    }
  }

  lemma RestockAllConsistent(e: Entry, items: seq<ReceiptItem>, d: Delivery)
    requires Consistent(e)
    ensures Consistent(RestockAll(e, items, d))
  {
    if items != [] {
      BatchSumConcat(e.deliveries, BatchesOf(items, d));
      QuantityOfBatches(items, d);
    }
  }

  /** Ingesting a receipt keeps every entry's total equal to the sum of its batches. */
  lemma ApplyReceiptConsistent(inv: Inventory, items: seq<ReceiptItem>, d: Delivery)
    requires AllConsistent(inv)
    ensures AllConsistent(ApplyReceipt(inv, items, d))
  {
    var r := ApplyReceipt(inv, items, d);
    forall k | k in r
      ensures Consistent(r[k])
    {
      ApplyReceiptAt(inv, items, d, k);
      if k !in inv {
        var lines := LinesFor(items, k);
        assert Consistent(NewEntry(lines[0], d));
        RestockAllConsistent(NewEntry(lines[0], d), lines[1..], d);
      } else {
        RestockAllConsistent(inv[k], LinesFor(items, k), d);
      }
    }
  }

  // ---------------------------------------------------------------------------
  // FIFO removal
  // ---------------------------------------------------------------------------

  /** The batches the FIFO walk keeps, and the amount it could not take from them. */
  datatype Consumed = Consumed(kept: seq<Batch>, unmet: int)

  /**
    The FIFO walk of removal: while some amount remains, each batch no larger
    than the remainder is dropped whole, the first larger one is reduced by the
    remainder, and every batch after that is kept as it is.
  */
  function Consume(bs: seq<Batch>, r: int): (c: Consumed)
    ensures |c.kept| <= |bs|
    ensures c.unmet > 0 ==> c.kept == []
    ensures r >= 0 ==> c.unmet >= 0
    ensures r <= 0 ==> c == Consumed(bs, r)
  {
    if bs == [] then Consumed([], r)
    else if r <= 0 then Consumed(bs, r)
    else if bs[0].quantity <= r then Consume(bs[1..], r - bs[0].quantity)
    else Consumed([bs[0].(quantity := bs[0].quantity - r)] + bs[1..], 0)
  }

  /**
    The walk over `bs` asked for `r`, seen part-way: the first `i` batches
    have left `kept`, `remaining` is still wanted, and finishing the walk
    from batch `i` gives the whole walk's result.
  */
  ghost predicate WalkedTo(bs: seq<Batch>, r: int, i: nat, kept: seq<Batch>, remaining: int)
    requires i <= |bs|
  {
    Consume(bs, r) == Consumed(kept + Consume(bs[i..], remaining).kept, Consume(bs[i..], remaining).unmet)
  }

  /**
    One step of the walk at batch i, as the loop of removal takes it: the
    caller names the state after the step, `kept2` and `remaining2`.
  */
  lemma WalkStep(bs: seq<Batch>, r: int, i: nat, kept: seq<Batch>, remaining: int,
                 kept2: seq<Batch>, remaining2: int)
    requires i < |bs| && WalkedTo(bs, r, i, kept, remaining)
    requires remaining <= 0 ==> kept2 == kept + [bs[i]] && remaining2 == remaining
    requires 0 < remaining && bs[i].quantity <= remaining ==>
      kept2 == kept && remaining2 == remaining - bs[i].quantity
    requires 0 < remaining < bs[i].quantity ==>
      kept2 == kept + [bs[i].(quantity := bs[i].quantity - remaining)] && remaining2 == 0
    ensures WalkedTo(bs, r, i + 1, kept2, remaining2)
  {
    assert bs[i..] == [bs[i]] + bs[i + 1..];
    WalkTail(bs[i..], bs[i], bs[i + 1..], kept, remaining, kept2, remaining2);
  }

  /** The step of WalkStep on the batches not yet walked, `tail` = [b] + rest. */
  lemma WalkTail(tail: seq<Batch>, b: Batch, rest: seq<Batch>, kept: seq<Batch>, remaining: int,
                 kept2: seq<Batch>, remaining2: int)
    requires tail == [b] + rest
    requires remaining <= 0 ==> kept2 == kept + [b] && remaining2 == remaining
    requires 0 < remaining && b.quantity <= remaining ==>
      kept2 == kept && remaining2 == remaining - b.quantity
    requires 0 < remaining < b.quantity ==>
      kept2 == kept + [b.(quantity := b.quantity - remaining)] && remaining2 == 0
    ensures kept + Consume(tail, remaining).kept == kept2 + Consume(rest, remaining2).kept
    ensures Consume(tail, remaining).unmet == Consume(rest, remaining2).unmet
  {
    if remaining <= 0 {
      WalkKeep(tail, b, rest, kept, remaining);
    } else if b.quantity <= remaining {
      assert tail[0] == b && tail[1..] == rest;
      assert Consume(tail, remaining) == Consume(rest, remaining - b.quantity);
    } else {
      WalkReduce(tail, b, rest, kept, remaining);
    }
  }

  /** Once nothing remains, a batch is kept as it is. */
  lemma WalkKeep(tail: seq<Batch>, b: Batch, rest: seq<Batch>, kept: seq<Batch>, remaining: int)
    requires tail == [b] + rest && remaining <= 0
    ensures kept + Consume(tail, remaining).kept == (kept + [b]) + Consume(rest, remaining).kept
    ensures Consume(tail, remaining).unmet == Consume(rest, remaining).unmet
  {
    assert kept + ([b] + rest) == (kept + [b]) + rest;
  }

  /** The first batch larger than what remains is reduced by it, and the walk stops. */
  lemma WalkReduce(tail: seq<Batch>, b: Batch, rest: seq<Batch>, kept: seq<Batch>, remaining: int)
    requires tail == [b] + rest && 0 < remaining < b.quantity
    ensures var reduced := b.(quantity := b.quantity - remaining);
      && kept + Consume(tail, remaining).kept == (kept + [reduced]) + Consume(rest, 0).kept
      && Consume(tail, remaining).unmet == Consume(rest, 0).unmet
  {
    var reduced := b.(quantity := b.quantity - remaining);
    assert tail[0] == b && tail[1..] == rest;
    assert Consume(tail, remaining) == Consumed([reduced] + rest, 0);
    assert kept + ([reduced] + rest) == (kept + [reduced]) + rest;
  }

  /** The walk takes from the batches exactly what it was asked for, less what it could not find. */
  lemma {:induction false} ConsumeSum(bs: seq<Batch>, r: int)
    ensures BatchSum(Consume(bs, r).kept) == BatchSum(bs) - r + Consume(bs, r).unmet
    decreases |bs|
  {
    if bs != [] && r > 0 {
      if bs[0].quantity <= r {
        ConsumeSum(bs[1..], r - bs[0].quantity);
      } else {
        var kept := Consume(bs, r).kept;
        assert kept[1..] == bs[1..];
      }
    }
  }

  /**
    The FIFO shape of the walk, with n the number of leading batches it drops:
    each of them fits in what is left to remove when its turn comes; if
    something is still left at batch n, that batch is larger and is reduced by
    exactly that much; every later batch is kept unchanged, in order.
  */
  predicate FifoSplit(bs: seq<Batch>, r: int, n: int, kept: seq<Batch>) {
    && 0 <= n <= |bs|
    && (forall i :: 0 <= i < n ==> 0 < r - BatchSum(bs[..i]) && bs[i].quantity <= r - BatchSum(bs[..i]))
    && (n == |bs| ==> kept == [])
    && (n < |bs| ==>
          var left := r - BatchSum(bs[..n]);
          if left > 0 then
            bs[n].quantity > left && kept == [bs[n].(quantity := bs[n].quantity - left)] + bs[n + 1..]
          else
            kept == bs[n..])
  }

  lemma BatchSumPrefixStep(bs: seq<Batch>, i: nat)
    requires i < |bs|
    ensures BatchSum(bs[..i + 1]) == BatchSum(bs[..i]) + bs[i].quantity
  {
    assert bs[..i + 1] == bs[..i] + [bs[i]];
    BatchSumConcat(bs[..i], [bs[i]]);
  }

  lemma BatchSumShiftedPrefix(bs: seq<Batch>, i: nat)
    requires 0 < |bs| && i < |bs|
    ensures BatchSum(bs[..i + 1]) == bs[0].quantity + BatchSum(bs[1..][..i])
  {
    assert bs[..i + 1] == [bs[0]] + bs[1..][..i];
    BatchSumConcat([bs[0]], bs[1..][..i]);
  }

  lemma {:induction false} ConsumeIsFifo(bs: seq<Batch>, r: int)
    requires r > 0
    ensures exists n :: FifoSplit(bs, r, n, Consume(bs, r).kept)
    decreases |bs|
  {
    var kept := Consume(bs, r).kept;
    if bs == [] {
      assert FifoSplit(bs, r, 0, kept);
    } else if bs[0].quantity > r {
      assert bs[..0] == [];
      assert FifoSplit(bs, r, 0, kept);
    } else {
      var r' := r - bs[0].quantity;
      var tail := bs[1..];
      if r' == 0 {
        assert kept == tail;
        assert tail[..0] == [] && tail[0..] == tail;
        assert FifoSplit(tail, r', 0, kept);
        FifoSplitCons(bs, r, 0, kept);
      } else {
        ConsumeIsFifo(tail, r');
        var m :| FifoSplit(tail, r', m, kept);
        FifoSplitCons(bs, r, m, kept);
      }
    }
  }

  /** Dropping a first batch that fits in the demand extends the split of the rest by one. */
  lemma FifoSplitCons(bs: seq<Batch>, r: int, m: int, kept: seq<Batch>)
    requires 0 < r && |bs| > 0 && bs[0].quantity <= r
    requires FifoSplit(bs[1..], r - bs[0].quantity, m, kept)
    ensures FifoSplit(bs, r, m + 1, kept)
  {
    var tail := bs[1..];
    forall i | 0 <= i < m + 1
      ensures 0 < r - BatchSum(bs[..i]) && bs[i].quantity <= r - BatchSum(bs[..i])
    {
      if i == 0 {
        assert bs[..0] == [];
      } else {
        BatchSumShiftedPrefix(bs, i - 1);
        assert bs[i] == tail[i - 1];
      }
    }
    if m < |tail| {
      FifoSplitConsRest(bs, r, m, kept);
    }
  }

  lemma FifoSplitConsRest(bs: seq<Batch>, r: int, m: int, kept: seq<Batch>)
    requires 0 < r && |bs| > 0 && bs[0].quantity <= r
    requires FifoSplit(bs[1..], r - bs[0].quantity, m, kept)
    requires m < |bs| - 1
    ensures var left := r - BatchSum(bs[..m + 1]);
      if left > 0 then
        bs[m + 1].quantity > left && kept == [bs[m + 1].(quantity := bs[m + 1].quantity - left)] + bs[m + 2..]
      else
        kept == bs[m + 1..]
  {
    var tail := bs[1..];
    BatchSumShiftedPrefix(bs, m);
    assert bs[m + 1..] == tail[m..];
    assert bs[m + 1] == tail[m];
    assert bs[m + 2..] == tail[m + 1..];
  }

  // ---- An independent reference: the ledger as a queue of single units ------

  /** The provenance of one unit of stock. */
  datatype Unit = Unit(batchId: string, deliveredAt: string, orderNumber: Option<string>)

  function UnitOf(b: Batch): Unit {
    Unit(b.batchId, b.deliveredAt, b.orderNumber)
  }

  function Repeat(u: Unit, n: int): (r: seq<Unit>)
    ensures |r| == if n <= 0 then 0 else n
    ensures forall i :: 0 <= i < |r| ==> r[i] == u
  {
    if n <= 0 then [] else [u] + Repeat(u, n - 1)
  }

  /** The batches spelled out unit by unit, oldest first. */
  function Units(bs: seq<Batch>): seq<Unit> {
    if bs == [] then [] else Repeat(UnitOf(bs[0]), bs[0].quantity) + Units(bs[1..])
  }

  lemma {:induction false} UnitsCount(bs: seq<Batch>)
    requires NonNegativeBatches(bs)
    ensures |Units(bs)| == BatchSum(bs)
    decreases |bs|
  {
    if bs != [] {
      UnitsCount(bs[1..]);
    }
  }

  function Min(a: int, b: int): int {
    if a <= b then a else b
  }

  /**
    FIFO removal of r units is dropping the r oldest units: the units left in
    the kept batches are those of the original batches after the first r
    (all of them gone when r exceeds the stock).
  */
  lemma {:induction false} ConsumeDropsOldestUnits(bs: seq<Batch>, r: int)
    requires NonNegativeBatches(bs) && r >= 0
    ensures Units(Consume(bs, r).kept) == Units(bs)[Min(r, |Units(bs)|)..]
    decreases |bs|
  {
    if bs != [] && r > 0 {
      var b := bs[0];
      var head := Repeat(UnitOf(b), b.quantity);
      assert Units(bs) == head + Units(bs[1..]);
      if b.quantity <= r {
        ConsumeDropsOldestUnits(bs[1..], r - b.quantity);
        assert Min(r, |Units(bs)|) == |head| + Min(r - b.quantity, |Units(bs[1..])|);
        assert (head + Units(bs[1..]))[|head| + Min(r - b.quantity, |Units(bs[1..])|)..]
            == Units(bs[1..])[Min(r - b.quantity, |Units(bs[1..])|)..];
      } else {
        var kept := Consume(bs, r).kept;
        var b' := b.(quantity := b.quantity - r);
        assert kept == [b'] + bs[1..];
        assert kept[1..] == bs[1..];
        assert Units(kept) == Repeat(UnitOf(b), b.quantity - r) + Units(bs[1..]);
        assert Repeat(UnitOf(b), b.quantity - r) == head[r..];
        assert Units(bs)[r..] == head[r..] + Units(bs[1..]);
      }
    }
  }

  lemma {:induction false} ConsumeKeepsNonNegative(bs: seq<Batch>, r: int)
    requires NonNegativeBatches(bs)
    ensures NonNegativeBatches(Consume(bs, r).kept)
    decreases |bs|
  {
    if bs != [] && r > 0 {
      if bs[0].quantity <= r {
        ConsumeKeepsNonNegative(bs[1..], r - bs[0].quantity);
      } else {
        var kept := Consume(bs, r).kept;
        assert forall i :: 1 <= i < |kept| ==> kept[i] == bs[i];
      }
    }
  }

  // ---- Removal on the ledger -------------------------------------------------

  /**
    The ledger after removing q units of product k: the entry's total drops by
    q and its batches are walked FIFO; the entry is deleted when its total is
    zero or below.  Every other key keeps its entry.
  */
  function Removal(inv: Inventory, k: string, q: int): (r: Inventory)
    requires k in inv
    ensures forall j :: j != k ==> (j in r <==> j in inv) && (j in r ==> r[j] == inv[j])
    ensures k in r <==> inv[k].quantity - q > 0
    ensures k in r ==> (r[k].quantity == inv[k].quantity - q
                        && r[k].deliveries == Consume(inv[k].deliveries, q).kept)
    ensures |r| == if k in r then |inv| else |inv| - 1
  {
    var e := inv[k];
    var e' := e.(quantity := e.quantity - q, deliveries := Consume(e.deliveries, q).kept);
    if e'.quantity <= 0 then inv - {k} else inv[k := e']
  }

  /** Removing a non-negative amount keeps every entry consistent. */
  lemma RemovalConsistent(inv: Inventory, k: string, q: int)
    requires k in inv && AllConsistent(inv) && q >= 0
    ensures AllConsistent(Removal(inv, k, q))
  {
    var r := Removal(inv, k, q);
    if k in r {
      ConsumeSum(inv[k].deliveries, q);
    }
  }

  /** Removal never produces a negative batch. */
  lemma RemovalNonNegative(inv: Inventory, k: string, q: int)
    requires k in inv && AllNonNegative(inv)
    ensures AllNonNegative(Removal(inv, k, q))
  {
    ConsumeKeepsNonNegative(inv[k].deliveries, q);
  }

  /**
    On a consistent entry with non-negative batches, what is left after a
    removal that does not delete the entry is its stock minus the q oldest
    units.
  */
  lemma RemovalTakesOldestUnits(inv: Inventory, k: string, q: int)
    requires k in inv && Consistent(inv[k]) && NonNegativeBatches(inv[k].deliveries) && q >= 0
    requires k in Removal(inv, k, q)
    ensures q < |Units(inv[k].deliveries)|
    ensures Units(Removal(inv, k, q)[k].deliveries) == Units(inv[k].deliveries)[q..]
  {
    ConsumeDropsOldestUnits(inv[k].deliveries, q);
    UnitsCount(inv[k].deliveries);
  }

  // ---------------------------------------------------------------------------
  // Persistence: the stored document, migration and load
  // ---------------------------------------------------------------------------

  /** An entry as read back from the store: fields older schemas may lack are optional. */
  datatype StoredEntry = StoredEntry(
    name: string,
    unit: string,
    quantity: Option<int>,
    added: Option<string>,
    lastAdded: Option<string>,
    deliveries: Option<seq<Batch>>)

  /** The persisted document `{version, inventory, last_saved}`; each key may be missing. */
  datatype Document = Document(
    version: Option<int>,
    inventory: Option<map<string, StoredEntry>>,
    lastSaved: Option<string>)

  /** What reading the store gives: an error, nothing stored yet, or a document. */
  datatype StoreRead = ReadFailed | NothingStored | Stored(document: Document)

  function ToStored(e: Entry): StoredEntry {
    StoredEntry(e.name, e.unit, Some(e.quantity), e.added, e.lastAdded, Some(e.deliveries))
  }

  /** The document a save writes: the current version, the whole ledger and the save time. */
  function SavedDocument(inv: Inventory, savedAt: string): Document {
    Document(Some(StorageVersion), Some(map k | k in inv :: ToStored(inv[k])), Some(savedAt))
  }

  /**
    The version-1 upgrade of one entry: an entry without batches gets a single
    "migrated" batch holding its old total (0 when it had none), dated by its
    `added` time (or `now`), with no order number; an entry with batches is
    left alone.
  */
  function MigrateEntry(e: StoredEntry, now: string): StoredEntry {
    if e.deliveries.Some? then e
    else
      var q := e.quantity.GetOr(0);
      e.(quantity := Some(q), deliveries := Some([Batch("migrated", q, e.added.GetOr(now), None)]))
  }

  /** The document after migration from `fromVersion`: entries change only from version 1. */
  function MigratedDocument(doc: Document, fromVersion: int, now: string): Document {
    var inv := doc.inventory.GetOr(map[]);
    doc.(version := Some(StorageVersion),
         inventory := Some(if fromVersion == 1 then map k | k in inv :: MigrateEntry(inv[k], now) else inv))
  }

  /** A document without a version is taken to be version 1. */
  function StoredVersion(doc: Document): int {
    doc.version.GetOr(1)
  }

  /** The document as load adopts it: migrated when older than the current version. */
  function Upgraded(doc: Document, now: string): Document {
    if StoredVersion(doc) < StorageVersion then MigratedDocument(doc, StoredVersion(doc), now) else doc
  }

  predicate Adoptable(e: StoredEntry) {
    e.quantity.Some? && e.deliveries.Some?
  }

  function Adopt(e: StoredEntry): Entry
    requires Adoptable(e)
  {
    Entry(e.name, e.unit, e.quantity.value, e.added, e.lastAdded, e.deliveries.value)
  }

  /** Every entry of the upgraded document carries a total and a batch list. */
  predicate Loadable(doc: Document, now: string) {
    var inv := Upgraded(doc, now).inventory.GetOr(map[]);
    forall k :: k in inv ==> Adoptable(inv[k])
  }

  function LoadedInventory(doc: Document, now: string): Inventory
    requires Loadable(doc, now)
  {
    var inv := Upgraded(doc, now).inventory.GetOr(map[]);
    map k | k in inv :: Adopt(inv[k])
  }

  /** Loading what a save wrote gives back the same ledger, untouched by migration. */
  lemma SaveLoadRoundTrip(inv: Inventory, savedAt: string, now: string)
    ensures Loadable(SavedDocument(inv, savedAt), now)
    ensures LoadedInventory(SavedDocument(inv, savedAt), now) == inv
  {
    var doc := SavedDocument(inv, savedAt);
    assert Upgraded(doc, now) == doc;
    var loaded := LoadedInventory(doc, now);
    assert loaded.Keys == inv.Keys;
    forall k | k in inv
      ensures loaded[k] == inv[k]
    {
    }
  }

  /** A document at the current version or later is adopted as it is. */
  lemma CurrentVersionNotMigrated(doc: Document, now: string)
    requires StoredVersion(doc) >= StorageVersion
    ensures Upgraded(doc, now) == doc
  {
  }

  /**
    Loading a version-1 document keeps its keys and the total of every entry;
    an entry that had no batches comes back with exactly one "migrated" batch
    holding that total, so it satisfies the ledger invariant; an entry that
    had batches comes back as it was stored.
  */
  lemma LoadMigratesVersionOne(doc: Document, now: string, k: string)
    requires StoredVersion(doc) == 1
    requires Loadable(doc, now)
    requires k in doc.inventory.GetOr(map[])
    ensures var stored := doc.inventory.GetOr(map[])[k];
            && k in LoadedInventory(doc, now)
            && var e := LoadedInventory(doc, now)[k];
            && e.quantity == stored.quantity.GetOr(0)
            && e.name == stored.name && e.unit == stored.unit && e.added == stored.added && e.lastAdded == stored.lastAdded
            && (stored.deliveries.None? ==>
                  && e.deliveries == [Batch("migrated", e.quantity, stored.added.GetOr(now), None)]
                  && Consistent(e))
            && (stored.deliveries.Some? ==> e == Adopt(stored))
  {
    var stored := doc.inventory.GetOr(map[])[k];
    var up := Upgraded(doc, now).inventory.GetOr(map[]);
    assert up[k] == MigrateEntry(stored, now);
    if stored.deliveries.None? {
      var e := LoadedInventory(doc, now)[k];
      assert BatchSum(e.deliveries) == e.quantity;
    }
  }

  /** Load never adds or drops a key. */
  lemma LoadKeepsKeys(doc: Document, now: string)
    requires Loadable(doc, now)
    ensures LoadedInventory(doc, now).Keys == doc.inventory.GetOr(map[]).Keys
  {
  }

  /** A pre-version-1 document is relabelled as current without touching its entries. */
  lemma OlderVersionsOnlyRelabelled(doc: Document, now: string)
    requires StoredVersion(doc) < 1
    ensures Upgraded(doc, now).inventory == Some(doc.inventory.GetOr(map[]))
    ensures Upgraded(doc, now).version == Some(StorageVersion)
  {
  }
}
