/**
  The home-inventory sensor: a ledger held in a mutable map that receipt
  ingestion and FIFO removal update in place, persisted to a versioned store
  after every change.  Each method is proved against the specification
  functions of module InventoryModel.
*/
module InventorySensor {
  import opened Common
  import opened InventoryModel

  class TescoInventorySensor {
    /** The ledger, keyed by product id (or name). */
    var inventory: Inventory
    /** The documents this sensor wrote to its store, in the order it wrote them. */
    var saves: seq<Document>

    /** A new sensor starts with an empty ledger and has written nothing. */
    constructor ()
      ensures inventory == map[] && saves == []
    {
      inventory := map[];
      saves := [];
    }

    /** The sensor's state: the number of distinct products in the ledger. */
    function NativeValue(): nat
      reads this
    {
      |inventory|
    }

    /**
      Loads the ledger from what the store returned: a read error empties it,
      an empty store leaves it as it was, and a document is upgraded to the
      current version (when older) and adopted.
    */
    method LoadInventory(read: StoreRead, now: string)
      requires read.Stored? ==> Loadable(read.document, now)
      modifies this
      ensures read.ReadFailed? ==> inventory == map[]
      ensures read.NothingStored? ==> inventory == old(inventory)
      ensures read.Stored? ==> inventory == LoadedInventory(read.document, now)
      ensures saves == old(saves)
    {
      match read
      case ReadFailed =>
        inventory := map[];
      case NothingStored =>
      case Stored(doc) =>
        var data := doc;
        var storedVersion := doc.version.GetOr(1);
        if storedVersion < StorageVersion {
          data := MigrateStorage(doc, storedVersion, now);
        }
        var inv := data.inventory.GetOr(map[]);
        inventory := map k | k in inv :: Adopt(inv[k]);
    }

    /**
      The upgrade from `fromVersion` to the current version: from version 1
      every entry without batches gets one "migrated" batch; the document is
      relabelled with the current version whatever it was.
    */
    method MigrateStorage(data: Document, fromVersion: int, now: string) returns (migrated: Document)
      ensures migrated == MigratedDocument(data, fromVersion, now)
      ensures migrated.version == Some(StorageVersion) && migrated.lastSaved == data.lastSaved
    {
      var inv := data.inventory.GetOr(map[]);
      var result := inv;
      if fromVersion == 1 {
        var todo := inv.Keys;
        while todo != {}
          invariant todo <= inv.Keys
          invariant result.Keys == inv.Keys
          invariant forall k :: k in inv ==> result[k] == if k in todo then inv[k] else MigrateEntry(inv[k], now)
          decreases todo
        {
          var k :| k in todo;
          var entry := inv[k];
          if entry.deliveries.None? {
            var quantity := entry.quantity.GetOr(0);
            result := result[k := entry.(
              deliveries := Some([Batch("migrated", quantity, entry.added.GetOr(now), None)]),
              quantity := Some(quantity))];
          }
          todo := todo - {k};
        }
        assert result == map k | k in inv :: MigrateEntry(inv[k], now);
      }
      migrated := data.(version := Some(StorageVersion), inventory := Some(result));
    }

    /** Writes the whole ledger to the store, stamped with the current version. */
    method SaveInventory(savedAt: string)
      modifies this
      ensures saves == old(saves) + [SavedDocument(inventory, savedAt)]
      ensures inventory == old(inventory)
    {
      saves := saves + [SavedDocument(inventory, savedAt)];
    }

    /**
      Adds every line of a delivery receipt, in order: a known key gains a
      batch and its total grows; an unknown key gets a new entry with one
      batch.  All the batches share the receipt's batch id, delivery time and
      order number.  The ledger is saved once, after the last line.
    */
    method AddItemsFromReceipt(items: seq<ReceiptItem>, orderNumber: Option<string>,
                               deliveredAt: string, batchId: string, savedAt: string)
      modifies this
      ensures inventory == ApplyReceipt(old(inventory), items, Delivery(batchId, deliveredAt, orderNumber))
      ensures inventory.Keys == old(inventory).Keys + ReceiptKeys(items)
      ensures NativeValue() == |old(inventory).Keys + ReceiptKeys(items)|
      ensures AllConsistent(old(inventory)) ==> AllConsistent(inventory)
      ensures saves == old(saves) + [SavedDocument(inventory, savedAt)]
    {
      ghost var d := Delivery(batchId, deliveredAt, orderNumber);
      var i := 0;
      while i < |items|
        invariant 0 <= i <= |items|
        invariant ApplyReceipt(inventory, items[i..], d) == ApplyReceipt(old(inventory), items, d)
        invariant saves == old(saves)
      {
        var item := items[i];
        var productId := ItemKey(item);
        var quantity := ItemQuantity(item);
        var batch := Batch(batchId, quantity, deliveredAt, orderNumber);
        if productId in inventory {
          var entry := inventory[productId];
          inventory := inventory[productId := entry.(
            quantity := entry.quantity + quantity,
            lastAdded := Some(deliveredAt),
            deliveries := entry.deliveries + [batch])];
        } else {
          inventory := inventory[productId := Entry(
            item.name.GetOr("Unknown"), item.unit.GetOr("item"), quantity,
            Some(deliveredAt), Some(deliveredAt), [batch])];
        }
        assert items[i..][1..] == items[i + 1..];
        i := i + 1;
      }
      ApplyReceiptKeys(old(inventory), items, d);
      if AllConsistent(old(inventory)) {
        ApplyReceiptConsistent(old(inventory), items, d);
      }
      SaveInventory(savedAt);
    }

    /**
      Removes `quantity` units of a product, oldest batches first.  The total
      drops by `quantity`; the entry is deleted once the total is zero or
      below; the ledger is saved.  An unknown product changes nothing and
      nothing is saved.
    */
    method RemoveItem(productId: string, quantity: int, savedAt: string)
      modifies this
      ensures productId in old(inventory) ==>
        && inventory == Removal(old(inventory), productId, quantity)
        && saves == old(saves) + [SavedDocument(inventory, savedAt)]
      ensures productId in old(inventory) ==>
        (productId !in inventory <==> old(inventory)[productId].quantity - quantity <= 0)
      ensures productId in old(inventory) && AllConsistent(old(inventory)) && quantity >= 0 ==>
        AllConsistent(inventory)
      ensures productId !in old(inventory) ==> inventory == old(inventory) && saves == old(saves)
    {
      if productId in inventory {
        var item := inventory[productId];
        var updated := ConsumeOldestFirst(item.deliveries, quantity);
        item := item.(quantity := item.quantity - quantity, deliveries := updated);
        if item.quantity <= 0 {
          inventory := inventory - {productId};
        } else {
          inventory := inventory[productId := item];
        }
        if AllConsistent(old(inventory)) && quantity >= 0 {
          RemovalConsistent(old(inventory), productId, quantity);
        }
        SaveInventory(savedAt);
      }
    }

    /**
      The FIFO walk of removal over an entry's batches: while some amount
      remains, a batch no larger than the remainder is dropped whole, the
      first larger one is reduced by the remainder, and the rest are kept.
    */
    method ConsumeOldestFirst(deliveries: seq<Batch>, quantity: int) returns (updated: seq<Batch>)
      ensures updated == Consume(deliveries, quantity).kept
      ensures 0 <= quantity <= BatchSum(deliveries) ==> BatchSum(updated) == BatchSum(deliveries) - quantity
    {
      var remaining := quantity;
      updated := [];
      var i := 0;
      while i < |deliveries|
        invariant 0 <= i <= |deliveries|
        invariant WalkedTo(deliveries, quantity, i, updated, remaining)
      {
        var delivery := deliveries[i];
        ghost var before, wanted := updated, remaining;
        if remaining <= 0 {
          updated := updated + [delivery];
        } else if delivery.quantity <= remaining {
          remaining := remaining - delivery.quantity;
        } else {
          updated := updated + [delivery.(quantity := delivery.quantity - remaining)];
          remaining := 0;
        }
        WalkStep(deliveries, quantity, i, before, wanted, updated, remaining);
        i := i + 1;
      }
      assert updated + [] == updated;
      ConsumeSum(deliveries, quantity);
    }

    /** Saves one last time when the entity is removed. */
    method WillRemoveFromHass(savedAt: string)
      modifies this
      ensures saves == old(saves) + [SavedDocument(inventory, savedAt)]
      ensures inventory == old(inventory)
    {
      SaveInventory(savedAt);
    }
  }
}
