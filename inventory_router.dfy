/** The inventory endpoints: create, fetch, update and delete items, and list low-stock items. */
module InventoryRouter {
  import opened Wrappers
  import opened Http
  import opened Models
  import opened Seqs
  import opened Database

  /** Whether an item other than `except` holds `sku`. */
  predicate SkuHeld(inv: map<int, InventoryItem>, sku: string, except: Option<int>)
  {
    exists id :: id in inv && Some(id) != except && inv[id].sku == sku
  }

  /** Scans the items in id order for one, other than `except`, that holds `sku`. */
  method FindSku(db: DB, sku: string, except: Option<int>) returns (found: bool)
    requires db.Valid()
    ensures found <==> SkuHeld(db.inventory, sku, except)
  {
    var id := 1;
    while id < db.inventoryCounter
      invariant 1 <= id <= db.inventoryCounter
      invariant forall k :: 1 <= k < id && k in db.inventory && Some(k) != except ==> db.inventory[k].sku != sku
      decreases db.inventoryCounter - id
    {
      if id in db.inventory && Some(db.inventory[id].id) != except && db.inventory[id].sku == sku {
        return true;
      }
      id := id + 1;
    }
    return false;
  }

  /** The stored item built from a request body. */
  function ItemFrom(id: int, data: InventoryItemCreate, createdAt: int, updatedAt: int): InventoryItem
  {
    InventoryItem(id, data.name, data.description, data.sku, data.unitPrice, data.quantityInStock,
                  data.reorderLevel, data.category, createdAt, updatedAt)
  }

  /** Storing an item whose SKU no other item holds keeps SKUs distinct. */
  lemma StoreKeepsSkusDistinct(inv: map<int, InventoryItem>, id: int, item: InventoryItem)
    requires SkusDistinct(inv)
    requires !SkuHeld(inv, item.sku, Some(id))
    ensures SkusDistinct(inv[id := item])
  {
  }

  /**
   * Creates an item: a non-positive price is refused (422), then a SKU
   * already held by any item (400); otherwise the item is stored under the
   * next inventory id with both timestamps `now`.
   */
  method CreateInventoryItem(db: DB, data: InventoryItemCreate, currentUser: User, now: int)
    returns (r: Result<InventoryItem, ApiError>)
    requires db.Valid()
    modifies db`inventory, db`inventoryCounter
    ensures db.Valid()
    ensures data.unitPrice <= 0.0 ==>
              r == Failure(Unprocessable) && db.inventory == old(db.inventory)
              && db.inventoryCounter == old(db.inventoryCounter)
    ensures data.unitPrice > 0.0 && SkuHeld(old(db.inventory), data.sku, None) ==>
              r == Failure(SkuExists) && db.inventory == old(db.inventory)
              && db.inventoryCounter == old(db.inventoryCounter)
    ensures data.unitPrice > 0.0 && !SkuHeld(old(db.inventory), data.sku, None) ==>
              && r == Success(ItemFrom(old(db.inventoryCounter), data, now, now))
              && old(db.inventoryCounter) !in old(db.inventory)
              && db.inventory == old(db.inventory)[old(db.inventoryCounter) := r.value]
              && db.inventoryCounter == old(db.inventoryCounter) + 1
  {
    var valid := ValidateInventoryItem(data);
    if valid.Failure? {
      return Failure(valid.error);
    }
    var taken := FindSku(db, data.sku, None);
    if taken {
      return Failure(SkuExists);
    }
    var itemId := db.NextInventoryId();
    var item := ItemFrom(itemId, data, now, now);
    StoreKeepsSkusDistinct(db.inventory, itemId, item);
    db.inventory := db.inventory[itemId := item];
    return Success(item);
  }

  /** The item stored under `itemId`, or 404. */
  function GetInventoryItem(db: DB, itemId: int): (r: Result<InventoryItem, ApiError>)
    reads db
    ensures r.Success? <==> itemId in db.inventory
    ensures r.Success? ==> r.value == db.inventory[itemId]
    ensures r.Failure? ==> r.error == NotFound
  {
    if itemId in db.inventory then Success(db.inventory[itemId]) else Failure(NotFound)
  }

  /**
   * Replaces an item's editable fields: a non-positive price is refused
   * (422), then an unknown id (404), then a SKU held by a different item
   * (400); the id and creation time are kept and the update time is `now`.
   */
  method UpdateInventoryItem(db: DB, itemId: int, data: InventoryItemCreate, currentUser: User, now: int)
    returns (r: Result<InventoryItem, ApiError>)
    requires db.Valid()
    modifies db`inventory
    ensures db.Valid()
    ensures r.Failure? ==> db.inventory == old(db.inventory)
    ensures data.unitPrice <= 0.0 ==> r == Failure(Unprocessable)
    ensures data.unitPrice > 0.0 && itemId !in old(db.inventory) ==> r == Failure(NotFound)
    ensures data.unitPrice > 0.0 && itemId in old(db.inventory) && SkuHeld(old(db.inventory), data.sku, Some(itemId)) ==>
              r == Failure(SkuExists)
    ensures data.unitPrice > 0.0 && itemId in old(db.inventory) && !SkuHeld(old(db.inventory), data.sku, Some(itemId)) ==>
              && r == Success(ItemFrom(itemId, data, old(db.inventory)[itemId].createdAt, now))
              && db.inventory == old(db.inventory)[itemId := r.value]
  {
    var valid := ValidateInventoryItem(data);
    if valid.Failure? {
      return Failure(valid.error);
    }
    if itemId !in db.inventory {
      return Failure(NotFound);
    }
    var existing := db.inventory[itemId];
    var taken := FindSku(db, data.sku, Some(itemId));
    if taken {
      return Failure(SkuExists);
    }
    var item := ItemFrom(itemId, data, existing.createdAt, now);
    StoreKeepsSkusDistinct(db.inventory, itemId, item);
    db.inventory := db.inventory[itemId := item];
    return Success(item);
  }

  /** Keeping one's own SKU is never a clash. */
  lemma OwnSkuIsFree(inv: map<int, InventoryItem>, itemId: int)
    requires itemId in inv && SkusDistinct(inv)
    ensures !SkuHeld(inv, inv[itemId].sku, Some(itemId))
  {
  }

  /** Deletes an item: managers only (403), then 404; otherwise only that key is removed. */
  method DeleteInventoryItem(db: DB, itemId: int, currentUser: User) returns (r: Result<string, ApiError>)
    requires db.Valid()
    modifies db`inventory
    ensures db.Valid()
    ensures currentUser.role != Manager ==> r == Failure(Forbidden) && db.inventory == old(db.inventory)
    ensures currentUser.role == Manager && itemId !in old(db.inventory) ==>
              r == Failure(NotFound) && db.inventory == old(db.inventory)
    ensures currentUser.role == Manager && itemId in old(db.inventory) ==>
              r == Success("Inventory item deleted successfully") && db.inventory == old(db.inventory) - {itemId}
  {
    if currentUser.role != Manager {
      return Failure(Forbidden);
    }
    if itemId !in db.inventory {
      return Failure(NotFound);
    }
    db.inventory := db.inventory - {itemId};
    return Success("Inventory item deleted successfully");
  }

  /** An item is low on stock when its quantity is at or below its reorder level. */
  predicate IsLowStock(item: InventoryItem)
  {
    item.quantityInStock <= item.reorderLevel
  }

  /** The low-stock items, in id order. */
  method GetLowStockItems(db: DB) returns (low: seq<InventoryItem>)
    ensures low == Filter(InIdOrder(db.inventory, db.inventoryCounter), IsLowStock)
  {
    low := [];
    var id := 1;
    while id < db.inventoryCounter
      invariant 1 <= id && (id <= db.inventoryCounter || id == 1)
      invariant low == Filter(InIdOrder(db.inventory, id), IsLowStock)
      decreases db.inventoryCounter - id
    {
      FilterInIdOrderNext(db.inventory, id, IsLowStock);
      if id in db.inventory && IsLowStock(db.inventory[id]) {
        low := low + [db.inventory[id]];
      }
      id := id + 1;
    }
    if db.inventoryCounter <= 1 {
      assert InIdOrder(db.inventory, db.inventoryCounter) == [] == InIdOrder(db.inventory, 1);
    }
  }

  /** The low-stock list holds exactly the stored items at or below their reorder level. */
  lemma LowStockMembers(db: DB, low: seq<InventoryItem>, item: InventoryItem)
    requires low == Filter(InIdOrder(db.inventory, db.inventoryCounter), IsLowStock)
    requires InventoryValid(db.inventory, db.inventoryCounter)
    ensures item in low <==> (exists id :: id in db.inventory && db.inventory[id] == item) && IsLowStock(item)
  {
    InIdOrderMembers(db.inventory, db.inventoryCounter);
    var all := InIdOrder(db.inventory, db.inventoryCounter);
    if (exists id :: id in db.inventory && db.inventory[id] == item) && IsLowStock(item) {
      var id :| id in db.inventory && db.inventory[id] == item;
      assert item in all;
      var i :| 0 <= i < |all| && all[i] == item;
    }
  }
}
