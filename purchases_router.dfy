/** The purchases endpoints: create, fetch and delete a purchase. */
module PurchasesRouter {
  import opened Wrappers
  import opened Http
  import opened Models
  import opened Database
  import opened Ledger

  /**
   * Creates a purchase.  Every line's item is looked up before anything is
   * written (there is no stock limit); on success the purchase is stored
   * under the next purchase id and each line's quantity is added to stock.
   */
  method CreatePurchase(db: DB, purchase: TransactionCreate, currentUser: User, now: int)
    returns (r: Result<Transaction, ApiError>)
    requires db.Valid()
    modifies db`inventory, db`purchases, db`purchaseCounter
    ensures db.Valid()
    ensures FirstRejection(old(db.inventory), purchase.items, false).Some? ==>
              && r == Failure(FirstRejection(old(db.inventory), purchase.items, false).value)
              && db.inventory == old(db.inventory) && db.purchases == old(db.purchases)
              && db.purchaseCounter == old(db.purchaseCounter)
    ensures FirstRejection(old(db.inventory), purchase.items, false).None? ==>
              && AllKnown(old(db.inventory), purchase.items)
              && r == Success(Transaction(old(db.purchaseCounter), purchase.counterpartyName, purchase.counterpartyEmail,
                                          Numbered(old(db.inventory), purchase.items), LinesTotal(purchase.items),
                                          currentUser.id, now, purchase.notes))
              && old(db.purchaseCounter) !in old(db.purchases)
              && db.purchases == old(db.purchases)[old(db.purchaseCounter) := r.value]
              && db.purchaseCounter == old(db.purchaseCounter) + 1
              && db.inventory == Adjusted(old(db.inventory), purchase.items, Add, now)
  {
    var checked := CheckLines(db.inventory, purchase.items, false);
    if checked.Failure? {
      return Failure(checked.error);
    }
    var purchaseId := db.NextPurchaseId();
    var newPurchase := Transaction(purchaseId, purchase.counterpartyName, purchase.counterpartyEmail,
                                   checked.value.items, checked.value.total, currentUser.id, now, purchase.notes);
    StoreTransaction(db.purchases, purchaseId, newPurchase);
    AdjustedKeepsCatalog(db.inventory, purchase.items, Add, now);
    ApplyLines(db, purchase.items, Add, now);
    db.purchases := db.purchases[purchaseId := newPurchase];
    return Success(newPurchase);
  }

  /** A purchase is refused only for an unknown item: any quantity of a known item is accepted. */
  lemma {:induction false} PurchaseNeedsOnlyKnownItems(inv: map<int, InventoryItem>, lines: seq<Line>)
    ensures FirstRejection(inv, lines, false).None? <==> AllKnown(inv, lines)
    ensures FirstRejection(inv, lines, false).Some? ==> FirstRejection(inv, lines, false).value.UnknownInventoryItem?
    decreases |lines|
  {
    if lines != [] {
      PurchaseNeedsOnlyKnownItems(inv, lines[1..]);
      assert AllKnown(inv, lines) <==> lines[0].inventoryItemId in inv && AllKnown(inv, lines[1..]) by {
        if lines[0].inventoryItemId in inv && AllKnown(inv, lines[1..]) {
          forall i | 0 <= i < |lines| ensures lines[i].inventoryItemId in inv {
            if i > 0 {
              assert lines[i] == lines[1..][i - 1];
            }
          }
        }
      }
    }
  }

  /** The purchase stored under `purchaseId`, or 404. */
  function GetPurchase(db: DB, purchaseId: int): (r: Result<Transaction, ApiError>)
    reads db
    ensures r.Success? <==> purchaseId in db.purchases
    ensures r.Success? ==> r.value == db.purchases[purchaseId]
    ensures r.Failure? ==> r.error == NotFound
  {
    if purchaseId in db.purchases then Success(db.purchases[purchaseId]) else Failure(NotFound)
  }

  /**
   * Deletes a purchase: managers only (403), then 404 for an unknown
   * purchase; otherwise each line's quantity is taken out of stock, with no
   * lower bound, for items still present, and only that purchase is removed.
   */
  method DeletePurchase(db: DB, purchaseId: int, currentUser: User, now: int) returns (r: Result<string, ApiError>)
    requires db.Valid()
    modifies db`inventory, db`purchases
    ensures db.Valid()
    ensures currentUser.role != Manager ==>
              r == Failure(Forbidden) && db.inventory == old(db.inventory) && db.purchases == old(db.purchases)
    ensures currentUser.role == Manager && purchaseId !in old(db.purchases) ==>
              r == Failure(NotFound) && db.inventory == old(db.inventory) && db.purchases == old(db.purchases)
    ensures currentUser.role == Manager && purchaseId in old(db.purchases) ==>
              && r == Success("Purchase deleted successfully")
              && db.purchases == old(db.purchases) - {purchaseId}
              && db.inventory == Adjusted(old(db.inventory), Bases(old(db.purchases)[purchaseId].items), Remove, now)
  {
    if currentUser.role != Manager {
      return Failure(Forbidden);
    }
    if purchaseId !in db.purchases {
      return Failure(NotFound);
    }
    var purchase := db.purchases[purchaseId];
    AdjustedKeepsCatalog(db.inventory, Bases(purchase.items), Remove, now);
    ApplyLines(db, Bases(purchase.items), Remove, now);
    db.purchases := db.purchases - {purchaseId};
    return Success("Purchase deleted successfully");
  }

  /**
   * Deleting a purchase right after creating it takes out exactly the stock
   * it added: every item is as before except for its timestamp.
   */
  lemma PurchaseRoundTrip(inv: map<int, InventoryItem>, lines: seq<Line>, t1: int, t2: int)
    requires FirstRejection(inv, lines, false).None?
    ensures AllKnown(inv, lines)
    ensures var after := Adjusted(Adjusted(inv, lines, Add, t1), Bases(Numbered(inv, lines)), Remove, t2);
            after.Keys == inv.Keys
            && forall id :: id in inv ==> after[id] == inv[id].(updatedAt := after[id].updatedAt)
  {
    BasesOfNumbered(inv, lines);
    OppositeRestores(inv, lines, Add, t1, t2);
  }

  /** Creating a purchase and deleting it again leaves the purchases table and the stock as they were. */
  method CreateThenDeletePurchase(db: DB, purchase: TransactionCreate, manager: User, t1: int, t2: int)
    returns (created: Result<Transaction, ApiError>)
    requires db.Valid() && manager.role == Manager
    modifies db`inventory, db`purchases, db`purchaseCounter
    ensures db.Valid()
    ensures db.purchases == old(db.purchases)
    ensures db.inventory.Keys == old(db.inventory).Keys
    ensures forall id :: id in old(db.inventory) ==>
              db.inventory[id] == old(db.inventory)[id].(updatedAt := db.inventory[id].updatedAt)
  {
    created := CreatePurchase(db, purchase, manager, t1);
    if created.Success? {
      ghost var inv0 := old(db.inventory);
      PurchaseRoundTrip(inv0, purchase.items, t1, t2);
      var _ := DeletePurchase(db, created.value.id, manager, t2);
    }
  }
}
