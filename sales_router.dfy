/** The sales endpoints: create, fetch and delete a sale. */
module SalesRouter {
  import opened Wrappers
  import opened Http
  import opened Models
  import opened Database
  import opened Ledger

  /**
   * Creates a sale.  Every line is validated against the stock as it
   * stands before anything is written; on success the sale is stored under
   * the next sale id and each line's quantity is taken out of stock.
   */
  method CreateSale(db: DB, sale: TransactionCreate, currentUser: User, now: int)
    returns (r: Result<Transaction, ApiError>)
    requires db.Valid()
    modifies db`inventory, db`sales, db`saleCounter
    ensures db.Valid()
    ensures FirstRejection(old(db.inventory), sale.items, true).Some? ==>
              && r == Failure(FirstRejection(old(db.inventory), sale.items, true).value)
              && db.inventory == old(db.inventory) && db.sales == old(db.sales)
              && db.saleCounter == old(db.saleCounter)
    ensures FirstRejection(old(db.inventory), sale.items, true).None? ==>
              && AllKnown(old(db.inventory), sale.items)
              && r == Success(Transaction(old(db.saleCounter), sale.counterpartyName, sale.counterpartyEmail,
                                          Numbered(old(db.inventory), sale.items), LinesTotal(sale.items),
                                          currentUser.id, now, sale.notes))
              && old(db.saleCounter) !in old(db.sales)
              && db.sales == old(db.sales)[old(db.saleCounter) := r.value]
              && db.saleCounter == old(db.saleCounter) + 1
              && db.inventory == Adjusted(old(db.inventory), sale.items, Remove, now)
  {
    var checked := CheckLines(db.inventory, sale.items, true);
    if checked.Failure? {
      return Failure(checked.error);
    }
    var saleId := db.NextSaleId();
    var newSale := Transaction(saleId, sale.counterpartyName, sale.counterpartyEmail,
                               checked.value.items, checked.value.total, currentUser.id, now, sale.notes);
    StoreTransaction(db.sales, saleId, newSale);
    AdjustedKeepsCatalog(db.inventory, sale.items, Remove, now);
    ApplyLines(db, sale.items, Remove, now);
    db.sales := db.sales[saleId := newSale];
    return Success(newSale);
  }

  /** The sale stored under `saleId`, or 404. */
  function GetSale(db: DB, saleId: int): (r: Result<Transaction, ApiError>)
    reads db
    ensures r.Success? <==> saleId in db.sales
    ensures r.Success? ==> r.value == db.sales[saleId]
    ensures r.Failure? ==> r.error == NotFound
  {
    if saleId in db.sales then Success(db.sales[saleId]) else Failure(NotFound)
  }

  /**
   * Deletes a sale: managers only (403), then 404 for an unknown sale;
   * otherwise each line's quantity goes back into stock for items still
   * present, and only that sale is removed.
   */
  method DeleteSale(db: DB, saleId: int, currentUser: User, now: int) returns (r: Result<string, ApiError>)
    requires db.Valid()
    modifies db`inventory, db`sales
    ensures db.Valid()
    ensures currentUser.role != Manager ==>
              r == Failure(Forbidden) && db.inventory == old(db.inventory) && db.sales == old(db.sales)
    ensures currentUser.role == Manager && saleId !in old(db.sales) ==>
              r == Failure(NotFound) && db.inventory == old(db.inventory) && db.sales == old(db.sales)
    ensures currentUser.role == Manager && saleId in old(db.sales) ==>
              && r == Success("Sale deleted successfully")
              && db.sales == old(db.sales) - {saleId}
              && db.inventory == Adjusted(old(db.inventory), Bases(old(db.sales)[saleId].items), Add, now)
  {
    if currentUser.role != Manager {
      return Failure(Forbidden);
    }
    if saleId !in db.sales {
      return Failure(NotFound);
    }
    var sale := db.sales[saleId];
    AdjustedKeepsCatalog(db.inventory, Bases(sale.items), Add, now);
    ApplyLines(db, Bases(sale.items), Add, now);
    db.sales := db.sales - {saleId};
    return Success("Sale deleted successfully");
  }

  /**
   * Deleting a sale right after creating it puts back exactly the stock it
   * took: every item is as before except for its timestamp.
   */
  lemma SaleRoundTrip(inv: map<int, InventoryItem>, lines: seq<Line>, t1: int, t2: int)
    requires FirstRejection(inv, lines, true).None?
    ensures AllKnown(inv, lines)
    ensures var after := Adjusted(Adjusted(inv, lines, Remove, t1), Bases(Numbered(inv, lines)), Add, t2);
            after.Keys == inv.Keys
            && forall id :: id in inv ==> after[id] == inv[id].(updatedAt := after[id].updatedAt)
  {
    BasesOfNumbered(inv, lines);
    OppositeRestores(inv, lines, Remove, t1, t2);
  }

  /** Creating a sale and deleting it again leaves the sales table and the stock as they were. */
  method CreateThenDeleteSale(db: DB, sale: TransactionCreate, manager: User, t1: int, t2: int)
    returns (created: Result<Transaction, ApiError>)
    requires db.Valid() && manager.role == Manager
    modifies db`inventory, db`sales, db`saleCounter
    ensures db.Valid()
    ensures db.sales == old(db.sales)
    ensures db.inventory.Keys == old(db.inventory).Keys
    ensures forall id :: id in old(db.inventory) ==>
              db.inventory[id] == old(db.inventory)[id].(updatedAt := db.inventory[id].updatedAt)
  {
    created := CreateSale(db, sale, manager, t1);
    if created.Success? {
      ghost var inv0 := old(db.inventory);
      SaleRoundTrip(inv0, sale.items, t1, t2);
      var _ := DeleteSale(db, created.value.id, manager, t2);
    }
  }
}
