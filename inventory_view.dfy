/**
 * The client's inventory screen: the search, category and stock filters
 * over the fetched item list, the stock status label, the category
 * options, and the numbers read from the item form.
 */
module InventoryView {
  import opened Wrappers
  import opened Models
  import opened Http
  import opened Seqs
  import opened Text

  /** The lowercased search term occurs in the item's lowercased name, SKU or category. */
  predicate SearchHit(term: string, item: InventoryItem)
  {
    Contains(Lower(item.name), term) || Contains(Lower(item.sku), term) || Contains(Lower(item.category), term)
  }

  /** The search stage: a blank term keeps everything. */
  predicate SearchOk(term: string, item: InventoryItem)
  {
    term == "" || SearchHit(term, item)
  }

  /** The category stage: exact equality; a blank choice keeps everything. */
  predicate CategoryOk(category: string, item: InventoryItem)
  {
    category == "" || item.category == category
  }

  /** The stock stage: "low" is 0 < stock <= reorder level, "out" is stock 0, anything else keeps all. */
  predicate StockOk(stockFilter: string, item: InventoryItem)
  {
    if stockFilter == "low" then item.quantityInStock <= item.reorderLevel && item.quantityInStock > 0
    else if stockFilter == "out" then item.quantityInStock == 0
    else true
  }

  /** An item passes the three stages together. */
  predicate Selected(term: string, category: string, stockFilter: string, item: InventoryItem)
  {
    SearchOk(term, item) && CategoryOk(category, item) && StockOk(stockFilter, item)
  }

  /** The items the filtered table lists, for the raw search text and the two selections. */
  function Filtered(data: seq<InventoryItem>, search: string, category: string, stockFilter: string)
    : (r: seq<InventoryItem>)
    ensures forall i :: 0 <= i < |r| ==> r[i] in data && Selected(Lower(search), category, stockFilter, r[i])
    ensures forall i :: 0 <= i < |data| && Selected(Lower(search), category, stockFilter, data[i]) ==> data[i] in r
  {
    Filter(data, item => Selected(Lower(search), category, stockFilter, item))
  }

  /** The filtered list keeps the items in the order they were fetched. */
  lemma FilteredInOrder(data: seq<InventoryItem>, search: string, category: string, stockFilter: string)
    ensures SubseqOf(Filtered(data, search, category, stockFilter), data)
  {
    FilterIsSubseq(data, item => Selected(Lower(search), category, stockFilter, item));
  }

  /** With every filter blank the whole list is shown. */
  lemma BlankFiltersShowAll(data: seq<InventoryItem>)
    ensures Filtered(data, "", "", "") == data
  {
    FilterKeepsAll(data, item => Selected(Lower(""), "", "", item));
  }

  /** The search ignores case: a term and its lowercase form select the same items. */
  lemma SearchIgnoresCase(data: seq<InventoryItem>, search: string, category: string, stockFilter: string)
    ensures Filtered(data, search, category, stockFilter) == Filtered(data, Lower(search), category, stockFilter)
  {
    LowerIdempotent(search);
  }

  /** No item is listed both under "low" and under "out". */
  lemma LowAndOutDisjoint(data: seq<InventoryItem>, search: string, category: string)
    ensures forall item :: item in Filtered(data, search, category, "low") ==> item !in Filtered(data, search, category, "out")
  {
    var low := Filtered(data, search, category, "low");
    var out := Filtered(data, search, category, "out");
    assert forall i :: 0 <= i < |low| ==> StockOk("low", low[i]);
    assert forall j :: 0 <= j < |out| ==> StockOk("out", out[j]);
  }

  /** The filter chain, one optional stage after another, as the screen applies it. */
  function Staged(data: seq<InventoryItem>, term: string, category: string, stockFilter: string): seq<InventoryItem>
  {
    var bySearch := if term != "" then Filter(data, (item: InventoryItem) => SearchHit(term, item)) else data;
    var byCategory := if category != "" then Filter(bySearch, (item: InventoryItem) => item.category == category)
                      else bySearch;
    if stockFilter == "low" then
      Filter(byCategory, (item: InventoryItem) => item.quantityInStock <= item.reorderLevel && item.quantityInStock > 0)
    else if stockFilter == "out" then Filter(byCategory, (item: InventoryItem) => item.quantityInStock == 0)
    else byCategory
  }

  /** Applying the stages one after another is filtering once by their conjunction. */
  lemma StagesSelect(data: seq<InventoryItem>, search: string, category: string, stockFilter: string)
    ensures Staged(data, Lower(search), category, stockFilter) == Filtered(data, search, category, stockFilter)
  {
    var term := Lower(search);
    var all := (item: InventoryItem) => true;
    var s1 := (item: InventoryItem) => SearchOk(term, item);
    var s2 := (item: InventoryItem) => SearchOk(term, item) && CategoryOk(category, item);
    var s3 := (item: InventoryItem) => Selected(term, category, stockFilter, item);
    FilterKeepsAll(data, all);
    FilterStage(data, all, term != "", (item: InventoryItem) => SearchHit(term, item), s1);
    FilterStage(data, s1, category != "", (item: InventoryItem) => item.category == category, s2);
    if stockFilter == "low" {
      FilterStage(data, s2, true, (item: InventoryItem) => item.quantityInStock <= item.reorderLevel && item.quantityInStock > 0, s3);
    } else if stockFilter == "out" {
      FilterStage(data, s2, true, (item: InventoryItem) => item.quantityInStock == 0, s3);
    } else {
      FilterStage(data, s2, false, all, s3);
    }
  }

  /** The inventory list as the screen holds it: the fetched items and the rows the table shows. */
  class InventoryList {
    var data: seq<InventoryItem>
    var shown: seq<InventoryItem>

    constructor()
      ensures data == [] && shown == []
    {
      data := [];
      shown := [];
    }

    /** Fetching and rendering: the table lists every fetched item. */
    method Load(items: seq<InventoryItem>)
      modifies this`data, this`shown
      ensures data == items && shown == items
    {
      data := items;
      shown := data;
    }

    /**
     * Narrows the list stage by stage, renders the result through `data`,
     * and puts the fetched list back.
     */
    method ApplyFilters(search: string, category: string, stockFilter: string)
      modifies this`data, this`shown
      ensures data == old(data)
      ensures shown == Filtered(data, search, category, stockFilter)
    {
      var term := Lower(search);
      var filtered := data;
      if term != "" {
        filtered := Filter(filtered, (item: InventoryItem) => SearchHit(term, item));
      }
      if category != "" {
        filtered := Filter(filtered, (item: InventoryItem) => item.category == category);
      }
      if stockFilter == "low" {
        filtered := Filter(filtered, (item: InventoryItem) => item.quantityInStock <= item.reorderLevel && item.quantityInStock > 0);
      } else if stockFilter == "out" {
        filtered := Filter(filtered, (item: InventoryItem) => item.quantityInStock == 0);
      }
      StagesSelect(data, search, category, stockFilter);
      var original := data;
      data := filtered;
      shown := data;
      data := original;
    }
  }

  /** The three stock states the table shows. */
  datatype StockStatus = LowStock | OutOfStock | InStock

  /**
   * The status label: "Low Stock" whenever the stock is at or below the
   * reorder level, a test made before the one for zero stock.
   */
  function StatusOf(item: InventoryItem): (s: StockStatus)
    ensures s == LowStock <==> item.quantityInStock <= item.reorderLevel
    ensures s == OutOfStock <==> item.reorderLevel < item.quantityInStock == 0
    ensures s == InStock <==> item.quantityInStock > item.reorderLevel && item.quantityInStock != 0
  {
    if item.quantityInStock <= item.reorderLevel then LowStock
    else if item.quantityInStock == 0 then OutOfStock
    else InStock
  }

  /**
   * "Out of Stock" is shown only for a negative reorder level: an item the
   * "out" filter lists is labelled "Low Stock" whenever its reorder level
   * is not negative.
   */
  lemma OutOfStockNeedsNegativeReorder(data: seq<InventoryItem>, search: string, category: string)
    ensures forall item :: item in data && StatusOf(item) == OutOfStock ==> item.reorderLevel < 0
    ensures forall item :: item in Filtered(data, search, category, "out") && item.reorderLevel >= 0 ==>
              StatusOf(item) == LowStock
  {
    forall item | item in Filtered(data, search, category, "out") && item.reorderLevel >= 0
      ensures StatusOf(item) == LowStock
    {
      var out := Filtered(data, search, category, "out");
      var j :| 0 <= j < |out| && out[j] == item;
      assert StockOk("out", item);
    }
  }

  /** Some fetched item has category `c`. */
  predicate HasCategory(data: seq<InventoryItem>, c: string)
  {
    exists i :: 0 <= i < |data| && data[i].category == c
  }

  /** The categories of a list are those of all but its last item, plus the last one's. */
  lemma HasCategoryLast(data: seq<InventoryItem>)
    requires data != []
    ensures forall c :: HasCategory(data, c) <==> HasCategory(data[..|data| - 1], c) || c == data[|data| - 1].category
  {
    var init := data[..|data| - 1];
    forall c ensures HasCategory(data, c) <==> HasCategory(init, c) || c == data[|data| - 1].category {
      if HasCategory(init, c) {
        var i :| 0 <= i < |init| && init[i].category == c;
        assert data[i] == init[i];
      }
      if HasCategory(data, c) && c != data[|data| - 1].category {
        var i :| 0 <= i < |data| && data[i].category == c;
        assert init[i] == data[i];
      }
    }
  }

  /** The distinct categories of the fetched items, sorted, as the category filter offers them. */
  function CategoryOptions(data: seq<InventoryItem>): (r: seq<string>)
    ensures StrictlySorted(r)
    ensures forall c :: c in r <==> HasCategory(data, c)
    decreases |data|
  {
    if data == [] then []
    else
      HasCategoryLast(data);
      InsertSorted(CategoryOptions(data[..|data| - 1]), data[|data| - 1].category)
  }

  /** Any sorted duplicate-free listing of the categories is exactly the options offered. */
  lemma CategoryOptionsCanonical(data: seq<InventoryItem>, listing: seq<string>)
    requires StrictlySorted(listing)
    requires forall c :: c in listing <==> HasCategory(data, c)
    ensures listing == CategoryOptions(data)
  {
    StrictlySortedUnique(listing, CategoryOptions(data));
  }

  /** The options do not depend on the order the items were fetched in. */
  lemma CategoryOptionsIgnoreOrder(a: seq<InventoryItem>, b: seq<InventoryItem>)
    requires multiset(a) == multiset(b)
    ensures CategoryOptions(a) == CategoryOptions(b)
  {
    forall c ensures c in CategoryOptions(a) <==> c in CategoryOptions(b) {
      if c in CategoryOptions(a) {
        var i :| 0 <= i < |a| && a[i].category == c;
        assert a[i] in multiset(b);
        var j :| 0 <= j < |b| && b[j] == a[i];
      }
      if c in CategoryOptions(b) {
        var j :| 0 <= j < |b| && b[j].category == c;
        assert b[j] in multiset(a);
        var i :| 0 <= i < |a| && a[i] == b[j];
      }
    }
    CategoryOptionsCanonical(b, CategoryOptions(a));
  }

  /**
   * The item form as submitted: the text fields as typed and the three
   * numbers as parsed (`None` is NaN).
   */
  datatype ItemForm = ItemForm(
    name: string,
    sku: string,
    description: string,
    category: string,
    unitPrice: Option<real>,
    quantityInStock: Option<int>,
    reorderLevel: Option<int>)

  /**
   * The body `createItem` and `updateItem` would send if they ran (the form
   * built by `createForm` never calls them): the price through `parseFloat`,
   * the two counts through `parseInt`.  A NaN goes out as JSON null, which
   * the request schema refuses; that case is `None`.
   */
  function ItemBody(f: ItemForm): (r: Option<InventoryItemCreate>)
    ensures r.None? <==> f.unitPrice.None? || f.quantityInStock.None? || f.reorderLevel.None?
    ensures r.Some? ==> && r.value.unitPrice == f.unitPrice.value
                        && r.value.quantityInStock == f.quantityInStock.value
                        && r.value.reorderLevel == f.reorderLevel.value
                        && r.value.description == Some(f.description)
                        && r.value.name == f.name && r.value.sku == f.sku && r.value.category == f.category
  {
    match (f.unitPrice, f.quantityInStock, f.reorderLevel)
    case (Some(price), Some(stock), Some(reorder)) =>
      Some(InventoryItemCreate(f.name, Some(f.description), f.sku, price, stock, reorder, f.category))
    case _ => None
  }

  /**
   * The form's price field accepts 0, but the backend takes a parsed body
   * only when its price is positive: were `createItem` or `updateItem` to
   * send a zero price, it would come back as 422.
   */
  lemma FormPriceMustBePositive(f: ItemForm)
    requires ItemBody(f).Some?
    ensures ValidateInventoryItem(ItemBody(f).value).Success? <==> f.unitPrice.value > 0.0
    ensures f.unitPrice == Some(0.0) ==> ValidateInventoryItem(ItemBody(f).value).error.Status() == 422
  {
  }
}
