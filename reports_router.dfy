/**
 * The report endpoints: windowed revenue and expense sums, the inventory
 * valuation, the per-item sales tally with its top five, and the dashboard
 * figures.  Date parsing and the default current-month window are outside
 * the model: every window is passed in as integer instants.
 */
module ReportsRouter {
  import opened Wrappers
  import opened Models
  import opened Seqs
  import opened Database
  import opened InventoryRouter

  /** A closed interval of instants, or every instant from a start onwards. */
  datatype Window = Between(start: int, end: int) | Since(start: int)
  {
    predicate Covers(t: int)
    {
      match this
      case Between(s, e) => s <= t <= e
      case Since(s) => s <= t
    }
  }

  /** The number of transactions created inside the window. */
  function TransactionsCount(ts: seq<Transaction>, w: Window): nat
    decreases |ts|
  {
    if ts == [] then 0
    else TransactionsCount(ts[..|ts| - 1], w) + (if w.Covers(ts[|ts| - 1].createdAt) then 1 else 0)
  }

  /** A transaction's total when it was created inside the window, else 0. */
  function AmountIn(w: Window, t: Transaction): real
  {
    if w.Covers(t.createdAt) then t.totalAmount else 0.0
  }

  /** The summed totals of the transactions created inside the window. */
  function TransactionsTotal(ts: seq<Transaction>, w: Window): real
  {
    SumOf(ts, t => AmountIn(w, t))
  }

  /** A payroll entry's gross pay when it was created inside the window, else 0. */
  function GrossIn(w: Window, e: PayrollEntry): real
  {
    if w.Covers(e.createdAt) then e.grossPay else 0.0
  }

  /** The summed gross pay of the payroll entries created inside the window. */
  function PayrollGross(ps: seq<PayrollEntry>, w: Window): real
  {
    SumOf(ps, e => GrossIn(w, e))
  }

  /**
   * Both window ends are inclusive: splitting [a, c] after instant b
   * splits the revenue exactly.
   */
  lemma {:induction false} WindowSplits(ts: seq<Transaction>, a: int, b: int, c: int)
    requires a <= b < c
    ensures TransactionsTotal(ts, Between(a, c)) == TransactionsTotal(ts, Between(a, b)) + TransactionsTotal(ts, Between(b + 1, c))
    ensures TransactionsCount(ts, Between(a, c)) == TransactionsCount(ts, Between(a, b)) + TransactionsCount(ts, Between(b + 1, c))
    decreases |ts|
  {
    if ts != [] {
      WindowSplits(ts[..|ts| - 1], a, b, c);
    }
  }

  /** A window that lets nothing in sums to nothing; one that lets everything in counts everything. */
  lemma {:induction false} WindowExtremes(ts: seq<Transaction>, w: Window)
    ensures (forall i :: 0 <= i < |ts| ==> !w.Covers(ts[i].createdAt)) ==>
              TransactionsTotal(ts, w) == 0.0 && TransactionsCount(ts, w) == 0
    ensures (forall i :: 0 <= i < |ts| ==> w.Covers(ts[i].createdAt)) ==> TransactionsCount(ts, w) == |ts|
    decreases |ts|
  {
    if ts != [] {
      WindowExtremes(ts[..|ts| - 1], w);
    }
  }

  /**
   * The loop over a sales or purchases table: how many records were created
   * inside the window, and their summed totals.
   */
  method SumTransactions(table: map<int, Transaction>, counter: int, w: Window) returns (count: int, total: real)
    ensures count == TransactionsCount(InIdOrder(table, counter), w)
    ensures total == TransactionsTotal(InIdOrder(table, counter), w)
  {
    count, total := 0, 0.0;
    var id := 1;
    while id < counter
      invariant 1 <= id && (id <= counter || id == 1)
      invariant count == TransactionsCount(InIdOrder(table, id), w)
      invariant total == TransactionsTotal(InIdOrder(table, id), w)
      decreases counter - id
    {
      var listed := InIdOrder(table, id);
      if id in table {
        var t := table[id];
        assert InIdOrder(table, id + 1) == listed + [t];
        assert (listed + [t])[..|listed|] == listed;
        if w.Covers(t.createdAt) {
          count := count + 1;
          total := total + t.totalAmount;
        }
      } else {
        assert InIdOrder(table, id + 1) == listed;
      }
      id := id + 1;
    }
    if counter <= 1 {
      assert InIdOrder(table, counter) == [] == InIdOrder(table, 1);
    }
  }

  /** The loop over the payroll table: the summed gross pay of entries created inside the window. */
  method SumGrossPay(table: map<int, PayrollEntry>, counter: int, w: Window) returns (total: real)
    ensures total == PayrollGross(InIdOrder(table, counter), w)
  {
    total := 0.0;
    var id := 1;
    while id < counter
      invariant 1 <= id && (id <= counter || id == 1)
      invariant total == PayrollGross(InIdOrder(table, id), w)
      decreases counter - id
    {
      var listed := InIdOrder(table, id);
      if id in table {
        var e := table[id];
        assert InIdOrder(table, id + 1) == listed + [e];
        assert (listed + [e])[..|listed|] == listed;
        if w.Covers(e.createdAt) {
          total := total + e.grossPay;
        }
      } else {
        assert InIdOrder(table, id + 1) == listed;
      }
      id := id + 1;
    }
    if counter <= 1 {
      assert InIdOrder(table, counter) == [] == InIdOrder(table, 1);
    }
  }

  datatype FinancialSummary = FinancialSummary(
    totalRevenue: real,
    totalExpenses: real,
    netIncome: real,
    periodStart: int,
    periodEnd: int)

  /**
   * Revenue is the sales total, expenses the purchases total plus payroll
   * gross pay, each over records created in [start, end]; net income is
   * their difference.
   */
  method GetFinancialSummary(db: DB, start: int, end: int) returns (s: FinancialSummary)
    ensures s.totalRevenue == TransactionsTotal(InIdOrder(db.sales, db.saleCounter), Between(start, end))
    ensures s.totalExpenses == TransactionsTotal(InIdOrder(db.purchases, db.purchaseCounter), Between(start, end))
                               + PayrollGross(InIdOrder(db.payroll, db.payrollCounter), Between(start, end))
    ensures s.netIncome == s.totalRevenue - s.totalExpenses
    ensures s.periodStart == start && s.periodEnd == end
  {
    var w := Between(start, end);
    var _, revenue := SumTransactions(db.sales, db.saleCounter, w);
    var _, bought := SumTransactions(db.purchases, db.purchaseCounter, w);
    var paid := SumGrossPay(db.payroll, db.payrollCounter, w);
    var expenses := bought + paid;
    return FinancialSummary(revenue, expenses, revenue - expenses, start, end);
  }

  /** What the units of one item in stock are worth at its unit price. */
  function ItemValue(item: InventoryItem): real
  {
    item.quantityInStock as real * item.unitPrice
  }

  /** The stock valuation: quantity in stock × unit price, summed over the items. */
  function StockValue(items: seq<InventoryItem>): real
  {
    SumOf(items, ItemValue)
  }

  /** The ids below `n` that are keys of `m`. */
  ghost function KeysBelow<T>(m: map<int, T>, n: int): set<int>
  {
    set k | k in m && 1 <= k < n
  }

  /** The listing holds one value per key below `n`. */
  lemma {:induction false} InIdOrderLength<T>(m: map<int, T>, n: int)
    ensures |InIdOrder(m, n)| == |KeysBelow(m, n)|
    decreases n
  {
    if n <= 1 {
      assert KeysBelow(m, n) == {};
    } else {
      InIdOrderLength(m, n - 1);
      var below := KeysBelow(m, n - 1);
      if n - 1 in m {
        assert KeysBelow(m, n) == below + {n - 1};
        assert n - 1 !in below;
      } else {
        assert KeysBelow(m, n) == below;
      }
    }
  }

  /** With every key below the counter, the listing holds one value per key. */
  lemma InIdOrderCoversKeys<T>(m: map<int, T>, n: int)
    requires forall k :: k in m ==> 1 <= k < n
    ensures |InIdOrder(m, n)| == |m|
  {
    InIdOrderLength(m, n);
    assert KeysBelow(m, n) == m.Keys;
  }

  datatype InventoryReport = InventoryReport(totalItems: int, totalValue: real, lowStockItems: seq<InventoryItem>)

  /**
   * The number of items, their stock valuation, and the items at or below
   * their reorder level, in id order.
   */
  method GetInventoryReport(db: DB) returns (rep: InventoryReport)
    ensures rep.totalItems == |db.inventory|
    ensures rep.totalValue == StockValue(InIdOrder(db.inventory, db.inventoryCounter))
    ensures rep.lowStockItems == Filter(InIdOrder(db.inventory, db.inventoryCounter), IsLowStock)
  {
    var inv, counter := db.inventory, db.inventoryCounter;
    var totalValue := 0.0;
    var low: seq<InventoryItem> := [];
    ghost var listed: seq<InventoryItem> := [];
    var id := 1;
    while id < counter
      invariant 1 <= id && (id <= counter || id == 1)
      invariant listed == InIdOrder(inv, id)
      invariant totalValue == StockValue(listed)
      invariant low == Filter(listed, IsLowStock)
      decreases counter - id
    {
      if id in inv {
        var item := inv[id];
        assert (listed + [item])[..|listed|] == listed;
        totalValue := totalValue + ItemValue(item);
        if IsLowStock(item) {
          low := low + [item];
        }
        listed := listed + [item];
      }
      id := id + 1;
    }
    if counter <= 1 {
      assert InIdOrder(inv, counter) == [] == InIdOrder(inv, 1);
    }
    return InventoryReport(|db.inventory|, totalValue, low);
  }

  /** The item count is the number of items the report walks over. */
  lemma TotalItemsIsListed(db: DB)
    requires db.Valid()
    ensures |db.inventory| == |InIdOrder(db.inventory, db.inventoryCounter)|
  {
    InIdOrderCoversKeys(db.inventory, db.inventoryCounter);
  }

  // ---- per-item sales tally ----

  /** One entry of the sales tally: an item name and the quantity sold under it. */
  datatype Sold = Sold(item: string, quantitySold: int)

  /** The position of `name` in the tally, if present. */
  function IndexOf(tally: seq<Sold>, name: string): (r: Option<nat>)
    ensures r.Some? ==> r.value < |tally| && tally[r.value].item == name
    ensures r.None? ==> forall i :: 0 <= i < |tally| ==> tally[i].item != name
    decreases |tally|
  {
    if tally == [] then None
    else if tally[|tally| - 1].item == name then Some(|tally| - 1)
    else IndexOf(tally[..|tally| - 1], name)
  }

  /**
   * Adds `q` to the entry for `name`, or appends a new entry for it: the
   * tally is an insertion-ordered dictionary.
   */
  function AddSold(tally: seq<Sold>, name: string, q: int): seq<Sold>
  {
    match IndexOf(tally, name)
    case Some(i) => tally[i := Sold(name, tally[i].quantitySold + q)]
    case None => tally + [Sold(name, q)]
  }

  /** The tally after the lines of one sale, in order. */
  function TallyLines(tally: seq<Sold>, items: seq<StoredLine>): seq<Sold>
    decreases |items|
  {
    if items == [] then tally
    else
      var last := items[|items| - 1];
      AddSold(TallyLines(tally, items[..|items| - 1]), last.inventoryItemName, last.line.quantity)
  }

  /** The tally over the sales created inside the window, in order. */
  function TallySales(ts: seq<Transaction>, w: Window): seq<Sold>
    decreases |ts|
  {
    if ts == [] then []
    else
      var before := TallySales(ts[..|ts| - 1], w);
      if w.Covers(ts[|ts| - 1].createdAt) then TallyLines(before, ts[|ts| - 1].items) else before
  }

  /** The quantity a tally records under `name`: the sum over its entries with that name. */
  function SoldOf(tally: seq<Sold>, name: string): int
    decreases |tally|
  {
    if tally == [] then 0
    else SoldOf(tally[..|tally| - 1], name) + (if tally[|tally| - 1].item == name then tally[|tally| - 1].quantitySold else 0)
  }

  /** The quantity sold under `name` by some lines. */
  function LinesSold(items: seq<StoredLine>, name: string): int
    decreases |items|
  {
    if items == [] then 0
    else LinesSold(items[..|items| - 1], name) + (if items[|items| - 1].inventoryItemName == name then items[|items| - 1].line.quantity else 0)
  }

  /** The quantity sold under `name` by the sales created inside the window. */
  function QuantitySold(ts: seq<Transaction>, w: Window, name: string): int
    decreases |ts|
  {
    if ts == [] then 0
    else QuantitySold(ts[..|ts| - 1], w, name) + (if w.Covers(ts[|ts| - 1].createdAt) then LinesSold(ts[|ts| - 1].items, name) else 0)
  }

  /** No name has two entries. */
  predicate NamesDistinct(tally: seq<Sold>)
  {
    forall i, j :: 0 <= i < j < |tally| ==> tally[i].item != tally[j].item
  }

  /** Replacing one entry changes the sum under each name by the difference of the two entries. */
  lemma {:induction false} SoldOfUpdate(tally: seq<Sold>, i: nat, e: Sold, name: string)
    requires i < |tally|
    ensures SoldOf(tally[i := e], name)
            == SoldOf(tally, name) - (if tally[i].item == name then tally[i].quantitySold else 0)
                                   + (if e.item == name then e.quantitySold else 0)
    decreases |tally|
  {
    var n := |tally|;
    if i < n - 1 {
      assert tally[i := e][..n - 1] == tally[..n - 1][i := e];
      SoldOfUpdate(tally[..n - 1], i, e, name);
    } else {
      assert tally[i := e][..n - 1] == tally[..n - 1];
    }
  }

  /** Adding to the tally adds to exactly one name, and keeps names distinct. */
  lemma AddSoldEffect(tally: seq<Sold>, name: string, q: int, other: string)
    ensures SoldOf(AddSold(tally, name, q), other) == SoldOf(tally, other) + (if other == name then q else 0)
    ensures NamesDistinct(tally) ==> NamesDistinct(AddSold(tally, name, q))
  {
    match IndexOf(tally, name)
    case Some(i) =>
      SoldOfUpdate(tally, i, Sold(name, tally[i].quantitySold + q), other);
    case None =>
      assert (tally + [Sold(name, q)])[..|tally|] == tally;
  }

  /** Tallying lines adds each line's quantity under its name. */
  lemma {:induction false} TallyLinesEffect(tally: seq<Sold>, items: seq<StoredLine>, name: string)
    ensures SoldOf(TallyLines(tally, items), name) == SoldOf(tally, name) + LinesSold(items, name)
    ensures NamesDistinct(tally) ==> NamesDistinct(TallyLines(tally, items))
    decreases |items|
  {
    if items != [] {
      var last := items[|items| - 1];
      TallyLinesEffect(tally, items[..|items| - 1], name);
      AddSoldEffect(TallyLines(tally, items[..|items| - 1]), last.inventoryItemName, last.line.quantity, name);
    }
  }

  /**
   * The tally holds one entry per name, and records under each name the
   * quantity sold under it in the window.
   */
  lemma {:induction false} TallySalesCounts(ts: seq<Transaction>, w: Window, name: string)
    ensures NamesDistinct(TallySales(ts, w))
    ensures SoldOf(TallySales(ts, w), name) == QuantitySold(ts, w, name)
    decreases |ts|
  {
    if ts != [] {
      var last := ts[|ts| - 1];
      TallySalesCounts(ts[..|ts| - 1], w, name);
      if w.Covers(last.createdAt) {
        TallyLinesEffect(TallySales(ts[..|ts| - 1], w), last.items, name);
      }
    }
  }

  /** In a tally with distinct names, an entry's quantity is the whole sum under its name. */
  lemma {:induction false} EntryIsWholeSum(tally: seq<Sold>, k: nat)
    requires NamesDistinct(tally) && k < |tally|
    ensures SoldOf(tally, tally[k].item) == tally[k].quantitySold
    decreases |tally|
  {
    var n := |tally|;
    if k < n - 1 {
      EntryIsWholeSum(tally[..n - 1], k);
    } else {
      NameAbsentSumsZero(tally[..n - 1], tally[k].item);
    }
  }

  lemma {:induction false} NameAbsentSumsZero(tally: seq<Sold>, name: string)
    requires forall i :: 0 <= i < |tally| ==> tally[i].item != name
    ensures SoldOf(tally, name) == 0
    decreases |tally|
  {
    if tally != [] {
      NameAbsentSumsZero(tally[..|tally| - 1], name);
    }
  }

  // ---- top five ----

  /** Non-increasing by quantity sold. */
  predicate SortedDesc(s: seq<Sold>)
  {
    forall i, j :: 0 <= i < j < |s| ==> s[i].quantitySold >= s[j].quantitySold
  }

  /** Inserts `x` after every entry selling at least as much: a later entry never overtakes an equal one. */
  function InsertDesc(x: Sold, s: seq<Sold>): seq<Sold>
    decreases |s|
  {
    if s == [] then [x]
    else if s[0].quantitySold >= x.quantitySold then [s[0]] + InsertDesc(x, s[1..])
    else [x] + s
  }

  /** The stable sort by quantity sold, largest first. */
  function SortDesc(s: seq<Sold>): seq<Sold>
    decreases |s|
  {
    if s == [] then [] else InsertDesc(s[|s| - 1], SortDesc(s[..|s| - 1]))
  }

  /** Insertion adds exactly `x`. */
  lemma {:induction false} InsertDescMultiset(x: Sold, s: seq<Sold>)
    ensures multiset(InsertDesc(x, s)) == multiset(s) + multiset{x}
    decreases |s|
  {
    if s != [] && s[0].quantitySold >= x.quantitySold {
      InsertDescMultiset(x, s[1..]);
      assert s == [s[0]] + s[1..];
    }
  }

  /** Insertion keeps the order, and the head is the old head unless `x` sells more. */
  lemma {:induction false} InsertDescSorted(x: Sold, s: seq<Sold>)
    requires SortedDesc(s)
    ensures SortedDesc(InsertDesc(x, s))
    ensures |InsertDesc(x, s)| == |s| + 1
    ensures InsertDesc(x, s)[0] == if s != [] && s[0].quantitySold >= x.quantitySold then s[0] else x
    decreases |s|
  {
    if s != [] && s[0].quantitySold >= x.quantitySold {
      InsertDescSorted(x, s[1..]);
      var r := InsertDesc(x, s[1..]);
      assert r[0].quantitySold <= s[0].quantitySold;
      assert forall j :: 0 <= j < |r| ==> r[j].quantitySold <= r[0].quantitySold;
    }
  }

  /** The sort orders by quantity. */
  lemma {:induction false} SortDescSorted(s: seq<Sold>)
    ensures SortedDesc(SortDesc(s))
    ensures |SortDesc(s)| == |s|
    decreases |s|
  {
    if s != [] {
      SortDescSorted(s[..|s| - 1]);
      InsertDescSorted(s[|s| - 1], SortDesc(s[..|s| - 1]));
    }
  }

  /** The sort keeps exactly the entries it was given. */
  lemma {:induction false} SortDescMultiset(s: seq<Sold>)
    ensures multiset(SortDesc(s)) == multiset(s)
    decreases |s|
  {
    if s != [] {
      var init := s[..|s| - 1];
      SortDescMultiset(init);
      InsertDescMultiset(s[|s| - 1], SortDesc(init));
      assert s == init + [s[|s| - 1]];
    }
  }

  /** The first five entries of the sorted tally. */
  function TopSelling(tally: seq<Sold>): seq<Sold>
  {
    var sorted := SortDesc(tally);
    if |sorted| <= 5 then sorted else sorted[..5]
  }

  /**
   * The top list has at most five entries, all from the tally, by
   * non-increasing quantity; every entry left out sold no more than any
   * entry kept; and when the tally has five entries or fewer, all are kept.
   */
  lemma TopSellingProps(tally: seq<Sold>)
    ensures |TopSelling(tally)| <= 5
    ensures |TopSelling(tally)| == if |tally| <= 5 then |tally| else 5
    ensures SortedDesc(TopSelling(tally))
    ensures forall x :: x in TopSelling(tally) ==> x in tally
    ensures forall x, y :: x in tally && x !in TopSelling(tally) && y in TopSelling(tally) ==>
              x.quantitySold <= y.quantitySold
  {
    var sorted := SortDesc(tally);
    SortDescSorted(tally);
    SortDescMultiset(tally);
    var top := TopSelling(tally);
    forall x | x in top ensures x in tally {
      assert x in multiset(sorted);
    }
    forall x, y | x in tally && x !in top && y in top ensures x.quantitySold <= y.quantitySold {
      assert x in multiset(sorted);
      var j :| 0 <= j < |sorted| && sorted[j] == x;
      var i :| 0 <= i < |top| && top[i] == y;
      assert j >= |top|;
    }
  }

  /** The inner loop of the sales report: each line's quantity is added under its item name. */
  method TallyInto(tally: seq<Sold>, items: seq<StoredLine>) returns (r: seq<Sold>)
    ensures r == TallyLines(tally, items)
  {
    r := tally;
    var j := 0;
    while j < |items|
      invariant 0 <= j <= |items|
      invariant r == TallyLines(tally, items[..j])
    {
      var item := items[j];
      match IndexOf(r, item.inventoryItemName) {
        case Some(k) =>
          r := r[k := Sold(item.inventoryItemName, r[k].quantitySold + item.line.quantity)];
        case None =>
          r := r + [Sold(item.inventoryItemName, item.line.quantity)];
      }
      assert items[..j + 1][..j] == items[..j];
      j := j + 1;
    }
    assert items[..j] == items;
  }

  /** Every top-selling entry carries the whole quantity sold under its name in the window. */
  lemma TopEntriesAreTotals(ts: seq<Transaction>, w: Window)
    ensures forall x :: x in TopSelling(TallySales(ts, w)) ==> x.quantitySold == QuantitySold(ts, w, x.item)
  {
    var tally := TallySales(ts, w);
    TopSellingProps(tally);
    forall x | x in TopSelling(tally) ensures x.quantitySold == QuantitySold(ts, w, x.item) {
      var k :| 0 <= k < |tally| && tally[k] == x;
      TallySalesCounts(ts, w, x.item);
      EntryIsWholeSum(tally, k);
    }
  }

  /** How each figure of the sales report grows by one more sale. */
  lemma SalesStep(listed: seq<Transaction>, sale: Transaction, w: Window)
    ensures TransactionsCount(listed + [sale], w) == TransactionsCount(listed, w) + (if w.Covers(sale.createdAt) then 1 else 0)
    ensures TransactionsTotal(listed + [sale], w) == TransactionsTotal(listed, w) + (if w.Covers(sale.createdAt) then sale.totalAmount else 0.0)
    ensures TallySales(listed + [sale], w)
            == if w.Covers(sale.createdAt) then TallyLines(TallySales(listed, w), sale.items) else TallySales(listed, w)
  {
    assert (listed + [sale])[..|listed|] == listed;
  }

  datatype SalesReport = SalesReport(
    totalSales: int,
    totalRevenue: real,
    periodStart: int,
    periodEnd: int,
    topSellingItems: seq<Sold>)

  /**
   * The number and summed totals of the sales created in [start, end], and
   * the five best-selling item names by summed quantity over their lines.
   */
  method GetSalesReport(db: DB, start: int, end: int) returns (rep: SalesReport)
    ensures rep.totalSales == TransactionsCount(InIdOrder(db.sales, db.saleCounter), Between(start, end))
    ensures rep.totalRevenue == TransactionsTotal(InIdOrder(db.sales, db.saleCounter), Between(start, end))
    ensures rep.topSellingItems == TopSelling(TallySales(InIdOrder(db.sales, db.saleCounter), Between(start, end)))
    ensures rep.periodStart == start && rep.periodEnd == end
  {
    var w := Between(start, end);
    var sales, counter := db.sales, db.saleCounter;
    var salesInPeriod := 0;
    var totalRevenue := 0.0;
    var itemSales: seq<Sold> := [];
    var id := 1;
    while id < counter
      invariant 1 <= id && (id <= counter || id == 1)
      invariant salesInPeriod == TransactionsCount(InIdOrder(sales, id), w)
      invariant totalRevenue == TransactionsTotal(InIdOrder(sales, id), w)
      invariant itemSales == TallySales(InIdOrder(sales, id), w)
      decreases counter - id
    {
      var listed := InIdOrder(sales, id);
      if id in sales {
        var sale := sales[id];
        assert InIdOrder(sales, id + 1) == listed + [sale];
        SalesStep(listed, sale, w);
        if w.Covers(sale.createdAt) {
          salesInPeriod := salesInPeriod + 1;
          totalRevenue := totalRevenue + sale.totalAmount;
          itemSales := TallyInto(itemSales, sale.items);
        }
      } else {
        assert InIdOrder(sales, id + 1) == listed;
      }
      id := id + 1;
    }
    if counter <= 1 {
      assert InIdOrder(sales, counter) == [] == InIdOrder(sales, 1);
    }
    return SalesReport(salesInPeriod, totalRevenue, start, end, TopSelling(itemSales));
  }

  /** The distinct employee ids among payroll entries. */
  function EmployeeIds(entries: seq<PayrollEntry>): set<string>
  {
    set e | e in entries :: e.data.employeeId
  }

  /** There are never more distinct employees than entries. */
  lemma {:induction false} EmployeeIdsBound(entries: seq<PayrollEntry>)
    ensures |EmployeeIds(entries)| <= |entries|
    decreases |entries|
  {
    if entries != [] {
      var init := entries[..|entries| - 1];
      EmployeeIdsBound(init);
      assert EmployeeIds(entries) == EmployeeIds(init) + {entries[|entries| - 1].data.employeeId} by {
        assert entries == init + [entries[|entries| - 1]];
      }
    } else {
      assert EmployeeIds(entries) == {};
    }
  }

  datatype DashboardStats = DashboardStats(
    monthlySales: int,
    monthlyRevenue: real,
    monthlyExpenses: real,
    monthlyProfit: real,
    totalInventoryItems: int,
    totalInventoryValue: real,
    lowStockItems: int,
    totalEmployees: int)

  /**
   * The figures since `monthStart` (sales count and total, purchases plus
   * payroll gross pay, their difference), the item count and stock value,
   * the number of low-stock items, and the number of distinct employees.
   */
  method GetDashboardStats(db: DB, monthStart: int) returns (s: DashboardStats)
    ensures s.monthlySales == TransactionsCount(InIdOrder(db.sales, db.saleCounter), Since(monthStart))
    ensures s.monthlyRevenue == TransactionsTotal(InIdOrder(db.sales, db.saleCounter), Since(monthStart))
    ensures s.monthlyExpenses == TransactionsTotal(InIdOrder(db.purchases, db.purchaseCounter), Since(monthStart))
                                 + PayrollGross(InIdOrder(db.payroll, db.payrollCounter), Since(monthStart))
    ensures s.monthlyProfit == s.monthlyRevenue - s.monthlyExpenses
    ensures s.totalInventoryItems == |db.inventory|
    ensures s.totalInventoryValue == StockValue(InIdOrder(db.inventory, db.inventoryCounter))
    ensures s.lowStockItems == Count(InIdOrder(db.inventory, db.inventoryCounter), IsLowStock)
    ensures s.totalEmployees == |EmployeeIds(InIdOrder(db.payroll, db.payrollCounter))|
  {
    var w := Since(monthStart);
    var monthlySales, monthlyRevenue := SumTransactions(db.sales, db.saleCounter, w);
    var _, bought := SumTransactions(db.purchases, db.purchaseCounter, w);
    var paid := SumGrossPay(db.payroll, db.payrollCounter, w);
    var monthlyExpenses := bought + paid;
    var items := InIdOrder(db.inventory, db.inventoryCounter);
    s := DashboardStats(monthlySales, monthlyRevenue, monthlyExpenses, monthlyRevenue - monthlyExpenses,
                        |db.inventory|, StockValue(items), Count(items, IsLowStock),
                        |EmployeeIds(InIdOrder(db.payroll, db.payrollCounter))|);
  }

  /** The dashboard's low-stock count is the length of the inventory report's low-stock list. */
  lemma LowStockCountsAgree(items: seq<InventoryItem>)
    ensures Count(items, IsLowStock) == |Filter(items, IsLowStock)|
  {
    CountIsFilterLength(items, IsLowStock);
  }
}
