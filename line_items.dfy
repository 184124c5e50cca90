/**
 * The client's sale and purchase entry form.  The two screens are the same
 * engine over a list of item rows; they differ only in the wording of their
 * messages, the endpoint they post to, and the JSON name of the unit amount
 * (`unit_price` for a sale, `unit_cost` for a purchase).  The DOM is
 * replaced by the row list itself; parsing a field is abstracted as an
 * `Option` whose `None` is NaN.
 */
module LineItems {
  import opened Wrappers
  import opened Models
  import opened Seqs
  import Ledger

  datatype Kind = SaleForm | PurchaseForm
  {
    function Endpoint(): string
    {
      if this == SaleForm then "/sales" else "/purchases"
    }

    function EmptyMessage(): string
    {
      if this == SaleForm then "Please add at least one item to the sale"
      else "Please add at least one item to the purchase"
    }

    function SuccessMessage(): string
    {
      if this == SaleForm then "Sale created successfully" else "Purchase created successfully"
    }

    function FailureFallback(): string
    {
      if this == SaleForm then "Failed to create sale" else "Failed to create purchase"
    }
  }

  /** A number field as read by `parseFloat` and by `parseInt`; `None` is NaN. */
  datatype NumberInput = NumberInput(asFloat: Option<real>, asInt: Option<int>)

  /**
   * One item row: the selected item's id (`None` for the blank "Select
   * Item" option), the quantity field, and the unit amount field as read
   * by `parseFloat`.
   */
  datatype Row = Row(itemId: Option<int>, quantity: NumberInput, amount: Option<real>)

  /** A freshly added row: every field blank. */
  function EmptyRow(): Row
  {
    Row(None, NumberInput(None, None), None)
  }

  /** `parseFloat(v) || 0`: NaN counts as 0. */
  function OrZero(x: Option<real>): real
  {
    x.GetOr(0.0)
  }

  /** A row's contribution to the displayed total. */
  function RowAmount(r: Row): real
  {
    OrZero(r.quantity.asFloat) * OrZero(r.amount)
  }

  /** The displayed total: every row's quantity × unit amount, none left out. */
  function DisplayTotal(rows: seq<Row>): real
  {
    SumOf(rows, RowAmount)
  }

  /** The displayed total of a concatenation is the sum of the displayed totals. */
  lemma DisplayTotalAppend(a: seq<Row>, b: seq<Row>)
    ensures DisplayTotal(a + b) == DisplayTotal(a) + DisplayTotal(b)
  {
    SumOfAppend(a, b, RowAmount);
  }

  /** A single row's displayed total is its own amount. */
  lemma DisplayTotalSingle(r: Row)
    ensures DisplayTotal([r]) == RowAmount(r)
  {
    assert [r][..0] == [];
    assert SumOf([r], RowAmount) == SumOf([r][..0], RowAmount) + RowAmount(r);
  }

  /** Removing a row takes exactly its own amount off the displayed total. */
  lemma DisplayTotalRemove(rows: seq<Row>, i: nat)
    requires i < |rows|
    ensures DisplayTotal(rows) == DisplayTotal(rows[..i] + rows[i + 1..]) + RowAmount(rows[i])
  {
    SumOfRemove(rows, i, RowAmount);
  }

  /** Replacing one row changes the displayed total by the difference of the two rows' amounts. */
  lemma DisplayTotalReplace(rows: seq<Row>, i: nat, r: Row)
    requires i < |rows|
    ensures DisplayTotal(rows[i := r]) == DisplayTotal(rows) - RowAmount(rows[i]) + RowAmount(r)
  {
    DisplayTotalRemove(rows, i);
    DisplayTotalRemove(rows[i := r], i);
    assert rows[i := r][..i] == rows[..i] && rows[i := r][i + 1..] == rows[i + 1..];
  }

  /** JavaScript truthiness of a parsed integer: neither NaN nor 0. */
  predicate TruthyInt(x: Option<int>)
  {
    x.Some? && x.value != 0
  }

  /** JavaScript truthiness of a parsed number: neither NaN nor 0. */
  predicate TruthyReal(x: Option<real>)
  {
    x.Some? && x.value != 0.0
  }

  /** A row is sent only when its item id, integer quantity and unit amount are all truthy. */
  predicate Committed(r: Row)
  {
    TruthyInt(r.itemId) && TruthyInt(r.quantity.asInt) && TruthyReal(r.amount)
  }

  /** The payload line of a committed row. */
  function LineOf(r: Row): (l: Line)
    requires Committed(r)
    ensures l.inventoryItemId != 0 && l.quantity != 0 && l.unitAmount != 0.0
  {
    Line(r.itemId.value, r.quantity.asInt.value, r.amount.value)
  }

  /** The payload lines, in row order, built as the collection loop pushes them. */
  function SerializedItems(rows: seq<Row>): (items: seq<Line>)
    ensures |items| <= |rows|
    decreases |rows|
  {
    if rows == [] then []
    else
      var before := SerializedItems(rows[..|rows| - 1]);
      var last := rows[|rows| - 1];
      if Committed(last) then before + [LineOf(last)] else before
  }

  /**
   * The payload is the committed rows, kept in their order, each turned
   * into its line: the i-th line is that of the i-th committed row.
   */
  lemma {:induction false} SerializedIsCommittedRows(rows: seq<Row>)
    ensures |SerializedItems(rows)| == |Filter(rows, Committed)|
    ensures forall i :: 0 <= i < |Filter(rows, Committed)| ==>
              Committed(Filter(rows, Committed)[i]) && SerializedItems(rows)[i] == LineOf(Filter(rows, Committed)[i])
    ensures SubseqOf(Filter(rows, Committed), rows)
    decreases |rows|
  {
    FilterIsSubseq(rows, Committed);
    if rows != [] {
      var init, last := rows[..|rows| - 1], rows[|rows| - 1];
      SerializedIsCommittedRows(init);
      var kept, sent := Filter(init, Committed), SerializedItems(init);
      if Committed(last) {
        assert Filter(rows, Committed) == kept + [last];
        assert SerializedItems(rows) == sent + [LineOf(last)];
        forall i | 0 <= i < |kept| + 1
          ensures Committed((kept + [last])[i]) && (sent + [LineOf(last)])[i] == LineOf((kept + [last])[i])
        {
          if i < |kept| {
            assert (kept + [last])[i] == kept[i] && (sent + [LineOf(last)])[i] == sent[i];
          }
        }
      } else {
        assert Filter(rows, Committed) == kept;
        assert SerializedItems(rows) == sent;
      }
    }
  }

  /** Nothing is sent exactly when no row is committed. */
  lemma {:induction false} SerializedEmptyIff(rows: seq<Row>)
    ensures SerializedItems(rows) == [] <==> forall i :: 0 <= i < |rows| ==> !Committed(rows[i])
    decreases |rows|
  {
    if rows != [] {
      var init := rows[..|rows| - 1];
      SerializedEmptyIff(init);
      if forall i :: 0 <= i < |rows| ==> !Committed(rows[i]) {
        assert forall i :: 0 <= i < |init| ==> !Committed(init[i]) by {
          forall i | 0 <= i < |init| ensures !Committed(init[i]) {
            assert init[i] == rows[i];
          }
        }
      }
      if SerializedItems(rows) == [] {
        forall i | 0 <= i < |rows| ensures !Committed(rows[i]) {
          if i < |init| {
            assert init[i] == rows[i];
          }
        }
      }
    }
  }

  /**
   * When every row is committed and each quantity reads the same as a
   * float and as an integer, the displayed total is the total the server
   * will compute from the payload.
   */
  lemma {:induction false} DisplayMatchesServerTotal(rows: seq<Row>)
    requires forall i :: 0 <= i < |rows| ==>
               Committed(rows[i]) && rows[i].quantity.asFloat == Some(rows[i].quantity.asInt.value as real)
    ensures DisplayTotal(rows) == Ledger.LinesTotal(SerializedItems(rows))
    decreases |rows|
  {
    if rows != [] {
      var init := rows[..|rows| - 1];
      var last := rows[|rows| - 1];
      DisplayMatchesServerTotal(init);
      var items := SerializedItems(init) + [LineOf(last)];
      assert items[..|items| - 1] == SerializedItems(init);
    }
  }

  /**
   * The displayed total and the payload disagree on incomplete rows: a row
   * with quantity 2 and price 10 but no item adds 20 to the display and
   * nothing to the payload.
   */
  lemma DroppedRowStillCounted()
    ensures var r := Row(None, NumberInput(Some(2.0), Some(2)), Some(10.0));
            DisplayTotal([r]) == 20.0 && SerializedItems([r]) == []
  {
    var r := Row(None, NumberInput(Some(2.0), Some(2)), Some(10.0));
    assert [r][..0] == [];
  }

  /** The "Total Revenue" / "Total Spent" card: the plain sum of every listed transaction's total. */
  function TotalAmount(ts: seq<Transaction>): real
  {
    SumOf(ts, (t: Transaction) => t.totalAmount)
  }

  /** The card's sum of a concatenation is the sum of the two cards. */
  lemma TotalAmountAppend(a: seq<Transaction>, b: seq<Transaction>)
    ensures TotalAmount(a + b) == TotalAmount(a) + TotalAmount(b)
  {
    SumOfAppend(a, b, (t: Transaction) => t.totalAmount);
  }

  /** When every total lies in [lo, hi], the sum lies between n·lo and n·hi. */
  lemma TotalAmountBounds(ts: seq<Transaction>, lo: real, hi: real)
    requires forall i :: 0 <= i < |ts| ==> lo <= ts[i].totalAmount <= hi
    ensures lo * |ts| as real <= TotalAmount(ts) <= hi * |ts| as real
  {
    SumOfBounds(ts, (t: Transaction) => t.totalAmount, lo, hi);
  }

  /** The "Average Sale" / "Average Purchase" card: 0 for an empty list, otherwise total ÷ count. */
  function AverageAmount(ts: seq<Transaction>): (avg: real)
    ensures ts == [] ==> avg == 0.0
    ensures ts != [] ==> avg * |ts| as real == TotalAmount(ts)
  {
    if |ts| == 0 then 0.0 else TotalAmount(ts) / |ts| as real
  }

  /** The average lies between the smallest and the largest total. */
  lemma AverageWithinBounds(ts: seq<Transaction>, lo: real, hi: real)
    requires ts != []
    requires forall i :: 0 <= i < |ts| ==> lo <= ts[i].totalAmount <= hi
    ensures lo <= AverageAmount(ts) <= hi
  {
    TotalAmountBounds(ts, lo, hi);
    var n := |ts| as real;
    var avg := AverageAmount(ts);
    assert (avg - lo) * n >= 0.0 && (hi - avg) * n >= 0.0;
  }

  /** `value || null`: a blank field becomes null. */
  function OrNull(s: string): (r: Option<string>)
    ensures r.None? <==> s == ""
    ensures r.Some? ==> r.value == s
  {
    if s == "" then None else Some(s)
  }

  /** The raw text fields of the form. */
  datatype Header = Header(name: string, email: string, notes: string)

  /** The request body posted for the given header and lines. */
  function PayloadOf(h: Header, items: seq<Line>): (p: TransactionCreate)
    ensures p.items == items && p.counterpartyName == h.name
    ensures p.counterpartyEmail != Some("") && p.notes != Some("")
    ensures p.counterpartyEmail.None? <==> h.email == ""
    ensures p.notes.None? <==> h.notes == ""
  {
    TransactionCreate(h.name, OrNull(h.email), items, OrNull(h.notes))
  }

  /**
   * The form's blank email and notes are the server's defaults: the body
   * posted is the request with only the required fields given exactly
   * when both optional fields are left blank.
   */
  lemma BlankOptionalsAreServerDefaults(h: Header, items: seq<Line>)
    ensures PayloadOf(h, items) == TransactionRequest(h.name, items) <==> h.email == "" && h.notes == ""
  {
  }

  datatype Alert = Alert(message: string, isError: bool)
  datatype Post = Post(endpoint: string, body: TransactionCreate)

  /** The outcome of the POST: created, or refused with the backend's `detail`, if any. */
  datatype PostResponse = Created | Rejected(detail: Option<string>)

  /** The error shown for a refused POST: the backend's detail, or the fallback when it is absent or blank. */
  function FailureMessage(kind: Kind, detail: Option<string>): (m: string)
    ensures detail.Some? && detail.value != "" ==> m == detail.value
    ensures detail.None? || detail == Some("") ==> m == kind.FailureFallback()
  {
    match detail
    case Some(d) => if d != "" then d else kind.FailureFallback()
    case None => kind.FailureFallback()
  }

  /**
   * The open entry form: its rows, whether the remove buttons are shown,
   * the displayed total, whether the modal is open, and what it has posted,
   * alerted and reloaded so far.
   */
  class TransactionForm {
    const kind: Kind
    const catalog: seq<InventoryItem>
    var rows: seq<Row>
    var removeShown: bool
    var displayedTotal: real
    var modalOpen: bool
    var posts: seq<Post>
    var alerts: seq<Alert>
    var reloads: nat

    /** At least one row; remove buttons shown iff there are several; the total is current. */
    ghost predicate Valid()
      reads this
    {
      && |rows| >= 1
      && removeShown == (|rows| > 1)
      && displayedTotal == DisplayTotal(rows)
    }

    /** The form as first opened: one blank row with its remove button hidden, total 0. */
    constructor(kind: Kind, catalog: seq<InventoryItem>)
      ensures Valid()
      ensures this.kind == kind && this.catalog == catalog
      ensures rows == [EmptyRow()] && !removeShown && displayedTotal == 0.0
      ensures modalOpen && posts == [] && alerts == [] && reloads == 0
    {
      this.kind := kind;
      this.catalog := catalog;
      rows := [EmptyRow()];
      removeShown := false;
      displayedTotal := 0.0;
      modalOpen := true;
      posts := [];
      alerts := [];
      reloads := 0;
      new;
      assert [EmptyRow()][..0] == [];
    }

    /** Recomputes the displayed total over every row. */
    method UpdateTotal()
      modifies this`displayedTotal
      ensures displayedTotal == DisplayTotal(rows)
    {
      var total := 0.0;
      var i := 0;
      while i < |rows|
        invariant 0 <= i <= |rows|
        invariant total == DisplayTotal(rows[..i])
      {
        var row := rows[i];
        total := total + OrZero(row.quantity.asFloat) * OrZero(row.amount);
        assert rows[..i + 1][..i] == rows[..i];
        i := i + 1;
      }
      assert rows[..i] == rows;
      displayedTotal := total;
    }

    /** Shows every remove button when there is more than one row, hides them all otherwise. */
    method UpdateRemoveButtons()
      modifies this`removeShown
      ensures removeShown == (|rows| > 1)
    {
      removeShown := |rows| > 1;
    }

    /** Appends one blank row at the end; the total stays correct without a recount. */
    method AddRow()
      requires Valid()
      modifies this`rows, this`removeShown
      ensures Valid()
      ensures rows == old(rows) + [EmptyRow()]
      ensures removeShown
    {
      DisplayTotalAppend(rows, [EmptyRow()]);
      assert [EmptyRow()][..0] == [];
      rows := rows + [EmptyRow()];
      UpdateRemoveButtons();
    }

    /**
     * A click on row `i`'s remove button.  With one row the button is hidden
     * and the click cannot happen, so nothing changes; otherwise exactly
     * that row goes and the total drops by its amount.
     */
    method ClickRemove(i: nat)
      requires Valid() && i < |rows|
      modifies this`rows, this`removeShown, this`displayedTotal
      ensures Valid()
      ensures old(|rows|) == 1 ==> rows == old(rows) && displayedTotal == old(displayedTotal)
      ensures old(|rows|) > 1 ==>
                rows == old(rows)[..i] + old(rows)[i + 1..]
                && displayedTotal == old(displayedTotal) - RowAmount(old(rows)[i])
    {
      if !removeShown {
        return;
      }
      DisplayTotalRemove(rows, i);
      rows := rows[..i] + rows[i + 1..];
      UpdateRemoveButtons();
      UpdateTotal();
    }

    /**
     * Choosing option `k` of row `i`'s item list: 0 is the blank option and
     * only clears the selection; option k > 0 selects catalog entry k-1 and
     * overwrites the unit amount with its unit price.
     */
    method SelectOption(i: nat, k: nat)
      requires Valid() && i < |rows| && k <= |catalog|
      modifies this`rows, this`displayedTotal
      ensures Valid()
      ensures k == 0 ==> rows == old(rows)[i := old(rows)[i].(itemId := None)]
      ensures k > 0 ==>
                rows == old(rows)[i := old(rows)[i].(itemId := Some(catalog[k - 1].id),
                                                     amount := Some(catalog[k - 1].unitPrice))]
    {
      if k == 0 {
        DisplayTotalReplace(rows, i, rows[i].(itemId := None));
        rows := rows[i := rows[i].(itemId := None)];
      } else {
        var chosen := catalog[k - 1];
        rows := rows[i := rows[i].(itemId := Some(chosen.id), amount := Some(chosen.unitPrice))];
        UpdateTotal();
      }
    }

    /** Typing into row `i`'s quantity field. */
    method EditQuantity(i: nat, v: NumberInput)
      requires Valid() && i < |rows|
      modifies this`rows, this`displayedTotal
      ensures Valid()
      ensures rows == old(rows)[i := old(rows)[i].(quantity := v)]
    {
      rows := rows[i := rows[i].(quantity := v)];
      UpdateTotal();
    }

    /** Typing into row `i`'s unit amount field. */
    method EditAmount(i: nat, a: Option<real>)
      requires Valid() && i < |rows|
      modifies this`rows, this`displayedTotal
      ensures Valid()
      ensures rows == old(rows)[i := old(rows)[i].(amount := a)]
    {
      rows := rows[i := rows[i].(amount := a)];
      UpdateTotal();
    }

    /** The collection loop of the submit handler: the committed rows' lines, in order. */
    method CollectItems() returns (items: seq<Line>)
      ensures items == SerializedItems(rows)
    {
      items := [];
      var i := 0;
      while i < |rows|
        invariant 0 <= i <= |rows|
        invariant items == SerializedItems(rows[..i])
      {
        var row := rows[i];
        assert rows[..i + 1][..i] == rows[..i];
        if TruthyInt(row.itemId) && TruthyInt(row.quantity.asInt) && TruthyReal(row.amount) {
          items := items + [Line(row.itemId.value, row.quantity.asInt.value, row.amount.value)];
        }
        i := i + 1;
      }
      assert rows[..i] == rows;
    }

    /**
     * Submitting the form.  With no committed row an error is shown and
     * nothing is posted; otherwise the payload is posted once, and the
     * response decides: created closes the modal, confirms and reloads the
     * list; refused shows the backend's detail and leaves the modal open.
     */
    method Submit(h: Header, response: PostResponse)
      modifies this`posts, this`alerts, this`modalOpen, this`reloads
      ensures SerializedItems(rows) == [] ==>
                && posts == old(posts) && alerts == old(alerts) + [Alert(kind.EmptyMessage(), true)]
                && modalOpen == old(modalOpen) && reloads == old(reloads)
      ensures SerializedItems(rows) != [] ==>
                posts == old(posts) + [Post(kind.Endpoint(), PayloadOf(h, SerializedItems(rows)))]
      ensures SerializedItems(rows) != [] && response.Created? ==>
                && !modalOpen && alerts == old(alerts) + [Alert(kind.SuccessMessage(), false)]
                && reloads == old(reloads) + 1
      ensures SerializedItems(rows) != [] && response.Rejected? ==>
                && modalOpen == old(modalOpen) && reloads == old(reloads)
                && alerts == old(alerts) + [Alert(FailureMessage(kind, response.detail), true)]
    {
      var items := CollectItems();
      if |items| == 0 {
        alerts := alerts + [Alert(kind.EmptyMessage(), true)];
        return;
      }
      var body := TransactionCreate(h.name, OrNull(h.email), items, OrNull(h.notes));
      posts := posts + [Post(kind.Endpoint(), body)];
      match response {
        case Created =>
          modalOpen := false;
          alerts := alerts + [Alert(kind.SuccessMessage(), false)];
          reloads := reloads + 1;
        case Rejected(detail) =>
          alerts := alerts + [Alert(FailureMessage(kind, detail), true)];
      }
    }
  }
}
