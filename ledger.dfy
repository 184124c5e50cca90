/**
 * Stock bookkeeping shared by the sales and purchases routers: the
 * validation pass over the requested lines, the numbering of stored lines,
 * the transaction total, and the stock adjustment pass.
 */
module Ledger {
  import opened Wrappers
  import opened Http
  import opened Models
  import opened Database
  import opened Seqs

  /** What one line comes to: quantity × unit amount. */
  function LineAmount(line: Line): real
  {
    line.quantity as real * line.unitAmount
  }

  /** The sum of quantity × unit amount over the lines. */
  function LinesTotal(lines: seq<Line>): real
  {
    SumOf(lines, LineAmount)
  }

  /** The total of a concatenation is the sum of the totals. */
  lemma LinesTotalAppend(a: seq<Line>, b: seq<Line>)
    ensures LinesTotal(a + b) == LinesTotal(a) + LinesTotal(b)
  {
    SumOfAppend(a, b, LineAmount);
  }

  /**
   * Why one line is refused: its item is unknown, or (for a sale) the item
   * has fewer units in stock than the line asks for.
   */
  function Rejection(inv: map<int, InventoryItem>, line: Line, checkStock: bool): (r: Option<ApiError>)
    ensures r.None? <==> line.inventoryItemId in inv
                         && (checkStock ==> inv[line.inventoryItemId].quantityInStock >= line.quantity)
    ensures line.inventoryItemId !in inv ==> r == Some(UnknownInventoryItem(line.inventoryItemId))
    ensures r.Some? ==> r.value.Status() == 400
  {
    var id := line.inventoryItemId;
    if id !in inv then Some(UnknownInventoryItem(id))
    else if checkStock && inv[id].quantityInStock < line.quantity then
      Some(InsufficientStock(inv[id].name, inv[id].quantityInStock))
    else None
  }

  /** The refusal of the first refused line, scanning in request order. */
  function FirstRejection(inv: map<int, InventoryItem>, lines: seq<Line>, checkStock: bool): (r: Option<ApiError>)
    ensures r.None? <==> forall i :: 0 <= i < |lines| ==> Rejection(inv, lines[i], checkStock).None?
    decreases |lines|
  {
    if lines == [] then None
    else match Rejection(inv, lines[0], checkStock)
      case Some(e) => Some(e)
      case None => FirstRejection(inv, lines[1..], checkStock)
  }

  /** A refusal is the refusal of some line all of whose predecessors are accepted. */
  lemma {:induction false} FirstRejectionIsFirst(inv: map<int, InventoryItem>, lines: seq<Line>, checkStock: bool)
    requires FirstRejection(inv, lines, checkStock).Some?
    ensures exists k :: 0 <= k < |lines|
                        && Rejection(inv, lines[k], checkStock) == FirstRejection(inv, lines, checkStock)
                        && forall j :: 0 <= j < k ==> Rejection(inv, lines[j], checkStock).None?
    decreases |lines|
  {
    if Rejection(inv, lines[0], checkStock).Some? {
      assert Rejection(inv, lines[0], checkStock) == FirstRejection(inv, lines, checkStock);
    } else {
      FirstRejectionIsFirst(inv, lines[1..], checkStock);
      var k :| 0 <= k < |lines[1..]|
               && Rejection(inv, lines[1..][k], checkStock) == FirstRejection(inv, lines[1..], checkStock)
               && forall j :: 0 <= j < k ==> Rejection(inv, lines[1..][j], checkStock).None?;
      assert forall j :: 0 <= j < k + 1 ==> Rejection(inv, lines[j], checkStock).None? by {
        forall j | 0 <= j < k + 1 ensures Rejection(inv, lines[j], checkStock).None? {
          if j > 0 {
            assert lines[j] == lines[1..][j - 1];
          }
        }
      }
      assert lines[k + 1] == lines[1..][k];
    }
  }

  /** Every line names an item of the inventory. */
  ghost predicate AllKnown(inv: map<int, InventoryItem>, lines: seq<Line>)
  {
    forall i :: 0 <= i < |lines| ==> lines[i].inventoryItemId in inv
  }

  /** The stored lines of a transaction: numbered from 1 in request order, each with its item's name. */
  function Numbered(inv: map<int, InventoryItem>, lines: seq<Line>): (r: seq<StoredLine>)
    requires AllKnown(inv, lines)
    ensures |r| == |lines|
    ensures forall i :: 0 <= i < |r| ==>
              r[i] == StoredLine(i + 1, inv[lines[i].inventoryItemId].name, lines[i])
    decreases |lines|
  {
    if lines == [] then []
    else
      var last := lines[|lines| - 1];
      Numbered(inv, lines[..|lines| - 1]) + [StoredLine(|lines|, inv[last.inventoryItemId].name, last)]
  }

  /** The requested lines inside stored lines, in order. */
  function Bases(items: seq<StoredLine>): (r: seq<Line>)
    ensures |r| == |items|
  {
    seq(|items|, i requires 0 <= i < |items| => items[i].line)
  }

  /** Numbering forgets nothing: the stored lines give back the request's lines. */
  lemma BasesOfNumbered(inv: map<int, InventoryItem>, lines: seq<Line>)
    requires AllKnown(inv, lines)
    ensures Bases(Numbered(inv, lines)) == lines
  {
    var r := Numbered(inv, lines);
    assert forall i :: 0 <= i < |lines| ==> Bases(r)[i] == r[i].line == lines[i];
  }

  /** Whether a pass adds the lines' quantities to stock or removes them. */
  datatype Move = Add | Remove
  {
    function Opposite(): Move { if this == Add then Remove else Add }
    function Signed(q: int): int { if this == Add then q else -q }
  }

  /** One step of a stock pass: a present item's stock moves by the line's quantity; an absent item is skipped. */
  function Moved(inv: map<int, InventoryItem>, line: Line, move: Move, now: int): map<int, InventoryItem>
  {
    var id := line.inventoryItemId;
    if id in inv then
      inv[id := inv[id].(quantityInStock := inv[id].quantityInStock + move.Signed(line.quantity), updatedAt := now)]
    else inv
  }

  /** The inventory after a stock pass over the lines in order. */
  function Adjusted(inv: map<int, InventoryItem>, lines: seq<Line>, move: Move, now: int): map<int, InventoryItem>
    decreases |lines|
  {
    if lines == [] then inv
    else Moved(Adjusted(inv, lines[..|lines| - 1], move, now), lines[|lines| - 1], move, now)
  }

  /** The total quantity the lines ask of item `id`. */
  function QuantityFor(lines: seq<Line>, id: int): int
    decreases |lines|
  {
    if lines == [] then 0
    else QuantityFor(lines[..|lines| - 1], id) + (if lines[|lines| - 1].inventoryItemId == id then lines[|lines| - 1].quantity else 0)
  }

  /** Whether some line names item `id`. */
  predicate Touches(lines: seq<Line>, id: int)
  {
    exists i :: 0 <= i < |lines| && lines[i].inventoryItemId == id
  }

  /**
   * The effect of a stock pass: the same items, each moved by the total
   * quantity the lines ask of it, stamped `now` when some line names it,
   * and otherwise untouched.
   */
  lemma {:induction false} AdjustedEffect(inv: map<int, InventoryItem>, lines: seq<Line>, move: Move, now: int)
    ensures Adjusted(inv, lines, move, now).Keys == inv.Keys
    ensures forall id :: id in inv ==>
              Adjusted(inv, lines, move, now)[id]
              == inv[id].(quantityInStock := inv[id].quantityInStock + move.Signed(QuantityFor(lines, id)),
                          updatedAt := if Touches(lines, id) then now else inv[id].updatedAt)
    decreases |lines|
  {
    if lines != [] {
      var init := lines[..|lines| - 1];
      var last := lines[|lines| - 1];
      AdjustedEffect(inv, init, move, now);
      forall id | id in inv
        ensures Touches(lines, id) <==> Touches(init, id) || last.inventoryItemId == id
      {
        if Touches(lines, id) {
          var i :| 0 <= i < |lines| && lines[i].inventoryItemId == id;
          if i < |init| {
            assert init[i] == lines[i];
          }
        }
        if Touches(init, id) {
          var i :| 0 <= i < |init| && init[i].inventoryItemId == id;
          assert lines[i] == init[i];
        }
      }
    }
  }

  /** A pass followed by the opposite pass over the same lines restores every item except its timestamp. */
  lemma OppositeRestores(inv: map<int, InventoryItem>, lines: seq<Line>, move: Move, t1: int, t2: int)
    ensures Adjusted(Adjusted(inv, lines, move, t1), lines, move.Opposite(), t2).Keys == inv.Keys
    ensures forall id :: id in inv ==>
              Adjusted(Adjusted(inv, lines, move, t1), lines, move.Opposite(), t2)[id]
              == inv[id].(updatedAt := Adjusted(Adjusted(inv, lines, move, t1), lines, move.Opposite(), t2)[id].updatedAt)
  {
    AdjustedEffect(inv, lines, move, t1);
    AdjustedEffect(Adjusted(inv, lines, move, t1), lines, move.Opposite(), t2);
  }

  /** A stock pass changes no key, id, name, SKU or price, so the inventory invariant survives it. */
  lemma AdjustedKeepsCatalog(inv: map<int, InventoryItem>, lines: seq<Line>, move: Move, now: int)
    ensures Adjusted(inv, lines, move, now).Keys == inv.Keys
    ensures forall id :: id in inv ==>
              var it := Adjusted(inv, lines, move, now)[id];
              it.id == inv[id].id && it.name == inv[id].name && it.sku == inv[id].sku
              && it.unitPrice == inv[id].unitPrice && it.category == inv[id].category
    ensures forall counter :: InventoryValid(inv, counter) ==> InventoryValid(Adjusted(inv, lines, move, now), counter)
  {
    AdjustedEffect(inv, lines, move, now);
  }

  /**
   * Each sale line is checked against the stock as it was before the sale,
   * so two lines for the same item can together take more than is in
   * stock: 5 units, two lines of 3, both accepted, stock ends at -1.
   */
  lemma DuplicateSaleLinesOverdraw(item: InventoryItem, now: int)
    requires item.id == 1 && item.quantityInStock == 5
    ensures var inv := map[1 := item];
            var lines := [Line(1, 3, 1.0), Line(1, 3, 1.0)];
            FirstRejection(inv, lines, true).None?
            && 1 in Adjusted(inv, lines, Remove, now)
            && Adjusted(inv, lines, Remove, now)[1].quantityInStock == -1
  {
    var inv := map[1 := item];
    var lines := [Line(1, 3, 1.0), Line(1, 3, 1.0)];
    assert lines[..1] == [Line(1, 3, 1.0)];
    assert lines[..1][..0] == [];
  }

  /** The result of a successful validation pass. */
  datatype Checked = Checked(items: seq<StoredLine>, total: real)

  /** Once a prefix of the lines is accepted, the first refusal lies in the rest. */
  lemma {:induction false} AcceptedPrefix(inv: map<int, InventoryItem>, lines: seq<Line>, checkStock: bool, i: nat)
    requires i <= |lines|
    requires forall j :: 0 <= j < i ==> Rejection(inv, lines[j], checkStock).None?
    ensures FirstRejection(inv, lines, checkStock) == FirstRejection(inv, lines[i..], checkStock)
    decreases i
  {
    if i > 0 {
      assert Rejection(inv, lines[0], checkStock).None?;
      assert lines[1..][i - 1..] == lines[i..];
      AcceptedPrefix(inv, lines[1..], checkStock, i - 1);
    }
  }

  /** Accepting one more known line extends the stored lines and the total by that line. */
  lemma CheckStep(inv: map<int, InventoryItem>, lines: seq<Line>, i: nat)
    requires i < |lines|
    requires AllKnown(inv, lines[..i])
    requires lines[i].inventoryItemId in inv
    ensures AllKnown(inv, lines[..i + 1])
    ensures Numbered(inv, lines[..i + 1])
            == Numbered(inv, lines[..i]) + [StoredLine(i + 1, inv[lines[i].inventoryItemId].name, lines[i])]
    ensures LinesTotal(lines[..i + 1]) == LinesTotal(lines[..i]) + LineAmount(lines[i])
  {
    assert lines[..i + 1][..i] == lines[..i];
  }

  /**
   * The validation pass of a create request: every line is looked up and
   * (for a sale) checked against current stock before anything is written;
   * the first refused line's error is returned, otherwise the numbered
   * stored lines and the total.
   */
  method CheckLines(inv: map<int, InventoryItem>, lines: seq<Line>, checkStock: bool)
    returns (r: Result<Checked, ApiError>)
    ensures FirstRejection(inv, lines, checkStock).Some? ==>
              r == Failure(FirstRejection(inv, lines, checkStock).value)
    ensures FirstRejection(inv, lines, checkStock).None? ==>
              AllKnown(inv, lines)
              && r == Success(Checked(Numbered(inv, lines), LinesTotal(lines)))
  {
    var items: seq<StoredLine> := [];
    var total := 0.0;
    var i := 0;
    while i < |lines|
      invariant 0 <= i <= |lines|
      invariant AllKnown(inv, lines[..i])
      invariant forall j :: 0 <= j < i ==> Rejection(inv, lines[j], checkStock).None?
      invariant items == Numbered(inv, lines[..i])
      invariant total == LinesTotal(lines[..i])
    {
      var line := lines[i];
      if line.inventoryItemId !in inv {
        AcceptedPrefix(inv, lines, checkStock, i);
        assert lines[i..][0] == line;
        return Failure(UnknownInventoryItem(line.inventoryItemId));
      }
      var stocked := inv[line.inventoryItemId];
      if checkStock && stocked.quantityInStock < line.quantity {
        AcceptedPrefix(inv, lines, checkStock, i);
        assert lines[i..][0] == line;
        return Failure(InsufficientStock(stocked.name, stocked.quantityInStock));
      }
      CheckStep(inv, lines, i);
      items := items + [StoredLine(|items| + 1, stocked.name, line)];
      total := total + LineAmount(line);
      i := i + 1;
    }
    assert lines[..i] == lines;
    return Success(Checked(items, total));
  }

  /**
   * The stock pass: for each line in order, a present item's stock moves
   * by the line's quantity and its timestamp becomes `now`.  Only the
   * inventory table changes.
   */
  method ApplyLines(db: DB, lines: seq<Line>, move: Move, now: int)
    modifies db`inventory
    ensures db.inventory == Adjusted(old(db.inventory), lines, move, now)
  {
    var i := 0;
    while i < |lines|
      invariant 0 <= i <= |lines|
      invariant db.inventory == Adjusted(old(db.inventory), lines[..i], move, now)
    {
      var line := lines[i];
      if line.inventoryItemId in db.inventory {
        var item := db.inventory[line.inventoryItemId];
        db.inventory := db.inventory[line.inventoryItemId :=
          item.(quantityInStock := item.quantityInStock + move.Signed(line.quantity), updatedAt := now)];
      }
      assert lines[..i + 1][..i] == lines[..i];
      i := i + 1;
    }
    assert lines[..i] == lines;
  }
}
