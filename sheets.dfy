/** The spreadsheet back end (shop_app/backend/sheets_utils.py) with the
    remote sheet replaced by an in-memory table: the "Stock" and "Sales" tabs
    are sequences of rows, each row a sequence of cell texts, starting at
    sheet row 2 (row 1 holds the headers and is not part of the data). */
module Sheets {
  import opened Records
  import opened Text

  const StockHeaders: seq<string> :=
    ["Product Name", "Date Added", "Purchase Price", "Selling Price", "Supplier", "Quantity", "Product ID"]

  const SalesHeaders: seq<string> := ["Product ID", "Date of Sale", "Quantity Sold", "Total Price"]

  /** Column F. */
  const QuantityColumn: nat := 5

  /** Column G. */
  const IdColumn: nat := 6

  /** Data index 0 is sheet row 2. */
  const FirstDataRow: nat := 2

  /** One sheet row: the texts of its cells, trailing empty cells left out. */
  type Cells = seq<string>

  /** Why `update_stock_quantity` writes nothing: no row carries the id (the
      ValueError), or the scan reached a row too short to have a column G
      (the IndexError of `row[6]`; the sheet leaves trailing empty cells out). */
  datatype SheetError = NotFound | ShortRow(index: nat)

  // ----------------------------------------------------------------- lookup

  /** A row the scan passes over: it has a column G, holding another id. */
  predicate Passed(row: Cells, productId: string)
  {
    |row| > IdColumn && row[IdColumn] != productId
  }

  /** The sheet row number the scan stops at, or why it stops without one. */
  function LookupRow(values: seq<Cells>, productId: string): (r: Result<nat, SheetError>)
    ensures r.Success? ==> FirstDataRow <= r.value < |values| + FirstDataRow
    ensures r.Success? ==> var i := r.value - FirstDataRow;
      |values[i]| > IdColumn && values[i][IdColumn] == productId
      && forall j :: 0 <= j < i ==> Passed(values[j], productId)
    ensures r == Failure(NotFound) <==> forall j :: 0 <= j < |values| ==> Passed(values[j], productId)
    ensures r.Failure? && r.error.ShortRow? ==> var i := r.error.index;
      i < |values| && |values[i]| <= IdColumn
      && forall j :: 0 <= j < i ==> Passed(values[j], productId)
  {
    if values == [] then Failure(NotFound)
    else if |values[0]| <= IdColumn then Failure(ShortRow(0))
    else if values[0][IdColumn] == productId then Success(FirstDataRow)
    else
      match LookupRow(values[1..], productId)
      case Success(n) => Success(n + 1)
      case Failure(NotFound) =>
        assert forall j :: 1 <= j < |values| ==> values[j] == values[1..][j - 1];
        Failure(NotFound)
      case Failure(ShortRow(i)) =>
        assert !Passed(values[1..][i], productId);
        Failure(ShortRow(i + 1))
  }

  /** Once every row before i has been passed, row i decides the outcome. */
  lemma {:induction false} LookupRowAt(values: seq<Cells>, productId: string, i: nat)
    requires i < |values|
    requires forall j :: 0 <= j < i ==> Passed(values[j], productId)
    ensures |values[i]| <= IdColumn ==> LookupRow(values, productId) == Failure(ShortRow(i))
    ensures |values[i]| > IdColumn && values[i][IdColumn] == productId ==>
      LookupRow(values, productId) == Success(i + FirstDataRow)
  {
    if i > 0 {
      assert Passed(values[0], productId);
      forall j | 0 <= j < i - 1 ensures Passed(values[1..][j], productId) {
        assert values[1..][j] == values[j + 1];
      }
      LookupRowAt(values[1..], productId, i - 1);
    }
  }

  /** The loop of `update_stock_quantity`: the first row whose column G holds
      the id, as a sheet row number. */
  method FindProductRow(values: seq<Cells>, productId: string) returns (r: Result<nat, SheetError>)
    ensures r == LookupRow(values, productId)
  {
    var idx := 0;
    while idx < |values|
      invariant 0 <= idx <= |values|
      invariant forall j :: 0 <= j < idx ==> Passed(values[j], productId)
    {
      var row := values[idx];
      if |row| <= IdColumn {
        LookupRowAt(values, productId, idx);
        return Failure(ShortRow(idx));
      }
      if row[IdColumn] == productId {
        LookupRowAt(values, productId, idx);
        return Success(idx + FirstDataRow);
      }
      idx := idx + 1;
    }
    return Failure(NotFound);
  }

  /** Ids repeat when two items are added in the same second; the lookup
      then always lands on the earlier row. */
  lemma DuplicateIdFindsEarlierRow(values: seq<Cells>, productId: string, i: nat, k: nat)
    requires i < k < |values|
    requires forall j :: 0 <= j < i ==> Passed(values[j], productId)
    requires |values[i]| > IdColumn && values[i][IdColumn] == productId
    requires |values[k]| > IdColumn && values[k][IdColumn] == productId
    ensures LookupRow(values, productId) == Success(i + FirstDataRow)
    ensures LookupRow(values, productId) != Success(k + FirstDataRow)
  {
    LookupRowAt(values, productId, i);
  }

  // ---------------------------------------------------------------- updates

  /** The table after cell F of sheet row `rowNumber` is set to the text of `quantity`. */
  function WithQuantity(values: seq<Cells>, rowNumber: nat, quantity: int): seq<Cells>
    requires FirstDataRow <= rowNumber < |values| + FirstDataRow
    requires |values[rowNumber - FirstDataRow]| > QuantityColumn
  {
    var i := rowNumber - FirstDataRow;
    values[i := values[i][QuantityColumn := IntToString(quantity)]]
  }

  /** Exactly one cell changes, and it reads back as the new quantity. */
  lemma WithQuantityFrame(values: seq<Cells>, rowNumber: nat, quantity: int)
    requires FirstDataRow <= rowNumber < |values| + FirstDataRow
    requires |values[rowNumber - FirstDataRow]| > QuantityColumn
    ensures var after := WithQuantity(values, rowNumber, quantity);
      var i := rowNumber - FirstDataRow;
      && |after| == |values|
      && (forall r :: 0 <= r < |values| ==> |after[r]| == |values[r]|)
      && (forall r, c :: 0 <= r < |values| && 0 <= c < |values[r]| && (r, c) != (i, QuantityColumn) ==>
            after[r][c] == values[r][c])
      && ParseInt(after[i][QuantityColumn]) == Some(quantity)
  {
    IntToStringRoundTrip(quantity);
  }

  // ------------------------------------------------------------ row layouts

  /** The fields of `product_data` that `append_stock` writes; the two prices
      arrive as the cell text the sheet is given. */
  datatype NewStock = NewStock(name: string, purchasePrice: string, sellingPrice: string, supplier: string, quantity: int)

  /** The row `append_stock` appends: `today` is the date text, `productId`
      the timestamp id. */
  function StockRow(data: NewStock, today: string, productId: string): Cells
  {
    [data.name, today, data.purchasePrice, data.sellingPrice, data.supplier, IntToString(data.quantity), productId]
  }

  /** The row `record_sale` appends in the Sales tab. */
  function SaleRow(productId: string, now: string, quantitySold: int, totalPrice: string): Cells
  {
    [productId, now, IntToString(quantitySold), totalPrice]
  }

  /** An appended stock row fills every header, and its quantity and id sit
      in the columns the lookup reads and the update writes. */
  lemma StockRowLayout(data: NewStock, today: string, productId: string)
    ensures var row := StockRow(data, today, productId);
      && |row| == |StockHeaders|
      && StockHeaders[0] == "Product Name" && row[0] == data.name
      && StockHeaders[4] == "Supplier" && row[4] == data.supplier
      && StockHeaders[QuantityColumn] == "Quantity" && ParseInt(row[QuantityColumn]) == Some(data.quantity)
      && StockHeaders[IdColumn] == "Product ID" && row[IdColumn] == productId
  {
    IntToStringRoundTrip(data.quantity);
  }

  /** An appended sale row fills the Sales headers in order: id, date,
      quantity, total. */
  lemma SaleRowLayout(productId: string, now: string, quantitySold: int, totalPrice: string)
    ensures var row := SaleRow(productId, now, quantitySold, totalPrice);
      && |row| == |SalesHeaders|
      && SalesHeaders[0] == "Product ID" && row[0] == productId
      && SalesHeaders[1] == "Date of Sale" && row[1] == now
      && SalesHeaders[2] == "Quantity Sold" && ParseInt(row[2]) == Some(quantitySold)
      && SalesHeaders[3] == "Total Price" && row[3] == totalPrice
  {
    IntToStringRoundTrip(quantitySold);
  }

  /** A stock row appended when every existing row has a column G holding
      another id (exactly the case in which the lookup reports NotFound) is
      the one the lookup finds for that id. */
  lemma AppendedStockIsFound(values: seq<Cells>, data: NewStock, today: string, productId: string)
    requires forall j :: 0 <= j < |values| ==> Passed(values[j], productId)
    ensures LookupRow(values + [StockRow(data, today, productId)], productId) == Success(|values| + FirstDataRow)
  {
    var row := StockRow(data, today, productId);
    assert |row| > IdColumn && row[IdColumn] == productId;
    var after := values + [row];
    assert after[|values|] == row;
    forall j | 0 <= j < |values| ensures Passed(after[j], productId) {
      assert after[j] == values[j];
    }
    LookupRowAt(after, productId, |values|);
  }

  // ------------------------------------------------------------- read back

  /** A table as pandas builds it from rows and column names: every row is
      padded with missing cells up to the number of columns. */
  datatype Frame = Frame(columns: seq<string>, rows: seq<seq<Option<string>>>)

  /** Why `pd.DataFrame(values, columns=...)` raises its ValueError: the
      widest row does not have one cell per column. */
  datatype FrameError = ColumnMismatch(columns: nat, width: nat)

  function Pad(row: Cells, width: nat): (cells: seq<Option<string>>)
    requires |row| <= width
    ensures |cells| == width
    ensures forall c :: 0 <= c < |row| ==> cells[c] == Some(row[c])
    ensures forall c :: |row| <= c < width ==> cells[c] == None
  {
    seq(width, c requires 0 <= c < width => if c < |row| then Some(row[c]) else None)
  }

  predicate FitsIn(values: seq<Cells>, width: nat)
  {
    forall i :: 0 <= i < |values| ==> |values[i]| <= width
  }

  /** The number of cells of the widest row, which pandas takes as the
      number of columns the data has. */
  function Width(values: seq<Cells>): (w: nat)
    ensures FitsIn(values, w)
    ensures values != [] ==> exists i :: 0 <= i < |values| && |values[i]| == w
  {
    if values == [] then 0
    else
      var w := Width(values[1..]);
      assert forall i :: 1 <= i < |values| ==> values[i] == values[1..][i - 1];
      if |values[0]| >= w then |values[0]| else w
  }

  function ToFrame(values: seq<Cells>, columns: seq<string>): (f: Frame)
    requires FitsIn(values, |columns|)
    ensures f.columns == columns && |f.rows| == |values|
    ensures forall i :: 0 <= i < |values| ==> f.rows[i] == Pad(values[i], |columns|)
  {
    Frame(columns, seq(|values|, i requires 0 <= i < |values| => Pad(values[i], |columns|)))
  }

  /** `read_stock_sheet` and `read_sales_sheet` once the cells are fetched:
      no cells give an empty table under the headers; otherwise the rows are
      padded to the headers, and the table cannot be built unless the widest
      row has exactly one cell per header. */
  function ReadFrame(values: seq<Cells>, columns: seq<string>): (r: Result<Frame, FrameError>)
    ensures r.Failure? <==>
      values != [] && !(FitsIn(values, |columns|) && exists i :: 0 <= i < |values| && |values[i]| == |columns|)
    ensures r.Success? ==> r.value.columns == columns && |r.value.rows| == |values|
    ensures r.Success? ==> forall i, c :: 0 <= i < |values| && 0 <= c < |columns| ==>
      |r.value.rows[i]| == |columns| &&
      r.value.rows[i][c] == if c < |values[i]| then Some(values[i][c]) else None
  {
    if values == [] then Success(Frame(columns, []))
    else if Width(values) != |columns| then Failure(ColumnMismatch(|columns|, Width(values)))
    else Success(ToFrame(values, columns))
  }

  /** `read_stock_sheet` on the cells of range A2:G. */
  function ReadStockSheet(values: seq<Cells>): Result<Frame, FrameError>
  {
    ReadFrame(values, StockHeaders)
  }

  /** `read_sales_sheet` on the cells of range A2:D. */
  function ReadSalesSheet(values: seq<Cells>): Result<Frame, FrameError>
  {
    ReadFrame(values, SalesHeaders)
  }

  /** A tab whose every row leaves out trailing cells cannot be read back:
      `[["Tea", "2025-01-01"]]` has two cells for seven Stock headers. */
  lemma ShortTabFails()
    ensures ReadStockSheet([["Tea", "2025-01-01"]]) == Failure(ColumnMismatch(7, 2))
  {
    var values: seq<Cells> := [["Tea", "2025-01-01"]];
    assert Width(values) == 2 by {
      assert values[1..] == [];
    }
  }

  /** A stock row written by `append_stock` reads back under the header of
      each of its fields. */
  lemma AppendedStockReadsBack(values: seq<Cells>, data: NewStock, today: string, productId: string)
    requires FitsIn(values, |StockHeaders|)
    ensures var r := ReadStockSheet(values + [StockRow(data, today, productId)]);
      && r.Success?
      && |r.value.rows| == |values| + 1
      && r.value.rows[|values|][0] == Some(data.name)
      && r.value.rows[|values|][QuantityColumn] == Some(IntToString(data.quantity))
      && r.value.rows[|values|][IdColumn] == Some(productId)
  {
    var after := values + [StockRow(data, today, productId)];
    assert after[|values|] == StockRow(data, today, productId);
    assert forall i :: 0 <= i < |values| ==> after[i] == values[i];
    assert FitsIn(after, |StockHeaders|);
  }

  // -------------------------------------------------------------- the sheet

  /** The two tabs of the spreadsheet. */
  class Workbook {
    var stockRows: seq<Cells>
    var salesRows: seq<Cells>

    constructor (stock: seq<Cells>, sales: seq<Cells>)
      ensures stockRows == stock && salesRows == sales
    {
      stockRows := stock;
      salesRows := sales;
    }

    /** `append_stock`: the new row goes below the existing ones; the
        timestamp id is returned. */
    method AppendStock(data: NewStock, today: string, newId: string) returns (productId: string)
      modifies this
      ensures productId == newId
      ensures stockRows == old(stockRows) + [StockRow(data, today, newId)]
      ensures salesRows == old(salesRows)
    {
      productId := newId;
      stockRows := stockRows + [StockRow(data, today, productId)];
    }

    /** `update_stock_quantity`: finds the product's row and overwrites its
        cell F; when the scan fails nothing is written. */
    method UpdateStockQuantity(productId: string, newQuantity: int) returns (r: Result<nat, SheetError>)
      modifies this
      ensures r == LookupRow(old(stockRows), productId)
      ensures r.Success? ==> FirstDataRow <= r.value < |old(stockRows)| + FirstDataRow &&
                             |old(stockRows)[r.value - FirstDataRow]| > QuantityColumn &&
                             stockRows == WithQuantity(old(stockRows), r.value, newQuantity)
      ensures r.Failure? ==> stockRows == old(stockRows)
      ensures salesRows == old(salesRows)
    {
      r := FindProductRow(stockRows, productId);
      if r.Success? {
        var i := r.value - FirstDataRow;
        stockRows := stockRows[i := stockRows[i][QuantityColumn := IntToString(newQuantity)]];
      }
    }

    /** `record_sale`: appends one row to the Sales tab. */
    method RecordSale(productId: string, quantitySold: int, totalPrice: string, now: string)
      modifies this
      ensures salesRows == old(salesRows) + [SaleRow(productId, now, quantitySold, totalPrice)]
      ensures stockRows == old(stockRows)
    {
      salesRows := salesRows + [SaleRow(productId, now, quantitySold, totalPrice)];
    }
  }
}
