# Shop inventory ledger — a Dafny model

The shop application keeps two lists: stock entries and sale records. Three
pages work on them. "Add New Stock" appends a stock entry. "Record Sale"
offers the entries still in stock, takes units out of the chosen entry and
appends a sale. "Sales History" reports on a time window: a join with the
stock list, profit, summary figures, daily totals and top-10 rankings. A
spreadsheet back end stores the same two tables as rows of cells. It finds a
product's row, overwrites its quantity cell, and appends stock and sale rows.

The model keeps each part in the form the application gives it:

| file | module | what it holds |
|---|---|---|
| `records.dfy` | `Records` | the stock entry and sale record shapes, `Option`/`Result`, the consistency predicate on the two lists, the first entry with a given id |
| `text.dfy` | `Text` | `str(int)` with its inverse, and `split(sep)[0]` |
| `seqs.dfy` | `Seqs` | boolean-mask filter, column sums, descending sort, `head(n)` |
| `grouping.dfy` | `Grouping` | `groupby(key)` with two summed columns |
| `sale_form.dfy` | `SaleForm` | what the sale page computes: offered stock, labels, selection, the sale record, the stock update, recent sales |
| `ledger.dfy` | `Ledger` | class `Shop`: the two session lists and the two pages that change them |
| `sales_history.dfy` | `SalesHistory` | the report pipeline, as functions and lemmas |
| `sheets.dfy` | `Sheets` | the lookup loop, the row layouts, the read-back tables, and class `Workbook` holding the two tabs |

Modelling choices:

- Money is in integer cents. Timestamps are integer seconds, and the calendar day of a timestamp is the timestamp divided by 86400, rounded down.
- The generated ids (`uuid4`, the timestamp ids) and the clock are parameters.
- A missing value in a joined table (pandas NaN) is `None`.
- The spreadsheet is an in-memory table whose first data row is sheet row 2.
- The two pages that change the lists work in place. So does the stock update of the sheet. They are methods of classes with `seq` fields, and each method states its whole new state. The report and the row layouts are pure functions.

## Model

| member | source | states |
|---|---|---|
| `SaleForm.AvailableCorrect` | shop_app/pages/record_sale.py:21 | `Available` offers exactly the entries with quantity > 0, in stock order, as a subsequence of the stock list, each entry as many times as the stock list holds it |
| `SaleForm.LabelRoundTrip` | shop_app/pages/record_sale.py:33-38 | reading the name back from `Label(name, n)` (`"name (Qty: n)"`) with `ParseName` gives `name` whenever `name` does not contain `" (Qty:"` |
| `SaleForm.LabelWithSeparator` | shop_app/pages/record_sale.py:33-38 | the label of the name `"Tea (Qty: 2)"` reads back as `"Tea"`: the round trip needs its proviso |
| `SaleForm.FirstNamed` | shop_app/pages/record_sale.py:41 | the position found holds the name and no earlier entry does; none is found only when no entry has the name |
| `SaleForm.OptionsCorrect` | shop_app/pages/record_sale.py:29-38 | label i of `Options` shows entry i's name with the quantity of the first offered entry of that name, and `ParseName` reads it back as entry i's name when the name does not contain `" (Qty:"` |
| `SaleForm.SelectedIsOffered` | shop_app/pages/record_sale.py:41 | whatever `Selected` picks is an offered entry of the stock list with quantity > 0 |
| `SaleForm.SelectedIsFirstWithName` | shop_app/pages/record_sale.py:33-41 | `Selected` for any choice is the first offered entry with the same name, so of duplicate names only the earliest can be sold |
| `SaleForm.SaleFor` | shop_app/pages/record_sale.py:59-70 | the sale carries the product id, the time, the quantity and total = quantity × selling price, which is ≥ 0 |
| `Records.FirstIndex` | shop_app/pages/record_sale.py:74-76 | the index found holds the id and is the first such; none is found exactly when no entry has the id |
| `SaleForm.DecrementedFrame` | shop_app/pages/record_sale.py:74-77 | `Decremented` takes exactly `quantity` units from the first entry with the id only; all other entries and fields are unchanged; an unknown id changes nothing |
| `SaleForm.SaleKeepsConsistent` | shop_app/pages/record_sale.py:51-80 | selling 1..available units of an offered entry keeps every quantity ≥ 0 and the two lists consistent |
| `SaleForm.RecentSalesOrder` | shop_app/pages/record_sale.py:96 | `RecentSales` has five sales (all of them if fewer), newest first |
| `SaleForm.RecentSalesNewest` | shop_app/pages/record_sale.py:96 | `RecentSales` is drawn from the sales, and no sale left out is newer than one shown |
| `Ledger.Shop.constructor` | shop_app/pages/record_sale.py:8-11 | both lists start empty and consistent |
| `Ledger.Shop.AddStock` | shop_app/pages/add_stock.py:24-47 | rejected exactly when the name or the supplier is empty, leaving the stock unchanged; otherwise the new entry, with the inputs, the fresh id and the time, is appended last; sales never change; consistency is kept |
| `Ledger.Shop.RecordSale` | shop_app/pages/record_sale.py:13-80 | the three stops (no stock, nothing available, a label that names no offered entry) are told apart and change nothing; otherwise the sale of the selected entry is appended last and the stock list is the decremented one; consistency is kept |
| `Ledger.Shop.TakeUnits` | shop_app/pages/record_sale.py:74-77 | the in-place decrement makes the stock list the decremented list and leaves the sales alone |
| `Ledger.AppendFreshKeepsConsistent` | shop_app/pages/add_stock.py:37-47 | appending an entry with a fresh id and non-negative numbers keeps the lists consistent |
| `Ledger.AddedEntryIsFound` | shop_app/pages/add_stock.py:38-47 | an appended entry with a fresh id is the first match for its id, at the last position |
| `Ledger.SoldEntryNeverNegative` | shop_app/pages/record_sale.py:51-77 | with unique ids the decremented entry is the selected one, and its quantity stays ≥ 0 |
| `SalesHistory.EarliestSale` | shop_app/pages/sales_history.py:45 | the earliest date is no later than any sale and is the date of some sale |
| `SalesHistory.WindowStart` | shop_app/pages/sales_history.py:39-45 | one day or one week before now, or the earliest sale for "All Time" |
| `SalesHistory.InWindowCorrect` | shop_app/pages/sales_history.py:48-51 | `InWindow` keeps exactly the sales with start ≤ date ≤ end, in order, as a subsequence, and every copy of each such sale |
| `SalesHistory.AllTimeKeepsEverything` | shop_app/pages/sales_history.py:44-51 | with no sale dated after now, "All Time" keeps every sale |
| `SalesHistory.LeftJoinUnique` | shop_app/pages/sales_history.py:59-64 | with unique stock ids `LeftJoin` has one row per sale, in order, holding that sale's stock data or none |
| `SalesHistory.LeftJoinKeepsEverySale` | shop_app/pages/sales_history.py:60-64 | for any stock list the sales are a subsequence of the sales column of `LeftJoin`, so every sale keeps a row of its own in order, and every row belongs to one of the sales |
| `SalesHistory.NoStockRowsShape` | shop_app/pages/sales_history.py:65-69 | with an empty stock list `NoStockRows` gives every sale one row named "N/A" with prices 0 |
| `SalesHistory.ProfitOfSale` | shop_app/pages/sales_history.py:72 | with unique stock ids, `Profit` of row i of `Enrich`, which is the row of sale i, is (selling − purchase price) × quantity from the current stock entry, and 0 when the entry is missing or the stock is empty |
| `SalesHistory.SummaryOfSales` | shop_app/pages/sales_history.py:80-85 | with unique stock ids, in `Summarize` of the joined rows, count is the number of filtered sales, total sales is their price sum, unique products is the number of their distinct ids |
| `SalesHistory.UniqueProductsAtMostCount` | shop_app/pages/sales_history.py:84-85 | unique products never exceed the number of sales |
| `SalesHistory.DailyTotalsDays` | shop_app/pages/sales_history.py:91-93 | `DailyTotals` has one entry per distinct day of the rows, in strictly ascending order |
| `SalesHistory.DailyTotalsPerDay` | shop_app/pages/sales_history.py:91-93 | each day's entry of `DailyTotals` sums exactly that day's sales and profit |
| `SalesHistory.DailyTotalsSums` | shop_app/pages/sales_history.py:80-93 | the entries of `DailyTotals` add up to total sales and to total profit |
| `SalesHistory.TopBySalesRanking` | shop_app/pages/sales_history.py:107-108 | `TopBySales` has at most ten products (ten when there are that many), highest sales first, drawn from the grouping; no product left out sold more than one shown |
| `SalesHistory.TopBySalesSums` | shop_app/pages/sales_history.py:107 | `TopBySales` has one entry per product name, each summing exactly that name's rows; rows without a name take no part |
| `SalesHistory.TopByProfitCorrect` | shop_app/pages/sales_history.py:122 | `TopByProfit` is a permutation of the sales ranking, sorted by profit |
| `SalesHistory.NoStockSingleProduct` | shop_app/pages/sales_history.py:65-108 | with an empty stock list the product grouping is the single product "N/A" holding all sales and profit 0 |
| `SalesHistory.Report` | shop_app/pages/sales_history.py:14-69 | the report stops exactly when there are no sales, or when none lies in the window; otherwise its rows are the join of the filtered sales |
| `SalesHistory.ReportConsistent` | shop_app/pages/sales_history.py:48-122 | with unique stock ids, a report's count equals the number of sales in the window (> 0); unique products ≤ count; the daily bars add up to both totals; at most ten top products; the profit chart reorders the sales chart |
| `Grouping.GroupByCorrect` | shop_app/pages/sales_history.py:93 | `GroupBy` gives one group per distinct key, each holding the sums over exactly the rows with that key |
| `Grouping.GroupByKeepsSums` | shop_app/pages/sales_history.py:93 | grouping keeps the column sums |
| `Grouping.SortKeepsDistinct` | shop_app/pages/sales_history.py:108 | sorting the groups keeps one group per key |
| `Seqs.FilterCounts` | shop_app/pages/sales_history.py:48-51 | `Filter` keeps every copy of each element meeting the condition and no copy of any other element |
| `Seqs.FilterIsSubseq` | shop_app/pages/sales_history.py:48-51 | filtering keeps the input's order |
| `Seqs.SortDesc` | shop_app/pages/sales_history.py:108 | the result is a permutation of the input, highest key first |
| `Seqs.TopNSorted` | shop_app/pages/sales_history.py:108 | the first n after a descending sort number n (or all, if fewer) and are highest first |
| `Seqs.TopN` | shop_app/pages/sales_history.py:108 | the first n after a descending sort are drawn from the input, and no element left out has a larger key |
| `Text.SplitHead` | shop_app/pages/record_sale.py:38 | the part before the first separator: a prefix at none of whose positions the separator starts, followed by the separator, or all of the text when it has no separator |
| `Text.IntToStringRoundTrip` | shop_app/backend/sheets_utils.py:147 | every integer written as text reads back as that integer |
| `Sheets.LookupRow` | shop_app/backend/sheets_utils.py:135-142 | the row number is data index + 2 of the first row whose column G holds the id, after rows that all hold other ids; NotFound exactly when every row holds another id; ShortRow names the first row without a column G |
| `Sheets.FindProductRow` | shop_app/backend/sheets_utils.py:135-142 | the scanning loop returns what the lookup specifies |
| `Sheets.DuplicateIdFindsEarlierRow` | shop_app/backend/sheets_utils.py:135-139 | of two rows with the same id the lookup lands on the earlier one |
| `Sheets.WithQuantityFrame` | shop_app/backend/sheets_utils.py:144-147 | `WithQuantity` changes only cell F of the found row, and that cell reads back as the new quantity |
| `Sheets.StockRowLayout` | shop_app/backend/sheets_utils.py:100-108 | a `StockRow` has the seven header columns, with the quantity under "Quantity" (F) and the id under "Product ID" (G) |
| `Sheets.SaleRowLayout` | shop_app/backend/sheets_utils.py:164-169 | a `SaleRow` has id, date, quantity and total under the four Sales headers |
| `Sheets.AppendedStockIsFound` | shop_app/backend/sheets_utils.py:100-139 | after rows that all have a column G holding another id (exactly when the lookup reports NotFound), a stock row appended by `StockRow` is the row the lookup finds for its id |
| `Sheets.ReadFrame` | shop_app/backend/sheets_utils.py:52-90 | `ReadStockSheet` and `ReadSalesSheet`: an empty tab reads back as an empty table under the headers; otherwise the table fails exactly when no row has one cell per header or some row has more, and on success holds one row per sheet row, padded with missing cells |
| `Sheets.ShortTabFails` | shop_app/backend/sheets_utils.py:58-61 | a Stock tab holding only the row `["Tea", "2025-01-01"]` does not read back: seven headers against two cells |
| `Sheets.AppendedStockReadsBack` | shop_app/backend/sheets_utils.py:52-108 | a stock tab with an appended `StockRow` reads back through `ReadStockSheet`, with the name, quantity and id under their headers |
| `Sheets.Workbook.AppendStock` | shop_app/backend/sheets_utils.py:92-121 | the new row goes below the existing rows and its id is returned; the Sales tab is unchanged |
| `Sheets.Workbook.UpdateStockQuantity` | shop_app/backend/sheets_utils.py:123-157 | the outcome is the lookup's; on success only the quantity cell of that row is rewritten; on failure nothing is written |
| `Sheets.Workbook.RecordSale` | shop_app/backend/sheets_utils.py:159-182 | one sale row is appended to the Sales tab; the Stock tab is unchanged |

## Left out

- Streamlit plumbing is left out as user interface: session-state set-up beyond the empty lists, forms, `st.stop`/`st.rerun`, messages, balloons, the Altair charts and the table displays.
- Display formatting is left out: currency texts, `strftime` date texts and their parsing by `to_datetime`. Dates are integer seconds throughout.
- Floating-point prices are integer cents, so float rounding is outside the model.
- `SalesHistory.DayOf`: the calendar day is taken in a single fixed time zone; local-time day boundaries are not modelled.
- Sort order among equal keys is not claimed, because `sort_values` is not a stable sort. The model fixes one order, and no contract depends on it.
- The "Recent Sales" merge with product names and its display (shop_app/pages/record_sale.py:98-117) is display only. The view is modelled up to `head(5)`.
- Input widget bounds are preconditions: `Ledger.Shop.AddStock` requires non-negative prices and quantity ≥ 1. `Ledger.Shop.RecordSale` requires a dropdown position that exists and a quantity within 1..the selected entry's quantity. No error kind is invented for them.
- The `try`/`except` wrappers of the two pages have no modelled failure: building a record and appending to a list cannot raise here.
- `uuid4`, `datetime.now()` and the timestamp ids of the sheet back end are parameters. Freshness of the stock id is a precondition of `Ledger.Shop.AddStock`.
- The Sheets client (credentials, service construction, the `execute()` calls, `SheetOperationError` wrapping) is a network client and is left out. The sheet is an in-memory table, and a cell holds exactly the text written to it (the `USER_ENTERED` interpretation of input is not modelled).
- `Sheets.Workbook.RecordSale` takes the total price as the cell text it writes, because `str` of a float is not modelled.
- `SalesHistory.SummaryOfSales`: requires unique stock ids, which the pages keep (`Records.Consistent`). With duplicate ids the left merge gives a sale one row per matching entry, so the count exceeds the number of sales; only `SalesHistory.LeftJoinKeepsEverySale` covers that case.
- `SalesHistory.ProfitOfSale`: requires unique stock ids, for the same reason; with duplicates a sale has several rows and row i is no longer sale i's row.
- `SalesHistory.ReportConsistent`: requires unique stock ids, for the same reason.
- `Sheets.AppendedStockReadsBack` requires at most seven cells in every existing Stock row, which is what the range `A2:G` returns.
- `shop_app/Home.py` (file upload and download), `shop_app/backend/export_utils.py` (remote read and Excel export) and `shop_app/backend/config.py` (environment and file checks) are outside the modelled core.
- The pydantic models of `shop_app/backend/models.py` supply only the record shapes; their validation is not modelled.
