/** The sales-history report (shop_app/pages/sales_history.py): a time window,
    an inclusive date filter, a left join of the sales against the stock list,
    per-sale profit, summary figures, daily totals and the top-10 products.
    The page only reads the two session lists. */
module SalesHistory {
  import opened Records
  import opened Seqs
  import opened Grouping

  const SecondsPerDay: int := 86400
  const SecondsPerWeek: int := 7 * SecondsPerDay
  const TopCount: nat := 10

  /** The three choices of the "Filter Period" radio button. */
  datatype Period = OneDay | OneWeek | AllTime

  // ---------------------------------------------------------------- window

  /** `sales_df['date_of_sale'].min()`. */
  function EarliestSale(sales: seq<SaleRecord>): (m: int)
    requires sales != []
    ensures forall i :: 0 <= i < |sales| ==> m <= sales[i].dateOfSale
    ensures exists i :: 0 <= i < |sales| && m == sales[i].dateOfSale
  {
    if |sales| == 1 then sales[0].dateOfSale
    else
      var m := EarliestSale(sales[1..]);
      if sales[0].dateOfSale <= m then sales[0].dateOfSale else m
  }

  /** Start of the reporting window; its end is always `now`. "All Time" is
      only offered once there is at least one sale. */
  function WindowStart(p: Period, now: int, sales: seq<SaleRecord>): (start: int)
    requires p == AllTime ==> sales != []
    ensures p == OneDay ==> start == now - SecondsPerDay
    ensures p == OneWeek ==> start == now - SecondsPerWeek
    ensures p == AllTime ==> forall i :: 0 <= i < |sales| ==> start <= sales[i].dateOfSale
    ensures p == AllTime ==> exists i :: 0 <= i < |sales| && start == sales[i].dateOfSale
  {
    match p
    case OneDay => now - SecondsPerDay
    case OneWeek => now - SecondsPerWeek
    case AllTime => EarliestSale(sales)
  }

  /** The sales dated within [start, end], both ends included, in list order. */
  function InWindow(sales: seq<SaleRecord>, start: int, end: int): seq<SaleRecord>
  {
    Filter(sales, (s: SaleRecord) => start <= s.dateOfSale <= end)
  }

  /** The filter keeps exactly the sales dated in the window, in order, and
      every copy of each. */
  lemma InWindowCorrect(sales: seq<SaleRecord>, start: int, end: int)
    ensures var r := InWindow(sales, start, end);
      && IsSubseq(r, sales)
      && (forall i :: 0 <= i < |r| ==> start <= r[i].dateOfSale <= end)
      && (forall i :: 0 <= i < |sales| && start <= sales[i].dateOfSale <= end ==> sales[i] in r)
      && (forall x :: multiset(r)[x] == if start <= x.dateOfSale <= end then multiset(sales)[x] else 0)
  {
    FilterIsSubseq(sales, (s: SaleRecord) => start <= s.dateOfSale <= end);
    FilterCounts(sales, (s: SaleRecord) => start <= s.dateOfSale <= end);
  }

  /** "All Time" drops only sales dated after `now`; with none of those it keeps the list as is. */
  lemma AllTimeKeepsEverything(sales: seq<SaleRecord>, now: int)
    requires sales != []
    requires forall i :: 0 <= i < |sales| ==> sales[i].dateOfSale <= now
    ensures InWindow(sales, WindowStart(AllTime, now, sales), now) == sales
  {
    var start := WindowStart(AllTime, now, sales);
    FilterAll(sales, (s: SaleRecord) => start <= s.dateOfSale <= now);
  }

  // ------------------------------------------------------------------ join

  /** One row of `merged_df`. A missing value (pandas NaN) is None. */
  datatype Row = Row(
    sale: SaleRecord,
    productName: Option<string>,
    sellingPrice: Option<int>,
    purchasePrice: Option<int>)

  function MatchedRow(s: SaleRecord, item: StockItem): Row
  {
    Row(s, Some(item.productName), Some(item.sellingPrice), Some(item.purchasePrice))
  }

  /** One row per stock entry carrying the sale's id, in stock order. */
  function MatchRows(s: SaleRecord, stock: seq<StockItem>): seq<Row>
  {
    if stock == [] then []
    else (if stock[0].productId == s.productId then [MatchedRow(s, stock[0])] else [])
         + MatchRows(s, stock[1..])
  }

  /** `merge(..., how='left')`: every sale keeps at least one row; a sale with
      no matching stock gets missing name and prices. */
  function LeftJoin(sales: seq<SaleRecord>, stock: seq<StockItem>): seq<Row>
  {
    if sales == [] then []
    else
      var m := MatchRows(sales[0], stock);
      (if m == [] then [Row(sales[0], None, None, None)] else m) + LeftJoin(sales[1..], stock)
  }

  /** The branch taken when the stock list is empty: name "N/A", prices 0. */
  function NoStockRows(sales: seq<SaleRecord>): (rows: seq<Row>)
  {
    if sales == [] then [] else [Row(sales[0], Some("N/A"), Some(0), Some(0))] + NoStockRows(sales[1..])
  }

  function Enrich(sales: seq<SaleRecord>, stock: seq<StockItem>): seq<Row>
  {
    if stock != [] then LeftJoin(sales, stock) else NoStockRows(sales)
  }

  /** The first stock entry with the given id (the entry `FirstIndex` finds). */
  function FindById(stock: seq<StockItem>, id: string): (r: Option<StockItem>)
    ensures r.Some? ==> r.value in stock && r.value.productId == id
    ensures r.None? <==> id !in Ids(stock)
  {
    match FirstIndex(stock, id)
    case Some(k) => Some(stock[k])
    case None => None
  }

  /** The row a sale gets when ids are unique: its stock entry's data, or missing. */
  function JoinedRow(s: SaleRecord, stock: seq<StockItem>): Row
  {
    match FindById(stock, s.productId)
    case Some(item) => MatchedRow(s, item)
    case None => Row(s, None, None, None)
  }

  lemma {:induction false} MatchRowsUnique(s: SaleRecord, stock: seq<StockItem>)
    requires UniqueIds(stock)
    ensures MatchRows(s, stock) ==
      match FindById(stock, s.productId)
      case Some(item) => [MatchedRow(s, item)]
      case None => []
  {
    if stock != [] {
      MatchRowsUnique(s, stock[1..]);
      if stock[0].productId == s.productId {
        assert s.productId !in Ids(stock[1..]) by {
          forall x | x in Ids(stock[1..]) ensures x != s.productId {
            var i :| 0 <= i < |stock| - 1 && stock[1..][i].productId == x;
            assert stock[i + 1] == stock[1..][i];
          }
        }
      }
    }
  }

  /** With one stock entry per id, the join yields exactly one row per sale,
      in sale order, carrying that sale's stock data (or none). */
  lemma {:induction false} LeftJoinUnique(sales: seq<SaleRecord>, stock: seq<StockItem>)
    requires UniqueIds(stock)
    ensures |LeftJoin(sales, stock)| == |sales|
    ensures forall i :: 0 <= i < |sales| ==> LeftJoin(sales, stock)[i] == JoinedRow(sales[i], stock)
  {
    if sales != [] {
      LeftJoinCons(sales, stock);
      LeftJoinUnique(sales[1..], stock);
      TailRows(sales, stock, LeftJoin(sales, stock), LeftJoin(sales[1..], stock));
    }
  }

  /** With unique ids the join of a non-empty list starts with its first sale's row. */
  lemma LeftJoinCons(sales: seq<SaleRecord>, stock: seq<StockItem>)
    requires UniqueIds(stock) && sales != []
    ensures LeftJoin(sales, stock) == [JoinedRow(sales[0], stock)] + LeftJoin(sales[1..], stock)
  {
    HeadRows(sales[0], stock);
  }

  /** One row per sale carries over from the tail's join to the whole join. */
  lemma TailRows(sales: seq<SaleRecord>, stock: seq<StockItem>, whole: seq<Row>, rest: seq<Row>)
    requires sales != [] && whole == [JoinedRow(sales[0], stock)] + rest
    requires |rest| == |sales| - 1
    requires forall i :: 0 <= i < |sales| - 1 ==> rest[i] == JoinedRow(sales[1..][i], stock)
    ensures |whole| == |sales|
    ensures forall i :: 0 <= i < |sales| ==> whole[i] == JoinedRow(sales[i], stock)
  {
    forall i | 0 < i < |sales| ensures whole[i] == JoinedRow(sales[i], stock) {
      assert whole[i] == rest[i - 1];
      assert sales[1..][i - 1] == sales[i];
    }
  }

  /** With unique ids a sale's own part of the join is the single row `JoinedRow`. */
  lemma HeadRows(s: SaleRecord, stock: seq<StockItem>)
    requires UniqueIds(stock)
    ensures var m := MatchRows(s, stock);
      (if m == [] then [Row(s, None, None, None)] else m) == [JoinedRow(s, stock)]
  {
    MatchRowsUnique(s, stock);
  }

  /** The sales column of a table of rows. */
  function SalesOf(rows: seq<Row>): (r: seq<SaleRecord>)
    ensures |r| == |rows|
    ensures forall i :: 0 <= i < |rows| ==> r[i] == rows[i].sale
  {
    seq(|rows|, i requires 0 <= i < |rows| => rows[i].sale)
  }

  /** Every sale keeps a row of its own, in order, whatever the stock list
      holds (duplicate ids give a sale several rows), and every row belongs to
      one of the sales. */
  lemma {:induction false} LeftJoinKeepsEverySale(sales: seq<SaleRecord>, stock: seq<StockItem>)
    ensures IsSubseq(sales, SalesOf(LeftJoin(sales, stock)))
    ensures forall i :: 0 <= i < |LeftJoin(sales, stock)| ==> LeftJoin(sales, stock)[i].sale in sales
  {
    if sales != [] {
      LeftJoinKeepsEverySale(sales[1..], stock);
      var m := MatchRows(sales[0], stock);
      var head := if m == [] then [Row(sales[0], None, None, None)] else m;
      var rest := LeftJoin(sales[1..], stock);
      MatchRowsSale(sales[0], stock);
      assert LeftJoin(sales, stock) == head + rest;
      SalesOfConcat(head, rest);
      OwnRowFirst(sales, SalesOf(head), SalesOf(rest));
      RowsBelong(sales, head, rest);
    }
  }

  lemma RowsBelong(sales: seq<SaleRecord>, head: seq<Row>, rest: seq<Row>)
    requires sales != []
    requires forall i :: 0 <= i < |head| ==> head[i].sale == sales[0]
    requires forall i :: 0 <= i < |rest| ==> rest[i].sale in sales[1..]
    ensures forall i :: 0 <= i < |head + rest| ==> (head + rest)[i].sale in sales
  {
    forall i | 0 <= i < |head + rest| ensures (head + rest)[i].sale in sales {
      if i >= |head| {
        assert (head + rest)[i] == rest[i - |head|];
        assert rest[i - |head|].sale in sales[1..];
      }
    }
  }

  lemma SalesOfConcat(a: seq<Row>, b: seq<Row>)
    ensures SalesOf(a + b) == SalesOf(a) + SalesOf(b)
  {
    assert forall i :: 0 <= i < |a + b| ==> SalesOf(a + b)[i] == (SalesOf(a) + SalesOf(b))[i];
  }

  /** Every row of `MatchRows` belongs to the sale it was made for. */
  lemma {:induction false} MatchRowsSale(s: SaleRecord, stock: seq<StockItem>)
    ensures forall i :: 0 <= i < |MatchRows(s, stock)| ==> MatchRows(s, stock)[i].sale == s
  {
    if stock != [] {
      MatchRowsSale(s, stock[1..]);
    }
  }

  /** A block of rows for the first sale, in front of a tail in which the
      remaining sales keep their rows, keeps the whole list of sales. */
  lemma OwnRowFirst(sales: seq<SaleRecord>, block: seq<SaleRecord>, tail: seq<SaleRecord>)
    requires sales != [] && block != [] && block[0] == sales[0]
    requires IsSubseq(sales[1..], tail)
    ensures IsSubseq(sales, block + tail)
  {
    SubseqAfterPrefix(sales[1..], tail, block[1..]);
    assert (block + tail)[1..] == block[1..] + tail;
  }

  lemma {:induction false} NoStockRowsShape(sales: seq<SaleRecord>)
    ensures |NoStockRows(sales)| == |sales|
    ensures forall i :: 0 <= i < |sales| ==>
      NoStockRows(sales)[i] == Row(sales[i], Some("N/A"), Some(0), Some(0))
  {
    if sales != [] {
      NoStockRowsShape(sales[1..]);
      forall i | 0 < i < |sales| ensures NoStockRows(sales)[i] == Row(sales[i], Some("N/A"), Some(0), Some(0)) {
        assert sales[1..][i - 1] == sales[i];
      }
    }
  }

  // ---------------------------------------------------------------- profit

  function OrZero(v: Option<int>): int
  {
    match v case Some(x) => x case None => 0
  }

  /** `(selling_price - purchase_price) * quantity_sold`, a missing price read as 0. */
  function Profit(r: Row): int
  {
    (OrZero(r.sellingPrice) - OrZero(r.purchasePrice)) * r.sale.quantitySold
  }

  function SaleTotal(r: Row): int { r.sale.totalPrice }

  function TotalPrice(s: SaleRecord): int { s.totalPrice }

  /** Profit uses the stock entry's current prices; a sale whose product is
      gone, and every sale while the stock list is empty, has profit 0. */
  lemma ProfitOfSale(sales: seq<SaleRecord>, stock: seq<StockItem>, i: nat)
    requires UniqueIds(stock) && i < |sales|
    ensures i < |Enrich(sales, stock)|
    ensures Profit(Enrich(sales, stock)[i]) ==
      match FindById(stock, sales[i].productId)
      case Some(item) => (item.sellingPrice - item.purchasePrice) * sales[i].quantitySold
      case None => 0
  {
    var rows := Enrich(sales, stock);
    if stock == [] {
      NoStockRowsShape(sales);
      assert rows[i] == Row(sales[i], Some("N/A"), Some(0), Some(0));
      assert Profit(rows[i]) == 0 * sales[i].quantitySold == 0;
    } else {
      LeftJoinUnique(sales, stock);
      assert rows[i] == JoinedRow(sales[i], stock);
    }
  }

  // --------------------------------------------------------------- summary

  datatype Summary = Summary(totalSales: int, totalProfit: int, count: nat, uniqueProducts: nat)

  function RowIds(rows: seq<Row>): set<string>
  {
    set i | 0 <= i < |rows| :: rows[i].sale.productId
  }

  function SaleIds(sales: seq<SaleRecord>): set<string>
  {
    set i | 0 <= i < |sales| :: sales[i].productId
  }

  /** The four metrics: Σ total_price, Σ profit, number of rows, distinct product ids. */
  function Summarize(rows: seq<Row>): Summary
  {
    Summary(SumBy(rows, SaleTotal), SumBy(rows, Profit), |rows|, |RowIds(rows)|)
  }

  lemma {:induction false} RowIdsBound(rows: seq<Row>)
    ensures |RowIds(rows)| <= |rows|
  {
    if rows != [] {
      RowIdsBound(rows[1..]);
      assert RowIds(rows) == RowIds(rows[1..]) + {rows[0].sale.productId} by {
        forall x | x in RowIds(rows) ensures x in RowIds(rows[1..]) + {rows[0].sale.productId} {
          var i :| 0 <= i < |rows| && rows[i].sale.productId == x;
          if i > 0 { assert rows[1..][i - 1] == rows[i]; }
        }
        forall x | x in RowIds(rows[1..]) ensures x in RowIds(rows) {
          var i :| 0 <= i < |rows| - 1 && rows[1..][i].sale.productId == x;
          assert rows[i + 1] == rows[1..][i];
        }
      }
    }
  }

  /** A product cannot be counted more often than there are rows. */
  lemma UniqueProductsAtMostCount(rows: seq<Row>)
    ensures Summarize(rows).uniqueProducts <= Summarize(rows).count
  {
    RowIdsBound(rows);
  }

  /** With one stock entry per id the summary is about the filtered sales
      themselves: their number, their price sum and their distinct ids. */
  lemma SummaryOfSales(sales: seq<SaleRecord>, stock: seq<StockItem>)
    requires UniqueIds(stock)
    ensures var s := Summarize(Enrich(sales, stock));
      && s.count == |sales|
      && s.totalSales == SumBy(sales, TotalPrice)
      && s.uniqueProducts == |SaleIds(sales)|
  {
    var rows := Enrich(sales, stock);
    EnrichKeepsSales(sales, stock);
    RowsSales(rows, sales);
    RowsIds(rows, sales);
  }

  /** Both join branches keep one row per sale, in order. */
  lemma EnrichKeepsSales(sales: seq<SaleRecord>, stock: seq<StockItem>)
    requires UniqueIds(stock)
    ensures var rows := Enrich(sales, stock);
      |rows| == |sales| && forall i :: 0 <= i < |sales| ==> rows[i].sale == sales[i]
  {
    if stock == [] {
      NoStockRowsShape(sales);
    } else {
      LeftJoinUnique(sales, stock);
    }
  }

  lemma RowsIds(rows: seq<Row>, sales: seq<SaleRecord>)
    requires |rows| == |sales| && forall i :: 0 <= i < |sales| ==> rows[i].sale == sales[i]
    ensures RowIds(rows) == SaleIds(sales)
  {
    forall x | x in RowIds(rows) ensures x in SaleIds(sales) {
      var i :| 0 <= i < |rows| && rows[i].sale.productId == x;
      assert sales[i].productId == x;
    }
    forall x | x in SaleIds(sales) ensures x in RowIds(rows) {
      var i :| 0 <= i < |sales| && sales[i].productId == x;
      assert rows[i].sale.productId == x;
    }
  }

  lemma {:induction false} RowsSales(rows: seq<Row>, sales: seq<SaleRecord>)
    requires |rows| == |sales| && forall i :: 0 <= i < |sales| ==> rows[i].sale == sales[i]
    ensures SumBy(rows, SaleTotal) == SumBy(sales, TotalPrice)
  {
    if rows != [] {
      RowsSales(rows[1..], sales[1..]);
    }
  }

  // ---------------------------------------------------------- daily totals

  /** Calendar day of a timestamp (`.dt.date`); the division rounds down. */
  function DayOf(t: int): int { t / SecondsPerDay }

  function DayTallies(rows: seq<Row>): (ts: seq<Tally<int>>)
    ensures |ts| == |rows|
    ensures forall i :: 0 <= i < |rows| ==>
      ts[i] == Tally(DayOf(rows[i].sale.dateOfSale), rows[i].sale.totalPrice, Profit(rows[i]))
  {
    if rows == [] then []
    else [Tally(DayOf(rows[0].sale.dateOfSale), rows[0].sale.totalPrice, Profit(rows[0]))] + DayTallies(rows[1..])
  }

  function LaterFirst(t: Tally<int>): int { -t.key }

  /** `groupby('date')` sums, earliest day first. */
  function DailyTotals(rows: seq<Row>): seq<Tally<int>>
  {
    SortDesc(GroupBy(DayTallies(rows)), LaterFirst)
  }

  lemma {:induction false} TalliesKeepSums(rows: seq<Row>)
    ensures SumBy(DayTallies(rows), TotalOf) == SumBy(rows, SaleTotal)
    ensures SumBy(DayTallies(rows), ProfitOf) == SumBy(rows, Profit)
  {
    if rows != [] {
      TalliesKeepSums(rows[1..]);
      assert DayTallies(rows)[1..] == DayTallies(rows[1..]);
    }
  }

  function RowDays(rows: seq<Row>): set<int>
  {
    set i | 0 <= i < |rows| :: DayOf(rows[i].sale.dateOfSale)
  }

  /** One entry per distinct day of the rows, in strictly ascending order. */
  lemma DailyTotalsDays(rows: seq<Row>)
    ensures var daily := DailyTotals(rows);
      && (forall i, j :: 0 <= i < j < |daily| ==> daily[i].key < daily[j].key)
      && Keys(daily) == RowDays(rows)
  {
    var es := DayTallies(rows);
    var gs := GroupBy(es);
    var daily := DailyTotals(rows);
    GroupByCorrect(es);
    SortKeepsDistinct(gs, LaterFirst);
    KeysOfPermutation(daily, gs);
    DayTalliesKeys(rows);
    StrictlyAscending(daily);
  }

  /** Latest-first-by-negated-day order on distinct days is ascending day order. */
  lemma StrictlyAscending(daily: seq<Tally<int>>)
    requires SortedDesc(daily, LaterFirst) && DistinctKeys(daily)
    ensures forall i, j :: 0 <= i < j < |daily| ==> daily[i].key < daily[j].key
  {
    forall i, j | 0 <= i < j < |daily| ensures daily[i].key < daily[j].key {
      assert LaterFirst(daily[i]) >= LaterFirst(daily[j]);
    }
  }

  lemma DayTalliesKeys(rows: seq<Row>)
    ensures Keys(DayTallies(rows)) == RowDays(rows)
  {
    var es := DayTallies(rows);
    forall x | x in Keys(es) ensures x in RowDays(rows) {
      var i :| 0 <= i < |es| && es[i].key == x;
    }
    forall x | x in RowDays(rows) ensures x in Keys(es) {
      var i :| 0 <= i < |rows| && DayOf(rows[i].sale.dateOfSale) == x;
      assert es[i].key == x;
    }
  }

  /** Each day's entry holds the sums over exactly that day's rows. */
  lemma DailyTotalsPerDay(rows: seq<Row>)
    ensures var daily := DailyTotals(rows);
      forall i :: 0 <= i < |daily| ==>
        daily[i].total == KeyTotal(DayTallies(rows), daily[i].key)
        && daily[i].profit == KeyProfit(DayTallies(rows), daily[i].key)
  {
    var es := DayTallies(rows);
    var gs := GroupBy(es);
    var daily := DailyTotals(rows);
    GroupByCorrect(es);
    forall i | 0 <= i < |daily| ensures daily[i].total == KeyTotal(es, daily[i].key)
      && daily[i].profit == KeyProfit(es, daily[i].key)
    {
      assert daily[i] in multiset(gs);
      var j :| 0 <= j < |gs| && gs[j] == daily[i];
    }
  }

  /** The daily entries add up to the summary's total sales and total profit. */
  lemma DailyTotalsSums(rows: seq<Row>)
    ensures SumBy(DailyTotals(rows), TotalOf) == Summarize(rows).totalSales
    ensures SumBy(DailyTotals(rows), ProfitOf) == Summarize(rows).totalProfit
  {
    var es := DayTallies(rows);
    var gs := GroupBy(es);
    var daily := DailyTotals(rows);
    GroupByKeepsSums(es);
    TalliesKeepSums(rows);
    SumByPermutation(daily, gs, TotalOf);
    SumByPermutation(daily, gs, ProfitOf);
  }

  // ----------------------------------------------------------- top products

  /** `groupby('product_name')` input; rows with a missing name are dropped. */
  function NameTallies(rows: seq<Row>): (ts: seq<Tally<string>>)
    ensures |ts| <= |rows|
  {
    if rows == [] then []
    else
      (match rows[0].productName
       case Some(n) => [Tally(n, rows[0].sale.totalPrice, Profit(rows[0]))]
       case None => [])
      + NameTallies(rows[1..])
  }

  function ProductTotals(rows: seq<Row>): seq<Tally<string>>
  {
    GroupBy(NameTallies(rows))
  }

  /** Top products by summed sales (`sort_values('total_price', ascending=False).head(10)`). */
  function TopBySales(rows: seq<Row>): seq<Tally<string>>
  {
    Take(SortDesc(ProductTotals(rows), TotalOf), TopCount)
  }

  /** The same list re-sorted by summed profit. */
  function TopByProfit(rows: seq<Row>): seq<Tally<string>>
  {
    Take(SortDesc(TopBySales(rows), ProfitOf), TopCount)
  }

  function RowNames(rows: seq<Row>): set<string>
  {
    set i | 0 <= i < |rows| && rows[i].productName.Some? :: rows[i].productName.value
  }

  lemma {:induction false} NameTalliesKeys(rows: seq<Row>)
    ensures Keys(NameTallies(rows)) == RowNames(rows)
  {
    if rows != [] {
      NameTalliesKeys(rows[1..]);
      var head := match rows[0].productName
        case Some(n) => [Tally(n, rows[0].sale.totalPrice, Profit(rows[0]))]
        case None => [];
      var ts := NameTallies(rows);
      assert ts == head + NameTallies(rows[1..]);
      assert Keys(ts) == Keys(head) + Keys(NameTallies(rows[1..])) by {
        forall x | x in Keys(ts) ensures x in Keys(head) + Keys(NameTallies(rows[1..])) {
          var i :| 0 <= i < |ts| && ts[i].key == x;
          if i >= |head| { assert NameTallies(rows[1..])[i - |head|] == ts[i]; }
        }
        forall x | x in Keys(head) + Keys(NameTallies(rows[1..])) ensures x in Keys(ts) {
          if x in Keys(head) {
            assert ts[0] == head[0];
          } else {
            var i :| 0 <= i < |NameTallies(rows[1..])| && NameTallies(rows[1..])[i].key == x;
            assert ts[i + |head|] == NameTallies(rows[1..])[i];
          }
        }
      }
      assert RowNames(rows) == Keys(head) + RowNames(rows[1..]) by {
        forall x | x in RowNames(rows) ensures x in Keys(head) + RowNames(rows[1..]) {
          var i :| 0 <= i < |rows| && rows[i].productName.Some? && rows[i].productName.value == x;
          if i > 0 { assert rows[1..][i - 1] == rows[i]; }
        }
        forall x | x in RowNames(rows[1..]) ensures x in RowNames(rows) {
          var i :| 0 <= i < |rows| - 1 && rows[1..][i].productName.Some? && rows[1..][i].productName.value == x;
          assert rows[i + 1] == rows[1..][i];
        }
      }
    }
  }

  /** At most ten products, highest sales first; a product left out sold no
      more than any product shown. */
  lemma TopBySalesRanking(rows: seq<Row>)
    ensures var groups := ProductTotals(rows);
      var top := TopBySales(rows);
      && |top| <= TopCount
      && (|groups| >= TopCount ==> |top| == TopCount)
      && SortedDesc(top, TotalOf)
      && multiset(top) <= multiset(groups)
      && (forall g: Tally<string>, t: Tally<string> ::
            g in multiset(groups) - multiset(top) && t in top ==> g.total <= t.total)
  {
    var groups := ProductTotals(rows);
    var top := TopBySales(rows);
    TopNSorted(groups, TotalOf, TopCount);
    TopN(groups, TotalOf, TopCount);
    forall g: Tally<string>, t: Tally<string> | g in multiset(groups) - multiset(top) && t in top
      ensures g.total <= t.total
    {
      assert TotalOf(g) <= TotalOf(t);
    }
  }

  /** One entry per product name, each summing exactly that product's rows;
      rows with no product name take no part. */
  lemma TopBySalesSums(rows: seq<Row>)
    ensures var top := TopBySales(rows);
      && Keys(ProductTotals(rows)) == RowNames(rows)
      && DistinctKeys(top)
      && (forall i :: 0 <= i < |top| ==>
            top[i].total == KeyTotal(NameTallies(rows), top[i].key)
            && top[i].profit == KeyProfit(NameTallies(rows), top[i].key))
  {
    var es := NameTallies(rows);
    var groups := GroupBy(es);
    var sorted := SortDesc(groups, TotalOf);
    var top := TopBySales(rows);
    GroupByCorrect(es);
    NameTalliesKeys(rows);
    SortKeepsDistinct(groups, TotalOf);
    assert top <= sorted;
    forall i | 0 <= i < |top| ensures top[i].total == KeyTotal(es, top[i].key)
      && top[i].profit == KeyProfit(es, top[i].key)
    {
      assert top[i] == sorted[i];
      assert sorted[i] in multiset(groups);
      var j :| 0 <= j < |groups| && groups[j] == top[i];
    }
  }

  /** The profit chart shows the very entries of the sales chart, reordered
      by profit: not a fresh top ten over all products. */
  lemma TopByProfitCorrect(rows: seq<Row>)
    ensures var top := TopBySales(rows);
      var byProfit := TopByProfit(rows);
      && multiset(byProfit) == multiset(top)
      && SortedDesc(byProfit, ProfitOf)
  {
  }

  /** With an empty stock list every row is named "N/A", so the whole report
      is a single product whose sales are everything and whose profit is 0. */
  lemma {:induction false} NoStockSingleProduct(sales: seq<SaleRecord>)
    requires sales != []
    ensures ProductTotals(NoStockRows(sales)) == [Tally("N/A", SumBy(sales, TotalPrice), 0)]
  {
    NoStockTallies(sales);
    NoStockGroup(sales);
  }

  function NoStockTally(s: SaleRecord): Tally<string> { Tally("N/A", s.totalPrice, 0) }

  lemma {:induction false} NoStockTallies(sales: seq<SaleRecord>)
    ensures NameTallies(NoStockRows(sales)) == seq(|sales|, i requires 0 <= i < |sales| => NoStockTally(sales[i]))
  {
    if sales != [] {
      NoStockTallies(sales[1..]);
    }
  }

  lemma {:induction false} NoStockGroup(sales: seq<SaleRecord>)
    requires sales != []
    ensures GroupBy(seq(|sales|, i requires 0 <= i < |sales| => NoStockTally(sales[i])))
      == [Tally("N/A", SumBy(sales, TotalPrice), 0)]
  {
    var es := seq(|sales|, i requires 0 <= i < |sales| => NoStockTally(sales[i]));
    var init := sales[..|sales| - 1];
    var last := sales[|sales| - 1];
    assert sales == init + [last];
    SumByConcat(init, [last], TotalPrice);
    assert es[..|es| - 1] == seq(|init|, i requires 0 <= i < |init| => NoStockTally(init[i]));
    if init != [] {
      NoStockGroup(init);
    }
  }

  // ---------------------------------------------------------------- report

  datatype History = History(
    rows: seq<Row>,
    summary: Summary,
    daily: seq<Tally<int>>,
    topBySales: seq<Tally<string>>,
    topByProfit: seq<Tally<string>>)

  /** The page stops early, showing a note, in these two cases. */
  datatype HistoryError = NoSalesRecords | NoSalesInPeriod

  /** The whole page: window, filter, join, summary, daily totals and rankings. */
  function Report(p: Period, now: int, sales: seq<SaleRecord>, stock: seq<StockItem>): (r: Result<History, HistoryError>)
    ensures r == Failure(NoSalesRecords) <==> sales == []
    ensures r == Failure(NoSalesInPeriod) <==>
      sales != [] && forall i :: 0 <= i < |sales| ==>
        !(WindowStart(p, now, sales) <= sales[i].dateOfSale <= now)
    ensures r.Success? ==> r.value.rows == Enrich(InWindow(sales, WindowStart(p, now, sales), now), stock)
  {
    if sales == [] then Failure(NoSalesRecords)
    else
      var filtered := InWindow(sales, WindowStart(p, now, sales), now);
      if filtered == [] then Failure(NoSalesInPeriod)
      else
        var rows := Enrich(filtered, stock);
        Success(History(rows, Summarize(rows), DailyTotals(rows), TopBySales(rows), TopByProfit(rows)))
  }

  /** The figures of one report agree with each other: as many rows as sales
      in the window, the daily bars add up to the two summary totals, and the
      profit chart reorders the sales chart. */
  lemma ReportConsistent(p: Period, now: int, sales: seq<SaleRecord>, stock: seq<StockItem>)
    requires UniqueIds(stock)
    ensures Report(p, now, sales, stock).Success? ==>
      var h := Report(p, now, sales, stock).value;
      && h.summary.count == |InWindow(sales, WindowStart(p, now, sales), now)| > 0
      && h.summary.uniqueProducts <= h.summary.count
      && SumBy(h.daily, TotalOf) == h.summary.totalSales
      && SumBy(h.daily, ProfitOf) == h.summary.totalProfit
      && |h.topBySales| <= TopCount
      && multiset(h.topByProfit) == multiset(h.topBySales)
  {
    if Report(p, now, sales, stock).Success? {
      var filtered := InWindow(sales, WindowStart(p, now, sales), now);
      var rows := Enrich(filtered, stock);
      SummaryOfSales(filtered, stock);
      UniqueProductsAtMostCount(rows);
      DailyTotalsSums(rows);
      TopBySalesRanking(rows);
      TopByProfitCorrect(rows);
    }
  }
}
