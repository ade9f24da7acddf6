/** The computations of the "Record Sale" page (shop_app/pages/record_sale.py)
    that do not touch the session lists: which stock is offered, the dropdown
    labels and how a label is read back, which entry a choice selects, the
    sale record built from it, the stock update it causes, and the
    "Recent Sales" view. */
module SaleForm {
  import opened Records
  import opened Text
  import opened Seqs

  /** What `split` cuts a dropdown label at. */
  const Separator: string := " (Qty:"

  const RecentCount: nat := 5

  // --------------------------------------------------------------- offered

  function InStock(item: StockItem): bool { item.quantity > 0 }

  /** `stock_df[stock_df['quantity'] > 0]`. */
  function Available(stock: seq<StockItem>): seq<StockItem>
  {
    Filter(stock, InStock)
  }

  /** Exactly the entries with a positive quantity are offered, in stock order,
      each as often as it occurs in the stock list. */
  lemma AvailableCorrect(stock: seq<StockItem>)
    ensures var avail := Available(stock);
      && IsSubseq(avail, stock)
      && (forall i :: 0 <= i < |avail| ==> avail[i].quantity > 0 && avail[i] in stock)
      && (forall i :: 0 <= i < |stock| && stock[i].quantity > 0 ==> stock[i] in avail)
      && (forall x :: multiset(avail)[x] == if x.quantity > 0 then multiset(stock)[x] else 0)
  {
    FilterIsSubseq(stock, InStock);
    FilterCounts(stock, InStock);
  }

  // ---------------------------------------------------------------- labels

  /** `f"{name} (Qty: {quantity})"`. */
  function Label(name: string, quantity: int): string
  {
    name + " (Qty: " + IntToString(quantity) + ")"
  }

  /** `option.split(" (Qty:")[0]` for the chosen dropdown label. */
  function ParseName(option: string): string
  {
    SplitHead(option, Separator)
  }

  lemma LabelPrefix(name: string, quantity: int)
    ensures var shown := Label(name, quantity);
      |name| + |Separator| <= |shown|
      && shown[..|name|] == name
      && shown[|name|..|name| + |Separator|] == Separator
  {
  }

  /** A name without the separator in it is read back unchanged from its label. */
  lemma LabelRoundTrip(name: string, quantity: int)
    requires !Contains(name, Separator)
    ensures ParseName(Label(name, quantity)) == name
  {
    var shown := Label(name, quantity);
    var n := |name|;
    LabelPrefix(name, quantity);
    assert OccursAt(shown, Separator, n);
    forall p: nat | p < n ensures !OccursAt(shown, Separator, p) {
      NoSeparatorAt(name, quantity, p);
    }
    var first := FirstOccurrence(shown, Separator, 0);
    assert first == Some(n);
  }

  /** The separator does not start inside the name part of a label. */
  lemma NoSeparatorAt(name: string, quantity: int, p: nat)
    requires !Contains(name, Separator) && p < |name|
    ensures !OccursAt(Label(name, quantity), Separator, p)
  {
    var shown := Label(name, quantity);
    var n := |name|;
    LabelPrefix(name, quantity);
    if p + |Separator| <= n {
      assert shown[p..p + |Separator|] == name[p..p + |Separator|];
      assert !OccursAt(name, Separator, p);
    } else {
      // the separator's only space is its first character, and shown[n] is a space
      var d := n - p;
      assert 0 < d < |Separator|;
      assert shown[n] == ' ' && Separator[d] != ' ';
      assert p + |Separator| <= |shown| ==> shown[p..p + |Separator|][d] == shown[n];
    }
  }

  /** What goes wrong when a name does contain the separator: the label of
      "Tea (Qty: 2)" reads back as "Tea". */
  lemma LabelWithSeparator()
    ensures ParseName(Label("Tea (Qty: 2)", 3)) == "Tea"
  {
    var shown := Label("Tea (Qty: 2)", 3);
    assert shown == "Tea (Qty: 2) (Qty: 3)";
    assert OccursAt(shown, Separator, 3);
    assert !OccursAt(shown, Separator, 0) && !OccursAt(shown, Separator, 1) && !OccursAt(shown, Separator, 2) by {
      assert shown[0] != Separator[0] && shown[1] != Separator[0] && shown[2] != Separator[0];
    }
    var first := FirstOccurrence(shown, Separator, 0);
    assert first == Some(3);
    assert shown[..3] == "Tea";
  }

  // ------------------------------------------------------------- selection

  /** Position of the first entry named `name` (`df[df['product_name'] == name].iloc[0]`). */
  function FirstNamed(avail: seq<StockItem>, name: string): (r: Option<nat>)
    ensures r.Some? ==> r.value < |avail| && avail[r.value].productName == name
    ensures r.Some? ==> forall j :: 0 <= j < r.value ==> avail[j].productName != name
    ensures r.None? ==> forall j :: 0 <= j < |avail| ==> avail[j].productName != name
  {
    if avail == [] then None
    else if avail[0].productName == name then Some(0)
    else match FirstNamed(avail[1..], name)
      case None => None
      case Some(j) => Some(j + 1)
  }

  /** The dropdown: one label per offered entry; an entry shows the quantity
      of the first offered entry with its name. */
  function Options(avail: seq<StockItem>): (labels: seq<string>)
    ensures |labels| == |avail|
  {
    seq(|avail|, i requires 0 <= i < |avail| =>
      Label(avail[i].productName,
            match FirstNamed(avail, avail[i].productName)
            case Some(j) => avail[j].quantity
            case None => 0))
  }

  /** Label i shows entry i's name and the quantity of the first offered
      entry with that name, and it reads back as that name when the name does
      not contain the separator. */
  lemma OptionsCorrect(avail: seq<StockItem>, i: nat)
    requires i < |avail|
    ensures var name := avail[i].productName;
      exists j :: 0 <= j <= i
        && avail[j].productName == name
        && (forall k :: 0 <= k < j ==> avail[k].productName != name)
        && Options(avail)[i] == Label(name, avail[j].quantity)
    ensures !Contains(avail[i].productName, Separator) ==>
      ParseName(Options(avail)[i]) == avail[i].productName
  {
    var name := avail[i].productName;
    var j := FirstNamed(avail, name).value;
    assert Options(avail)[i] == Label(name, avail[j].quantity);
    if !Contains(name, Separator) {
      LabelRoundTrip(name, avail[j].quantity);
    }
  }

  /** `product_data`: the entry the page sells for dropdown position `choice`. */
  function Selected(stock: seq<StockItem>, choice: nat): Option<StockItem>
  {
    var avail := Available(stock);
    if choice < |avail| then
      match FirstNamed(avail, ParseName(Options(avail)[choice]))
      case Some(j) => Some(avail[j])
      case None => None
    else None
  }

  /** Whatever is selected is an offered entry: in stock, with quantity > 0. */
  lemma SelectedIsOffered(stock: seq<StockItem>, choice: nat)
    ensures Selected(stock, choice).Some? ==>
      && Selected(stock, choice).value in Available(stock)
      && Selected(stock, choice).value in stock
      && Selected(stock, choice).value.quantity > 0
  {
    AvailableCorrect(stock);
  }

  /** Choosing an entry selects the FIRST offered entry with the same name:
      of several entries sharing a name only the earliest can ever be sold. */
  lemma SelectedIsFirstWithName(stock: seq<StockItem>, choice: nat)
    requires choice < |Available(stock)|
    requires !Contains(Available(stock)[choice].productName, Separator)
    ensures var avail := Available(stock);
      exists j :: 0 <= j <= choice
        && Selected(stock, choice) == Some(avail[j])
        && avail[j].productName == avail[choice].productName
        && forall k :: 0 <= k < j ==> avail[k].productName != avail[choice].productName
  {
    var avail := Available(stock);
    var name := avail[choice].productName;
    var q := match FirstNamed(avail, name) case Some(j) => avail[j].quantity case None => 0;
    assert Options(avail)[choice] == Label(name, q);
    LabelRoundTrip(name, q);
    var j := FirstNamed(avail, name).value;
    assert Selected(stock, choice) == Some(avail[j]);
  }

  // ------------------------------------------------------------ the sale

  /** The record appended for selling `quantity` of `item` at time `now`:
      the total is quantity times the selling price at that moment. */
  function SaleFor(item: StockItem, quantity: int, now: int): (s: SaleRecord)
    ensures s.productId == item.productId && s.dateOfSale == now && s.quantitySold == quantity
    ensures s.totalPrice == quantity * item.sellingPrice
    ensures 1 <= quantity && item.sellingPrice >= 0 ==> s.totalPrice >= 0
  {
    SaleRecord(item.productId, now, quantity, quantity * item.sellingPrice)
  }

  /** The stock list after a sale of `quantity` units of product `id`. */
  function Decremented(stock: seq<StockItem>, id: string, quantity: int): seq<StockItem>
  {
    match FirstIndex(stock, id)
    case None => stock
    case Some(k) => stock[k := stock[k].(quantity := stock[k].quantity - quantity)]
  }

  /** Only the first entry with the id loses exactly `quantity` units; every
      other entry, and every other field, stays as it was; with no entry of
      that id nothing changes. */
  lemma DecrementedFrame(stock: seq<StockItem>, id: string, quantity: int)
    ensures var after := Decremented(stock, id, quantity);
      && |after| == |stock|
      && (id !in Ids(stock) ==> after == stock)
      && (id in Ids(stock) ==>
            exists k :: 0 <= k < |stock| && stock[k].productId == id
              && (forall j :: 0 <= j < k ==> stock[j].productId != id)
              && after[k] == stock[k].(quantity := stock[k].quantity - quantity)
              && forall j :: 0 <= j < |stock| && j != k ==> after[j] == stock[j])
  {
    match FirstIndex(stock, id)
    case None =>
    case Some(k) =>
      assert stock[k].productId == id;
  }

  /** Selling at most what an offered entry holds never drives a quantity
      below zero, and keeps the session lists consistent. */
  lemma SaleKeepsConsistent(stock: seq<StockItem>, sales: seq<SaleRecord>, item: StockItem, quantity: int, now: int)
    requires Consistent(stock, sales)
    requires item in Available(stock)
    requires 1 <= quantity <= item.quantity
    ensures Consistent(Decremented(stock, item.productId, quantity), sales + [SaleFor(item, quantity, now)])
  {
    AvailableCorrect(stock);
    var i :| 0 <= i < |stock| && stock[i] == item;
    var k := FirstIndex(stock, item.productId).value;
    assert k <= i;
    assert k == i;
    UpdateKeepsConsistent(stock, sales, k, item.(quantity := item.quantity - quantity), SaleFor(item, quantity, now));
  }

  /** Rewriting one entry under its own id, with non-negative numbers, and
      appending a sale of at least one unit keep the lists consistent. */
  lemma UpdateKeepsConsistent(stock: seq<StockItem>, sales: seq<SaleRecord>, k: nat, v: StockItem, sale: SaleRecord)
    requires Consistent(stock, sales) && k < |stock| && v.productId == stock[k].productId
    requires v.quantity >= 0 && v.purchasePrice >= 0 && v.sellingPrice >= 0
    requires sale.quantitySold >= 1 && sale.totalPrice >= 0
    ensures Consistent(stock[k := v], sales + [sale])
  {
    var after := stock[k := v];
    assert forall j :: 0 <= j < |after| ==> after[j].productId == stock[j].productId;
    var sales' := sales + [sale];
    assert forall j :: 0 <= j < |sales| ==> sales'[j] == sales[j];
  }

  // --------------------------------------------------------- recent sales

  function DateOf(s: SaleRecord): int { s.dateOfSale }

  /** `sales_df.sort_values('date_of_sale', ascending=False).head(5)`. */
  function RecentSales(sales: seq<SaleRecord>): seq<SaleRecord>
  {
    Take(SortDesc(sales, DateOf), RecentCount)
  }

  /** At most five sales (fewer only when fewer were recorded), newest first. */
  lemma RecentSalesOrder(sales: seq<SaleRecord>)
    ensures var recent := RecentSales(sales);
      && |recent| == (if |sales| < RecentCount then |sales| else RecentCount)
      && forall i, j :: 0 <= i < j < |recent| ==> recent[i].dateOfSale >= recent[j].dateOfSale
  {
    var recent := RecentSales(sales);
    TopNSorted(sales, DateOf, RecentCount);
    forall i, j | 0 <= i < j < |recent| ensures recent[i].dateOfSale >= recent[j].dateOfSale {
      assert DateOf(recent[i]) >= DateOf(recent[j]);
    }
  }

  /** The sales shown are recorded sales, and every sale left out is no newer
      than any sale shown. */
  lemma RecentSalesNewest(sales: seq<SaleRecord>)
    ensures var recent := RecentSales(sales);
      && multiset(recent) <= multiset(sales)
      && forall x: SaleRecord, y: SaleRecord :: x in multiset(sales) - multiset(recent) && y in recent ==>
           x.dateOfSale <= y.dateOfSale
  {
    var recent := RecentSales(sales);
    TopN(sales, DateOf, RecentCount);
    forall x: SaleRecord, y: SaleRecord | x in multiset(sales) - multiset(recent) && y in recent
      ensures x.dateOfSale <= y.dateOfSale
    {
      assert DateOf(x) <= DateOf(y);
    }
  }
}
