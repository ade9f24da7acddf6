/** The two session lists and the two pages that change them: "Add New Stock"
    (shop_app/pages/add_stock.py) appends a stock entry, "Record Sale"
    (shop_app/pages/record_sale.py) takes units out of an entry and appends a
    sale. Generated ids and the clock are passed in. */
module Ledger {
  import opened Records
  import opened SaleForm

  /** Why the "Record Sale" page stops without recording anything. */
  datatype SaleError =
    | NoStock          // the stock list is empty
    | NothingAvailable // every entry has quantity 0
    | UnknownProduct   // the name read back from the label matches no offered entry

  class Shop {
    var stock: seq<StockItem>
    var sales: seq<SaleRecord>

    /** Prices and stock quantities are never negative, ids are unique, and
        every sale sold at least one unit. */
    ghost predicate Valid()
      reads this
    {
      Consistent(stock, sales)
    }

    constructor ()
      ensures Valid()
      ensures stock == [] && sales == []
    {
      stock := [];
      sales := [];
    }

    /** The "Add Stock" button: rejected when the name or the supplier is
        empty, otherwise the new entry is appended last. The number inputs
        keep prices >= 0 and quantity >= 1; `newId` stands for the uuid. */
    method AddStock(name: string, purchasePrice: int, sellingPrice: int, supplier: string,
                    quantity: int, newId: string, now: int) returns (ok: bool)
      requires Valid()
      requires purchasePrice >= 0 && sellingPrice >= 0 && quantity >= 1
      requires newId !in Ids(stock)
      modifies this
      ensures Valid()
      ensures ok <==> name != [] && supplier != []
      ensures !ok ==> stock == old(stock)
      ensures ok ==> stock == old(stock) + [StockItem(newId, name, now, purchasePrice, sellingPrice, supplier, quantity)]
      ensures sales == old(sales)
    {
      if name == [] || supplier == [] {
        return false;
      }
      var item := StockItem(newId, name, now, purchasePrice, sellingPrice, supplier, quantity);
      AppendFreshKeepsConsistent(stock, sales, item);
      stock := stock + [item];
      ok := true;
    }

    /** The "Record Sale" button for dropdown position `choice`. The number
        input bounds the quantity to 1..the selected entry's quantity. On
        success the first entry with the sold product's id loses `quantity`
        units and the sale is appended last; on an error nothing changes. */
    method RecordSale(choice: nat, quantity: int, now: int) returns (r: Result<SaleRecord, SaleError>)
      requires Valid()
      requires Available(stock) != [] ==> choice < |Available(stock)|
      requires Selected(stock, choice).Some? ==> 1 <= quantity <= Selected(stock, choice).value.quantity
      modifies this
      ensures Valid()
      ensures r == Failure(NoStock) <==> old(stock) == []
      ensures r == Failure(NothingAvailable) <==> old(stock) != [] && Available(old(stock)) == []
      ensures r == Failure(UnknownProduct) <==> Available(old(stock)) != [] && Selected(old(stock), choice).None?
      ensures r.Failure? ==> stock == old(stock) && sales == old(sales)
      ensures r.Success? ==> Selected(old(stock), choice).Some? &&
                             r.value == SaleFor(Selected(old(stock), choice).value, quantity, now)
      ensures r.Success? ==> stock == Decremented(old(stock), r.value.productId, quantity) &&
                             sales == old(sales) + [r.value]
    {
      if stock == [] {
        return Failure(NoStock);
      }
      var avail := Available(stock);
      if avail == [] {
        return Failure(NothingAvailable);
      }
      var name := ParseName(Options(avail)[choice]);
      var pick := FirstNamed(avail, name);
      if pick.None? {
        return Failure(UnknownProduct);
      }
      var item := avail[pick.value];
      assert Selected(stock, choice) == Some(item);
      SelectedIsOffered(stock, choice);
      var sale := SaleFor(item, quantity, now);
      SaleKeepsConsistent(stock, sales, item, quantity, now);
      TakeUnits(item.productId, quantity);
      sales := sales + [sale];
      r := Success(sale);
    }

    /** Takes `quantity` units out of the first entry with product id `id`,
        in place; with no such entry the stock list is left alone. */
    method TakeUnits(id: string, quantity: int)
      modifies this
      ensures stock == Decremented(old(stock), id, quantity)
      ensures sales == old(sales)
    {
      var idx := FirstIndex(stock, id);
      if idx.Some? {
        var k := idx.value;
        stock := stock[k := stock[k].(quantity := stock[k].quantity - quantity)];
      }
    }
  }

  lemma AppendFreshKeepsConsistent(stock: seq<StockItem>, sales: seq<SaleRecord>, item: StockItem)
    requires Consistent(stock, sales)
    requires item.productId !in Ids(stock)
    requires item.purchasePrice >= 0 && item.sellingPrice >= 0 && item.quantity >= 0
    ensures Consistent(stock + [item], sales)
  {
    var s := stock + [item];
    forall i, j | 0 <= i < j < |s| ensures s[i].productId != s[j].productId {
      if j == |stock| {
        assert s[i].productId in Ids(stock);
      }
    }
  }

  /** An entry added with a fresh id is the one its id finds afterwards: the
      quantity update of a later sale reaches it, at the last position. */
  lemma AddedEntryIsFound(stock: seq<StockItem>, item: StockItem)
    requires item.productId !in Ids(stock)
    ensures FirstIndex(stock + [item], item.productId) == Some(|stock|)
    ensures item.productId in Ids(stock + [item])
  {
    var s := stock + [item];
    assert s[|stock|] == item;
    forall k | 0 <= k < |stock| ensures s[k].productId != item.productId {
      assert s[k] == stock[k];
    }
  }

  /** With unique ids, the entry a sale decrements is the entry that was
      selected, and it keeps a non-negative quantity. */
  lemma SoldEntryNeverNegative(stock: seq<StockItem>, choice: nat, quantity: int)
    requires UniqueIds(stock)
    requires Selected(stock, choice).Some?
    requires 1 <= quantity <= Selected(stock, choice).value.quantity
    ensures var item := Selected(stock, choice).value;
      exists k :: 0 <= k < |stock| && stock[k] == item
        && Decremented(stock, item.productId, quantity)[k] == item.(quantity := item.quantity - quantity)
        && item.quantity - quantity >= 0
  {
    var item := Selected(stock, choice).value;
    SelectedIsOffered(stock, choice);
    var i :| 0 <= i < |stock| && stock[i] == item;
    var k := FirstIndex(stock, item.productId).value;
    assert k <= i;
    assert k == i;
  }
}
