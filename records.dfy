/** Record shapes of the shop ledger (shop_app/backend/models.py) and the
    small wrapper types used for the error paths. Money is in integer cents,
    timestamps are integer seconds. */
module Records {

  datatype Option<T> = None | Some(value: T)

  datatype Result<T, E> = Success(value: T) | Failure(error: E)

  /** One stock entry. `quantity` is the only field ever changed after creation. */
  datatype StockItem = StockItem(
    productId: string,
    productName: string,
    dateAdded: int,
    purchasePrice: int,
    sellingPrice: int,
    supplier: string,
    quantity: int)

  /** One sale; `totalPrice` is the price at the moment of sale. */
  datatype SaleRecord = SaleRecord(
    productId: string,
    dateOfSale: int,
    quantitySold: int,
    totalPrice: int)

  function Ids(stock: seq<StockItem>): set<string>
  {
    set i | 0 <= i < |stock| :: stock[i].productId
  }

  predicate UniqueIds(stock: seq<StockItem>)
  {
    forall i, j :: 0 <= i < j < |stock| ==> stock[i].productId != stock[j].productId
  }

  /** `[i for i, d in enumerate(stock) if d['product_id'] == id][0]`, if any. */
  function FirstIndex(stock: seq<StockItem>, id: string): (r: Option<nat>)
    ensures r.Some? ==> r.value < |stock| && stock[r.value].productId == id
    ensures r.Some? ==> forall k :: 0 <= k < r.value ==> stock[k].productId != id
    ensures r.None? <==> id !in Ids(stock)
  {
    if stock == [] then None
    else if stock[0].productId == id then Some(0)
    else
      IdsOfTail(stock);
      match FirstIndex(stock[1..], id)
      case None => None
      case Some(k) => Some(k + 1)
  }

  lemma IdsOfTail(stock: seq<StockItem>)
    requires stock != []
    ensures Ids(stock) == {stock[0].productId} + Ids(stock[1..])
  {
    forall x | x in Ids(stock) ensures x in {stock[0].productId} + Ids(stock[1..]) {
      var i :| 0 <= i < |stock| && stock[i].productId == x;
      if i > 0 { assert stock[1..][i - 1] == stock[i]; }
    }
    forall x | x in Ids(stock[1..]) ensures x in Ids(stock) {
      var i :| 0 <= i < |stock| - 1 && stock[1..][i].productId == x;
      assert stock[i + 1] == stock[1..][i];
    }
  }

  /** What the pages keep true of the two session lists: no negative quantity
      or price, one entry per id, and every sale of at least one unit. */
  predicate Consistent(stock: seq<StockItem>, sales: seq<SaleRecord>)
  {
    && UniqueIds(stock)
    && (forall i :: 0 <= i < |stock| ==>
          stock[i].quantity >= 0 && stock[i].purchasePrice >= 0 && stock[i].sellingPrice >= 0)
    && (forall i :: 0 <= i < |sales| ==> sales[i].quantitySold >= 1 && sales[i].totalPrice >= 0)
  }
}
