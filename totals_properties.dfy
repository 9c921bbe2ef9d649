/**
 * Properties of the aggregating endpoints `clients-total-products` and
 * `client-sales`, relating them to the per-order endpoint `order-quantity`
 * and to the client table.
 */
module TotalsProperties {
  import opened Wrappers
  import opened Linq
  import opened Models
  import opened Dtos
  import opened LinqController

  // ---------------------------------------------------------------------------
  // clients-total-products

  /** The quantity of line `od` that order `o` contributes to client `clientId`. */
  function OrderLine(clientId: int, o: Order, od: OrderDetail): int {
    if o.clientId == clientId && od.orderId == o.orderId then od.quantity else 0
  }

  /** Each order's row of the order-by-line table sums to that order's share of the client total. */
  lemma OrderRow(db: Db, clientId: int, cell: (Order, OrderDetail) -> int, o: Order)
    requires forall o', od :: cell(o', od) == OrderLine(clientId, o', od)
    ensures SumRow(o, db.orderDetails, cell) ==
      if o.clientId == clientId then GetOrderTotalQuantity(db, o.orderId) else 0
  {
    if o.clientId == clientId {
      SumIsRow(o, db.orderDetails, cell, (od: OrderDetail) => if od.orderId == o.orderId then od.quantity else 0);
    } else {
      SumIsRow(o, db.orderDetails, cell, (od: OrderDetail) => 0);
      SumOfZeros(db.orderDetails, (od: OrderDetail) => 0);
    }
  }

  /** With unique order ids, each line's column of the table sums to its share of the client total. */
  lemma LineColumn(db: Db, clientId: int, cell: (Order, OrderDetail) -> int, od: OrderDetail)
    requires UniqueKeys(db.orders, OrderKey)
    requires forall o, od' :: cell(o, od') == OrderLine(clientId, o, od')
    ensures SumCol(db.orders, od, cell) == if PlacedBy(db, od, clientId) then od.quantity else 0
  {
    var h := (o: Order) => OrderLine(clientId, o, od);
    SumIsCol(db.orders, od, cell, h);
    SumAtKey(db.orders, OrderKey, od.orderId, h);
  }

  /** With unique order ids, a client's total quantity is the sum of the `order-quantity`
      totals of its orders. */
  lemma ClientTotalIsSumOfOrderTotals(db: Db, clientId: int)
    requires UniqueKeys(db.orders, OrderKey)
    ensures TotalProductsOf(db, clientId) ==
      Sum(OrdersOfClient(db.orders, clientId), (o: Order) => GetOrderTotalQuantity(db, o.orderId))
  {
    var cell := (o: Order, od: OrderDetail) => OrderLine(clientId, o, od);
    var byOrder := (o: Order) => if o.clientId == clientId then GetOrderTotalQuantity(db, o.orderId) else 0;
    var byLine := (od: OrderDetail) => if PlacedBy(db, od, clientId) then od.quantity else 0;
    SumWhere(db.orders, (o: Order) => o.clientId == clientId,
             (o: Order) => GetOrderTotalQuantity(db, o.orderId), byOrder);
    forall o | o in db.orders ensures byOrder(o) == SumRow(o, db.orderDetails, cell) {
      OrderRow(db, clientId, cell, o);
    }
    SumIsRows(db.orders, db.orderDetails, cell, byOrder);
    SumSwap(db.orders, db.orderDetails, cell);
    forall od | od in db.orderDetails ensures byLine(od) == SumCol(db.orders, od, cell) {
      LineColumn(db, clientId, cell, od);
    }
    SumIsCols(db.orders, db.orderDetails, cell, byLine);
  }

  /** A client without orders has total quantity 0. */
  lemma ClientsTotalProductsZeroWithoutOrders(db: Db, i: int)
    requires 0 <= i < |db.clients|
    requires forall o :: o in db.orders ==> o.clientId != db.clients[i].clientId
    ensures GetClientsTotalProducts(db)[i].totalProducts == 0
  {
    var cid := db.clients[i].clientId;
    forall od | od in db.orderDetails ensures !PlacedBy(db, od, cid) {
    }
    SumOfZeros(db.orderDetails, (od: OrderDetail) => if PlacedBy(db, od, cid) then od.quantity else 0);
  }

  /** Totals are never negative when quantities are not. */
  lemma ClientsTotalProductsNonNegative(db: Db, i: int)
    requires NonNegativeAmounts(db) && 0 <= i < |db.clients|
    ensures GetClientsTotalProducts(db)[i].totalProducts >= 0
  {
    var cid := db.clients[i].clientId;
    SumAtLeast(db.orderDetails, (od: OrderDetail) => if PlacedBy(db, od, cid) then od.quantity else 0, 0);
  }

  // ---------------------------------------------------------------------------
  // client-sales

  /** `client-sales` lists every client exactly once in the sense of the multiset of rows, so a
      row is present exactly when it is some client's row. */
  lemma ClientSalesListsEveryClient(db: Db)
    ensures forall c :: c in db.clients ==> SalesRow(db, c) in GetClientSales(db)
    ensures forall s :: s in GetClientSales(db) ==> exists c :: c in db.clients && s == SalesRow(db, c)
  {
    var rows := Select(db.clients, (c: Client) => SalesRow(db, c));
    var r := GetClientSales(db);
    forall c | c in db.clients ensures SalesRow(db, c) in r {
      assert SalesRow(db, c) in rows;
      assert multiset(rows)[SalesRow(db, c)] > 0;
    }
    forall s | s in r ensures exists c :: c in db.clients && s == SalesRow(db, c) {
      assert multiset(r)[s] > 0;
      assert s in rows;
      SelectImage(db.clients, (c: Client) => SalesRow(db, c), s);
    }
  }

  /** The first row of `client-sales` has the largest sales total of all clients. */
  lemma ClientSalesLeaderIsTopSeller(db: Db)
    requires db.clients != []
    ensures GetClientSales(db) != []
    ensures forall c :: c in db.clients ==> SalesOf(db, c.clientId) <= GetClientSales(db)[0].totalSales
  {
    var r := GetClientSales(db);
    HeadIsLargest(r, TotalSales);
    ClientSalesListsEveryClient(db);
    forall c | c in db.clients ensures SalesOf(db, c.clientId) <= r[0].totalSales {
      assert TotalSales(SalesRow(db, c)) <= TotalSales(r[0]);
    }
  }

  /** `od.Quantity * od.Product.Price`, or 0 for a line whose product row is missing. */
  function LineAmount(db: Db, od: OrderDetail): int {
    match LineTotal(db, od)
    case Some(x) => x
    case None => 0
  }

  /** A client's sales are the sum of quantity times unit price over the detail rows of its orders. */
  lemma SalesIsSumOfLineAmounts(db: Db, clientId: int)
    ensures SalesOf(db, clientId) ==
      Sum(db.orderDetails, (od: OrderDetail) => if PlacedBy(db, od, clientId) then LineAmount(db, od) else 0)
  {
    var amount := (od: OrderDetail) => LineAmount(db, od);
    SumInnerJoinOrZero(DetailsOfClient(db, clientId), (od: OrderDetail) => LineTotal(db, od), (x: int) => x, amount);
    SumWhere(db.orderDetails, (od: OrderDetail) => PlacedBy(db, od, clientId), amount,
             (od: OrderDetail) => if PlacedBy(db, od, clientId) then LineAmount(db, od) else 0);
  }

  /** With the schema constraints, a line's amount uses the price of the product it references. */
  lemma LineAmountUsesProductPrice(db: Db, od: OrderDetail, p: Product)
    requires WellFormed(db) && od in db.orderDetails && p in db.products && p.productId == od.productId
    ensures LineAmount(db, od) == od.quantity * p.price
  {
    assert ProductKey(p) == od.productId;
  }

  /** A client without orders has sales 0. */
  lemma SalesZeroWithoutOrders(db: Db, clientId: int)
    requires forall o :: o in db.orders ==> o.clientId != clientId
    ensures SalesOf(db, clientId) == 0
  {
    forall od | od in db.orderDetails ensures !PlacedBy(db, od, clientId) {
    }
    assert DetailsOfClient(db, clientId) == [];
  }

  /** A line's amount is never negative when quantities and prices are not. */
  lemma LineTotalNonNegative(db: Db, od: OrderDetail, x: int)
    requires NonNegativeAmounts(db) && od in db.orderDetails && LineTotal(db, od) == Some(x)
    ensures x >= 0
  {
    var p := ProductOf(db, od).value;
    assert od.quantity >= 0 && p.price >= 0;
  }

  /** Sales are never negative when quantities and prices are not. */
  lemma SalesNonNegative(db: Db, clientId: int)
    requires NonNegativeAmounts(db)
    ensures SalesOf(db, clientId) >= 0
  {
    var lines := DetailsOfClient(db, clientId);
    var totals := InnerJoin(lines, (od: OrderDetail) => LineTotal(db, od));
    forall x | x in totals ensures x >= 0 {
      var od :| od in lines && LineTotal(db, od) == Some(x);
      LineTotalNonNegative(db, od, x);
    }
    SumAtLeast(totals, (x: int) => x, 0);
  }
}
