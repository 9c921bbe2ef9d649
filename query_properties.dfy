/**
 * Properties of the join endpoints (`all-orders-details`, `products-by-client`,
 * `clients-by-product`, `order-with-details`), stated relationally over the
 * tables: a navigation through a foreign key is the row with that key.
 */
module QueryProperties {
  import opened Wrappers
  import opened Linq
  import opened Models
  import opened Dtos
  import opened LinqController
  import opened LinqControllerProperties

  // ---------------------------------------------------------------------------
  // all-orders-details

  /** With the schema constraints, `GetAllOrdersDetails` has one row per detail row, in table
      order, named after the product the row references (`LookupsResolve` says which one). */
  lemma AllOrdersDetailsOneRowPerLine(db: Db)
    requires WellFormed(db)
    ensures |GetAllOrdersDetails(db)| == |db.orderDetails|
    ensures forall i :: 0 <= i < |db.orderDetails| ==> ProductOf(db, db.orderDetails[i]).Some?
    ensures forall i :: 0 <= i < |db.orderDetails| ==>
      GetAllOrdersDetails(db)[i] ==
        OrderDetailsDto(db.orderDetails[i].orderId, ProductOf(db, db.orderDetails[i]).value.name, db.orderDetails[i].quantity)
  {
    forall od | od in db.orderDetails ensures DetailRow(db, od).Some? {
      LookupsResolve(db, od);
    }
  }

  // ---------------------------------------------------------------------------
  // order-with-details

  /** The lines of `GetOrderWithDetails` are the rows of `GetAllOrdersDetails` for that order, in the same order. */
  lemma OrderWithDetailsAgreesWithAllOrdersDetails(db: Db, orderId: int)
    requires GetOrderWithDetails(db, orderId).Some?
    ensures GetOrderWithDetails(db, orderId).value.details ==
      Where(GetAllOrdersDetails(db), (l: OrderDetailsDto) => l.orderId == orderId)
  {
    var lookup := (od: OrderDetail) => DetailRow(db, od);
    var o := GetById(db.orders, OrderKey, orderId).value;
    assert o.orderId == orderId;
    WhereInnerJoin(db.orderDetails, lookup, (od: OrderDetail) => od.orderId == orderId,
                   (l: OrderDetailsDto) => l.orderId == orderId);
  }

  /** With unique order ids, an existing order is found as itself with its own lines. */
  lemma OrderWithDetailsShape(db: Db, o: Order)
    requires UniqueKeys(db.orders, OrderKey) && o in db.orders
    ensures GetOrderWithDetails(db, o.orderId) ==
      Some(OrderWithDetails(o.orderId, o.orderDate,
        InnerJoin(DetailsOfOrder(db, o.orderId), (od: OrderDetail) => DetailRow(db, od))))
  {
    assert GetById(db.orders, OrderKey, o.orderId) == Some(o);
  }

  /** With the schema constraints, every line of an order has a row, named after its product. */
  lemma OrderLinesResolve(db: Db, orderId: int)
    requires WellFormed(db)
    ensures forall i :: 0 <= i < |DetailsOfOrder(db, orderId)| ==> ProductOf(db, DetailsOfOrder(db, orderId)[i]).Some?
    ensures |InnerJoin(DetailsOfOrder(db, orderId), (od: OrderDetail) => DetailRow(db, od))| == |DetailsOfOrder(db, orderId)|
    ensures forall i :: 0 <= i < |DetailsOfOrder(db, orderId)| ==>
      InnerJoin(DetailsOfOrder(db, orderId), (od: OrderDetail) => DetailRow(db, od))[i] ==
        OrderDetailsDto(orderId, ProductOf(db, DetailsOfOrder(db, orderId)[i]).value.name,
                        DetailsOfOrder(db, orderId)[i].quantity)
  {
    forall od | od in DetailsOfOrder(db, orderId) ensures DetailRow(db, od).Some? {
      LookupsResolve(db, od);
    }
  }

  /** With the schema constraints, an existing order is found with its own date and one line
      per detail row, named after the product the row references. */
  lemma OrderWithDetailsUnderWellFormed(db: Db, o: Order)
    requires WellFormed(db) && o in db.orders
    ensures GetOrderWithDetails(db, o.orderId).Some?
    ensures GetOrderWithDetails(db, o.orderId).value.orderDate == o.orderDate
    ensures |GetOrderWithDetails(db, o.orderId).value.details| == |DetailsOfOrder(db, o.orderId)|
    ensures forall i :: 0 <= i < |DetailsOfOrder(db, o.orderId)| ==> ProductOf(db, DetailsOfOrder(db, o.orderId)[i]).Some?
    ensures forall i :: 0 <= i < |DetailsOfOrder(db, o.orderId)| ==>
      GetOrderWithDetails(db, o.orderId).value.details[i] ==
        OrderDetailsDto(o.orderId, ProductOf(db, DetailsOfOrder(db, o.orderId)[i]).value.name,
                        DetailsOfOrder(db, o.orderId)[i].quantity)
  {
    OrderWithDetailsShape(db, o);
    OrderLinesResolve(db, o.orderId);
  }

  // ---------------------------------------------------------------------------
  // products-by-client

  /** Following `Client.Orders` then `Order.OrderDetails` reaches the same lines as filtering
      the detail table by `OrderDetail.Order.ClientId`, once order ids are unique. */
  lemma ClientLinesAgree(db: Db, clientId: int)
    requires UniqueKeys(db.orders, OrderKey)
    ensures forall od :: od in LinesOfClientOrders(db, clientId) <==> od in DetailsOfClient(db, clientId)
  {
    forall od | od in db.orderDetails
      ensures (exists o :: o in db.orders && o.clientId == clientId && od.orderId == o.orderId) <==>
        PlacedBy(db, od, clientId)
    {
      LineOfClientOrder(db, clientId, od);
    }
  }

  /** With unique order ids, a line belongs to one of the client's orders exactly when its order was placed by the client. */
  lemma LineOfClientOrder(db: Db, clientId: int, od: OrderDetail)
    requires UniqueKeys(db.orders, OrderKey)
    ensures (exists o :: o in db.orders && o.clientId == clientId && od.orderId == o.orderId) <==>
      PlacedBy(db, od, clientId)
  {
    if o :| o in db.orders && o.clientId == clientId && od.orderId == o.orderId {
      assert OrderKey(o) == od.orderId;
    }
  }

  /** With unique product ids, a name is listed for a client exactly when one of the client's
      orders has a line whose product carries that name. */
  lemma ProductsByClientRelational(db: Db, clientId: int, n: string)
    requires UniqueKeys(db.products, ProductKey)
    ensures n in GetProductsByClient(db, clientId) <==>
      exists o, od, p :: o in db.orders && o.clientId == clientId &&
        od in db.orderDetails && od.orderId == o.orderId &&
        p in db.products && p.productId == od.productId && p.name == n
  {
    if n in GetProductsByClient(db, clientId) {
      var od :| od in LinesOfClientOrders(db, clientId) && ProductName(db, od) == Some(n);
      var o :| o in db.orders && o.clientId == clientId && od.orderId == o.orderId;
      var p := ProductOf(db, od).value;
    }
    if o, od, p :| (o in db.orders && o.clientId == clientId &&
                    od in db.orderDetails && od.orderId == o.orderId &&
                    p in db.products && p.productId == od.productId && p.name == n) {
      assert ProductKey(p) == od.productId;
      assert ProductName(db, od) == Some(n);
      assert od in LinesOfClientOrders(db, clientId);
    }
  }

  // ---------------------------------------------------------------------------
  // clients-by-product

  /** A listed client name belongs to a client who ordered the product. */
  lemma ListedClientOrderedProduct(db: Db, productId: int, n: string)
    requires n in GetClientsByProduct(db, productId)
    ensures exists od, o, c ::
      && od in db.orderDetails && od.productId == productId
      && o in db.orders && o.orderId == od.orderId
      && c in db.clients && c.clientId == o.clientId && c.name == n
  {
    var od :| od in db.orderDetails && od.productId == productId && ClientName(db, od) == Some(n);
    var o := OrderOf(db, od).value;
    var c := ClientOf(db, o).value;
    assert o in db.orders && o.orderId == od.orderId;
    assert c in db.clients && c.clientId == o.clientId && c.name == n;
  }

  /** With unique order and client ids, every client who ordered the product is listed by name. */
  lemma OrderingClientIsListed(db: Db, od: OrderDetail, o: Order, c: Client)
    requires UniqueKeys(db.orders, OrderKey) && UniqueKeys(db.clients, ClientKey)
    requires od in db.orderDetails && o in db.orders && o.orderId == od.orderId
    requires c in db.clients && c.clientId == o.clientId
    ensures c.name in GetClientsByProduct(db, od.productId)
  {
    assert OrderKey(o) == od.orderId;
    assert ClientKey(c) == o.clientId;
    assert ClientName(db, od) == Some(c.name);
  }

  /** With unique order and client ids, a name is listed for a product exactly when a client
      of that name placed an order with a line for the product. */
  lemma ClientsByProductRelational(db: Db, productId: int, n: string)
    requires UniqueKeys(db.orders, OrderKey) && UniqueKeys(db.clients, ClientKey)
    ensures n in GetClientsByProduct(db, productId) <==>
      exists od, o, c :: od in db.orderDetails && od.productId == productId &&
        o in db.orders && o.orderId == od.orderId &&
        c in db.clients && c.clientId == o.clientId && c.name == n
  {
    if n in GetClientsByProduct(db, productId) {
      ListedClientOrderedProduct(db, productId, n);
    }
    if od, o, c :| (od in db.orderDetails && od.productId == productId &&
                    o in db.orders && o.orderId == od.orderId &&
                    c in db.clients && c.clientId == o.clientId && c.name == n) {
      OrderingClientIsListed(db, od, o, c);
    }
  }
}
