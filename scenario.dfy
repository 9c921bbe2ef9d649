/**
 * One small database and the responses the endpoints give for it: a client
 * "Ana" who ordered three pens at 2.50 each.
 */
module Scenario {
  import opened Wrappers
  import opened Linq
  import opened Models
  import opened Dtos
  import opened LinqController

  const Ana := Client(1, "Ana", "ana@example.com")
  const Pen := Product(100, "Pen", Some("Blue ink"), 250)
  /** 2024-01-01, in ticks. */
  const NewYear: Ticks := 638396640000000000
  const FirstOrder := Order(10, 1, NewYear)
  const ThreePens := OrderDetail(1000, 10, 100, 3)

  function Shop(): Db {
    Db([Ana], [Pen], [FirstOrder], [ThreePens])
  }

  /** The per-order endpoints on the one order. */
  lemma ShopOrderResponses()
    ensures GetOrderDetails(Shop(), 10) == [ProductQuantity("Pen", 3)]
    ensures GetOrderTotalQuantity(Shop(), 10) == 3
    ensures GetOrderWithDetails(Shop(), 10) ==
      Some(OrderWithDetails(10, NewYear, [OrderDetailsDto(10, "Pen", 3)]))
    ensures GetOrderWithDetails(Shop(), 11) == None
  {
    var db := Shop();
    assert ProductOf(db, ThreePens) == Some(Pen);
    assert DetailsOfOrder(db, 10) == [ThreePens];
    assert GetById(db.orders, OrderKey, 10) == Some(FirstOrder);
    assert DetailRow(db, ThreePens) == Some(OrderDetailsDto(10, "Pen", 3));
    assert InnerJoin([ThreePens], (od: OrderDetail) => DetailRow(db, od)) == [OrderDetailsDto(10, "Pen", 3)];
  }

  /** Ana's sales: three pens at 2.50 each. */
  lemma ShopSalesResponses()
    ensures GetClientSales(Shop()) == [ClientSalesDto(1, "Ana", 750)]
    ensures GetClientsTotalProducts(Shop()) == [ClientTotalProductsDto(1, "Ana", 3)]
  {
    var db := Shop();
    assert ProductOf(db, ThreePens) == Some(Pen);
    assert OrderOf(db, ThreePens) == Some(FirstOrder);
    assert DetailsOfClient(db, 1) == [ThreePens];
    assert InnerJoin([ThreePens], (od: OrderDetail) => LineTotal(db, od)) == [750];
  }

  /** Ana is the only client with orders, so she is the one with the most. */
  lemma ShopMostOrdersResponse()
    ensures GetClientWithMostOrders(Shop()) == Success(MostOrders(1, [TopClient(Some(Ana), 1)]))
  {
    var db := Shop();
    assert OrdersOfClient(db.orders, 1) == [FirstOrder];
    assert ClientIds(db.orders) == [1];
    assert GroupByClient(db.orders) == [ClientOrderCount(1, 1)];
    assert GetById(db.clients, ClientKey, 1) == Some(Ana);
    var groups := [ClientOrderCount(1, 1)];
    assert Max(groups, GroupCount) == Some(1);
    assert Where(groups, (g: ClientOrderCount) => g.count == 1) == groups;
    assert Select(groups, (g: ClientOrderCount) => TopClient(GetById(db.clients, ClientKey, g.clientId), g.count))
      == [TopClient(Some(Ana), 1)];
  }

  /** The filters: prefixes match, the price bound is strict, the average is exact. */
  lemma ShopFilterResponses()
    ensures GetClientsByName(Shop(), "An") == [Ana]
    ensures GetClientsByName(Shop(), "an") == []
    ensures GetProductsByPrice(Shop(), 249) == [Pen]
    ensures GetProductsByPrice(Shop(), 250) == []
    ensures GetAverageProductPrice(Shop()) == Success(250.0)
    ensures GetProductsWithoutDescription(Shop()) == []
    ensures GetOrdersAfterDate(Shop(), NewYear) == []
  {
    assert "An" <= Ana.name;
    assert !("an" <= Ana.name) by { assert Ana.name[0] != 'a'; }
  }

  /** Nothing in the schema forbids a negative quantity, and then an order total is negative. */
  lemma NegativeQuantityTotal()
    ensures GetOrderTotalQuantity(Db([], [], [], [OrderDetail(1, 10, 100, -3)]), 10) == -3
  {
  }

  /** The most expensive product and the per-line listing. */
  lemma ShopProductResponses()
    ensures GetMostExpensiveProduct(Shop()) == Some(Pen)
    ensures GetAllOrdersDetails(Shop()) == [OrderDetailsDto(10, "Pen", 3)]
  {
    var db := Shop();
    assert OrderByDescending(db.products, Price) == [Pen];
    assert DetailRow(db, ThreePens) == Some(OrderDetailsDto(10, "Pen", 3));
  }

  /** Ana bought pens. */
  lemma ShopProductsByClientResponse()
    ensures GetProductsByClient(Shop(), 1) == ["Pen"]
  {
    var db := Shop();
    assert OrdersOfClient(db.orders, 1) == [FirstOrder];
    assert DetailsOfOrder(db, 10) == [ThreePens];
    assert LinesOfClientOrders(db, 1) == [ThreePens];
    assert ProductName(db, ThreePens) == Some("Pen");
    assert InnerJoin([ThreePens], (od: OrderDetail) => ProductName(db, od)) == ["Pen"];
  }

  /** Pens were bought by Ana. */
  lemma ShopClientsByProductResponse()
    ensures GetClientsByProduct(Shop(), 100) == ["Ana"]
  {
    var db := Shop();
    assert Where(db.orderDetails, (od: OrderDetail) => od.productId == 100) == [ThreePens];
    assert ClientName(db, ThreePens) == Some("Ana");
    assert InnerJoin([ThreePens], (od: OrderDetail) => ClientName(db, od)) == ["Ana"];
  }

  /** The one client with its one order. */
  lemma ShopClientsWithOrdersResponse()
    ensures GetClientsWithOrders(Shop()) == [ClientOrdersDto(1, "Ana", [OrderDto(10, NewYear)])]
  {
    var db := Shop();
    assert OrdersOfClient(db.orders, 1) == [FirstOrder];
    assert ClientOrdersRow(db, Ana) == ClientOrdersDto(1, "Ana", [OrderDto(10, NewYear)]);
  }
}
