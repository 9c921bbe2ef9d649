/**
 * The sixteen read-only endpoints of `LinqController`, each a function of its
 * request parameters and the database tables. The older controller's twelve
 * endpoints are the same queries as the first twelve here.
 */
module LinqController {
  import opened Wrappers
  import opened Linq
  import opened Models
  import opened Dtos

  // ---------------------------------------------------------------------------
  // Sub-queries and projections shared by several endpoints

  /** The orders placed by `clientId` (`Client.Orders`). */
  function OrdersOfClient(orders: seq<Order>, clientId: int): (r: seq<Order>)
    ensures forall o :: o in r <==> o in orders && o.clientId == clientId
  {
    Where(orders, (o: Order) => o.clientId == clientId)
  }

  /** How many orders `clientId` placed. */
  function OrderCount(orders: seq<Order>, clientId: int): (n: nat)
    ensures n == 0 <==> forall o :: o in orders ==> o.clientId != clientId
  {
    |OrdersOfClient(orders, clientId)|
  }

  /** The line items of order `orderId` (`Order.OrderDetails`). */
  function DetailsOfOrder(db: Db, orderId: int): (r: seq<OrderDetail>)
    ensures forall od :: od in r <==> od in db.orderDetails && od.orderId == orderId
  {
    Where(db.orderDetails, (od: OrderDetail) => od.orderId == orderId)
  }

  /** `od.Order.ClientId == clientId`; false when the order row is missing. */
  predicate PlacedBy(db: Db, od: OrderDetail, clientId: int) {
    match OrderOf(db, od)
    case Some(o) => o.clientId == clientId
    case None => false
  }

  /** The line items of all the orders of `clientId`. */
  function DetailsOfClient(db: Db, clientId: int): (r: seq<OrderDetail>)
    ensures forall od :: od in r <==> od in db.orderDetails && PlacedBy(db, od, clientId)
  {
    Where(db.orderDetails, (od: OrderDetail) => PlacedBy(db, od, clientId))
  }

  /** `od.Product.Name`. */
  function ProductName(db: Db, od: OrderDetail): Option<string> {
    match ProductOf(db, od)
    case Some(p) => Some(p.name)
    case None => None
  }

  /** `od.Order.Client.Name`. */
  function ClientName(db: Db, od: OrderDetail): Option<string> {
    match OrderOf(db, od)
    case None => None
    case Some(o) =>
      match ClientOf(db, o)
      case Some(c) => Some(c.name)
      case None => None
  }

  /** `new { ProductName = od.Product.Name, od.Quantity }`. */
  function DetailLine(db: Db, od: OrderDetail): Option<ProductQuantity> {
    match ProductOf(db, od)
    case Some(p) => Some(ProductQuantity(p.name, od.quantity))
    case None => None
  }

  /** `new OrderDetailsDto { OrderId, ProductName = od.Product.Name, Quantity }`. */
  function DetailRow(db: Db, od: OrderDetail): Option<OrderDetailsDto> {
    match ProductOf(db, od)
    case Some(p) => Some(OrderDetailsDto(od.orderId, p.name, od.quantity))
    case None => None
  }

  /** `od.Quantity * od.Product.Price`. */
  function LineTotal(db: Db, od: OrderDetail): Option<Cents> {
    match ProductOf(db, od)
    case Some(p) => Some(od.quantity * p.price)
    case None => None
  }

  function Quantity(od: OrderDetail): int { od.quantity }
  function Price(p: Product): Cents { p.price }
  function OrderClientId(o: Order): int { o.clientId }
  function GroupCount(g: ClientOrderCount): int { g.count }
  function TotalSales(s: ClientSalesDto): int { s.totalSales }

  /** `string.IsNullOrEmpty`. */
  predicate IsNullOrEmpty(s: Option<string>) {
    s == None || s == Some("")
  }

  // ---------------------------------------------------------------------------
  // Endpoints

  /** `GET clients?name=`: the clients whose name starts with `name` (ordinal prefix). */
  function GetClientsByName(db: Db, name: string): (r: seq<Client>)
    ensures forall c :: c in r <==> c in db.clients && name <= c.name
    ensures forall c :: multiset(r)[c] == if name <= c.name then multiset(db.clients)[c] else 0
  {
    Where(db.clients, (c: Client) => name <= c.name)
  }

  /** `GET products?price=`: the products priced strictly above `price`. */
  function GetProductsByPrice(db: Db, price: Cents): (r: seq<Product>)
    ensures forall p :: p in r <==> p in db.products && p.price > price
    ensures forall p :: multiset(r)[p] == if p.price > price then multiset(db.products)[p] else 0
  {
    Where(db.products, (p: Product) => p.price > price)
  }

  /** `GET order-details?orderId=`: product name and quantity of each line of the order. */
  function GetOrderDetails(db: Db, orderId: int): (r: seq<ProductQuantity>)
    ensures |r| <= |DetailsOfOrder(db, orderId)|
    ensures forall l :: l in r <==>
      exists od :: od in db.orderDetails && od.orderId == orderId && DetailLine(db, od) == Some(l)
  {
    InnerJoin(DetailsOfOrder(db, orderId), (od: OrderDetail) => DetailLine(db, od))
  }

  /** `GET order-quantity?orderId=`: the total quantity ordered in order `orderId`. */
  function GetOrderTotalQuantity(db: Db, orderId: int): (r: int)
    ensures r == Sum(db.orderDetails, (od: OrderDetail) => if od.orderId == orderId then od.quantity else 0)
  {
    SumWhere(db.orderDetails, (od: OrderDetail) => od.orderId == orderId, Quantity,
             (od: OrderDetail) => if od.orderId == orderId then od.quantity else 0);
    Sum(DetailsOfOrder(db, orderId), Quantity)
  }

  /** `GET most-expensive-product`: the first product by descending price, or null. */
  function GetMostExpensiveProduct(db: Db): (r: Option<Product>)
    ensures r.None? <==> db.products == []
    ensures r.Some? ==> r.value in db.products
    ensures r.Some? ==> forall p :: p in db.products ==> p.price <= r.value.price
  {
    var sorted := OrderByDescending(db.products, Price);
    if sorted == [] then None
    else
      HeadIsLargest(sorted, Price);
      assert forall p :: p in db.products <==> p in multiset(sorted);
      Some(sorted[0])
  }

  /** `GET orders-after-date?date=`: the orders placed strictly after `date`. */
  function GetOrdersAfterDate(db: Db, date: Ticks): (r: seq<Order>)
    ensures forall o :: o in r <==> o in db.orders && o.orderDate > date
    ensures forall o :: multiset(r)[o] == if o.orderDate > date then multiset(db.orders)[o] else 0
  {
    Where(db.orders, (o: Order) => o.orderDate > date)
  }

  /** `GET average-product-price`: the mean price; `Average` throws on an empty table. */
  function GetAverageProductPrice(db: Db): (r: Result<real>)
    ensures r.Failure? <==> db.products == []
    ensures r.Success? ==> r.value * (|db.products| as real) == Sum(db.products, Price) as real
  {
    if db.products == [] then Failure(InvalidOperation)
    else Success((Sum(db.products, Price) as real) / (|db.products| as real))
  }

  /** `GET products-without-description`: the products whose description is null or empty. */
  function GetProductsWithoutDescription(db: Db): (r: seq<Product>)
    ensures forall p :: p in r <==> p in db.products && (p.description == None || p.description == Some(""))
    ensures forall p :: multiset(r)[p] == if IsNullOrEmpty(p.description) then multiset(db.products)[p] else 0
  {
    Where(db.products, (p: Product) => IsNullOrEmpty(p.description))
  }

  /** The distinct client ids that occur in `orders`: the keys of `GroupBy(o => o.ClientId)`. */
  function ClientIds(orders: seq<Order>): (keys: seq<int>)
    ensures NoDuplicates(keys)
    ensures forall k :: k in keys <==> exists o :: o in orders && o.clientId == k
    ensures keys == [] <==> orders == []
  {
    var ids := Select(orders, OrderClientId);
    assert orders != [] ==> orders[0].clientId in ids;
    Distinct(ids)
  }

  /** No two groups share a client id. */
  ghost predicate DistinctClientIds(groups: seq<ClientOrderCount>) {
    forall i, j :: 0 <= i < j < |groups| ==> groups[i].clientId != groups[j].clientId
  }

  /** `GroupBy(o => o.ClientId).Select(g => new { ClientId = g.Key, Count = g.Count() })`;
      `GroupsCountTheirClients` states what the groups are. */
  function GroupByClient(orders: seq<Order>): seq<ClientOrderCount> {
    Select(ClientIds(orders), (k: int) => ClientOrderCount(k, OrderCount(orders, k)))
  }

  /** One group per client that placed orders, carrying that client's order count. */
  lemma GroupsCountTheirClients(orders: seq<Order>)
    ensures GroupByClient(orders) == [] <==> orders == []
    ensures DistinctClientIds(GroupByClient(orders))
    ensures forall g :: g in GroupByClient(orders) ==> g.count == OrderCount(orders, g.clientId) && g.count > 0
    ensures forall o :: o in orders ==> ClientOrderCount(o.clientId, OrderCount(orders, o.clientId)) in GroupByClient(orders)
  {
    var keys := ClientIds(orders);
    GroupsOfKeys(orders, keys, GroupByClient(orders));
  }

  lemma GroupsOfKeys(orders: seq<Order>, keys: seq<int>, r: seq<ClientOrderCount>)
    requires NoDuplicates(keys)
    requires forall k :: k in keys <==> exists o :: o in orders && o.clientId == k
    requires keys == [] <==> orders == []
    requires |r| == |keys| && forall i :: 0 <= i < |r| ==> r[i] == ClientOrderCount(keys[i], OrderCount(orders, keys[i]))
    ensures r == [] <==> orders == []
    ensures DistinctClientIds(r)
    ensures forall g :: g in r ==> g.count == OrderCount(orders, g.clientId) && g.count > 0
    ensures forall o :: o in orders ==> ClientOrderCount(o.clientId, OrderCount(orders, o.clientId)) in r
  {
    forall g | g in r ensures g.count == OrderCount(orders, g.clientId) && g.count > 0 {
      var i :| 0 <= i < |r| && r[i] == g;
      assert keys[i] in keys;
      var o :| o in orders && o.clientId == keys[i];
    }
    forall o | o in orders ensures ClientOrderCount(o.clientId, OrderCount(orders, o.clientId)) in r {
      assert o.clientId in keys;
      var i :| 0 <= i < |keys| && keys[i] == o.clientId;
      assert r[i] == ClientOrderCount(o.clientId, OrderCount(orders, o.clientId));
    }
  }

  /** `GET client-with-most-orders`: the largest order count and every client tied at it;
      `Max` throws when there are no orders. */
  function GetClientWithMostOrders(db: Db): (r: Result<MostOrders>)
    ensures r.Failure? <==> db.orders == []
    ensures r.Success? ==> forall t :: t in r.value.topClients ==> t.ordersCount == r.value.maxOrders
  {
    GroupsCountTheirClients(db.orders);
    var groups := GroupByClient(db.orders);
    match Max(groups, GroupCount)
    case None => Failure(InvalidOperation)
    case Some(m) =>
      var tied := Where(groups, (g: ClientOrderCount) => g.count == m);
      TopsKeepTheirCount(db, tied, m);
      Success(MostOrders(m, Select(tied, (g: ClientOrderCount) => TopClient(GetById(db.clients, ClientKey, g.clientId), g.count))))
  }

  /** Looking up the clients of groups that all have count `m` gives entries with count `m`. */
  lemma TopsKeepTheirCount(db: Db, tied: seq<ClientOrderCount>, m: int)
    requires forall g :: g in tied ==> g.count == m
    ensures forall t :: t in Select(tied, (g: ClientOrderCount) => TopClient(GetById(db.clients, ClientKey, g.clientId), g.count)) ==>
      t.ordersCount == m
  {
    var tops := Select(tied, (g: ClientOrderCount) => TopClient(GetById(db.clients, ClientKey, g.clientId), g.count));
    forall t | t in tops ensures t.ordersCount == m {
      var i :| 0 <= i < |tops| && tops[i] == t;
      assert tied[i] in tied;
    }
  }

  /** `GET all-orders-details`: every order line with its product's name. */
  function GetAllOrdersDetails(db: Db): (r: seq<OrderDetailsDto>)
    ensures |r| <= |db.orderDetails|
    ensures forall l :: l in r <==> exists od :: od in db.orderDetails && DetailRow(db, od) == Some(l)
  {
    InnerJoin(db.orderDetails, (od: OrderDetail) => DetailRow(db, od))
  }

  /** The line items of all orders of `clientId`, reached order by order (`SelectMany(o => o.OrderDetails)`). */
  function LinesOfClientOrders(db: Db, clientId: int): (r: seq<OrderDetail>)
    ensures forall od :: od in r <==>
      (od in db.orderDetails && exists o :: o in db.orders && o.clientId == clientId && od.orderId == o.orderId)
  {
    SelectMany(OrdersOfClient(db.orders, clientId), (o: Order) => DetailsOfOrder(db, o.orderId))
  }

  /** `GET products-by-client?clientId=`: the distinct names of the products in the client's orders. */
  function GetProductsByClient(db: Db, clientId: int): (r: seq<string>)
    ensures NoDuplicates(r)
    ensures forall n :: n in r <==>
      exists od :: od in LinesOfClientOrders(db, clientId) && ProductName(db, od) == Some(n)
  {
    Distinct(InnerJoin(LinesOfClientOrders(db, clientId), (od: OrderDetail) => ProductName(db, od)))
  }

  /** `GET clients-by-product?productId=`: the distinct names of the clients who ordered the product. */
  function GetClientsByProduct(db: Db, productId: int): (r: seq<string>)
    ensures NoDuplicates(r)
    ensures forall n :: n in r <==>
      exists od :: od in db.orderDetails && od.productId == productId && ClientName(db, od) == Some(n)
  {
    var lines := Where(db.orderDetails, (od: OrderDetail) => od.productId == productId);
    Distinct(InnerJoin(lines, (od: OrderDetail) => ClientName(db, od)))
  }

  function ToOrderDto(o: Order): OrderDto { OrderDto(o.orderId, o.orderDate) }

  /** One `ClientOrdersDto`: a client with the id and date of each of its orders. */
  function ClientOrdersRow(db: Db, c: Client): (r: ClientOrdersDto)
    ensures r.clientId == c.clientId && r.clientName == c.name
    ensures |r.orders| == OrderCount(db.orders, c.clientId)
    ensures forall o :: o in db.orders && o.clientId == c.clientId ==> OrderDto(o.orderId, o.orderDate) in r.orders
    ensures forall d :: d in r.orders ==> exists o :: o in db.orders && o.clientId == c.clientId && d == ToOrderDto(o)
  {
    ClientOrdersDto(c.clientId, c.name, Select(OrdersOfClient(db.orders, c.clientId), ToOrderDto))
  }

  /** `GET clients-with-orders`: every client, in table order, with the list of its orders. */
  function GetClientsWithOrders(db: Db): (r: seq<ClientOrdersDto>)
    ensures |r| == |db.clients|
    ensures forall i :: 0 <= i < |r| ==> r[i] == ClientOrdersRow(db, db.clients[i])
  {
    Select(db.clients, (c: Client) => ClientOrdersRow(db, c))
  }

  /** `GET order-with-details/{orderId}`: the order with its lines, or not-found. */
  function GetOrderWithDetails(db: Db, orderId: int): (r: Option<OrderWithDetails>)
    ensures r.None? <==> forall o :: o in db.orders ==> o.orderId != orderId
    ensures r.Some? ==> r.value.orderId == orderId
    ensures r.Some? ==> exists o :: o in db.orders && o.orderId == orderId && o.orderDate == r.value.orderDate
    ensures r.Some? ==> |r.value.details| <= |DetailsOfOrder(db, orderId)|
    ensures r.Some? ==> forall d :: d in r.value.details <==>
      exists od :: od in db.orderDetails && od.orderId == orderId && DetailRow(db, od) == Some(d)
  {
    match GetById(db.orders, OrderKey, orderId)
    case None => None
    case Some(o) =>
      Some(OrderWithDetails(o.orderId, o.orderDate,
        InnerJoin(DetailsOfOrder(db, o.orderId), (od: OrderDetail) => DetailRow(db, od))))
  }

  /** Sum of the quantities in the orders of `clientId`. */
  function TotalProductsOf(db: Db, clientId: int): (r: int)
    ensures r == Sum(db.orderDetails, (od: OrderDetail) => if PlacedBy(db, od, clientId) then od.quantity else 0)
  {
    SumWhere(db.orderDetails, (od: OrderDetail) => PlacedBy(db, od, clientId), Quantity,
             (od: OrderDetail) => if PlacedBy(db, od, clientId) then od.quantity else 0);
    Sum(DetailsOfClient(db, clientId), Quantity)
  }

  function TotalProductsRow(db: Db, c: Client): ClientTotalProductsDto {
    ClientTotalProductsDto(c.clientId, c.name, TotalProductsOf(db, c.clientId))
  }

  /** `GET clients-total-products`: every client, in table order, with the total quantity it ordered. */
  function GetClientsTotalProducts(db: Db): (r: seq<ClientTotalProductsDto>)
    ensures |r| == |db.clients|
    ensures forall i :: 0 <= i < |r| ==>
      r[i].clientId == db.clients[i].clientId && r[i].clientName == db.clients[i].name &&
      r[i].totalProducts == TotalProductsOf(db, db.clients[i].clientId)
  {
    Select(db.clients, (c: Client) => TotalProductsRow(db, c))
  }

  /** Sum of quantity times unit price over the lines of the orders of `clientId`. */
  function SalesOf(db: Db, clientId: int): Cents {
    Sum(InnerJoin(DetailsOfClient(db, clientId), (od: OrderDetail) => LineTotal(db, od)), (x: int) => x)
  }

  function SalesRow(db: Db, c: Client): ClientSalesDto {
    ClientSalesDto(c.clientId, c.name, SalesOf(db, c.clientId))
  }

  /** `GET client-sales`: every client with its sales total, largest total first. */
  function GetClientSales(db: Db): (r: seq<ClientSalesDto>)
    ensures Descending(r, TotalSales)
    ensures multiset(r) == multiset(Select(db.clients, (c: Client) => SalesRow(db, c)))
    ensures |r| == |db.clients|
  {
    OrderByDescending(Select(db.clients, (c: Client) => SalesRow(db, c)), TotalSales)
  }
}
