/**
 * Properties of the endpoints that relate them to the tables and to each
 * other. Those that need exact one-row-per-line statements assume the schema
 * constraints (`WellFormed`): unique primary keys and foreign keys that
 * reference existing rows.
 */
module LinqControllerProperties {
  import opened Wrappers
  import opened Linq
  import opened Models
  import opened Dtos
  import opened LinqController

  /** In a well-formed database every navigation from an order line finds its row. */
  lemma LookupsResolve(db: Db, od: OrderDetail)
    requires WellFormed(db) && od in db.orderDetails
    ensures ProductOf(db, od).Some? && ProductOf(db, od).value in db.products
    ensures ProductOf(db, od).value.productId == od.productId
    ensures OrderOf(db, od).Some? && OrderOf(db, od).value in db.orders
    ensures OrderOf(db, od).value.orderId == od.orderId
    ensures ClientOf(db, OrderOf(db, od).value).Some?
  {
    var p :| p in db.products && p.productId == od.productId;
    assert ProductKey(p) == od.productId;
    var o :| o in db.orders && o.orderId == od.orderId;
    assert OrderKey(o) == od.orderId;
    assert OrderOf(db, od) == Some(o);
    var c :| c in db.clients && c.clientId == o.clientId;
    assert ClientKey(c) == o.clientId;
  }

  // ---------------------------------------------------------------------------
  // clients?name=

  /** Every client is found by every prefix of its own name, the empty one included. */
  lemma ClientFoundByEveryPrefix(db: Db, c: Client, k: nat)
    requires c in db.clients && k <= |c.name|
    ensures c in GetClientsByName(db, c.name[..k])
  {
    assert c.name[..k] <= c.name;
  }

  // ---------------------------------------------------------------------------
  // order-details and order-quantity

  /** With the schema constraints, `GetOrderDetails` has exactly one line per detail row of the
      order, in table order, named after the product the row references. */
  lemma OrderDetailsOneLinePerRow(db: Db, orderId: int)
    requires WellFormed(db)
    ensures |GetOrderDetails(db, orderId)| == |DetailsOfOrder(db, orderId)|
    ensures forall i :: 0 <= i < |DetailsOfOrder(db, orderId)| ==> ProductOf(db, DetailsOfOrder(db, orderId)[i]).Some?
    ensures forall i :: 0 <= i < |DetailsOfOrder(db, orderId)| ==>
      GetOrderDetails(db, orderId)[i] ==
        ProductQuantity(ProductOf(db, DetailsOfOrder(db, orderId)[i]).value.name, DetailsOfOrder(db, orderId)[i].quantity)
  {
    forall od | od in DetailsOfOrder(db, orderId) ensures DetailLine(db, od).Some? {
      LookupsResolve(db, od);
    }
  }

  function LineQuantity(l: ProductQuantity): int { l.quantity }

  /** The total quantity of an order is the sum of the quantities `GetOrderDetails` lists for it. */
  lemma OrderTotalIsSumOfListedLines(db: Db, orderId: int)
    requires WellFormed(db)
    ensures GetOrderTotalQuantity(db, orderId) == Sum(GetOrderDetails(db, orderId), LineQuantity)
  {
    var lines := DetailsOfOrder(db, orderId);
    forall od | od in lines ensures DetailLine(db, od).Some? && LineQuantity(DetailLine(db, od).value) == Quantity(od) {
      LookupsResolve(db, od);
    }
    SumInnerJoin(lines, (od: OrderDetail) => DetailLine(db, od), LineQuantity, Quantity);
  }

  /** An order without detail rows has total quantity 0. */
  lemma OrderTotalZeroWithoutLines(db: Db, orderId: int)
    requires forall od :: od in db.orderDetails ==> od.orderId != orderId
    ensures GetOrderTotalQuantity(db, orderId) == 0
  {
    SumOfZeros(db.orderDetails, (od: OrderDetail) => if od.orderId == orderId then od.quantity else 0);
  }

  /** Order totals are never negative when quantities are not. */
  lemma OrderTotalNonNegative(db: Db, orderId: int)
    requires NonNegativeAmounts(db)
    ensures GetOrderTotalQuantity(db, orderId) >= 0
  {
    SumAtLeast(db.orderDetails, (od: OrderDetail) => if od.orderId == orderId then od.quantity else 0, 0);
  }

  /** The total does not depend on the order in which the database returns the detail rows. */
  lemma OrderTotalIgnoresRowOrder(db1: Db, db2: Db, orderId: int)
    requires multiset(db1.orderDetails) == multiset(db2.orderDetails)
    ensures GetOrderTotalQuantity(db1, orderId) == GetOrderTotalQuantity(db2, orderId)
  {
    SumPermutation(db1.orderDetails, db2.orderDetails,
                   (od: OrderDetail) => if od.orderId == orderId then od.quantity else 0);
  }

  // ---------------------------------------------------------------------------
  // average-product-price

  lemma MeanBounds(total: int, n: int, lo: int, hi: int, mean: real)
    requires n > 0 && n * lo <= total <= n * hi && mean * (n as real) == total as real
    ensures lo as real <= mean <= hi as real
  {
    assert (mean - lo as real) * (n as real) >= 0.0;
    assert (hi as real - mean) * (n as real) >= 0.0;
  }

  /** The average lies between any lower and upper bound of all prices. */
  lemma AveragePriceWithinBounds(db: Db, lo: Cents, hi: Cents)
    requires db.products != []
    requires forall p :: p in db.products ==> lo <= p.price <= hi
    ensures GetAverageProductPrice(db).Success?
    ensures lo as real <= GetAverageProductPrice(db).value <= hi as real
  {
    SumAtLeast(db.products, Price, lo);
    SumAtMost(db.products, Price, hi);
    MeanBounds(Sum(db.products, Price), |db.products|, lo, hi, GetAverageProductPrice(db).value);
  }

  // ---------------------------------------------------------------------------
  // client-with-most-orders

  /** The internals of `GetClientWithMostOrders`: its groups, their maximum and the tied groups. */
  lemma MostOrdersUnfolds(db: Db) returns (groups: seq<ClientOrderCount>, m: nat, tied: seq<ClientOrderCount>)
    requires db.orders != []
    ensures groups == GroupByClient(db.orders)
    ensures tied == Where(groups, (g: ClientOrderCount) => g.count == m)
    ensures GetClientWithMostOrders(db) ==
      Success(MostOrders(m, Select(tied, (g: ClientOrderCount) => TopClient(GetById(db.clients, ClientKey, g.clientId), g.count))))
    ensures forall g :: g in groups ==> GroupCount(g) <= m
    ensures exists g :: g in groups && GroupCount(g) == m
  {
    groups := GroupByClient(db.orders);
    GroupsCountTheirClients(db.orders);
    m := Max(groups, GroupCount).value;
    tied := Where(groups, (g: ClientOrderCount) => g.count == m);
  }

  /** The largest group count is the largest order count of any client, and some client has it. */
  lemma MaxOfGroups(orders: seq<Order>, groups: seq<ClientOrderCount>, m: int)
    requires forall o :: o in orders ==> ClientOrderCount(o.clientId, OrderCount(orders, o.clientId)) in groups
    requires forall g :: g in groups ==> g.count == OrderCount(orders, g.clientId) && g.count > 0
    requires forall g :: g in groups ==> GroupCount(g) <= m
    requires exists g :: g in groups && GroupCount(g) == m
    ensures forall cid :: OrderCount(orders, cid) <= m
    ensures exists o :: o in orders && OrderCount(orders, o.clientId) == m
  {
    forall cid ensures OrderCount(orders, cid) <= m {
      if OrderCount(orders, cid) != 0 {
        var o :| o in orders && o.clientId == cid;
        assert GroupCount(ClientOrderCount(cid, OrderCount(orders, cid))) <= m;
      }
    }
    var g :| g in groups && GroupCount(g) == m;
    var o :| o in orders && o.clientId == g.clientId;
  }

  /** `MaxOrders` bounds every client's order count and is reached by a client that has orders. */
  lemma MaxOrdersIsTheMaximum(db: Db)
    requires db.orders != []
    ensures GetClientWithMostOrders(db).Success?
    ensures forall cid :: OrderCount(db.orders, cid) <= GetClientWithMostOrders(db).value.maxOrders
    ensures exists o :: o in db.orders && OrderCount(db.orders, o.clientId) == GetClientWithMostOrders(db).value.maxOrders
  {
    var groups, m, tied := MostOrdersUnfolds(db);
    GroupsCountTheirClients(db.orders);
    MaxOfGroups(db.orders, groups, m);
  }

  /** A group at count `m` is listed, looked up by its client id. */
  lemma TiedGroupIsListed(db: Db, groups: seq<ClientOrderCount>, m: int, g: ClientOrderCount)
    requires g in groups && g.count == m
    ensures TopClient(GetById(db.clients, ClientKey, g.clientId), m) in
      Select(Where(groups, (g: ClientOrderCount) => g.count == m),
             (g: ClientOrderCount) => TopClient(GetById(db.clients, ClientKey, g.clientId), g.count))
  {
    var tied := Where(groups, (g: ClientOrderCount) => g.count == m);
    assert g in tied;
    SelectHasImage(tied, (g: ClientOrderCount) => TopClient(GetById(db.clients, ClientKey, g.clientId), g.count), g);
  }

  /** Every listed entry is the lookup of a group at count `m`. */
  lemma ListedIsTiedGroup(db: Db, groups: seq<ClientOrderCount>, m: int, t: TopClient)
    requires t in Select(Where(groups, (g: ClientOrderCount) => g.count == m),
                         (g: ClientOrderCount) => TopClient(GetById(db.clients, ClientKey, g.clientId), g.count))
    ensures exists g :: g in groups && g.count == m && t == TopClient(GetById(db.clients, ClientKey, g.clientId), m)
  {
    var tied := Where(groups, (g: ClientOrderCount) => g.count == m);
    SelectImage(tied, (g: ClientOrderCount) => TopClient(GetById(db.clients, ClientKey, g.clientId), g.count), t);
  }

  /** Every client whose order count is the maximum is listed, looked up by its id. */
  lemma TiedClientIsListed(db: Db, o: Order)
    requires o in db.orders
    requires OrderCount(db.orders, o.clientId) == GetClientWithMostOrders(db).value.maxOrders
    ensures var m := GetClientWithMostOrders(db).value;
      TopClient(GetById(db.clients, ClientKey, o.clientId), m.maxOrders) in m.topClients
  {
    var groups, m, tied := MostOrdersUnfolds(db);
    GroupsCountTheirClients(db.orders);
    TiedGroupIsListed(db, groups, m, ClientOrderCount(o.clientId, m));
  }

  /** Every listed entry is the lookup of a client whose order count is the maximum. */
  lemma ListedClientIsTied(db: Db, t: TopClient)
    requires db.orders != []
    requires t in GetClientWithMostOrders(db).value.topClients
    ensures exists o ::
      && o in db.orders
      && OrderCount(db.orders, o.clientId) == GetClientWithMostOrders(db).value.maxOrders
      && t.client == GetById(db.clients, ClientKey, o.clientId)
  {
    var groups, m, tied := MostOrdersUnfolds(db);
    ListedIsTiedGroup(db, groups, m, t);
    var g :| g in groups && g.count == m && t == TopClient(GetById(db.clients, ClientKey, g.clientId), m);
    GroupsCountTheirClients(db.orders);
    var o :| o in db.orders && o.clientId == g.clientId;
  }

  /** In a well-formed database every client id that has orders resolves to its client. */
  lemma OrderingClientResolves(db: Db, cid: int)
    requires WellFormed(db) && OrderCount(db.orders, cid) > 0
    ensures GetById(db.clients, ClientKey, cid).Some?
    ensures GetById(db.clients, ClientKey, cid).value in db.clients
    ensures GetById(db.clients, ClientKey, cid).value.clientId == cid
  {
    var o :| o in db.orders && o.clientId == cid;
    var c :| c in db.clients && c.clientId == o.clientId;
    assert ClientKey(c) == cid;
  }

  /** With the schema constraints, every listed entry is a client of the table at the maximum. */
  lemma ListedEntryIsTiedClient(db: Db, t: TopClient)
    requires WellFormed(db) && db.orders != []
    requires t in GetClientWithMostOrders(db).value.topClients
    ensures t.client.Some? && t.client.value in db.clients
    ensures OrderCount(db.orders, t.client.value.clientId) == GetClientWithMostOrders(db).value.maxOrders
  {
    ListedClientIsTied(db, t);
    var o :| o in db.orders && OrderCount(db.orders, o.clientId) == GetClientWithMostOrders(db).value.maxOrders &&
      t.client == GetById(db.clients, ClientKey, o.clientId);
    OrderingClientResolves(db, o.clientId);
  }

  /** Some client has placed the largest number of orders, so that number is positive. */
  lemma MaxOrdersPositive(db: Db)
    requires db.orders != []
    ensures GetClientWithMostOrders(db).value.maxOrders > 0
  {
    MaxOrdersIsTheMaximum(db);
    var o :| o in db.orders && OrderCount(db.orders, o.clientId) == GetClientWithMostOrders(db).value.maxOrders;
  }

  /** With the schema constraints, every client of the table at the maximum is listed. */
  lemma TiedClientIsListedUnderWellFormed(db: Db, c: Client)
    requires WellFormed(db) && db.orders != [] && c in db.clients
    requires OrderCount(db.orders, c.clientId) == GetClientWithMostOrders(db).value.maxOrders
    ensures TopClient(Some(c), GetClientWithMostOrders(db).value.maxOrders) in GetClientWithMostOrders(db).value.topClients
  {
    MaxOrdersPositive(db);
    var o :| o in db.orders && o.clientId == c.clientId;
    TiedClientIsListed(db, o);
    assert ClientKey(c) == o.clientId;
  }

  /** Groups with distinct client ids are distinct groups. */
  lemma GroupsDuplicateFree(groups: seq<ClientOrderCount>)
    requires DistinctClientIds(groups)
    ensures NoDuplicates(groups)
  {
    forall i, j | 0 <= i < j < |groups| ensures groups[i] != groups[j] {
      assert groups[i].clientId != groups[j].clientId;
    }
  }

  /** Looking up the clients of groups that have orders tells different groups apart. */
  lemma TopClientLookupInjective(db: Db, tied: seq<ClientOrderCount>)
    requires WellFormed(db)
    requires forall g :: g in tied ==> OrderCount(db.orders, g.clientId) > 0
    ensures forall g1, g2 ::
      (g1 in tied && g2 in tied &&
       TopClient(GetById(db.clients, ClientKey, g1.clientId), g1.count) ==
       TopClient(GetById(db.clients, ClientKey, g2.clientId), g2.count)) ==> g1 == g2
  {
    forall g1, g2 | g1 in tied && g2 in tied &&
      TopClient(GetById(db.clients, ClientKey, g1.clientId), g1.count) ==
      TopClient(GetById(db.clients, ClientKey, g2.clientId), g2.count)
      ensures g1 == g2
    {
      OrderingClientResolves(db, g1.clientId);
      OrderingClientResolves(db, g2.clientId);
    }
  }

  /** Groups of clients that have orders, filtered by a count and looked up, stay distinct. */
  lemma TiedLookupsDuplicateFree(db: Db, groups: seq<ClientOrderCount>, m: int)
    requires WellFormed(db) && DistinctClientIds(groups)
    requires forall g :: g in groups ==> OrderCount(db.orders, g.clientId) > 0
    ensures NoDuplicates(Select(Where(groups, (g: ClientOrderCount) => g.count == m),
      (g: ClientOrderCount) => TopClient(GetById(db.clients, ClientKey, g.clientId), g.count)))
  {
    var tied := Where(groups, (g: ClientOrderCount) => g.count == m);
    GroupsDuplicateFree(groups);
    WhereNoDuplicates(groups, (g: ClientOrderCount) => g.count == m);
    TopClientLookupInjective(db, tied);
    SelectNoDuplicates(tied, (g: ClientOrderCount) => TopClient(GetById(db.clients, ClientKey, g.clientId), g.count));
  }

  /** With the schema constraints, no client is listed twice. */
  lemma TopClientsDuplicateFree(db: Db)
    requires WellFormed(db) && db.orders != []
    ensures NoDuplicates(GetClientWithMostOrders(db).value.topClients)
  {
    var groups, m, tied := MostOrdersUnfolds(db);
    GroupsCountTheirClients(db.orders);
    TiedLookupsDuplicateFree(db, groups, m);
  }

  /** With the schema constraints, `TopClients` lists exactly the clients at the maximum, each once:
      there are as many entries as such clients. */
  lemma TopClientsAreExactlyTheTiedClients(db: Db)
    requires WellFormed(db) && db.orders != []
    ensures var m := GetClientWithMostOrders(db).value;
      && NoDuplicates(m.topClients)
      && (forall t :: t in m.topClients ==>
            t.client.Some? && t.client.value in db.clients && OrderCount(db.orders, t.client.value.clientId) == m.maxOrders)
      && (forall c :: c in db.clients && OrderCount(db.orders, c.clientId) == m.maxOrders ==>
            TopClient(Some(c), m.maxOrders) in m.topClients)
      && |m.topClients| == |Where(db.clients, (c: Client) => OrderCount(db.orders, c.clientId) == m.maxOrders)|
  {
    var m := GetClientWithMostOrders(db).value;
    forall t | t in m.topClients
      ensures t.client.Some? && t.client.value in db.clients && OrderCount(db.orders, t.client.value.clientId) == m.maxOrders
    {
      ListedEntryIsTiedClient(db, t);
    }
    forall c | c in db.clients && OrderCount(db.orders, c.clientId) == m.maxOrders
      ensures TopClient(Some(c), m.maxOrders) in m.topClients
    {
      TiedClientIsListedUnderWellFormed(db, c);
    }
    TopClientsDuplicateFree(db);
    var tiedClients := Where(db.clients, (c: Client) => OrderCount(db.orders, c.clientId) == m.maxOrders);
    assert NoDuplicates(db.clients) by {
      forall i, j | 0 <= i < j < |db.clients| ensures db.clients[i] != db.clients[j] {
        assert ClientKey(db.clients[i]) != ClientKey(db.clients[j]);
      }
    }
    WhereNoDuplicates(db.clients, (c: Client) => OrderCount(db.orders, c.clientId) == m.maxOrders);
    var mk := (c: Client) => TopClient(Some(c), m.maxOrders);
    SelectNoDuplicates(tiedClients, mk);
    var expected := Select(tiedClients, mk);
    forall x ensures x in m.topClients <==> x in expected {
      if x in m.topClients {
        assert x.client.value in tiedClients;
        assert x == mk(x.client.value);
      }
      if x in expected {
        SelectImage(tiedClients, mk, x);
      }
    }
    SameElementsSameLength(m.topClients, expected);
  }
}
