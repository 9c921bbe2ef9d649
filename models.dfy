/**
 * The four entities of the schema and the generic repository lookup.
 * Navigation references (`Order.Client`, `OrderDetail.Product`, ...) are
 * replaced by the foreign-key fields they are mapped from; following one is a
 * key lookup in the referenced table.
 */
module Models {
  import opened Wrappers
  import opened Linq

  /** A `DateTime`, as a tick count. */
  type Ticks = int

  /** A `decimal` amount, as an exact number of hundredths. */
  type Cents = int

  datatype Client = Client(clientId: int, name: string, email: string)

  /** `description` is the nullable `string?` column. */
  datatype Product = Product(productId: int, name: string, description: Option<string>, price: Cents)

  datatype Order = Order(orderId: int, clientId: int, orderDate: Ticks)

  datatype OrderDetail = OrderDetail(orderDetailId: int, orderId: int, productId: int, quantity: int)

  /** The database state a request sees: one table per entity. */
  datatype Db = Db(clients: seq<Client>, products: seq<Product>, orders: seq<Order>, orderDetails: seq<OrderDetail>)

  function ClientKey(c: Client): int { c.clientId }
  function ProductKey(p: Product): int { p.productId }
  function OrderKey(o: Order): int { o.orderId }
  function OrderDetailKey(od: OrderDetail): int { od.orderDetailId }

  /** `key` is a primary key of `table`: no two rows share it. */
  ghost predicate UniqueKeys<T>(table: seq<T>, key: T -> int) {
    forall i, j :: 0 <= i < j < |table| ==> key(table[i]) != key(table[j])
  }

  /** `IRepository<T>.GetById`: the row whose key is `id`, or `None` when there is none. */
  function GetById<T(!new)>(table: seq<T>, key: T -> int, id: int): (r: Option<T>)
    ensures r.None? <==> forall x :: x in table ==> key(x) != id
    ensures r.Some? ==> r.value in table && key(r.value) == id
    ensures UniqueKeys(table, key) ==> forall x :: x in table && key(x) == id ==> r == Some(x)
  {
    var r := First(table, x => key(x) == id);
    assert UniqueKeys(table, key) ==> forall x :: x in table && key(x) == id ==> r == Some(x) by {
      if UniqueKeys(table, key) {
        forall x | x in table && key(x) == id ensures r == Some(x) {
          var i :| 0 <= i < |table| && table[i] == x;
          var j :| 0 <= j < |table| && table[j] == r.value;
          assert i == j;
        }
      }
    }
    r
  }

  /** Summing over a table a function that is 0 off the row with key `id` gives its value at
      the row `GetById` finds, or 0 when there is none. */
  lemma {:induction false} SumAtKey<T(!new)>(table: seq<T>, key: T -> int, id: int, f: T -> int)
    requires UniqueKeys(table, key)
    requires forall x :: x in table && key(x) != id ==> f(x) == 0
    ensures Sum(table, f) == match GetById(table, key, id) case Some(x) => f(x) case None => 0
  {
    if table != [] {
      var t := table[1..];
      assert forall x :: x in t ==> x in table;
      if key(table[0]) == id {
        assert GetById(table, key, id) == Some(table[0]);
        forall x | x in t ensures f(x) == 0 {
          var j :| 0 <= j < |t| && t[j] == x;
          assert table[j + 1] == x;
        }
        SumOfZeros(t, f);
      } else {
        assert UniqueKeys(t, key) by {
          forall i, j | 0 <= i < j < |t| ensures key(t[i]) != key(t[j]) {
            assert t[i] == table[i + 1] && t[j] == table[j + 1];
          }
        }
        SumAtKey(t, key, id, f);
      }
    }
  }

  /** The constraints the database schema enforces: primary keys are unique and
      every foreign key references an existing row. */
  ghost predicate WellFormed(db: Db) {
    && UniqueKeys(db.clients, ClientKey)
    && UniqueKeys(db.products, ProductKey)
    && UniqueKeys(db.orders, OrderKey)
    && UniqueKeys(db.orderDetails, OrderDetailKey)
    && (forall o :: o in db.orders ==> exists c :: c in db.clients && c.clientId == o.clientId)
    && (forall od :: od in db.orderDetails ==> exists o :: o in db.orders && o.orderId == od.orderId)
    && (forall od :: od in db.orderDetails ==> exists p :: p in db.products && p.productId == od.productId)
  }

  /** Quantities and prices are not negative. */
  ghost predicate NonNegativeAmounts(db: Db) {
    && (forall od :: od in db.orderDetails ==> od.quantity >= 0)
    && (forall p :: p in db.products ==> p.price >= 0)
  }

  /** `OrderDetail.Product`. */
  function ProductOf(db: Db, od: OrderDetail): Option<Product> {
    GetById(db.products, ProductKey, od.productId)
  }

  /** `OrderDetail.Order`. */
  function OrderOf(db: Db, od: OrderDetail): Option<Order> {
    GetById(db.orders, OrderKey, od.orderId)
  }

  /** `Order.Client`. */
  function ClientOf(db: Db, o: Order): Option<Client> {
    GetById(db.clients, ClientKey, o.clientId)
  }
}
