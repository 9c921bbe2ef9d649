# LINQ query endpoints of the orders API, in Dafny

This project models the read-only query layer of an ASP.NET Core orders API. That layer is
`LinqController`, mounted under `api/linq`. The API has four tables:

- clients;
- products;
- orders;
- order lines (`OrderDetail`).

Each endpoint runs a LINQ query over those tables and returns the result. The exception is
`client-with-most-orders`. It materialises the per-client groups with `ToList()`, then runs `Max`,
`Where` and `Select` over them in memory, calling the repository's `GetById` once per tied group.

The model treats a request as a pure function of two things: the request parameters and a database
state `Db`. `Db` holds one sequence per table. The LINQ operators the queries use are Dafny
functions over sequences (module `Linq`). Each of these carries a contract:

- `Where`, `Select`, `SelectMany`;
- `Distinct`, `Max`;
- `FirstOrDefault`, `OrderByDescending`;
- the inner join that following a navigation property produces.

`Sum` has no contract of its own. It is a plain recursive reference definition, and its facts are
lemmas beside it (`SumAppend`, `SumPermutation`, `SumWhere`, `SumAtLeast`, ...).

Three operators are not in `Linq`. They are written out in `LinqController` for the one query that
uses them:

- `GroupBy(o => o.ClientId)` is `LinqController.GroupByClient`. It has no contract;
  `LinqController.GroupsCountTheirClients` states what the groups are.
- `g.Count()` is `LinqController.OrderCount`.
- `Average` is computed inside `LinqController.GetAverageProductPrice`.

Navigation properties are not stored. There are two kinds:

- A reference navigation (`od.Product`, `od.Order`, `o.Client`) is a key lookup in the referenced
  table (`Models.GetById`). A line whose referenced row is missing drops out of the result, as with
  the SQL inner join Entity Framework emits.
- A collection navigation (`c.Orders`, `o.OrderDetails`) is a `Where` filter on the foreign key
  (`LinqController.OrdersOfClient`, `LinqController.DetailsOfOrder`). Nothing drops out of it.

Properties without a `requires` hold for every database state. The others assume one of three
conditions, and say so in their `requires`:

- `Models.WellFormed`: unique primary keys, and foreign keys that reference existing rows. The
  exact one-row-per-line statements need it.
- `Models.UniqueKeys` on the order, client or product table alone. `ClientTotalIsSumOfOrderTotals`,
  `OrderWithDetailsShape`, `ClientLinesAgree`, `ProductsByClientRelational` and
  `ClientsByProductRelational` assume only this.
- `Models.NonNegativeAmounts`: no negative quantity or price. The schema does not enforce this,
  and the non-negativity lemmas for totals and sales need it. Without it a single line of
  quantity -3 gives an order total of -3.

Modules and files:

| file | module | contents |
|---|---|---|
| `wrappers.dfy` | `Wrappers` | `Option`, `Result`, and the `InvalidOperation` error that `Max`/`Average` throw on an empty source |
| `linq.dfy` | `Linq` | the LINQ operators and lemmas about `Sum`: append, permutation, filtering, bounds, double sums, joins |
| `models.dfy` | `Models` | the four entities, `Db`, `GetById`, the schema constraints, the navigations |
| `dtos.dfy` | `Dtos` | the response records: the named DTOs and the anonymous types the endpoints build |
| `linq_controller.dfy` | `LinqController` | the sixteen endpoints |
| `controller_properties.dfy` | `LinqControllerProperties` | properties of the per-order, average and most-orders endpoints |
| `query_properties.dfy` | `QueryProperties` | relational properties of the join endpoints |
| `totals_properties.dfy` | `TotalsProperties` | properties of the per-client totals and sales |
| `scenario.dfy` | `Scenario` | a one-client database and the response each of the sixteen endpoints gives for it |

There are two versions of the controller:

- `src/Presentation/Controllers/LinqController.cs` has sixteen endpoints.
- `Controllers/LinqController.cs` is the earlier version. Its twelve endpoints (lines 26-137) are
  the same queries, in the same order, as lines 31-142 of the newer file.

One function per endpoint models both versions. In the table below, the endpoint rows cite the
newer file. Most property rows about the twelve shared queries cite the older file instead.

Representation choices:

- `DateTime` is a tick count, `int`.
- `decimal` prices and sales are cents, `int`, so they are exact.
- `Average` returns an exact `real`.
- `Cents`, `Ticks` and the `int` columns are unbounded integers.

## Model

| member | source | states |
|---|---|---|
| `Models.GetById` | Repositories/IRepository.cs:8 | `GetById` finds nothing exactly when no row has the key; otherwise it finds a row of the table with that key, the only one when keys are unique |
| `Models.WellFormed` | Data/Models.cs:3-37 | no contract of its own: the constraints the schema enforces, namely unique `ClientId`, `ProductId`, `OrderId` and `OrderDetailId`, and every `ClientId`, `OrderId` and `ProductId` foreign key referencing an existing row; used as a `requires` and turned into lookups by `LinqControllerProperties.LookupsResolve` |
| `Models.NonNegativeAmounts` | Data/Models.cs:16-34 | no contract of its own: every `Quantity` and `Price` is at least 0, which the schema does not enforce; `Scenario.NegativeQuantityTotal` shows a negative total without it |
| `Models.ProductOf` | Data/Models.cs:36 | no contract of its own: `OrderDetail.Product` is the `GetById` lookup of `ProductId` in the product table, `None` when no row has it; `LinqControllerProperties.LookupsResolve` states that it succeeds with the referenced row under `WellFormed` |
| `Models.OrderOf` | Data/Models.cs:35 | no contract of its own: `OrderDetail.Order` is the `GetById` lookup of `OrderId` in the order table; `LookupsResolve` states that it succeeds under `WellFormed` |
| `Models.ClientOf` | Data/Models.cs:25 | no contract of its own: `Order.Client` is the `GetById` lookup of `ClientId` in the client table; `LookupsResolve` and `OrderingClientResolves` state that it succeeds under `WellFormed` |
| `Models.SumAtKey` | Repositories/IRepository.cs:8 | with unique keys, summing a function that is 0 off key `id` gives its value at the row `GetById` finds (0 when there is none) |
| `Linq.Where` | src/Presentation/Controllers/LinqController.cs:35 | `Where` keeps each element that satisfies the predicate with its multiplicity, drops the rest, and never lengthens the sequence |
| `Linq.Select` | src/Presentation/Controllers/LinqController.cs:100 | `Select` keeps the length and maps element `i` to `f` of element `i` |
| `Linq.SelectHasImage` | src/Presentation/Controllers/LinqController.cs:105-109 | the image of every element is in a `Select` |
| `Linq.SelectImage` | src/Presentation/Controllers/LinqController.cs:105-109 | every element of a `Select` is the image of an element of the source |
| `Linq.SelectMany` | src/Presentation/Controllers/LinqController.cs:127 | `SelectMany` contains `y` exactly when some source element's sequence contains `y` |
| `Linq.InnerJoin` | src/Presentation/Controllers/LinqController.cs:118 | following a navigation keeps exactly the targets some element reaches, never lengthens the sequence, and maps element `i` to its target when every lookup succeeds |
| `Linq.Distinct` | src/Presentation/Controllers/LinqController.cs:129 | `Distinct` has no duplicates, the same elements as its source, and is no longer |
| `Linq.First` | src/Presentation/Controllers/LinqController.cs:168-180 | `FirstOrDefault` finds nothing exactly when no element matches; otherwise it finds a matching element of the source |
| `Linq.Max` | src/Presentation/Controllers/LinqController.cs:102 | `Max` throws exactly on an empty source; otherwise it bounds every element's key and some element reaches it |
| `Linq.InsertDescending` | src/Presentation/Controllers/LinqController.cs:212 | inserting into a descending sequence keeps it descending and adds exactly the one element |
| `Linq.HeadDominates` | src/Presentation/Controllers/LinqController.cs:212 | a head larger than an inserted element stays in front of the sorted tail |
| `Linq.OrderByDescending` | src/Presentation/Controllers/LinqController.cs:68 | `OrderByDescending` is a descending permutation of its source |
| `Linq.HeadIsLargest` | src/Presentation/Controllers/LinqController.cs:68-69 | the first element of a descending sequence has the largest key |
| `Linq.Sum` | src/Presentation/Controllers/LinqController.cs:61 | no contract of its own: the reference definition of `Sum`, 0 for an empty sequence; `SumAppend`, `SumPermutation`, `SumWhere`, `SumOfZeros`, `SumAtLeast` and `SumAtMost` state its properties |
| `Linq.SumAppend` | src/Presentation/Controllers/LinqController.cs:61 | the sum of a concatenation is the sum of the sums |
| `Linq.SumRemove` | src/Presentation/Controllers/LinqController.cs:61 | a sum is one element's term plus the sum of the others |
| `Linq.MultisetRemoveMatching` | src/Presentation/Controllers/LinqController.cs:61 | removing matching elements from two permutations of each other leaves permutations |
| `Linq.SumPermutation` | src/Presentation/Controllers/LinqController.cs:61 | a sum does not depend on the order of its terms |
| `Linq.SumWhere` | src/Presentation/Controllers/LinqController.cs:60-61 | summing a filtered sequence is summing the whole with the filtered-out terms as 0 |
| `Linq.SumOfZeros` | src/Presentation/Controllers/LinqController.cs:61 | a sum of zero terms is 0 |
| `Linq.SumAtLeast` | src/Presentation/Controllers/LinqController.cs:84 | a sum of terms at least `lo` is at least the length times `lo` |
| `Linq.SumAtMost` | src/Presentation/Controllers/LinqController.cs:84 | a sum of terms at most `hi` is at most the length times `hi` |
| `Linq.SumSwap` | src/Presentation/Controllers/LinqController.cs:192-194 | a double sum over orders and lines can be taken row-first or column-first |
| `Linq.SumColsSplitsFirstRow` | src/Presentation/Controllers/LinqController.cs:192-194 | the column-first double sum splits off the first row |
| `Linq.SumIsRow` | src/Presentation/Controllers/LinqController.cs:192-194 | a sum equal to the cells of a row pointwise is the row sum |
| `Linq.SumIsCol` | src/Presentation/Controllers/LinqController.cs:192-194 | a sum equal to the cells of a column pointwise is the column sum |
| `Linq.SumIsRows` | src/Presentation/Controllers/LinqController.cs:192-194 | a sum of row sums is the row-first double sum |
| `Linq.SumIsCols` | src/Presentation/Controllers/LinqController.cs:192-194 | a sum of column sums is the column-first double sum |
| `Linq.SumInnerJoin` | src/Presentation/Controllers/LinqController.cs:50-61 | when every lookup succeeds, summing the joined rows is summing the source rows |
| `Linq.SumInnerJoinOrZero` | src/Presentation/Controllers/LinqController.cs:208-210 | summing joined rows counts each failed lookup as 0 |
| `Linq.WhereInnerJoin` | src/Presentation/Controllers/LinqController.cs:168-178 | filtering joined rows is joining the filtered rows |
| `Linq.WhereNoDuplicates` | src/Presentation/Controllers/LinqController.cs:103-104 | filtering keeps a sequence duplicate-free |
| `Linq.SelectNoDuplicates` | src/Presentation/Controllers/LinqController.cs:105-109 | an injective `Select` keeps a sequence duplicate-free |
| `Linq.NoDuplicatesCardinality` | src/Presentation/Controllers/LinqController.cs:103-110 | a duplicate-free sequence has as many elements as its set |
| `Linq.SameElementsSameLength` | src/Presentation/Controllers/LinqController.cs:103-110 | two duplicate-free sequences with the same elements have the same length |
| `LinqController.OrdersOfClient` | src/Presentation/Controllers/LinqController.cs:152 | `Client.Orders` holds exactly the orders whose `ClientId` is the client's |
| `LinqController.OrderCount` | src/Presentation/Controllers/LinqController.cs:99-100 | a client's order count is 0 exactly when it placed no order |
| `LinqController.DetailsOfOrder` | src/Presentation/Controllers/LinqController.cs:51 | `Order.OrderDetails` holds exactly the lines whose `OrderId` is the order's |
| `LinqController.PlacedBy` | src/Presentation/Controllers/LinqController.cs:193 | no contract of its own: `od.Order.ClientId == clientId`, which is false when the line's order row is missing, as the inner join behind `od.Order` drops that line; `QueryProperties.LineOfClientOrder` relates it to the client's orders |
| `LinqController.DetailsOfClient` | src/Presentation/Controllers/LinqController.cs:193 | the lines kept are exactly those whose order exists and was placed by the client |
| `LinqController.ProductName` | src/Presentation/Controllers/LinqController.cs:128 | no contract of its own: `od.Product.Name`, or nothing when the product row is missing; `QueryProperties.ProductsByClientRelational` characterises the names it yields |
| `LinqController.ClientName` | src/Presentation/Controllers/LinqController.cs:138 | no contract of its own: `od.Order.Client.Name`, or nothing when either row is missing; `QueryProperties.ClientsByProductRelational` characterises the names it yields |
| `LinqController.DetailLine` | src/Presentation/Controllers/LinqController.cs:52 | no contract of its own: the `{ ProductName, Quantity }` projection of a line, or nothing when its product row is missing; `LinqControllerProperties.OrderDetailsOneLinePerRow` states the rows it yields |
| `LinqController.DetailRow` | src/Presentation/Controllers/LinqController.cs:173-178 | no contract of its own: the `OrderDetailsDto` projection of a line, also at line 118; `QueryProperties.AllOrdersDetailsOneRowPerLine` and `QueryProperties.OrderLinesResolve` state the rows it yields |
| `LinqController.LineTotal` | src/Presentation/Controllers/LinqController.cs:210 | no contract of its own: `od.Quantity * od.Product.Price`, or nothing when the product row is missing; `TotalsProperties.LineTotalNonNegative` and `TotalsProperties.LineAmountUsesProductPrice` (about `LineAmount`, which is `LineTotal` with 0 for a missing product) state its value |
| `LinqController.IsNullOrEmpty` | src/Presentation/Controllers/LinqController.cs:91 | no contract of its own: `string.IsNullOrEmpty` on the nullable description; `GetProductsWithoutDescription` states the products it keeps |
| `LinqController.GetClientsByName` | src/Presentation/Controllers/LinqController.cs:31-38 | the clients listed are exactly those whose name starts with `name`, each as often as in the table |
| `LinqController.GetProductsByPrice` | src/Presentation/Controllers/LinqController.cs:39-46 | the products listed are exactly those priced strictly above `price`, each as often as in the table |
| `LinqController.GetOrderDetails` | src/Presentation/Controllers/LinqController.cs:47-55 | each listed line is the name and quantity of a line of the order, and every such line whose product exists is listed |
| `LinqController.GetOrderTotalQuantity` | src/Presentation/Controllers/LinqController.cs:56-63 | the total is the sum over all lines of the quantity of those in the order, 0 for the rest |
| `LinqController.GetMostExpensiveProduct` | src/Presentation/Controllers/LinqController.cs:64-71 | null exactly for an empty table; otherwise a product of the table priced at least as high as every other |
| `LinqController.GetOrdersAfterDate` | src/Presentation/Controllers/LinqController.cs:72-79 | the orders listed are exactly those placed strictly after `date`, each as often as in the table |
| `LinqController.GetAverageProductPrice` | src/Presentation/Controllers/LinqController.cs:80-86 | throws exactly on an empty table; otherwise the mean times the count is the sum of the prices |
| `LinqController.GetProductsWithoutDescription` | src/Presentation/Controllers/LinqController.cs:87-94 | the products listed are exactly those with a null or empty description, each as often as in the table |
| `LinqController.ClientIds` | src/Presentation/Controllers/LinqController.cs:99 | the group keys are duplicate-free, are exactly the client ids that occur in orders, and are empty only for no orders |
| `LinqController.GroupByClient` | src/Presentation/Controllers/LinqController.cs:98-100 | no contract of its own: one `{ ClientId, Count }` per distinct client id, in order of first occurrence; `LinqController.GroupsCountTheirClients` states what the groups are |
| `LinqController.GroupsCountTheirClients` | src/Presentation/Controllers/LinqController.cs:98-101 | one group per client with orders, with no client id twice; each group carries its client's positive order count; empty exactly for no orders |
| `LinqController.GroupsOfKeys` | src/Presentation/Controllers/LinqController.cs:98-101 | counting the orders of each of the distinct keys gives the groups as they are described above |
| `LinqController.GetClientWithMostOrders` | src/Presentation/Controllers/LinqController.cs:95-113 | throws exactly when there are no orders (`Max` of no groups); every listed client carries the maximum count |
| `LinqController.TopsKeepTheirCount` | src/Presentation/Controllers/LinqController.cs:103-110 | the entries built from groups at count `m` all have count `m` |
| `LinqController.GetAllOrdersDetails` | src/Presentation/Controllers/LinqController.cs:114-121 | each row is the order id, product name and quantity of a line, every line whose product exists has its row, and no extra rows appear |
| `LinqController.LinesOfClientOrders` | src/Presentation/Controllers/LinqController.cs:125-127 | the lines reached are exactly those belonging to some order of the client |
| `LinqController.GetProductsByClient` | src/Presentation/Controllers/LinqController.cs:122-132 | the names are duplicate-free and are exactly the product names of the lines of the client's orders |
| `LinqController.GetClientsByProduct` | src/Presentation/Controllers/LinqController.cs:133-142 | the names are duplicate-free and are exactly the names of the clients whose orders have a line for the product |
| `LinqController.ToOrderDto` | src/Presentation/Controllers/LinqController.cs:152-156 | no contract of its own: the `OrderDto` projection; `LinqController.ClientOrdersRow` states which orders it is applied to |
| `LinqController.ClientOrdersRow` | src/Presentation/Controllers/LinqController.cs:148-157 | a client's row carries its id and name and lists the id and date of each of its orders, one entry per order |
| `LinqController.GetClientsWithOrders` | src/Presentation/Controllers/LinqController.cs:143-160 | one row per client, in table order, with that client's orders |
| `LinqController.GetOrderWithDetails` | src/Presentation/Controllers/LinqController.cs:161-182 | not-found exactly when no order has the id; otherwise the id and date of such an order, and each line of the order shown with its product's name |
| `LinqController.TotalProductsOf` | src/Presentation/Controllers/LinqController.cs:192-194 | a client's total is the sum over all lines of the quantity of those placed by the client |
| `LinqController.TotalProductsRow` | src/Presentation/Controllers/LinqController.cs:188-195 | no contract of its own: the `ClientTotalProductsDto` of a client; `LinqController.GetClientsTotalProducts` states its fields |
| `LinqController.GetClientsTotalProducts` | src/Presentation/Controllers/LinqController.cs:183-198 | one row per client, in table order, with its id, name and total quantity |
| `LinqController.SalesOf` | src/Presentation/Controllers/LinqController.cs:208-210 | no contract of its own: the sum of `LineTotal` over the client's lines; `TotalsProperties.SalesIsSumOfLineAmounts` states that it is the sum over all lines of quantity times price for those placed by the client |
| `LinqController.SalesRow` | src/Presentation/Controllers/LinqController.cs:204-211 | no contract of its own: the `ClientSalesDto` of a client with its id, name and `SalesOf` total; `TotalsProperties.ClientSalesListsEveryClient` states that `client-sales` lists exactly these rows |
| `LinqController.GetClientSales` | src/Presentation/Controllers/LinqController.cs:199-215 | a permutation of the per-client sales rows, one per client, sorted by descending sales |
| `LinqControllerProperties.LookupsResolve` | src/Presentation/Controllers/LinqController.cs:52 | under the schema constraints, a line's product, order and client are found, and are the referenced rows |
| `LinqControllerProperties.ClientFoundByEveryPrefix` | Controllers/LinqController.cs:29-31 | every client is listed for every prefix of its own name, the empty prefix included |
| `LinqControllerProperties.OrderDetailsOneLinePerRow` | Controllers/LinqController.cs:45-48 | under the schema constraints, one line per line of the order, in table order, with its product's name and its quantity |
| `LinqControllerProperties.OrderTotalIsSumOfListedLines` | Controllers/LinqController.cs:45-56 | under the schema constraints, the `order-quantity` total is the sum of the quantities `order-details` lists |
| `LinqControllerProperties.OrderTotalZeroWithoutLines` | Controllers/LinqController.cs:54-56 | an order without lines has total 0 |
| `LinqControllerProperties.OrderTotalNonNegative` | Controllers/LinqController.cs:54-56 | with non-negative quantities, an order total is non-negative |
| `LinqControllerProperties.OrderTotalIgnoresRowOrder` | Controllers/LinqController.cs:54-56 | the total does not depend on the order in which the lines come back |
| `LinqControllerProperties.MeanBounds` | Controllers/LinqController.cs:78-79 | a mean of terms between `lo` and `hi` lies between them |
| `LinqControllerProperties.AveragePriceWithinBounds` | Controllers/LinqController.cs:78-79 | the average price lies between any lower and upper bound of all prices |
| `LinqControllerProperties.MostOrdersUnfolds` | Controllers/LinqController.cs:93-107 | with orders present, the response is built from the groups, their maximum, and the groups tied at it |
| `LinqControllerProperties.MaxOfGroups` | Controllers/LinqController.cs:97 | the largest group count bounds every client's order count, and some ordering client reaches it |
| `LinqControllerProperties.MaxOrdersIsTheMaximum` | Controllers/LinqController.cs:93-97 | `MaxOrders` bounds every client's order count, and some client with orders reaches it |
| `LinqControllerProperties.TiedGroupIsListed` | Controllers/LinqController.cs:98-105 | a group at the maximum is listed, looked up by its client id |
| `LinqControllerProperties.ListedIsTiedGroup` | Controllers/LinqController.cs:98-105 | every listed entry comes from a group at the maximum |
| `LinqControllerProperties.TiedClientIsListed` | Controllers/LinqController.cs:93-105 | every client id whose order count is the maximum is listed, looked up by id |
| `LinqControllerProperties.ListedClientIsTied` | Controllers/LinqController.cs:93-105 | every listed entry is the lookup of a client id whose order count is the maximum |
| `LinqControllerProperties.OrderingClientResolves` | Controllers/LinqController.cs:102 | under the schema constraints, `GetById` finds the client of every client id that has orders |
| `LinqControllerProperties.ListedEntryIsTiedClient` | Controllers/LinqController.cs:98-105 | under the schema constraints, every listed client exists and has the maximum order count |
| `LinqControllerProperties.MaxOrdersPositive` | Controllers/LinqController.cs:97 | with orders present, `MaxOrders` is positive |
| `LinqControllerProperties.TiedClientIsListedUnderWellFormed` | Controllers/LinqController.cs:98-105 | under the schema constraints, every client with the maximum order count is listed |
| `LinqControllerProperties.GroupsDuplicateFree` | Controllers/LinqController.cs:94-95 | groups with distinct keys are distinct |
| `LinqControllerProperties.TopClientLookupInjective` | Controllers/LinqController.cs:100-104 | under the schema constraints, distinct groups of clients with orders give distinct entries |
| `LinqControllerProperties.TiedLookupsDuplicateFree` | Controllers/LinqController.cs:98-105 | under the schema constraints, the entries built from the tied groups are duplicate-free |
| `LinqControllerProperties.TopClientsDuplicateFree` | Controllers/LinqController.cs:98-105 | under the schema constraints, no client is listed twice |
| `LinqControllerProperties.TopClientsAreExactlyTheTiedClients` | Controllers/LinqController.cs:90-108 | under the schema constraints, `TopClients` lists exactly the clients at the maximum, once each, as many as there are such clients |
| `QueryProperties.AllOrdersDetailsOneRowPerLine` | Controllers/LinqController.cs:112-114 | under the schema constraints, one row per line, in table order, with its order id, its product's name and its quantity |
| `QueryProperties.OrderWithDetailsAgreesWithAllOrdersDetails` | src/Presentation/Controllers/LinqController.cs:164-180 | a found order's lines are exactly the `all-orders-details` rows with its id, in the same order |
| `QueryProperties.OrderWithDetailsShape` | src/Presentation/Controllers/LinqController.cs:164-180 | with unique order ids, an existing order is returned as itself with the rows of its own lines |
| `QueryProperties.OrderLinesResolve` | src/Presentation/Controllers/LinqController.cs:173-178 | under the schema constraints, every line of an order has a row with its product's name |
| `QueryProperties.OrderWithDetailsUnderWellFormed` | src/Presentation/Controllers/LinqController.cs:161-182 | under the schema constraints, an existing order is found with its own date and one row per line, in table order |
| `QueryProperties.LineOfClientOrder` | Controllers/LinqController.cs:120-122 | with unique order ids, a line belongs to one of the client's orders exactly when its order was placed by the client |
| `QueryProperties.ClientLinesAgree` | Controllers/LinqController.cs:120-122 | with unique order ids, following `Client.Orders` then `Order.OrderDetails` reaches the same lines as filtering by `od.Order.ClientId` |
| `QueryProperties.ProductsByClientRelational` | Controllers/LinqController.cs:117-127 | with unique product ids, a name is listed exactly when one of the client's orders has a line for a product of that name |
| `QueryProperties.ListedClientOrderedProduct` | Controllers/LinqController.cs:131-135 | a listed name belongs to a client whose order has a line for the product |
| `QueryProperties.OrderingClientIsListed` | Controllers/LinqController.cs:131-135 | with unique order and client ids, every client whose order has a line for the product is listed |
| `QueryProperties.ClientsByProductRelational` | Controllers/LinqController.cs:128-137 | with unique order and client ids, a name is listed exactly when a client of that name ordered the product |
| `TotalsProperties.OrderRow` | src/Presentation/Controllers/LinqController.cs:192-194 | an order's row of the order-by-line table sums to its `order-quantity` total if it is the client's, else 0 |
| `TotalsProperties.LineColumn` | src/Presentation/Controllers/LinqController.cs:192-194 | with unique order ids, a line's column sums to its quantity if its order is the client's, else 0 |
| `TotalsProperties.ClientTotalIsSumOfOrderTotals` | src/Presentation/Controllers/LinqController.cs:183-198 | with unique order ids, a client's total quantity is the sum of the `order-quantity` totals of its orders |
| `TotalsProperties.ClientsTotalProductsZeroWithoutOrders` | src/Presentation/Controllers/LinqController.cs:183-198 | a client without orders has total 0 |
| `TotalsProperties.ClientsTotalProductsNonNegative` | src/Presentation/Controllers/LinqController.cs:183-198 | with non-negative quantities, every total is non-negative |
| `TotalsProperties.ClientSalesListsEveryClient` | src/Presentation/Controllers/LinqController.cs:202-213 | every client's sales row is listed, and every listed row is some client's |
| `TotalsProperties.ClientSalesLeaderIsTopSeller` | src/Presentation/Controllers/LinqController.cs:212 | the first row has sales at least those of every client |
| `TotalsProperties.SalesIsSumOfLineAmounts` | src/Presentation/Controllers/LinqController.cs:208-210 | a client's sales are the sum over all lines of quantity times unit price for those placed by the client, 0 for the rest |
| `TotalsProperties.LineAmountUsesProductPrice` | src/Presentation/Controllers/LinqController.cs:210 | under the schema constraints, a line's amount uses the price of the product it references |
| `TotalsProperties.SalesZeroWithoutOrders` | src/Presentation/Controllers/LinqController.cs:208-210 | a client without orders has sales 0 |
| `TotalsProperties.LineTotalNonNegative` | src/Presentation/Controllers/LinqController.cs:210 | with non-negative quantities and prices, a line's amount is non-negative |
| `TotalsProperties.SalesNonNegative` | src/Presentation/Controllers/LinqController.cs:208-210 | with non-negative quantities and prices, sales are non-negative |
| `Scenario.ShopOrderResponses` | src/Presentation/Controllers/LinqController.cs:47-63 | for one order of three pens, `order-details` is one line, the total is 3, `order-with-details` finds the order, and an unknown id is not found |
| `Scenario.ShopSalesResponses` | src/Presentation/Controllers/LinqController.cs:183-215 | for three pens at 2.50, the client's sales are 7.50 and its total quantity is 3 |
| `Scenario.ShopProductResponses` | src/Presentation/Controllers/LinqController.cs:64-121 | for the one pen, `most-expensive-product` is the pen and `all-orders-details` is its one line |
| `Scenario.ShopProductsByClientResponse` | src/Presentation/Controllers/LinqController.cs:122-132 | the one client's products are `["Pen"]` |
| `Scenario.ShopClientsByProductResponse` | src/Presentation/Controllers/LinqController.cs:133-142 | the pen's clients are `["Ana"]` |
| `Scenario.ShopClientsWithOrdersResponse` | src/Presentation/Controllers/LinqController.cs:143-160 | the one client is listed with its one order's id and date |
| `Scenario.ShopMostOrdersResponse` | src/Presentation/Controllers/LinqController.cs:95-113 | the only ordering client is the one top client, with one order |
| `Scenario.NegativeQuantityTotal` | src/Presentation/Controllers/LinqController.cs:56-63 | an order whose one line has quantity -3 has total -3, so the non-negativity lemmas need `NonNegativeAmounts` |
| `Scenario.ShopFilterResponses` | src/Presentation/Controllers/LinqController.cs:31-94 | the prefix match is case-sensitive, the price and date bounds are strict, the average of one price is that price |

## Left out

- Hosting is not modelled: `Program.cs`, dependency injection, Swagger, the MySQL provider and the
  `AppDbContext` configuration. A request sees the four tables as a `Db` value.
- The repository's `Add`, `Update`, `Delete` and `Find` are not modelled. No endpoint of the
  controller calls them; the model is read-only.
- `GetAll()` and `_context.X` are modelled as the table in a fixed row order. The database does not
  promise that order for queries without `OrderBy`. Likewise the SQL `ORDER BY` behind
  `OrderByDescending` (lines 68 and 212) does not order ties, while the model keeps tied rows in
  table order; no contract relies on that tie order. `OrderTotalIgnoresRowOrder` and the
  multiset/membership contracts show which results do not depend on it.
- `AsNoTracking`, `Include` and `ThenInclude` affect only change tracking and loading, so they are
  not modelled. A navigation is the key lookup it is loaded by.
- Serialisation to JSON and HTTP status codes are not modelled, except not-found for
  `order-with-details`. An exception from `Max` or `Average` on an empty table is
  `Failure(InvalidOperation)`, not the 500 response it would become.
- `Models.GetById`: on duplicate keys it returns the first matching row. The repository
  implementation is not part of this model, and the properties that depend on the lookup require
  unique keys.
- `LinqController.GetClientsByName`: `StartsWith` is an ordinal, case-sensitive prefix test in the
  model. On the server it is translated to SQL `LIKE`, whose case sensitivity depends on the column
  collation. A null `name` parameter is not modelled.
- `LinqController.GetProductsByClient`, `LinqController.GetClientsByProduct`,
  `LinqController.IsNullOrEmpty`: the model compares strings ordinally, by exact character equality.
  The SQL `DISTINCT` and the `= ''` test that actually run compare under the column collation of the
  MySQL database. Under a case- or accent-insensitive collation, names that differ only in case or
  accent are returned once there, while the model lists both.
- `LinqController.GetAverageProductPrice`: the mean is an exact `real`. The `decimal` rounding of
  `Average` is not modelled.
- `Models.Cents`: prices are whole hundredths. `decimal` values with more fractional digits, and
  `decimal` overflow, are not modelled.
- `LinqController.GetOrderTotalQuantity`, `LinqController.TotalProductsOf`: the sums are unbounded.
  The 32-bit `int` overflow of `Sum` (an `OverflowException`) is not modelled.
- `LinqController.GroupByClient` carries no contract of its own. `LinqController.GroupsCountTheirClients`
  states what the groups are.
- The order of the groups `GroupBy` returns is modelled as first occurrence. The order of
  `TopClients` follows from it; `TopClientsAreExactlyTheTiedClients` states what does not depend on
  it.
- A null `Description` is `None`, and the anonymous response types are named records in `Dtos`.
