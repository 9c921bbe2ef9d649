/** The response shapes: the named DTO classes and the anonymous types the endpoints project into. */
module Dtos {
  import opened Wrappers
  import opened Models

  datatype OrderDto = OrderDto(orderId: int, orderDate: Ticks)

  datatype ClientOrdersDto = ClientOrdersDto(clientId: int, clientName: string, orders: seq<OrderDto>)

  /** Also the shape of the anonymous `{ OrderId, ProductName, Quantity }` rows. */
  datatype OrderDetailsDto = OrderDetailsDto(orderId: int, productName: string, quantity: int)

  datatype ClientTotalProductsDto = ClientTotalProductsDto(clientId: int, clientName: string, totalProducts: int)

  datatype ClientSalesDto = ClientSalesDto(clientId: int, clientName: string, totalSales: Cents)

  /** `{ ProductName, Quantity }`. */
  datatype ProductQuantity = ProductQuantity(productName: string, quantity: int)

  /** `{ ClientId, Count }`: one group of `GroupBy(o => o.ClientId)`. */
  datatype ClientOrderCount = ClientOrderCount(clientId: int, count: nat)

  /** `{ Client, OrdersCount }`; `client` is `None` where the lookup returns null. */
  datatype TopClient = TopClient(client: Option<Client>, ordersCount: nat)

  /** `{ MaxOrders, TopClients }`. */
  datatype MostOrders = MostOrders(maxOrders: nat, topClients: seq<TopClient>)

  /** `{ OrderId, OrderDate, Details }`. */
  datatype OrderWithDetails = OrderWithDetails(orderId: int, orderDate: Ticks, details: seq<OrderDetailsDto>)
}
