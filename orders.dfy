/** The order resource as the update pipeline sees it. */
module Orders {

  /** An identifier that has passed the UUID check. */
  type UUID = string

  /** An ISO-8601 timestamp, as produced by the injected clock. */
  type ISO8601DateTimeString = string

  /** One of the closed set of order statuses, by name. */
  type OrderStatus = string

  /** The status every new order starts in. */
  const Created: OrderStatus := "Created"

  /** A line item: opaque to this part of the system, carried as its JSON text. */
  datatype LineItem = LineItem(json: string)

  datatype Order = Order(id: UUID, createdWhen: ISO8601DateTimeString, status: OrderStatus, items: seq<LineItem>)
}
