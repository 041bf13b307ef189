/** Rows of the three tables (items, orders, order lines) and the request and
    patch payloads the order workflow receives. Prices and totals are whole
    cents, so that totals are exact. */
module Records {

  /** Primary keys; the store hands them out from counters starting at 1. */
  type Id = int

  datatype Option<T> = None | Some(value: T)

  datatype Result<T, E> = Success(value: T) | Failure(error: E)

  /** The fields a client supplies for an item (ItemCreate). */
  datatype ItemFields = ItemFields(name: string, description: string, price: int, stock: int)

  /** An inventory row. */
  datatype Item = Item(name: string, description: string, price: int, stock: int, createdAt: nat)

  /** One requested line of an order: which item, how many (OrderItemCreate). */
  datatype LineRequest = LineRequest(itemId: Id, quantity: int)

  /** A line with the unit price it was sold at. */
  datatype PricedLine = PricedLine(itemId: Id, quantity: int, unitPrice: int)

  /** An order_items row: owned by one order, referring to one item. */
  datatype OrderLine = OrderLine(orderId: Id, itemId: Id, quantity: int, unitPrice: int)

  /** An orders row. `lineIds` is the order's collection of order lines, in
      insertion order. */
  datatype Order = Order(
    customerName: string,
    customerEmail: string,
    status: string,
    total: int,
    createdAt: nat,
    updatedAt: nat,
    lineIds: seq<Id>)

  /** OrderUpdate: every field optional, None meaning "leave as is". */
  datatype OrderPatch = OrderPatch(
    customerName: Option<string>,
    customerEmail: Option<string>,
    status: Option<string>,
    items: Option<seq<LineRequest>>)

  /** The ValueErrors the order workflow raises. */
  datatype OrderError =
    | ItemNotFound(itemId: Id)
    | InsufficientStock(itemName: string, available: int, requested: int)

  /** Status of a freshly created order. */
  const Pending: string := "pending"
}
