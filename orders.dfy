/**
 * The order record of the order service (models/order_model.py), as the
 * table stores it: an owner, a JSON list of items, a total, a status and
 * two timestamps. UUIDs are kept as the strings they print as.
 */
module Orders {
  import opened Wrappers

  type Uuid = string
  type Time = int

  /** `OrderItem`: one line of an order. */
  datatype OrderItem = OrderItem(productId: Uuid, name: string, quantity: int, price: real)

  /**
   * `Order` (`table=True`): `id` is the primary key, `user_id` the owner.
   * `items` lives in a JSON column, which stores a Python `None` as the JSON
   * value `null` rather than as SQL NULL; None is that value.
   */
  datatype Order = Order(
    id: Uuid,
    userId: Uuid,
    items: Option<seq<OrderItem>>,
    totalAmount: real,
    status: string,
    createdAt: Time,
    updatedAt: Time)

  /**
   * Whether `OrderReadSchema` can serialize the row: its `items` must be a
   * list, so a row holding JSON `null` fails response validation.
   */
  predicate Readable(o: Order) {
    o.items.Some?
  }

  /** Each row is stored under its own primary key. */
  ghost predicate KeyedByOrderId(orders: map<Uuid, Order>) {
    forall id | id in orders :: orders[id].id == id
  }
}
