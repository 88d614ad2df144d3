/**
 * The pydantic request schemas of the order service
 * (schemas/order_schema.py): the field constraints FastAPI checks before a
 * handler runs, a request that fails them being answered 422.
 */
module OrderSchema {
  import opened Wrappers
  import opened Orders

  /** The status a new order gets when the request names none. */
  const DefaultStatus: string := "pending"

  /** `max_length` of `status`. */
  const MaxStatusLength: nat := 50

  /** `OrderItemSchema`: quantity and price strictly positive. */
  predicate ItemValid(item: OrderItem) {
    item.quantity > 0 && item.price > 0.0
  }

  /** `List[OrderItemSchema]` with `min_length=1`: at least one item, every item valid. */
  predicate ItemsValid(items: seq<OrderItem>) {
    |items| >= 1 && forall k | 0 <= k < |items| :: ItemValid(items[k])
  }

  /** The body of a create request; `status` is None when the request leaves it out. */
  datatype CreateInput = CreateInput(items: seq<OrderItem>, totalAmount: real, status: Option<string>)

  /** `OrderCreateSchema`. */
  predicate CreateValid(c: CreateInput) {
    && ItemsValid(c.items)
    && c.totalAmount > 0.0
    && (c.status.Some? ==> |c.status.value| <= MaxStatusLength)
  }

  /** The status a created order gets: the requested one, or "pending". */
  function CreateStatus(c: CreateInput): (s: string)
    ensures c.status.None? ==> s == DefaultStatus
    ensures c.status.Some? ==> s == c.status.value
    ensures CreateValid(c) ==> |s| <= MaxStatusLength
  {
    c.status.GetOr(DefaultStatus)
  }

  /**
   * A field of an update body: left out, given as JSON `null`, or given a
   * value. pydantic tells the first two apart (`exclude_unset`).
   */
  datatype Field<T> = Unset | Null | Set(value: T)

  /** The body of an update request. */
  datatype UpdateInput = UpdateInput(items: Field<seq<OrderItem>>, totalAmount: Field<real>, status: Field<string>)

  /**
   * `OrderUpdateSchema`: every field is optional and may be null, and only a
   * field with a value is checked, against the constraint it has on create;
   * so the empty body and a body of nulls both pass.
   */
  predicate UpdateValid(u: UpdateInput) {
    && (u.items.Set? ==> ItemsValid(u.items.value))
    && (u.totalAmount.Set? ==> u.totalAmount.value > 0.0)
    && (u.status.Set? ==> |u.status.value| <= MaxStatusLength)
  }

  /** A create body read as an update body: each field it gives is set. */
  function AsUpdate(c: CreateInput): UpdateInput {
    UpdateInput(Set(c.items), Set(c.totalAmount), if c.status.Some? then Set(c.status.value) else Unset)
  }

  /** Create and update apply the same constraint to each field present. */
  lemma SameConstraints(c: CreateInput)
    ensures CreateValid(c) <==> UpdateValid(AsUpdate(c))
  {
  }
}
