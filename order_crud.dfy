/**
 * The data-access layer of the order service (crud/order_crud.py): the two
 * owner-filtered queries over the order table, and create, update and
 * delete as changes of the table committed by the session.
 */
module OrderCrud {
  import opened Wrappers
  import opened Orders
  import opened OrderSchema

  /**
   * `get_order_by_id` (lines 27-39): the row whose id AND owner match, so a
   * row of another owner is not found.
   */
  function GetOrderById(orders: map<Uuid, Order>, orderId: Uuid, userId: Uuid): (r: Option<Order>)
    ensures r.Some? <==> orderId in orders && orders[orderId].userId == userId
    ensures r.Some? ==> r.value == orders[orderId] && r.value.userId == userId
  {
    if orderId in orders && orders[orderId].userId == userId then Some(orders[orderId]) else None
  }

  /** `get_all_orders_for_user` (lines 41-52): exactly the rows the user owns, keyed by id. */
  function GetAllOrdersForUser(orders: map<Uuid, Order>, userId: Uuid): (r: map<Uuid, Order>)
    ensures forall id :: id in r <==> id in orders && orders[id].userId == userId
    ensures forall id | id in r :: r[id] == orders[id]
  {
    map id | id in orders && orders[id].userId == userId :: orders[id]
  }

  /** A lookup by id and owner sees only the user's own rows. */
  lemma GetOrderByIdSeesOwnRows(orders: map<Uuid, Order>, orderId: Uuid, userId: Uuid)
    ensures GetOrderById(orders, orderId, userId) == GetOrderById(GetAllOrdersForUser(orders, userId), orderId, userId)
  {
  }

  /** One `setattr(order, key, value)` of the update loop; None for a null value. */
  datatype Assignment =
    | ItemsTo(items: Option<seq<OrderItem>>)
    | TotalTo(total: Option<real>)
    | StatusTo(status: Option<string>)

  function ItemsPart(f: Field<seq<OrderItem>>): seq<Assignment> {
    match f case Unset => [] case Null => [ItemsTo(None)] case Set(v) => [ItemsTo(Some(v))]
  }

  function TotalPart(f: Field<real>): seq<Assignment> {
    match f case Unset => [] case Null => [TotalTo(None)] case Set(v) => [TotalTo(Some(v))]
  }

  function StatusPart(f: Field<string>): seq<Assignment> {
    match f case Unset => [] case Null => [StatusTo(None)] case Set(v) => [StatusTo(Some(v))]
  }

  /**
   * `model_dump(exclude_unset=True)`: the fields the request gave, null ones
   * included, in the schema's field order.
   */
  function Dump(u: UpdateInput): seq<Assignment> {
    ItemsPart(u.items) + TotalPart(u.totalAmount) + StatusPart(u.status)
  }

  /**
   * Whether the request nulls `total_amount` or `status`: those columns are
   * NOT NULL, so the commit fails. A null `items` is stored as JSON `null`
   * and commits.
   */
  predicate NullsRequiredColumn(u: UpdateInput) {
    u.totalAmount.Null? || u.status.Null?
  }

  /**
   * The order object after one assignment, as far as it can still be
   * written back: None once a NOT NULL column holds None.
   */
  function Assign(o: Option<Order>, a: Assignment): Option<Order> {
    match (o, a)
    case (None, _) => None
    case (Some(order), ItemsTo(v)) => Some(order.(items := v))
    case (Some(order), TotalTo(Some(v))) => Some(order.(totalAmount := v))
    case (Some(order), StatusTo(Some(v))) => Some(order.(status := v))
    case _ => None
  }

  /** The assignments applied in order to the object `start`, the last one outermost. */
  function AssignAll(start: Option<Order>, fields: seq<Assignment>): Option<Order>
    decreases |fields|
  {
    if fields == [] then start
    else Assign(AssignAll(start, fields[..|fields| - 1]), fields[|fields| - 1])
  }

  /**
   * The order with every field the update gives a value replaced, and
   * `items` nulled when the update nulls it; `id`, `user_id` and both
   * timestamps are kept (the model has no `onupdate`).
   */
  function Overwrite(o: Order, u: UpdateInput): (r: Order)
    ensures r.id == o.id && r.userId == o.userId
    ensures r.createdAt == o.createdAt && r.updatedAt == o.updatedAt
    ensures r.items == match u.items case Unset => o.items case Null => None case Set(v) => Some(v)
    ensures r.totalAmount == (if u.totalAmount.Set? then u.totalAmount.value else o.totalAmount)
    ensures r.status == (if u.status.Set? then u.status.value else o.status)
    ensures Readable(r) <==> u.items.Set? || (u.items.Unset? && Readable(o))
  {
    o.(items := match u.items case Unset => o.items case Null => None case Set(v) => Some(v),
       totalAmount := if u.totalAmount.Set? then u.totalAmount.value else o.totalAmount,
       status := if u.status.Set? then u.status.value else o.status)
  }

  /** Applying the same update twice gives the order applying it once gives. */
  lemma OverwriteIdempotent(o: Order, u: UpdateInput)
    ensures Overwrite(Overwrite(o, u), u) == Overwrite(o, u)
  {
  }

  /** An update that sets nothing leaves the order as it was. */
  lemma EmptyUpdateKeepsOrder(o: Order)
    ensures Overwrite(o, UpdateInput(Unset, Unset, Unset)) == o
  {
  }

  lemma {:induction false} AssignAllAppend(start: Option<Order>, fields: seq<Assignment>, a: Assignment)
    ensures AssignAll(start, fields + [a]) == Assign(AssignAll(start, fields), a)
  {
    assert (fields + [a])[..|fields|] == fields;
  }

  /** Assigning two runs of fields is assigning the first, then the second. */
  lemma {:induction false} AssignAllConcat(start: Option<Order>, first: seq<Assignment>, second: seq<Assignment>)
    ensures AssignAll(start, first + second) == AssignAll(AssignAll(start, first), second)
    decreases |second|
  {
    if second == [] {
      assert first + second == first;
    } else {
      var init := second[..|second| - 1];
      var last := second[|second| - 1];
      assert second == init + [last];
      assert first + second == (first + init) + [last];
      AssignAllAppend(start, first + init, last);
      AssignAllConcat(start, first, init);
      AssignAllAppend(AssignAll(start, first), init, last);
    }
  }

  lemma AssignOne(start: Option<Order>, a: Assignment)
    ensures AssignAll(start, [a]) == Assign(start, a)
  {
    assert [a][..0] == [];
  }

  /** The `setattr` of the `items` field, if the request gave it; a null is stored. */
  lemma AssignItems(start: Option<Order>, f: Field<seq<OrderItem>>)
    ensures AssignAll(start, ItemsPart(f)) ==
      if start.None? then None
      else if f.Null? then Some(start.value.(items := None))
      else if f.Set? then Some(start.value.(items := Some(f.value))) else start
  {
    if f != Unset { AssignOne(start, ItemsPart(f)[0]); }
  }

  /** The `setattr` of the `total_amount` field, if the request gave it. */
  lemma AssignTotal(start: Option<Order>, f: Field<real>)
    ensures AssignAll(start, TotalPart(f)) ==
      if start.None? || f.Null? then None
      else if f.Set? then Some(start.value.(totalAmount := f.value)) else start
  {
    if f != Unset { AssignOne(start, TotalPart(f)[0]); }
  }

  /** The `setattr` of the `status` field, if the request gave it. */
  lemma AssignStatus(start: Option<Order>, f: Field<string>)
    ensures AssignAll(start, StatusPart(f)) ==
      if start.None? || f.Null? then None
      else if f.Set? then Some(start.value.(status := f.value)) else start
  {
    if f != Unset { AssignOne(start, StatusPart(f)[0]); }
  }

  /**
   * The setattr loop over the dumped fields yields the overwritten order,
   * or nothing writable when the request nulls a NOT NULL column.
   */
  lemma {:induction false} AssignDump(order: Order, u: UpdateInput)
    ensures AssignAll(Some(order), Dump(u)) == if NullsRequiredColumn(u) then None else Some(Overwrite(order, u))
  {
    var p1, p2, p3 := ItemsPart(u.items), TotalPart(u.totalAmount), StatusPart(u.status);
    AssignAllConcat(Some(order), p1 + p2, p3);
    AssignAllConcat(Some(order), p1, p2);
    var s1 := AssignAll(Some(order), p1);
    AssignItems(Some(order), u.items);
    var s2 := AssignAll(s1, p2);
    AssignTotal(s1, u.totalAmount);
    AssignStatus(s2, u.status);
  }

  /**
   * The loop of `update_order` (lines 64-66): one `setattr` per dumped
   * field. The result is the overwritten order, or None when a NOT NULL
   * column was set to null and the row can no longer be written back.
   */
  method AssignSetFields(order: Order, u: UpdateInput) returns (updated: Option<Order>)
    ensures NullsRequiredColumn(u) ==> updated.None?
    ensures !NullsRequiredColumn(u) ==> updated == Some(Overwrite(order, u))
  {
    var fields := Dump(u);
    updated := Some(order);
    assert fields[..0] == [];
    assert updated == AssignAll(Some(order), fields[..0]);
    var i := 0;
    while i < |fields|
      invariant 0 <= i <= |fields|
      invariant updated == AssignAll(Some(order), fields[..i])
    {
      assert fields[..i + 1] == fields[..i] + [fields[i]];
      AssignAllAppend(Some(order), fields[..i], fields[i]);
      updated := Assign(updated, fields[i]);
      i := i + 1;
    }
    assert fields[..i] == fields;
    AssignDump(order, u);
    assert updated == (if NullsRequiredColumn(u) then None else Some(Overwrite(order, u)));
  }

  /** The order table and the session operations that change it. */
  class OrderTable {
    var orders: map<Uuid, Order>

    ghost predicate Valid()
      reads this
    {
      KeyedByOrderId(orders)
    }

    constructor ()
      ensures orders == map[] && Valid()
    {
      orders := map[];
    }

    /**
     * `create_order` (lines 10-25): the validated body with `user_id`
     * replaced by the caller, a fresh id and both timestamps set to now.
     * None when the commit fails (store down, or the id already taken).
     * A created row is always readable.
     */
    method CreateOrder(data: CreateInput, userId: Uuid, freshId: Uuid, now: Time, storeDown: bool)
      returns (created: Option<Order>)
      requires Valid()
      modifies this
      ensures Valid()
      ensures created.None? <==> storeDown || freshId in old(orders)
      ensures created.None? ==> orders == old(orders)
      ensures created.Some? ==>
        && created.value == Order(freshId, userId, Some(data.items), data.totalAmount, CreateStatus(data), now, now)
        && orders == old(orders)[freshId := created.value]
        && Readable(created.value)
    {
      if storeDown || freshId in orders {
        return None;
      }
      var dbOrder := Order(freshId, userId, Some(data.items), data.totalAmount, CreateStatus(data), now, now);
      orders := orders[freshId := dbOrder];
      created := Some(dbOrder);
    }

    /**
     * `update_order` (lines 54-71) on a row loaded from the table: the set
     * fields are written and the row is committed. None when the commit
     * fails, which it does when a NOT NULL column was set to null; a null
     * `items` commits and leaves a row that cannot be read back.
     */
    method UpdateOrder(order: Order, u: UpdateInput, storeDown: bool) returns (saved: Option<Order>)
      requires Valid() && order.id in orders && orders[order.id] == order
      modifies this
      ensures Valid()
      ensures saved.None? <==> storeDown || NullsRequiredColumn(u)
      ensures saved.None? ==> orders == old(orders)
      ensures saved.Some? ==> saved.value == Overwrite(order, u) && orders == old(orders)[order.id := saved.value]
    {
      var written := AssignSetFields(order, u);
      if storeDown || written.None? {
        return None;
      }
      orders := orders[order.id := written.value];
      saved := written;
    }

    /** `delete_order` (lines 73-82): the row goes; false when the commit fails. */
    method DeleteOrder(order: Order, storeDown: bool) returns (deleted: bool)
      requires Valid() && order.id in orders
      modifies this
      ensures Valid()
      ensures deleted <==> !storeDown
      ensures deleted ==> orders == old(orders) - {order.id}
      ensures !deleted ==> orders == old(orders)
    {
      if storeDown {
        return false;
      }
      orders := orders - {order.id};
      deleted := true;
    }
  }
}
