/**
 * The order service's HTTP handlers (api/order_api.py). The caller is the
 * user named by the `x-user-id` header the gateway sets; every lookup is
 * filtered by that owner, so a user never reads, changes or deletes another
 * user's order, and such an order answers exactly like a missing one.
 */
module OrderApi {
  import opened Wrappers
  import opened Orders
  import opened OrderSchema
  import opened OrderCrud

  /** The JSON body of a reply. */
  datatype Body =
    | Detail(message: string)          // HTTPException's {detail}
    | OrderRead(order: Order)          // OrderReadSchema
    | OrderList(orders: map<Uuid, Order>)  // List[OrderReadSchema], keyed by id
    | Unprocessable                    // FastAPI's 422 for a request failing validation
    | ServerError                      // an exception escaping the handler
    | NoContent                        // a 204 carries no body

  datatype Reply = Reply(status: int, body: Body)

  const NotFoundView := "Order not found or you do not have permission to view this order."
  const NotFoundUpdate := "Order not found or you do not have permission to update this order."
  const NotFoundDelete := "Order not found or you do not have permission to delete this order."

  /**
   * The reply of a handler returning `value` under `response_model`: 200
   * with the value when every order in it passes `OrderReadSchema`,
   * otherwise the response validation error, a 500.
   */
  function Respond(value: Body, readable: bool): (r: Reply)
    ensures readable ==> r == Reply(200, value)
    ensures !readable ==> r == Reply(500, ServerError)
  {
    if readable then Reply(200, value) else Reply(500, ServerError)
  }

  /**
   * `read_all_orders_for_user` (lines 38-53). `xUserId` (and `orderId`
   * below) is None when the header (the path parameter) is missing or is not
   * a UUID, which FastAPI answers 422 before the handler runs.
   */
  function ReadAllOrdersForUser(orders: map<Uuid, Order>, xUserId: Option<Uuid>, storeDown: bool): (r: Reply)
    ensures xUserId.None? ==> r == Reply(422, Unprocessable)
    ensures xUserId.Some? && storeDown ==> r == Reply(500, ServerError)
    ensures xUserId.Some? && !storeDown ==>
      if forall id | id in orders :: orders[id].userId != xUserId.value then
        r == Reply(404, Detail("No orders found for this user."))
      else if exists id | id in orders && orders[id].userId == xUserId.value :: !Readable(orders[id]) then
        r == Reply(500, ServerError)
      else
        && r.status == 200 && r.body.OrderList?
        && (forall id :: id in r.body.orders <==> id in orders && orders[id].userId == xUserId.value)
        && (forall id | id in r.body.orders :: r.body.orders[id] == orders[id])
  {
    match xUserId
    case None => Reply(422, Unprocessable)
    case Some(userId) =>
      if storeDown then Reply(500, ServerError)
      else
        var owned := GetAllOrdersForUser(orders, userId);
        if owned == map[] then
          assert forall id :: id !in owned;
          Reply(404, Detail("No orders found for this user."))
        else
          var id :| id in owned;
          assert id in orders && orders[id].userId == userId;
          Respond(OrderList(owned), forall k | k in owned :: Readable(owned[k]))
  }

  /** `read_order_by_id` (lines 55-71). */
  function ReadOrderById(orders: map<Uuid, Order>, orderId: Option<Uuid>, xUserId: Option<Uuid>, storeDown: bool): (r: Reply)
    ensures orderId.None? || xUserId.None? ==> r == Reply(422, Unprocessable)
    ensures orderId.Some? && xUserId.Some? && storeDown ==> r == Reply(500, ServerError)
    ensures orderId.Some? && xUserId.Some? && !storeDown ==>
      if orderId.value in orders && orders[orderId.value].userId == xUserId.value then
        if Readable(orders[orderId.value]) then
          r == Reply(200, OrderRead(orders[orderId.value]))
        else
          r == Reply(500, ServerError)
      else
        r == Reply(404, Detail(NotFoundView))
  {
    if orderId.None? || xUserId.None? then Reply(422, Unprocessable)
    else if storeDown then Reply(500, ServerError)
    else
      match GetOrderById(orders, orderId.value, xUserId.value)
      case None => Reply(404, Detail(NotFoundView))
      case Some(order) => Respond(OrderRead(order), Readable(order))
  }

  /** Another user's order answers exactly as an order that does not exist. */
  lemma ForeignOrderLooksMissing(orders: map<Uuid, Order>, orderId: Uuid, userId: Uuid, storeDown: bool)
    requires orderId in orders && orders[orderId].userId != userId
    ensures ReadOrderById(orders, Some(orderId), Some(userId), storeDown)
      == ReadOrderById(orders - {orderId}, Some(orderId), Some(userId), storeDown)
  {
  }

  /**
   * What a user reads depends only on that user's own orders: two tables
   * that agree on them give the same replies.
   */
  lemma {:induction false} ReadsSeeOnlyOwnOrders(a: map<Uuid, Order>, b: map<Uuid, Order>, userId: Uuid, orderId: Option<Uuid>, storeDown: bool)
    requires GetAllOrdersForUser(a, userId) == GetAllOrdersForUser(b, userId)
    ensures ReadAllOrdersForUser(a, Some(userId), storeDown) == ReadAllOrdersForUser(b, Some(userId), storeDown)
    ensures ReadOrderById(a, orderId, Some(userId), storeDown) == ReadOrderById(b, orderId, Some(userId), storeDown)
  {
    if orderId.Some? {
      var id := orderId.value;
      var owned := GetAllOrdersForUser(a, userId);
      assert (id in a && a[id].userId == userId) <==> id in owned;
      assert (id in b && b[id].userId == userId) <==> id in owned;
      if id in owned {
        assert a[id] == owned[id] == b[id];
      }
    }
  }

  /**
   * Once an update has nulled an order's `items`, the order can no longer be
   * read: reading it, and reading its owner's whole list, answer 500.
   */
  lemma NulledItemsBreakReads(orders: map<Uuid, Order>, id: Uuid, u: UpdateInput)
    requires id in orders && u.items.Null? && !NullsRequiredColumn(u)
    ensures var after := orders[id := Overwrite(orders[id], u)];
      && ReadOrderById(after, Some(id), Some(orders[id].userId), false) == Reply(500, ServerError)
      && ReadAllOrdersForUser(after, Some(orders[id].userId), false) == Reply(500, ServerError)
  {
  }

  /**
   * `create_new_order` (lines 25-36): the owner is the header's user, never
   * anything in the body; the table gains exactly one row.
   */
  method CreateNewOrder(table: OrderTable, data: CreateInput, xUserId: Option<Uuid>, freshId: Uuid, now: Time, storeDown: bool)
    returns (resp: Reply)
    requires table.Valid()
    modifies table
    ensures table.Valid()
    ensures resp.status != 201 ==> table.orders == old(table.orders)
    ensures xUserId.None? || !CreateValid(data) ==> resp == Reply(422, Unprocessable)
    ensures xUserId.Some? && CreateValid(data) ==>
      if storeDown || freshId in old(table.orders) then
        resp == Reply(500, ServerError)
      else
        var created := Order(freshId, xUserId.value, Some(data.items), data.totalAmount, CreateStatus(data), now, now);
        && table.orders == old(table.orders)[freshId := created]
        && resp == Reply(201, OrderRead(created))
  {
    if xUserId.None? || !CreateValid(data) {
      return Reply(422, Unprocessable);
    }
    var created := table.CreateOrder(data, xUserId.value, freshId, now, storeDown);
    if created.None? {
      return Reply(500, ServerError);
    }
    resp := Reply(201, OrderRead(created.value));
  }

  /**
   * `update_existing_order` (lines 73-90): only an order the caller owns
   * is touched; any other answers 404 and nothing changes. An update that
   * leaves `items` null (nulling it, or not touching a row where it already
   * is) commits, and the reply then fails `OrderReadSchema`: the one failed
   * update that changes the table.
   */
  method UpdateExistingOrder(table: OrderTable, orderId: Option<Uuid>, u: UpdateInput, xUserId: Option<Uuid>, storeDown: bool)
    returns (resp: Reply)
    requires table.Valid()
    modifies table
    ensures table.Valid()
    ensures resp.status != 200 && table.orders != old(table.orders) ==>
      && resp == Reply(500, ServerError)
      && orderId.Some? && orderId.value in table.orders && !Readable(table.orders[orderId.value])
    ensures forall id | id in old(table.orders) && Some(old(table.orders)[id].userId) != xUserId ::
      id in table.orders && table.orders[id] == old(table.orders)[id]
    ensures orderId.None? || xUserId.None? || !UpdateValid(u) ==>
      resp == Reply(422, Unprocessable) && table.orders == old(table.orders)
    ensures orderId.Some? && xUserId.Some? && UpdateValid(u) ==>
      var id := orderId.value;
      if storeDown then
        resp == Reply(500, ServerError) && table.orders == old(table.orders)
      else if id !in old(table.orders) || old(table.orders)[id].userId != xUserId.value then
        resp == Reply(404, Detail(NotFoundUpdate)) && table.orders == old(table.orders)
      else if NullsRequiredColumn(u) then
        resp == Reply(500, ServerError) && table.orders == old(table.orders)
      else
        var updated := Overwrite(old(table.orders)[id], u);
        && table.orders == old(table.orders)[id := updated]
        && resp == (if Readable(updated) then Reply(200, OrderRead(updated)) else Reply(500, ServerError))
  {
    if orderId.None? || xUserId.None? || !UpdateValid(u) {
      return Reply(422, Unprocessable);
    }
    if storeDown {
      return Reply(500, ServerError);
    }
    var existing := GetOrderById(table.orders, orderId.value, xUserId.value);
    if existing.None? {
      return Reply(404, Detail(NotFoundUpdate));
    }
    var saved := table.UpdateOrder(existing.value, u, storeDown);
    if saved.None? {
      return Reply(500, ServerError);
    }
    resp := Respond(OrderRead(saved.value), Readable(saved.value));
  }

  /**
   * `delete_existing_order` (lines 92-109): only an order the caller owns
   * goes, answered 204; any other answers 404 and nothing changes.
   */
  method DeleteExistingOrder(table: OrderTable, orderId: Option<Uuid>, xUserId: Option<Uuid>, storeDown: bool)
    returns (resp: Reply)
    requires table.Valid()
    modifies table
    ensures table.Valid()
    ensures resp.status != 204 ==> table.orders == old(table.orders)
    ensures forall id | id in old(table.orders) && Some(old(table.orders)[id].userId) != xUserId ::
      id in table.orders && table.orders[id] == old(table.orders)[id]
    ensures orderId.None? || xUserId.None? ==> resp == Reply(422, Unprocessable)
    ensures orderId.Some? && xUserId.Some? ==>
      var id := orderId.value;
      if storeDown then
        resp == Reply(500, ServerError)
      else if id !in old(table.orders) || old(table.orders)[id].userId != xUserId.value then
        resp == Reply(404, Detail(NotFoundDelete))
      else
        table.orders == old(table.orders) - {id} && resp == Reply(204, NoContent)
  {
    if orderId.None? || xUserId.None? {
      return Reply(422, Unprocessable);
    }
    if storeDown {
      return Reply(500, ServerError);
    }
    var existing := GetOrderById(table.orders, orderId.value, xUserId.value);
    if existing.None? {
      return Reply(404, Detail(NotFoundDelete));
    }
    var deleted := table.DeleteOrder(existing.value, storeDown);
    // The store was up above, so the commit succeeded.
    assert deleted;
    resp := Reply(204, NoContent);
  }
}
