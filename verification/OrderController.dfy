/**
 * The `/orders` handlers: listing all orders (administrators only), and
 * listing, reading and placing the orders of one user (that user or an
 * administrator).
 */
module OrderController {
  import opened Js
  import opened Http

  /** An order row as the persistence layer returns it; its batches and
      timestamps are not inspected by the handlers. */
  datatype Order = Order(id: string, totalPrice: JsValue)

  datatype OrderCall =
    | FetchAllOrders
    | FetchOwner(username: string)
    | FetchOrdersOf(owner: User)
    | FetchOrder(owner: User, id: string)
    | CreateOrderFor(owner: User, totalPrice: JsValue)
    | AddBatches(order: Order, batches: JsValue)

  const NoOrdersFound := "No orders found"

  /** `GET /orders`: administrators only; an empty list is a 404. A failing
      query is not caught. */
  function GetAll(caller: User, orders: Attempt<seq<Order>>): (h: Handled<seq<Order>, OrderCall>)
    ensures !caller.admin <==> h.calls == []
    ensures !caller.admin ==> h.response == Refused(403)
    ensures caller.admin ==> h.calls == [FetchAllOrders]
    ensures caller.admin && orders.Threw? ==> h.response == Unhandled(orders.error)
    ensures caller.admin && orders.Done? ==>
              h.response == (if |orders.value| == 0
                             then Respond(404, false, None, NoOrdersFound)
                             else Ok(Some(orders.value), ""))
  {
    if !caller.admin then Handled(Refused(403), [])
    else
      match orders
      case Threw(e) => Handled(Unhandled(e), [FetchAllOrders])
      case Done(list) =>
        if |list| < 1 then Handled(Respond(404, false, None, NoOrdersFound), [FetchAllOrders])
        else Handled(Ok(Some(list), ""), [FetchAllOrders])
  }

  /** `GET /orders/:username` as written: the emptiness test is
      `orders.length < 0`, which no list meets, so the 404 branch is dead.
      Nothing here is inside a `try`. */
  function GetOrdersForUserAsWritten(caller: User, username: string, lookup: Attempt<Option<User>>,
                                     orders: Attempt<seq<Order>>): (h: Handled<seq<Order>, OrderCall>)
    ensures !ActsFor(caller, username) <==> h.calls == []
    ensures h.response.Respond? ==> h.response.status != 404
  {
    if !caller.admin && caller.username != username then Handled(Refused(403), [])
    else
      match lookup
      case Threw(e) => Handled(Unhandled(e), [FetchOwner(username)])
      case Done(None) => Handled(Respond(400, false, None, NoUserFound), [FetchOwner(username)])
      case Done(Some(owner)) =>
        var calls := [FetchOwner(username), FetchOrdersOf(owner)];
        match orders
        case Threw(e) => Handled(Unhandled(e), calls)
        case Done(list) =>
          if |list| < 0 then Handled(Respond(404, false, None, NoOrdersFound), calls)
          else Handled(Ok(Some(list), ""), calls)
  }

  /** The dead branch shows: an owner with no orders gets a successful
      empty list, where every other listing endpoint answers 404. */
  lemma EmptyOrdersNeverNotFound(caller: User, owner: User)
    requires ActsFor(caller, owner.username)
    ensures GetOrdersForUserAsWritten(caller, owner.username, Done(Some(owner)), Done([])).response
            == Ok(Some([]), "")
  {
  }

  /** `GET /orders/:username` with the emptiness test as evidently meant
      (`orders.length < 1`, as in the other listings): the owner is looked
      up only for a caller allowed to act for them, and an empty list is a
      404. */
  function GetOrdersForUser(caller: User, username: string, lookup: Attempt<Option<User>>,
                            orders: Attempt<seq<Order>>): (h: Handled<seq<Order>, OrderCall>)
    ensures !ActsFor(caller, username) <==> h.calls == []
    ensures !ActsFor(caller, username) ==> h.response == Refused(403)
    ensures ActsFor(caller, username) && lookup.Threw? ==>
              h == Handled(Unhandled(lookup.error), [FetchOwner(username)])
    ensures ActsFor(caller, username) && lookup == Done(None) ==>
              h == Handled(Respond(400, false, None, NoUserFound), [FetchOwner(username)])
    ensures ActsFor(caller, username) && lookup.Done? && lookup.value.Some? ==>
              && h.calls == [FetchOwner(username), FetchOrdersOf(lookup.value.value)]
              && (orders.Threw? ==> h.response == Unhandled(orders.error))
              && (orders.Done? ==>
                    h.response.Respond? &&
                    (h.response.status == 404 <==> |orders.value| == 0) &&
                    (|orders.value| > 0 ==> h.response == Ok(Some(orders.value), "")))
  {
    if !caller.admin && caller.username != username then Handled(Refused(403), [])
    else
      match lookup
      case Threw(e) => Handled(Unhandled(e), [FetchOwner(username)])
      case Done(None) => Handled(Respond(400, false, None, NoUserFound), [FetchOwner(username)])
      case Done(Some(owner)) =>
        var calls := [FetchOwner(username), FetchOrdersOf(owner)];
        match orders
        case Threw(e) => Handled(Unhandled(e), calls)
        case Done(list) =>
          if |list| < 1 then Handled(Respond(404, false, None, NoOrdersFound), calls)
          else Handled(Ok(Some(list), ""), calls)
  }

  /** The two versions differ only on an owner with no orders. */
  lemma CorrectionOnlyAffectsEmptyLists(caller: User, username: string, lookup: Attempt<Option<User>>,
                                        orders: Attempt<seq<Order>>)
    requires !(orders.Done? && |orders.value| == 0)
    ensures GetOrdersForUser(caller, username, lookup, orders)
            == GetOrdersForUserAsWritten(caller, username, lookup, orders)
  {
  }

  /** `GET /orders/:username/:id`: every failure after the ownership check
      is caught and answered with 400. */
  function GetOrder(caller: User, username: string, id: string, lookup: Attempt<Option<User>>,
                    order: Attempt<Order>): (h: Handled<Order, OrderCall>)
    ensures !ActsFor(caller, username) <==> h.calls == []
    ensures !ActsFor(caller, username) ==> h.response == Refused(403)
    ensures ActsFor(caller, username) ==>
              match lookup
              case Threw(e) => h == Handled(Failure(400, e), [FetchOwner(username)])
              case Done(None) =>
                h == Handled(Respond(400, false, None, NoUserFound), [FetchOwner(username)])
              case Done(Some(owner)) =>
                && h.calls == [FetchOwner(username), FetchOrder(owner, id)]
                && h.response == (if order.Done? then Ok(Some(order.value), "")
                                  else Failure(400, order.error))
  {
    if !caller.admin && caller.username != username then Handled(Refused(403), [])
    else
      match lookup
      case Threw(e) => Handled(Failure(400, e), [FetchOwner(username)])
      case Done(None) => Handled(Respond(400, false, None, NoUserFound), [FetchOwner(username)])
      case Done(Some(owner)) =>
        var calls := [FetchOwner(username), FetchOrder(owner, id)];
        match order
        case Threw(e) => Handled(Failure(400, e), calls)
        case Done(o) => Handled(Ok(Some(o), ""), calls)
  }

  /** `POST /orders/:username`: the order is created first and its batches
      are then added to that very order; the answer is the created order.
      A failure while adding batches is a 400, but the order stays created. */
  function CreateOrder(caller: User, username: string, body: Body, lookup: Attempt<Option<User>>,
                       creation: Attempt<Order>, adding: Attempt<()>): (h: Handled<Order, OrderCall>)
    ensures !ActsFor(caller, username) <==> h.calls == []
    ensures !ActsFor(caller, username) ==> h.response == Refused(403)
    ensures ActsFor(caller, username) && lookup.Threw? ==>
              h == Handled(Failure(400, lookup.error), [FetchOwner(username)])
    ensures ActsFor(caller, username) && lookup == Done(None) ==>
              h == Handled(Respond(400, false, None, NoUserFound), [FetchOwner(username)])
    ensures ActsFor(caller, username) && lookup.Done? && lookup.value.Some? ==>
              var owner := lookup.value.value;
              var created := CreateOrderFor(owner, Field(body, "totalPrice"));
              match creation
              case Threw(e) => h == Handled(Failure(400, e), [FetchOwner(username), created])
              case Done(order) =>
                && h.calls == [FetchOwner(username), created, AddBatches(order, Field(body, "reqBatches"))]
                && h.response == (if adding.Done? then Ok(Some(order), "")
                                  else Failure(400, adding.error))
  {
    if !caller.admin && caller.username != username then Handled(Refused(403), [])
    else
      match lookup
      case Threw(e) => Handled(Failure(400, e), [FetchOwner(username)])
      case Done(None) => Handled(Respond(400, false, None, NoUserFound), [FetchOwner(username)])
      case Done(Some(owner)) =>
        var created := [FetchOwner(username), CreateOrderFor(owner, Field(body, "totalPrice"))];
        match creation
        case Threw(e) => Handled(Failure(400, e), created)
        case Done(order) =>
          var calls := created + [AddBatches(order, Field(body, "reqBatches"))];
          match adding
          case Threw(e) => Handled(Failure(400, e), calls)
          case Done(_) => Handled(Ok(Some(order), ""), calls)
  }

  /** Batches are only ever added to an order this request created, and
      only after creating it. */
  lemma BatchesFollowCreation(caller: User, username: string, body: Body, lookup: Attempt<Option<User>>,
                              creation: Attempt<Order>, adding: Attempt<()>)
    ensures var calls := CreateOrder(caller, username, body, lookup, creation, adding).calls;
            forall i | 0 <= i < |calls| && calls[i].AddBatches? ::
              && creation.Done? && calls[i].order == creation.value
              && exists j | 0 <= j < i :: calls[j].CreateOrderFor?
  {
    var calls := CreateOrder(caller, username, body, lookup, creation, adding).calls;
    if |calls| == 3 {
      assert calls[1].CreateOrderFor?;
    }
  }
}
