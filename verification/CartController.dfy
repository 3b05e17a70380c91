/**
 * The `/cart` handlers: reading a user's cart and replacing its contents,
 * both open to that user and to administrators.
 */
module CartController {
  import opened Js
  import opened Http

  /** A cart row with its batches, as the persistence layer returns it. */
  datatype Cart = Cart(id: string, batches: JsValue)

  datatype CartCall =
    | FetchOwner(username: string)
    | FetchCartOf(owner: User)
    | FillCartOf(owner: User, batches: JsValue)

  const AddedProducts := "Added products to cart"

  /** `GET /cart/:username`: the ownership check comes before any lookup.
      Nothing here is inside a `try`, so a failing query leaves the request
      unanswered. */
  function GetCart(caller: User, username: string, lookup: Attempt<Option<User>>,
                   cart: Attempt<Cart>): (h: Handled<Cart, CartCall>)
    ensures !ActsFor(caller, username) <==> h.calls == []
    ensures !ActsFor(caller, username) ==> h.response == Refused(403)
    ensures ActsFor(caller, username) ==>
              match lookup
              case Threw(e) => h == Handled(Unhandled(e), [FetchOwner(username)])
              case Done(None) =>
                h == Handled(Respond(400, false, None, NoUserFound), [FetchOwner(username)])
              case Done(Some(owner)) =>
                && h.calls == [FetchOwner(username), FetchCartOf(owner)]
                && h.response == (if cart.Done? then Ok(Some(cart.value), "")
                                  else Unhandled(cart.error))
  {
    if !caller.admin && caller.username != username then Handled(Refused(403), [])
    else
      match lookup
      case Threw(e) => Handled(Unhandled(e), [FetchOwner(username)])
      case Done(None) => Handled(Respond(400, false, None, NoUserFound), [FetchOwner(username)])
      case Done(Some(owner)) =>
        var calls := [FetchOwner(username), FetchCartOf(owner)];
        match cart
        case Threw(e) => Handled(Unhandled(e), calls)
        case Done(c) => Handled(Ok(Some(c), ""), calls)
  }

  /** `POST /cart/:username/products`: the whole body is the list of
      batches that replaces the cart's contents; every failure after the
      ownership check is caught and answered with 400. */
  function AddBatchesToCart(caller: User, username: string, body: JsValue,
                            lookup: Attempt<Option<User>>, adding: Attempt<()>): (h: Handled<(), CartCall>)
    ensures !ActsFor(caller, username) <==> h.calls == []
    ensures !ActsFor(caller, username) ==> h.response == Refused(403)
    ensures ActsFor(caller, username) ==>
              match lookup
              case Threw(e) => h == Handled(Failure(400, e), [FetchOwner(username)])
              case Done(None) =>
                h == Handled(Respond(400, false, None, NoUserFound), [FetchOwner(username)])
              case Done(Some(owner)) =>
                && h.calls == [FetchOwner(username), FillCartOf(owner, body)]
                && h.response == (if adding.Done? then Ok(None, AddedProducts)
                                  else Failure(400, adding.error))
  {
    if !caller.admin && caller.username != username then Handled(Refused(403), [])
    else
      match lookup
      case Threw(e) => Handled(Failure(400, e), [FetchOwner(username)])
      case Done(None) => Handled(Respond(400, false, None, NoUserFound), [FetchOwner(username)])
      case Done(Some(owner)) =>
        var calls := [FetchOwner(username), FillCartOf(owner, body)];
        match adding
        case Threw(e) => Handled(Failure(400, e), calls)
        case Done(_) => Handled(Ok(None, AddedProducts), calls)
  }

  /** The cart calls are only made with the record looked up for the
      user named in the route, and never for a caller who may not act for
      that user. Which cart row the persistence layer then picks is not
      part of this model. */
  lemma CartCallsTargetRouteUser(caller: User, username: string, body: JsValue,
                                 lookup: Attempt<Option<User>>, cart: Attempt<Cart>, adding: Attempt<()>)
    ensures forall c | c in GetCart(caller, username, lookup, cart).calls ::
              ActsFor(caller, username) &&
              (c.FetchOwner? ==> c.username == username) &&
              (c.FetchCartOf? ==> lookup == Done(Some(c.owner)))
    ensures forall c | c in AddBatchesToCart(caller, username, body, lookup, adding).calls ::
              ActsFor(caller, username) &&
              (c.FetchOwner? ==> c.username == username) &&
              (c.FillCartOf? ==> lookup == Done(Some(c.owner)) && c.batches == body)
  {
  }
}
