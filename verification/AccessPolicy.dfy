/**
 * The authorisation rules the controllers share, stated once and checked
 * against every handler: an owner-scoped handler serves an administrator
 * or the user named in the route, an administrative handler serves
 * administrators only, and a refused request reaches no persistence call.
 */
module AccessPolicy {
  import opened Js
  import opened Http
  import UserController
  import OrderController
  import CartController
  import ProductController
  import AuthMiddleware
  import Routes

  /** The request was turned away before the handler touched any data. */
  predicate RefusedUntouched<D(==), C>(h: Handled<D, C>, status: nat)
  {
    |h.calls| == 0 && h.response == Refused(status)
  }

  /** Every owner-scoped handler refuses, without any call, exactly the
      callers that may not act for the route's user. Account deletion
      refuses with 402, the others with 403. */
  lemma OwnerScopedHandlers(caller: User, username: string, id: string, body: Body, batches: JsValue,
                            lookup: Attempt<Option<User>>, orders: Attempt<seq<OrderController.Order>>,
                            order: Attempt<OrderController.Order>, cart: Attempt<CartController.Cart>,
                            outcome: Attempt<()>)
    ensures RefusedUntouched(OrderController.GetOrdersForUser(caller, username, lookup, orders), 403)
            <==> !ActsFor(caller, username)
    ensures RefusedUntouched(OrderController.GetOrder(caller, username, id, lookup, order), 403)
            <==> !ActsFor(caller, username)
    ensures RefusedUntouched(OrderController.CreateOrder(caller, username, body, lookup, order, outcome), 403)
            <==> !ActsFor(caller, username)
    ensures RefusedUntouched(CartController.GetCart(caller, username, lookup, cart), 403)
            <==> !ActsFor(caller, username)
    ensures RefusedUntouched(CartController.AddBatchesToCart(caller, username, batches, lookup, outcome), 403)
            <==> !ActsFor(caller, username)
    ensures RefusedUntouched(UserController.Delete(caller, username, outcome), 402)
            <==> !ActsFor(caller, username)
  {
  }

  /** Every administrative handler refuses, without any call, exactly the
      callers that are not administrators. */
  lemma AdministrativeHandlers(caller: User, id: string, body: Body, users: Attempt<seq<User>>,
                               orders: Attempt<seq<OrderController.Order>>, outcome: Attempt<()>)
    ensures RefusedUntouched(UserController.GetAll(caller, users), 403) <==> !caller.admin
    ensures RefusedUntouched(OrderController.GetAll(caller, orders), 403) <==> !caller.admin
    ensures RefusedUntouched(ProductController.CreateProduct(caller, body, outcome), 403) <==> !caller.admin
    ensures RefusedUntouched(ProductController.DeleteProduct(caller, id, outcome), 403) <==> !caller.admin
  {
  }

  /** Reading one account is the exception to the rule: the account is
      looked up before the ownership check, so a caller who may not read it
      still learns whether the lookup failed (400) or succeeded (403). */
  lemma AccountReadRevealsLookup(caller: User, username: string, error: string, account: User)
    requires !ActsFor(caller, username)
    ensures var missing := UserController.Get(caller, username, Threw(error));
            var present := UserController.Get(caller, username, Done(account));
            && missing.calls == present.calls == [UserController.FetchUser(username)]
            && missing.response == Failure(400, error)
            && present.response == Refused(403)
  {
  }

  /** Whatever the persistence layer answers, an administrator passes
      every ownership check. */
  lemma AdministratorsPassOwnerChecks(caller: User, username: string, id: string, body: Body,
                                      lookup: Attempt<Option<User>>, orders: Attempt<seq<OrderController.Order>>,
                                      order: Attempt<OrderController.Order>, cart: Attempt<CartController.Cart>,
                                      batches: JsValue, account: Attempt<User>, outcome: Attempt<()>)
    requires caller.admin
    ensures UserController.Get(caller, username, account).response != Refused(403)
    ensures UserController.Delete(caller, username, outcome).response != Refused(402)
    ensures OrderController.GetOrdersForUser(caller, username, lookup, orders).response != Refused(403)
    ensures OrderController.GetOrder(caller, username, id, lookup, order).response != Refused(403)
    ensures OrderController.CreateOrder(caller, username, body, lookup, order, outcome).response != Refused(403)
    ensures CartController.GetCart(caller, username, lookup, cart).response != Refused(403)
    ensures CartController.AddBatchesToCart(caller, username, batches, lookup, outcome).response
            != Refused(403)
  {
  }

  /** Whatever the persistence layer answers, an administrator passes
      every administrators-only check. */
  lemma AdministratorsPassAdminChecks(caller: User, id: string, body: Body, users: Attempt<seq<User>>,
                                      orders: Attempt<seq<OrderController.Order>>, outcome: Attempt<()>)
    requires caller.admin
    ensures UserController.GetAll(caller, users).response != Refused(403)
    ensures OrderController.GetAll(caller, orders).response != Refused(403)
    ensures ProductController.CreateProduct(caller, body, outcome).response != Refused(403)
    ensures ProductController.DeleteProduct(caller, id, outcome).response != Refused(403)
  {
  }

  /** The answer is the "nothing found" 404. */
  predicate NotFound<D>(r: Response<D>)
  {
    r.Respond? && r.status == 404
  }

  /** The listing handlers share one rule: once the caller is allowed and
      the list is fetched, the answer is 404 exactly when the list is
      empty. The handler for one user's orders keeps that rule only in its
      corrected form; as written it never answers 404. */
  lemma ListingsNotFoundIffEmpty(admin: User, reader: User, username: string, owner: User,
                                 users: seq<User>, orders: seq<OrderController.Order>,
                                 products: seq<ProductController.ProductRow>)
    requires admin.admin
    requires ActsFor(reader, username)
    ensures NotFound(UserController.GetAll(admin, Done(users)).response) <==> |users| == 0
    ensures NotFound(OrderController.GetAll(admin, Done(orders)).response) <==> |orders| == 0
    ensures NotFound(ProductController.GetAll(Done(products)).response) <==> |products| == 0
    ensures NotFound(OrderController.GetOrdersForUser(reader, username, Done(Some(owner)), Done(orders)).response)
            <==> |orders| == 0
    ensures !NotFound(OrderController.GetOrdersForUserAsWritten(reader, username, Done(Some(owner)),
                                                                Done(orders)).response)
  {
  }

  /** The catalogue is open to everybody: both reads pass the middleware
      with no caller, whatever the header. The catalogue listing answers
      404 exactly when it is empty, and a single product 404 exactly when
      its lookup fails, carrying the failure's text. */
  lemma CatalogueReads(header: Option<string>, verify: string -> Option<string>,
                       findById: string -> Attempt<User>, id: string,
                       products: seq<ProductController.ProductRow>,
                       lookup: Attempt<ProductController.ProductRow>)
    ensures Routes.Admit(Routes.ListProducts, header, verify, findById) == AuthMiddleware.Next(None)
    ensures Routes.Admit(Routes.ShowProduct, header, verify, findById) == AuthMiddleware.Next(None)
    ensures NotFound(ProductController.GetAll(Done(products)).response) <==> |products| == 0
    ensures var h := ProductController.GetProduct(id, lookup);
            && h.calls == [ProductController.FetchProduct(id)]
            && (NotFound(h.response) <==> lookup.Threw?)
            && (lookup.Threw? ==> h.response == Failure(404, lookup.error))
            && (lookup.Done? ==> h.response == Ok(Some(lookup.value), ""))
  {
  }
}
