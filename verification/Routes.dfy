/**
 * Which middleware stands in front of each route the controllers register,
 * and what reaches the handler as a result.
 */
module Routes {
  import opened Js
  import opened Http
  import opened AuthMiddleware

  datatype Guard = Public | Required | Optional

  datatype Endpoint =
    | AuthMe          // GET    /auth/me
    | AuthLogin       // POST   /auth/login
    | ListUsers       // GET    /users
    | ShowUser        // GET    /users/:username
    | CreateUser      // POST   /users
    | DeleteUser      // DELETE /users/:username
    | ListOrders      // GET    /orders
    | UserOrders      // GET    /orders/:username
    | ShowOrder       // GET    /orders/:username/:id
    | PlaceOrder      // POST   /orders/:username
    | ShowCart        // GET    /cart/:username
    | FillCart        // POST   /cart/:username/products
    | ListProducts    // GET    /products
    | ShowProduct     // GET    /products/:id
    | CreateProduct   // POST   /products
    | DeleteProduct   // DELETE /products/:id
    | PatchProduct    // PATCH  /products/:id

  function GuardOf(e: Endpoint): Guard
  {
    match e
    case AuthLogin | ListProducts | ShowProduct => Public
    case CreateUser => Optional
    case _ => Required
  }

  /** The middleware of the endpoint applied to the request. */
  function Admit(e: Endpoint, header: Option<string>, verify: string -> Option<string>,
                 findById: string -> Attempt<User>): (g: Gate)
    ensures GuardOf(e) == Public ==> g == Next(None)
    ensures GuardOf(e) == Required && NoHeader(header) ==> g == Deny(403, NotAuthorized)
    ensures GuardOf(e) == Required && g.Next? ==> g.user.Some?
    ensures GuardOf(e) == Optional && NoHeader(header) ==> g == Next(None)
    ensures GuardOf(e) != Public && !NoHeader(header) ==>
              g == Authenticate(header, verify, findById)
  {
    match GuardOf(e)
    case Public => Next(None)
    case Required => Authenticate(header, verify, findById)
    case Optional => AuthenticateOptional(header, verify, findById)
  }

  /** Reading the catalogue needs no credentials. */
  lemma CatalogueReadsArePublic(header: Option<string>, verify: string -> Option<string>,
                                findById: string -> Attempt<User>)
    ensures Admit(ListProducts, header, verify, findById) == Next(None)
    ensures Admit(ShowProduct, header, verify, findById) == Next(None)
  {
  }

  /** Every change to the catalogue sits behind `authMiddleware`: a request
      without a header is denied before the handler runs. */
  lemma CatalogueChangesNeedToken(header: Option<string>, verify: string -> Option<string>,
                                  findById: string -> Attempt<User>)
    ensures GuardOf(CreateProduct) == GuardOf(DeleteProduct) == GuardOf(PatchProduct) == Required
    ensures NoHeader(header) ==>
              && Admit(CreateProduct, header, verify, findById) == Deny(403, NotAuthorized)
              && Admit(DeleteProduct, header, verify, findById) == Deny(403, NotAuthorized)
              && Admit(PatchProduct, header, verify, findById) == Deny(403, NotAuthorized)
  {
  }

  /** Only the login route, the two catalogue reads and user sign-up can be
      reached without a caller. */
  lemma ReachableWithoutCaller(e: Endpoint, header: Option<string>,
                               verify: string -> Option<string>, findById: string -> Attempt<User>)
    ensures Admit(e, header, verify, findById) == Next(None) ==>
              e in {AuthLogin, ListProducts, ShowProduct, CreateUser}
  {
  }
}
