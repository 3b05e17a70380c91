/**
 * What the controllers share: the authenticated caller (`req.user`), the
 * ownership rule most endpoints apply, and the JSON envelope every
 * controller answers with.
 */
module Http {
  import opened Js

  /** A user row as the handlers see it: `req.user` after the auth
      middleware, or the result of a user lookup. The password hash is never
      selected into these rows. */
  datatype User = User(username: string, admin: bool, email: string)

  /** The rule shared by every per-user endpoint: an administrator may act
      for anybody, anyone else only for themselves. */
  predicate ActsFor(caller: User, username: string)
  {
    caller.admin || caller.username == username
  }

  const NotAuthorized := "Not authorized"
  const NoUserFound := "No user found"

  /** The outcome of a handler: either it answered with the
      `{success, dateTime, data, message}` envelope and a status code, or an
      awaited call rejected outside any `try` and the request was left
      without an answer. The envelope's `dateTime` is a clock reading and is
      not modelled. */
  datatype Response<D> =
    | Respond(status: nat, success: bool, data: Option<D>, message: string)
    | Unhandled(error: string)

  /** A handler's response together with the calls it made into the
      persistence layer, in the order it made them. */
  datatype Handled<D, C> = Handled(response: Response<D>, calls: seq<C>)

  /** The answer every `catch (error)` block of the controllers gives. */
  function Failure<D>(status: nat, error: string): Response<D>
  {
    Respond(status, false, None, error)
  }

  /** The answer to a caller the endpoint's rule does not admit. */
  function Refused<D>(status: nat): Response<D>
  {
    Respond(status, false, None, NotAuthorized)
  }

  /** `response(res, true, data, message)`: the status defaults to 200. */
  function Ok<D>(data: Option<D>, message: string): Response<D>
  {
    Respond(200, true, data, message)
  }
}
