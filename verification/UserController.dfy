/**
 * The `/users` handlers: listing (administrators only), reading one
 * account, sign-up, and deletion. Each is a function of the caller, the
 * route parameters, the body and the answers of the persistence layer.
 */
module UserController {
  import opened Js
  import opened Http

  /** The calls the handlers make into the persistence layer. */
  datatype UserCall =
    | FetchAllUsers
    | FetchUser(username: string)
    | StoreUser(body: Body)
    | RemoveUser(username: string)

  const NoUsersFound := "No users found"
  const UserCreated := "User created"
  const UserDeleted := "User deleted"

  /** `GET /users`: only an administrator may list the accounts; an empty
      list is a 404. A failing query is not caught. */
  function GetAll(caller: User, users: Attempt<seq<User>>): (h: Handled<seq<User>, UserCall>)
    ensures !caller.admin <==> h.calls == []
    ensures !caller.admin ==> h.response == Refused(403)
    ensures caller.admin ==> h.calls == [FetchAllUsers]
    ensures caller.admin && users.Threw? ==> h.response == Unhandled(users.error)
    ensures caller.admin && users.Done? ==>
              h.response == (if |users.value| == 0
                             then Respond(404, false, None, NoUsersFound)
                             else Ok(Some(users.value), ""))
  {
    if !caller.admin then Handled(Refused(403), [])
    else
      match users
      case Threw(e) => Handled(Unhandled(e), [FetchAllUsers])
      case Done(list) =>
        if |list| < 1 then Handled(Respond(404, false, None, NoUsersFound), [FetchAllUsers])
        else Handled(Ok(Some(list), ""), [FetchAllUsers])
  }

  /** `GET /users/:username`: the lookup runs before the ownership check,
      so a failing lookup is a 400 even for a caller who may not read the
      account. */
  function Get(caller: User, username: string, lookup: Attempt<User>): (h: Handled<User, UserCall>)
    ensures h.calls == [FetchUser(username)]
    ensures lookup.Threw? ==> h.response == Failure(400, lookup.error)
    ensures lookup.Done? ==>
              h.response == (if ActsFor(caller, username) then Ok(Some(lookup.value), "")
                             else Refused(403))
  {
    match lookup
    case Threw(e) => Handled(Failure(400, e), [FetchUser(username)])
    case Done(user) =>
      if !caller.admin && caller.username != username then
        Handled(Refused(403), [FetchUser(username)])
      else
        Handled(Ok(Some(user), ""), [FetchUser(username)])
  }

  /** The caller may create administrators. */
  predicate Privileged(caller: Option<User>)
  {
    caller.Some? && caller.value.admin
  }

  /** `POST /users` (behind the optional middleware): a caller that is not
      an administrator, signed in or not, may not ask for an administrator
      account, and has the `admin` flag forced to `false`; an
      administrator's body is stored as sent. */
  function Create(caller: Option<User>, body: Body, creation: Attempt<()>): (h: Handled<(), UserCall>)
    ensures !Privileged(caller) && Truthy(Field(body, "admin")) <==> h.calls == []
    ensures h.calls == [] ==> h.response == Respond(400, false, None, NotAuthorized)
    ensures h.calls != [] ==>
              && h.calls == [StoreUser(if Privileged(caller) then body
                                       else body["admin" := Bool(false)])]
              && h.response == (if creation.Done? then Respond(201, true, None, UserCreated)
                                else Failure(400, creation.error))
  {
    if !Privileged(caller) && Truthy(Field(body, "admin")) then
      Handled(Respond(400, false, None, NotAuthorized), [])
    else
      var stored := if Privileged(caller) then body else body["admin" := Bool(false)];
      match creation
      case Threw(e) => Handled(Failure(400, e), [StoreUser(stored)])
      case Done(_) => Handled(Respond(201, true, None, UserCreated), [StoreUser(stored)])
  }

  /** No privilege escalation: for a non-administrator, the body the
      handler passes to `create` has `admin` false and every other key as
      sent. */
  lemma CreateNeverEscalates(caller: Option<User>, body: Body, creation: Attempt<()>)
    requires !Privileged(caller)
    ensures forall c | c in Create(caller, body, creation).calls ::
              && c.StoreUser?
              && Field(c.body, "admin") == Bool(false)
              && (forall k | k != "admin" :: Field(c.body, k) == Field(body, k))
  {
  }

  /** `DELETE /users/:username`: anyone but an administrator or the owner
      is refused with 402; success is answered with 410. */
  function Delete(caller: User, username: string, removal: Attempt<()>): (h: Handled<(), UserCall>)
    ensures !ActsFor(caller, username) <==> h.calls == []
    ensures !ActsFor(caller, username) ==> h.response == Refused(402)
    ensures ActsFor(caller, username) ==>
              && h.calls == [RemoveUser(username)]
              && h.response == (if removal.Done? then Respond(410, true, None, UserDeleted)
                                else Failure(400, removal.error))
  {
    if !caller.admin && caller.username != username then Handled(Refused(402), [])
    else
      match removal
      case Threw(e) => Handled(Failure(400, e), [RemoveUser(username)])
      case Done(_) => Handled(Respond(410, true, None, UserDeleted), [RemoveUser(username)])
  }
}
