# IPRWC API: login guard, limiters, auth middleware and controller rules

This project models the decision logic of the IPRWC shop API, an Express
backend written in TypeScript. It covers the following pieces:

- **Login guard** (`POST /auth/login`). It checks the body, reads two rate
  limiters and applies the IP-before-pair precedence. It turns
  `msBeforeNext` into a `Retry-After` in whole seconds. Correct credentials
  reset the pair counter. Wrong credentials charge the IP counter, and the
  pair counter only for a registered username. A throttling rejection is
  told apart from a store error.
- **Limiter configuration**: the two `RateLimiterMySQL` option blocks and
  the constants they are built from.
- **Authentication middlewares**: `authMiddleware` and
  `optionalAuthMiddleware`, including the strip of `/^Bearer\s+/` and the
  three outcomes (no header, verified token, bad token).
- **Controllers**: the authorisation and status-code rules of the user,
  order, cart and product controllers. This includes the admin-flag rule on
  sign-up and the field-by-field partial update of products.

Every handler is a pure function of:

- the caller;
- the route parameters and body;
- the answers of the collaborators it awaits: the database, the limiter
  store, `argon2`, `jsonwebtoken`.

Most collaborator answers are inputs of type `Attempt` (resolves or
rejects); the limiter reads, the login-user lookup and `argon2.verify` are
`Option` or `bool` inputs. The result is the response plus the ordered list of calls the
handler made. So properties such as "a refused request touches no data" and
"a throttled login consumes nothing" can be stated directly.

`LoginRuns` idealises the limiter store (`LimiterStore`): counters without
time, where `consume` adds a point and rejects once the allowance is
exceeded. On that store it follows a sequence of login attempts. One result
is that the eleventh consecutive wrong password from one IP is throttled.
Another is that a successful login wipes the streak.

The model follows the code in three places where it does less than one
might expect:

- The body check accepts any two strings, empty ones included, because the
  code only tests `typeof`.
- When both consumes of a wrong attempt reject, `Promise.all` reports
  whichever rejection settles first, not the larger delay. The model leaves
  that choice open (`ipRejectsFirst`).
- The IP limiter's window and block are one hour each, whatever its
  `per_day` prefix says.

Modules:

- `Js`: JavaScript values and truthiness.
- `Http`: the caller, the ownership rule and the response envelope.
- `Config` and `LimiterStore`.
- `AuthController`.
- `LoginRuns`.
- `AuthMiddleware`.
- `Routes`: which middleware guards each route.
- `UserController`, `OrderController`, `CartController` and `ProductController`.
- `AccessPolicy`: the authorisation rules, checked across all controllers.

## Model

| member | source | states |
|---|---|---|
| Js.FalsyValues | src/controllers/product.controller.ts:97-116 | The values an `if (req.body.x)` test skips are exactly `undefined`, `null`, `false`, `0`, `NaN` and `""`. |
| Config.IPLimiterOptions | src/server.ts:37-43 | The IP limiter allows `maxWrongAttemptsByIPPerDay` = 100 points. Its window and its block are both 3600 s, not a day. |
| Config.PairLimiterOptions | src/server.ts:45-51 | The pair limiter allows `maxConsecutiveFailsByUsernameAndIP` = 10 points, fewer than the IP limiter. Its window is 30 days (2 592 000 s), longer than its 3600 s block. |
| Config.KeyPrefixesNeverCollide | src/server.ts:37-51 | The two key prefixes differ, and no string built on one equals a string built on the other. |
| LimiterStore.Consume | src/controllers/auth.controller.ts:86-92 | A consume adds exactly one point to its key, creating the row if needed, and leaves every other key's count unchanged. |
| LimiterStore.Delete | src/controllers/auth.controller.ts:60-63 | A delete removes its key, so its count reads 0, and leaves every other key's count unchanged. |
| LimiterStore.DeleteIdempotent | src/controllers/auth.controller.ts:60-63 | Deleting twice is the same as deleting once, and deleting an absent key changes nothing. |
| LimiterStore.StorageKeysDisjoint | src/server.ts:37-51 | The two limiters share one store, yet no IP row key equals any pair row key. |
| LimiterStore.ConsumeAfterDeleteStartsAfresh | src/controllers/auth.controller.ts:60-63 | After a reset, the next consume leaves exactly one point. |
| AuthController.RetrySecs | src/controllers/auth.controller.ts:49 | `Math.round(ms/1000) \|\| 1` is always at least 1. It is within half a second of `ms` when `ms >= 500`, and 1 below that. |
| AuthController.Settle | src/controllers/auth.controller.ts:86-101 | `Promise.all` over the consumes resolves exactly when every consume resolves. Otherwise it reports one of the actual rejections, and the only rejection when there is one. |
| AuthController.Login | src/controllers/auth.controller.ts:33-105 | A body whose `username` or `password` is not a string gets 400 with no limiter call, and only such a body does. Otherwise the first calls read the pair key and the IP. Every 429 carries a delay of at least one second. |
| AuthController.PairKeyInjective | src/controllers/auth.controller.ts:39 | When IPs contain no `_`, the key `username_ip` determines both the username and the IP. |
| AuthController.PairKeyAmbiguousWithoutCondition | src/controllers/auth.controller.ts:39 | Without that condition two different pairs share a key: `a_b`+`c` and `a`+`b_c`. |
| AuthController.LoginKeys | src/controllers/auth.controller.ts:38-42 | Every IP-limiter call uses the raw IP, and every pair-limiter call (get, consume, delete) uses `username_ip`. |
| AuthController.Precedence | src/controllers/auth.controller.ts:45-56 | An IP count above 100 sets the delay whatever the pair count is. A pair count above 10 sets it otherwise. Counts equal to a limit do not throttle. A request throttled here makes exactly the two reads: no account lookup, password check, consume or delete. |
| AuthController.SuccessfulLogin | src/controllers/auth.controller.ts:59-82 | Correct credentials delete the pair row exactly when it existed with points, and never consume. With every collaborator succeeding the answer is `{expiresIn, token, user}`; otherwise the failure is rethrown. |
| AuthController.SuccessfulLoginTrace | src/controllers/auth.controller.ts:58-82 | With correct credentials and every collaborator succeeding, the calls are: the two reads, the lookup, the password check, the reset (only when the streak held points), the signing and the profile lookup. |
| AuthController.FailedLogin | src/controllers/auth.controller.ts:84-101 | The exact call trace of a wrong attempt: reads, lookup, the password check for a known username, then the consumes. The answer is the generic 400 when all consumes resolve, a 429 timed by the reported rejection, or the store error rethrown. |
| AuthController.WrongAttemptCharges | src/controllers/auth.controller.ts:86-92 | That trace consumes from the IP limiter exactly once and from the pair limiter once exactly for a known username, and never deletes or signs. |
| AuthController.FailedLoginCharges | src/controllers/auth.controller.ts:86-92 | A wrong attempt consumes from the IP limiter exactly once, and from the pair limiter once exactly when the username is registered. It deletes nothing and signs nothing. |
| AuthController.FailureHidesAccount | src/controllers/auth.controller.ts:94 | An unknown username and a registered one with a wrong password get the same answer when the pair limiter accepts the charge. |
| LoginRuns.WrongTraceEffect | src/controllers/auth.controller.ts:86-92 | On the store, the trace of a wrong attempt adds one point to the IP row, and one to the pair row for a known username. |
| LoginRuns.WrongAttempt | src/controllers/auth.controller.ts:84-101 | On the store, an admitted wrong attempt adds one point to the IP row, and one to the pair row for a registered username, and changes nothing else. It is answered 400 unless a charge goes over a limit, in which case it is 429. |
| LoginRuns.CorrectTraceEffect | src/controllers/auth.controller.ts:60-63 | On the store, the trace of a successful login deletes the pair row when the streak is reset, and changes nothing otherwise. |
| LoginRuns.CorrectAttempt | src/controllers/auth.controller.ts:59-82 | On the store, an admitted correct login answers with the token, leaves the pair row at zero points, and changes no other row. |
| LoginRuns.BlockedIP | src/controllers/auth.controller.ts:47-56 | An IP row over its limit gets a 429 whatever the credentials, and the store is unchanged. |
| LoginRuns.StreakStep | src/controllers/auth.controller.ts:86-92 | During a streak below the pair limit, one more wrong password adds exactly one point to each row. |
| LoginRuns.FailureStreak | src/controllers/auth.controller.ts:84-92 | From fresh rows, n <= 10 wrong passwords for a registered username leave exactly n points on both rows. |
| LoginRuns.StreakAnswers | src/controllers/auth.controller.ts:92-94 | Each of those first ten wrong passwords is answered with the generic 400, not throttled. |
| LoginRuns.EleventhFailureThrottled | src/controllers/auth.controller.ts:33-105 | The eleventh consecutive wrong password is throttled. So is every later attempt, even with the right password, before any credential check. |
| LoginRuns.SuccessAfterFailure | src/controllers/auth.controller.ts:59-63 | A correct login after a failure succeeds and removes the pair row. |
| LoginRuns.UnknownUsername | src/controllers/auth.controller.ts:87-91 | An unknown username charges only the IP row. |
| LoginRuns.ThrottleRevealsAccount | src/controllers/auth.controller.ts:86-100 | The limit of the hiding: with the pair row at 10 points and the IP row below 100, a registered username's wrong password is throttled (429), while an unknown username still gets the generic 400. So the answer then shows whether the account exists. |
| AuthMiddleware.SkipSpaces | src/middleware/auth.middleware.ts:10 | The greedy `\s+` drops a leading run made only of JavaScript whitespace and stops at the first other character. |
| AuthMiddleware.StripBearer | src/middleware/auth.middleware.ts:10 | A header without a leading case-sensitive `Bearer` followed by whitespace is the token unchanged. Otherwise the token is the header's suffix after that prefix and all of the whitespace. |
| AuthMiddleware.StripBearerRoundTrip | src/middleware/auth.middleware.ts:25 | `Bearer`, one or more whitespace characters, then a token, strips back to that token. |
| AuthMiddleware.Authenticate | src/middleware/auth.middleware.ts:7-18 | A missing or empty header gets 403 `Not authorized`. `next` is called exactly when the stripped token verifies and its `userId` loads, and then with that user. Every other case gets 403 `Invalid Token`. |
| AuthMiddleware.AuthenticateOptional | src/middleware/auth.middleware.ts:20-34 | With no header it calls `next` with no user. With a header it behaves exactly like `authMiddleware`. |
| Routes.Admit | src/controllers/product.controller.ts:17-23 | Public routes always reach the handler without a caller. Guarded routes deny a request without a header and otherwise act as `authMiddleware`. The optional route admits a missing header without a caller. |
| Routes.CatalogueReadsArePublic | src/controllers/product.controller.ts:18-19 | The two catalogue reads reach the handler without credentials and without a caller. |
| Routes.CatalogueChangesNeedToken | src/controllers/product.controller.ts:20-22 | Create, delete and patch sit behind `authMiddleware`, so a request without a header is denied with 403 `Not authorized` before the handler runs. |
| Routes.ReachableWithoutCaller | src/controllers/user.controller.ts:17-22 | Only login, the two catalogue reads and sign-up can reach a handler without a caller. |
| UserController.GetAll | src/controllers/user.controller.ts:24-42 | A non-admin gets 403 and no users are fetched. Otherwise an empty list is 404 `No users found` and a non-empty one 200. |
| UserController.Get | src/controllers/user.controller.ts:44-61 | The lookup always runs first. A failure is 400 with its text. Otherwise the account goes only to an admin or its owner; anyone else gets 403. |
| UserController.Create | src/controllers/user.controller.ts:63-85 | Nothing is stored exactly when a non-admin or anonymous caller sends a truthy `admin`; that answer is 400 `Not authorized`. Otherwise the body is stored, with `admin` forced to `false` unless the caller is an admin. The answer is 201 `User created` or 400 with the error. |
| UserController.CreateNeverEscalates | src/controllers/user.controller.ts:66-77 | For a non-admin caller, the body the handler passes to `create` has `admin: false` and every other key as sent. |
| UserController.Delete | src/controllers/user.controller.ts:87-103 | A caller who is neither admin nor the owner gets 402 and nothing is removed. Success is 410 `User deleted`, and an error is 400. |
| OrderController.GetAll | src/controllers/order.controller.ts:27-45 | A non-admin gets 403 with no query. An empty list is 404 `No orders found`. |
| OrderController.GetOrdersForUserAsWritten | src/controllers/order.controller.ts:47-73 | As written, the handler never answers 404, whatever the order list. |
| OrderController.EmptyOrdersNeverNotFound | src/controllers/order.controller.ts:66-72 | As written, an owner with no orders gets 200 with `[]`. |
| OrderController.GetOrdersForUser | src/controllers/order.controller.ts:47-73 | With the emptiness test corrected, the answer is 404 exactly when the list is empty. The ownership check comes before the owner lookup. |
| OrderController.CorrectionOnlyAffectsEmptyLists | src/controllers/order.controller.ts:63-72 | The corrected handler agrees with the written one on every input except an empty order list. |
| OrderController.GetOrder | src/controllers/order.controller.ts:75-101 | 403 without any call unless admin or owner. A missing owner is 400 `No user found`, and every rejection is 400 with its text. |
| OrderController.CreateOrder | src/controllers/order.controller.ts:103-138 | 403 without any call unless admin or owner. The order is created with `totalPrice`, then `reqBatches` are added to that order. The answer is the created order, or 400 with the first error. |
| OrderController.BatchesFollowCreation | src/controllers/order.controller.ts:126-133 | Batches are only ever added to the order this request created, and only after creating it. |
| CartController.GetCart | src/controllers/cart.controller.ts:25-46 | 403 without any call unless admin or owner. A missing owner is 400 `No user found`, and a rejection is not caught. |
| CartController.AddBatchesToCart | src/controllers/cart.controller.ts:48-73 | 403 without any call unless admin or owner. The whole body fills the owner's cart, and success is 200 `Added products to cart`. Every rejection is 400. |
| CartController.CartCallsTargetRouteUser | src/controllers/cart.controller.ts:25-73 | The cart calls are only made with the record looked up for the route's user, and only for a caller who may act for that user. |
| ProductController.GetAll | src/controllers/product.controller.ts:25-37 | An empty catalogue is 404 `No products found`, and a non-empty one is 200 with the list. |
| ProductController.GetProduct | src/controllers/product.controller.ts:39-50 | A failed lookup is 404 carrying the error text. |
| ProductController.CreateProduct | src/controllers/product.controller.ts:52-69 | A non-admin gets 403 and nothing is stored. Otherwise the answer is 201 `Product created`, or 400 with the error. |
| ProductController.DeleteProduct | src/controllers/product.controller.ts:71-88 | A non-admin gets 403 and nothing is removed. Otherwise the answer is 200 `Product deleted`, or 400 with the error. |
| ProductController.PlannedEdits | src/controllers/product.controller.ts:97-116 | Every planned edit targets the route's product and one of the given fields, with the body's value for it, and that value is truthy. |
| ProductController.PlannedEditsComplete | src/controllers/product.controller.ts:97-116 | A field is edited exactly when it is one of the editable fields and its value in the body is truthy. |
| ProductController.PlannedEditsTouchOnlyGivenFields | src/controllers/product.controller.ts:97-116 | After the edits, each truthy editable field holds the body's value, and every other field of the product (a falsy price or name included) is as it was. |
| ProductController.UpdateProduct | src/controllers/product.controller.ts:90-124 | A non-admin gets 403 with no edit. An admin's edits run in the order name, description, price, image, and are always a prefix of the planned edits. The answer is 200 `Product edited` (even with nothing to edit) exactly when every planned edit ran and succeeded. Otherwise the last edit tried is the one that failed, and its error is a 400. |
| AccessPolicy.OwnerScopedHandlers | src/controllers/order.controller.ts:47-138 | Every owner-scoped handler (orders, cart, account deletion) refuses without any call exactly the callers that may not act for the route's user. |
| AccessPolicy.AdministrativeHandlers | src/controllers/product.controller.ts:52-88 | Every admin-only handler (list users, list orders, create and delete product) refuses without any call exactly the non-admins. |
| AccessPolicy.AccountReadRevealsLookup | src/controllers/user.controller.ts:44-61 | Reading another user's account makes the lookup anyway, so the answer (400 or 403) shows whether the lookup failed. |
| AccessPolicy.AdministratorsPassOwnerChecks | src/controllers/order.controller.ts:47-138 | Whatever the persistence layer answers, an admin is never refused by a handler scoped to one user (account read and deletion, orders, cart). |
| AccessPolicy.AdministratorsPassAdminChecks | src/controllers/product.controller.ts:52-88 | Whatever the persistence layer answers, an admin is never refused by an admin-only handler. |
| AccessPolicy.ListingsNotFoundIffEmpty | src/controllers/order.controller.ts:27-73 | The listing handlers (users, orders, products, and one user's orders in corrected form) answer 404 exactly when the fetched list is empty. One user's orders as written never answers 404. |
| AccessPolicy.CatalogueReads | src/controllers/product.controller.ts:17-50 | Both catalogue reads pass the route guard with no caller, whatever the header. The listing is 404 exactly when empty, and a single product is 404 with the error text exactly when its lookup fails, otherwise 200 with the row. |

## Left out

- Limiter library internals are not modelled: rolling windows, block extension, how `msBeforeNext` is computed, MySQL storage and atomicity. The limiters' `get` and `consume` answers are inputs of `Login`. `LoginRuns` uses an idealised clock-free store in which nothing expires.
- A rejected limiter `get`, `getLoginUser` or `argon2.verify` is not modelled; those calls are assumed to resolve. Rejections of the reset `delete`, of `jwt.sign` and of the profile lookup are modelled as `Thrown`.
- The concurrency inside `Promise.all` is not modelled: the calls are listed in program order, and when both consumes reject, which rejection surfaces is an input (`ipRejectsFirst`).
- Cryptography is left out. `argon2.verify` is a boolean input, `jwt.sign` an `Attempt<string>` input, and `jwt.verify` a function parameter of the middlewares.
- The TypeORM CRUD layer and the entity models are left out. Each awaited CRUD call is an `Attempt` input, and the handler's call list records what it was asked to do.
- In the order and cart controllers the owner lookup is `Attempt<Option<User>>`, so the `!user` branch can be stated. The CRUD `get` uses `getOneOrFail`, so in the running system that branch is unreachable: a missing user rejects instead.
- The cart CRUD queries are not restricted to the route's user. `getCart` and `addBatches` (src/crud/cart.crud.ts:14-27) join `cart.user` with no `where` on it, so `getOneOrFail` returns the first cart row whatever user is passed, and `addBatches` then empties and refills that cart. The model records only which user record the handler passes to them.
- User creation in the CRUD layer (src/crud/user.crud.ts:32-45) is left out. It drops `id`, `orders` and `cart` from the body, hashes the password, validates the row and gives it a new cart before saving. The model stops at the body the handler passes to `create`.
- Express wiring is left out: server start-up, global middlewares, router mounting and `listen`. Note that `src/index.ts` mounts only the user and auth controllers.
- The `dateTime` field of the response envelope is a clock reading and is omitted. The 429 bodies and the `Retry-After` header are represented by `TooManyRequests(retryAfter)`.
- `GET /auth/me` only echoes `req.user` and is left out beyond its route guard.
- Floating point is left out. Prices and other numbers are `real` values that no handler inspects beyond truthiness. `Math.round` is computed in integers on a whole number of milliseconds.
- Request bodies are flat maps from field name to value. Nested objects and arrays are one opaque `Composite` value.

## Findings

| source | as written | input that shows it | evidently intended | confidence | as-written member | corrected member |
|---|---|---|---|---|---|---|
| src/controllers/order.controller.ts:67 | `if (orders.length < 0)` guards the 404 `No orders found` answer; no length is negative, so the branch is dead | an owner with no orders: `GET /orders/:username` answers 200 with `[]` | `orders.length < 1`, as in every other listing handler (AccessPolicy.ListingsNotFoundIffEmpty): an empty list is 404 | high, not executed | OrderController.GetOrdersForUserAsWritten, OrderController.EmptyOrdersNeverNotFound | OrderController.GetOrdersForUser |
