/**
 * The login guard of `POST /auth/login`: validates the body, reads the
 * per-IP and per-(username, IP) failure counters, throttles when either is
 * over its limit (the IP counter first), and otherwise checks the
 * credentials, resetting the pair counter on success and charging the
 * counters on failure.
 *
 * Everything the handler awaits is an input: the two limiter reads, the
 * account lookup, the password check, the outcome of each limiter call and
 * of token signing. The result is the response together with the trace of
 * the calls the handler made.
 */
module AuthController {
  import opened Js
  import opened Http
  import opened Config

  /** What a limiter's `get` returns for a key that has a row. */
  datatype LimiterRes = LimiterRes(consumedPoints: nat, msBeforeNext: nat)

  /** How a limiter's `consume` settles: it resolves; it rejects with a
      limiter result because the key went over its points (a throttling
      signal); or it rejects with an `Error` (the store failed). */
  datatype ConsumeOutcome =
    | Consumed
    | OverLimit(msBeforeNext: nat)
    | StoreError(error: string)

  /** The calls the handler makes into its collaborators. */
  datatype LoginCall =
    | GetPair(key: string)
    | GetIP(ip: string)
    | FindLoginUser(username: string)
    | VerifyPassword
    | DeletePair(key: string)
    | ConsumeIP(ip: string)
    | ConsumePair(key: string)
    | SignToken(userId: string)
    | FetchUser(username: string)

  /** Everything the handler learns from its collaborators. Inputs the
      handler never consults on a given path are simply ignored there. */
  datatype LoginWorld = LoginWorld(
    pairState: Option<LimiterRes>,  // pair limiter `get(username_ip)`
    ipState: Option<LimiterRes>,    // IP limiter `get(ip)`
    loginUser: Option<string>,      // id of the account `getLoginUser` finds
    passwordVerifies: bool,         // `argon2.verify` against its hash
    deletion: Attempt<()>,          // pair limiter `delete`
    ipConsume: ConsumeOutcome,      // IP limiter `consume`
    pairConsume: ConsumeOutcome,    // pair limiter `consume`
    ipRejectsFirst: bool,           // which rejection `Promise.all` reports when both reject
    signing: Attempt<string>,       // `jwt.sign`: the token, or the error it reports
    profile: Attempt<User>,         // `getUser(username)` inside the signing callback
    expiresIn: int)                 // `expiresIn` from the environment

  /** How the request ends. `Thrown` is an error that escapes the handler:
      no answer is sent. */
  datatype LoginResponse =
    | BadRequest(message: string)
    | TooManyRequests(retryAfter: nat)
    | LoggedIn(expiresIn: int, token: string, user: User)
    | Thrown(error: string)

  datatype LoginResult = LoginResult(response: LoginResponse, calls: seq<LoginCall>)

  const SpecifyCredentials := "Please specify a username and password"
  const WrongCredentials := "email or password is wrong"

  /** The body check: both fields must be strings (possibly empty). */
  predicate ValidLoginBody(body: Body)
  {
    IsString(Field(body, "username")) && IsString(Field(body, "password"))
  }

  /** The key of the pair limiter. */
  function PairKey(username: string, ip: string): string
  {
    username + "_" + ip
  }

  /** `Math.round(ms / 1000) || 1`, in integers: the whole number of seconds
      nearest to `ms` (halves rounded up), or 1 when that is 0. */
  function RetrySecs(ms: nat): (secs: nat)
    ensures secs >= 1
    ensures ms >= 500 ==> 1000 * secs - 500 <= ms < 1000 * secs + 500
    ensures ms < 500 ==> secs == 1
  {
    var rounded := (ms + 500) / 1000;
    if rounded == 0 then 1 else rounded
  }

  /** The IP counter is over its limit (equal to the limit is not over). */
  predicate IPThrottles(ipState: Option<LimiterRes>)
  {
    ipState.Some? && ipState.value.consumedPoints > MaxWrongAttemptsByIPPerDay
  }

  /** The pair counter is over its limit (equal to the limit is not over). */
  predicate PairThrottles(pairState: Option<LimiterRes>)
  {
    pairState.Some? && pairState.value.consumedPoints > MaxConsecutiveFailsByUsernameAndIP
  }

  /** The pre-check's `retrySecs`: taken from the IP counter when it is
      over its limit, else from the pair counter when that one is, else 0. */
  function PrecheckRetry(ipState: Option<LimiterRes>, pairState: Option<LimiterRes>): nat
  {
    if IPThrottles(ipState) then RetrySecs(ipState.value.msBeforeNext)
    else if PairThrottles(pairState) then RetrySecs(pairState.value.msBeforeNext)
    else 0
  }

  /** `await Promise.all(promises)` over the IP consume and, for a
      registered user, the pair consume: it resolves when every consume
      resolves, and otherwise rejects with one of the rejections. When both
      reject, which one is reported depends on timing: `ipFirst` picks. */
  function Settle(ip: ConsumeOutcome, pair: Option<ConsumeOutcome>, ipFirst: bool): (r: ConsumeOutcome)
    ensures r.Consumed? <==> ip.Consumed? && (pair.None? || pair.value.Consumed?)
    ensures !r.Consumed? ==>
              r == ip || (pair.Some? && r == pair.value)
    ensures ip.Consumed? && pair.Some? ==> r == pair.value
    ensures pair.None? || pair.value.Consumed? ==> r == ip
  {
    match pair
    case None => ip
    case Some(p) =>
      if ip.Consumed? then p
      else if p.Consumed? then ip
      else if ipFirst then ip
      else p
  }

  /** The handler. */
  function Login(body: Body, ip: string, w: LoginWorld): (r: LoginResult)
    ensures !ValidLoginBody(body) <==> r.response == BadRequest(SpecifyCredentials)
    ensures !ValidLoginBody(body) ==> r.calls == []
    ensures ValidLoginBody(body) ==>
              |r.calls| >= 2 &&
              r.calls[..2] == [GetPair(PairKey(Field(body, "username").s, ip)), GetIP(ip)]
    ensures r.response.TooManyRequests? ==> r.response.retryAfter >= 1
  {
    var username := Field(body, "username");
    var password := Field(body, "password");
    if !IsString(username) || !IsString(password) then
      LoginResult(BadRequest(SpecifyCredentials), [])
    else
      var name := username.s;
      var key := PairKey(name, ip);
      var fetched := [GetPair(key), GetIP(ip)];
      var retrySecs := PrecheckRetry(w.ipState, w.pairState);
      if retrySecs > 0 then
        LoginResult(TooManyRequests(retrySecs), fetched)
      else
        var lookedUp := fetched + [FindLoginUser(name)];
        match w.loginUser
        case Some(id) =>
          if w.passwordVerifies then Accept(name, key, id, lookedUp + [VerifyPassword], w)
          else Reject(ip, key, true, lookedUp + [VerifyPassword], w)
        case None =>
          Reject(ip, key, false, lookedUp, w)
  }

  /** Correct credentials: reset a non-empty failure streak, then sign a
      token and answer with it and the user's profile. */
  function Accept(name: string, key: string, id: string, calls: seq<LoginCall>, w: LoginWorld): LoginResult
  {
    var resets := w.pairState.Some? && w.pairState.value.consumedPoints > 0;
    var calls := calls + (if resets then [DeletePair(key)] else []);
    if resets && w.deletion.Threw? then LoginResult(Thrown(w.deletion.error), calls)
    else
      var calls := calls + [SignToken(id)];
      match w.signing
      case Threw(e) => LoginResult(Thrown(e), calls)
      case Done(token) =>
        var calls := calls + [FetchUser(name)];
        match w.profile
        case Threw(e) => LoginResult(Thrown(e), calls)
        case Done(user) => LoginResult(LoggedIn(w.expiresIn, token, user), calls)
  }

  /** Wrong credentials: charge the IP counter, and the pair counter only
      for a registered username; a throttling rejection becomes a 429 and
      any other rejection escapes. */
  function Reject(ip: string, key: string, registered: bool, calls: seq<LoginCall>, w: LoginWorld): LoginResult
  {
    var calls := calls + [ConsumeIP(ip)] + (if registered then [ConsumePair(key)] else []);
    var outcome := Settle(w.ipConsume, if registered then Some(w.pairConsume) else None, w.ipRejectsFirst);
    match outcome
    case Consumed => LoginResult(BadRequest(WrongCredentials), calls)
    case OverLimit(ms) => LoginResult(TooManyRequests(RetrySecs(ms)), calls)
    case StoreError(e) => LoginResult(Thrown(e), calls)
  }

  // ---------------------------------------------------------------------
  // Properties of the guard

  /** Since an IP address never contains `_`, the pair key determines both
      the username and the IP: two different (username, IP) pairs never
      share a counter. Without that condition they can:
      `PairKey("a_b", "c") == PairKey("a", "b_c")`. */
  lemma {:induction false} PairKeyInjective(u1: string, ip1: string, u2: string, ip2: string)
    requires '_' !in ip1 && '_' !in ip2
    requires PairKey(u1, ip1) == PairKey(u2, ip2)
    ensures u1 == u2 && ip1 == ip2
  {
    var k := PairKey(u1, ip1);
    if |u1| < |u2| {
      UnderscoreFollowsUsername(u2, ip2);
      assert false;
    } else if |u2| < |u1| {
      UnderscoreFollowsUsername(u1, ip1);
      assert false;
    } else {
      assert u1 == k[..|u1|] == u2;
      assert ip1 == k[|u1| + 1..] == ip2;
    }
  }

  lemma UnderscoreFollowsUsername(u: string, ip: string)
    ensures |PairKey(u, ip)| > |u| && PairKey(u, ip)[|u|] == '_'
  {
  }

  lemma PairKeyAmbiguousWithoutCondition()
    ensures PairKey("a_b", "c") == PairKey("a", "b_c")
  {
  }

  /** Every limiter call of a login uses the raw IP for the IP limiter and
      `username_ip` for the pair limiter. */
  lemma LoginKeys(body: Body, ip: string, w: LoginWorld)
    requires ValidLoginBody(body)
    ensures var r := Login(body, ip, w);
            var key := PairKey(Field(body, "username").s, ip);
            forall c | c in r.calls ::
              (c.GetIP? || c.ConsumeIP? ==> c.ip == ip) &&
              (c.GetPair? || c.ConsumePair? || c.DeletePair? ==> c.key == key)
  {
    if !IPThrottles(w.ipState) && !PairThrottles(w.pairState) &&
       !(w.loginUser.Some? && w.passwordVerifies) {
      FailedLogin(body, ip, w);
    }
  }

  /** The pre-check: an IP counter over its limit decides the delay whatever
      the pair counter says; the pair counter decides only otherwise; a
      count equal to a limit does not throttle. A throttled request makes no
      account lookup, password check, consume or delete. */
  lemma Precedence(body: Body, ip: string, w: LoginWorld)
    requires ValidLoginBody(body)
    ensures var r := Login(body, ip, w);
            var key := PairKey(Field(body, "username").s, ip);
            && (IPThrottles(w.ipState) ==>
                  r.response == TooManyRequests(RetrySecs(w.ipState.value.msBeforeNext)))
            && (!IPThrottles(w.ipState) && PairThrottles(w.pairState) ==>
                  r.response == TooManyRequests(RetrySecs(w.pairState.value.msBeforeNext)))
            && (IPThrottles(w.ipState) || PairThrottles(w.pairState) <==>
                  r.calls == [GetPair(key), GetIP(ip)])
  {
  }

  /** Correct credentials on a request the pre-check lets through: the pair
      counter is deleted exactly when it existed with points on it, the IP
      counter is never charged, and with every collaborator succeeding the
      answer carries the token and the user. */
  lemma SuccessfulLogin(body: Body, ip: string, w: LoginWorld)
    requires ValidLoginBody(body)
    requires !IPThrottles(w.ipState) && !PairThrottles(w.pairState)
    requires w.loginUser.Some? && w.passwordVerifies
    ensures DeletePair(PairKey(Field(body, "username").s, ip)) in Login(body, ip, w).calls <==>
              w.pairState.Some? && w.pairState.value.consumedPoints > 0
    ensures forall c | c in Login(body, ip, w).calls :: !c.ConsumeIP? && !c.ConsumePair?
    ensures SignToken(w.loginUser.value) in Login(body, ip, w).calls <==>
              !(w.pairState.Some? && w.pairState.value.consumedPoints > 0 && w.deletion.Threw?)
    ensures Login(body, ip, w).response.LoggedIn? <==>
              !(w.pairState.Some? && w.pairState.value.consumedPoints > 0 && w.deletion.Threw?) &&
              w.signing.Done? && w.profile.Done?
    ensures Login(body, ip, w).response.LoggedIn? ==>
              Login(body, ip, w).response == LoggedIn(w.expiresIn, w.signing.value, w.profile.value)
    ensures !Login(body, ip, w).response.LoggedIn? ==> Login(body, ip, w).response.Thrown?
  {
  }

  /** The calls a successful login makes: the two reads, the account
      lookup and the password check, the reset of a non-empty streak, the
      signing and the profile lookup. */
  function SuccessTrace(name: string, ip: string, id: string, resets: bool): seq<LoginCall>
  {
    [GetPair(PairKey(name, ip)), GetIP(ip), FindLoginUser(name), VerifyPassword] +
    (if resets then [DeletePair(PairKey(name, ip))] else []) +
    [SignToken(id), FetchUser(name)]
  }

  /** With correct credentials and every collaborator succeeding, the
      handler makes exactly the calls of `SuccessTrace`, resetting the pair
      counter when it held points. */
  lemma SuccessfulLoginTrace(body: Body, ip: string, w: LoginWorld)
    requires ValidLoginBody(body)
    requires !IPThrottles(w.ipState) && !PairThrottles(w.pairState)
    requires w.loginUser.Some? && w.passwordVerifies
    requires w.deletion.Done? && w.signing.Done? && w.profile.Done?
    ensures Login(body, ip, w).calls ==
              SuccessTrace(Field(body, "username").s, ip, w.loginUser.value,
                           w.pairState.Some? && w.pairState.value.consumedPoints > 0)
  {
  }

  /** The calls a wrong attempt makes once the pre-check lets it through:
      the two reads and the account lookup, the password check for a known
      username, then the IP consume and, for a known username, the pair
      consume. */
  function WrongAttemptTrace(name: string, ip: string, registered: bool): seq<LoginCall>
  {
    [GetPair(PairKey(name, ip)), GetIP(ip), FindLoginUser(name)] +
    (if registered then [VerifyPassword, ConsumeIP(ip), ConsumePair(PairKey(name, ip))]
     else [ConsumeIP(ip)])
  }

  /** Wrong credentials on a request the pre-check lets through: the
      handler makes exactly the calls of `WrongAttemptTrace`; the answer is
      the generic 400 when every consume resolves, a 429 timed by the
      reported throttling rejection, or the store's error rethrown. */
  lemma FailedLogin(body: Body, ip: string, w: LoginWorld)
    requires ValidLoginBody(body)
    requires !IPThrottles(w.ipState) && !PairThrottles(w.pairState)
    requires !(w.loginUser.Some? && w.passwordVerifies)
    ensures var r := Login(body, ip, w);
            var outcome := Settle(w.ipConsume,
                                  if w.loginUser.Some? then Some(w.pairConsume) else None,
                                  w.ipRejectsFirst);
            && r.calls == WrongAttemptTrace(Field(body, "username").s, ip, w.loginUser.Some?)
            && (outcome.Consumed? ==> r.response == BadRequest(WrongCredentials))
            && (outcome.OverLimit? ==> r.response == TooManyRequests(RetrySecs(outcome.msBeforeNext)))
            && (outcome.StoreError? ==> r.response == Thrown(outcome.error))
  {
  }

  /** The trace of a wrong attempt consumes from the IP limiter exactly
      once and from the pair limiter once exactly for a known username; it
      never deletes and never signs. */
  lemma WrongAttemptCharges(name: string, ip: string, registered: bool)
    ensures var t := WrongAttemptTrace(name, ip, registered);
            && multiset(t)[ConsumeIP(ip)] == 1
            && multiset(t)[ConsumePair(PairKey(name, ip))] == (if registered then 1 else 0)
            && (forall c | c in t :: !c.DeletePair? && !c.SignToken?)
  {
    var key := PairKey(name, ip);
    var fetched := [GetPair(key), GetIP(ip), FindLoginUser(name)];
    assert multiset(fetched)[ConsumeIP(ip)] == 0 && multiset(fetched)[ConsumePair(key)] == 0;
    if registered {
      var charged := [VerifyPassword, ConsumeIP(ip), ConsumePair(key)];
      assert multiset(fetched + charged) == multiset(fetched) + multiset(charged);
    } else {
      assert multiset(fetched + [ConsumeIP(ip)]) == multiset(fetched) + multiset{ConsumeIP(ip)};
    }
  }

  /** Wrong credentials charge the IP counter exactly once and the pair
      counter once exactly when the username is registered; nothing is
      deleted and no token is signed. */
  lemma FailedLoginCharges(body: Body, ip: string, w: LoginWorld)
    requires ValidLoginBody(body)
    requires !IPThrottles(w.ipState) && !PairThrottles(w.pairState)
    requires !(w.loginUser.Some? && w.passwordVerifies)
    ensures var r := Login(body, ip, w);
            var key := PairKey(Field(body, "username").s, ip);
            && multiset(r.calls)[ConsumeIP(ip)] == 1
            && multiset(r.calls)[ConsumePair(key)] == (if w.loginUser.Some? then 1 else 0)
            && (forall c | c in r.calls :: !c.DeletePair? && !c.SignToken?)
  {
    FailedLogin(body, ip, w);
    WrongAttemptCharges(Field(body, "username").s, ip, w.loginUser.Some?);
  }

  /** The 400 for wrong credentials does not reveal whether the username
      exists: an unknown username and a registered one with a wrong
      password get the same answer when the pair limiter accepts the charge;
      `LoginRuns.ThrottleRevealsAccount` shows the answers part once the
      pair limiter rejects it. */
  lemma FailureHidesAccount(body: Body, ip: string, unknown: LoginWorld, known: LoginWorld)
    requires ValidLoginBody(body)
    requires unknown.loginUser.None?
    requires known.loginUser.Some? && !known.passwordVerifies
    requires known.ipState == unknown.ipState && known.pairState == unknown.pairState
    requires known.ipConsume == unknown.ipConsume && known.pairConsume == Consumed
    ensures Login(body, ip, unknown).response == Login(body, ip, known).response
  {
  }
}
