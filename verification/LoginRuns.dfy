/**
 * The login guard run against the limiters' shared counter store. The
 * limiters are idealised: no time passes, `get` reports the stored points,
 * and `consume` adds a point and rejects with a throttling result once the
 * key's points exceed the limiter's allowance. Under that reading the
 * guard's call trace has a meaning on the store, and a sequence of login
 * attempts can be followed from one store to the next.
 */
module LoginRuns {
  import opened Js
  import opened Http
  import opened Config
  import opened LimiterStore
  import opened AuthController

  /** The IP limiter's row for a client IP. */
  function IPRow(ip: string): string
  {
    StorageKey(IPLimiter, ip)
  }

  /** The pair limiter's row for a (username, IP) pair. */
  function PairRow(username: string, ip: string): string
  {
    StorageKey(FailsByUsernameAndIP, PairKey(username, ip))
  }

  /** The calls that change the store. */
  predicate Mutates(c: LoginCall)
  {
    c.ConsumeIP? || c.ConsumePair? || c.DeletePair?
  }

  /** What one call does to the store. */
  function Effect(s: Store, c: LoginCall): Store
  {
    match c
    case ConsumeIP(ip) => Consume(s, IPRow(ip))
    case ConsumePair(key) => Consume(s, StorageKey(FailsByUsernameAndIP, key))
    case DeletePair(key) => Delete(s, StorageKey(FailsByUsernameAndIP, key))
    case _ => s
  }

  /** What a call trace does to the store, first call first. */
  function Apply(s: Store, calls: seq<LoginCall>): Store
    decreases |calls|
  {
    if calls == [] then s else Apply(Effect(s, calls[0]), calls[1..])
  }

  lemma {:induction false} ApplyAppend(s: Store, a: seq<LoginCall>, b: seq<LoginCall>)
    ensures Apply(s, a + b) == Apply(Apply(s, a), b)
    decreases |a|
  {
    if a == [] {
      assert a + b == b;
    } else {
      assert (a + b)[0] == a[0];
      assert (a + b)[1..] == a[1..] + b;
      ApplyAppend(Effect(s, a[0]), a[1..], b);
    }
  }

  /** Reads, lookups and signing leave the store as it is. */
  lemma {:induction false} ApplyReadsOnly(s: Store, calls: seq<LoginCall>)
    requires forall c | c in calls :: !Mutates(c)
    ensures Apply(s, calls) == s
    decreases |calls|
  {
    if calls != [] {
      assert calls[0] in calls;
      assert forall c | c in calls[1..] :: c in calls;
      ApplyReadsOnly(s, calls[1..]);
    }
  }

  /** One login request: the credentials in the body and the client IP. */
  datatype Request = Request(username: string, password: string, ip: string)

  /** What the rest of the system answers for that request: the id of the
      account registered under the username, if any; whether the password
      matches it; the delay a limiter reports; and what signing yields. */
  datatype Env = Env(
    account: Option<string>,
    passwordOk: bool,
    ms: nat,
    token: string,
    profile: User,
    expiresIn: int)

  function BodyOf(q: Request): Body
  {
    map["username" := Str(q.username), "password" := Str(q.password)]
  }

  /** The idealised `get`: the stored points, if the row exists. */
  function Read(s: Store, row: string, ms: nat): Option<LimiterRes>
  {
    if row in s then Some(LimiterRes(s[row], ms)) else None
  }

  /** The idealised `consume`: rejects once the new count exceeds the
      limiter's points. */
  function ConsumeVerdict(s: Store, row: string, points: nat, ms: nat): ConsumeOutcome
  {
    if Count(s, row) + 1 > points then OverLimit(ms) else Consumed
  }

  /** The collaborators' answers when the store is `s`. */
  function WorldOf(s: Store, q: Request, e: Env): LoginWorld
  {
    LoginWorld(
      Read(s, PairRow(q.username, q.ip), e.ms),
      Read(s, IPRow(q.ip), e.ms),
      e.account,
      e.passwordOk,
      Done(()),
      ConsumeVerdict(s, IPRow(q.ip), IPLimiter.points, e.ms),
      ConsumeVerdict(s, PairRow(q.username, q.ip), FailsByUsernameAndIP.points, e.ms),
      true,
      Done(e.token),
      Done(e.profile),
      e.expiresIn)
  }

  /** One login attempt: its answer and the store it leaves behind. */
  datatype Step = Step(response: LoginResponse, store: Store)

  function LoginStep(s: Store, q: Request, e: Env): Step
  {
    var r := Login(BodyOf(q), q.ip, WorldOf(s, q, e));
    Step(r.response, Apply(s, r.calls))
  }

  /** The pre-check lets the request through. */
  predicate Admitted(s: Store, q: Request)
  {
    Count(s, IPRow(q.ip)) <= MaxWrongAttemptsByIPPerDay &&
    Count(s, PairRow(q.username, q.ip)) <= MaxConsecutiveFailsByUsernameAndIP
  }

  /** On the store, the calls of a wrong attempt add one point to the IP
      row and, for a registered username, one to the pair row. */
  lemma {:induction false} WrongTraceEffect(s: Store, username: string, ip: string, registered: bool)
    ensures Apply(s, WrongAttemptTrace(username, ip, registered)) ==
              if registered then Consume(Consume(s, IPRow(ip)), PairRow(username, ip))
              else Consume(s, IPRow(ip))
  {
    var key := PairKey(username, ip);
    var fetched := [GetPair(key), GetIP(ip), FindLoginUser(username)];
    var checked := if registered then fetched + [VerifyPassword] else fetched;
    var charged := if registered then [ConsumeIP(ip), ConsumePair(key)] else [ConsumeIP(ip)];
    assert WrongAttemptTrace(username, ip, registered) == checked + charged;
    ApplyAppend(s, checked, charged);
    ApplyReadsOnly(s, checked);
    var s1 := Consume(s, IPRow(ip));
    assert Apply(s, charged) == Apply(s1, charged[1..]);
    if registered {
      assert charged[1..] == [ConsumePair(key)];
      assert [ConsumePair(key)][1..] == [];
      assert Apply(s1, [ConsumePair(key)]) == Apply(Effect(s1, ConsumePair(key)), []);
      assert Effect(s1, ConsumePair(key)) == Consume(s1, PairRow(username, ip));
    } else {
      assert charged[1..] == [];
    }
  }

  /** A wrong attempt the pre-check admits adds one point to the IP row and,
      for a registered username, one to the pair row, and changes no other
      row; it is answered with the generic 400 unless a charge takes a row
      over its limit, in which case it is throttled. */
  lemma WrongAttempt(s: Store, q: Request, e: Env)
    requires Admitted(s, q)
    requires !(e.account.Some? && e.passwordOk)
    ensures LoginStep(s, q, e).store ==
              if e.account.Some? then Consume(Consume(s, IPRow(q.ip)), PairRow(q.username, q.ip))
              else Consume(s, IPRow(q.ip))
    ensures LoginStep(s, q, e).response ==
              if Count(s, IPRow(q.ip)) + 1 > MaxWrongAttemptsByIPPerDay ||
                 (e.account.Some? &&
                  Count(s, PairRow(q.username, q.ip)) + 1 > MaxConsecutiveFailsByUsernameAndIP)
              then TooManyRequests(RetrySecs(e.ms))
              else BadRequest(WrongCredentials)
  {
    var body := BodyOf(q);
    assert Field(body, "username") == Str(q.username);
    assert Field(body, "password") == Str(q.password);
    FailedLogin(body, q.ip, WorldOf(s, q, e));
    WrongTraceEffect(s, q.username, q.ip, e.account.Some?);
  }

  /** On the store, the calls of a successful login delete the pair row
      when the streak is reset, and change nothing otherwise. */
  lemma {:induction false} CorrectTraceEffect(s: Store, username: string, ip: string, id: string,
                                              resets: bool)
    ensures Apply(s, SuccessTrace(username, ip, id, resets)) ==
              if resets then Delete(s, PairRow(username, ip)) else s
  {
    var key := PairKey(username, ip);
    var checked := [GetPair(key), GetIP(ip), FindLoginUser(username), VerifyPassword];
    var reset := if resets then [DeletePair(key)] else [];
    var signed := [SignToken(id), FetchUser(username)];
    assert SuccessTrace(username, ip, id, resets) == checked + reset + signed;
    ApplyAppend(s, checked + reset, signed);
    ApplyAppend(s, checked, reset);
    ApplyReadsOnly(s, checked);
    ApplyReadsOnly(Apply(s, checked + reset), signed);
    if resets {
      assert reset[1..] == [];
      assert Apply(s, reset) == Apply(Effect(s, DeletePair(key)), []);
    }
  }

  /** A correct login the pre-check admits answers with the token and the
      profile, leaves the pair row at zero points (absent when it had any),
      and changes no other row. */
  lemma CorrectAttempt(s: Store, q: Request, e: Env)
    requires Admitted(s, q)
    requires e.account.Some? && e.passwordOk
    ensures var step := LoginStep(s, q, e);
            var pairRow := PairRow(q.username, q.ip);
            && step.response == LoggedIn(e.expiresIn, e.token, e.profile)
            && Count(step.store, pairRow) == 0
            && (Count(s, pairRow) > 0 ==> pairRow !in step.store)
            && (forall row | row != pairRow :: Count(step.store, row) == Count(s, row))
  {
    var body := BodyOf(q);
    var w := WorldOf(s, q, e);
    assert Field(body, "username") == Str(q.username);
    assert Field(body, "password") == Str(q.password);
    var pairRow := PairRow(q.username, q.ip);
    var resets := pairRow in s && s[pairRow] > 0;
    SuccessfulLogin(body, q.ip, w);
    SuccessfulLoginTrace(body, q.ip, w);
    CorrectTraceEffect(s, q.username, q.ip, e.account.value, resets);
  }

  /** A request whose IP row is over its limit is throttled whatever the
      credentials, and the store is left as it was. The environment reports
      one delay for both limiters, so this does not tell the IP limiter's
      delay from the pair limiter's. */
  lemma BlockedIP(s: Store, q: Request, e: Env)
    requires Count(s, IPRow(q.ip)) > MaxWrongAttemptsByIPPerDay
    ensures LoginStep(s, q, e) == Step(TooManyRequests(RetrySecs(e.ms)), s)
  {
    var body := BodyOf(q);
    assert Field(body, "username") == Str(q.username);
    assert Field(body, "password") == Str(q.password);
    var key := PairKey(q.username, q.ip);
    ApplyReadsOnly(s, [GetPair(key), GetIP(q.ip)]);
  }

  /** The store after `n` identical attempts. */
  function Repeat(s: Store, q: Request, e: Env, n: nat): Store
  {
    if n == 0 then s else LoginStep(Repeat(s, q, e, n - 1), q, e).store
  }

  /** One more wrong password during a streak adds one point to each of
      the two rows. */
  lemma StreakStep(before: Store, q: Request, e: Env, k: nat)
    requires Count(before, IPRow(q.ip)) == k && Count(before, PairRow(q.username, q.ip)) == k
    requires k < MaxConsecutiveFailsByUsernameAndIP
    requires e.account.Some? && !e.passwordOk
    ensures Count(LoginStep(before, q, e).store, IPRow(q.ip)) == k + 1
    ensures Count(LoginStep(before, q, e).store, PairRow(q.username, q.ip)) == k + 1
  {
    StorageKeysDisjoint(q.ip, PairKey(q.username, q.ip));
    WrongAttempt(before, q, e);
  }

  /** From fresh rows, `n` wrong passwords for a registered username (n up
      to the pair limiter's 10) leave exactly `n` points on both rows. */
  lemma {:induction false} FailureStreak(s: Store, q: Request, e: Env, n: nat)
    requires IPRow(q.ip) !in s && PairRow(q.username, q.ip) !in s
    requires e.account.Some? && !e.passwordOk
    requires n <= MaxConsecutiveFailsByUsernameAndIP
    ensures Count(Repeat(s, q, e, n), IPRow(q.ip)) == n
    ensures Count(Repeat(s, q, e, n), PairRow(q.username, q.ip)) == n
  {
    if n > 0 {
      FailureStreak(s, q, e, n - 1);
      StreakStep(Repeat(s, q, e, n - 1), q, e, n - 1);
    }
  }

  /** Every wrong password of such a streak is answered with the generic
      400: none of the first ten is throttled. */
  lemma StreakAnswers(s: Store, q: Request, e: Env, n: nat)
    requires IPRow(q.ip) !in s && PairRow(q.username, q.ip) !in s
    requires e.account.Some? && !e.passwordOk
    requires 0 < n <= MaxConsecutiveFailsByUsernameAndIP
    ensures LoginStep(Repeat(s, q, e, n - 1), q, e).response == BadRequest(WrongCredentials)
  {
    FailureStreak(s, q, e, n - 1);
    WrongAttempt(Repeat(s, q, e, n - 1), q, e);
  }

  /** The eleventh consecutive wrong password from one IP is throttled, and
      so is every later attempt from that pair, even with the right
      password, before the credentials are looked at. */
  lemma {:induction false} EleventhFailureThrottled(s: Store, q: Request, e: Env, right: Env)
    requires IPRow(q.ip) !in s && PairRow(q.username, q.ip) !in s
    requires e.account.Some? && !e.passwordOk
    ensures LoginStep(Repeat(s, q, e, 10), q, e).response == TooManyRequests(RetrySecs(e.ms))
    ensures LoginStep(Repeat(s, q, e, 11), q, right) ==
              Step(TooManyRequests(RetrySecs(right.ms)), Repeat(s, q, e, 11))
  {
    StorageKeysDisjoint(q.ip, PairKey(q.username, q.ip));
    FailureStreak(s, q, e, 10);
    var s10 := Repeat(s, q, e, 10);
    WrongAttempt(s10, q, e);
    var s11 := Repeat(s, q, e, 11);
    var body := BodyOf(q);
    assert Field(body, "username") == Str(q.username);
    assert Field(body, "password") == Str(q.password);
    assert Count(s11, PairRow(q.username, q.ip)) == 11;
    assert Count(s11, IPRow(q.ip)) == 11;
    ApplyReadsOnly(s11, [GetPair(PairKey(q.username, q.ip)), GetIP(q.ip)]);
  }

  /** A wrong password followed by the right one: the login succeeds and
      the pair row is gone, so the next failure streak starts from zero. */
  lemma {:induction false} SuccessAfterFailure(s: Store, q: Request, wrong: Env, right: Env)
    requires IPRow(q.ip) !in s && PairRow(q.username, q.ip) !in s
    requires wrong.account.Some? && !wrong.passwordOk
    requires right.account.Some? && right.passwordOk
    ensures var s1 := LoginStep(s, q, wrong).store;
            && LoginStep(s, q, wrong).response == BadRequest(WrongCredentials)
            && LoginStep(s1, q, right).response == LoggedIn(right.expiresIn, right.token, right.profile)
            && PairRow(q.username, q.ip) !in LoginStep(s1, q, right).store
  {
    StorageKeysDisjoint(q.ip, PairKey(q.username, q.ip));
    WrongAttempt(s, q, wrong);
    var s1 := LoginStep(s, q, wrong).store;
    CorrectAttempt(s1, q, right);
  }

  /** An unknown username charges only the IP row. */
  lemma UnknownUsername(s: Store, q: Request, e: Env)
    requires Admitted(s, q)
    requires e.account.None?
    ensures var step := LoginStep(s, q, e);
            && Count(step.store, IPRow(q.ip)) == Count(s, IPRow(q.ip)) + 1
            && (forall row | row != IPRow(q.ip) :: Count(step.store, row) == Count(s, row))
            && (Count(s, IPRow(q.ip)) < MaxWrongAttemptsByIPPerDay ==>
                  step.response == BadRequest(WrongCredentials))
  {
    WrongAttempt(s, q, e);
  }

  /** Where the generic 400 stops hiding the account: with the pair row at
      its limit and the IP row below its own, a wrong password for a
      registered username takes the pair row over the limit and is
      throttled, while an unknown username charges only the IP row and
      still gets the 400. */
  lemma ThrottleRevealsAccount(s: Store, q: Request, known: Env, unknown: Env)
    requires Count(s, IPRow(q.ip)) < MaxWrongAttemptsByIPPerDay
    requires Count(s, PairRow(q.username, q.ip)) == MaxConsecutiveFailsByUsernameAndIP
    requires known.account.Some? && !known.passwordOk
    requires unknown.account.None?
    ensures LoginStep(s, q, known).response == TooManyRequests(RetrySecs(known.ms))
    ensures LoginStep(s, q, unknown).response == BadRequest(WrongCredentials)
  {
    WrongAttempt(s, q, known);
    WrongAttempt(s, q, unknown);
  }
}
