/**
 * The limiter constants of `config.ts` and the two limiter option blocks
 * the server builds at start-up.
 */
module Config {

  /** Failed logins one IP may make before it is throttled. */
  const MaxWrongAttemptsByIPPerDay: nat := 100

  /** Consecutive failed logins one (username, IP) pair may make before it
      is throttled. */
  const MaxConsecutiveFailsByUsernameAndIP: nat := 10

  /** The options a `RateLimiterMySQL` is built with. Durations are in
      seconds. Both limiters are built on one store client (the database
      pool); in the single counter map this model uses for that store, the
      key prefix is what keeps their rows apart. */
  datatype LimiterOptions = LimiterOptions(
    keyPrefix: string,
    points: nat,
    duration: nat,
    blockDuration: nat)

  const Hour: nat := 60 * 60
  const Day: nat := 24 * Hour

  /** Counts failed logins per client IP. */
  const IPLimiter := LimiterOptions(
    "login_fail_ip_per_day", MaxWrongAttemptsByIPPerDay, Hour, Hour)

  /** Counts consecutive failed logins per `username_ip` key. */
  const FailsByUsernameAndIP := LimiterOptions(
    "login_fail_consecutive_username_and_ip",
    MaxConsecutiveFailsByUsernameAndIP, 30 * Day, Hour)

  /** The IP limiter: allows 100 points, and both its window and its block
      last one hour, whatever its "per day" prefix suggests. */
  lemma IPLimiterOptions()
    ensures IPLimiter.points == MaxWrongAttemptsByIPPerDay == 100
    ensures IPLimiter.duration == 3600 && IPLimiter.blockDuration == 3600
  {
  }

  /** The pair limiter: allows 10 points, strictly fewer than the IP
      limiter; its window is 30 days (2 592 000 s), far longer than its one
      hour block. */
  lemma PairLimiterOptions()
    ensures FailsByUsernameAndIP.points == MaxConsecutiveFailsByUsernameAndIP == 10
    ensures FailsByUsernameAndIP.points < IPLimiter.points
    ensures FailsByUsernameAndIP.duration == 2592000
    ensures FailsByUsernameAndIP.blockDuration == 3600
    ensures FailsByUsernameAndIP.duration > FailsByUsernameAndIP.blockDuration
  {
  }

  /** The two prefixes first differ at index 11 (`i` against `c`), so
      neither is a prefix of the other and no key built on one can equal a
      key built on the other, whatever follows the prefix. */
  lemma {:induction false} KeyPrefixesNeverCollide(a: string, b: string)
    ensures IPLimiter.keyPrefix != FailsByUsernameAndIP.keyPrefix
    ensures IPLimiter.keyPrefix + a != FailsByUsernameAndIP.keyPrefix + b
  {
    var x := IPLimiter.keyPrefix + a;
    var y := FailsByUsernameAndIP.keyPrefix + b;
    assert x[11] == 'i';
    assert y[11] == 'c';
  }
}
