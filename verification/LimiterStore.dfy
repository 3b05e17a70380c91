/**
 * An abstract view of the rate limiters' shared counter store: one point
 * count per stored key. Windows, blocks and expiry belong to the limiter
 * library and are not modelled; this store only gives meaning to the
 * `consume` and `delete` calls the login guard makes.
 */
module LimiterStore {
  import opened Config

  type Store = map<string, nat>

  /** The row key a limiter stores the counter for `id` under: its prefix,
      a colon, then the identifier. */
  function StorageKey(limiter: LimiterOptions, id: string): string
  {
    limiter.keyPrefix + ":" + id
  }

  /** The points stored for a key; an absent row counts as zero. */
  function Count(s: Store, key: string): nat
  {
    if key in s then s[key] else 0
  }

  /** `consume(key)`: one more point for `key`, creating the row if needed. */
  function Consume(s: Store, key: string): (s': Store)
    ensures key in s' && s'[key] == Count(s, key) + 1
    ensures forall k :: k != key ==> Count(s', k) == Count(s, k)
    ensures s'.Keys == s.Keys + {key}
  {
    s[key := Count(s, key) + 1]
  }

  /** `delete(key)`: removes the row for `key`; deleting an absent key is
      not an error. */
  function Delete(s: Store, key: string): (s': Store)
    ensures key !in s' && Count(s', key) == 0
    ensures forall k :: k != key ==> Count(s', k) == Count(s, k)
    ensures s'.Keys == s.Keys - {key}
  {
    s - {key}
  }

  /** Deleting twice is deleting once, and deleting an absent key changes
      nothing. */
  lemma DeleteIdempotent(s: Store, key: string)
    ensures Delete(Delete(s, key), key) == Delete(s, key)
    ensures key !in s ==> Delete(s, key) == s
  {
  }

  /** The two limiters share one store, yet a key of one can never be a
      key of the other. */
  lemma {:induction false} StorageKeysDisjoint(ip: string, pairKey: string)
    ensures StorageKey(IPLimiter, ip) != StorageKey(FailsByUsernameAndIP, pairKey)
  {
    assert StorageKey(IPLimiter, ip) == IPLimiter.keyPrefix + (":" + ip);
    assert StorageKey(FailsByUsernameAndIP, pairKey) == FailsByUsernameAndIP.keyPrefix + (":" + pairKey);
    KeyPrefixesNeverCollide(":" + ip, ":" + pairKey);
  }

  /** A counter reset: after `delete`, a `consume` starts again from one. */
  lemma ConsumeAfterDeleteStartsAfresh(s: Store, key: string)
    ensures Count(Consume(Delete(s, key), key), key) == 1
  {
  }
}
