/** The in-memory response cache: a map from keys to values with an absolute
    expiry time in milliseconds. The clock is an explicit `now` argument and
    the module-level mutable map becomes a value threaded through the calls. */
module Cache {
  import opened Series

  datatype Entry<T> = Entry(data: T, expires: int)

  type Store<T> = map<string, Entry<T>>

  /** Whether `key` holds an entry that has not expired at `now`; an entry is
      still fresh at exactly its expiry time. */
  predicate Fresh<T>(c: Store<T>, key: string, now: int)
  {
    key in c && now <= c[key].expires
  }

  /** `getCached`: the stored value when the entry is fresh; otherwise
      nothing, and the key is dropped from the store. */
  function Get<T>(c: Store<T>, key: string, now: int): (r: (Option<T>, Store<T>))
    ensures r.0.Some? <==> Fresh(c, key, now)
    ensures r.0.Some? ==> r.0.value == c[key].data && r.1 == c
    ensures r.0.None? ==> key !in r.1
    ensures forall k :: k != key ==> (k in r.1 <==> k in c)
    ensures forall k :: k != key && k in c ==> r.1[k] == c[k]
  {
    if !Fresh(c, key, now) then (None, c - {key})
    else (Some(c[key].data), c)
  }

  /** `setCache`: store `data` under `key`, expiring `ttl` milliseconds from `now`. */
  function Set<T>(c: Store<T>, key: string, data: T, ttl: int, now: int): (r: Store<T>)
    ensures key in r && r[key].data == data && r[key].expires == now + ttl
    ensures forall k :: k != key ==> (k in r <==> k in c)
    ensures forall k :: k != key && k in c ==> r[k] == c[k]
  {
    c[key := Entry(data, now + ttl)]
  }

  /** A value set at `t` is returned by any read up to and including `t + ttl`,
      and the store is left as it was. */
  lemma SetThenGet<T>(c: Store<T>, key: string, data: T, ttl: int, t: int, now: int)
    requires now <= t + ttl
    ensures Get(Set(c, key, data, ttl, t), key, now) == (Some(data), Set(c, key, data, ttl, t))
  {
  }

  /** A read after the expiry returns nothing and removes the entry. */
  lemma GetAfterExpiry<T>(c: Store<T>, key: string, data: T, ttl: int, t: int, now: int)
    requires now > t + ttl
    ensures var r := Get(Set(c, key, data, ttl, t), key, now);
            r.0 == None && key !in r.1
  {
  }

  /** Reading a key that was never stored returns nothing and leaves the
      store unchanged. */
  lemma GetMissing<T>(c: Store<T>, key: string, now: int)
    requires key !in c
    ensures Get(c, key, now) == (None, c)
  {
    assert c - {key} == c;
  }

  /** Storing twice under a key keeps only the second value and expiry. */
  lemma SetReplaces<T>(c: Store<T>, key: string, d1: T, ttl1: int, t1: int, d2: T, ttl2: int, t2: int)
    ensures Set(Set(c, key, d1, ttl1, t1), key, d2, ttl2, t2) == Set(c, key, d2, ttl2, t2)
  {
  }

  /** Reads and writes of one key do not change what another key reads. */
  lemma OtherKeysUnaffected<T>(c: Store<T>, key: string, other: string, data: T, ttl: int, t: int, now: int)
    requires key != other
    ensures Get(Set(c, key, data, ttl, t), other, now).0 == Get(c, other, now).0
    ensures Get(Get(c, key, t).1, other, now).0 == Get(c, other, now).0
  {
  }

  /** Reading twice at the same time gives the same answer, and the second
      read does not change the store again. */
  lemma GetIdempotent<T>(c: Store<T>, key: string, now: int)
    ensures var r1 := Get(c, key, now);
            var r2 := Get(r1.1, key, now);
            r2.0 == r1.0 && r2.1 == r1.1
  {
  }

  /** An expired entry stays expired: once a read at `t` misses, later reads
      without an intervening write miss too. */
  lemma ExpiryIsPermanent<T>(c: Store<T>, key: string, t: int, now: int)
    requires t <= now
    requires !Fresh(c, key, t)
    ensures Get(c, key, now).0 == None
  {
  }
}
