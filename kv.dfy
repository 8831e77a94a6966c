/**
 * The expiring key-value store: one map from string keys to entries that
 * carry a value and an optional absolute expiry instant (milliseconds).
 * Expiry is lazy: an expired entry stays in the map until a read of its own
 * key removes it.
 *
 * The clock is a parameter `now` of every operation. The backing JSON file
 * is replaced by the map held in `Store.data`.
 */
module ExpiringKv {
  import opened Wrappers

  /** A stored entry; `expireAt == None` is the source's `expireAt: null`. */
  datatype Entry<V> = Entry(value: V, expireAt: Option<int>)

  /** The expiry instant `put` records: a TTL is "given" when it is truthy, i.e. non-zero. */
  function ExpiryFor(ttl: int, now: int): (r: Option<int>)
    ensures r.None? <==> ttl == 0
    ensures r.Some? ==> r.value - now == ttl * 1000
  {
    if ttl != 0 then Some(now + ttl * 1000) else None
  }

  /**
   * Whether `get` at time `now` treats the entry as expired. The source tests
   * `item.expireAt && now > item.expireAt`: an instant of 0 is falsy and so
   * never expires, and the comparison is strict.
   */
  predicate Expired<V>(e: Entry<V>, now: int)
    ensures Expired(e, now) ==> e.expireAt.Some? && e.expireAt.value < now
    ensures e.expireAt.Some? && e.expireAt.value != 0 && e.expireAt.value < now ==> Expired(e, now)
    ensures e.expireAt == Some(0) ==> !Expired(e, now)
  {
    e.expireAt.Some? && e.expireAt.value != 0 && now > e.expireAt.value
  }

  /** What `get(key)` returns at time `now`. */
  function Lookup<V>(data: map<string, Entry<V>>, key: string, now: int): (r: Option<V>)
    ensures r.Some? <==> key in data && !Expired(data[key], now)
    ensures r.Some? ==> r.value == data[key].value
  {
    if key !in data then None
    else if Expired(data[key], now) then None
    else Some(data[key].value)
  }

  /** The map after `get(key)` at time `now`: only an expired entry under `key` is removed. */
  function Purged<V>(data: map<string, Entry<V>>, key: string, now: int): (r: map<string, Entry<V>>)
    ensures r.Keys == if key in data && Expired(data[key], now) then data.Keys - {key} else data.Keys
    ensures forall k :: k in r ==> r[k] == data[k]
  {
    if key in data && Expired(data[key], now) then data - {key} else data
  }

  /** The map after `put(key, value, {expirationTtl: ttl})` at time `now`. */
  function Written<V>(data: map<string, Entry<V>>, key: string, value: V, ttl: int, now: int): (r: map<string, Entry<V>>)
    ensures r.Keys == data.Keys + {key}
    ensures r[key] == Entry(value, ExpiryFor(ttl, now))
    ensures forall k :: k in data && k != key ==> r[k] == data[k]
  {
    data[key := Entry(value, ExpiryFor(ttl, now))]
  }

  /** The store object; `data` is the whole key space the source reads and writes back on every call. */
  class Store<V> {
    var data: map<string, Entry<V>>

    /** A fresh store: the source initialises its file to `{}`. */
    constructor ()
      ensures data == map[]
    {
      data := map[];
    }

    /** `KV.get`: absent key gives None; an expired entry is deleted and gives None. */
    method Get(key: string, now: int) returns (r: Option<V>)
      modifies this
      ensures r == Lookup(old(data), key, now)
      ensures data == Purged(old(data), key, now)
    {
      if key !in data {
        return None;
      }
      var item := data[key];
      if item.expireAt.Some? && item.expireAt.value != 0 && now > item.expireAt.value {
        data := data - {key};
        return None;
      }
      return Some(item.value);
    }

    /** `KV.put`: overwrite `key` unconditionally; every other key keeps its entry. */
    method Put(key: string, value: V, ttl: int, now: int)
      modifies this
      ensures data == Written(old(data), key, value, ttl, now)
    {
      var expireAt := if ttl != 0 then Some(now + ttl * 1000) else None;
      data := data[key := Entry(value, expireAt)];
    }
  }

  // ---------------------------------------------------------------------
  // Properties of get and put
  // ---------------------------------------------------------------------

  /** Reading a live entry returns its value and leaves the store unchanged. */
  lemma LookupLive<V>(data: map<string, Entry<V>>, key: string, now: int)
    requires key in data
    requires data[key].expireAt.None? || now <= data[key].expireAt.value
    ensures Lookup(data, key, now) == Some(data[key].value)
    ensures Purged(data, key, now) == data
  {
  }

  /** Reading an expired entry returns None and removes exactly that key. */
  lemma LookupExpired<V>(data: map<string, Entry<V>>, key: string, now: int)
    requires key in data && data[key].expireAt.Some?
    requires data[key].expireAt.value != 0 && now > data[key].expireAt.value
    ensures Lookup(data, key, now) == None
    ensures Purged(data, key, now) == data - {key}
  {
  }

  /** Reading an absent key returns None and changes nothing. */
  lemma LookupAbsent<V>(data: map<string, Entry<V>>, key: string, now: int)
    requires key !in data
    ensures Lookup(data, key, now) == None
    ensures Purged(data, key, now) == data
  {
  }

  /**
   * A value put with a positive TTL at a non-negative time `t0` is read back
   * exactly up to and including `t0 + ttl*1000`, and is gone afterwards.
   */
  lemma PutThenGetWithTtl<V>(data: map<string, Entry<V>>, key: string, v: V, ttl: int, t0: int, t: int)
    requires ttl > 0 && t0 >= 0
    ensures Lookup(Written(data, key, v, ttl, t0), key, t) == if t <= t0 + ttl * 1000 then Some(v) else None
  {
  }

  /** A value put without a TTL (or with TTL 0) is read back at every later time. */
  lemma PutThenGetForever<V>(data: map<string, Entry<V>>, key: string, v: V, t0: int, t: int)
    ensures Lookup(Written(data, key, v, 0, t0), key, t) == Some(v)
    ensures Purged(Written(data, key, v, 0, t0), key, t) == Written(data, key, v, 0, t0)
  {
  }

  /** A second put on the same key hides the first entirely. */
  lemma PutOverwrites<V>(data: map<string, Entry<V>>, key: string, v1: V, ttl1: int, t1: int, v2: V, ttl2: int, t2: int)
    ensures Written(Written(data, key, v1, ttl1, t1), key, v2, ttl2, t2) == Written(data, key, v2, ttl2, t2)
  {
  }

  /** A put on one key neither changes what another key reads nor what a read of it purges. */
  lemma PutIndependent<V>(data: map<string, Entry<V>>, key: string, v: V, ttl: int, t0: int, other: string, t: int)
    requires other != key
    ensures Lookup(Written(data, key, v, ttl, t0), other, t) == Lookup(data, other, t)
    ensures Purged(Written(data, key, v, ttl, t0), other, t) == Written(Purged(data, other, t), key, v, ttl, t0)
  {
  }
}
