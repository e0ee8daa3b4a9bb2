/** The application cache (`Cache::remember`, `Cache::forget`) as a store of
    keyed entries, each with the time at which it expires. The clock is a
    parameter: `now` in epoch seconds. */
module CacheStore {

  datatype Entry<V> = Entry(value: V, expiresAt: int)

  /** `key` holds an entry that has not expired at `now`. */
  predicate Hit<V>(entries: map<string, Entry<V>>, key: string, now: int) {
    key in entries && now < entries[key].expiresAt
  }

  class Store<V> {
    var entries: map<string, Entry<V>>

    constructor ()
      ensures entries == map[]
    {
      entries := map[];
    }

    /** `Cache::remember(key, ttl, callback)`: the stored value while it is
        fresh, and otherwise `computed` (what the callback returns), which is
        stored for `ttl` seconds; a TTL that is not positive stores nothing
        and drops the key. */
    method Remember(key: string, ttl: int, now: int, computed: V) returns (v: V)
      modifies this
      ensures Hit(old(entries), key, now) ==> v == old(entries)[key].value && entries == old(entries)
      ensures !Hit(old(entries), key, now) && ttl > 0 ==>
        v == computed && entries == old(entries)[key := Entry(computed, now + ttl)]
      ensures !Hit(old(entries), key, now) && ttl <= 0 ==>
        v == computed && entries == old(entries) - {key}
    {
      if key in entries && now < entries[key].expiresAt {
        v := entries[key].value;
      } else {
        v := computed;
        if ttl > 0 {
          entries := entries[key := Entry(computed, now + ttl)];
        } else {
          entries := entries - {key};
        }
      }
    }

    /** `Cache::forget(key)`. */
    method Forget(key: string)
      modifies this
      ensures entries == old(entries) - {key}
    {
      entries := entries - {key};
    }
  }
}
