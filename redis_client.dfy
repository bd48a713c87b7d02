/** The shared ioredis client used by the routes and the cache helper functions, keyed by full key. */
module RedisClients {
  import opened Wrappers
  import opened Entities

  class RedisClient<V> {
    var entries: map<string, Raw<V>>

    constructor (entries: map<string, Raw<V>>)
      ensures this.entries == entries
    {
      this.entries := entries;
    }

    /** `if (cached) JSON.parse(cached)`: a missing key or an empty string is a miss. */
    function Get(key: string): (r: Option<V>)
      reads this
      ensures r.None? <==> key !in entries || entries[key].Blank?
      ensures r.Some? ==> entries[key] == Encoded(r.value)
    {
      Read(entries, key)
    }

    /** `set(key, JSON.stringify(value), "EX", ttl)` */
    method Set(key: string, value: V)
      modifies this
      ensures entries == old(entries)[key := Encoded(value)]
      ensures Get(key) == Some(value)
    {
      entries := entries[key := Encoded(value)];
    }

    /** `del(key)` */
    method Del(key: string)
      modifies this
      ensures entries == old(entries) - {key}
      ensures Get(key) == None
    {
      entries := entries - {key};
    }
  }
}
