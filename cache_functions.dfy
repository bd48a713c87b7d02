/** The generic cache helpers `getCacheDataOrSet` and `revalidateCacheOrDelete`. */
module CacheFunctions {
  import opened Wrappers
  import opened Entities
  import opened RedisClients

  /** A JSON value (numbers as integers). */
  datatype Json =
    | Null
    | Bool(b: bool)
    | Number(n: int)
    | Str(s: string)
    | Arr(items: seq<Json>)
    | Obj(fields: map<string, Json>)

  /** JavaScript truthiness of a JSON value: `null`, `false`, `0` and `""` are falsy. */
  predicate Truthy(v: Json)
    ensures Truthy(v) <==> v != Null && v != Bool(false) && v != Number(0) && v != Str("")
  {
    match v
    case Null => false
    case Bool(b) => b
    case Number(n) => n != 0
    case Str(s) => s != ""
    case _ => true
  }

  /**
   * On a hit returns the cached value, does not run the callback and
   * writes nothing; on a miss runs the callback once (`computed` is what it
   * resolves to), stores its result under `key` only and returns it.
   */
  method GetCacheDataOrSet(client: RedisClient<Json>, key: string, computed: Json) returns (data: Json, calledBack: bool)
    modifies client
    ensures calledBack <==> old(client.Get(key)).None?
    ensures !calledBack ==> data == old(client.Get(key)).value && client.entries == old(client.entries)
    ensures calledBack ==> data == computed && client.entries == old(client.entries)[key := Encoded(computed)]
    ensures client.Get(key) == Some(data)
  {
    var cachedData := client.Get(key);
    if cachedData.Some? {
      return cachedData.value, false;
    }
    data := computed;
    calledBack := true;
    client.Set(key, data);
  }

  /**
   * Deletes `key`, then stores `value` under it when `value` is given and
   * truthy; no other key changes.
   */
  method RevalidateCacheOrDelete(client: RedisClient<Json>, key: string, value: Option<Json>)
    modifies client
    ensures value.Some? && Truthy(value.value) ==>
      client.entries == old(client.entries)[key := Encoded(value.value)] && client.Get(key) == value
    ensures !(value.Some? && Truthy(value.value)) ==>
      client.entries == old(client.entries) - {key} && client.Get(key) == None
  {
    client.Del(key);
    if value.Some? && Truthy(value.value) {
      client.Set(key, value.value);
    }
  }

  /** Two calls with the same key run the callback at most once and return the same data. */
  method GetCacheDataOrSetTwice(client: RedisClient<Json>, key: string, computed: Json, recomputed: Json)
    returns (first: Json, second: Json, firstCalled: bool, secondCalled: bool)
    modifies client
    ensures !secondCalled
    ensures second == first
  {
    first, firstCalled := GetCacheDataOrSet(client, key, computed);
    second, secondCalled := GetCacheDataOrSet(client, key, recomputed);
  }

  /** Revalidating twice with the same arguments has the effect of revalidating once. */
  method RevalidateTwice(client: RedisClient<Json>, key: string, value: Option<Json>)
    modifies client
    ensures value.Some? && Truthy(value.value) ==> client.entries == old(client.entries)[key := Encoded(value.value)]
    ensures !(value.Some? && Truthy(value.value)) ==> client.entries == old(client.entries) - {key}
  {
    RevalidateCacheOrDelete(client, key, value);
    RevalidateCacheOrDelete(client, key, value);
  }
}
