/** How the cache adapters compose Redis keys, and the constants of the Redis configuration. */
module CacheKeys {

  /** The suffix of the collection key, `getAll`'s default. */
  const ALL: string := "all"

  /** The adapters' key prefixes. */
  const CATEGORY_PREFIX: string := "category"
  const CONTACT_PREFIX: string := "contact"

  /** The adapters' TTL in seconds (entries are treated as unexpired). */
  const ADAPTER_TTL: nat := 3600

  /** The constants of the route-level cache. */
  const DEFAULT_EXPIRATION_TIME: nat := 60
  const CONTACT_KEY: string := "contact:"
  const CONTACT_LIST_KEY: string := "list:contact"
  const CATEGORY_KEY: string := "category:"
  const CATEGORY_LIST_KEY: string := "list:category"

  /**
   * `${prefix}:${suffix}`: the key starts with the prefix and a colon, and
   * what follows is exactly the suffix.
   */
  function Compose(prefix: string, suffix: string): (key: string)
    ensures |key| == |prefix| + 1 + |suffix|
    ensures key[..|prefix|] == prefix && key[|prefix|] == ':' && key[|prefix| + 1..] == suffix
  {
    prefix + ":" + suffix
  }

  /** Under one prefix, two suffixes give the same key exactly when they are equal. */
  lemma ComposeInjective(prefix: string, s1: string, s2: string)
    ensures Compose(prefix, s1) == Compose(prefix, s2) <==> s1 == s2
  {
    if Compose(prefix, s1) == Compose(prefix, s2) {
      assert s1 == Compose(prefix, s1)[|prefix| + 1..];
    }
  }

  /** The route-level item key of an id is the contact adapter's key for that id. */
  lemma RouteItemKeyIsAdapterKey(id: string)
    ensures CONTACT_KEY + id == Compose(CONTACT_PREFIX, id)
  {
  }

  /**
   * The route-level list key is not a contact adapter key at all, so the
   * routes and the contact service keep their lists apart.
   */
  lemma RouteListKeyIsNoAdapterKey(suffix: string)
    ensures CONTACT_LIST_KEY != Compose(CONTACT_PREFIX, suffix)
  {
    assert Compose(CONTACT_PREFIX, suffix)[0] == 'c';
  }
}
