/** The category cache adapter: Redis keys `category:<suffix>`. */
module RedisCategory {
  import opened Wrappers
  import opened Entities
  import opened CacheKeys

  class RedisCategoryRepository {
    const ttl: nat := ADAPTER_TTL
    const prefix: string := CATEGORY_PREFIX

    /** The Redis keyspace, by full key. */
    var entries: map<string, Raw<Cached<Category>>>

    constructor (entries: map<string, Raw<Cached<Category>>>)
      ensures this.entries == entries
      ensures prefix == CATEGORY_PREFIX && ttl == ADAPTER_TTL
    {
      this.entries := entries;
    }

    /** `category:` followed by the suffix; distinct suffixes give distinct keys. */
    function ComposeKey(keySuffix: string): (key: string)
      ensures key == "category:" + keySuffix
      ensures forall other :: other != keySuffix ==> Compose(prefix, other) != key
    {
      forall other ensures other != keySuffix ==> Compose(prefix, other) != Compose(prefix, keySuffix) {
        ComposeInjective(prefix, other, keySuffix);
      }
      Compose(prefix, keySuffix)
    }

    /** The value under the suffix: no value when the key is missing or holds the empty string. */
    function Get(keySuffix: string): (r: Option<Cached<Category>>)
      reads this
      ensures r.None? <==> ComposeKey(keySuffix) !in entries || entries[ComposeKey(keySuffix)].Blank?
      ensures r.Some? ==> entries[ComposeKey(keySuffix)] == Encoded(r.value)
    {
      Read(entries, ComposeKey(keySuffix))
    }

    /** `getAll` reads the key `get` reads; with no argument, `category:all`. */
    function GetAll(keySuffix: string := ALL): (r: Option<Cached<Category>>)
      reads this
      ensures r == Get(keySuffix)
      ensures r.Some? ==> entries[ComposeKey(keySuffix)] == Encoded(r.value)
    {
      Read(entries, ComposeKey(keySuffix))
    }

    /** `getById` reads the key `get` reads. */
    function GetById(id: string): (r: Option<Cached<Category>>)
      reads this
      ensures r == Get(id)
    {
      Read(entries, ComposeKey(id))
    }

    /** Stores `data` under the suffix: it reads back as `data`, and every other suffix reads as before. */
    method Set(keySuffix: string, data: Cached<Category>)
      modifies this
      ensures entries == old(entries)[ComposeKey(keySuffix) := Encoded(data)]
      ensures Get(keySuffix) == Some(data)
      ensures forall s :: s != keySuffix ==> Get(s) == old(Get(s))
    {
      entries := entries[ComposeKey(keySuffix) := Encoded(data)];
    }

    /** Writes the key `set` writes. */
    method SetById(id: string, data: Cached<Category>)
      modifies this
      ensures entries == old(entries)[ComposeKey(id) := Encoded(data)]
      ensures GetById(id) == Some(data)
      ensures forall s :: s != id ==> Get(s) == old(Get(s))
    {
      entries := entries[ComposeKey(id) := Encoded(data)];
    }

    /** Removes the key: the suffix reads as no value, a missing key stays missing, every other suffix reads as before. */
    method Delete(keySuffix: string)
      modifies this
      ensures entries == old(entries) - {ComposeKey(keySuffix)}
      ensures Get(keySuffix) == None
      ensures ComposeKey(keySuffix) !in old(entries) ==> entries == old(entries)
      ensures forall s :: s != keySuffix ==> Get(s) == old(Get(s))
    {
      entries := entries - {ComposeKey(keySuffix)};
    }
  }
}
