/** The cache-aside service for categories. */
module CategoryServices {
  import opened Wrappers
  import opened Tables
  import opened Entities
  import opened Repositories
  import opened CacheKeys
  import opened RedisCategory

  class CategoryService {
    /** The state of the category repository. */
    var store: Table<Category>
    /** The category cache. */
    const cache: RedisCategoryRepository

    ghost predicate Valid()
      reads this
    {
      CategoryTable(store)
    }

    constructor (store: Table<Category>, cache: RedisCategoryRepository)
      requires CategoryTable(store)
      ensures Valid() && this.store == store && this.cache == cache
    {
      this.store := store;
      this.cache := cache;
    }

    /**
     * A hit on `all` returns the cached value and writes nothing; a miss
     * returns the store's listing and caches it under `all`. Either way
     * `all` then holds what was returned.
     */
    method GetAll() returns (r: Cached<Category>)
      requires Valid()
      modifies cache
      ensures old(cache.Get(ALL)).Some? ==> r == old(cache.Get(ALL)).value && cache.entries == old(cache.entries)
      ensures old(cache.Get(ALL)).None? ==>
        r == Many(Values(store)) && cache.entries == old(cache.entries)[cache.ComposeKey(ALL) := Encoded(r)]
      ensures cache.Get(ALL) == Some(r)
    {
      var cached := cache.Get(ALL);
      if cached.Some? {
        return cached.value;
      }
      var categories := Values(store);
      cache.Set(ALL, Many(categories));
      return Many(categories);
    }

    /**
     * A hit on the id returns the cached value; a miss with no row fails
     * with "Category not found" and writes nothing; otherwise the row is
     * cached under its id and returned.
     */
    method GetById(id: string) returns (r: Result<Cached<Category>>)
      requires Valid()
      modifies cache
      ensures old(cache.GetById(id)).Some? ==> r == Ok(old(cache.GetById(id)).value) && cache.entries == old(cache.entries)
      ensures old(cache.GetById(id)).None? && id !in store.rows ==>
        r == Err(CATEGORY_NOT_FOUND) && cache.entries == old(cache.entries)
      ensures old(cache.GetById(id)).None? && id in store.rows ==>
        r == Ok(One(store.rows[id])) && cache.entries == old(cache.entries)[cache.ComposeKey(id) := Encoded(One(store.rows[id]))]
      ensures r.Ok? ==> cache.GetById(id) == Some(r.value)
    {
      var cached := cache.GetById(id);
      if cached.Some? {
        return Ok(cached.value);
      }
      var category := Get(store, id);
      if category.None? {
        return Err(CATEGORY_NOT_FOUND);
      }
      cache.SetById(id, One(category.value));
      return Ok(One(category.value));
    }

    /**
     * The same shape as `GetById`, keyed by the name: the name itself is
     * the cache suffix, in the key space of ids and `all`.
     */
    method GetByName(name: string) returns (r: Result<Cached<Category>>)
      requires Valid()
      modifies cache
      ensures old(cache.Get(name)).Some? ==> r == Ok(old(cache.Get(name)).value) && cache.entries == old(cache.entries)
      ensures old(cache.Get(name)).None? && CategoryByName(store, name).None? ==>
        r == Err(CATEGORY_NOT_FOUND) && cache.entries == old(cache.entries)
      ensures old(cache.Get(name)).None? && CategoryByName(store, name).Some? ==>
        r == Ok(One(CategoryByName(store, name).value))
        && cache.entries == old(cache.entries)[cache.ComposeKey(name) := Encoded(r.value)]
      ensures r.Ok? ==> cache.Get(name) == Some(r.value)
    {
      var cached := cache.Get(name);
      if cached.Some? {
        return Ok(cached.value);
      }
      var category := CategoryByName(store, name);
      if category.None? {
        return Err(CATEGORY_NOT_FOUND);
      }
      cache.Set(name, One(category.value));
      return Ok(One(category.value));
    }

    /**
     * Inserts `{ id, ...data }` with no check on the name and deletes `all`;
     * the item key is not written. `id` is the freshly generated id.
     */
    method Create(id: string, name: string) returns (r: Category)
      requires Valid() && id !in store.rows
      modifies this, cache
      ensures Valid()
      ensures r == Category(id, name)
      ensures store == Put(old(store), id, r)
      ensures cache.entries == old(cache.entries) - {cache.ComposeKey(ALL)}
      ensures cache.Get(ALL) == None
      ensures id != ALL ==> cache.Get(id) == old(cache.Get(id))
    {
      var category := Category(id, name);
      PutCategory(store, category);
      store := Put(store, id, category);
      cache.Delete(ALL);
      return category;
    }

    /**
     * The refresh at the end of `update`: `categoryCache.delete(id)`, then
     * `categoryCache.setById(id, data)`. The item key ends up holding `data`;
     * every other suffix reads as before.
     */
    method Recache(id: string, data: Category)
      modifies cache
      ensures cache.entries == old(cache.entries)[cache.ComposeKey(id) := Encoded(One(data))]
      ensures cache.GetById(id) == Some(One(data))
      ensures forall s :: s != id ==> cache.Get(s) == old(cache.Get(s))
    {
      ghost var before := cache.entries;
      cache.Delete(id);
      cache.SetById(id, One(data));
      DeleteThenSet(before, cache.ComposeKey(id), Encoded(One(data)));
    }

    /**
     * Fails with "Category not found", writing nothing, when `data.id` has no
     * row. Otherwise it writes back the row read BEFORE the update, so the
     * store is unchanged, caches `data` under the id, leaves `all` as it
     * was and returns the old row.
     */
    method Update(data: Category) returns (r: Result<Category>)
      requires Valid()
      modifies this, cache
      ensures Valid()
      ensures data.id !in old(store).rows ==>
        r == Err(CATEGORY_NOT_FOUND) && store == old(store) && cache.entries == old(cache.entries)
      ensures data.id in old(store).rows ==>
        && r == Ok(old(store).rows[data.id])
        && store == Put(old(store), data.id, old(store).rows[data.id])
        && store == old(store)
        && cache.entries == old(cache.entries)[cache.ComposeKey(data.id) := Encoded(One(data))]
        && cache.GetById(data.id) == Some(One(data))
        && (data.id != ALL ==> cache.Get(ALL) == old(cache.Get(ALL)))
    {
      var found := Get(store, data.id);
      if found.None? {
        return Err(CATEGORY_NOT_FOUND);
      }
      var categoryToUpdate := found.value;
      PutUnchanged(store, categoryToUpdate.id);
      PutCategory(store, categoryToUpdate);
      store := Put(store, categoryToUpdate.id, categoryToUpdate);
      Recache(categoryToUpdate.id, data);
      return Ok(categoryToUpdate);
    }

    /**
     * `Update` as evidently intended: the store receives `data`, so the
     * cached item and the stored row agree afterwards.
     */
    method UpdateWritingData(data: Category) returns (r: Result<Category>)
      requires Valid()
      modifies this, cache
      ensures Valid()
      ensures data.id !in old(store).rows ==>
        r == Err(CATEGORY_NOT_FOUND) && store == old(store) && cache.entries == old(cache.entries)
      ensures data.id in old(store).rows ==>
        && r == Ok(data)
        && store == Put(old(store), data.id, data)
        && cache.entries == old(cache.entries)[cache.ComposeKey(data.id) := Encoded(One(data))]
        && cache.GetById(data.id) == Some(One(store.rows[data.id]))
    {
      var found := Get(store, data.id);
      if found.None? {
        return Err(CATEGORY_NOT_FOUND);
      }
      PutCategory(store, data);
      store := Put(store, data.id, data);
      Recache(data.id, data);
      return Ok(data);
    }

    /**
     * Removes the row, whether or not it existed, and deletes both the item
     * key and `all`.
     */
    method Delete(id: string)
      requires Valid()
      modifies this, cache
      ensures Valid()
      ensures store == Remove(old(store), id)
      ensures cache.entries == old(cache.entries) - {cache.ComposeKey(id), cache.ComposeKey(ALL)}
      ensures cache.GetById(id) == None && cache.Get(ALL) == None
    {
      RemoveCategory(store, id);
      store := Remove(store, id);
      cache.Delete(id);
      cache.Delete(ALL);
    }
  }

  /** Two `getById` calls in a row give the same answer; the second writes nothing. */
  method RepeatedGetById(service: CategoryService, id: string) returns (first: Result<Cached<Category>>, second: Result<Cached<Category>>)
    requires service.Valid()
    modifies service.cache
    ensures second == first
    ensures first.Ok? && old(service.cache.GetById(id)).None? ==> id in service.store.rows && first == Ok(One(service.store.rows[id]))
  {
    first := service.GetById(id);
    ghost var between := service.cache.entries;
    second := service.GetById(id);
    assert service.cache.entries == between;
  }

  /**
   * After `update` with a new name, the cache serves the new name while the
   * store keeps the old row: the two disagree.
   */
  method UpdateKeepsOldRow(service: CategoryService, data: Category) returns (r: Result<Category>)
    requires service.Valid()
    requires data.id in service.store.rows && service.store.rows[data.id].name != data.name
    modifies service, service.cache
    ensures r.Ok? && r.value.name != data.name
    ensures data.id in service.store.rows && service.store.rows[data.id].name != data.name
    ensures service.cache.GetById(data.id) == Some(One(data))
    ensures service.cache.GetById(data.id) != Some(One(service.store.rows[data.id]))
  {
    r := service.Update(data);
  }

  /**
   * A category named `all`, read by name on a miss, takes the place of the
   * list: the next `getAll` returns that single category.
   */
  method NameShadowsList(service: CategoryService, c: Category) returns (r: Cached<Category>)
    requires service.Valid()
    requires c.name == ALL && CategoryByName(service.store, ALL) == Some(c)
    requires service.cache.Get(ALL).None?
    modifies service.cache
    ensures r == One(c)
  {
    var byName := service.GetByName(ALL);
    assert byName == Ok(One(c));
    r := service.GetAll();
  }
}
