/** The cache-aside service for contacts. */
module ContactServices {
  import opened Wrappers
  import opened Tables
  import opened Entities
  import opened Repositories
  import opened CacheKeys
  import opened RedisContact

  const CONTACT_ALREADY_EXISTS: string := "Contact already exists"

  class ContactService {
    /** The state of the contact repository. */
    var store: Table<Contact>
    /** The contact cache. */
    const cache: RedisContactRepository

    ghost predicate Valid()
      reads this
    {
      ContactTable(store)
    }

    constructor (store: Table<Contact>, cache: RedisContactRepository)
      requires ContactTable(store)
      ensures Valid() && this.store == store && this.cache == cache
    {
      this.store := store;
      this.cache := cache;
    }

    /**
     * A hit on `all` returns the cached value and writes nothing; a miss
     * returns the store's listing and caches it under `all`.
     */
    method GetAll() returns (r: Cached<Contact>)
      requires Valid()
      modifies cache
      ensures old(cache.Get(ALL)).Some? ==> r == old(cache.Get(ALL)).value && cache.entries == old(cache.entries)
      ensures old(cache.Get(ALL)).None? ==>
        r == Many(Values(store)) && cache.entries == old(cache.entries)[cache.ComposeKey(ALL) := Encoded(r)]
      ensures cache.Get(ALL) == Some(r)
    {
      var cached := cache.Get(ALL);
      if cached.Some? {
        return cached.value;
      }
      var contacts := Values(store);
      cache.Set(ALL, Many(contacts));
      return Many(contacts);
    }

    /**
     * A hit on the id returns the cached value; a miss with no row fails
     * with "Contact not found" and writes nothing; otherwise the row is
     * cached under its id and returned.
     */
    method GetById(id: string) returns (r: Result<Cached<Contact>>)
      requires Valid()
      modifies cache
      ensures old(cache.GetById(id)).Some? ==> r == Ok(old(cache.GetById(id)).value) && cache.entries == old(cache.entries)
      ensures old(cache.GetById(id)).None? && id !in store.rows ==>
        r == Err(CONTACT_NOT_FOUND) && cache.entries == old(cache.entries)
      ensures old(cache.GetById(id)).None? && id in store.rows ==>
        r == Ok(One(store.rows[id])) && cache.entries == old(cache.entries)[cache.ComposeKey(id) := Encoded(One(store.rows[id]))]
      ensures r.Ok? ==> cache.GetById(id) == Some(r.value)
    {
      var cached := cache.GetById(id);
      if cached.Some? {
        return Ok(cached.value);
      }
      var contact := Get(store, id);
      if contact.None? {
        return Err(CONTACT_NOT_FOUND);
      }
      cache.SetById(id, One(contact.value));
      return Ok(One(contact.value));
    }

    /**
     * Fails with "Contact already exists", writing nothing, when a contact
     * has the email. Otherwise inserts `{ id, ...data }` (the category id is
     * not checked), caches it under its id and leaves `all` as it was.
     * `id` is the freshly generated id.
     */
    method Create(id: string, data: ContactInput) returns (r: Result<Contact>)
      requires Valid() && id !in store.rows
      modifies this, cache
      ensures Valid()
      ensures r.Ok? <==> ContactByEmail(old(store), data.email).None?
      ensures r.Err? ==> r.message == CONTACT_ALREADY_EXISTS && store == old(store) && cache.entries == old(cache.entries)
      ensures r.Ok? ==>
        && r.value == WithId(id, data)
        && store == Put(old(store), id, r.value)
        && cache.entries == old(cache.entries)[cache.ComposeKey(id) := Encoded(One(r.value))]
        && cache.GetById(id) == Some(One(r.value))
        && (id != ALL ==> cache.Get(ALL) == old(cache.Get(ALL)))
    {
      var contactAlreadyExists := ContactByEmail(store, data.email);
      if contactAlreadyExists.Some? {
        return Err(CONTACT_ALREADY_EXISTS);
      }
      var contact := WithId(id, data);
      PutContact(store, contact);
      store := Put(store, id, contact);
      cache.SetById(id, One(contact));
      return Ok(contact);
    }

    /**
     * The refresh at the end of `update`: `contactCache.delete(id)`, then
     * `contactCache.setById(id, data)`. The item key ends up holding `data`;
     * every other suffix reads as before.
     */
    method Recache(id: string, data: Contact)
      modifies cache
      ensures cache.entries == old(cache.entries)[cache.ComposeKey(id) := Encoded(One(data))]
      ensures cache.GetById(id) == Some(One(data))
      ensures forall s :: s != id ==> cache.Get(s) == old(cache.Get(s))
    {
      ghost var before := cache.entries;
      cache.Delete(id);
      cache.SetById(id, One(data));
      DeleteThenSet(before, cache.ComposeKey(id), Encoded(One(data)));
    }

    /**
     * Fails with "Category not found", writing nothing, when `data.id` has no
     * row. Otherwise writes `data` verbatim (no merge, no email check),
     * caches it under the id, leaves `all` as it was and returns it.
     */
    method Update(data: Contact) returns (r: Result<Contact>)
      requires Valid()
      modifies this, cache
      ensures Valid()
      ensures data.id !in old(store).rows ==>
        r == Err(CATEGORY_NOT_FOUND) && store == old(store) && cache.entries == old(cache.entries)
      ensures data.id in old(store).rows ==>
        && r == Ok(data)
        && store == Put(old(store), data.id, data)
        && cache.entries == old(cache.entries)[cache.ComposeKey(data.id) := Encoded(One(data))]
        && cache.GetById(data.id) == Some(One(data))
        && (data.id != ALL ==> cache.Get(ALL) == old(cache.Get(ALL)))
    {
      var categoryToUpdate := Get(store, data.id);
      if categoryToUpdate.None? {
        return Err(CATEGORY_NOT_FOUND);
      }
      var id := categoryToUpdate.value.id;
      assert id == data.id;
      PutContact(store, data);
      store := Put(store, data.id, data);
      Recache(id, data);
      return Ok(data);
    }

    /**
     * Deletes the item key (twice) and `all`; the store is never touched.
     */
    method Delete(id: string)
      requires Valid()
      modifies this, cache
      ensures Valid()
      ensures store == old(store)
      ensures cache.entries == old(cache.entries) - {cache.ComposeKey(id), cache.ComposeKey(ALL)}
      ensures cache.GetById(id) == None && cache.Get(ALL) == None
    {
      cache.Delete(id);
      cache.Delete(id);
      cache.Delete(ALL);
    }

    /**
     * `Delete` as evidently intended: the row leaves the store as well as
     * the cache, so a later `getById` fails.
     */
    method DeleteFromStore(id: string)
      requires Valid()
      modifies this, cache
      ensures Valid()
      ensures store == Remove(old(store), id) && id !in store.rows
      ensures cache.entries == old(cache.entries) - {cache.ComposeKey(id), cache.ComposeKey(ALL)}
      ensures cache.GetById(id) == None && cache.Get(ALL) == None
    {
      RemoveContact(store, id);
      store := Remove(store, id);
      cache.Delete(id);
      cache.Delete(ALL);
    }
  }

  /** A deleted contact is still found by the next `getById`, which caches it again. */
  method DeletedContactReappears(service: ContactService, id: string) returns (r: Result<Cached<Contact>>)
    requires service.Valid() && id in service.store.rows
    modifies service, service.cache
    ensures id in service.store.rows && r == Ok(One(service.store.rows[id]))
    ensures service.cache.GetById(id) == Some(One(service.store.rows[id]))
  {
    service.Delete(id);
    r := service.GetById(id);
  }

  /** With the intended delete, the next `getById` fails with "Contact not found". */
  method DeletedContactIsGone(service: ContactService, id: string) returns (r: Result<Cached<Contact>>)
    requires service.Valid()
    modifies service, service.cache
    ensures r == Err(CONTACT_NOT_FOUND)
  {
    service.DeleteFromStore(id);
    r := service.GetById(id);
  }

  /**
   * `create` leaves a warm `all` in place: the next `getAll` returns the
   * list cached before the contact was created.
   */
  method CreateLeavesListStale(service: ContactService, id: string, data: ContactInput, listed: seq<Contact>)
    returns (created: Result<Contact>, r: Cached<Contact>)
    requires service.Valid() && id !in service.store.rows && id != ALL
    requires service.cache.Get(ALL) == Some(Many(listed))
    modifies service, service.cache
    ensures created.Ok? ==> id in service.store.rows && r == Many(listed)
  {
    created := service.Create(id, data);
    r := service.GetAll();
  }
}
