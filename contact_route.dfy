/**
 * The route-level contact flow: the handlers of `/contacts` read and
 * invalidate Redis directly, with the keys `contact:<id>` and
 * `list:contact`.
 */
module ContactRoute {
  import opened Wrappers
  import opened Tables
  import opened Entities
  import opened Repositories
  import opened CacheKeys
  import opened RedisClients

  /** The body of a PUT: every field optional. */
  datatype ContactPatch = ContactPatch(
    name: Option<string>, email: Option<string>, phone: Option<string>, categoryId: Option<string>)

  /** What a handler answers. */
  datatype Reply =
    | Body(payload: Cached<Contact>)
    | CreatedId(id: string)
    | NoContent
    | Failure(status: int, message: string)

  const EMAIL_ALREADY_TAKEN: string := "Email already taken"

  /** A supplied field replaces the old one. */
  function Override(old_: string, supplied: Option<string>): string {
    if supplied.Some? then supplied.value else old_
  }

  /**
   * `Object.assign({}, contact, body)`: supplied fields override, the
   * others are kept, and the id is the contact's.
   */
  function Merge(contact: Contact, body: ContactPatch): (r: Contact)
    ensures r.id == contact.id
    ensures body.name.Some? ==> r.name == body.name.value
    ensures body.name.None? ==> r.name == contact.name
    ensures body.email.Some? ==> r.email == body.email.value
    ensures body.email.None? ==> r.email == contact.email
    ensures body.phone.Some? ==> r.phone == body.phone.value
    ensures body.phone.None? ==> r.phone == contact.phone
    ensures body.categoryId.Some? ==> r.categoryId == body.categoryId.value
    ensures body.categoryId.None? ==> r.categoryId == contact.categoryId
  {
    Contact(contact.id, Override(contact.name, body.name), Override(contact.email, body.email),
            Override(contact.phone, body.phone), Override(contact.categoryId, body.categoryId))
  }

  /** An empty body leaves the contact as it is. */
  lemma MergeEmpty(contact: Contact)
    ensures Merge(contact, ContactPatch(None, None, None, None)) == contact
  {
  }

  /** Merging the same body twice is merging it once. */
  lemma MergeIdempotent(contact: Contact, body: ContactPatch)
    ensures Merge(Merge(contact, body), body) == Merge(contact, body)
  {
  }

  /** A body that supplies every field keeps nothing of the old contact but its id. */
  lemma MergeFull(contact: Contact, data: ContactInput)
    ensures Merge(contact, ContactPatch(Some(data.name), Some(data.email), Some(data.phone), Some(data.categoryId)))
            == WithId(contact.id, data)
  {
  }

  /** `${CONTACT_KEY}${id}`: the prefix `contact:` followed by exactly the id. */
  function ItemKey(id: string): (key: string)
    ensures |key| == |CONTACT_KEY| + |id|
    ensures key[..|CONTACT_KEY|] == CONTACT_KEY && key[|CONTACT_KEY|..] == id
  {
    CONTACT_KEY + id
  }

  /** Two ids share an item key exactly when they are equal, and no item key is the list key. */
  lemma ItemKeys(id1: string, id2: string)
    ensures ItemKey(id1) == ItemKey(id2) <==> id1 == id2
    ensures ItemKey(id1) != CONTACT_LIST_KEY
  {
    RouteItemKeyIsAdapterKey(id1);
    RouteItemKeyIsAdapterKey(id2);
    ComposeInjective(CONTACT_PREFIX, id1, id2);
    RouteListKeyIsNoAdapterKey(id1);
  }

  /** The PUT conflict check as written: a non-empty email that some contact, any contact, has. */
  predicate EmailTaken(t: Table<Contact>, body: ContactPatch)
    requires Valid(t)
    ensures EmailTaken(t, body) <==>
      body.email.Some? && body.email.value != "" && exists k :: k in t.rows && t.rows[k].email == body.email.value
  {
    body.email.Some? && body.email.value != "" && ContactByEmail(t, body.email.value).Some?
  }

  /**
   * The PUT conflict check as intended: a non-empty email that the store
   * without `id` holds, that is, that a contact other than `id` has
   * (`OthersHoldEmail`).
   */
  predicate EmailTakenByOther(t: Table<Contact>, id: string, body: ContactPatch)
    requires Valid(t)
    ensures EmailTakenByOther(t, id, body) <==>
      body.email.Some? && body.email.value != "" && exists k :: k in t.rows && k != id && t.rows[k].email == body.email.value
  {
    if body.email.Some? && body.email.value != "" then
      OthersHoldEmail(t, id, body.email.value);
      ContactByEmail(Remove(t, id), body.email.value).Some?
    else false
  }

  /** Searching the store without `id` finds the email exactly when a contact other than `id` has it. */
  lemma OthersHoldEmail(t: Table<Contact>, id: string, email: string)
    requires Valid(t)
    ensures ContactByEmail(Remove(t, id), email).Some? <==>
            exists k :: k in t.rows && k != id && t.rows[k].email == email
  {
    var others := Remove(t, id);
    assert forall k :: k in others.rows ==> k in t.rows && k != id && others.rows[k] == t.rows[k] by {
      forall k | k in others.rows ensures k in t.rows && k != id && others.rows[k] == t.rows[k] {
        assert Get(others, k) == Get(t, k);
      }
    }
    forall k | k in t.rows && k != id ensures k in others.rows && others.rows[k] == t.rows[k] {
      assert Get(others, k) == Get(t, k);
    }
  }

  /** The `Promise.all` of the two deletes, run one after the other. */
  method DeleteBoth(redis: RedisClient<Cached<Contact>>, id: string)
    modifies redis
    ensures redis.entries == old(redis.entries) - {ItemKey(id), CONTACT_LIST_KEY}
    ensures redis.Get(ItemKey(id)) == None && redis.Get(CONTACT_LIST_KEY) == None
  {
    redis.Del(ItemKey(id));
    redis.Del(CONTACT_LIST_KEY);
    assert redis.entries == old(redis.entries) - {ItemKey(id)} - {CONTACT_LIST_KEY};
  }

  class ContactRoutes {
    /** The state of the contact repository. */
    var store: Table<Contact>
    /** The Redis client. */
    const redis: RedisClient<Cached<Contact>>

    ghost predicate Valid()
      reads this
    {
      ContactTable(store)
    }

    constructor (store: Table<Contact>, redis: RedisClient<Cached<Contact>>)
      requires ContactTable(store)
      ensures Valid() && this.store == store && this.redis == redis
    {
      this.store := store;
      this.redis := redis;
    }

    /**
     * GET `/`: a hit on the list key returns the cached list and writes
     * nothing; a miss caches the store's listing under the list key and
     * returns it.
     */
    method GetAll() returns (r: Reply)
      requires Valid()
      modifies redis
      ensures old(redis.Get(CONTACT_LIST_KEY)).Some? ==>
        r == Body(old(redis.Get(CONTACT_LIST_KEY)).value) && redis.entries == old(redis.entries)
      ensures old(redis.Get(CONTACT_LIST_KEY)).None? ==>
        r == Body(Many(Values(store))) && redis.entries == old(redis.entries)[CONTACT_LIST_KEY := Encoded(r.payload)]
      ensures r.Body? && redis.Get(CONTACT_LIST_KEY) == Some(r.payload)
    {
      var contactsCached := redis.Get(CONTACT_LIST_KEY);
      if contactsCached.Some? {
        return Body(contactsCached.value);
      }
      var contacts := Values(store);
      redis.Set(CONTACT_LIST_KEY, Many(contacts));
      return Body(Many(contacts));
    }

    /**
     * GET `/:id`: a hit returns the cached value; with no row, 404 "Contact
     * not found" and no write; otherwise the row is cached under
     * `contact:<id>` and returned.
     */
    method GetById(id: string) returns (r: Reply)
      requires Valid()
      modifies redis
      ensures old(redis.Get(ItemKey(id))).Some? ==>
        r == Body(old(redis.Get(ItemKey(id))).value) && redis.entries == old(redis.entries)
      ensures old(redis.Get(ItemKey(id))).None? && id !in store.rows ==>
        r == Failure(404, CONTACT_NOT_FOUND) && redis.entries == old(redis.entries)
      ensures old(redis.Get(ItemKey(id))).None? && id in store.rows ==>
        r == Body(One(store.rows[id])) && redis.entries == old(redis.entries)[ItemKey(id) := Encoded(One(store.rows[id]))]
    {
      var contactCached := redis.Get(ItemKey(id));
      if contactCached.Some? {
        return Body(contactCached.value);
      }
      var contactToShow := Get(store, id);
      if contactToShow.None? {
        return Failure(404, CONTACT_NOT_FOUND);
      }
      redis.Set(ItemKey(id), One(contactToShow.value));
      return Body(One(contactToShow.value));
    }

    /**
     * POST `/`: an email already taken gives 409 "Email already taken" with
     * no write at all; otherwise the list key is deleted, `{ id, ...body }`
     * is saved and `{ id }` returned. `id` is the freshly generated id.
     */
    method Post(id: string, body: ContactInput) returns (r: Reply)
      requires Valid() && id !in store.rows
      modifies this, redis
      ensures Valid()
      ensures ContactByEmail(old(store), body.email).Some? ==>
        r == Failure(409, EMAIL_ALREADY_TAKEN) && store == old(store) && redis.entries == old(redis.entries)
      ensures ContactByEmail(old(store), body.email).None? ==>
        && r == CreatedId(id)
        && store == Tables.Put(old(store), id, WithId(id, body))
        && redis.entries == old(redis.entries) - {CONTACT_LIST_KEY}
    {
      var emailAlreadyTaken := ContactByEmail(store, body.email);
      if emailAlreadyTaken.Some? {
        return Failure(409, EMAIL_ALREADY_TAKEN);
      }
      redis.Del(CONTACT_LIST_KEY);
      PutContact(store, WithId(id, body));
      store := Tables.Put(store, id, WithId(id, body));
      return CreatedId(id);
    }

    /**
     * PUT `/:id`: 404 with no write when the id has no row; 409 with no
     * write when a non-empty email is supplied and ANY contact has it,
     * the contact being updated included; otherwise stores the merge of the
     * body over the row and deletes the item key and the list key.
     */
    method Put(id: string, body: ContactPatch) returns (r: Reply)
      requires Valid()
      modifies this, redis
      ensures Valid()
      ensures id !in old(store).rows ==>
        r == Failure(404, CONTACT_NOT_FOUND) && store == old(store) && redis.entries == old(redis.entries)
      ensures id in old(store).rows && EmailTaken(old(store), body) ==>
        r == Failure(409, EMAIL_ALREADY_TAKEN) && store == old(store) && redis.entries == old(redis.entries)
      ensures id in old(store).rows && !EmailTaken(old(store), body) ==>
        && r == NoContent
        && store == Tables.Put(old(store), id, Merge(old(store).rows[id], body))
        && redis.entries == old(redis.entries) - {ItemKey(id), CONTACT_LIST_KEY}
    {
      var contactToUpdate := Get(store, id);
      if contactToUpdate.None? {
        return Failure(404, CONTACT_NOT_FOUND);
      }
      var emailAlreadyTaken := EmailCheck(body);
      if emailAlreadyTaken {
        return Failure(409, EMAIL_ALREADY_TAKEN);
      }
      var updatedContact := Merge(contactToUpdate.value, body);
      PutContact(store, updatedContact);
      store := Tables.Put(store, updatedContact.id, updatedContact);
      DeleteBoth(redis, id);
      return NoContent;
    }

    /**
     * The conflict check of PUT `/:id`: `if (body.email)`, look the email
     * up; it is taken when the email is given, non-empty and held by some
     * contact.
     */
    method EmailCheck(body: ContactPatch) returns (taken: bool)
      requires Valid()
      ensures taken == EmailTaken(store, body)
    {
      taken := false;
      if body.email.Some? && body.email.value != "" {
        var emailAlreadyTaken := ContactByEmail(store, body.email.value);
        taken := emailAlreadyTaken.Some?;
      }
    }

    /**
     * PUT `/:id` as evidently intended: the email check ignores the contact
     * being updated, so keeping one's own email succeeds.
     */
    method PutIgnoringSelf(id: string, body: ContactPatch) returns (r: Reply)
      requires Valid()
      modifies this, redis
      ensures Valid()
      ensures id !in old(store).rows ==>
        r == Failure(404, CONTACT_NOT_FOUND) && store == old(store) && redis.entries == old(redis.entries)
      ensures id in old(store).rows && EmailTakenByOther(old(store), id, body) ==>
        r == Failure(409, EMAIL_ALREADY_TAKEN) && store == old(store) && redis.entries == old(redis.entries)
      ensures id in old(store).rows && !EmailTakenByOther(old(store), id, body) ==>
        && r == NoContent
        && store == Tables.Put(old(store), id, Merge(old(store).rows[id], body))
        && redis.entries == old(redis.entries) - {ItemKey(id), CONTACT_LIST_KEY}
    {
      var contactToUpdate := Get(store, id);
      if contactToUpdate.None? {
        return Failure(404, CONTACT_NOT_FOUND);
      }
      if EmailTakenByOther(store, id, body) {
        return Failure(409, EMAIL_ALREADY_TAKEN);
      }
      var updatedContact := Merge(contactToUpdate.value, body);
      assert updatedContact.id == id;
      PutContact(store, updatedContact);
      store := Tables.Put(store, updatedContact.id, updatedContact);
      DeleteBoth(redis, id);
      return NoContent;
    }

    /**
     * DELETE `/:id`: removes the row, with no error when it is absent, and
     * deletes the item key and the list key.
     */
    method Delete(id: string) returns (r: Reply)
      requires Valid()
      modifies this, redis
      ensures Valid()
      ensures r == NoContent
      ensures store == Remove(old(store), id)
      ensures redis.entries == old(redis.entries) - {ItemKey(id), CONTACT_LIST_KEY}
      ensures redis.Get(ItemKey(id)) == None && redis.Get(CONTACT_LIST_KEY) == None
    {
      RemoveContact(store, id);
      store := Remove(store, id);
      DeleteBoth(redis, id);
      return NoContent;
    }
  }

  /** A PUT that supplies a contact's own email is refused with 409. */
  method PutOwnEmailConflicts(routes: ContactRoutes, id: string) returns (r: Reply)
    requires routes.Valid() && id in routes.store.rows && routes.store.rows[id].email != ""
    modifies routes, routes.redis
    ensures r == Failure(409, EMAIL_ALREADY_TAKEN)
  {
    var own := routes.store.rows[id].email;
    r := routes.Put(id, ContactPatch(None, Some(own), None, None));
  }

  /** With the intended check, supplying one's own email succeeds when no other contact has it. */
  method PutOwnEmailAccepted(routes: ContactRoutes, id: string) returns (r: Reply)
    requires routes.Valid() && id in routes.store.rows
    requires forall k :: k in routes.store.rows && k != id ==> routes.store.rows[k].email != routes.store.rows[id].email
    modifies routes, routes.redis
    ensures r == NoContent
  {
    var own := routes.store.rows[id].email;
    OthersHoldEmail(routes.store, id, own);
    r := routes.PutIgnoringSelf(id, ContactPatch(None, Some(own), None, None));
  }
}
