/**
 * The queries the services use from the repository interfaces
 * (`CategoryRepository`, `ContactRepository`), over a store table.
 */
module Repositories {
  import opened Wrappers
  import opened Tables
  import opened Entities

  /** A category store: a table in which every category sits under its own id. */
  ghost predicate CategoryTable(t: Table<Category>) {
    Valid(t) && forall k :: k in t.rows ==> t.rows[k].id == k
  }

  /** A contact store: a table in which every contact sits under its own id. */
  ghost predicate ContactTable(t: Table<Contact>) {
    Valid(t) && forall k :: k in t.rows ==> t.rows[k].id == k
  }

  /** Storing a category under its own id keeps a category store. */
  lemma PutCategory(t: Table<Category>, c: Category)
    requires CategoryTable(t)
    ensures CategoryTable(Put(t, c.id, c))
  {
    var r := Put(t, c.id, c);
    forall k | k in r.rows ensures r.rows[k].id == k {
      assert Get(r, k) == if k == c.id then Some(c) else Get(t, k);
    }
  }

  /** Deleting from a category store keeps a category store. */
  lemma RemoveCategory(t: Table<Category>, id: string)
    requires CategoryTable(t)
    ensures CategoryTable(Remove(t, id))
  {
    var r := Remove(t, id);
    forall k | k in r.rows ensures r.rows[k].id == k {
      assert Get(r, k) == Get(t, k);
    }
  }

  /** Storing a contact under its own id keeps a contact store. */
  lemma PutContact(t: Table<Contact>, c: Contact)
    requires ContactTable(t)
    ensures ContactTable(Put(t, c.id, c))
  {
    var r := Put(t, c.id, c);
    forall k | k in r.rows ensures r.rows[k].id == k {
      assert Get(r, k) == if k == c.id then Some(c) else Get(t, k);
    }
  }

  /** Deleting from a contact store keeps a contact store. */
  lemma RemoveContact(t: Table<Contact>, id: string)
    requires ContactTable(t)
    ensures ContactTable(Remove(t, id))
  {
    var r := Remove(t, id);
    forall k | k in r.rows ensures r.rows[k].id == k {
      assert Get(r, k) == Get(t, k);
    }
  }

  /** `(category) => category.name === name` */
  function NameIs(name: string): Category -> bool {
    (c: Category) => c.name == name
  }

  /** `(contact) => contact.email === email` */
  function EmailIs(email: string): Contact -> bool {
    (c: Contact) => c.email == email
  }

  /**
   * `findByName`: the first category, in store order, whose name is exactly
   * `name`; no value when no category has that name.
   */
  function CategoryByName(t: Table<Category>, name: string): (r: Option<Category>)
    requires Valid(t)
    ensures r.Some? ==> r.value.name == name && exists k :: k in t.rows && t.rows[k] == r.value
    ensures r.None? <==> forall k :: k in t.rows ==> t.rows[k].name != name
    ensures r.Some? ==> exists i :: 0 <= i < |t.ids| && t.ids[i] in t.rows && t.rows[t.ids[i]] == r.value
                          && forall j :: 0 <= j < i && t.ids[j] in t.rows ==> t.rows[t.ids[j]].name != name
  {
    FindValues(t, NameIs(name));
    Find(Values(t), NameIs(name))
  }

  /**
   * `findByEmail`: the first contact, in store order, whose email is exactly
   * `email`; no value when no contact has that email.
   */
  function ContactByEmail(t: Table<Contact>, email: string): (r: Option<Contact>)
    requires Valid(t)
    ensures r.Some? ==> r.value.email == email && exists k :: k in t.rows && t.rows[k] == r.value
    ensures r.None? <==> forall k :: k in t.rows ==> t.rows[k].email != email
  {
    FindValues(t, EmailIs(email));
    Find(Values(t), EmailIs(email))
  }
}
