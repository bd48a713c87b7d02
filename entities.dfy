/** The entities of the contacts API and the shapes they take in the cache. */
module Entities {
  import opened Wrappers

  /** A category row: `{ id, name }`. */
  datatype Category = Category(id: string, name: string)

  /**
   * A contact row. The joined read shape (`ContactWithCategory`) that the
   * stores return from their queries is identified with the row itself.
   */
  datatype Contact = Contact(id: string, name: string, email: string, phone: string, categoryId: string)

  /** The messages the services throw, and the route answers, for a missing row. */
  const CATEGORY_NOT_FOUND: string := "Category not found"
  const CONTACT_NOT_FOUND: string := "Contact not found"

  /** The fields of a contact without its id: `Omit<Contact, "id">`. */
  datatype ContactInput = ContactInput(name: string, email: string, phone: string, categoryId: string)

  /** The fields of a contact, dropping its id. */
  function Fields(c: Contact): ContactInput {
    ContactInput(c.name, c.email, c.phone, c.categoryId)
  }

  /** `{ id, ...data }`: the contact with the given id and fields. */
  function WithId(id: string, data: ContactInput): (c: Contact)
    ensures c.id == id && Fields(c) == data
  {
    Contact(id, data.name, data.email, data.phone, data.categoryId)
  }

  /** Splitting a contact into id and fields and putting it back together is the identity. */
  lemma WithIdFields(c: Contact)
    ensures WithId(c.id, Fields(c)) == c
  {
  }

  /** What a cache entry decodes to: one entity or a list of them (`T | T[]`). */
  datatype Cached<E> = One(item: E) | Many(items: seq<E>)

  /**
   * What a Redis key holds. `Encoded(v)` is the JSON text of `v` (the JSON
   * round trip is taken to be the identity); `Blank` is the empty string,
   * which no writer in this code produces but which a key may hold.
   */
  datatype Raw<V> = Encoded(value: V) | Blank

  /** Deleting a key and then setting it is the same as setting it. */
  lemma DeleteThenSet<V>(entries: map<string, V>, key: string, v: V)
    ensures (entries - {key})[key := v] == entries[key := v]
  {
  }

  /**
   * Reading a key: the stored text must be truthy (present and non-empty)
   * before it is parsed, so a missing key and an empty string both read as
   * no value.
   */
  function Read<V>(entries: map<string, Raw<V>>, key: string): (r: Option<V>)
    ensures r.None? <==> key !in entries || entries[key].Blank?
    ensures r.Some? ==> entries[key] == Encoded(r.value)
  {
    if key in entries && entries[key].Encoded? then Some(entries[key].value) else None
  }
}
