/** The `Map`-backed category repository. */
module InMemoryCategory {
  import opened Wrappers
  import opened Tables
  import opened Entities
  import opened Repositories

  /** What `save` returns: `{ id }`. */
  datatype Saved = Saved(id: string)

  class InMemoryCategoryRepository {
    /** The private `Map<string, Category>`, keys in insertion order. */
    var categories: Table<Category>

    ghost predicate Valid()
      reads this
    {
      CategoryTable(categories)
    }

    constructor ()
      ensures Valid() && categories == Empty()
    {
      categories := Empty();
    }

    /**
     * The first category in insertion order whose name is exactly `name`,
     * or no value when none matches.
     */
    method FindByName(name: string) returns (r: Option<Category>)
      requires Valid()
      ensures r == CategoryByName(categories, name)
      ensures r.Some? ==> r.value.name == name && FindById(r.value.id) == r
      ensures r.None? <==> forall k :: k in categories.rows ==> categories.rows[k].name != name
    {
      ghost var all := Values(categories);
      var i := 0;
      while i < |categories.ids|
        invariant 0 <= i <= |categories.ids|
        invariant CategoryByName(categories, name) == Find(all[i..], NameIs(name))
      {
        var c := categories.rows[categories.ids[i]];
        assert all[i..][0] == c && all[i..][1..] == all[i + 1..];
        if c.name == name {
          return Some(c);
        }
        i := i + 1;
      }
      return None;
    }

    /** Stores the category under its id and returns `{ id }`. */
    method Save(category: Category) returns (r: Saved)
      requires Valid()
      modifies this
      ensures Valid()
      ensures categories == Put(old(categories), category.id, category)
      ensures r == Saved(category.id)
      ensures FindById(category.id) == Some(category)
      ensures forall k :: k != category.id ==> FindById(k) == old(FindById(k))
    {
      PutCategory(categories, category);
      categories := Put(categories, category.id, category);
      r := Saved(category.id);
    }

    /** Stores the category under its id, returning nothing. */
    method Create(category: Category)
      requires Valid()
      modifies this
      ensures Valid()
      ensures categories == Put(old(categories), category.id, category)
      ensures FindById(category.id) == Some(category)
      ensures forall k :: k != category.id ==> FindById(k) == old(FindById(k))
    {
      PutCategory(categories, category);
      categories := Put(categories, category.id, category);
    }

    /** The category stored under `id`, or `null`. */
    function FindById(id: string): (r: Option<Category>)
      reads this
      ensures r.Some? <==> id in categories.rows
      ensures r.Some? ==> r.value == categories.rows[id]
    {
      Get(categories, id)
    }

    /** Every stored category exactly once, in insertion order. */
    method FindAll() returns (r: seq<Category>)
      requires Valid()
      ensures r == Values(categories)
      ensures |r| == |categories.rows|
      ensures forall i :: 0 <= i < |r| ==> FindById(r[i].id) == Some(r[i])
    {
      r := [];
      var i := 0;
      while i < |categories.ids|
        invariant 0 <= i <= |categories.ids|
        invariant r == Values(categories)[..i]
      {
        r := r + [categories.rows[categories.ids[i]]];
        i := i + 1;
      }
    }

    /** An upsert: afterwards `id` holds the category whether or not it was stored before. */
    method Update(category: Category)
      requires Valid()
      modifies this
      ensures Valid()
      ensures categories == Put(old(categories), category.id, category)
      ensures FindById(category.id) == Some(category)
      ensures forall k :: k != category.id ==> FindById(k) == old(FindById(k))
    {
      PutCategory(categories, category);
      categories := Put(categories, category.id, category);
    }

    /**
     * Removes `id` only; the other categories keep their order, so `findAll`
     * then lists the old listing with that one category cut out; removing an
     * absent id changes nothing.
     */
    method Delete(id: string)
      requires Valid()
      modifies this
      ensures Valid()
      ensures categories == Remove(old(categories), id)
      ensures FindById(id) == None
      ensures forall k :: k != id ==> FindById(k) == old(FindById(k))
      ensures old(FindById(id)).Some? ==>
        var p := IndexOf(old(categories.ids), id);
        Values(categories) == old(Values(categories))[..p] + old(Values(categories))[p + 1..]
      ensures old(FindById(id)) == None ==> categories == old(categories)
    {
      if id in categories.rows {
        RemoveValues(categories, id);
      }
      RemoveCategory(categories, id);
      categories := Remove(categories, id);
    }
  }
}
