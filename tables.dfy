/**
 * An insertion-ordered table keyed by id: the JavaScript `Map<string, E>`
 * that backs the in-memory repository, and the abstract state of the
 * durable stores behind the repository interfaces.
 */
module Tables {
  import opened Wrappers

  /** `ids` lists the keys in insertion order; `rows` maps each key to its value. */
  datatype Table<E> = Table(ids: seq<string>, rows: map<string, E>)

  ghost predicate Distinct(s: seq<string>) {
    forall i, j :: 0 <= i < j < |s| ==> s[i] != s[j]
  }

  /** Every key is listed exactly once, and only keys are listed. */
  ghost predicate Valid<E>(t: Table<E>) {
    Distinct(t.ids) && forall k :: k in t.rows <==> k in t.ids
  }

  /** `new Map()` */
  function Empty<E>(): (t: Table<E>)
    ensures Valid(t) && t.rows == map[]
  {
    Table([], map[])
  }

  /** `map.get(id)`: the value under `id`, or no value. */
  function Get<E>(t: Table<E>, id: string): (r: Option<E>)
    ensures r.None? <==> id !in t.rows
    ensures r.Some? ==> r.value == t.rows[id]
  {
    if id in t.rows then Some(t.rows[id]) else None
  }

  /**
   * `map.set(id, e)`: afterwards `id` holds `e` and every other key is
   * unchanged; a key already present keeps its place in the order, a new key
   * goes last.
   */
  function Put<E>(t: Table<E>, id: string, e: E): (r: Table<E>)
    requires Valid(t)
    ensures Valid(r)
    ensures Get(r, id) == Some(e)
    ensures forall k :: k != id ==> Get(r, k) == Get(t, k)
    ensures id in t.rows ==> r.ids == t.ids && |r.rows| == |t.rows|
    ensures id !in t.rows ==> r.ids == t.ids + [id] && |r.rows| == |t.rows| + 1
  {
    if id in t.rows then Table(t.ids, t.rows[id := e])
    else Table(t.ids + [id], t.rows[id := e])
  }

  /** Writing back the value a key already holds changes nothing. */
  lemma PutUnchanged<E>(t: Table<E>, id: string)
    requires Valid(t) && id in t.rows
    ensures Put(t, id, t.rows[id]) == t
  {
    assert t.rows[id := t.rows[id]] == t.rows;
  }

  /** Dropping the first entry keeps a list free of repetitions. */
  lemma DistinctTail(s: seq<string>)
    requires s != []
    ensures Distinct(s) ==> Distinct(s[1..])
  {
    if Distinct(s) {
      forall i, j | 0 <= i < j < |s[1..]| ensures s[1..][i] != s[1..][j] {
        assert s[1..][i] == s[i + 1] && s[1..][j] == s[j + 1];
      }
    }
  }

  /** Putting in front of a repetition-free list a key that `s` holds only in front keeps it free of repetitions. */
  lemma DistinctCons(s: seq<string>, x: string, w: seq<string>)
    requires s != [] && s[0] == x
    requires forall y :: y in w ==> y in s[1..]
    ensures Distinct(s) && Distinct(w) ==> Distinct([x] + w)
  {
    if Distinct(s) && Distinct(w) {
      assert x !in s[1..];
      forall i, j | 0 <= i < j < |[x] + w| ensures ([x] + w)[i] != ([x] + w)[j] {
        if i == 0 {
          assert ([x] + w)[j] == w[j - 1];
          assert w[j - 1] in w;
        } else {
          assert ([x] + w)[i] == w[i - 1] && ([x] + w)[j] == w[j - 1];
        }
      }
    }
  }

  /** The position of the first occurrence of `x` in `s`. */
  function IndexOf(s: seq<string>, x: string): (p: nat)
    requires x in s
    ensures p < |s| && s[p] == x && x !in s[..p]
  {
    if s[0] == x then 0
    else
      assert s == [s[0]] + s[1..];
      var q := IndexOf(s[1..], x);
      assert s[..q + 1] == [s[0]] + s[1..][..q];
      q + 1
  }

  /**
   * `s` with every occurrence of `x` taken out, the others in order: in a
   * list without repetitions, the one entry `x` is cut out and the entries
   * on either side of it close up.
   */
  function Without(s: seq<string>, x: string): (r: seq<string>)
    ensures forall y :: y in r <==> y in s && y != x
    ensures Distinct(s) ==> Distinct(r)
    ensures x !in s ==> r == s
    ensures Distinct(s) && x in s ==> r == s[..IndexOf(s, x)] + s[IndexOf(s, x) + 1..]
  {
    if s == [] then []
    else
      DistinctTail(s);
      var w := Without(s[1..], x);
      if s[0] == x then
        CutHead(s, x, w);
        w
      else
        DistinctCons(s, s[0], w);
        CutTail(s, x, w);
        [s[0]] + w
  }

  /** The base of `Without`'s cut, for the key in front. */
  lemma CutHead(s: seq<string>, x: string, w: seq<string>)
    requires s != [] && s[0] == x
    requires x !in s[1..] ==> w == s[1..]
    ensures Distinct(s) ==> x !in s[1..] && w == s[..IndexOf(s, x)] + s[IndexOf(s, x) + 1..]
  {
    if Distinct(s) {
      assert forall k :: 0 <= k < |s[1..]| ==> s[1..][k] == s[k + 1];
      assert x !in s[1..];
      assert s[..0] + s[1..] == s[1..];
    }
  }

  /** The recursive step of `Without`'s cut, for a key behind the first entry. */
  lemma CutTail(s: seq<string>, x: string, w: seq<string>)
    requires s != [] && s[0] != x
    requires Distinct(s[1..]) && x in s[1..] ==> w == s[1..][..IndexOf(s[1..], x)] + s[1..][IndexOf(s[1..], x) + 1..]
    ensures Distinct(s) && x in s ==> [s[0]] + w == s[..IndexOf(s, x)] + s[IndexOf(s, x) + 1..]
  {
    if Distinct(s) && x in s {
      DistinctTail(s);
      var t := s[1..];
      var q := IndexOf(t, x);
      assert IndexOf(s, x) == q + 1;
      assert w == t[..q] + t[q + 1..];
      assert t[..q] == s[1..q + 1] && t[q + 1..] == s[q + 2..];
      assert s[..q + 1] == [s[0]] + s[1..q + 1];
      assert [s[0]] + (s[1..q + 1] + s[q + 2..]) == ([s[0]] + s[1..q + 1]) + s[q + 2..];
    }
  }

  /**
   * `map.delete(id)`: afterwards `id` is absent and every other key is
   * unchanged and keeps its place in the order; deleting an absent key
   * changes nothing.
   */
  function Remove<E>(t: Table<E>, id: string): (r: Table<E>)
    requires Valid(t)
    ensures Valid(r)
    ensures Get(r, id) == None
    ensures forall k :: k != id ==> Get(r, k) == Get(t, k)
    ensures id in t.rows ==> r.ids == t.ids[..IndexOf(t.ids, id)] + t.ids[IndexOf(t.ids, id) + 1..]
    ensures id !in t.rows ==> r == t
  {
    assert id !in t.rows ==> t.rows - {id} == t.rows;
    Table(Without(t.ids, id), t.rows - {id})
  }

  /** Deleting twice is deleting once. */
  lemma RemoveIdempotent<E>(t: Table<E>, id: string)
    requires Valid(t)
    ensures Remove(Remove(t, id), id) == Remove(t, id)
  {
  }

  /**
   * After `map.delete(id)` of a stored key, `Array.from(map.values())` is
   * the old listing with that one value cut out.
   */
  lemma RemoveValues<E>(t: Table<E>, id: string)
    requires Valid(t) && id in t.rows
    ensures var p := IndexOf(t.ids, id);
            Values(Remove(t, id)) == Values(t)[..p] + Values(t)[p + 1..]
  {
    CutValues(t, Remove(t, id), id, IndexOf(t.ids, id));
  }

  /**
   * Two tables whose keys differ by the one key at position `p`, and whose
   * other rows agree, list the same values but that one.
   */
  lemma CutValues<E>(t: Table<E>, r: Table<E>, id: string, p: nat)
    requires Valid(t) && Valid(r) && p < |t.ids| && t.ids[p] == id
    requires r.ids == t.ids[..p] + t.ids[p + 1..]
    requires forall k :: k != id ==> Get(r, k) == Get(t, k)
    ensures Values(r) == Values(t)[..p] + Values(t)[p + 1..]
  {
    var vs, ws := Values(t), Values(r);
    var cut := vs[..p] + vs[p + 1..];
    assert |ws| == |cut|;
    forall i | 0 <= i < |ws| ensures ws[i] == cut[i] {
      var j := if i < p then i else i + 1;
      CutEntry(t, r, id, p, i, j);
      assert ws[i] == r.rows[r.ids[i]] && vs[j] == t.rows[t.ids[j]];
      assert cut[i] == vs[j];
    }
    assert ws == cut;
  }

  /** Entry `i` of the table after the cut is entry `j` of the table before it. */
  lemma CutEntry<E>(t: Table<E>, r: Table<E>, id: string, p: nat, i: int, j: int)
    requires Valid(t) && Valid(r) && p < |t.ids| && t.ids[p] == id
    requires r.ids == t.ids[..p] + t.ids[p + 1..]
    requires forall k :: k != id ==> Get(r, k) == Get(t, k)
    requires 0 <= i < |r.ids| && j == (if i < p then i else i + 1)
    ensures r.ids[i] == t.ids[j] && t.ids[j] in t.rows && r.rows[r.ids[i]] == t.rows[t.ids[j]]
  {
    assert r.ids[i] == t.ids[j];
    assert t.ids[j] != id;
    assert Get(r, t.ids[j]) == Get(t, t.ids[j]);
  }

  /** A list without repetitions has as many distinct elements as entries. */
  lemma {:induction false} DistinctCard(s: seq<string>)
    requires Distinct(s)
    ensures |set k | k in s| == |s|
  {
    if s != [] {
      DistinctTail(s);
      DistinctCard(s[1..]);
      assert (set k | k in s) == {s[0]} + (set k | k in s[1..]);
      assert s[0] !in (set k | k in s[1..]);
    }
  }

  /**
   * `Array.from(map.values())`: every stored value exactly once, in
   * insertion order, as many as there are keys.
   */
  function Values<E>(t: Table<E>): (r: seq<E>)
    requires Valid(t)
    ensures |r| == |t.ids| == |t.rows|
    ensures forall i :: 0 <= i < |r| ==> r[i] == t.rows[t.ids[i]]
    ensures forall k :: k in t.rows ==> exists i :: 0 <= i < |r| && t.ids[i] == k && r[i] == t.rows[k]
  {
    DistinctCard(t.ids);
    assert t.rows.Keys == set k | k in t.ids;
    seq(|t.ids|, i requires 0 <= i < |t.ids| => t.rows[t.ids[i]])
  }

  /**
   * `Array.from(map.values()).find(p)`, read back on the table: no value
   * exactly when no stored value satisfies `p`, otherwise a stored value
   * satisfying `p` with none before it in insertion order.
   */
  lemma FindValues<E>(t: Table<E>, p: E -> bool)
    requires Valid(t)
    ensures Find(Values(t), p).None? <==> forall k :: k in t.rows ==> !p(t.rows[k])
    ensures var r := Find(Values(t), p);
            r.Some? ==> exists i :: 0 <= i < |t.ids| && t.ids[i] in t.rows && t.rows[t.ids[i]] == r.value && p(r.value)
                                    && forall j :: 0 <= j < i && t.ids[j] in t.rows ==> !p(t.rows[t.ids[j]])
  {
    if Find(Values(t), p).Some? {
      FoundInTable(t, p);
    } else {
      NoneInTable(t, p);
    }
  }

  /** A value `find` returns is stored, satisfies `p`, and has no match before it. */
  lemma FoundInTable<E>(t: Table<E>, p: E -> bool)
    requires Valid(t) && Find(Values(t), p).Some?
    ensures var r := Find(Values(t), p);
            exists i :: 0 <= i < |t.ids| && t.ids[i] in t.rows && t.rows[t.ids[i]] == r.value && p(r.value)
                        && forall j :: 0 <= j < i && t.ids[j] in t.rows ==> !p(t.rows[t.ids[j]])
    ensures exists k :: k in t.rows && p(t.rows[k])
  {
    var vs := Values(t);
    var r := Find(vs, p);
    var i :| 0 <= i < |vs| && vs[i] == r.value && p(vs[i]) && forall k :: 0 <= k < i ==> !p(vs[k]);
    forall j | 0 <= j < i && t.ids[j] in t.rows ensures !p(t.rows[t.ids[j]]) {
      assert vs[j] == t.rows[t.ids[j]];
    }
    assert t.ids[i] in t.rows && t.rows[t.ids[i]] == vs[i];
  }

  /** When `find` returns no value, no stored value satisfies `p`. */
  lemma NoneInTable<E>(t: Table<E>, p: E -> bool)
    requires Valid(t) && Find(Values(t), p).None?
    ensures forall k :: k in t.rows ==> !p(t.rows[k])
  {
    var vs := Values(t);
    forall k | k in t.rows ensures !p(t.rows[k]) {
      var i :| 0 <= i < |vs| && t.ids[i] == k && vs[i] == t.rows[k];
    }
  }

  /**
   * `Array.prototype.find`: the first element satisfying `p`, or no value
   * when none does.
   */
  function Find<E>(s: seq<E>, p: E -> bool): (r: Option<E>)
    ensures r.None? <==> forall k :: 0 <= k < |s| ==> !p(s[k])
    ensures r.Some? ==> exists i :: 0 <= i < |s| && s[i] == r.value && p(s[i]) && forall k :: 0 <= k < i ==> !p(s[k])
    decreases |s|
  {
    if s == [] then None
    else if p(s[0]) then Some(s[0])
    else
      var r := Find(s[1..], p);
      assert forall k :: 1 <= k < |s| ==> s[k] == s[1..][k - 1];
      r
  }
}
