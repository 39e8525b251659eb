/** A JavaScript `Map` keyed by strings: a finite map together with the order
    in which its keys were first inserted, which is the order its values are
    iterated in. Setting an existing key keeps that key's position; deleting a
    key removes it from the order. */
module JsMap {
  import opened Wrappers

  /** True when no key occurs twice in `s`. */
  ghost predicate Distinct(s: seq<string>)
  {
    forall i, j :: 0 <= i < j < |s| ==> s[i] != s[j]
  }

  /** The keys of `s` that are not in `gone`, in the order of `s`. */
  function Drop(s: seq<string>, gone: set<string>): (r: seq<string>)
    ensures forall k :: k in r <==> k in s && k !in gone
    ensures Distinct(s) ==> Distinct(r)
  {
    if s == [] then []
    else if s[0] in gone then Drop(s[1..], gone)
    else [s[0]] + Drop(s[1..], gone)
  }

  lemma {:induction false} DropTwice(s: seq<string>, a: set<string>, b: set<string>)
    ensures Drop(Drop(s, a), b) == Drop(s, a + b)
  {
    if s != [] {
      DropTwice(s[1..], a, b);
      if s[0] !in a {
        assert Drop(s, a) == [s[0]] + Drop(s[1..], a);
        assert Drop(s, a)[1..] == Drop(s[1..], a);
      }
    }
  }

  lemma {:induction false} DropNothing(s: seq<string>, gone: set<string>)
    requires forall k :: k in s ==> k !in gone
    ensures Drop(s, gone) == s
  {
    if s != [] {
      DropNothing(s[1..], gone);
    }
  }

  datatype OrderedMap<V> = OrderedMap(order: seq<string>, entries: map<string, V>)
  {
    /** The insertion order lists every key exactly once. */
    ghost predicate Valid()
    {
      Distinct(order) && (forall k :: k in order <==> k in entries)
    }

    /** `Map.prototype.get`. */
    function Get(k: string): (r: Option<V>)
      ensures r.Some? <==> k in entries
      ensures r.Some? ==> r.value == entries[k]
    {
      if k in entries then Some(entries[k]) else None
    }

    /** `Map.prototype.set`: a new key goes to the end of the order, an
        existing key keeps its place. */
    function Set(k: string, v: V): (r: OrderedMap<V>)
      requires Valid()
      ensures r.Valid()
      ensures r.entries == entries[k := v]
      ensures r.order == if k in entries then order else order + [k]
    {
      OrderedMap(if k in entries then order else order + [k], entries[k := v])
    }

    /** `Map.prototype.delete` of every key in `gone`. */
    function RemoveAll(gone: set<string>): (r: OrderedMap<V>)
      requires Valid()
      ensures r.Valid()
      ensures r.entries == entries - gone
      ensures r.order == Drop(order, gone)
    {
      OrderedMap(Drop(order, gone), entries - gone)
    }

    /** `Map.prototype.delete`. */
    function Delete(k: string): (r: OrderedMap<V>)
      requires Valid()
      ensures r.Valid()
      ensures r == RemoveAll({k})
    {
      RemoveAll({k})
    }

    /** `Array.from(map.values())`: the values in insertion order. */
    function Values(): (r: seq<V>)
      requires Valid()
      ensures |r| == |order|
      ensures forall i :: 0 <= i < |order| ==> order[i] in entries && r[i] == entries[order[i]]
    {
      seq(|order|, i requires 0 <= i < |order| => entries[order[i]])
    }
  }

  /** Setting a key twice leaves the second value, in the key's first place. */
  lemma SetTwice<V>(m: OrderedMap<V>, k: string, v: V, w: V)
    requires m.Valid()
    ensures m.Set(k, v).Set(k, w) == m.Set(k, w)
  {
    assert m.Set(k, v).Set(k, w).entries == m.Set(k, w).entries;
  }

  /** The values of a map are exactly the values it stores under its keys. */
  lemma ValuesMembership<V>(m: OrderedMap<V>)
    requires m.Valid()
    ensures forall v :: v in m.Values() <==> v in m.entries.Values
  {
    var vs := m.Values();
    forall v ensures v in vs <==> v in m.entries.Values {
      if v in vs {
        var i :| 0 <= i < |vs| && vs[i] == v;
        assert m.entries[m.order[i]] == v;
      }
      if v in m.entries.Values {
        var k :| k in m.entries && m.entries[k] == v;
        var i :| 0 <= i < |m.order| && m.order[i] == k;
        assert vs[i] == v;
      }
    }
  }

  /** Deleting keys one after another is deleting them all at once. */
  lemma RemoveAllThenDelete<V>(m: OrderedMap<V>, gone: set<string>, k: string)
    requires m.Valid()
    ensures m.RemoveAll(gone).Delete(k) == m.RemoveAll(gone + {k})
  {
    DropTwice(m.order, gone, {k});
    assert m.entries - gone - {k} == m.entries - (gone + {k});
  }

  /** The keys of `ks` as a set. */
  function KeySet(ks: seq<string>): (r: set<string>)
    ensures forall k :: k in r <==> k in ks
  {
    if ks == [] then {} else KeySet(ks[..|ks| - 1]) + {ks[|ks| - 1]}
  }

  /** `ks.forEach(k => map.delete(k))`. */
  function DeleteEach<V>(m: OrderedMap<V>, ks: seq<string>): (r: OrderedMap<V>)
    requires m.Valid()
    ensures r.Valid()
  {
    if ks == [] then m else DeleteEach(m, ks[..|ks| - 1]).Delete(ks[|ks| - 1])
  }

  /** Deleting keys one after another is deleting them all at once. */
  lemma {:induction false} DeleteEachRemovesAll<V>(m: OrderedMap<V>, ks: seq<string>)
    requires m.Valid()
    ensures DeleteEach(m, ks) == m.RemoveAll(KeySet(ks))
  {
    if ks == [] {
      DropNothing(m.order, {});
      assert m.entries - {} == m.entries;
    } else {
      DeleteEachRemovesAll(m, ks[..|ks| - 1]);
      RemoveAllThenDelete(m, KeySet(ks[..|ks| - 1]), ks[|ks| - 1]);
    }
  }

  /** Setting a new key appends its value to the iteration order. */
  lemma SetNewValues<V>(m: OrderedMap<V>, k: string, v: V)
    requires m.Valid() && k !in m.entries
    ensures m.Set(k, v).Values() == m.Values() + [v]
  {
    var r := m.Set(k, v);
    assert r.order == m.order + [k];
    forall i | 0 <= i < |m.order|
      ensures r.Values()[i] == m.Values()[i]
    {
      assert m.order[i] != k;
    }
  }

  /** Setting an existing key replaces its value in place. */
  lemma SetExistingValues<V>(m: OrderedMap<V>, k: string, v: V)
    requires m.Valid() && k in m.entries
    ensures |m.Set(k, v).Values()| == |m.Values()|
    ensures forall i :: 0 <= i < |m.order| ==>
      m.Set(k, v).Values()[i] == if m.order[i] == k then v else m.Values()[i]
  {
  }
}
