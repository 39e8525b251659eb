/** `Array.prototype.sort` with a numeric comparator `(a, b) => key(a) - key(b)`.
    The JavaScript sort is stable, so its result is the unique arrangement that
    is ordered by `key` and keeps elements with equal keys in their original
    order; an insertion sort computes exactly that arrangement. */
module Sorting {

  /** Ascending by `key`. */
  ghost predicate SortedBy<T>(s: seq<T>, key: T -> int)
  {
    forall i, j :: 0 <= i < j < |s| ==> key(s[i]) <= key(s[j])
  }

  /** The elements of `s` whose key is `k`, in the order of `s`. */
  function WithKey<T>(s: seq<T>, key: T -> int, k: int): (r: seq<T>)
    ensures |r| <= |s|
  {
    if s == [] then []
    else if key(s[0]) == k then [s[0]] + WithKey(s[1..], key, k)
    else WithKey(s[1..], key, k)
  }

  /** Places `x` before the first element of `s` whose key is not smaller. */
  function Insert<T>(x: T, s: seq<T>, key: T -> int): seq<T>
  {
    if s == [] || key(x) <= key(s[0]) then [x] + s
    else [s[0]] + Insert(x, s[1..], key)
  }

  function StableSort<T>(s: seq<T>, key: T -> int): seq<T>
  {
    if s == [] then [] else Insert(s[0], StableSort(s[1..], key), key)
  }

  lemma {:induction false} InsertPermutes<T>(x: T, s: seq<T>, key: T -> int)
    ensures multiset(Insert(x, s, key)) == multiset(s) + multiset{x}
  {
    if s != [] && key(x) > key(s[0]) {
      InsertPermutes(x, s[1..], key);
      assert s == [s[0]] + s[1..];
    }
  }

  lemma {:induction false} InsertSorted<T>(x: T, s: seq<T>, key: T -> int)
    requires SortedBy(s, key)
    ensures SortedBy(Insert(x, s, key), key)
  {
    if s != [] && key(x) > key(s[0]) {
      InsertSorted(x, s[1..], key);
      InsertPermutes(x, s[1..], key);
      var r := Insert(x, s[1..], key);
      forall j | 0 <= j < |r|
        ensures key(s[0]) <= key(r[j])
      {
        assert r[j] in multiset(s[1..]) + multiset{x};
        if r[j] != x {
          assert r[j] in s[1..];
        }
      }
    }
  }

  /** Filtering by one key commutes with inserting: `x` lands in front of the
      elements of `s` that share its key. */
  lemma {:induction false} InsertWithKey<T>(x: T, s: seq<T>, key: T -> int, k: int)
    ensures WithKey(Insert(x, s, key), key, k)
         == (if key(x) == k then [x] else []) + WithKey(s, key, k)
  {
    if s == [] || key(x) <= key(s[0]) {
      assert ([x] + s)[1..] == s;
    } else {
      InsertWithKey(x, s[1..], key, k);
      assert ([s[0]] + Insert(x, s[1..], key))[1..] == Insert(x, s[1..], key);
    }
  }

  /** The sorted sequence is a permutation of the input. */
  lemma {:induction false} SortPermutes<T>(s: seq<T>, key: T -> int)
    ensures multiset(StableSort(s, key)) == multiset(s)
    ensures |StableSort(s, key)| == |s|
  {
    if s != [] {
      SortPermutes(s[1..], key);
      InsertPermutes(s[0], StableSort(s[1..], key), key);
      assert s == [s[0]] + s[1..];
    }
  }

  /** The sorted sequence is ordered by `key`. */
  lemma {:induction false} SortSorted<T>(s: seq<T>, key: T -> int)
    ensures SortedBy(StableSort(s, key), key)
  {
    if s != [] {
      SortSorted(s[1..], key);
      InsertSorted(s[0], StableSort(s[1..], key), key);
    }
  }

  /** Stability: the elements sharing any one key keep their input order. */
  lemma {:induction false} SortStable<T>(s: seq<T>, key: T -> int, k: int)
    ensures WithKey(StableSort(s, key), key, k) == WithKey(s, key, k)
  {
    if s != [] {
      SortStable(s[1..], key, k);
      InsertWithKey(s[0], StableSort(s[1..], key), key, k);
    }
  }

  /** Everything the source relies on from its sort, in one statement. */
  lemma SortSpec<T>(s: seq<T>, key: T -> int)
    ensures multiset(StableSort(s, key)) == multiset(s)
    ensures SortedBy(StableSort(s, key), key)
    ensures forall k :: WithKey(StableSort(s, key), key, k) == WithKey(s, key, k)
    ensures forall x :: x in StableSort(s, key) <==> x in s
  {
    SortPermutes(s, key);
    SortSorted(s, key);
    forall k ensures WithKey(StableSort(s, key), key, k) == WithKey(s, key, k) {
      SortStable(s, key, k);
    }
    forall x ensures x in StableSort(s, key) <==> x in s {
      assert x in StableSort(s, key) <==> x in multiset(StableSort(s, key));
    }
  }

  lemma {:induction false} InsertAppendLast<T>(x: T, s: seq<T>, y: T, key: T -> int)
    requires key(x) <= key(y)
    ensures Insert(x, s + [y], key) == Insert(x, s, key) + [y]
  {
    if s != [] && key(x) > key(s[0]) {
      InsertAppendLast(x, s[1..], y, key);
      assert (s + [y])[1..] == s[1..] + [y];
    }
  }

  /** Appending an element whose key is not smaller than any other key appends
      it to the sorted sequence: ties go after the elements already there. */
  lemma {:induction false} SortAppendLast<T>(s: seq<T>, y: T, key: T -> int)
    requires forall x :: x in s ==> key(x) <= key(y)
    ensures StableSort(s + [y], key) == StableSort(s, key) + [y]
  {
    if s == [] {
      assert StableSort([y], key) == Insert(y, [], key);
    } else {
      assert (s + [y])[0] == s[0] && (s + [y])[1..] == s[1..] + [y];
      SortAppendLast(s[1..], y, key);
      InsertAppendLast(s[0], StableSort(s[1..], key), y, key);
    }
  }

  /** An element whose key is strictly smaller than every other element's key
      comes first. */
  lemma SortFirstIsUniqueMin<T>(s: seq<T>, x: T, key: T -> int)
    requires x in s
    requires forall y :: y in s && y != x ==> key(x) < key(y)
    ensures StableSort(s, key) != [] && StableSort(s, key)[0] == x
  {
    var r := StableSort(s, key);
    SortPermutes(s, key);
    SortSorted(s, key);
    assert x in multiset(r);
    var i :| 0 <= i < |r| && r[i] == x;
    assert r[0] in multiset(s);
  }
}
