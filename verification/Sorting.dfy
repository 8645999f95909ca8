/**
 Python's `sorted(s, key=...)`: a stable sort by a two-part key. The lemmas say that the
 result is sorted, holds the same elements, and keeps the order of elements with equal keys.
 */
module Sorting {
  import opened Sums

  datatype Key = Key(major: int, minor: int)

  predicate Leq(a: Key, b: Key) {
    a.major < b.major || (a.major == b.major && a.minor <= b.minor)
  }

  function Insert<T>(x: T, s: seq<T>, key: T -> Key): seq<T> {
    if s == [] || Leq(key(x), key(s[0])) then [x] + s else [s[0]] + Insert(x, s[1..], key)
  }

  function SortBy<T>(s: seq<T>, key: T -> Key): seq<T> {
    if s == [] then [] else Insert(s[0], SortBy(s[1..], key), key)
  }

  ghost predicate Sorted<T>(s: seq<T>, key: T -> Key) {
    forall i, j :: 0 <= i < j < |s| ==> Leq(key(s[i]), key(s[j]))
  }

  lemma {:induction false} InsertElements<T>(x: T, s: seq<T>, key: T -> Key)
    ensures Elements(Insert(x, s, key)) == Elements(s) + {x}
  {
    if s == [] || Leq(key(x), key(s[0])) {
    } else {
      InsertElements(x, s[1..], key);
      assert s == [s[0]] + s[1..];
      assert Elements(s) == {s[0]} + Elements(s[1..]);
      var t := Insert(x, s[1..], key);
      assert Elements([s[0]] + t) == {s[0]} + Elements(t);
    }
  }

  lemma {:induction false} InsertSorted<T>(x: T, s: seq<T>, key: T -> Key)
    requires Sorted(s, key)
    ensures Sorted(Insert(x, s, key), key)
  {
    if s == [] || Leq(key(x), key(s[0])) {
    } else {
      InsertSorted(x, s[1..], key);
      InsertElements(x, s[1..], key);
      var t := Insert(x, s[1..], key);
      forall j | 0 <= j < |t| ensures Leq(key(s[0]), key(t[j])) {
        assert t[j] in Elements(t);
        assert t[j] in Elements(s[1..]) || t[j] == x;
      }
    }
  }

  lemma {:induction false} SortBySorts<T>(s: seq<T>, key: T -> Key)
    ensures Sorted(SortBy(s, key), key)
    ensures Elements(SortBy(s, key)) == Elements(s)
  {
    if s != [] {
      SortBySorts(s[1..], key);
      InsertSorted(s[0], SortBy(s[1..], key), key);
      InsertElements(s[0], SortBy(s[1..], key), key);
      assert s == [s[0]] + s[1..];
      assert Elements(s) == {s[0]} + Elements(s[1..]);
    }
  }

  lemma {:induction false} InsertPermutes<T>(x: T, s: seq<T>, key: T -> Key)
    ensures multiset(Insert(x, s, key)) == multiset(s) + multiset{x}
  {
    if s == [] || Leq(key(x), key(s[0])) {
    } else {
      InsertPermutes(x, s[1..], key);
      assert s == [s[0]] + s[1..];
    }
  }

  lemma {:induction false} SortByPermutes<T>(s: seq<T>, key: T -> Key)
    ensures multiset(SortBy(s, key)) == multiset(s) && |SortBy(s, key)| == |s|
  {
    if s != [] {
      SortByPermutes(s[1..], key);
      InsertPermutes(s[0], SortBy(s[1..], key), key);
      assert s == [s[0]] + s[1..];
    }
    assert |multiset(SortBy(s, key))| == |multiset(s)|;
  }

  lemma SortByIndex<T>(s: seq<T>, key: T -> Key, i: nat)
    requires i < |SortBy(s, key)|
    ensures SortBy(s, key)[i] in s
  {
    SortBySorts(s, key);
    assert SortBy(s, key)[i] in Elements(SortBy(s, key));
    assert SortBy(s, key)[i] in Elements(s);
  }

  lemma {:induction false} InsertDistinct<T>(x: T, s: seq<T>, key: T -> Key)
    requires Distinct(s) && x !in s
    ensures Distinct(Insert(x, s, key))
  {
    if s == [] || Leq(key(x), key(s[0])) {
    } else {
      InsertDistinct(x, s[1..], key);
      InsertElements(x, s[1..], key);
      assert s[0] !in Elements(s[1..]);
      assert s[0] !in Elements(Insert(x, s[1..], key));
    }
  }

  lemma {:induction false} SortByDistinct<T>(s: seq<T>, key: T -> Key)
    requires Distinct(s)
    ensures Distinct(SortBy(s, key))
  {
    if s != [] {
      SortByDistinct(s[1..], key);
      SortBySorts(s[1..], key);
      assert s[0] !in Elements(s[1..]);
      assert s[0] !in Elements(SortBy(s[1..], key));
      InsertDistinct(s[0], SortBy(s[1..], key), key);
    }
  }

  /** The elements with key `k`, in list order. */
  function WithKey<T>(s: seq<T>, key: T -> Key, k: Key): seq<T> {
    if s == [] then [] else (if key(s[0]) == k then [s[0]] else []) + WithKey(s[1..], key, k)
  }

  lemma {:induction false} InsertStable<T>(x: T, s: seq<T>, key: T -> Key, k: Key)
    requires Sorted(s, key)
    ensures WithKey(Insert(x, s, key), key, k) == (if key(x) == k then [x] else []) + WithKey(s, key, k)
  {
    if s == [] || Leq(key(x), key(s[0])) {
      assert ([x] + s)[1..] == s;
    } else {
      InsertStable(x, s[1..], key, k);
      var t := Insert(x, s[1..], key);
      assert ([s[0]] + t)[1..] == t;
    }
  }

  /** Elements with equal keys keep their order. */
  lemma {:induction false} SortByStable<T>(s: seq<T>, key: T -> Key, k: Key)
    ensures WithKey(SortBy(s, key), key, k) == WithKey(s, key, k)
  {
    if s != [] {
      SortByStable(s[1..], key, k);
      SortBySorts(s[1..], key);
      InsertStable(s[0], SortBy(s[1..], key), key, k);
    }
  }

  lemma {:induction false} WithKeySame<T>(s: seq<T>, key: T -> Key, k: Key, key': T -> Key, k': Key)
    requires forall y :: y in s ==> (key(y) == k <==> key'(y) == k')
    ensures WithKey(s, key, k) == WithKey(s, key', k')
  {
    if s != [] { WithKeySame(s[1..], key, k, key', k'); }
  }

  lemma {:induction false} WithKeyElements<T>(s: seq<T>, key: T -> Key, k: Key)
    ensures forall y :: y in WithKey(s, key, k) <==> y in s && key(y) == k
  {
    if s != [] { WithKeyElements(s[1..], key, k); }
  }

  lemma {:induction false} WithKeyWithin<T>(s: seq<T>, key: T -> Key, k: Key, key': T -> Key, k': Key)
    requires forall y :: y in s && key'(y) == k' ==> key(y) == k
    ensures WithKey(WithKey(s, key, k), key', k') == WithKey(s, key', k')
  {
    if s != [] {
      assert s[0] in s && forall y :: y in s[1..] ==> y in s;
      WithKeyWithin(s[1..], key, k, key', k');
      var t := WithKey(s[1..], key, k);
      if key(s[0]) == k {
        assert WithKey(s, key, k) == [s[0]] + t && ([s[0]] + t)[1..] == t;
      } else {
        assert WithKey(s, key, k) == t && key'(s[0]) != k';
      }
    }
  }

  /** So do the elements with equal finer keys. */
  lemma SortByKeepsFiner<T>(s: seq<T>, key: T -> Key, k: Key, key': T -> Key, k': Key)
    requires forall y :: y in s && key'(y) == k' ==> key(y) == k
    ensures WithKey(SortBy(s, key), key', k') == WithKey(s, key', k')
  {
    forall y | y in SortBy(s, key) ensures y in s {
      SortBySorts(s, key);
      assert y in Elements(SortBy(s, key)) && y in Elements(s);
    }
    WithKeyWithin(SortBy(s, key), key, k, key', k');
    SortByStable(s, key, k);
    WithKeyWithin(s, key, k, key', k');
  }
}
