/** itertools.groupby: the maximal runs of equal keys in a list. */
module Grouping {
  import opened Sums
  import opened Sorting

  function Runs<T>(s: seq<T>, key: T -> Key): (gs: seq<seq<T>>)
    ensures forall i :: 0 <= i < |gs| ==> gs[i] != []
  {
    if s == [] then [] else
      var gs := Runs(s[..|s|-1], key);
      var x := s[|s|-1];
      if gs != [] && key(gs[|gs|-1][0]) == key(x)
      then gs[|gs|-1 := gs[|gs|-1] + [x]]
      else gs + [[x]]
  }

  function Concat<T>(gs: seq<seq<T>>): seq<T> {
    if gs == [] then [] else Concat(gs[..|gs|-1]) + gs[|gs|-1]
  }

  ghost predicate OneKey<T>(g: seq<T>, key: T -> Key) {
    forall j :: 0 <= j < |g| ==> key(g[j]) == key(g[0])
  }

  ghost predicate Disjoint<T>(gs: seq<seq<T>>) {
    forall a, b :: 0 <= a < b < |gs| ==> Elements(gs[a]) !! Elements(gs[b])
  }

  /** The runs cut the list into pieces in order. */
  lemma {:induction false} RunsConcat<T>(s: seq<T>, key: T -> Key)
    ensures Concat(Runs(s, key)) == s
  {
    if s != [] {
      var pre, x := s[..|s|-1], s[|s|-1];
      RunsConcat(pre, key);
      var gs, hs := Runs(pre, key), Runs(s, key);
      assert s == pre + [x];
      if gs != [] && key(gs[|gs|-1][0]) == key(x) {
        assert hs[..|hs|-1] == gs[..|gs|-1];
      } else {
        assert hs[..|hs|-1] == gs;
      }
    }
  }

  /** Every group has one key, and its right neighbour has another. */
  ghost predicate Alternating<T>(gs: seq<seq<T>>, key: T -> Key)
    requires forall i :: 0 <= i < |gs| ==> gs[i] != []
  {
    && (forall i :: 0 <= i < |gs| ==> OneKey(gs[i], key))
    && (forall i, j :: 0 <= i && j == i + 1 && j < |gs| ==> key(gs[i][0]) != key(gs[j][0]))
  }

  lemma {:induction false} RunsAlternate<T>(s: seq<T>, key: T -> Key)
    ensures Alternating(Runs(s, key), key)
  {
    if s != [] {
      var pre := Runs(s[..|s|-1], key);
      RunsAlternate(s[..|s|-1], key);
      assert Alternating(pre, key);
      var gs, x := Runs(s, key), s[|s|-1];
      forall i | 0 <= i < |gs| ensures OneKey(gs[i], key) {
        if i < |pre| { assert OneKey(pre[i], key); }
      }
      forall i, j | 0 <= i && j == i + 1 && j < |gs| ensures key(gs[i][0]) != key(gs[j][0]) {
        if j < |pre| { assert key(pre[i][0]) != key(pre[j][0]); }
      }
    }
  }

  lemma {:induction false} ConcatElements<T>(gs: seq<seq<T>>)
    ensures forall i :: 0 <= i < |gs| ==> Elements(gs[i]) <= Elements(Concat(gs))
    ensures forall x :: x in Concat(gs) ==> exists i :: 0 <= i < |gs| && x in gs[i]
  {
    if gs != [] {
      var pre, last := gs[..|gs|-1], gs[|gs|-1];
      ConcatElements(pre);
      assert Elements(Concat(gs)) == Elements(Concat(pre)) + Elements(last);
      forall i | 0 <= i < |gs| ensures Elements(gs[i]) <= Elements(Concat(gs)) {
        if i < |pre| { assert gs[i] == pre[i]; }
      }
      forall x | x in Concat(gs) ensures exists i :: 0 <= i < |gs| && x in gs[i] {
        if x !in last {
          var i :| 0 <= i < |pre| && x in pre[i];
          assert x in gs[i];
        }
      }
    }
  }

  lemma DistinctConcat<T>(s: seq<T>, t: seq<T>)
    requires Distinct(s + t)
    ensures Distinct(s) && Distinct(t) && Elements(s) !! Elements(t)
  {
    var st := s + t;
    assert forall i :: 0 <= i < |s| ==> s[i] == st[i];
    assert forall i :: 0 <= i < |t| ==> t[i] == st[|s|+i];
    forall x | x in Elements(s) ensures x !in Elements(t) {
      var i :| 0 <= i < |s| && s[i] == x;
      forall j | 0 <= j < |t| ensures t[j] != x { assert st[i] != st[|s|+j]; }
    }
  }

  lemma DistinctJoin<T>(s: seq<T>, t: seq<T>)
    requires Distinct(s) && Distinct(t) && Elements(s) !! Elements(t)
    ensures Distinct(s + t)
  {
    forall i, j | 0 <= i < j < |s + t| ensures (s + t)[i] != (s + t)[j] {
      if i < |s| <= j { assert s[i] in Elements(s) && t[j - |s|] in Elements(t); }
    }
  }

  /** The pieces of a list without repetition share nothing. */
  lemma {:induction false} PiecesOfDistinct<T>(gs: seq<seq<T>>)
    requires Distinct(Concat(gs))
    ensures Disjoint(gs) && forall i :: 0 <= i < |gs| ==> Distinct(gs[i])
  {
    if gs != [] {
      var pre, last := gs[..|gs|-1], gs[|gs|-1];
      DistinctConcat(Concat(pre), last);
      PiecesOfDistinct(pre);
      ConcatElements(pre);
      forall a, b | 0 <= a < b < |gs| ensures Elements(gs[a]) !! Elements(gs[b]) {
        assert gs[a] == pre[a];
        if b < |pre| { assert gs[b] == pre[b]; }
      }
    }
  }

  predicate Before(a: Key, b: Key) { Leq(a, b) && a != b }

  /** The groups have rising keys, and each holds all the elements of `s` with its key, in order. */
  ghost predicate KeyClasses<T>(gs: seq<seq<T>>, s: seq<T>, key: T -> Key)
    requires forall i :: 0 <= i < |gs| ==> gs[i] != []
  {
    && (forall i, j :: 0 <= i < j < |gs| ==> Before(key(gs[i][0]), key(gs[j][0])))
    && (forall i :: 0 <= i < |gs| ==> gs[i][0] in s && gs[i] == WithKey(s, key, key(gs[i][0])))
  }

  lemma {:induction false} WithKeyLast<T>(s: seq<T>, x: T, key: T -> Key, k: Key)
    ensures WithKey(s + [x], key, k) == WithKey(s, key, k) + if key(x) == k then [x] else []
  {
    if s != [] {
      assert (s + [x])[1..] == s[1..] + [x];
      WithKeyLast(s[1..], x, key, k);
    } else {
      assert (s + [x])[1..] == [];
    }
  }

  lemma {:induction false} WithKeyNone<T>(s: seq<T>, key: T -> Key, k: Key)
    requires forall y :: y in s ==> key(y) != k
    ensures WithKey(s, key, k) == []
  {
    if s != [] { WithKeyNone(s[1..], key, k); }
  }

  lemma NoneWithKey<T>(s: seq<T>, key: T -> Key, k: Key)
    requires Sorted(s, key)
    requires s != [] ==> Leq(key(s[|s|-1]), k) && key(s[|s|-1]) != k
    ensures WithKey(s, key, k) == []
  {
    forall y | y in s ensures key(y) != k {
      var j :| 0 <= j < |s| && s[j] == y;
      assert j < |s| - 1 ==> Leq(key(s[j]), key(s[|s|-1]));
    }
    WithKeyNone(s, key, k);
  }

  lemma ExtendLastClass<T>(gs: seq<seq<T>>, s: seq<T>, key: T -> Key, x: T)
    requires forall i :: 0 <= i < |gs| ==> gs[i] != []
    requires KeyClasses(gs, s, key) && gs != [] && key(gs[|gs|-1][0]) == key(x)
    ensures KeyClasses(gs[|gs|-1 := gs[|gs|-1] + [x]], s + [x], key)
  {
    var hs := gs[|gs|-1 := gs[|gs|-1] + [x]];
    forall i | 0 <= i < |hs| ensures hs[i][0] in s + [x] && hs[i] == WithKey(s + [x], key, key(hs[i][0])) {
      assert hs[i][0] == gs[i][0];
      assert i < |gs| - 1 ==> Before(key(gs[i][0]), key(gs[|gs|-1][0]));
      WithKeyLast(s, x, key, key(gs[i][0]));
    }
    forall i, j | 0 <= i < j < |hs| ensures Before(key(hs[i][0]), key(hs[j][0])) {
      assert hs[i][0] == gs[i][0] && hs[j][0] == gs[j][0];
    }
  }

  lemma AddClass<T>(gs: seq<seq<T>>, s: seq<T>, key: T -> Key, x: T)
    requires forall i :: 0 <= i < |gs| ==> gs[i] != []
    requires KeyClasses(gs, s, key) && Sorted(s, key)
    requires s == [] ==> gs == []
    requires s != [] ==> gs != [] && key(gs[|gs|-1][0]) == key(s[|s|-1]) && Before(key(s[|s|-1]), key(x))
    ensures KeyClasses(gs + [[x]], s + [x], key)
  {
    var hs := gs + [[x]];
    forall i | 0 <= i < |hs| ensures hs[i][0] in s + [x] && hs[i] == WithKey(s + [x], key, key(hs[i][0])) {
      WithKeyLast(s, x, key, key(hs[i][0]));
      if i < |gs| {
        assert hs[i] == gs[i];
        assert i < |gs| - 1 ==> Before(key(gs[i][0]), key(gs[|gs|-1][0]));
      } else {
        NoneWithKey(s, key, key(x));
      }
    }
    forall i, j | 0 <= i < j < |hs| ensures Before(key(hs[i][0]), key(hs[j][0])) {
      assert hs[i] == gs[i];
      assert i < |gs| - 1 ==> Before(key(gs[i][0]), key(gs[|gs|-1][0]));
    }
  }

  /** On a sorted list the runs are the key classes. */
  lemma {:induction false} SortedRuns<T>(s: seq<T>, key: T -> Key)
    requires Sorted(s, key)
    ensures KeyClasses(Runs(s, key), s, key)
    ensures s != [] ==> Runs(s, key) != [] && key(Runs(s, key)[|Runs(s, key)|-1][0]) == key(s[|s|-1])
  {
    if s != [] {
      var pre, x := s[..|s|-1], s[|s|-1];
      assert s == pre + [x];
      SortedRuns(pre, key);
      var gs := Runs(pre, key);
      if gs != [] && key(gs[|gs|-1][0]) == key(x) {
        ExtendLastClass(gs, pre, key, x);
      } else {
        assert pre != [] ==> Leq(key(s[|s|-2]), key(s[|s|-1]));
        AddClass(gs, pre, key, x);
      }
    }
  }

  // ---------------------------------------------------------------- one run per key

  /** If elements `a` and `c` have the same key, so has element `b` between them. */
  ghost predicate Together<T>(s: seq<T>, key: T -> Key, a: nat, b: nat, c: nat)
    requires a < b < c < |s|
  {
    key(s[a]) == key(s[c]) ==> key(s[b]) == key(s[a])
  }

  /** No element with another key stands between two elements of one key. */
  ghost predicate Contiguous<T>(s: seq<T>, key: T -> Key) {
    forall a: nat, b: nat, c: nat {:trigger Together(s, key, a, b, c)} :: a < b < c < |s| ==> Together(s, key, a, b, c)
  }

  ghost predicate KeysDiffer<T>(gs: seq<seq<T>>, key: T -> Key, i: nat, j: nat)
    requires i < |gs| && j < |gs| && gs[i] != [] && gs[j] != []
  {
    key(gs[i][0]) != key(gs[j][0])
  }

  ghost predicate OneRunEach<T>(gs: seq<seq<T>>, key: T -> Key)
    requires forall i :: 0 <= i < |gs| ==> gs[i] != []
  {
    forall i: nat, j: nat {:trigger KeysDiffer(gs, key, i, j)} :: i < j < |gs| ==> KeysDiffer(gs, key, i, j)
  }

  ghost predicate HasRun<T>(gs: seq<seq<T>>, key: T -> Key, k: Key)
    requires forall i :: 0 <= i < |gs| ==> gs[i] != []
  {
    exists i :: 0 <= i < |gs| && key(gs[i][0]) == k
  }

  ghost predicate HasKey<T>(s: seq<T>, key: T -> Key, k: Key) {
    exists j :: 0 <= j < |s| && key(s[j]) == k
  }

  /** A key has a run exactly if it has an element; the last run has the key of the last element. */
  lemma {:induction false} RunKeys<T>(s: seq<T>, key: T -> Key, k: Key)
    ensures HasRun(Runs(s, key), key, k) <==> HasKey(s, key, k)
    ensures s != [] ==> Runs(s, key) != [] && key(Runs(s, key)[|Runs(s, key)|-1][0]) == key(s[|s|-1])
  {
    if s != [] {
      var pre, x := s[..|s|-1], s[|s|-1];
      RunKeys(pre, key, k);
      var gs, hs := Runs(pre, key), Runs(s, key);
      assert HasKey(s, key, k) <==> HasKey(pre, key, k) || key(x) == k by {
        if HasKey(pre, key, k) {
          var j :| 0 <= j < |pre| && key(pre[j]) == k;
          assert key(s[j]) == k;
        }
      }
      assert forall i :: 0 <= i < |gs| ==> hs[i][0] == gs[i][0];
      assert |hs| == |gs| || |hs| == |gs| + 1;
      if HasRun(gs, key, k) {
        var i :| 0 <= i < |gs| && key(gs[i][0]) == k;
        assert key(hs[i][0]) == k;
      }
      assert key(hs[|hs|-1][0]) == key(x);
    }
  }

  lemma ContiguousLast<T>(s: seq<T>, x: T, key: T -> Key)
    ensures s != [] && key(s[|s|-1]) == key(x) ==> (Contiguous(s + [x], key) <==> Contiguous(s, key))
    ensures s == [] || key(s[|s|-1]) != key(x) ==>
      (Contiguous(s + [x], key) <==> Contiguous(s, key) && !HasKey(s, key, key(x)))
  {
    var t, n := s + [x], |s|;
    if Contiguous(t, key) {
      forall a: nat, b: nat, c: nat | a < b < c < n ensures Together(s, key, a, b, c) {
        assert Together(t, key, a, b, c);
      }
      forall j: nat | j < n - 1 ensures key(s[j]) == key(x) ==> key(s[n-1]) == key(x) {
        assert Together(t, key, j, n - 1, n);
      }
    } else {
      var a: nat, b: nat, c: nat :| a < b < c < n + 1 && !Together(t, key, a, b, c);
      assert c < n ==> !Together(s, key, a, b, c);
      assert c == n && b < n - 1 ==> Together(s, key, a, b, n - 1) || HasKey(s, key, key(x));
      assert c == n ==> key(s[a]) == key(x);
    }
  }

  lemma OneRunJoin<T>(gs: seq<seq<T>>, g: seq<T>, key: T -> Key)
    requires gs != [] && g != [] && forall i :: 0 <= i < |gs| ==> gs[i] != []
    requires g[0] == gs[|gs|-1][0]
    ensures OneRunEach(gs[|gs|-1 := g], key) <==> OneRunEach(gs, key)
  {
    var hs := gs[|gs|-1 := g];
    forall i: nat, j: nat | i < j < |gs| ensures KeysDiffer(hs, key, i, j) == KeysDiffer(gs, key, i, j) {}
  }

  lemma OneRunAdd<T>(gs: seq<seq<T>>, x: T, key: T -> Key)
    requires forall i :: 0 <= i < |gs| ==> gs[i] != []
    ensures OneRunEach(gs + [[x]], key) <==> OneRunEach(gs, key) && !HasRun(gs, key, key(x))
  {
    var hs := gs + [[x]];
    forall i: nat, j: nat | i < j < |gs| ensures KeysDiffer(hs, key, i, j) == KeysDiffer(gs, key, i, j) {}
    forall i: nat | i < |gs| ensures KeysDiffer(hs, key, i, |gs|) == (key(gs[i][0]) != key(x)) {}
  }

  lemma OneRunStep<T>(gs: seq<seq<T>>, s: seq<T>, x: T, key: T -> Key)
    requires forall i :: 0 <= i < |gs| ==> gs[i] != []
    requires OneRunEach(gs, key) <==> Contiguous(s, key)
    requires HasRun(gs, key, key(x)) <==> HasKey(s, key, key(x))
    requires if s == [] then gs == [] else gs != [] && key(gs[|gs|-1][0]) == key(s[|s|-1])
    ensures if gs != [] && key(gs[|gs|-1][0]) == key(x)
            then OneRunEach(gs[|gs|-1 := gs[|gs|-1] + [x]], key) <==> Contiguous(s + [x], key)
            else OneRunEach(gs + [[x]], key) <==> Contiguous(s + [x], key)
  {
    ContiguousLast(s, x, key);
    if gs != [] && key(gs[|gs|-1][0]) == key(x) {
      OneRunJoin(gs, gs[|gs|-1] + [x], key);
    } else {
      OneRunAdd(gs, x, key);
    }
  }

  /** Every key has one run if and only if its elements stand together. */
  lemma {:induction false} OneRunIff<T>(s: seq<T>, key: T -> Key)
    ensures OneRunEach(Runs(s, key), key) <==> Contiguous(s, key)
  {
    if s != [] {
      var pre, x := s[..|s|-1], s[|s|-1];
      OneRunIff(pre, key);
      RunKeys(pre, key, key(x));
      OneRunStep(Runs(pre, key), pre, x, key);
      assert s == pre + [x];
    }
  }

  lemma {:induction false} WithKeyConcat<T>(a: seq<T>, b: seq<T>, key: T -> Key, k: Key)
    ensures WithKey(a + b, key, k) == WithKey(a, key, k) + WithKey(b, key, k)
  {
    if a == [] {
      assert a + b == b;
    } else {
      assert (a + b)[1..] == a[1..] + b;
      WithKeyConcat(a[1..], b, key, k);
    }
  }

  lemma {:induction false} WithKeyAll<T>(s: seq<T>, key: T -> Key, k: Key)
    requires forall j :: 0 <= j < |s| ==> key(s[j]) == k
    ensures WithKey(s, key, k) == s
  {
    if s != [] { WithKeyAll(s[1..], key, k); }
  }

  /** What one run has of a key, if all other runs have other keys. */
  lemma {:induction false} OneRunClass<T>(gs: seq<seq<T>>, key: T -> Key, i: nat)
    requires forall j :: 0 <= j < |gs| ==> gs[j] != []
    requires OneRunEach(gs, key) && i < |gs| && forall j :: 0 <= j < |gs| ==> OneKey(gs[j], key)
    ensures WithKey(Concat(gs), key, key(gs[i][0])) == gs[i]
  {
    var k, pre, last := key(gs[i][0]), gs[..|gs|-1], gs[|gs|-1];
    WithKeyConcat(Concat(pre), last, key, k);
    if i < |pre| {
      forall a: nat, b: nat | a < b < |pre| ensures KeysDiffer(pre, key, a, b) { assert KeysDiffer(gs, key, a, b); }
      OneRunClass(pre, key, i);
      assert KeysDiffer(gs, key, i, |gs| - 1) && OneKey(last, key);
      WithKeyNone(last, key, k);
    } else {
      forall j: nat | j < |pre| ensures key(pre[j][0]) != k { assert KeysDiffer(gs, key, j, i); }
      NoneInOthers(pre, key, k);
      WithKeyAll(last, key, k);
    }
  }

  lemma {:induction false} NoneInOthers<T>(gs: seq<seq<T>>, key: T -> Key, k: Key)
    requires forall j :: 0 <= j < |gs| ==> gs[j] != [] && OneKey(gs[j], key) && key(gs[j][0]) != k
    ensures WithKey(Concat(gs), key, k) == []
  {
    if gs != [] {
      var pre, last := gs[..|gs|-1], gs[|gs|-1];
      NoneInOthers(pre, key, k);
      assert OneKey(last, key) && key(last[0]) != k;
      WithKeyNone(last, key, k);
      WithKeyConcat(Concat(pre), last, key, k);
    }
  }

  /** Every run is the whole class of its key, in list order. */
  ghost predicate RunsAreClasses<T>(gs: seq<seq<T>>, s: seq<T>, key: T -> Key)
    requires forall i :: 0 <= i < |gs| ==> gs[i] != []
  {
    forall i :: 0 <= i < |gs| ==> gs[i] == WithKey(s, key, key(gs[i][0]))
  }

  /** Grouping by runs is grouping by key if and only if no key is interrupted. */
  lemma RunsAreClassesIff<T>(s: seq<T>, key: T -> Key)
    requires Distinct(s)
    ensures RunsAreClasses(Runs(s, key), s, key) <==> Contiguous(s, key)
  {
    var gs := Runs(s, key);
    OneRunIff(s, key);
    RunsConcat(s, key);
    RunsAlternate(s, key);
    if OneRunEach(gs, key) {
      forall i | 0 <= i < |gs| ensures gs[i] == WithKey(s, key, key(gs[i][0])) { OneRunClass(gs, key, i); }
    } else {
      var i: nat, j: nat :| i < j < |gs| && !KeysDiffer(gs, key, i, j);
      PiecesOfDistinct(gs);
      assert gs[i][0] in Elements(gs[i]) && gs[j][0] in Elements(gs[j]);
      assert Elements(gs[i]) !! Elements(gs[j]);
      assert gs[i] != gs[j];
    }
  }
}
