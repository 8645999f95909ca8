/** Sums over finite sets and sequences, the common currency of the profiler's totals. */
module Sums {

  /** The sum of `w` over a finite set; the order of summation is immaterial (see SetSumPick). */
  ghost function SetSum<T>(s: set<T>, w: T -> int): int
    decreases |s|
  {
    if s == {} then 0 else
      var x :| x in s;
      w(x) + SetSum(s - {x}, w)
  }

  /** The sum of `w` over a list, as Python's `sum(w(x) for x in s)`. */
  ghost function SeqSum<T>(s: seq<T>, w: T -> int): int {
    if s == [] then 0 else SeqSum(s[..|s|-1], w) + w(s[|s|-1])
  }

  ghost predicate Distinct<T>(s: seq<T>) {
    forall i, j :: 0 <= i < j < |s| ==> s[i] != s[j]
  }

  ghost function Elements<T>(s: seq<T>): set<T> {
    set x | x in s
  }

  lemma {:induction false} SetSumPick<T>(s: set<T>, w: T -> int, x: T)
    requires x in s
    ensures SetSum(s, w) == w(x) + SetSum(s - {x}, w)
    decreases |s|
  {
    var y :| y in s && SetSum(s, w) == w(y) + SetSum(s - {y}, w);
    if y != x {
      SetSumPick(s - {y}, w, x);
      SetSumPick(s - {x}, w, y);
      assert s - {y} - {x} == s - {x} - {y};
    }
  }

  lemma SetSumAdd<T>(s: set<T>, w: T -> int, x: T)
    requires x !in s
    ensures SetSum(s + {x}, w) == SetSum(s, w) + w(x)
  {
    SetSumPick(s + {x}, w, x);
    assert s + {x} - {x} == s;
  }

  lemma {:induction false} SetSumUnion<T>(a: set<T>, b: set<T>, w: T -> int)
    requires a !! b
    ensures SetSum(a + b, w) == SetSum(a, w) + SetSum(b, w)
    decreases |b|
  {
    if b == {} {
      assert a + b == a;
    } else {
      var x :| x in b;
      SetSumPick(b, w, x);
      SetSumPick(a + b, w, x);
      SetSumUnion(a, b - {x}, w);
      assert a + b - {x} == a + (b - {x});
    }
  }

  lemma {:induction false} SetSumSame<T>(s: set<T>, v: T -> int, w: T -> int)
    requires forall x :: x in s ==> v(x) == w(x)
    ensures SetSum(s, v) == SetSum(s, w)
    decreases |s|
  {
    if s != {} {
      var x :| x in s;
      SetSumPick(s, v, x);
      SetSumPick(s, w, x);
      SetSumSame(s - {x}, v, w);
    }
  }

  lemma {:induction false} SetSumPlus<T>(s: set<T>, u: T -> int, v: T -> int, w: T -> int)
    requires forall x :: x in s ==> w(x) == u(x) + v(x)
    ensures SetSum(s, w) == SetSum(s, u) + SetSum(s, v)
    decreases |s|
  {
    if s != {} {
      var x :| x in s;
      SetSumPick(s, u, x);
      SetSumPick(s, v, x);
      SetSumPick(s, w, x);
      SetSumPlus(s - {x}, u, v, w);
    }
  }

  lemma {:induction false} SeqSumIsSetSum<T>(s: seq<T>, w: T -> int)
    requires Distinct(s)
    ensures SeqSum(s, w) == SetSum(Elements(s), w)
  {
    if s != [] {
      var t, x := s[..|s|-1], s[|s|-1];
      assert s == t + [x];
      SeqSumIsSetSum(t, w);
      SetSumAdd(Elements(t), w, x);
      assert Elements(s) == Elements(t) + {x};
    } else {
      assert Elements(s) == {};
    }
  }

  lemma {:induction false} SeqSumConcat<T>(s: seq<T>, t: seq<T>, w: T -> int)
    ensures SeqSum(s + t, w) == SeqSum(s, w) + SeqSum(t, w)
  {
    if t == [] {
      assert s + t == s;
    } else {
      assert (s + t)[..|s + t|-1] == s + t[..|t|-1];
      SeqSumConcat(s, t[..|t|-1], w);
    }
  }

  lemma {:induction false} SeqSumSame<T>(s: seq<T>, v: T -> int, w: T -> int)
    requires forall i :: 0 <= i < |s| ==> v(s[i]) == w(s[i])
    ensures SeqSum(s, v) == SeqSum(s, w)
  {
    if s != [] {
      SeqSumSame(s[..|s|-1], v, w);
    }
  }

  lemma {:induction false} SetSumZero<T>(s: set<T>)
    ensures SetSum(s, (x: T) => 0) == 0
    decreases |s|
  {
    if s != {} {
      var x :| x in s;
      SetSumPick(s, (x: T) => 0, x);
      SetSumZero(s - {x});
    }
  }

  ghost function IfIn<T>(h: set<T>, v: int): T -> int {
    (e: T) => if e in h then v else 0
  }

  lemma OneMore(v: int, n: int)
    ensures v * (n + 1) == v * n + v
  {
  }

  lemma {:induction false} IndicatorSum<T>(s: set<T>, h: set<T>, v: int)
    requires h <= s
    ensures SetSum(s, IfIn(h, v)) == v * |h|
    decreases |h|
  {
    if h == {} {
      SetSumSame(s, IfIn(h, v), (e: T) => 0);
      SetSumZero(s);
    } else {
      var x :| x in h;
      var h' := h - {x};
      SetSumPick(s, IfIn(h, v), x);
      SetSumPick(s, IfIn(h', v), x);
      IndicatorSum(s, h', v);
      SetSumSame(s - {x}, IfIn(h, v), IfIn(h', v));
      assert |h| == |h'| + 1;
      OneMore(v, |h'|);
    }
  }

  lemma {:induction false} SeqSumSplit<S, T>(s: seq<S>, t: seq<T>, u: S -> int, v: T -> int, w: S -> int)
    requires |s| == |t| && forall k :: 0 <= k < |s| ==> u(s[k]) == v(t[k]) + w(s[k])
    ensures SeqSum(s, u) == SeqSum(t, v) + SeqSum(s, w)
  {
    if s != [] { SeqSumSplit(s[..|s|-1], t[..|t|-1], u, v, w); }
  }

  /** Sets of one size are those with a bijection between them ... */
  lemma {:induction false} BijectionSize<A, B>(a: set<A>, b: set<B>, m: map<A, B>)
    requires m.Keys == a && (forall x :: x in a ==> m[x] in b) && (forall y :: y in b ==> exists x :: x in a && m[x] == y)
    requires forall x, y :: x in a && y in a && m[x] == m[y] ==> x == y
    ensures |a| == |b|
    decreases a
  {
    if a == {} {
      assert b == {};
    } else {
      var x :| x in a;
      var rest := map y | y in a - {x} :: m[y];
      forall z | z in b - {m[x]} ensures exists y :: y in a - {x} && rest[y] == z {
        var y :| y in a && m[y] == z;
        assert y in a - {x} && rest[y] == z;
      }
      BijectionSize(a - {x}, b - {m[x]}, rest);
    }
  }

  /** ... and sums carry over. */
  lemma {:induction false} BijectionSum<A, B>(a: set<A>, b: set<B>, m: map<A, B>, v: A -> int, w: B -> int)
    requires m.Keys == a && (forall x :: x in a ==> m[x] in b) && (forall y :: y in b ==> exists x :: x in a && m[x] == y)
    requires forall x, y :: x in a && y in a && m[x] == m[y] ==> x == y
    requires forall x :: x in a ==> v(x) == w(m[x])
    ensures SetSum(a, v) == SetSum(b, w)
    decreases a
  {
    if a == {} {
      assert b == {};
    } else {
      var x :| x in a;
      var rest := map y | y in a - {x} :: m[y];
      forall z | z in b - {m[x]} ensures exists y :: y in a - {x} && rest[y] == z {
        var y :| y in a && m[y] == z;
        assert y in a - {x} && rest[y] == z;
      }
      BijectionSum(a - {x}, b - {m[x]}, rest, v, w);
      SetSumPick(a, v, x);
      SetSumPick(b, w, m[x]);
    }
  }

  /** Summing over the elements at some places of a list, or over the places. */
  lemma PlacesSum<T>(s: seq<T>, a: set<int>, h: set<T>, v: int -> int, w: T -> int)
    requires Distinct(s) && (forall k :: k in a ==> 0 <= k < |s|) && forall x :: x in h ==> x in s
    requires forall k {:trigger s[k]} :: 0 <= k < |s| ==> (s[k] in h <==> k in a)
    requires forall k {:trigger s[k]} :: 0 <= k < |s| && k in a ==> v(k) == w(s[k])
    ensures SetSum(a, v) == SetSum(h, w)
  {
    var m := map k | k in a :: s[k];
    forall x | x in h ensures exists k :: k in a && m[k] == x {
      var k :| 0 <= k < |s| && s[k] == x;
      assert k in a && m[k] == x;
    }
    BijectionSum(a, h, m, v, w);
  }

  lemma PlacesSize<T>(s: seq<T>, a: set<int>, h: set<T>)
    requires Distinct(s) && (forall k :: k in a ==> 0 <= k < |s|) && forall x :: x in h ==> x in s
    requires forall k {:trigger s[k]} :: 0 <= k < |s| ==> (s[k] in h <==> k in a)
    ensures |a| == |h|
  {
    var m := map k | k in a :: s[k];
    forall x | x in h ensures exists k :: k in a && m[k] == x {
      var k :| 0 <= k < |s| && s[k] == x;
      assert k in a && m[k] == x;
    }
    BijectionSize(a, h, m);
  }
}
