/** Filtered lists: which places of a list a comprehension with a condition takes. */
module Picks {

  ghost predicate Rising(at: seq<nat>) { forall i, j :: 0 <= i < j < |at| ==> at[i] < at[j] }

  /** `r` holds the elements of `s` at the places `at`, in order. */
  ghost predicate Picked<T>(s: seq<T>, at: seq<nat>, r: seq<T>) {
    && |at| == |r| && Rising(at)
    && forall i :: 0 <= i < |at| ==> at[i] < |s| && r[i] == s[at[i]]
  }

  /** `r` is left of `s` when some elements are dropped. */
  ghost predicate InOrder<T>(s: seq<T>, r: seq<T>) { exists at: seq<nat> :: Picked(s, at, r) }

  lemma PickedInOrder<T>(s: seq<T>, at: seq<nat>, r: seq<T>)
    requires Picked(s, at, r)
    ensures InOrder(s, r)
  {
  }

  lemma PickNone<T>(s: seq<T>, at: seq<nat>, r: seq<T>, x: T)
    requires Picked(s, at, r)
    ensures Picked(s + [x], at, r) && |s| !in at
  {
  }

  lemma PickNext<T>(s: seq<T>, at: seq<nat>, r: seq<T>, x: T)
    requires Picked(s, at, r)
    ensures Picked(s + [x], at + [|s|], r + [x])
  {
  }

  /** The places one further on. */
  function Shift(at: seq<nat>): (r: seq<nat>)
    ensures |r| == |at| && forall i :: 0 <= i < |at| ==> r[i] == at[i] + 1
  {
    seq(|at|, i requires 0 <= i < |at| => at[i] + 1)
  }

  lemma ShiftElement(at: seq<nat>, k: nat)
    ensures k + 1 in Shift(at) <==> k in at
    ensures 0 !in Shift(at)
  {
    if k in at {
      var i :| 0 <= i < |at| && at[i] == k;
      assert Shift(at)[i] == k + 1;
    }
  }

  /** An element in front that is not taken, or is. */
  lemma PickBehind<T>(x: T, s: seq<T>, at: seq<nat>, r: seq<T>)
    requires Picked(s, at, r)
    ensures Picked([x] + s, Shift(at), r) && Picked([x] + s, [0] + Shift(at), [x] + r)
  {
  }
}
