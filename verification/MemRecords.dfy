/** MemRecordsAcc: the sorted index over memory records and its interval query. Times are in ns. */
module MemRecords {
  import opened Sums
  import opened Sorting

  /** bisect.bisect_left: the first position whose element is not below `x`. */
  function BisectLeft(a: seq<int>, x: int): (i: nat)
    ensures i <= |a| && (forall k :: 0 <= k < i ==> a[k] < x) && (i < |a| ==> x <= a[i])
  {
    if a == [] || x <= a[0] then 0 else 1 + BisectLeft(a[1..], x)
  }

  /** bisect.bisect_right: the first position whose element is above `x`. */
  function BisectRight(a: seq<int>, x: int): (i: nat)
    ensures i <= |a| && (forall k :: 0 <= k < i ==> a[k] <= x) && (i < |a| ==> x < a[i])
  {
    if a == [] || x < a[0] then 0 else 1 + BisectRight(a[1..], x)
  }

  /** `sorted([(start_ns, i) ...])`, as positions: by start time, then by position. */
  function IndexKey(starts: seq<int>): int -> Key {
    i => Key(if 0 <= i < |starts| then starts[i] else 0, i)
  }

  function Positions(n: nat): (s: seq<int>)
    ensures |s| == n && forall i :: 0 <= i < n ==> s[i] == i
  {
    seq(n, i => i)
  }

  /** What a linear scan of the records selects. */
  ghost predicate Selects(starts: seq<int>, from: int, to: int, i: int) {
    0 <= i < |starts| && from <= starts[i] <= to
  }

  class MemRecordsAcc {
    const starts: seq<int>      // start times of the records, in record order
    const startNses: seq<int>   // the same, sorted
    const indices: seq<int>     // the record at each sorted place

    ghost predicate Valid() {
      && |startNses| == |indices| == |starts|
      && (forall k :: 0 <= k < |indices| ==> 0 <= indices[k] < |starts| && startNses[k] == starts[indices[k]])
      && (forall i :: 0 <= i < |starts| ==> i in indices)
      && Distinct(indices) && Sorted(indices, IndexKey(starts))
    }

    constructor (starts: seq<int>)
      ensures Valid() && this.starts == starts
    {
      var order := SortBy(Positions(|starts|), IndexKey(starts));
      SortBySorts(Positions(|starts|), IndexKey(starts));
      SortByDistinct(Positions(|starts|), IndexKey(starts));
      SortByPermutes(Positions(|starts|), IndexKey(starts));
      forall i ensures i in order <==> 0 <= i < |starts| {
        assert i in order <==> i in Elements(order);
        assert i in Elements(Positions(|starts|)) <==> 0 <= i < |starts| by {
          if 0 <= i < |starts| { assert Positions(|starts|)[i] == i; }
        }
      }
      forall k | 0 <= k < |order| ensures 0 <= order[k] < |starts| { assert order[k] in order; }
      this.starts := starts;
      indices := order;
      startNses := seq(|order|, k requires 0 <= k < |order| => starts[order[k]]);
    }

    /**
     MemRecordsAcc.in_interval: exactly the records a linear scan would select, each once, by
     start time and then by record order. An interval with `from > to` selects nothing.
     */
    method InInterval(from: int, to: int) returns (r: seq<int>)
      requires Valid()
      ensures forall i :: i in r <==> Selects(starts, from, to, i)
      ensures Distinct(r) && Sorted(r, IndexKey(starts))
    {
      var startIdx, endIdx := BisectLeft(startNses, from), BisectRight(startNses, to);
      r := [];
      for i := startIdx to (if startIdx <= endIdx then endIdx else startIdx)
        invariant r == indices[startIdx..i]
      {
        r := r + [indices[i]];
      }
      SelectedRange(from, to);
    }

    lemma SelectedRange(from: int, to: int)
      requires Valid()
      ensures var a, b := BisectLeft(startNses, from), BisectRight(startNses, to);
        var r := indices[a..if a <= b then b else a];
        && (forall i :: i in r <==> Selects(starts, from, to, i))
        && Distinct(r) && Sorted(r, IndexKey(starts))
    {
      var a, b := BisectLeft(startNses, from), BisectRight(startNses, to);
      var stop := if a <= b then b else a;
      var r := indices[a..stop];
      forall i ensures i in r <==> Selects(starts, from, to, i) { SelectedAt(from, to, i); }
    }

    lemma SelectedAt(from: int, to: int, i: int)
      requires Valid()
      ensures var a, b := BisectLeft(startNses, from), BisectRight(startNses, to);
        i in indices[a..if a <= b then b else a] <==> Selects(starts, from, to, i)
    {
      var a, b := BisectLeft(startNses, from), BisectRight(startNses, to);
      var stop := if a <= b then b else a;
      SelectedPlaces(from, to);
      PlaceInRange(indices, a, stop, i);
      if Selects(starts, from, to, i) {
        assert i in indices;
        var k :| 0 <= k < |indices| && indices[k] == i;
        assert from <= startNses[k] <= to;
      }
    }

    static lemma PlaceInRange(s: seq<int>, a: nat, b: nat, x: int)
      requires a <= b <= |s|
      ensures x in s[a..b] <==> exists k :: a <= k < b && s[k] == x
    {
      if k :| a <= k < b && s[k] == x { assert s[a..b][k - a] == x; }
    }

    lemma SelectedPlaces(from: int, to: int)
      requires Valid()
      ensures forall k :: 0 <= k < |indices| ==>
        (BisectLeft(startNses, from) <= k < BisectRight(startNses, to) <==> from <= startNses[k] <= to)
    {
      var a, b := BisectLeft(startNses, from), BisectRight(startNses, to);
      forall k | 0 <= k < |indices| ensures a <= k < b <==> from <= startNses[k] <= to {
        if a < k { assert Leq(IndexKey(starts)(indices[a]), IndexKey(starts)(indices[k])); }
        if b < k { assert Leq(IndexKey(starts)(indices[b]), IndexKey(starts)(indices[k])); }
      }
    }
  }
}
