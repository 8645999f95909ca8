/**
 Process-group splitting: each member of a parent group finds its own subgroup in the list
 of splits, on its own. A group is known by its map from global ranks to group ranks.
 */
module SplitGroups {
  import opened Wrappers
  import opened Sums
  import opened Sorting

  datatype Error = EmptySplit | SplitTooLarge | DuplicateRanks | NotInParent | UnknownRank

  /** A rank's own view of its new group: parent ranks, own rank in it, global ranks, and the registered map. */
  datatype View = View(ranks: seq<int>, groupRank: int, globals: seq<int>, mapping: map<int, int>)

  function IntKey(x: int): Key { Key(x, 0) }

  function SortInts(s: seq<int>): seq<int> { SortBy(s, IntKey) }

  /** `split_group.index(rank)` */
  function IndexOf(s: seq<int>, x: int): (i: int)
    requires x in s
    ensures 0 <= i < |s| && s[i] == x && x !in s[..i]
  {
    if s[0] == x then 0 else
      assert x in s[1..];
      var i := 1 + IndexOf(s[1..], x);
      assert s[..i] == [s[0]] + s[1..][..i-1];
      i
  }

  ghost predicate Injective(m: map<int, int>) {
    forall a, b :: a in m && b in m && m[a] == m[b] ==> a == b
  }

  /** The inverse map of the parent's ranks, as a lookup. */
  ghost predicate GlobalOf(parent: map<int, int>, rank: int, global: int) {
    global in parent && parent[global] == rank
  }

  /** The parent has a member of this rank; the inverse dictionary has the key. */
  predicate Known(parent: map<int, int>, rank: int) { exists g :: g in parent && parent[g] == rank }

  /** The search through the splits: the sorted split with my rank, or None; earlier splits are checked on the way. */
  function FindSplit(splits: seq<seq<int>>, me: int, worldSize: int): Result<Option<seq<int>>, Error> {
    if splits == [] then Ok(None)
    else if |splits[0]| == 0 then Err(EmptySplit)
    else if |splits[0]| > worldSize then Err(SplitTooLarge)
    else if !NoRepeats(splits[0]) then Err(DuplicateRanks)
    else if me in splits[0] then Ok(Some(SortInts(splits[0])))
    else FindSplit(splits[1..], me, worldSize)
  }

  /** `len(split) == len(set(split))` */
  predicate NoRepeats(s: seq<int>) { |set x | x in s| == |s| }

  /** `{global_rank: i for i, global_rank in enumerate(globals)}` */
  ghost function Enumerated(globals: seq<int>): map<int, int> {
    if globals == [] then map[] else Enumerated(globals[..|globals|-1])[globals[|globals|-1] := |globals| - 1]
  }

  /** What a rank should end up with, given its split in parent ranks. */
  ghost predicate IsView(parent: map<int, int>, me: int, ranks: seq<int>, v: View) {
    && v.ranks == ranks && me in ranks && v.groupRank == IndexOf(ranks, me)
    && |v.globals| == |ranks| && (forall i :: 0 <= i < |ranks| ==> GlobalOf(parent, ranks[i], v.globals[i]))
    && v.mapping == Enumerated(v.globals)
  }

  /** What split_group answers to the rank with this global rank. */
  ghost predicate SplitResult(parent: map<int, int>, globalRank: int, worldSize: int, splits: seq<seq<int>>,
                              r: Result<Option<View>, Error>)
  {
    if globalRank !in parent then r == Err(NotInParent) else
      match FindSplit(splits, parent[globalRank], worldSize)
      case Err(e) => r == Err(e)
      case Ok(None) => r == Ok(None)
      case Ok(Some(ranks)) =>
        if forall i :: 0 <= i < |ranks| ==> Known(parent, ranks[i])
        then r.Ok? && r.value.Some? && IsView(parent, parent[globalRank], ranks, r.value.value)
        else r == Err(UnknownRank)
  }

  /** The rank computation of split_group. */
  method SplitGroup(parent: map<int, int>, globalRank: int, worldSize: int, splits: seq<seq<int>>)
    returns (r: Result<Option<View>, Error>)
    requires Injective(parent)
    ensures SplitResult(parent, globalRank, worldSize, splits, r)
    ensures r == Err(NotInParent) <==> globalRank !in parent
  {
    if globalRank in parent { var k := FindSplitMeaning(splits, parent[globalRank], worldSize); }
    if globalRank !in parent { return Err(NotInParent); }
    var me := parent[globalRank];
    var myGroup: Option<seq<int>> := None;
    var i := 0;
    while i < |splits|
      invariant 0 <= i <= |splits| && myGroup.None?
      invariant FindSplit(splits, me, worldSize) == FindSplit(splits[i..], me, worldSize)
      decreases |splits| - i
    {
      var split := splits[i];
      assert splits[i..][1..] == splits[i+1..];
      if |split| == 0 { return Err(EmptySplit); }
      if |split| > worldSize { return Err(SplitTooLarge); }
      if !NoRepeats(split) { return Err(DuplicateRanks); }
      if me in split {
        myGroup := Some(SortInts(split));
        SortBySorts(split, IntKey);
        assert me in Elements(split) && me in Elements(SortInts(split));
        break;
      }
      i := i + 1;
    }
    if myGroup.None? {
      assert splits[|splits|..] == [];
      return Ok(None);
    }
    r := MakeView(parent, me, myGroup.value);
  }

  /** The part after the search: global ranks, and the map to register. */
  method MakeView(parent: map<int, int>, me: int, ranks: seq<int>) returns (r: Result<Option<View>, Error>)
    requires Injective(parent) && me in ranks
    ensures if forall i :: 0 <= i < |ranks| ==> Known(parent, ranks[i])
            then r.Ok? && r.value.Some? && IsView(parent, me, ranks, r.value.value)
            else r == Err(UnknownRank)
  {
    var globals: seq<int> := [];
    var mapping: map<int, int> := map[];
    for k := 0 to |ranks|
      invariant |globals| == k && mapping == Enumerated(globals)
      invariant forall i :: 0 <= i < k ==> Known(parent, ranks[i]) && GlobalOf(parent, ranks[i], globals[i])
    {
      if !Known(parent, ranks[k]) { return Err(UnknownRank); }
      var g :| g in parent && parent[g] == ranks[k];
      var next := globals + [g];
      assert next[..|next|-1] == globals;
      globals, mapping := next, mapping[g := k];
    }
    r := Ok(Some(View(ranks, IndexOf(ranks, me), globals, mapping)));
  }

  // ---------------------------------------------------------------- agreement

  ghost predicate Rising(s: seq<int>) { forall i, j :: 0 <= i < j < |s| ==> s[i] < s[j] }

  lemma SortIntsRises(s: seq<int>)
    requires Distinct(s)
    ensures Rising(SortInts(s)) && Elements(SortInts(s)) == Elements(s)
  {
    var t := SortInts(s);
    SortBySorts(s, IntKey);
    SortByDistinct(s, IntKey);
    forall i, j | 0 <= i < j < |t| ensures t[i] < t[j] {
      assert Leq(IntKey(t[i]), IntKey(t[j])) && t[i] != t[j];
    }
  }

  /** A set of ranks has only one rising list. */
  lemma {:induction false} RisingIsUnique(a: seq<int>, b: seq<int>)
    requires Rising(a) && Rising(b) && Elements(a) == Elements(b)
    ensures a == b
  {
    assert forall x :: x in a <==> x in Elements(a);
    assert forall x :: x in b <==> x in Elements(b);
    assert |a| > 0 ==> a[0] in a;
    assert |b| > 0 ==> b[0] in b;
    if a != [] {
      assert a[0] in b && b[0] in a;
      var i :| 0 <= i < |b| && b[i] == a[0];
      var j :| 0 <= j < |a| && a[j] == b[0];
      assert a[0] == b[0];
      RisingTail(a);
      RisingTail(b);
      RisingIsUnique(a[1..], b[1..]);
      assert a == [a[0]] + a[1..] && b == [b[0]] + b[1..];
    }
  }

  lemma RisingTail(a: seq<int>)
    requires Rising(a) && a != []
    ensures Rising(a[1..]) && Elements(a[1..]) == Elements(a) - {a[0]}
  {
    assert forall x :: x in a <==> x == a[0] || x in a[1..];
    assert a[0] !in a[1..];
  }

  lemma {:induction false} NoRepeatsIsDistinct(s: seq<int>)
    ensures NoRepeats(s) <==> Distinct(s)
    ensures |set x | x in s| <= |s|
  {
    if s != [] {
      var t, x := s[..|s|-1], s[|s|-1];
      NoRepeatsIsDistinct(t);
      assert s == t + [x];
      var a, b := set y | y in t, set y | y in s;
      assert b == a + {x};
      if x in t {
        assert b == a;
        var i :| 0 <= i < |t| && t[i] == x;
        assert s[i] == s[|s|-1];
      }
    } else {
      assert (set x | x in s) == {};
    }
  }

  /** Splits that pass every check and share no rank. */
  ghost predicate Proper(splits: seq<seq<int>>, worldSize: int) {
    && (forall k :: 0 <= k < |splits| ==> 0 < |splits[k]| <= worldSize && Distinct(splits[k]))
    && (forall j, k :: 0 <= j < k < |splits| ==> Elements(splits[j]) !! Elements(splits[k]))
  }

  /** The same splits, each perhaps listed in another order. */
  ghost predicate SameSplits(a: seq<seq<int>>, b: seq<seq<int>>) {
    |a| == |b| && forall k :: 0 <= k < |a| ==> Elements(a[k]) == Elements(b[k])
  }

  lemma {:induction false} FindsOwnSplit(splits: seq<seq<int>>, me: int, worldSize: int, k: nat)
    requires Proper(splits, worldSize) && k < |splits| && me in splits[k]
    ensures FindSplit(splits, me, worldSize) == Ok(Some(SortInts(splits[k])))
  {
    NoRepeatsIsDistinct(splits[0]);
    if k > 0 {
      assert me in Elements(splits[k]);
      assert me !in Elements(splits[0]);
      assert splits[1..][k-1] == splits[k];
      forall i, j | 0 <= i < j < |splits[1..]| ensures Elements(splits[1..][i]) !! Elements(splits[1..][j]) {
        assert splits[1..][i] == splits[i+1] && splits[1..][j] == splits[j+1];
      }
      FindsOwnSplit(splits[1..], me, worldSize, k - 1);
    }
  }

  /** The splits before `k` pass the checks and are not mine. */
  ghost predicate PassedBy(splits: seq<seq<int>>, me: int, worldSize: int, k: nat)
    requires k <= |splits|
  {
    forall j :: 0 <= j < k ==> 0 < |splits[j]| <= worldSize && Distinct(splits[j]) && me !in splits[j]
  }

  /**
   The search ends at the first split that is mine or fails a check: an empty split, one larger than
   the world, or one with a rank twice, told apart in that order; its answer is the sorted split.
   Without such a split there is no group, and only then.
   */
  lemma {:induction false} FindSplitMeaning(splits: seq<seq<int>>, me: int, worldSize: int) returns (k: nat)
    ensures k <= |splits| && PassedBy(splits, me, worldSize, k)
    ensures match FindSplit(splits, me, worldSize)
      case Ok(None) => k == |splits|
      case Ok(Some(r)) =>
        && k < |splits| && me in splits[k] && 0 < |splits[k]| <= worldSize && Distinct(splits[k])
        && Rising(r) && Elements(r) == Elements(splits[k])
      case Err(EmptySplit) => k < |splits| && splits[k] == []
      case Err(SplitTooLarge) => k < |splits| && |splits[k]| > worldSize && splits[k] != []
      case Err(DuplicateRanks) => k < |splits| && 0 < |splits[k]| <= worldSize && !Distinct(splits[k])
      case Err(_) => false
  {
    k := 0;
    if splits != [] {
      NoRepeatsIsDistinct(splits[0]);
      if 0 < |splits[0]| <= worldSize && NoRepeats(splits[0]) {
        if me in splits[0] {
          SortIntsRises(splits[0]);
        } else {
          var m := FindSplitMeaning(splits[1..], me, worldSize);
          k := m + 1;
          forall j | 0 <= j < k ensures 0 < |splits[j]| <= worldSize && Distinct(splits[j]) && me !in splits[j] {
            if j > 0 { assert splits[j] == splits[1..][j-1]; }
          }
        }
      }
    }
  }

  lemma {:induction false} EnumeratedAt(globals: seq<int>, i: nat)
    requires Distinct(globals) && i < |globals|
    ensures globals[i] in Enumerated(globals) && Enumerated(globals)[globals[i]] == i
  {
    if i < |globals| - 1 { EnumeratedAt(globals[..|globals|-1], i); }
  }

  lemma GlobalsDistinct(parent: map<int, int>, me: int, ranks: seq<int>, v: View)
    requires Injective(parent) && Rising(ranks) && IsView(parent, me, ranks, v)
    ensures Distinct(v.globals)
  {
    forall i, j | 0 <= i < j < |v.globals| ensures v.globals[i] != v.globals[j] {
      assert GlobalOf(parent, ranks[i], v.globals[i]) && GlobalOf(parent, ranks[j], v.globals[j]);
    }
  }

  /** A rank's registered map sends its own global rank to its group rank. */
  lemma OwnRankRegistered(parent: map<int, int>, g: int, ranks: seq<int>, v: View)
    requires Injective(parent) && Rising(ranks) && g in parent && IsView(parent, parent[g], ranks, v)
    ensures 0 <= v.groupRank < |ranks| && v.globals[v.groupRank] == g
    ensures g in v.mapping && v.mapping[g] == v.groupRank
  {
    GlobalsDistinct(parent, parent[g], ranks, v);
    assert GlobalOf(parent, ranks[v.groupRank], v.globals[v.groupRank]);
    EnumeratedAt(v.globals, v.groupRank);
  }

  /**
   Members of one split agree, although each computes alone and may list the split in another
   order: same ranks, same global ranks, same registered map; their group ranks follow the
   order of their parent ranks, and are equal only for the same member.
   */
  lemma MembersAgree(parent: map<int, int>, worldSize: int, a: seq<seq<int>>, b: seq<seq<int>>, k: nat,
                     g: int, h: int, v: View, w: View)
    requires Injective(parent) && Proper(a, worldSize) && Proper(b, worldSize) && SameSplits(a, b) && k < |a|
    requires g in parent && h in parent && parent[g] in a[k] && parent[h] in b[k]
    requires IsView(parent, parent[g], SortInts(a[k]), v) && IsView(parent, parent[h], SortInts(b[k]), w)
    ensures v.ranks == w.ranks && v.globals == w.globals && v.mapping == w.mapping
    ensures v.groupRank < w.groupRank <==> parent[g] < parent[h]
    ensures v.groupRank == w.groupRank <==> g == h
  {
    SortIntsRises(a[k]);
    SortIntsRises(b[k]);
    RisingIsUnique(SortInts(a[k]), SortInts(b[k]));
    var ranks := SortInts(a[k]);
    forall i | 0 <= i < |ranks| ensures v.globals[i] == w.globals[i] {
      assert GlobalOf(parent, ranks[i], v.globals[i]) && GlobalOf(parent, ranks[i], w.globals[i]);
    }
    assert v.globals == w.globals;
    OwnRankRegistered(parent, g, ranks, v);
    OwnRankRegistered(parent, h, ranks, w);
  }

  /**
   The same for two calls of split_group: if two ranks stand in one split, then either the parent
   knows all of that split and both calls return, with views that agree, or both calls fail.
   */
  lemma CallsAgree(parent: map<int, int>, worldSize: int, a: seq<seq<int>>, b: seq<seq<int>>, k: nat,
                   g: int, h: int, r: Result<Option<View>, Error>, q: Result<Option<View>, Error>)
    requires Injective(parent) && Proper(a, worldSize) && Proper(b, worldSize) && SameSplits(a, b) && k < |a|
    requires g in parent && h in parent && parent[g] in a[k] && parent[h] in b[k]
    requires SplitResult(parent, g, worldSize, a, r) && SplitResult(parent, h, worldSize, b, q)
    ensures if forall x :: x in a[k] ==> Known(parent, x) then
              && r.Ok? && r.value.Some? && q.Ok? && q.value.Some?
              && var v, w := r.value.value, q.value.value;
                && v.ranks == w.ranks == SortInts(a[k]) && v.globals == w.globals && v.mapping == w.mapping
                && (v.groupRank < w.groupRank <==> parent[g] < parent[h])
                && g in v.mapping && v.mapping[g] == v.groupRank && h in w.mapping && w.mapping[h] == w.groupRank
            else r == q == Err(UnknownRank)
  {
    FindsOwnSplit(a, parent[g], worldSize, k);
    FindsOwnSplit(b, parent[h], worldSize, k);
    SortIntsRises(a[k]);
    SortIntsRises(b[k]);
    RisingIsUnique(SortInts(a[k]), SortInts(b[k]));
    var ranks := SortInts(a[k]);
    assert forall x :: x in a[k] <==> x in Elements(ranks);
    assert forall x :: x in ranks <==> x in Elements(ranks);
    if forall i :: 0 <= i < |ranks| ==> Known(parent, ranks[i]) {
      MembersAgree(parent, worldSize, a, b, k, g, h, r.value.value, q.value.value);
      OwnRankRegistered(parent, g, ranks, r.value.value);
      OwnRankRegistered(parent, h, ranks, q.value.value);
    } else {
      var i :| 0 <= i < |ranks| && !Known(parent, ranks[i]);
      assert ranks[i] in a[k];
    }
  }

  /** Every group rank below the size of the split belongs to one of its members. */
  lemma EveryRankTaken(parent: map<int, int>, worldSize: int, a: seq<seq<int>>, k: nat, i: nat) returns (g: int)
    requires Injective(parent) && Proper(a, worldSize) && k < |a| && i < |a[k]|
    requires forall x :: x in a[k] ==> Known(parent, x)
    ensures g in parent && parent[g] in a[k] && i < |SortInts(a[k])| && parent[g] == SortInts(a[k])[i]
    ensures parent[g] in SortInts(a[k]) && IndexOf(SortInts(a[k]), parent[g]) == i
  {
    var ranks := SortInts(a[k]);
    SortIntsRises(a[k]);
    SortByPermutes(a[k], IntKey);
    assert ranks[i] in Elements(ranks) && ranks[i] in a[k];
    g :| g in parent && parent[g] == ranks[i];
    assert parent[g] in ranks;
  }
}
