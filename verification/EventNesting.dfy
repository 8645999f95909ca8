/**
 EventList._populate_cpu_children: one sweep with a stack finds, for every event of a
 thread, the innermost enclosing event.
 */
module EventNesting {
  import opened Wrappers
  import opened Sums
  import opened Sorting
  import opened Grouping
  import opened EventForest
  import opened EventTree

  /** `p` can be the parent of a later event `c`: the negation of the sweep's pop test. */
  predicate Fits(c: FunctionEvent, p: FunctionEvent) {
    c.start < p.end && c.end <= p.end
  }

  /** The order of the sweep: by start, longer events first. */
  function SweepKey(e: FunctionEvent): Key { Key(e.start, -e.end) }

  /** The last of the first `n` events that fits around `e`, or -1. */
  ghost function LastFit(es: seq<FunctionEvent>, e: FunctionEvent, n: nat): (j: int)
    requires n <= |es|
    ensures -1 <= j < n
  {
    if n == 0 then -1 else if Fits(e, es[n-1]) then n - 1 else LastFit(es, e, n - 1)
  }

  /** The parent that event `i` of the sweep order must get, or -1. */
  ghost function ParentAt(es: seq<FunctionEvent>, i: nat): int
    requires i < |es|
  {
    LastFit(es, es[i], i)
  }

  ghost function ParentEvent(es: seq<FunctionEvent>, i: nat): FunctionEvent?
    requires i < |es|
  {
    if ParentAt(es, i) < 0 then null else es[ParentAt(es, i)]
  }

  /** The events among the first `n` whose parent is event `j`, in sweep order. */
  ghost function KidsAt(es: seq<FunctionEvent>, j: nat, n: nat): seq<FunctionEvent>
    requires n <= |es|
  {
    if n == 0 then [] else KidsAt(es, j, n - 1) + if ParentAt(es, n - 1) == j then [es[n-1]] else []
  }

  lemma {:induction false} LastFitMeaning(es: seq<FunctionEvent>, e: FunctionEvent, n: nat, j: int)
    requires n <= |es|
    ensures LastFit(es, e, n) == j <==>
      && -1 <= j < n
      && (j >= 0 ==> Fits(e, es[j]))
      && (forall k :: j < k < n && 0 <= k ==> !Fits(e, es[k]))
  {
    if n > 0 {
      if Fits(e, es[n-1]) {
        assert j < n - 1 ==> !(forall k :: j < k < n && 0 <= k ==> !Fits(e, es[k]));
      } else {
        LastFitMeaning(es, e, n - 1, j);
        assert j == n - 1 ==> !Fits(e, es[j]);
      }
    }
  }

  /** The links of a swept thread: parent and children of every event. */
  ghost predicate NestedUpTo(es: seq<FunctionEvent>, n: nat)
    requires n <= |es|
    reads es
  {
    && (forall i: nat {:trigger ParentEvent(es, i)} :: i < n ==> es[i].cpuParent == ParentEvent(es, i))
    && (forall i :: n <= i < |es| ==> es[i].cpuParent == null)
    && (forall j: nat {:trigger KidsAt(es, j, n)} :: j < |es| ==> es[j].cpuChildren == KidsAt(es, j, n))
  }

  /** The stack, as positions in the sweep order: a chain of events, each inside the one below. */
  ghost predicate Chain(es: seq<FunctionEvent>, pos: seq<int>, n: nat)
    requires n <= |es|
  {
    && (forall k :: 0 <= k < |pos| ==> 0 <= pos[k] < n)
    && (forall a, b :: 0 <= a < b < |pos| ==> pos[a] < pos[b] && Fits(es[pos[b]], es[pos[a]]))
  }

  /** Why an event that left the stack can no longer be the innermost one around `e`. */
  ghost predicate Outdone(es: seq<FunctionEvent>, pos: seq<int>, e: FunctionEvent, j: nat)
    requires j < |es|
  {
    || es[j].end <= e.start
    || es[j].end < e.end
    || exists k :: 0 <= k < |pos| && j < pos[k] < |es| && es[j].end < es[pos[k]].end
  }

  /** Before event `i`: every earlier event is on the stack or outdone. */
  ghost predicate Swept(es: seq<FunctionEvent>, pos: seq<int>, i: nat)
    requires i < |es|
  {
    forall j: nat {:trigger Outdone(es, pos, es[i], j)} :: j < i && j !in pos ==> Outdone(es, pos, es[i], j)
  }

  lemma KidsNone(es: seq<FunctionEvent>, n: nat, j: nat)
    requires n <= j < |es|
    ensures KidsAt(es, j, n) == []
  {
    if n > 0 {
      LastFitMeaning(es, es[n-1], n - 1, ParentAt(es, n - 1));
      KidsNone(es, n - 1, j);
    }
  }

  lemma TopIsParent(es: seq<FunctionEvent>, pos: seq<int>, i: nat)
    requires i < |es| && Chain(es, pos, i)
    requires Swept(es, pos, i)
    requires pos != [] ==> Fits(es[i], es[pos[|pos|-1]])
    ensures ParentAt(es, i) == if pos == [] then -1 else pos[|pos|-1]
  {
    var top := if pos == [] then -1 else pos[|pos|-1];
    forall k | top < k < i && 0 <= k ensures !Fits(es[i], es[k]) {
      assert k !in pos;
      assert Outdone(es, pos, es[i], k);
    }
    LastFitMeaning(es, es[i], i, top);
  }

  lemma PopKeeps(es: seq<FunctionEvent>, pos: seq<int>, i: nat)
    requires i < |es| && Chain(es, pos, i) && pos != []
    requires !Fits(es[i], es[pos[|pos|-1]])
    requires Swept(es, pos, i)
    ensures var rest := pos[..|pos|-1];
      Chain(es, rest, i) && Swept(es, rest, i)
  {
    var rest, top := pos[..|pos|-1], pos[|pos|-1];
    assert pos == rest + [top];
    forall j: nat | j < i && j !in rest ensures Outdone(es, rest, es[i], j) {
      assert j != top ==> Outdone(es, pos, es[i], j);
      if j != top && es[i].start < es[j].end && es[i].end <= es[j].end {
        var k :| 0 <= k < |pos| && j < pos[k] < |es| && es[j].end < es[pos[k]].end;
        assert k < |rest| && rest[k] == pos[k];
      }
    }
  }

  lemma PushKeeps(es: seq<FunctionEvent>, pos: seq<int>, i: nat)
    requires i < |es| && Chain(es, pos, i) && Sorted(es, SweepKey)
    requires Swept(es, pos, i)
    requires pos != [] ==> Fits(es[i], es[pos[|pos|-1]])
    ensures Chain(es, pos + [i], i + 1)
    ensures i + 1 < |es| ==> Swept(es, pos + [i], i + 1)
  {
    var up := pos + [i];
    forall a | 0 <= a < |pos| ensures Fits(es[i], es[pos[a]]) {
      if a < |pos| - 1 { assert Fits(es[pos[|pos|-1]], es[pos[a]]); }
    }
    if i + 1 < |es| {
      assert Leq(SweepKey(es[i]), SweepKey(es[i+1]));
      forall j: nat | j < i + 1 && j !in up ensures Outdone(es, up, es[i+1], j) {
        assert j !in pos && j != i;
        assert Outdone(es, pos, es[i], j);
        if es[i].start < es[j].end {
          if es[j].end < es[i].end {
            assert up[|pos|] == i;
          } else {
            var k :| 0 <= k < |pos| && j < pos[k] < |es| && es[j].end < es[pos[k]].end;
            assert up[k] == pos[k];
          }
        }
      }
    }
  }

  lemma NoParent(es: seq<FunctionEvent>, i: nat)
    requires i < |es| && NestedUpTo(es, i) && ParentAt(es, i) == -1
    ensures NestedUpTo(es, i + 1)
  {
    forall j: nat | j < |es| ensures es[j].cpuChildren == KidsAt(es, j, i + 1) {
      assert KidsAt(es, j, i + 1) == KidsAt(es, j, i);
    }
  }

  /** `parent.append_cpu_child(event)` and `event.set_cpu_parent(parent)`. */
  method AddChild(parent: FunctionEvent, event: FunctionEvent, ghost es: seq<FunctionEvent>, ghost p: nat, ghost i: nat)
    requires p < i < |es| && es[p] == parent && es[i] == event && Distinct(es)
    requires NestedUpTo(es, i) && ParentAt(es, i) == p
    modifies parent`cpuChildren, event`cpuParent
    ensures old(event.cpuParent) == null && event.cpuParent == parent && NestedUpTo(es, i + 1)
  {
    assert forall j :: 0 <= j < |es| ==> es[j].cpuChildren == KidsAt(es, j, i);
    parent.cpuChildren := parent.cpuChildren + [event];
    assert event.cpuParent == null;
    event.cpuParent := parent;
    forall j: nat | j < |es| ensures es[j].cpuChildren == KidsAt(es, j, i + 1) {
      assert KidsAt(es, j, i + 1) == KidsAt(es, j, i) + if p == j then [es[i]] else [];
      if j != p { assert es[j] != es[p]; }
    }
    forall j: nat | j < i + 1 ensures es[j].cpuParent == ParentEvent(es, j) {
      if j < i { assert es[j] != es[i]; }
    }
  }

  /** `current` is the stack that the positions stand for. */
  ghost predicate At(es: seq<FunctionEvent>, pos: seq<int>, current: seq<FunctionEvent>) {
    |current| == |pos| && forall k :: 0 <= k < |pos| ==> 0 <= pos[k] < |es| && current[k] == es[pos[k]]
  }

  lemma AtPush(es: seq<FunctionEvent>, pos: seq<int>, current: seq<FunctionEvent>, i: nat)
    requires At(es, pos, current) && i < |es|
    ensures At(es, pos + [i], current + [es[i]])
  {
  }

  /** The sweep over the events of one thread, already in sweep order. */
  method NestThread(es: seq<FunctionEvent>)
    requires Distinct(es) && Sorted(es, SweepKey)
    requires forall i :: 0 <= i < |es| ==> es[i].Unlinked()
    modifies Elements(es)`cpuParent, Elements(es)`cpuChildren
    ensures NestedUpTo(es, |es|)
  {
    var current: seq<FunctionEvent> := [];
    ghost var pos: seq<int> := [];
    for i := 0 to |es|
      invariant Chain(es, pos, i) && At(es, pos, current)
      invariant i < |es| ==> Swept(es, pos, i)
      invariant NestedUpTo(es, i)
    {
      var event := es[i];
      while |current| > 0
        invariant Chain(es, pos, i) && At(es, pos, current)
        invariant Swept(es, pos, i)
        invariant NestedUpTo(es, i)
        decreases |current|
      {
        var parent := current[|current|-1];
        if event.start >= parent.end || event.end > parent.end {
          PopKeeps(es, pos, i);
          current, pos := current[..|current|-1], pos[..|pos|-1];
        } else {
          TopIsParent(es, pos, i);
          AddChild(parent, event, es, pos[|pos|-1], i);
          break;
        }
      }
      if |current| == 0 {
        TopIsParent(es, pos, i);
        NoParent(es, i);
      }
      PushKeeps(es, pos, i);
      AtPush(es, pos, current, i);
      current, pos := current + [event], pos + [i];
    }
  }

  // ---------------------------------------------------------------- grouping by thread

  function ThreadKey(threads: map<FunctionEvent, int>): FunctionEvent -> Key {
    (e: FunctionEvent) => Key(if e in threads then threads[e] else 0, 0)
  }

  function GroupKey(threads: map<FunctionEvent, int>): FunctionEvent -> Key {
    (e: FunctionEvent) => Key(if e in threads then threads[e] else 0, e.nodeId)
  }

  function SyncEvents(es: seq<FunctionEvent>): seq<FunctionEvent> {
    if es == [] then [] else (if es[0].Sync() then [es[0]] else []) + SyncEvents(es[1..])
  }

  lemma {:induction false} SyncElements(es: seq<FunctionEvent>)
    ensures forall e :: e in SyncEvents(es) <==> e in es && e.Sync()
    ensures Distinct(es) ==> Distinct(SyncEvents(es))
  {
    if es != [] { SyncElements(es[1..]); }
  }

  /** The synchronous CPU events, sorted by thread. */
  function ByThread(es: seq<FunctionEvent>, threads: map<FunctionEvent, int>): seq<FunctionEvent> {
    SortBy<FunctionEvent>(SyncEvents(es), ThreadKey(threads))
  }

  function ThreadRuns(es: seq<FunctionEvent>, threads: map<FunctionEvent, int>): (gs: seq<seq<FunctionEvent>>)
    ensures forall i :: 0 <= i < |gs| ==> gs[i] != []
  {
    Runs<FunctionEvent>(ByThread(es, threads), GroupKey(threads))
  }

  /** The thread groups of a list, each in sweep order. */
  function Groups(es: seq<FunctionEvent>, threads: map<FunctionEvent, int>): seq<seq<FunctionEvent>> {
    var gs := ThreadRuns(es, threads);
    seq(|gs|, i requires 0 <= i < |gs| => SortBy(gs[i], SweepKey))
  }

  /** Group `i` is the sorted form of a run, so it has the run's elements. */
  lemma GroupElements(es: seq<FunctionEvent>, threads: map<FunctionEvent, int>, i: nat)
    requires Distinct(es) && i < |Groups(es, threads)|
    ensures var runs := ThreadRuns(es, threads);
      && i < |runs| && Elements(Groups(es, threads)[i]) == Elements(runs[i])
    ensures Sorted(Groups(es, threads)[i], SweepKey)
  {
    var runs := ThreadRuns(es, threads);
    SortBySorts(runs[i], SweepKey);
  }

  lemma SyncByThread(es: seq<FunctionEvent>, threads: map<FunctionEvent, int>)
    ensures var s := ByThread(es, threads); forall i :: 0 <= i < |s| ==> s[i] in es && s[i].Sync()
    ensures forall e :: e in es && e.Sync() ==> e in ByThread(es, threads)
    ensures Distinct(es) ==> Distinct(ByThread(es, threads))
  {
    var sync: seq<FunctionEvent> := SyncEvents(es);
    SyncElements(es);
    SortBySorts<FunctionEvent>(sync, ThreadKey(threads));
    if Distinct(es) { SortByDistinct<FunctionEvent>(sync, ThreadKey(threads)); }
    var s := ByThread(es, threads);
    forall i | 0 <= i < |s| ensures s[i] in es && s[i].Sync() {
      assert s[i] in Elements(s) && s[i] in Elements(sync) && s[i] in sync;
    }
    forall e | e in es && e.Sync() ensures e in s {
      assert e in sync && e in Elements(sync) && e in Elements(s);
    }
  }

  lemma RunsPartition(es: seq<FunctionEvent>, threads: map<FunctionEvent, int>)
    requires Distinct(es)
    ensures var runs := ThreadRuns(es, threads);
      && Disjoint(runs) && (forall i :: 0 <= i < |runs| ==> Distinct(runs[i]))
      && (forall i, e: FunctionEvent :: 0 <= i < |runs| && e in runs[i] ==> e in es && e.Sync())
      && (forall e :: e in es && e.Sync() ==> exists i :: 0 <= i < |runs| && e in runs[i])
  {
    var byThread := ByThread(es, threads);
    SyncByThread(es, threads);
    var runs := ThreadRuns(es, threads);
    RunsConcat<FunctionEvent>(byThread, GroupKey(threads));
    PiecesOfDistinct(runs);
    ConcatElements(runs);
    forall i, e: FunctionEvent | 0 <= i < |runs| && e in runs[i] ensures e in es && e.Sync() {
      assert e in Elements(runs[i]) && e in Elements(byThread) && e in byThread;
      var j :| 0 <= j < |byThread| && byThread[j] == e;
    }
  }

  /** The groups hold every synchronous CPU event exactly once, each group in sweep order. */
  ghost predicate Partition(gs: seq<seq<FunctionEvent>>, es: seq<FunctionEvent>) {
    && Disjoint(gs)
    && (forall i :: 0 <= i < |gs| ==> Distinct(gs[i]) && Sorted(gs[i], SweepKey))
    && (forall i, e: FunctionEvent :: 0 <= i < |gs| && e in gs[i] ==> e in es && e.Sync())
    && (forall e :: e in es && e.Sync() ==> exists i :: 0 <= i < |gs| && e in gs[i])
  }

  lemma GroupsPartition(es: seq<FunctionEvent>, threads: map<FunctionEvent, int>)
    requires Distinct(es)
    ensures Partition(Groups(es, threads), es)
  {
    var runs := ThreadRuns(es, threads);
    RunsPartition(es, threads);
    var gs := Groups(es, threads);
    forall i | 0 <= i < |gs|
      ensures Distinct(gs[i]) && Sorted(gs[i], SweepKey) && Elements(gs[i]) == Elements(runs[i])
    {
      GroupElements(es, threads, i);
      SortByDistinct(runs[i], SweepKey);
    }
    forall i, e: FunctionEvent | 0 <= i < |gs| && e in gs[i] ensures e in es && e.Sync() {
      assert e in Elements(gs[i]);
      assert e in runs[i];
    }
    forall e | e in es && e.Sync() ensures exists i :: 0 <= i < |gs| && e in gs[i] {
      var i :| 0 <= i < |runs| && e in runs[i];
      assert e in Elements(gs[i]);
    }
  }

  function ThreadsOf(es: seq<FunctionEvent>): map<FunctionEvent, int>
    reads es
  {
    map e | e in es :: e.thread
  }

  ghost predicate AllUnlinked(s: set<FunctionEvent>)
    reads s
  {
    forall e :: e in s ==> e.Unlinked()
  }

  twostate lemma Untouched(es: seq<FunctionEvent>)
    requires forall e :: e in es ==> unchanged(e)
    ensures old(NestedUpTo(es, |es|)) ==> NestedUpTo(es, |es|)
    ensures old(AllUnlinked(Elements(es))) ==> AllUnlinked(Elements(es))
  {
    if old(NestedUpTo(es, |es|)) {
      forall i: nat | i < |es|
        ensures es[i].cpuParent == ParentEvent(es, i) && es[i].cpuChildren == KidsAt(es, i, |es|)
      {
        assert es[i] in es;
        assert old(es[i].cpuParent) == ParentEvent(es, i) && old(es[i].cpuChildren) == KidsAt(es, i, |es|);
      }
    }
  }

  /** Sweeps group `i`; the other groups are not touched. */
  method NestGroup(gs: seq<seq<FunctionEvent>>, i: nat)
    requires i < |gs| && Disjoint(gs)
    requires Distinct(gs[i]) && Sorted(gs[i], SweepKey) && AllUnlinked(Elements(gs[i]))
    modifies Elements(gs[i])`cpuParent, Elements(gs[i])`cpuChildren
    ensures NestedUpTo(gs[i], |gs[i]|)
    ensures forall k :: 0 <= k < |gs| && k != i && old(NestedUpTo(gs[k], |gs[k]|)) ==> NestedUpTo(gs[k], |gs[k]|)
    ensures forall k :: 0 <= k < |gs| && k != i && old(AllUnlinked(Elements(gs[k]))) ==> AllUnlinked(Elements(gs[k]))
  {
    NestThread(gs[i]);
    forall k | 0 <= k < |gs| && k != i
      ensures old(NestedUpTo(gs[k], |gs[k]|)) ==> NestedUpTo(gs[k], |gs[k]|)
      ensures old(AllUnlinked(Elements(gs[k]))) ==> AllUnlinked(Elements(gs[k]))
    {
      assert Elements(gs[k]) !! Elements(gs[i]);
      assert forall e :: e in gs[k] ==> e in Elements(gs[k]);
      Untouched(gs[k]);
    }
  }

  /** The links that the sweep of every group leaves behind. */
  ghost predicate Nested(gs: seq<seq<FunctionEvent>>, es: seq<FunctionEvent>)
    requires Partition(gs, es)
    reads es
  {
    && (forall i :: 0 <= i < |gs| ==>
          assert forall k :: 0 <= k < |gs[i]| ==> gs[i][k] in es;
          NestedUpTo(gs[i], |gs[i]|))
    && (forall e :: e in es && !e.Sync() ==> e.Unlinked())
  }

  /** EventList._populate_cpu_children. */
  method PopulateCpuChildren(list: EventList)
    requires Distinct(list.events) && AllUnlinked(Elements(list.events))
    modifies Elements(list.events)`cpuParent, Elements(list.events)`cpuChildren
    ensures var gs := Groups(list.events, old(ThreadsOf(list.events)));
      Partition(gs, list.events) && Nested(gs, list.events)
  {
    var threads := ThreadsOf(list.events);
    var gs := Groups(list.events, threads);
    GroupsPartition(list.events, threads);
    for i := 0 to |gs|
      invariant forall k :: 0 <= k < i ==> NestedUpTo(gs[k], |gs[k]|)
      invariant forall k :: i <= k < |gs| ==> AllUnlinked(Elements(gs[k]))
      invariant forall e :: e in list.events && !e.Sync() ==> e.Unlinked()
    {
      NestGroup(gs, i);
    }
  }

  /** The same with what it leaves alone: kernels and threads. */
  method Populate(list: EventList)
    requires Distinct(list.events) && AllUnlinked(Elements(list.events))
    modifies Elements(list.events)`cpuParent, Elements(list.events)`cpuChildren
    ensures var gs := Groups(list.events, ThreadsOf(list.events));
      Partition(gs, list.events) && Nested(gs, list.events)
    ensures HoldingsOf(list.events) == old(HoldingsOf(list.events))
  {
    ghost var threads := ThreadsOf(list.events);
    PopulateCpuChildren(list);
    assert ThreadsOf(list.events) == threads;
  }

  // ---------------------------------------------------------------- the forest of all groups

  lemma {:induction false} KidsIff(es: seq<FunctionEvent>, j: nat, n: nat, i: nat)
    requires n <= |es| && i < |es| && Distinct(es)
    ensures es[i] in KidsAt(es, j, n) <==> i < n && ParentAt(es, i) == j
  {
    if n > 0 {
      KidsIff(es, j, n - 1, i);
      assert es[n-1] == es[i] <==> i == n - 1;
    }
  }

  lemma {:induction false} KidsDistinct(es: seq<FunctionEvent>, j: nat, n: nat)
    requires n <= |es| && Distinct(es)
    ensures Distinct(KidsAt(es, j, n))
    ensures forall k :: 0 <= k < |KidsAt(es, j, n)| ==> KidsAt(es, j, n)[k] in es[..n]
  {
    if n > 0 {
      KidsDistinct(es, j, n - 1);
      KidsIff(es, j, n - 1, n - 1);
      assert es[..n] == es[..n-1] + [es[n-1]];
    }
  }

  /** The place of an event in its group. */
  ghost function Place(gs: seq<seq<FunctionEvent>>): FunctionEvent -> int {
    e => if exists g, i :: 0 <= g < |gs| && 0 <= i < |gs[g]| && gs[g][i] == e
         then var g, i :| 0 <= g < |gs| && 0 <= i < |gs[g]| && gs[g][i] == e; i
         else 0
  }

  lemma PlaceAt(gs: seq<seq<FunctionEvent>>, g: nat, i: nat)
    requires g < |gs| && i < |gs[g]| && Disjoint(gs) && Distinct(gs[g])
    ensures Place(gs)(gs[g][i]) == i
  {
    var e := gs[g][i];
    assert forall h, j :: 0 <= h < |gs| && 0 <= j < |gs[h]| && gs[h][j] == e ==> h == g && j == i by {
      forall h, j | 0 <= h < |gs| && 0 <= j < |gs[h]| && gs[h][j] == e ensures h == g && j == i {
        assert e in Elements(gs[h]) && e in Elements(gs[g]);
      }
    }
  }

  /** Both are synchronous CPU events; `p` starts no later, ends no earlier, and outlasts the start of `x`. */
  predicate Around(p: FunctionEvent, x: FunctionEvent) {
    p.Sync() && x.Sync() && p.start <= x.start < p.end && x.end <= p.end
  }

  ghost predicate Covering(f: Forest<FunctionEvent>) {
    forall x :: x in f && f[x].parent.Some? ==> Around(f[x].parent.value, x)
  }

  lemma GroupLinkOk(gs: seq<seq<FunctionEvent>>, es: seq<FunctionEvent>, g: nat, i: nat)
    requires Partition(gs, es) && Nested(gs, es) && g < |gs| && i < |gs[g]|
    ensures var f, x := Snapshot(Elements(es)), gs[g][i];
      && x in f && LinkOk(f, x)
      && (f[x].parent.Some? ==>
            var p := f[x].parent.value;
            Place(gs)(p) < Place(gs)(x) && Around(p, x))
  {
    var f, es', x := Snapshot(Elements(es)), gs[g], gs[g][i];
    assert NestedUpTo(es', |es'|);
    assert forall k :: 0 <= k < |es'| ==> es'[k] in es;
    var p := ParentAt(es', i);
    assert x.cpuParent == ParentEvent(es', i) && x.cpuChildren == KidsAt(es', i, |es'|);
    KidsDistinct(es', i, |es'|);
    forall c | c in x.cpuChildren ensures c in f && f[c].parent == Some(x) {
      var k: nat :| k < |es'| && es'[k] == c;
      KidsIff(es', i, |es'|, k);
      assert c.cpuParent == ParentEvent(es', k);
    }
    if p >= 0 {
      LastFitMeaning(es', x, i, p);
      assert es'[p].cpuChildren == KidsAt(es', p, |es'|);
      KidsIff(es', p, |es'|, i);
      PlaceAt(gs, g, i);
      PlaceAt(gs, g, p);
      assert Leq(SweepKey(es'[p]), SweepKey(es'[i]));
    }
  }

  /** Nesting builds a sound, acyclic forest in which parents cover their children. */
  lemma NestingBuildsForest(gs: seq<seq<FunctionEvent>>, es: seq<FunctionEvent>)
    requires Partition(gs, es) && Nested(gs, es)
    ensures WellLinked(Snapshot(Elements(es))) && Ranked(Snapshot(Elements(es)), Place(gs))
    ensures Covering(Snapshot(Elements(es)))
  {
    var f := Snapshot(Elements(es));
    forall x | x in f
      ensures LinkOk(f, x)
      ensures f[x].parent.Some? ==>
        && Place(gs)(f[x].parent.value) < Place(gs)(x)
        && Around(f[x].parent.value, x)
    {
      if x.Sync() {
        var g :| 0 <= g < |gs| && x in gs[g];
        var i :| 0 <= i < |gs[g]| && gs[g][i] == x;
        GroupLinkOk(gs, es, g, i);
      } else {
        assert x.Unlinked();
      }
    }
  }

  // ---------------------------------------------------------------- what the whole pass means

  /** The synchronous CPU events of one thread and node, in sweep order. */
  function ClassOrder(es: seq<FunctionEvent>, threads: map<FunctionEvent, int>, k: Key): seq<FunctionEvent> {
    SortBy(WithKey(SyncEvents(es), GroupKey(threads), k), SweepKey)
  }

  /** In the list sorted by thread no event of another node stands between two events of one thread and node. */
  ghost predicate Uninterrupted(es: seq<FunctionEvent>, threads: map<FunctionEvent, int>) {
    Contiguous<FunctionEvent>(ByThread(es, threads), GroupKey(threads))
  }

  lemma ClassKept(es: seq<FunctionEvent>, threads: map<FunctionEvent, int>, k: Key)
    ensures WithKey<FunctionEvent>(ByThread(es, threads), GroupKey(threads), k)
         == WithKey<FunctionEvent>(SyncEvents(es), GroupKey(threads), k)
  {
    SortByKeepsFiner<FunctionEvent>(SyncEvents(es), ThreadKey(threads), Key(k.major, 0), GroupKey(threads), k);
  }

  /** Group `i` is all that belongs to one thread and node. */
  ghost predicate WholeClass(es: seq<FunctionEvent>, threads: map<FunctionEvent, int>, i: nat)
    requires i < |Groups(es, threads)|
  {
    var runs := ThreadRuns(es, threads);
    Groups(es, threads)[i] == ClassOrder(es, threads, GroupKey(threads)(runs[i][0]))
  }

  lemma UninterruptedGroup(es: seq<FunctionEvent>, threads: map<FunctionEvent, int>, i: nat)
    requires Distinct(es) && Uninterrupted(es, threads) && i < |Groups(es, threads)|
    ensures WholeClass(es, threads, i)
  {
    var s, runs := ByThread(es, threads), ThreadRuns(es, threads);
    SyncByThread(es, threads);
    RunsAreClassesIff<FunctionEvent>(s, GroupKey(threads));
    ClassKept(es, threads, GroupKey(threads)(runs[i][0]));
    assert runs[i] == WithKey<FunctionEvent>(s, GroupKey(threads), GroupKey(threads)(runs[i][0]));
  }

  /** The groups are the classes of thread and node, as intended, if and only if no class is interrupted. */
  lemma GroupsAreClassesIff(es: seq<FunctionEvent>, threads: map<FunctionEvent, int>)
    requires Distinct(es)
    ensures (forall i: nat {:trigger WholeClass(es, threads, i)} :: i < |Groups(es, threads)| ==> WholeClass(es, threads, i))
      <==> Uninterrupted(es, threads)
  {
    var key, runs := GroupKey(threads), ThreadRuns(es, threads);
    if Uninterrupted(es, threads) {
      forall i: nat | i < |Groups(es, threads)| ensures WholeClass(es, threads, i) { UninterruptedGroup(es, threads, i); }
    } else {
      OneRunIff<FunctionEvent>(ByThread(es, threads), key);
      var i: nat, j: nat :| i < j < |runs| && !KeysDiffer<FunctionEvent>(runs, key, i, j);
      DifferentGroups(es, threads, i, j);
      assert WholeClass(es, threads, i) ==> !WholeClass(es, threads, j);
    }
  }

  lemma DifferentGroups(es: seq<FunctionEvent>, threads: map<FunctionEvent, int>, i: nat, j: nat)
    requires Distinct(es) && i < j < |Groups(es, threads)|
    ensures Groups(es, threads)[i] != Groups(es, threads)[j]
  {
    var gs, runs := Groups(es, threads), ThreadRuns(es, threads);
    RunsPartition(es, threads);
    GroupElements(es, threads, i);
    GroupElements(es, threads, j);
    assert runs[i][0] in Elements(runs[i]) && Elements(runs[i]) !! Elements(runs[j]);
  }

  /** The synchronous CPU events of one thread, in sweep order. */
  function ThreadOrder(es: seq<FunctionEvent>, threads: map<FunctionEvent, int>, t: int): seq<FunctionEvent> {
    SortBy(WithKey(SyncEvents(es), ThreadKey(threads), Key(t, 0)), SweepKey)
  }

  lemma SyncOneNode(es: seq<FunctionEvent>, n: int)
    requires forall e :: e in es ==> e.nodeId == n
    ensures forall e :: e in SyncEvents(es) ==> e.nodeId == n
  {
    SyncElements(es);
  }

  /** A list of one node is not interrupted, and a class is a whole thread. */
  lemma OneNodeUninterrupted(es: seq<FunctionEvent>, threads: map<FunctionEvent, int>, n: int)
    requires forall e :: e in es ==> e.nodeId == n
    ensures Uninterrupted(es, threads)
    ensures forall t :: ClassOrder(es, threads, Key(t, n)) == ThreadOrder(es, threads, t)
  {
    var s := ByThread(es, threads);
    SyncByThread(es, threads);
    SortBySorts<FunctionEvent>(SyncEvents(es), ThreadKey(threads));
    forall a: nat, b: nat, c: nat | a < b < c < |s| ensures Together<FunctionEvent>(s, GroupKey(threads), a, b, c) {
      assert s[a] in es && s[b] in es && s[c] in es;
      assert Leq(ThreadKey(threads)(s[a]), ThreadKey(threads)(s[b])) && Leq(ThreadKey(threads)(s[b]), ThreadKey(threads)(s[c]));
    }
    forall t ensures ClassOrder(es, threads, Key(t, n)) == ThreadOrder(es, threads, t) {
      SyncOneNode(es, n);
      WithKeySame<FunctionEvent>(SyncEvents(es), GroupKey(threads), Key(t, n), ThreadKey(threads), Key(t, 0));
    }
  }

  /** If all events come from one node, as in a Kineto result, a group is a whole thread. */
  lemma OneNodeGroup(es: seq<FunctionEvent>, threads: map<FunctionEvent, int>, n: int, i: nat) returns (t: int)
    requires Distinct(es) && forall e :: e in es ==> e.nodeId == n
    requires i < |Groups(es, threads)|
    ensures Groups(es, threads)[i] == ThreadOrder(es, threads, t)
  {
    var run := ThreadRuns(es, threads)[i];
    OneNodeUninterrupted(es, threads, n);
    UninterruptedGroup(es, threads, i);
    RunsPartition(es, threads);
    assert run[0] in run && run[0] in es;
    t := GroupKey(threads)(run[0]).major;
  }

  /** `p` is the last earlier event that fits around event `i`, if there is one. */
  ghost predicate IsInnermost(ts: seq<FunctionEvent>, i: nat, p: Option<FunctionEvent>)
    requires i < |ts|
  {
    match p
    case None => forall k: nat :: k < i ==> !Fits(ts[i], ts[k])
    case Some(q) => exists j: nat :: j < i && ts[j] == q && Fits(ts[i], q) && forall k: nat :: j < k < i ==> !Fits(ts[i], ts[k])
  }

  /** In `f` event `e` has the innermost parent among the events of its thread and node. */
  ghost predicate InnermostAt(f: Forest<FunctionEvent>, es: seq<FunctionEvent>, threads: map<FunctionEvent, int>, e: FunctionEvent) {
    var ts := ClassOrder(es, threads, GroupKey(threads)(e));
    e in f && exists i: nat :: i < |ts| && ts[i] == e && IsInnermost(ts, i, f[e].parent)
  }

  ghost predicate Innermost(f: Forest<FunctionEvent>, es: seq<FunctionEvent>, threads: map<FunctionEvent, int>) {
    forall e {:trigger InnermostAt(f, es, threads, e)} :: e in es && e.Sync() ==> InnermostAt(f, es, threads, e)
  }

  /** The place of `e` among the events of its thread and node. */
  lemma ClassPlace(es: seq<FunctionEvent>, threads: map<FunctionEvent, int>, e: FunctionEvent) returns (g: nat, i: nat)
    requires Distinct(es) && Uninterrupted(es, threads) && Partition(Groups(es, threads), es) && e in es && e.Sync()
    ensures g < |Groups(es, threads)| && i < |Groups(es, threads)[g]| && Groups(es, threads)[g][i] == e
    ensures Groups(es, threads)[g] == ClassOrder(es, threads, GroupKey(threads)(e))
  {
    var gs, runs := Groups(es, threads), ThreadRuns(es, threads);
    g :| g < |gs| && e in gs[g];
    i :| i < |gs[g]| && gs[g][i] == e;
    UninterruptedGroup(es, threads, g);
    GroupElements(es, threads, g);
    RunsAlternate<FunctionEvent>(ByThread(es, threads), GroupKey(threads));
    assert e in Elements(runs[g]) && OneKey<FunctionEvent>(runs[g], GroupKey(threads));
  }

  /**
   If no class is interrupted, every synchronous CPU event ends up with the last earlier event
   of its thread and node that fits around it as parent, or with none if there is none.
   */
  lemma InnermostParents(es: seq<FunctionEvent>, threads: map<FunctionEvent, int>)
    requires Distinct(es) && Uninterrupted(es, threads)
    requires Partition(Groups(es, threads), es) && Nested(Groups(es, threads), es)
    ensures Innermost(Snapshot(Elements(es)), es, threads)
  {
    forall e | e in es && e.Sync() ensures InnermostAt(Snapshot(Elements(es)), es, threads, e) {
      InnermostParent(es, threads, e);
    }
  }

  lemma InnermostParent(es: seq<FunctionEvent>, threads: map<FunctionEvent, int>, e: FunctionEvent)
    requires Distinct(es) && Uninterrupted(es, threads)
    requires Partition(Groups(es, threads), es) && Nested(Groups(es, threads), es)
    requires e in es && e.Sync()
    ensures InnermostAt(Snapshot(Elements(es)), es, threads, e)
  {
    var gs, f := Groups(es, threads), Snapshot(Elements(es));
    var g, i := ClassPlace(es, threads, e);
    var ts := gs[g];
    assert NestedUpTo(ts, |ts|);
    assert e.cpuParent == ParentEvent(ts, i);
    LastFitMeaning(ts, e, i, ParentAt(ts, i));
    assert e in f && IsInnermost(ts, i, f[e].parent);
  }

  lemma ClassOrderElements(es: seq<FunctionEvent>, threads: map<FunctionEvent, int>, k: Key)
    ensures forall e :: e in ClassOrder(es, threads, k) <==> e in es && e.Sync() && GroupKey(threads)(e) == k
    ensures Sorted(ClassOrder(es, threads, k), SweepKey)
  {
    var ts := WithKey(SyncEvents(es), GroupKey(threads), k);
    SyncElements(es);
    WithKeyElements(SyncEvents(es), GroupKey(threads), k);
    SortBySorts(ts, SweepKey);
    assert forall e :: e in Elements(SortBy(ts, SweepKey)) <==> e in Elements(ts);
    assert forall e :: e in ts <==> e in Elements(ts);
  }

  /** `x` lies within `o`, and not over exactly the same time. */
  predicate Inside(x: FunctionEvent, o: FunctionEvent) {
    Around(o, x) && (o.start < x.start || x.end < o.end)
  }

  /** An event that lies within another event of its thread and node has a parent. */
  lemma InsideHasParent(f: Forest<FunctionEvent>, es: seq<FunctionEvent>, threads: map<FunctionEvent, int>,
                        x: FunctionEvent, o: FunctionEvent)
    requires Innermost(f, es, threads)
    requires x in es && o in es && Inside(x, o) && GroupKey(threads)(x) == GroupKey(threads)(o)
    ensures x in f && f[x].parent.Some?
  {
    assert InnermostAt(f, es, threads, x);
    var ts := ClassOrder(es, threads, GroupKey(threads)(x));
    var i: nat :| i < |ts| && ts[i] == x && IsInnermost(ts, i, f[x].parent);
    ClassOrderElements(es, threads, GroupKey(threads)(x));
    assert x in ts && o in ts;
    var j: nat :| j < |ts| && ts[j] == o;
    assert Leq(SweepKey(o), SweepKey(x)) && SweepKey(o) != SweepKey(x);
    assert j < i && Fits(x, ts[j]);
  }

  /**
   groupby sees only runs: the list is sorted by thread alone, so an event of another node
   splits the events of one thread and node, and the split pieces are nested separately.
   */
  lemma OtherNodeSplitsGroup(a: FunctionEvent, b: FunctionEvent, c: FunctionEvent, threads: map<FunctionEvent, int>)
    requires a.Sync() && b.Sync() && c.Sync()
    requires a in threads && b in threads && c in threads && threads[a] == threads[b] == threads[c]
    requires a.nodeId == c.nodeId != b.nodeId
    ensures Groups([a, b, c], threads) == [[a], [b], [c]]
  {
    var s := [a, b, c];
    assert s[1..] == [b, c] && [b, c][1..] == [c] && [c][1..] == [];
    assert SyncEvents([c]) == [c];
    assert SyncEvents([b, c]) == [b] + SyncEvents([c]);
    assert SyncEvents(s) == [a] + SyncEvents([b, c]) == s;
    var tk: FunctionEvent -> Key, gk: FunctionEvent -> Key := ThreadKey(threads), GroupKey(threads);
    assert SortBy([c], tk) == [c];
    assert SortBy([b, c], tk) == Insert(b, [c], tk) == [b, c];
    assert ByThread(s, threads) == SortBy(s, tk) == Insert(a, [b, c], tk) == s;
    assert s[..2] == [a, b] && [a, b][..1] == [a] && [a][..0] == [];
    assert Runs([a], gk) == [[a]];
    assert Runs([a, b], gk) == [[a], [b]];
    assert ThreadRuns(s, threads) == Runs(s, gk) == [[a], [b], [c]];
    forall e: FunctionEvent ensures SortBy([e], SweepKey) == [e] { assert [e][1..] == []; }
  }
}
