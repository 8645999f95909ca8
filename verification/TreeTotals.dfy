/**
 The self totals of a processed profile: what the `self_*` properties of all listed events
 add up to after the whole pipeline (parse, nest, remove duplicates).
 */
module TreeTotals {
  import opened Wrappers
  import opened Sums
  import opened Grouping
  import opened EventForest
  import opened EventTree
  import opened EventNesting
  import opened KinetoParse

  /** The quantities that have a total and a self property of the same shape. */
  datatype Metric = CpuMemory | DeviceMemory | CpuTime

  /** cpu_memory_usage, device_memory_usage and cpu_time_total. */
  function Total(m: Metric, e: FunctionEvent): int {
    match m
    case CpuMemory => e.cpuMemoryUsage
    case DeviceMemory => e.deviceMemoryUsage
    case CpuTime => if e.deviceType == CPU then e.end - e.start else 0
  }

  /** self_cpu_memory_usage, self_device_memory_usage and self_cpu_time_total. */
  ghost function SelfValue(m: Metric, e: FunctionEvent): int
    reads e
  {
    if e.isAsync || e.deviceType != CPU then 0
    else Total(m, e) - SeqSum(e.cpuChildren, (c: FunctionEvent) => Total(m, c))
  }

  /** `sum(event.self_... for event in list)` */
  ghost function SelfTotal(m: Metric, es: seq<FunctionEvent>): int
    reads es
  {
    if es == [] then 0 else SelfTotal(m, es[..|es|-1]) + SelfValue(m, es[|es|-1])
  }

  ghost function Weight(m: Metric): FunctionEvent -> int {
    (e: FunctionEvent) => if e.Sync() then Total(m, e) else 0
  }

  /** The synchronous CPU events without a parent. */
  ghost function TopEvents(es: seq<FunctionEvent>): set<FunctionEvent>
    reads es
  {
    set e | e in es && e.Sync() && e.cpuParent == null
  }

  /** Links join synchronous CPU events only. */
  ghost predicate SyncLinks(f: Forest<FunctionEvent>) {
    forall x :: x in f && f[x].parent.Some? ==> x.Sync() && f[x].parent.value.Sync()
  }

  lemma SelfIsForestSelf(m: Metric, f: Forest<FunctionEvent>, s: set<FunctionEvent>, e: FunctionEvent)
    requires f == Snapshot(s) && WellLinked(f) && SyncLinks(f) && e in s
    ensures SelfValue(m, e) == SelfOf(f, Weight(m))(e)
  {
    assert LinkOk(f, e);
    var kids := f[e].children;
    forall i | 0 <= i < |kids| ensures kids[i].Sync() && e.Sync() { assert kids[i] in f[e].children; }
    if e.Sync() {
      SeqSumSame(kids, (c: FunctionEvent) => Total(m, c), Weight(m));
    }
  }

  lemma {:induction false} SelfTotalIsSum(m: Metric, es: seq<FunctionEvent>, f: Forest<FunctionEvent>, s: set<FunctionEvent>)
    requires f == Snapshot(s) && WellLinked(f) && SyncLinks(f) && forall i :: 0 <= i < |es| ==> es[i] in s
    ensures SelfTotal(m, es) == SeqSum(es, SelfOf(f, Weight(m)))
  {
    if es != [] {
      SelfTotalIsSum(m, es[..|es|-1], f, s);
      SelfIsForestSelf(m, f, s, es[|es|-1]);
    }
  }

  /** Whatever is measured, the self values of a linked list add up to the totals of its top events. */
  lemma SelfTotalIsTopTotal(m: Metric, es: seq<FunctionEvent>)
    requires Distinct(es) && WellLinked(Snapshot(Elements(es))) && SyncLinks(Snapshot(Elements(es)))
    ensures SelfTotal(m, es) == SetSum(TopEvents(es), Weight(m))
  {
    var f := Snapshot(Elements(es));
    assert f.Keys == Elements(es);
    SelfTotalIsSum(m, es, f, Elements(es));
    SeqSumIsSetSum(es, SelfOf(f, Weight(m)));
    SelfTotalIsRootTotal(f, Weight(m));
    var tops, rest := TopEvents(es), Roots(f) - TopEvents(es);
    assert Roots(f) == tops + rest;
    SetSumUnion(tops, rest, Weight(m));
    SetSumSame(rest, Weight(m), x => 0);
    SetSumZero(rest);
  }

  lemma CollapseKeepsSyncLinks(f: Forest<FunctionEvent>, order: seq<FunctionEvent>, rank: FunctionEvent -> int)
    requires WellLinked(f) && Ranked(f, rank) && Distinct(order) && SyncLinks(f)
    ensures SyncLinks(Collapse(f, order))
  {
    var g := Collapse(f, order);
    CollapseRemoves(f, order, rank);
    forall x | x in g && g[x].parent.Some? ensures x.Sync() && g[x].parent.value.Sync() {
      var p := g[x].parent.value;
      assert LinkOk(g, x) && SameTests(f, g, x);
      assert Up(g, p, 0) == Some(p);
      assert Up(g, x, 1) == Some(p);
      CollapseKeepsAncestry(f, order, rank, p, x);
      AncestorsAreSync(f, p, x);
    }
  }

  lemma {:induction false} UpIsSync(f: Forest<FunctionEvent>, a: FunctionEvent, x: FunctionEvent, k: nat)
    requires WellLinked(f) && SyncLinks(f) && x in f && k > 0 && Up(f, x, k) == Some(a)
    ensures a.Sync()
    decreases k
  {
    assert LinkOk(f, x);
    if k > 1 { UpIsSync(f, a, f[x].parent.value, k - 1); }
  }

  lemma AncestorsAreSync(f: Forest<FunctionEvent>, a: FunctionEvent, x: FunctionEvent)
    requires WellLinked(f) && SyncLinks(f) && x in f && Ancestor(f, a, x)
    ensures a.Sync()
  {
    var k: nat :| k > 0 && Up(f, x, k) == Some(a);
    UpIsSync(f, a, x, k);
  }

  // ---------------------------------------------------------------- bytes

  function Bytes(m: Metric): KinetoEvent -> int
    requires m != CpuTime
  {
    if m == CpuMemory then CpuBytes else DeviceBytes
  }

  /** The events of `es` whose closed interval holds the time `t`. */
  ghost function Holding(es: set<FunctionEvent>, traceStart: int, t: int): set<FunctionEvent> {
    set e | e in es && e.start + traceStart <= t <= e.end + traceStart
  }

  /** How often the bytes of record `j` are counted: once per top event over it, or once on its own. */
  ghost function Times(recs: seq<KinetoEvent>, ks: seq<KinetoEvent>, tops: set<FunctionEvent>, traceStart: int, j: nat): int
    requires j < |recs|
  {
    |Holding(tops, traceStart, recs[j].startNs)| + if Charged(recs, ks, j) then 0 else 1
  }

  ghost function Accounted(recs: seq<KinetoEvent>, ks: seq<KinetoEvent>, tops: set<FunctionEvent>, traceStart: int,
                           w: KinetoEvent -> int, n: nat): int
    requires n <= |recs|
  {
    if n == 0 then 0
    else Accounted(recs, ks, tops, traceStart, w, n - 1) + w(recs[n-1]) * Times(recs, ks, tops, traceStart, n - 1)
  }

  ghost function UsageOf(recs: seq<KinetoEvent>, w: KinetoEvent -> int, traceStart: int): FunctionEvent -> int {
    (e: FunctionEvent) => Usage(recs, w, e.start + traceStart, e.end + traceStart)
  }

  lemma UsageNext(recs: seq<KinetoEvent>, r: KinetoEvent, tops: set<FunctionEvent>, traceStart: int, w: KinetoEvent -> int)
    ensures SetSum(tops, UsageOf(recs + [r], w, traceStart))
         == SetSum(tops, UsageOf(recs, w, traceStart)) + w(r) * |Holding(tops, traceStart, r.startNs)|
  {
    var h := Holding(tops, traceStart, r.startNs);
    var p := IfIn(h, w(r));
    assert (recs + [r])[..|recs|] == recs;
    forall e | e in tops ensures UsageOf(recs + [r], w, traceStart)(e) == UsageOf(recs, w, traceStart)(e) + p(e) {
      assert e in h <==> Within(r, e.start + traceStart, e.end + traceStart);
    }
    SetSumPlus(tops, UsageOf(recs, w, traceStart), p, UsageOf(recs + [r], w, traceStart));
    IndicatorSum(tops, h, w(r));
  }

  /** Charging record by record or event by event gives the same sum. */
  lemma {:induction false} CountTwice(recs: seq<KinetoEvent>, ks: seq<KinetoEvent>, tops: set<FunctionEvent>, traceStart: int,
                                      w: KinetoEvent -> int, n: nat)
    requires n <= |recs|
    ensures Accounted(recs, ks, tops, traceStart, w, n)
         == SetSum(tops, UsageOf(recs[..n], w, traceStart)) + SeqSum(Uncharged(recs, ks, n), w)
  {
    if n == 0 {
      SetSumSame(tops, UsageOf(recs[..0], w, traceStart), (e: FunctionEvent) => 0);
      SetSumZero(tops);
    } else {
      CountTwice(recs, ks, tops, traceStart, w, n - 1);
      var r := recs[n-1];
      var h, v := Holding(tops, traceStart, r.startNs), w(r);
      assert recs[..n] == recs[..n-1] + [r];
      UsageNext(recs[..n-1], r, tops, traceStart, w);
      var last := if Charged(recs, ks, n - 1) then [] else [r];
      SeqSumConcat(Uncharged(recs, ks, n - 1), last, w);
      assert Uncharged(recs, ks, n) == Uncharged(recs, ks, n - 1) + last;
      assert SeqSum(last, w) == if Charged(recs, ks, n - 1) then 0 else v;
      OneMore(v, |h|);
    }
  }

  ghost function Records(events: seq<KinetoEvent>): seq<KinetoEvent> { Named(events, MEMORY_EVENT_NAME) }

  /** The synchronous CPU events of `es` without a parent in `f`. */
  ghost function TopsIn(f: Forest<FunctionEvent>, es: seq<FunctionEvent>): set<FunctionEvent> {
    set e | e in es && e.Sync() && e in f && f[e].parent.None?
  }

  lemma {:induction false} UnchargedIsRecord(recs: seq<KinetoEvent>, ks: seq<KinetoEvent>, n: nat, k: nat) returns (j: nat)
    requires n <= |recs| && k < |Uncharged(recs, ks, n)|
    ensures j < n && recs[j] == Uncharged(recs, ks, n)[k] && !Charged(recs, ks, j)
  {
    if k < |Uncharged(recs, ks, n - 1)| { j := UnchargedIsRecord(recs, ks, n - 1, k); } else { j := n - 1; }
  }

  /** The events of records have no length. */
  lemma LongEventIsMain(events: seq<KinetoEvent>, traceStart: int,
                        main: seq<FunctionEvent>, top: seq<FunctionEvent>, oom: seq<FunctionEvent>, p: FunctionEvent)
    returns (i: nat)
    requires AllForRecords(top, Uncharged(Records(events), Listed(events), |Records(events)|), traceStart)
    requires AllForRecords(oom, Named(events, OUT_OF_MEMORY_EVENT_NAME), traceStart)
    requires p in main + top + oom && p.start < p.end
    ensures i < |main| && main[i] == p
  {
    var all := main + top + oom;
    i :| i < |all| && all[i] == p;
  }

  /** The event of an uncovered record has no parent: whatever enclosed it would have been charged. */
  lemma RecordEventIsTop(f: Forest<FunctionEvent>, all: seq<FunctionEvent>, events: seq<KinetoEvent>, traceStart: int,
                         main: seq<FunctionEvent>, top: seq<FunctionEvent>, oom: seq<FunctionEvent>, k: nat)
    requires Parsed(all, events, traceStart, main, top, oom)
    requires f.Keys == Elements(main + top + oom) && WellLinked(f) && Covering(f) && k < |top|
    ensures top[k] in TopsIn(f, top)
  {
    var x := top[k];
    assert (main + top + oom)[|main| + k] == x;
    var recs, ks := Records(events), Listed(events);
    var j := UnchargedIsRecord(recs, ks, |recs|, k);
    assert BuiltForRecord(x, recs[j], traceStart);
    if f[x].parent.Some? {
      var p := f[x].parent.value;
      assert LinkOk(f, x) && Around(p, x);
      var i := LongEventIsMain(events, traceStart, main, top, oom, p);
      assert Built(p, ks[i], recs, traceStart);
      assert Within(recs[j], ks[i].startNs, ks[i].endNs);
    }
  }

  lemma {:induction false} RecordEventBytes(m: Metric, fes: seq<FunctionEvent>, rs: seq<KinetoEvent>, traceStart: int)
    requires m != CpuTime && AllForRecords(fes, rs, traceStart)
    ensures SeqSum(fes, Weight(m)) == SeqSum(rs, Bytes(m))
  {
    if fes != [] {
      RecordEventBytes(m, fes[..|fes|-1], rs[..|rs|-1], traceStart);
      assert BuiltForRecord(fes[|fes|-1], rs[|rs|-1], traceStart);
    }
  }

  lemma MainEventBytes(m: Metric, f: Forest<FunctionEvent>, events: seq<KinetoEvent>, traceStart: int, main: seq<FunctionEvent>)
    requires m != CpuTime && AllBuilt(main, Listed(events), Records(events), traceStart)
    ensures SetSum(TopsIn(f, main), Weight(m)) == SetSum(TopsIn(f, main), UsageOf(Records(events), Bytes(m), traceStart))
  {
    forall e | e in TopsIn(f, main) ensures Weight(m)(e) == UsageOf(Records(events), Bytes(m), traceStart)(e) {
      var i :| 0 <= i < |main| && main[i] == e;
      assert Built(e, Listed(events)[i], Records(events), traceStart);
    }
    SetSumSame(TopsIn(f, main), Weight(m), UsageOf(Records(events), Bytes(m), traceStart));
  }

  lemma TopsSplit(f: Forest<FunctionEvent>, a: seq<FunctionEvent>, b: seq<FunctionEvent>)
    requires Distinct(a + b)
    ensures TopsIn(f, a + b) == TopsIn(f, a) + TopsIn(f, b) && TopsIn(f, a) !! TopsIn(f, b)
  {
    DistinctConcat(a, b);
    assert forall e: FunctionEvent :: e in a ==> e in Elements(a);
    assert forall e: FunctionEvent :: e in b ==> e in Elements(b);
  }

  /**
   The accounting law, for every raw event list: the top events hold each memory record once
   per top event whose closed interval holds its start, a record that no CPU event covers
   exactly once, and besides that the bytes of the top-level out-of-memory records.
   */
  lemma TopTotalAccounted(m: Metric, f: Forest<FunctionEvent>, all: seq<FunctionEvent>, events: seq<KinetoEvent>, traceStart: int,
                          main: seq<FunctionEvent>, top: seq<FunctionEvent>, oom: seq<FunctionEvent>)
    requires m != CpuTime && Parsed(all, events, traceStart, main, top, oom)
    requires f.Keys == Elements(main + top + oom) && WellLinked(f) && Covering(f)
    ensures SetSum(TopsIn(f, main + top + oom), Weight(m))
         == Accounted(Records(events), Listed(events), TopsIn(f, main), traceStart, Bytes(m), |Records(events)|)
          + SetSum(TopsIn(f, oom), Weight(m))
  {
    var recs := Records(events);
    DistinctConcat(main + top, oom);
    TopsSplit(f, main + top, oom);
    TopsSplit(f, main, top);
    SetSumUnion(TopsIn(f, main + top), TopsIn(f, oom), Weight(m));
    SetSumUnion(TopsIn(f, main), TopsIn(f, top), Weight(m));
    forall k | 0 <= k < |top| ensures top[k] in TopsIn(f, top) {
      RecordEventIsTop(f, all, events, traceStart, main, top, oom, k);
    }
    assert TopsIn(f, top) == Elements(top);
    DistinctConcat(main, top);
    SeqSumIsSetSum(top, Weight(m));
    RecordEventBytes(m, top, Uncharged(recs, Listed(events), |recs|), traceStart);
    MainEventBytes(m, f, events, traceStart, main);
    CountTwice(recs, Listed(events), TopsIn(f, main), traceStart, Bytes(m), |recs|);
    assert recs[..|recs|] == recs;
  }
}
