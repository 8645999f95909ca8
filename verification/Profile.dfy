/**
 profile._ensure_function_events: parse, nest, remove duplicates. The theorems here speak of
 the finished list.
 */
module Profile {
  import opened Wrappers
  import opened Sums
  import opened Sorting
  import opened Grouping
  import opened EventForest
  import opened EventTree
  import opened EventNesting
  import opened KinetoParse
  import opened TreeTotals
  import opened KernelLinks
  import opened DeviceTotals

  /**
   One call as the proofs see it: the raw events, the events parsed from them in three parts, the
   sorted list of all, and the tree before duplicates are removed, with a rank that grows from
   parent to child and the threads the events ended up in.
   */
  datatype Trace = Trace(
    events: seq<KinetoEvent>, useDevice: Option<string>, traceStart: int,
    main: seq<FunctionEvent>, top: seq<FunctionEvent>, oom: seq<FunctionEvent>, all: seq<FunctionEvent>,
    f: Forest<FunctionEvent>, rank: FunctionEvent -> int, threads: map<FunctionEvent, int>)
  {
    predicate Of(ks: seq<KinetoEvent>, device: Option<string>, from: int) {
      events == ks && useDevice == device && traceStart == from
    }

    ghost function Ks(): seq<KinetoEvent> { Listed(events) }

    ghost function Recs(): seq<KinetoEvent> { Records(events) }

    ghost function Parts(): seq<FunctionEvent> { main + top + oom }

    ghost function Tops(): set<FunctionEvent> { TopsIn(f, main) }

    ghost predicate Parses() { Parsed(all, events, traceStart, main, top, oom) }

    /** Links are mutual and acyclic, and parents cover their children in time. */
    ghost predicate Sound() { WellLinked(f) && Ranked(f, rank) && Covering(f) }
  }

  /** Removing duplicates leaves the links sound and the top events the same. */
  lemma AfterRemoval(f: Forest<FunctionEvent>, es: seq<FunctionEvent>, rank: FunctionEvent -> int)
    requires WellLinked(f) && Ranked(f, rank) && SyncLinks(f) && Distinct(es) && Elements(es) == f.Keys
    ensures var g, kept := Collapse(f, es), Survivors(f, es);
      WellLinked(g) && SyncLinks(g) && Distinct(kept) && Elements(kept) == g.Keys && TopsIn(g, kept) == TopsIn(f, es)
  {
    var g, kept := Collapse(f, es), Survivors(f, es);
    CollapsedList(f, es, rank);
    CollapseKeepsSyncLinks(f, es, rank);
    CollapseRemoves(f, es, rank);
    forall e: FunctionEvent ensures e in TopsIn(g, kept) <==> e in TopsIn(f, es) {
      assert e in kept <==> e in Elements(kept);
      assert e in es <==> e in Elements(es);
      if e in g { assert SameTests(f, g, e); }
      if e in TopsIn(f, es) { assert !Dup(f, e) && e !in Removed(f, es); }
    }
  }

  lemma TopsAreTopEvents(es: seq<FunctionEvent>)
    ensures TopsIn(Snapshot(Elements(es)), es) == TopEvents(es)
  {
    assert forall e: FunctionEvent :: e in es <==> e in Snapshot(Elements(es));
  }

  /** The list and its links are what removing duplicates makes of the tree. */
  ghost predicate CollapseOf(list: EventList, tr: Trace)
    reads list, list.events
  {
    list.events == Survivors(tr.f, tr.all) && Snapshot(Elements(list.events)) == Collapse(tr.f, tr.all)
  }

  /** What the self values of a byte count must add up to, given the top events. */
  ghost function Expected(m: Metric, tr: Trace, tops: set<FunctionEvent>): int
    requires m != CpuTime
  {
    var recs := tr.Recs();
    Accounted(recs, tr.Ks(), tops * Elements(tr.main), tr.traceStart, Bytes(m), |recs|)
    + SetSum(tops * Elements(tr.oom), Weight(m))
  }

  /** The self values of a finished list add up as they should. */
  ghost predicate Balanced(list: EventList, tr: Trace)
    reads list, list.events
  {
    var tops := TopEvents(list.events);
    && SelfTotal(CpuTime, list.events) == SetSum(tops, Weight(CpuTime))
    && (forall m :: m != CpuTime ==> SelfTotal(m, list.events) == Expected(m, tr, tops))
  }

  lemma TopsWithin(f: Forest<FunctionEvent>, es: seq<FunctionEvent>, part: seq<FunctionEvent>)
    requires forall i :: 0 <= i < |part| ==> part[i] in es
    ensures TopsIn(f, part) == TopsIn(f, es) * Elements(part)
  {
    assert forall e: FunctionEvent :: e in part <==> e in Elements(part);
  }

  lemma BytesBalanced(m: Metric, list: EventList, tr: Trace)
    requires m != CpuTime && tr.Parses() && tr.f.Keys == Elements(tr.main + tr.top + tr.oom) && tr.Sound()
    requires SelfTotal(m, list.events) == SetSum(TopEvents(list.events), Weight(m))
    requires TopEvents(list.events) == TopsIn(tr.f, tr.main + tr.top + tr.oom)
    requires TopEvents(list.events) * Elements(tr.main) == tr.Tops()
    requires TopEvents(list.events) * Elements(tr.oom) == TopsIn(tr.f, tr.oom)
    ensures SelfTotal(m, list.events) == Expected(m, tr, TopEvents(list.events))
  {
    TopTotalAccounted(m, tr.f, tr.all, tr.events, tr.traceStart, tr.main, tr.top, tr.oom);
  }

  lemma AllBalanced(list: EventList, tr: Trace)
    requires tr.Parses() && Elements(tr.all) == tr.f.Keys && Distinct(tr.all)
    requires tr.Sound()
    requires CollapseOf(list, tr)
    ensures Balanced(list, tr)
  {
    AfterRemoval(tr.f, tr.all, tr.rank);
    SameTops(list, tr);
    SelfTotalIsTopTotal(CpuTime, list.events);
    forall m: Metric | m != CpuTime ensures SelfTotal(m, list.events) == Expected(m, tr, TopEvents(list.events)) {
      SelfTotalIsTopTotal(m, list.events);
      BytesBalanced(m, list, tr);
    }
  }

  // ---------------------------------------------------------------- conservation

  ghost function Below(f: Forest<FunctionEvent>, rank: FunctionEvent -> int, x: FunctionEvent): set<FunctionEvent> {
    set y | y in f && rank(y) < rank(x)
  }

  /** Every synchronous CPU event lies within a top event. */
  lemma {:induction false} TopAbove(f: Forest<FunctionEvent>, rank: FunctionEvent -> int, x: FunctionEvent) returns (t: FunctionEvent)
    requires WellLinked(f) && Ranked(f, rank) && Covering(f) && x in f && x.Sync()
    ensures t in f && t.Sync() && f[t].parent.None? && t.start <= x.start && x.end <= t.end
    ensures t == x || t.start < t.end
    decreases |Below(f, rank, x)|
  {
    if f[x].parent.None? {
      t := x;
    } else {
      var p := f[x].parent.value;
      assert LinkOk(f, x) && Around(p, x);
      assert p in Below(f, rank, x) && p !in Below(f, rank, p) && Below(f, rank, p) <= Below(f, rank, x);
      Smaller(Below(f, rank, p), Below(f, rank, x), p);
      t := TopAbove(f, rank, p);
    }
  }

  lemma Smaller<T>(a: set<T>, b: set<T>, x: T)
    requires a <= b && x in b && x !in a
    ensures |a| < |b|
  {
    assert a <= b - {x};
    SubsetSize(a, b - {x});
  }

  lemma {:induction false} SubsetSize<T>(a: set<T>, b: set<T>)
    requires a <= b
    ensures |a| <= |b|
  {
    if a != {} {
      var x :| x in a;
      SubsetSize(a - {x}, b - {x});
    }
  }

  ghost predicate NoAsyncCpu(ks: seq<KinetoEvent>) {
    forall k :: 0 <= k < |ks| && ks[k].deviceType == CPU ==> !ks[k].isAsync && ks[k].startThreadId == ks[k].endThreadId
  }

  /** Disjoint as closed intervals. */
  ghost predicate Apart(es: set<FunctionEvent>) {
    forall a, b :: a in es && b in es && a != b ==> a.end < b.start || b.end < a.start
  }

  /** A record that a synchronous CPU event covers lies within a top event. */
  lemma CoveredHasTop(tr: Trace, j: nat, k: nat) returns (e: FunctionEvent)
    requires tr.Parses() && tr.f.Keys == Elements(tr.Parts())
    requires tr.Sound()
    requires j < |tr.Recs()| && k < |tr.main| && tr.main[k].Sync()
    requires Within(tr.Recs()[j], tr.Ks()[k].startNs, tr.Ks()[k].endNs)
    ensures e in Holding(tr.Tops(), tr.traceStart, tr.Recs()[j].startNs)
  {
    var x := tr.main[k];
    assert Built(x, tr.Ks()[k], tr.Recs(), tr.traceStart);
    assert tr.Parts()[k] == x;
    assert x in tr.f.Keys;
    e := TopAbove(tr.f, tr.rank, x);
    if e != x {
      assert e in Elements(tr.Parts());
      var i := LongEventIsMain(tr.events, tr.traceStart, tr.main, tr.top, tr.oom, e);
    }
  }

  /** Without asynchronous CPU events, a charged record lies within a top event. */
  lemma ChargedHasTop(tr: Trace, j: nat) returns (e: FunctionEvent)
    requires tr.Parses() && tr.f.Keys == Elements(tr.Parts())
    requires tr.Sound() && NoAsyncCpu(tr.Ks())
    requires j < |tr.Recs()| && Charged(tr.Recs(), tr.Ks(), j)
    ensures e in Holding(tr.Tops(), tr.traceStart, tr.Recs()[j].startNs)
  {
    var recs, ks := tr.Recs(), tr.Ks();
    var k :| 0 <= k < |ks| && ks[k].deviceType == CPU && Within(recs[j], ks[k].startNs, ks[k].endNs);
    assert Built(tr.main[k], ks[k], recs, tr.traceStart);
    e := CoveredHasTop(tr, j, k);
  }

  /** A record within a main CPU event is charged. */
  lemma HoldingIsCharged(tr: Trace, j: nat, e: FunctionEvent)
    requires AllBuilt(tr.main, tr.Ks(), tr.Recs(), tr.traceStart) && j < |tr.Recs()|
    requires e in Holding(tr.Tops(), tr.traceStart, tr.Recs()[j].startNs)
    ensures Charged(tr.Recs(), tr.Ks(), j)
  {
    var recs, ks := tr.Recs(), tr.Ks();
    var i :| 0 <= i < |tr.main| && tr.main[i] == e;
    assert Built(e, ks[i], recs, tr.traceStart);
    assert Within(recs[j], ks[i].startNs, ks[i].endNs);
  }

  /** Under these conditions no record is lost and none is counted twice. */
  lemma CountedOnce(tr: Trace, j: nat)
    requires tr.Parses() && tr.f.Keys == Elements(tr.Parts())
    requires tr.Sound()
    requires NoAsyncCpu(tr.Ks()) && Apart(tr.Tops()) && j < |tr.Recs()|
    ensures Times(tr.Recs(), tr.Ks(), tr.Tops(), tr.traceStart, j) == 1
  {
    var h := Holding(tr.Tops(), tr.traceStart, tr.Recs()[j].startNs);
    if Charged(tr.Recs(), tr.Ks(), j) {
      var e := ChargedHasTop(tr, j);
      assert forall e' :: e' in h ==> e' == e;
      assert h == {e};
    } else if h != {} {
      var e :| e in h;
      HoldingIsCharged(tr, j, e);
    }
  }

  lemma {:induction false} AllCountedOnce(recs: seq<KinetoEvent>, ks: seq<KinetoEvent>, tops: set<FunctionEvent>, traceStart: int,
                                          w: KinetoEvent -> int, n: nat)
    requires n <= |recs| && forall j: nat :: j < n ==> Times(recs, ks, tops, traceStart, j) == 1
    ensures Accounted(recs, ks, tops, traceStart, w, n) == SeqSum(recs[..n], w)
  {
    if n > 0 {
      AllCountedOnce(recs, ks, tops, traceStart, w, n - 1);
      assert recs[..n][..n-1] == recs[..n-1];
    }
  }

  /** Only asynchronous CPU events cover record `j`, and at least one does. */
  ghost predicate OnlyAsync(recs: seq<KinetoEvent>, ks: seq<KinetoEvent>, j: nat) {
    && Charged(recs, ks, j)
    && forall k :: 0 <= k < |ks| && ks[k].deviceType == CPU && Within(recs[j], ks[k].startNs, ks[k].endNs) ==> AsyncEvent(ks[k])
  }

  /** A record drops out of the totals if and only if asynchronous CPU events cover it and no other CPU event does. */
  lemma DroppedIff(tr: Trace, j: nat)
    requires tr.Parses() && tr.f.Keys == Elements(tr.Parts())
    requires tr.Sound() && j < |tr.Recs()|
    ensures Times(tr.Recs(), tr.Ks(), tr.Tops(), tr.traceStart, j) == 0
      <==> OnlyAsync(tr.Recs(), tr.Ks(), j)
  {
    var recs, ks := tr.Recs(), tr.Ks();
    var h := Holding(tr.Tops(), tr.traceStart, recs[j].startNs);
    if e :| e in h {
      var i :| 0 <= i < |tr.main| && tr.main[i] == e;
      assert Built(e, ks[i], recs, tr.traceStart);
      assert !AsyncEvent(ks[i]) && Within(recs[j], ks[i].startNs, ks[i].endNs);
      assert |h| > 0;
    } else {
      assert h == {};
      forall k | 0 <= k < |ks| && ks[k].deviceType == CPU && Within(recs[j], ks[k].startNs, ks[k].endNs) ensures AsyncEvent(ks[k]) {
        assert Built(tr.main[k], ks[k], recs, tr.traceStart);
        if !AsyncEvent(ks[k]) {
          var e := CoveredHasTop(tr, j, k);
          assert false;
        }
      }
    }
  }

  /**
   Memory conservation, end to end: without asynchronous CPU events, without out-of-memory
   records, and with top events disjoint as closed intervals, the self bytes of the finished
   list are the bytes of all memory records.
   */
  lemma BytesConserved(m: Metric, list: EventList, tr: Trace)
    requires m != CpuTime
    requires tr.Parses() && Elements(tr.all) == tr.f.Keys && Distinct(tr.all)
    requires tr.Sound()
    requires CollapseOf(list, tr)
    requires NoAsyncCpu(tr.Ks()) && Named(tr.events, OUT_OF_MEMORY_EVENT_NAME) == []
    requires Apart(TopEvents(list.events) * Elements(tr.main))
    ensures SelfTotal(m, list.events) == SeqSum(tr.Recs(), Bytes(m))
  {
    AllBalanced(list, tr);
    SameTops(list, tr);
    var recs, tops := tr.Recs(), tr.Tops();
    forall j: nat | j < |recs| ensures Times(recs, tr.Ks(), tops, tr.traceStart, j) == 1 {
      CountedOnce(tr, j);
    }
    AllCountedOnce(recs, tr.Ks(), tops, tr.traceStart, Bytes(m), |recs|);
    assert recs[..|recs|] == recs;
    assert tr.oom == [] && Elements(tr.oom) == {};
  }

  lemma SameTops(list: EventList, tr: Trace)
    requires tr.Parses() && Elements(tr.all) == tr.f.Keys && Distinct(tr.all)
    requires tr.Sound()
    requires CollapseOf(list, tr)
    ensures tr.f.Keys == Elements(tr.Parts())
    ensures TopEvents(list.events) == TopsIn(tr.f, tr.Parts())
    ensures TopEvents(list.events) * Elements(tr.main) == tr.Tops()
    ensures TopEvents(list.events) * Elements(tr.oom) == TopsIn(tr.f, tr.oom)
  {
    AfterRemoval(tr.f, tr.all, tr.rank);
    TopsAreTopEvents(list.events);
    var parts := tr.Parts();
    SortBySorts<FunctionEvent>(parts, SweepKey);
    assert forall e: FunctionEvent :: e in parts <==> e in Elements(parts);
    assert forall e: FunctionEvent :: e in tr.all <==> e in Elements(tr.all);
    assert TopsIn(tr.f, parts) == TopsIn(tr.f, tr.all);
    TopsWithin(tr.f, parts, tr.main);
    TopsWithin(tr.f, parts, tr.oom);
  }

  // ---------------------------------------------------------------- linked events and kernels

  /** The front-end event that event `k` was moved to, if any. */
  ghost function OwnerOf(main: seq<FunctionEvent>, ks: seq<KinetoEvent>, k: nat): (o: Option<FunctionEvent>)
    requires |main| == |ks| && k < |main|
  {
    var front := WithLink(main, LinksOf(ks), 0);
    var j := Adopter(front, main, LinksOf(ks), k);
    if j >= 0 then Some(front[j]) else None
  }

  lemma OneNode(all: seq<FunctionEvent>, events: seq<KinetoEvent>, traceStart: int,
                main: seq<FunctionEvent>, top: seq<FunctionEvent>, oom: seq<FunctionEvent>)
    requires Parsed(all, events, traceStart, main, top, oom)
    ensures forall e :: e in all <==> e in main + top + oom
    ensures forall e :: e in all ==> e.nodeId == -1
  {
    var parts := main + top + oom;
    SortBySorts<FunctionEvent>(parts, SweepKey);
    forall e: FunctionEvent ensures e in all <==> e in parts {
      assert e in Elements(all) <==> e in Elements(parts);
    }
    forall e | e in parts ensures e.nodeId == -1 {
      assert e in main || e in top || e in oom;
    }
  }

  ghost function KernelsAt(main: seq<FunctionEvent>, ks: seq<KinetoEvent>, useDevice: Option<string>, k: nat): seq<Kernel>
    requires |main| == |ks| && k < |main|
  {
    Fallback(useDevice, ks[k]) + Received(WithLink(main, LinksOf(ks), 0), main, LinksOf(ks), k)
  }

  /** What the correlation pass left, as a value that later passes do not touch. */
  ghost predicate Remembered(h: map<FunctionEvent, Holdings>, ks: seq<KinetoEvent>, useDevice: Option<string>,
                             main: seq<FunctionEvent>, top: seq<FunctionEvent>, oom: seq<FunctionEvent>)
  {
    && |main| == |ks|
    && (forall k :: 0 <= k < |main| ==> 
          main[k] in h && h[main[k]].kernels == KernelsAt(main, ks, useDevice, k))
    && (forall k :: 0 <= k < |main| ==> main[k] in h && h[main[k]].thread == RawThread(ks, k))
    && (forall k :: 0 <= k < |top| ==> top[k] in h && h[top[k]].kernels == [])
    && (forall k :: 0 <= k < |oom| ==> oom[k] in h && h[oom[k]].kernels == [])
  }

  lemma IsRemembered(all: seq<FunctionEvent>, events: seq<KinetoEvent>, useDevice: Option<string>, traceStart: int,
                     main: seq<FunctionEvent>, top: seq<FunctionEvent>, oom: seq<FunctionEvent>)
    requires Parsed(all, events, traceStart, main, top, oom)
    requires Associated(main, Listed(events), useDevice) && NoKernels(top) && NoKernels(oom)
    ensures Remembered(HoldingsOf(all), Listed(events), useDevice, main, top, oom)
  {
    OneNode(all, events, traceStart, main, top, oom);
    var ks, h := Listed(events), HoldingsOf(all);
    forall k | 0 <= k < |main|
      ensures main[k] in h && h[main[k]].kernels == KernelsAt(main, ks, useDevice, k) && h[main[k]].thread == RawThread(ks, k)
    {
      assert main[k] in main + top + oom;
      assert AssociatedAt(WithLink(main, LinksOf(ks), 0), main, ks, useDevice, k);
      ThreadsFromRaw(main, ks, useDevice, Records(events), traceStart, k);
    }
    forall k | 0 <= k < |top| ensures top[k] in h && h[top[k]].kernels == [] { assert top[k] in main + top + oom; }
    forall k | 0 <= k < |oom| ensures oom[k] in h && h[oom[k]].kernels == [] { assert oom[k] in main + top + oom; }
  }

  /** The threads of the main events are those that the raw events call for. */
  ghost predicate Threaded(threads: map<FunctionEvent, int>, main: seq<FunctionEvent>, ks: seq<KinetoEvent>) {
    |main| == |ks| && forall k :: 0 <= k < |main| ==> main[k] in threads && threads[main[k]] == RawThread(ks, k)
  }

  /** A main event that lies within another of its thread has a parent. */
  lemma InsideMainHasParent(tr: Trace, k: nat, o: nat)
    requires tr.Parses()
    requires Threaded(tr.threads, tr.main, tr.Ks()) && Innermost(tr.f, tr.all, tr.threads)
    requires k < |tr.main| && o < |tr.main| && Inside(tr.main[k], tr.main[o]) && RawThread(tr.Ks(), k) == RawThread(tr.Ks(), o)
    ensures tr.main[k] in tr.f && tr.f[tr.main[k]].parent.Some?
  {
    OneNode(tr.all, tr.events, tr.traceStart, tr.main, tr.top, tr.oom);
    assert tr.main[k] in tr.Parts() && tr.main[o] in tr.Parts();
    InsideHasParent(tr.f, tr.all, tr.threads, tr.main[k], tr.main[o]);
  }

  /** A linked event that lies within its owner's time gets a parent, so it is no top event. */
  lemma LinkedGetsParent(tr: Trace, k: nat)
    requires tr.Parses()
    requires Threaded(tr.threads, tr.main, tr.Ks()) && Innermost(tr.f, tr.all, tr.threads)
    requires k < |tr.main| && OwnerOf(tr.main, tr.Ks(), k).Some? && Inside(tr.main[k], OwnerOf(tr.main, tr.Ks(), k).value)
    ensures tr.main[k] in tr.f && tr.f[tr.main[k]].parent.Some?
  {
    var ks := tr.Ks();
    assert Built(tr.main[k], ks[k], tr.Recs(), tr.traceStart);
    OwnerFound(tr.main, ks, tr.Recs(), tr.traceStart, ks[k].linkedCorrelationId);
    InsideMainHasParent(tr, k, OwnerIndex(ks, ks[k].linkedCorrelationId));
  }

  /** Every raw event that is not filtered out is one parsed event, with its id, name, times and device. */
  lemma MainFields(tr: Trace, k: nat)
    requires tr.Parses() && k < |tr.Ks()|
    ensures k < |tr.main|
    ensures var e, r := tr.main[k], tr.Ks()[k];
      && e.id == r.correlationId && e.nodeId == -1 && e.name == (if "ProfilerStep#" <= r.name then "ProfilerStep*" else r.name)
      && e.start == r.startNs - tr.traceStart && e.end == r.endNs - tr.traceStart
      && e.isAsync == (r.isAsync || r.startThreadId != r.endThreadId)
      && e.deviceType == r.deviceType && e.deviceIndex == r.deviceIndex
  {
    assert Built(tr.main[k], tr.Ks()[k], tr.Recs(), tr.traceStart);
  }

  lemma {:induction false} UnchargedNames(recs: seq<KinetoEvent>, ks: seq<KinetoEvent>, n: nat, name: string)
    requires n <= |recs| && forall j :: 0 <= j < |recs| ==> recs[j].name == name
    ensures forall r :: r in Uncharged(recs, ks, n) ==> r.name == name
  {
    if n > 0 { UnchargedNames(recs, ks, n - 1, name); }
  }

  lemma NamedNames(events: seq<KinetoEvent>, name: string)
    ensures forall r :: r in Named(events, name) ==> r.name == name
  {
    var at := NamedPlaces(events, name);
    forall r | r in Named(events, name) ensures r.name == name {
      var i :| 0 <= i < |Named(events, name)| && Named(events, name)[i] == r;
      assert at[i] in at;
    }
  }

  /** The events of records are synchronous CPU events without length, named after the kind of record. */
  lemma RecordFields(tr: Trace, e: FunctionEvent)
    requires tr.Parses() && (e in tr.top || e in tr.oom)
    ensures e.name == (if e in tr.top then "[memory]" else "[OutOfMemory]") && e.start == e.end && !e.isAsync && e.deviceType == CPU
  {
    var recs := tr.Recs();
    NamedNames(tr.events, MEMORY_EVENT_NAME);
    NamedNames(tr.events, OUT_OF_MEMORY_EVENT_NAME);
    UnchargedNames(recs, tr.Ks(), |recs|, MEMORY_EVENT_NAME);
    if e in tr.top {
      var i :| 0 <= i < |tr.top| && tr.top[i] == e;
      assert Uncharged(recs, tr.Ks(), |recs|)[i] in Uncharged(recs, tr.Ks(), |recs|);
    } else {
      var i :| 0 <= i < |tr.oom| && tr.oom[i] == e;
      assert Named(tr.events, OUT_OF_MEMORY_EVENT_NAME)[i] in Named(tr.events, OUT_OF_MEMORY_EVENT_NAME);
    }
  }

  /** What removing duplicates takes from the kernel time of the tree `f`. */
  ghost function LostKernelTime(f: Forest<FunctionEvent>, all: seq<FunctionEvent>): int {
    SetSum(Removed(f, all), ParentKernelTimeOf(f))
  }

  ghost function ListKernelTime(es: seq<FunctionEvent>): int
    reads es
  {
    SetSum(Elements(es), KernelTimeOf(Snapshot(Elements(es))))
  }

  /** The parsed list is the main events and, apart from them, the events of records. */
  lemma KeysOfParts(tr: Trace)
    requires tr.Parses() && Elements(tr.all) == tr.f.Keys
    ensures |tr.main| == |tr.Ks()| && Distinct(tr.main) && Elements(tr.main) !! Elements(tr.top + tr.oom)
    ensures tr.f.Keys == Elements(tr.main) + Elements(tr.top + tr.oom)
  {
    SortBySorts<FunctionEvent>(tr.Parts(), SweepKey);
    assert tr.Parts() == tr.main + (tr.top + tr.oom);
    DistinctConcat(tr.main, tr.top + tr.oom);
    assert Elements(tr.main + (tr.top + tr.oom)) == Elements(tr.main) + Elements(tr.top + tr.oom);
  }

  /** The kernel time of the finished list is what was handed out, less what the removal lost. */
  lemma KernelTimeAccounted(tr: Trace)
    requires tr.Parses() && Elements(tr.all) == tr.f.Keys && Distinct(tr.all)
    requires WellLinked(tr.f) && Ranked(tr.f, tr.rank) && Holds(tr.f, tr.main, tr.Ks(), tr.useDevice)
    requires forall e :: e in tr.top + tr.oom ==> e in tr.f && tr.f[e].kernels == []
    ensures var g := Collapse(tr.f, tr.all);
      SetSum(g.Keys, KernelTimeOf(g)) == Granted(tr.main, tr.Ks(), tr.useDevice) - LostKernelTime(tr.f, tr.all)
  {
    CollapseLosesKernelTime(tr.f, tr.all, tr.rank);
    KeysOfParts(tr);
    DeviceTimeGranted(tr.f, tr.main, tr.top + tr.oom, tr.Ks(), tr.useDevice);
  }

  /** The tree before duplicates are removed. */
  ghost predicate Grown(tr: Trace) {
    && tr.Parses() && Elements(tr.all) == tr.f.Keys && Distinct(tr.all)
    && tr.Sound()
    && Holds(tr.f, tr.main, tr.Ks(), tr.useDevice) && (forall e :: e in tr.top + tr.oom ==> e in tr.f && tr.f[e].kernels == [])
    && LinkedHaveParents(tr.f, tr.main, tr.Ks()) && Threaded(tr.threads, tr.main, tr.Ks())
    && Innermost(tr.f, tr.all, tr.threads)
  }

  /** Linked events that lie within their owner's time are not roots. */
  ghost predicate LinkedHaveParents(f: Forest<FunctionEvent>, main: seq<FunctionEvent>, ks: seq<KinetoEvent>)
    requires |main| == |ks|
  {
    forall k :: 0 <= k < |main| && OwnerOf(main, ks, k).Some? && Inside(main[k], OwnerOf(main, ks, k).value)
      ==> main[k] in f && f[main[k]].parent.Some?
  }

  lemma TreeKernels(all: seq<FunctionEvent>, ks: seq<KinetoEvent>, useDevice: Option<string>,
                    main: seq<FunctionEvent>, top: seq<FunctionEvent>, oom: seq<FunctionEvent>)
    requires Remembered(HoldingsOf(all), ks, useDevice, main, top, oom)
    ensures var f := Snapshot(Elements(all));
      Holds(f, main, ks, useDevice) && forall e :: e in top + oom ==> e in f && f[e].kernels == []
  {
    var f := Snapshot(Elements(all));
    forall k | 0 <= k < |main| ensures main[k] in f && f[main[k]].kernels == KernelsAt(main, ks, useDevice, k) {
      assert main[k] in HoldingsOf(all);
    }
    forall e | e in top + oom ensures e in f && f[e].kernels == [] {
      assert e in top || e in oom;
      assert e in HoldingsOf(all);
    }
  }

  lemma TreeThreads(all: seq<FunctionEvent>, events: seq<KinetoEvent>, useDevice: Option<string>, traceStart: int,
                    main: seq<FunctionEvent>, top: seq<FunctionEvent>, oom: seq<FunctionEvent>)
    requires Parsed(all, events, traceStart, main, top, oom) && Distinct(all)
    requires Remembered(HoldingsOf(all), Listed(events), useDevice, main, top, oom)
    requires Partition(Groups(all, ThreadsOf(all)), all) && Nested(Groups(all, ThreadsOf(all)), all)
    ensures Threaded(ThreadsOf(all), main, Listed(events)) && Innermost(Snapshot(Elements(all)), all, ThreadsOf(all))
  {
    OneNode(all, events, traceStart, main, top, oom);
    OneNodeUninterrupted(all, ThreadsOf(all), -1);
    InnermostParents(all, ThreadsOf(all));
    forall k | 0 <= k < |main| ensures main[k] in ThreadsOf(all) && ThreadsOf(all)[main[k]] == RawThread(Listed(events), k) {
      assert main[k] in HoldingsOf(all);
    }
  }

  lemma TreeLinks(tr: Trace)
    requires tr.Parses()
    requires Threaded(tr.threads, tr.main, tr.Ks()) && Innermost(tr.f, tr.all, tr.threads)
    ensures LinkedHaveParents(tr.f, tr.main, tr.Ks())
  {
    var ks := tr.Ks();
    forall k | 0 <= k < |tr.main| && OwnerOf(tr.main, ks, k).Some? && Inside(tr.main[k], OwnerOf(tr.main, ks, k).value)
      ensures tr.main[k] in tr.f && tr.f[tr.main[k]].parent.Some?
    {
      LinkedGetsParent(tr, k);
    }
  }

  lemma IsGrown(tr: Trace)
    requires tr.Parses() && Distinct(tr.all)
    requires Remembered(HoldingsOf(tr.all), tr.Ks(), tr.useDevice, tr.main, tr.top, tr.oom)
    requires var gs := Groups(tr.all, ThreadsOf(tr.all));
      && Partition(gs, tr.all) && Nested(gs, tr.all)
      && tr.f == Snapshot(Elements(tr.all)) && tr.rank == Place(gs) && tr.threads == ThreadsOf(tr.all)
    ensures Grown(tr)
  {
    NestingBuildsForest(Groups(tr.all, ThreadsOf(tr.all)), tr.all);
    TreeKernels(tr.all, tr.Ks(), tr.useDevice, tr.main, tr.top, tr.oom);
    TreeThreads(tr.all, tr.events, tr.useDevice, tr.traceStart, tr.main, tr.top, tr.oom);
    TreeLinks(tr);
    assert tr.f.Keys == Elements(tr.all);
  }

  const NO_TRACE := Trace([], None, 0, [], [], [], [], map[], e => 0, map[])

  /** Parsing and EventList._populate_cpu_children. */
  method ParseAndNest(events: seq<KinetoEvent>, useDevice: Option<string>, traceStart: int)
    returns (r: Result<EventList, Error>, ghost tr: Trace)
    ensures r.Ok? <==> forall k :: 0 <= k < |Listed(events)| ==> Listed(events)[k].linkedCorrelationId >= 0
    ensures r.Ok? ==> fresh(r.value) && forall i :: 0 <= i < |r.value.events| ==> fresh(r.value.events[i])
    ensures r.Ok? ==> Grown(tr) && tr.Of(events, useDevice, traceStart)
    ensures r.Ok? ==> tr.all == r.value.events && tr.f == Snapshot(Elements(r.value.events))
  {
    var parsed;
    ghost var main, top, oom;
    tr := NO_TRACE;
    parsed, main, top, oom := ParseKinetoResults(events, useDevice, traceStart);
    if parsed.Err? { return Err(parsed.error), tr; }
    var all := parsed.value;
    var list := new EventList(all);
    IsRemembered(all, events, useDevice, traceStart, main, top, oom);
    Populate(list);
    ghost var gs := Groups(all, ThreadsOf(all));
    tr := Trace(events, useDevice, traceStart, main, top, oom, all, Snapshot(Elements(all)), Place(gs), ThreadsOf(all));
    IsGrown(tr);
    r := Ok(list);
  }

  /** Without duplicates, linked events still are no top events. */
  ghost predicate LinkedNotTop(es: seq<FunctionEvent>, main: seq<FunctionEvent>, ks: seq<KinetoEvent>)
    requires |main| == |ks|
    reads es
  {
    forall k :: 0 <= k < |main| && OwnerOf(main, ks, k).Some? && Inside(main[k], OwnerOf(main, ks, k).value)
      ==> main[k] !in TopEvents(es)
  }

  lemma LinkedStayBelow(list: EventList, tr: Trace)
    requires Grown(tr)
    requires CollapseOf(list, tr)
    ensures LinkedNotTop(list.events, tr.main, tr.Ks())
  {
    SameTops(list, tr);
  }

  /** What the finished list obeys. */
  ghost predicate Finished(list: EventList, tr: Trace)
    requires |tr.main| == |tr.Ks()|
    reads list, list.events
  {
    && Balanced(list, tr)
    && (NoAsyncCpu(tr.Ks()) && Named(tr.events, OUT_OF_MEMORY_EVENT_NAME) == []
        && Apart(TopEvents(list.events) * Elements(tr.main))
        ==> forall m :: m != CpuTime ==> SelfTotal(m, list.events) == SeqSum(tr.Recs(), Bytes(m)))
    && ListKernelTime(list.events) == Granted(tr.main, tr.Ks(), tr.useDevice) - LostKernelTime(tr.f, tr.all)
    && LinkedNotTop(list.events, tr.main, tr.Ks())
  }

  lemma IsFinished(list: EventList, tr: Trace)
    requires Grown(tr)
    requires CollapseOf(list, tr)
    ensures Finished(list, tr)
  {
    AllBalanced(list, tr);
    if NoAsyncCpu(tr.Ks()) && Named(tr.events, OUT_OF_MEMORY_EVENT_NAME) == []
      && Apart(TopEvents(list.events) * Elements(tr.main))
    {
      forall m: Metric | m != CpuTime ensures SelfTotal(m, list.events) == SeqSum(tr.Recs(), Bytes(m)) {
        BytesConserved(m, list, tr);
      }
    }
    KernelTimeAccounted(tr);
    assert Elements(list.events) == Collapse(tr.f, tr.all).Keys;
    LinkedStayBelow(list, tr);
  }

  /**
   profile._ensure_function_events with EventList._build_tree. The finished list obeys the
   accounting laws for bytes and kernel time, its total self CPU time is the sum of the
   durations of the top events, and no removable duplicate is left. List and links are the
   collapse of the tree `f`, in which every parent is the innermost one.
   */
  method EnsureFunctionEvents(events: seq<KinetoEvent>, useDevice: Option<string>, traceStart: int)
    returns (r: Result<EventList, Error>, ghost tr: Trace)
    ensures r.Ok? <==> forall k :: 0 <= k < |Listed(events)| ==> Listed(events)[k].linkedCorrelationId >= 0
    ensures r.Ok? ==> tr.Of(events, useDevice, traceStart) && Grown(tr) && Finished(r.value, tr)
    ensures r.Ok? ==> CollapseOf(r.value, tr)
    ensures r.Ok? ==> DupAt(Snapshot(Elements(r.value.events)), r.value.events) == {}
    ensures r.Ok? ==> fresh(r.value)
  {
    r, tr := ParseAndNest(events, useDevice, traceStart);
    if r.Ok? {
      var list := r.value;
      list.RemoveDupNodes(tr.rank);
      IsFinished(list, tr);
    }
  }

  lemma {:induction false} SelfTotalConcat(m: Metric, a: seq<FunctionEvent>, b: seq<FunctionEvent>)
    ensures SelfTotal(m, a + b) == SelfTotal(m, a) + SelfTotal(m, b)
  {
    if b == [] {
      assert a + b == a;
    } else {
      assert (a + b)[..|a + b|-1] == a + b[..|b|-1];
      SelfTotalConcat(m, a, b[..|b|-1]);
    }
  }

  /**
   The end of _ensure_function_events: with `acc_events` the events of earlier cycles are
   appended with the links they have, so the self totals of the cycles add up.
   */
  method AppendOldEvents(list: EventList, earlier: seq<FunctionEvent>, accEvents: bool)
    modifies list
    ensures list.events == old(list.events) + if accEvents then earlier else []
    ensures forall m ::
      SelfTotal(m, list.events) == old(SelfTotal(m, list.events)) + if accEvents then old(SelfTotal(m, earlier)) else 0
  {
    ghost var before := list.events;
    if accEvents {
      for i := 0 to |earlier|
        invariant list.events == before + earlier[..i]
      {
        list.events := list.events + [earlier[i]];
      }
      assert earlier[..|earlier|] == earlier;
      forall m: Metric ensures SelfTotal(m, before + earlier) == SelfTotal(m, before) + SelfTotal(m, earlier) {
        SelfTotalConcat(m, before, earlier);
      }
    }
  }
}
