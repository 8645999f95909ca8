/**
 profile._parse_kineto_results: turns the raw event list into FunctionEvents, charges every
 memory record to the CPU events that cover it, and adds an event of its own for every
 record that no event covers. Times are in ns, relative to the start of the trace.
 */
module KinetoParse {
  import opened Wrappers
  import opened Sums
  import opened Picks
  import opened Sorting
  import opened Grouping
  import opened EventForest
  import opened EventTree
  import opened EventNesting
  import opened MemRecords
  import opened KernelLinks

  datatype KinetoEvent = KinetoEvent(
    name: string, startNs: int, endNs: int, deviceType: DeviceType, isAsync: bool,
    startThreadId: int, endThreadId: int, correlationId: int, linkedCorrelationId: int, nbytes: int,
    deviceIndex: int, supaElapsedNs: int, privateuse1ElapsedNs: int)

  datatype Error = NegativeCorrelationId(id: int)

  const MEMORY_EVENT_NAME := "[memory]"
  const OUT_OF_MEMORY_EVENT_NAME := "[OutOfMemory]"

  const FILTERED_OUT_NAMES := [
    MEMORY_EVENT_NAME, OUT_OF_MEMORY_EVENT_NAME, "profiler::_record_function_enter",
    "profiler::_record_function_enter_new", "profiler::_record_function_exit",
    "aten::is_leaf", "aten::output_nr", "aten::_version"]

  predicate FilterName(name: string) { name in FILTERED_OUT_NAMES }

  function RewriteName(name: string): string {
    if "ProfilerStep#" <= name then "ProfilerStep*" else name
  }

  function CpuBytes(r: KinetoEvent): int {
    if r.deviceType in {CPU, MKLDNN, IDEEP} then r.nbytes else 0
  }

  function DeviceBytes(r: KinetoEvent): int {
    if r.deviceType in {PrivateUse1, HIP} then r.nbytes else 0
  }

  /** By device type: host memory, memory of a device of this backend, and all else. */
  lemma BytesByDevice(r: KinetoEvent)
    ensures r.deviceType == CPU || r.deviceType == MKLDNN || r.deviceType == IDEEP ==> CpuBytes(r) == r.nbytes && DeviceBytes(r) == 0
    ensures r.deviceType == PrivateUse1 || r.deviceType == HIP ==> CpuBytes(r) == 0 && DeviceBytes(r) == r.nbytes
    ensures r.deviceType == CUDA || r.deviceType == MTIA || r.deviceType == OtherDevice ==> CpuBytes(r) == 0 == DeviceBytes(r)
  {
  }

  /** The names that never become events. */
  lemma FilteredNames(name: string)
    ensures FilterName(name) <==>
      || name == "[memory]" || name == "[OutOfMemory]" || name == "profiler::_record_function_enter"
      || name == "profiler::_record_function_enter_new" || name == "profiler::_record_function_exit"
      || name == "aten::is_leaf" || name == "aten::output_nr" || name == "aten::_version"
  {
    var ns := FILTERED_OUT_NAMES;
    if name == ns[0] || name == ns[1] || name == ns[2] || name == ns[3] || name == ns[4] || name == ns[5] || name == ns[6] || name == ns[7] {
      assert name in ns;
    }
  }

  /** All steps of the profiler share one name; other names stay. */
  lemma StepNames(n: string)
    ensures RewriteName("ProfilerStep#" + n) == "ProfilerStep*"
    ensures !("ProfilerStep#" <= n) ==> RewriteName(n) == n
  {
    assert "ProfilerStep#" <= "ProfilerStep#" + n;
  }

  /** The events of a given name, in order. */
  function Named(events: seq<KinetoEvent>, name: string): seq<KinetoEvent> {
    if events == [] then [] else
      var last := events[|events|-1];
      Named(events[..|events|-1], name) + if last.name == name then [last] else []
  }

  /** The events that become FunctionEvents, in order. */
  function Listed(events: seq<KinetoEvent>): seq<KinetoEvent> {
    if events == [] then [] else
      var last := events[|events|-1];
      Listed(events[..|events|-1]) + if FilterName(last.name) then [] else [last]
  }

  /** The records of a name are all raw events of that name, in order. */
  lemma {:induction false} NamedPlaces(events: seq<KinetoEvent>, name: string) returns (at: seq<nat>)
    ensures Picked(events, at, Named(events, name)) && forall k: nat :: k < |events| ==> (k in at <==> events[k].name == name)
  {
    at := [];
    if events != [] {
      var pre, last := events[..|events|-1], events[|events|-1];
      assert events == pre + [last];
      at := NamedPlaces(pre, name);
      PickNone(pre, at, Named(pre, name), last);
      if last.name == name {
        PickNext(pre, at, Named(pre, name), last);
        at := at + [|pre|];
      }
      forall k: nat | k < |events| ensures k in at <==> events[k].name == name {
        if k < |pre| { assert events[k] == pre[k]; }
      }
    }
  }

  /** The raw events that become FunctionEvents are all but those with a filtered name, in order. */
  lemma {:induction false} ListedPlaces(events: seq<KinetoEvent>) returns (at: seq<nat>)
    ensures Picked(events, at, Listed(events)) && forall k: nat :: k < |events| ==> (k in at <==> !FilterName(events[k].name))
  {
    at := [];
    if events != [] {
      var pre, last := events[..|events|-1], events[|events|-1];
      assert events == pre + [last];
      at := ListedPlaces(pre);
      PickNone(pre, at, Listed(pre), last);
      if !FilterName(last.name) {
        PickNext(pre, at, Listed(pre), last);
        at := at + [|pre|];
      }
      forall k: nat | k < |events| ensures k in at <==> !FilterName(events[k].name) {
        if k < |pre| { assert events[k] == pre[k]; }
      }
    }
  }

  /** `r` starts within the closed interval of `k`. */
  predicate Within(r: KinetoEvent, from: int, to: int) { from <= r.startNs <= to }

  ghost function Charge(w: KinetoEvent -> int, from: int, to: int): KinetoEvent -> int {
    r => if Within(r, from, to) then w(r) else 0
  }

  /** The bytes of the records within a closed interval. */
  ghost function Usage(recs: seq<KinetoEvent>, w: KinetoEvent -> int, from: int, to: int): int {
    SeqSum(recs, Charge(w, from, to))
  }

  function Starts(recs: seq<KinetoEvent>): (s: seq<int>)
    ensures |s| == |recs| && forall i :: 0 <= i < |s| ==> s[i] == recs[i].startNs
  {
    seq(|recs|, i requires 0 <= i < |recs| => recs[i].startNs)
  }

  ghost function At(recs: seq<KinetoEvent>, w: KinetoEvent -> int): int -> int {
    i => if 0 <= i < |recs| then w(recs[i]) else 0
  }

  /** Summing over the selected positions is summing over the records with the others at zero. */
  lemma {:induction false} SelectedSum(recs: seq<KinetoEvent>, w: KinetoEvent -> int, from: int, to: int, s: set<int>)
    requires forall i :: i in s <==> Selects(Starts(recs), from, to, i)
    ensures SetSum(s, At(recs, w)) == Usage(recs, w, from, to)
  {
    if recs == [] {
      forall i ensures i !in s { assert !Selects(Starts(recs), from, to, i); }
      assert s == {};
    } else {
      var n := |recs| - 1;
      var pre := recs[..n];
      var t := s - {n};
      forall i ensures i in t <==> Selects(Starts(pre), from, to, i) {}
      SelectedSum(pre, w, from, to, t);
      SetSumSame(t, At(recs, w), At(pre, w));
      if n in s { SetSumPick(s, At(recs, w), n); } else { assert s == t; }
    }
  }

  /** The records that `_parse_kineto_results` marks as charged. */
  ghost predicate Charged(recs: seq<KinetoEvent>, ks: seq<KinetoEvent>, j: int) {
    0 <= j < |recs| && exists k :: 0 <= k < |ks| && ks[k].deviceType == CPU && Within(recs[j], ks[k].startNs, ks[k].endNs)
  }

  lemma ChargedNext(recs: seq<KinetoEvent>, ks: seq<KinetoEvent>, k: KinetoEvent, j: int)
    requires 0 <= j < |recs|
    ensures Charged(recs, ks + [k], j) <==>
      Charged(recs, ks, j) || (k.deviceType == CPU && Within(recs[j], k.startNs, k.endNs))
  {
    var ks' := ks + [k];
    if Charged(recs, ks, j) {
      var i :| 0 <= i < |ks| && ks[i].deviceType == CPU && Within(recs[j], ks[i].startNs, ks[i].endNs);
      assert ks'[i] == ks[i];
    }
    assert ks'[|ks|] == k;
  }

  lemma {:induction false} ListedPrefix(events: seq<KinetoEvent>, n: nat)
    requires n <= |events|
    ensures Listed(events[..n]) <= Listed(events)
  {
    if n == |events| {
      assert events[..n] == events;
    } else {
      var pre := events[..|events|-1];
      assert pre[..n] == events[..n];
      ListedPrefix(pre, n);
    }
  }

  /** The loop over `mem_records_acc.in_interval(...)` for one CPU event. */
  method ChargeMemory(acc: MemRecordsAcc, recs: seq<KinetoEvent>, seen: array<bool>, from: int, to: int)
    returns (cpu: int, device: int)
    requires acc.Valid() && acc.starts == Starts(recs) && seen.Length == |recs|
    modifies seen
    ensures cpu == Usage(recs, CpuBytes, from, to) && device == Usage(recs, DeviceBytes, from, to)
    ensures forall j :: 0 <= j < |recs| ==> seen[j] == (old(seen[j]) || Within(recs[j], from, to))
  {
    cpu, device := 0, 0;
    var hits := acc.InInterval(from, to);
    for i := 0 to |hits|
      invariant cpu == SeqSum(hits[..i], At(recs, CpuBytes)) && device == SeqSum(hits[..i], At(recs, DeviceBytes))
      invariant forall j :: 0 <= j < |recs| ==> seen[j] == (old(seen[j]) || j in hits[..i])
    {
      var j := hits[i];
      assert j in hits;
      assert hits[..i+1][..i] == hits[..i];
      cpu, device := cpu + CpuBytes(recs[j]), device + DeviceBytes(recs[j]);
      seen[j] := true;
    }
    assert hits[..|hits|] == hits;
    SeqSumIsSetSum(hits, At(recs, CpuBytes));
    SeqSumIsSetSum(hits, At(recs, DeviceBytes));
    SelectedSum(recs, CpuBytes, from, to, Elements(hits));
    SelectedSum(recs, DeviceBytes, from, to, Elements(hits));
  }

  /** `fe` is the FunctionEvent of the raw event `k`. */
  ghost predicate Built(fe: FunctionEvent, k: KinetoEvent, recs: seq<KinetoEvent>, traceStart: int) {
    && fe.id == k.correlationId && fe.name == RewriteName(k.name) && fe.nodeId == -1
    && fe.start == k.startNs - traceStart && fe.end == k.endNs - traceStart
    && fe.isAsync == AsyncEvent(k) && fe.deviceType == k.deviceType && fe.deviceIndex == k.deviceIndex
    && fe.cpuMemoryUsage == (if k.deviceType == CPU then Usage(recs, CpuBytes, k.startNs, k.endNs) else 0)
    && fe.deviceMemoryUsage == (if k.deviceType == CPU then Usage(recs, DeviceBytes, k.startNs, k.endNs) else 0)
  }

  /** `fe` is the zero-length top-level event of a memory or out-of-memory record. */
  ghost predicate BuiltForRecord(fe: FunctionEvent, r: KinetoEvent, traceStart: int) {
    && fe.name == r.name && fe.nodeId == -1 && !fe.isAsync && fe.deviceType == CPU
    && fe.start == fe.end == r.startNs - traceStart
    && fe.cpuMemoryUsage == CpuBytes(r) && fe.deviceMemoryUsage == DeviceBytes(r)
  }

  /** New, pairwise different, unlinked events. */
  twostate predicate Fresh(new s: seq<FunctionEvent>)
    reads s
  {
    Distinct(s) && forall i :: 0 <= i < |s| ==> fresh(s[i]) && s[i].Unlinked()
  }

  predicate AsyncEvent(k: KinetoEvent) { k.isAsync || k.startThreadId != k.endThreadId }

  /** The stand-in kernel of a synchronous CPU event that carries a device time of its own. */
  function Fallback(useDevice: Option<string>, k: KinetoEvent): seq<Kernel> {
    if k.deviceType != CPU || AsyncEvent(k) then []
    else if useDevice == Some("privateuseone") then
      if k.privateuse1ElapsedNs > 0 then [Kernel(RewriteName(k.name), k.deviceIndex, k.privateuse1ElapsedNs)] else []
    else if useDevice == Some("supa") then
      if k.supaElapsedNs > 0 then [Kernel(RewriteName(k.name), k.deviceIndex, k.supaElapsedNs)] else []
    else []
  }

  /** The FunctionEvent of one raw event; its memory records are charged on the way. */
  method BuildEvent(k: KinetoEvent, useDevice: Option<string>, acc: MemRecordsAcc, recs: seq<KinetoEvent>, traceStart: int,
                    seen: array<bool>)
    returns (fe: FunctionEvent)
    requires acc.Valid() && acc.starts == Starts(recs) && seen.Length == |recs|
    modifies seen
    ensures fresh(fe) && fe.Unlinked() && Built(fe, k, recs, traceStart)
    ensures Held(fe) == Holdings(Fallback(useDevice, k), k.startThreadId)
    ensures forall j :: 0 <= j < |recs| ==>
      seen[j] == (old(seen[j]) || (k.deviceType == CPU && Within(recs[j], k.startNs, k.endNs)))
  {
    var cpu, device := 0, 0;
    if k.deviceType == CPU {
      cpu, device := ChargeMemory(acc, recs, seen, k.startNs, k.endNs);
    }
    fe := new FunctionEvent(k.correlationId, RewriteName(k.name), k.startThreadId,
      k.startNs - traceStart, k.endNs - traceStart, AsyncEvent(k),
      k.deviceType, k.deviceIndex, -1, cpu, device);
    if fe.deviceType == CPU && !fe.isAsync {
      if useDevice == Some("privateuseone") {
        if k.privateuse1ElapsedNs > 0 { fe.AppendKernel(fe.name, fe.deviceIndex, k.privateuse1ElapsedNs); }
      } else if useDevice == Some("supa") {
        if k.supaElapsedNs > 0 { fe.AppendKernel(fe.name, fe.deviceIndex, k.supaElapsedNs); }
      }
    }
  }

  /** The events built for the raw events `ks`, position by position. */
  ghost predicate AllBuilt(fes: seq<FunctionEvent>, ks: seq<KinetoEvent>, recs: seq<KinetoEvent>, traceStart: int) {
    |fes| == |ks| && forall k :: 0 <= k < |fes| ==> Built(fes[k], ks[k], recs, traceStart)
  }

  lemma ListedNext(events: seq<KinetoEvent>, i: nat)
    requires i < |events|
    ensures Listed(events[..i+1]) == Listed(events[..i]) + if FilterName(events[i].name) then [] else [events[i]]
  {
    assert events[..i+1][..i] == events[..i];
  }

  ghost predicate NoNegativeLink(ks: seq<KinetoEvent>) {
    forall k :: 0 <= k < |ks| ==> ks[k].linkedCorrelationId >= 0
  }

  twostate lemma AppendStaysFresh(new s: seq<FunctionEvent>, new fe: FunctionEvent)
    requires Fresh(s) && fresh(fe) && fe.Unlinked() && fe !in s
    ensures Fresh(s + [fe])
  {
  }

  /** The flags say which records the raw events `ks` charge. */
  ghost predicate Marks(flags: seq<bool>, recs: seq<KinetoEvent>, ks: seq<KinetoEvent>) {
    |flags| == |recs| && forall j :: 0 <= j < |recs| ==> flags[j] == Charged(recs, ks, j)
  }

  lemma MarksNext(flags: seq<bool>, flags': seq<bool>, recs: seq<KinetoEvent>, ks: seq<KinetoEvent>, k: KinetoEvent)
    requires Marks(flags, recs, ks) && |flags'| == |flags|
    requires forall j :: 0 <= j < |recs| ==>
      flags'[j] == (flags[j] || (k.deviceType == CPU && Within(recs[j], k.startNs, k.endNs)))
    ensures Marks(flags', recs, ks + [k])
  {
    forall j | 0 <= j < |recs| ensures flags'[j] == Charged(recs, ks + [k], j) {
      ChargedNext(recs, ks, k, j);
    }
  }

  function LinksOf(ks: seq<KinetoEvent>): (links: seq<int>)
    ensures |links| == |ks|
  {
    seq(|ks|, i requires 0 <= i < |ks| => ks[i].linkedCorrelationId)
  }

  /** What the events hold before the correlation pass. */
  ghost predicate Plain(fes: seq<FunctionEvent>, ks: seq<KinetoEvent>, useDevice: Option<string>)
    reads fes
  {
    |fes| == |ks| && forall k :: 0 <= k < |fes| ==> Held(fes[k]) == Holdings(Fallback(useDevice, ks[k]), ks[k].startThreadId)
  }

  lemma PlainNext(fes: seq<FunctionEvent>, fe: FunctionEvent, ks: seq<KinetoEvent>, k: KinetoEvent, useDevice: Option<string>)
    requires Plain(fes, ks, useDevice) && Held(fe) == Holdings(Fallback(useDevice, k), k.startThreadId)
    ensures Plain(fes + [fe], ks + [k], useDevice)
  {
  }

  lemma AllBuiltNext(fes: seq<FunctionEvent>, fe: FunctionEvent, ks: seq<KinetoEvent>, k: KinetoEvent,
                     recs: seq<KinetoEvent>, traceStart: int)
    requires AllBuilt(fes, ks, recs, traceStart) && Built(fe, k, recs, traceStart)
    ensures AllBuilt(fes + [fe], ks + [k], recs, traceStart)
  {
  }

  lemma NoNegativeNext(ks: seq<KinetoEvent>, k: KinetoEvent)
    ensures NoNegativeLink(ks + [k]) <==> NoNegativeLink(ks) && k.linkedCorrelationId >= 0
  {
    if NoNegativeLink(ks + [k]) {
      assert (ks + [k])[|ks|] == k;
      assert forall i :: 0 <= i < |ks| ==> (ks + [k])[i] == ks[i];
    }
  }

  lemma LinksNext(ks: seq<KinetoEvent>, k: KinetoEvent)
    ensures LinksOf(ks + [k]) == LinksOf(ks) + [k.linkedCorrelationId]
  {
  }

  /** What the loop knows about the events built so far. */
  ghost predicate Progress(out: seq<FunctionEvent>, front: seq<FunctionEvent>, corr: map<int, seq<FunctionEvent>>,
                           ks: seq<KinetoEvent>, useDevice: Option<string>, recs: seq<KinetoEvent>, traceStart: int)
    reads out
  {
    && AllBuilt(out, ks, recs, traceStart) && Plain(out, ks, useDevice)
    && NoNegativeLink(ks) && Correlated(front, corr, out, LinksOf(ks))
  }

  /** The bookkeeping for an event that was just built. */
  method AddEvent(fe: FunctionEvent, k: KinetoEvent, out: seq<FunctionEvent>, front: seq<FunctionEvent>,
                  corr: map<int, seq<FunctionEvent>>,
                  ghost ks: seq<KinetoEvent>, ghost useDevice: Option<string>, ghost recs: seq<KinetoEvent>, ghost traceStart: int)
    returns (front': seq<FunctionEvent>, corr': map<int, seq<FunctionEvent>>)
    requires Progress(out, front, corr, ks, useDevice, recs, traceStart) && k.linkedCorrelationId >= 0
    requires Built(fe, k, recs, traceStart) && Held(fe) == Holdings(Fallback(useDevice, k), k.startThreadId)
    ensures Progress(out + [fe], front', corr', ks + [k], useDevice, recs, traceStart)
  {
    front', corr' := Correlate(front, corr, fe, k.linkedCorrelationId, out, LinksOf(ks));
    LinksNext(ks, k);
    NoNegativeNext(ks, k);
    PlainNext(out, fe, ks, k, useDevice);
    AllBuiltNext(out, fe, ks, k, recs, traceStart);
  }

  /** The loop body for an event whose name is not filtered out. */
  method BuildNext(k: KinetoEvent, useDevice: Option<string>, acc: MemRecordsAcc, recs: seq<KinetoEvent>, traceStart: int,
                   seen: array<bool>, out: seq<FunctionEvent>, front: seq<FunctionEvent>, corr: map<int, seq<FunctionEvent>>,
                   ghost ks: seq<KinetoEvent>)
    returns (fe: FunctionEvent, front': seq<FunctionEvent>, corr': map<int, seq<FunctionEvent>>)
    requires acc.Valid() && acc.starts == Starts(recs) && Marks(seen[..], recs, ks)
    requires Progress(out, front, corr, ks, useDevice, recs, traceStart)
    modifies seen
    ensures fresh(fe) && fe.Unlinked() && Marks(seen[..], recs, ks + [k])
    ensures k.linkedCorrelationId >= 0 ==> Progress(out + [fe], front', corr', ks + [k], useDevice, recs, traceStart)
  {
    ghost var flags := seen[..];
    fe := BuildEvent(k, useDevice, acc, recs, traceStart, seen);
    MarksNext(flags, seen[..], recs, ks, k);
    front', corr' := front, corr;
    if k.linkedCorrelationId >= 0 {
      front', corr' := AddEvent(fe, k, out, front, corr, ks, useDevice, recs, traceStart);
    }
  }

  lemma NegativeFound(events: seq<KinetoEvent>, i: nat)
    requires i < |events| && events[i].linkedCorrelationId < 0
    requires Listed(events[..i+1]) == Listed(events[..i]) + [events[i]]
    ensures !NoNegativeLink(Listed(events))
  {
    ListedPrefix(events, i + 1);
    NegativeInside(Listed(events), Listed(events[..i]), events[i]);
  }

  lemma NegativeInside(ks: seq<KinetoEvent>, pre: seq<KinetoEvent>, k: KinetoEvent)
    requires pre + [k] <= ks && k.linkedCorrelationId < 0
    ensures !NoNegativeLink(ks)
  {
    assert ks[|pre|] == (pre + [k])[|pre|];
  }

  /** The largest id, or 0 if that is larger. */
  function LargestId(fes: seq<FunctionEvent>): int {
    if fes == [] then 0 else
      var m, id := LargestId(fes[..|fes|-1]), fes[|fes|-1].id;
      if m < id then id else m
  }

  lemma {:induction false} LargestIdBounds(fes: seq<FunctionEvent>)
    ensures LargestId(fes) >= 0 && forall k :: 0 <= k < |fes| ==> fes[k].id <= LargestId(fes)
    ensures LargestId(fes) == 0 || exists k :: 0 <= k < |fes| && fes[k].id == LargestId(fes)
  {
    if fes != [] {
      var pre := fes[..|fes|-1];
      LargestIdBounds(pre);
      if k :| 0 <= k < |pre| && pre[k].id == LargestId(pre) { assert fes[k] == pre[k]; }
    }
  }

  /** The loop over the raw events. */
  method BuildEvents(events: seq<KinetoEvent>, useDevice: Option<string>, recs: seq<KinetoEvent>, traceStart: int, seen: array<bool>)
    returns (fes: Result<seq<FunctionEvent>, Error>, front: seq<FunctionEvent>, corr: map<int, seq<FunctionEvent>>, maxId: int)
    requires Marks(seen[..], recs, [])
    modifies seen
    ensures fes.Ok? <==> NoNegativeLink(Listed(events))
    ensures fes.Ok? ==> Fresh(fes.value) && Progress(fes.value, front, corr, Listed(events), useDevice, recs, traceStart)
    ensures fes.Ok? ==> maxId == LargestId(fes.value)
    ensures fes.Ok? ==> Marks(seen[..], recs, Listed(events))
  {
    var acc := new MemRecordsAcc(Starts(recs));
    var out: seq<FunctionEvent> := [];
    ghost var ks: seq<KinetoEvent> := [];
    front, corr, maxId := [], map[], 0;
    for i := 0 to |events|
      invariant ks == Listed(events[..i]) && Fresh(out) && Marks(seen[..], recs, ks)
      invariant Progress(out, front, corr, ks, useDevice, recs, traceStart) && maxId == LargestId(out)
    {
      var k := events[i];
      ListedNext(events, i);
      if FilterName(k.name) { continue; }
      var fe;
      fe, front, corr := BuildNext(k, useDevice, acc, recs, traceStart, seen, out, front, corr, ks);
      maxId := if maxId < fe.id then fe.id else maxId;
      if k.linkedCorrelationId < 0 {
        NegativeFound(events, i);
        return Err(NegativeCorrelationId(k.linkedCorrelationId)), front, corr, maxId;
      }
      AppendStaysFresh(out, fe);
      assert (out + [fe])[..|out|] == out;
      out := out + [fe];
      ks := ks + [k];
    }
    assert events[..|events|] == events;
    fes := Ok(out);
  }

  /**
   What the correlation pass leaves: a front-end event has its own stand-in kernel and those
   of the device events linked to it; a linked CPU event is in the thread of its last owner.
   */
  ghost predicate Associated(fes: seq<FunctionEvent>, ks: seq<KinetoEvent>, useDevice: Option<string>)
    requires |fes| == |ks|
    reads fes
  {
    var links := LinksOf(ks);
    var front := WithLink(fes, links, 0);
    && FrontIn(front, fes)
    && (forall k :: 0 <= k < |fes| ==> AssociatedAt(front, fes, ks, useDevice, k))
  }

  /** The same for event `k`. */
  ghost predicate AssociatedAt(front: seq<FunctionEvent>, fes: seq<FunctionEvent>, ks: seq<KinetoEvent>,
                               useDevice: Option<string>, k: nat)
    requires |fes| == |ks| && k < |fes|
    reads fes[k], front
  {
    var j := Adopter(front, fes, LinksOf(ks), k);
    && fes[k].kernels == Fallback(useDevice, ks[k]) + Received(front, fes, LinksOf(ks), k)
    && fes[k].thread == if j >= 0 then front[j].thread else ks[k].startThreadId
  }

  /** The last synchronous front-end CPU event with the id `c`, or -1. */
  function OwnerIndex(ks: seq<KinetoEvent>, c: int): (i: int)
    ensures -1 <= i < |ks|
  {
    if ks == [] then -1 else
      var k := ks[|ks|-1];
      if k.linkedCorrelationId == 0 && k.deviceType == CPU && !AsyncEvent(k) && k.correlationId == c then |ks| - 1
      else OwnerIndex(ks[..|ks|-1], c)
  }

  /** The thread that event `k` ends up in: that of its last owner if it is a linked CPU event with an owner. */
  function RawThread(ks: seq<KinetoEvent>, k: nat): int
    requires k < |ks|
  {
    var i := if ks[k].deviceType == CPU && ks[k].linkedCorrelationId > 0 then OwnerIndex(ks, ks[k].linkedCorrelationId) else -1;
    if i >= 0 then ks[i].startThreadId else ks[k].startThreadId
  }

  /** Event `i` can own the id `c`: an unlinked synchronous CPU event that carries it. */
  ghost predicate OwnsRaw(ks: seq<KinetoEvent>, i: int, c: int) {
    && 0 <= i < |ks| && ks[i].correlationId == c && ks[i].linkedCorrelationId == 0
    && ks[i].deviceType == CPU && !ks[i].isAsync && ks[i].startThreadId == ks[i].endThreadId
  }

  lemma {:induction false} OwnerIndexMeaning(ks: seq<KinetoEvent>, c: int, i: int)
    ensures OwnerIndex(ks, c) == i <==> (i == -1 || OwnsRaw(ks, i, c)) && forall j :: i < j < |ks| ==> !OwnsRaw(ks, j, c)
  {
    if ks != [] {
      var n := |ks| - 1;
      OwnerIndexMeaning(ks[..n], c, i);
      assert OwnsRaw(ks, n, c) || forall j :: j < n ==> (OwnsRaw(ks, j, c) <==> OwnsRaw(ks[..n], j, c));
    }
  }

  /** A linked CPU event ends up in the starting thread of the last event that can own its id; all others stay in their own. */
  lemma RawThreadMeaning(ks: seq<KinetoEvent>, k: nat, i: int)
    requires k < |ks|
    ensures var c := ks[k].linkedCorrelationId;
      if ks[k].deviceType == CPU && c > 0 && exists j :: OwnsRaw(ks, j, c)
      then OwnsRaw(ks, i, c) && (forall j :: i < j < |ks| ==> !OwnsRaw(ks, j, c)) ==> RawThread(ks, k) == ks[i].startThreadId
      else RawThread(ks, k) == ks[k].startThreadId
  {
    OwnerIndexMeaning(ks, ks[k].linkedCorrelationId, i);
    OwnerIndexMeaning(ks, ks[k].linkedCorrelationId, -1);
  }

  /** What `fe` and its raw event say about owning an id. */
  ghost predicate SameRole(fe: FunctionEvent, k: KinetoEvent) {
    fe.id == k.correlationId && (fe.Sync() <==> k.deviceType == CPU && !AsyncEvent(k))
  }

  /** The event at place `j` of `front` is event `i` of `fes`, an unlinked one, or there is none. */
  ghost predicate SameOwner(front: seq<FunctionEvent>, j: int, fes: seq<FunctionEvent>, ks: seq<KinetoEvent>, i: int) {
    if 0 <= j < |front| then 0 <= i < |fes| && i < |ks| && front[j] == fes[i] && ks[i].linkedCorrelationId == 0 else i < 0
  }

  lemma SameOwnerNext(front: seq<FunctionEvent>, fes: seq<FunctionEvent>, ks: seq<KinetoEvent>,
                      fe: FunctionEvent, k: KinetoEvent, c: int)
    requires |fes| == |ks| && SameRole(fe, k)
    requires SameOwner(front, LastOwner(front, c), fes, ks, OwnerIndex(ks, c))
    ensures var next := front + if k.linkedCorrelationId == 0 then [fe] else [];
      SameOwner(next, LastOwner(next, c), fes + [fe], ks + [k], OwnerIndex(ks + [k], c))
  {
    var next := front + if k.linkedCorrelationId == 0 then [fe] else [];
    assert (ks + [k])[..|ks|] == ks;
    if k.linkedCorrelationId == 0 { assert next[..|front|] == front; } else { assert next == front; }
  }

  lemma WithLinkLast(fes: seq<FunctionEvent>, links: seq<int>)
    requires |fes| == |links| > 0
    ensures var n := |fes| - 1;
      WithLink(fes, links, 0) == WithLink(fes[..n], links[..n], 0) + if links[n] == 0 then [fes[n]] else []
  {
  }

  lemma {:induction false} OwnerAmong(fes: seq<FunctionEvent>, ks: seq<KinetoEvent>, links: seq<int>, c: int)
    requires |fes| == |ks| == |links|
    requires forall k :: 0 <= k < |ks| ==> links[k] == ks[k].linkedCorrelationId && SameRole(fes[k], ks[k])
    ensures var front := WithLink(fes, links, 0);
      SameOwner(front, LastOwner(front, c), fes, ks, OwnerIndex(ks, c))
  {
    if fes != [] {
      var n := |fes| - 1;
      OwnerAmong(fes[..n], ks[..n], links[..n], c);
      var front := WithLink(fes[..n], links[..n], 0);
      SameOwnerNext(front, fes[..n], ks[..n], fes[n], ks[n], c);
      WithLinkLast(fes, links);
      assert fes == fes[..n] + [fes[n]] && ks == ks[..n] + [ks[n]];
    }
  }

  lemma OwnerFound(fes: seq<FunctionEvent>, ks: seq<KinetoEvent>, recs: seq<KinetoEvent>, traceStart: int, c: int)
    requires AllBuilt(fes, ks, recs, traceStart)
    ensures var front := WithLink(fes, LinksOf(ks), 0);
      SameOwner(front, LastOwner(front, c), fes, ks, OwnerIndex(ks, c))
  {
    forall k | 0 <= k < |ks| ensures SameRole(fes[k], ks[k]) { assert Built(fes[k], ks[k], recs, traceStart); }
    OwnerAmong(fes, ks, LinksOf(ks), c);
  }

  /** What the correlation pass makes of the threads, read off the raw events. */
  lemma ThreadsFromRaw(fes: seq<FunctionEvent>, ks: seq<KinetoEvent>, useDevice: Option<string>,
                       recs: seq<KinetoEvent>, traceStart: int, k: nat)
    requires AllBuilt(fes, ks, recs, traceStart) && Associated(fes, ks, useDevice) && k < |fes|
    ensures fes[k].thread == RawThread(ks, k)
  {
    var front := WithLink(fes, LinksOf(ks), 0);
    assert AssociatedAt(front, fes, ks, useDevice, k) && Built(fes[k], ks[k], recs, traceStart);
    OwnerFound(fes, ks, recs, traceStart, ks[k].linkedCorrelationId);
    var i := OwnerIndex(ks, ks[k].linkedCorrelationId);
    if i >= 0 { assert AssociatedAt(front, fes, ks, useDevice, i); }
  }

  lemma ServedIsAssociated(was: map<FunctionEvent, Holdings>, fes: seq<FunctionEvent>, ks: seq<KinetoEvent>, useDevice: Option<string>)
    requires |fes| == |ks| && Distinct(fes) && was.Keys == Elements(fes)
    requires forall k :: 0 <= k < |fes| ==> was[fes[k]] == Holdings(Fallback(useDevice, ks[k]), ks[k].startThreadId)
    requires FrontIn(WithLink(fes, LinksOf(ks), 0), fes)
    requires Served(was, WithLink(fes, LinksOf(ks), 0), fes, LinksOf(ks))
    ensures Associated(fes, ks, useDevice)
  {
    var links := LinksOf(ks);
    var front := WithLink(fes, links, 0);
    forall k | 0 <= k < |fes| ensures AssociatedAt(front, fes, ks, useDevice, k) {
      var j := Adopter(front, fes, links, k);
      if j >= 0 { FrontKeepsThread(was, front, front[j], fes, links); }
      assert Held(fes[k]) == After(was, front, fes, links, k);
    }
  }

  /** The loop over the raw events and the correlation pass. */
  method BuildMain(events: seq<KinetoEvent>, useDevice: Option<string>, recs: seq<KinetoEvent>, traceStart: int, seen: array<bool>)
    returns (fes: Result<seq<FunctionEvent>, Error>, maxId: int)
    requires Marks(seen[..], recs, [])
    modifies seen
    ensures fes.Ok? <==> NoNegativeLink(Listed(events))
    ensures fes.Ok? ==> Fresh(fes.value) && AllBuilt(fes.value, Listed(events), recs, traceStart)
    ensures fes.Ok? ==> Associated(fes.value, Listed(events), useDevice) && maxId == LargestId(fes.value)
    ensures fes.Ok? ==> Marks(seen[..], recs, Listed(events))
  {
    var front, corr;
    fes, front, corr, maxId := BuildEvents(events, useDevice, recs, traceStart, seen);
    if fes.Ok? {
      ghost var ks := Listed(events);
      WithLinkElements(fes.value, LinksOf(ks), 0);
      ghost var was := HoldingsOf(fes.value);
      Associate(front, corr, fes.value, LinksOf(ks));
      forall i | 0 <= i < |fes.value| ensures fresh(fes.value[i]) && fes.value[i].Unlinked() {}
      ServedIsAssociated(was, fes.value, ks, useDevice);
    }
  }

  /** The records among the first `n` that no CPU event covers. */
  ghost function Uncharged(recs: seq<KinetoEvent>, ks: seq<KinetoEvent>, n: nat): seq<KinetoEvent>
    requires n <= |recs|
  {
    if n == 0 then [] else Uncharged(recs, ks, n - 1) + if Charged(recs, ks, n - 1) then [] else [recs[n-1]]
  }

  ghost predicate AllForRecords(fes: seq<FunctionEvent>, rs: seq<KinetoEvent>, traceStart: int) {
    |fes| == |rs| && forall k :: 0 <= k < |fes| ==> BuiltForRecord(fes[k], rs[k], traceStart)
  }

  ghost predicate NoKernels(fes: seq<FunctionEvent>)
    reads fes
  {
    forall k :: 0 <= k < |fes| ==> fes[k].kernels == []
  }

  /** The events are numbered on from `m`. */
  ghost predicate NumberedFrom(fes: seq<FunctionEvent>, m: int) {
    forall k :: 0 <= k < |fes| ==> fes[k].id == m + 1 + k
  }

  /** The loops that output top-level events for records; `maxId` numbers them. */
  method BuildTopLevel(recs: seq<KinetoEvent>, seen: array<bool>, traceStart: int, maxId: int, ghost ks: seq<KinetoEvent>)
    returns (fes: seq<FunctionEvent>, maxId': int)
    requires Marks(seen[..], recs, ks)
    ensures Fresh(fes) && AllForRecords(fes, Uncharged(recs, ks, |recs|), traceStart) && NoKernels(fes)
    ensures maxId' == maxId + |fes| && NumberedFrom(fes, maxId)
  {
    fes, maxId' := [], maxId;
    for j := 0 to |recs|
      invariant Fresh(fes) && AllForRecords(fes, Uncharged(recs, ks, j), traceStart) && NoKernels(fes)
      invariant maxId' == maxId + |fes| && NumberedFrom(fes, maxId)
    {
      if !seen[j] {
        maxId' := maxId' + 1;
        var r := recs[j];
        var fe := new FunctionEvent(maxId', r.name, r.startThreadId, r.startNs - traceStart, r.startNs - traceStart,
          false, CPU, 0, -1, CpuBytes(r), DeviceBytes(r));
        fes := fes + [fe];
      }
    }
  }

  /** What `_parse_kineto_results` returns: events, uncovered memory records, out-of-memory records. */
  ghost predicate Parsed(all: seq<FunctionEvent>, events: seq<KinetoEvent>, traceStart: int,
                         main: seq<FunctionEvent>, top: seq<FunctionEvent>, oom: seq<FunctionEvent>)
  {
    var recs := Named(events, MEMORY_EVENT_NAME);
    && all == SortBy<FunctionEvent>(main + top + oom, SweepKey)
    && Distinct(main + top + oom)
    && AllBuilt(main, Listed(events), recs, traceStart)
    && AllForRecords(top, Uncharged(recs, Listed(events), |recs|), traceStart)
    && AllForRecords(oom, Named(events, OUT_OF_MEMORY_EVENT_NAME), traceStart)
  }

  lemma {:induction false} NothingCharged(recs: seq<KinetoEvent>, n: nat)
    requires n <= |recs|
    ensures Uncharged(recs, [], n) == recs[..n]
  {
    if n > 0 {
      NothingCharged(recs, n - 1);
      assert recs[..n] == recs[..n-1] + [recs[n-1]];
    }
  }

  /** The events of uncovered memory records, then those of out-of-memory records. */
  method BuildRecordEvents(recs: seq<KinetoEvent>, ooms: seq<KinetoEvent>, seen: array<bool>, traceStart: int, maxId: int,
                           ghost ks: seq<KinetoEvent>)
    returns (top: seq<FunctionEvent>, oom: seq<FunctionEvent>)
    requires Marks(seen[..], recs, ks)
    ensures AllForRecords(top, Uncharged(recs, ks, |recs|), traceStart) && AllForRecords(oom, ooms, traceStart)
    ensures NoKernels(top) && NoKernels(oom) && Fresh(top + oom) && NumberedFrom(top + oom, maxId)
  {
    var maxId';
    top, maxId' := BuildTopLevel(recs, seen, traceStart, maxId, ks);
    var unseen := new bool[|ooms|](_ => false);
    oom, maxId' := BuildTopLevel(ooms, unseen, traceStart, maxId', []);
    NothingCharged(ooms, |ooms|);
    assert ooms[..|ooms|] == ooms;
    JoinStaysFresh(top, oom);
  }

  /** By start, and at equal starts the one that ends later first. */
  ghost predicate StartsThenLongest(all: seq<FunctionEvent>) {
    forall i, j :: 0 <= i < j < |all| ==> all[i].start < all[j].start || (all[i].start == all[j].start && all[i].end >= all[j].end)
  }

  lemma SweepOrder(es: seq<FunctionEvent>)
    ensures StartsThenLongest(SortBy<FunctionEvent>(es, SweepKey))
  {
    var all := SortBy<FunctionEvent>(es, SweepKey);
    SortBySorts<FunctionEvent>(es, SweepKey);
    forall i, j | 0 <= i < j < |all|
      ensures all[i].start < all[j].start || (all[i].start == all[j].start && all[i].end >= all[j].end)
    {
      assert Leq(SweepKey(all[i]), SweepKey(all[j]));
    }
  }

  /** profile._parse_kineto_results. */
  method ParseKinetoResults(events: seq<KinetoEvent>, useDevice: Option<string>, traceStart: int)
    returns (r: Result<seq<FunctionEvent>, Error>,
             ghost main: seq<FunctionEvent>, ghost top: seq<FunctionEvent>, ghost oom: seq<FunctionEvent>)
    ensures r.Ok? <==> forall k :: 0 <= k < |Listed(events)| ==> Listed(events)[k].linkedCorrelationId >= 0
    ensures r.Ok? ==> Parsed(r.value, events, traceStart, main, top, oom) && StartsThenLongest(r.value)
    ensures r.Ok? ==> Associated(main, Listed(events), useDevice) && NoKernels(top) && NoKernels(oom)
    ensures r.Ok? ==> Fresh(r.value) && forall k :: 0 <= k < |top + oom| ==> (top + oom)[k].id == LargestId(main) + 1 + k
  {
    var recs, ooms := Named(events, MEMORY_EVENT_NAME), Named(events, OUT_OF_MEMORY_EVENT_NAME);
    var seen := new bool[|recs|](_ => false);
    main, top, oom := [], [], [];
    var built, maxId := BuildMain(events, useDevice, recs, traceStart, seen);
    if built.Err? { return Err(built.error), main, top, oom; }
    var uncovered, ooes := BuildRecordEvents(recs, ooms, seen, traceStart, maxId, Listed(events));
    main, top, oom := built.value, uncovered, ooes;
    var all := built.value + (uncovered + ooes);
    JoinStaysFresh(main, top + oom);
    assert all == main + top + oom;
    SweepOrder(all);
    r := Ok(SortBy<FunctionEvent>(all, SweepKey));
    SortedStaysFresh(all);
  }

  twostate lemma JoinStaysFresh(new s: seq<FunctionEvent>, new t: seq<FunctionEvent>)
    requires Fresh(s) && Fresh(t) && Elements(s) !! Elements(t)
    ensures Fresh(s + t)
  {
    DistinctJoin(s, t);
  }

  twostate lemma SortedStaysFresh(new s: seq<FunctionEvent>)
    requires Fresh(s)
    ensures Fresh(SortBy<FunctionEvent>(s, SweepKey))
  {
    var t := SortBy<FunctionEvent>(s, SweepKey);
    SortByDistinct<FunctionEvent>(s, SweepKey);
    forall i | 0 <= i < |t| ensures fresh(t[i]) && t[i].Unlinked() {
      SortByIndex<FunctionEvent>(s, SweepKey, i);
    }
  }
}
