/** EventList.key_averages and total_average: grouping events by key and adding up their counters. */
module KeyAverages {
  import opened Wrappers
  import opened Sums

  /** The counters that FunctionEventAvg.add adds up. */
  datatype Totals = Totals(
    cpuTime: int, deviceTime: int, selfCpuTime: int, selfDeviceTime: int,
    cpuMemory: int, deviceMemory: int, selfCpuMemory: int, selfDeviceMemory: int,
    count: int, flops: Option<int>)

  datatype Field =
    | CpuTime | DeviceTime | SelfCpuTime | SelfDeviceTime
    | CpuMemory | DeviceMemory | SelfCpuMemory | SelfDeviceMemory | Count | Flops

  /** One counter; missing flops count as none. */
  function Get(t: Totals, f: Field): int {
    match f
    case CpuTime => t.cpuTime
    case DeviceTime => t.deviceTime
    case SelfCpuTime => t.selfCpuTime
    case SelfDeviceTime => t.selfDeviceTime
    case CpuMemory => t.cpuMemory
    case DeviceMemory => t.deviceMemory
    case SelfCpuMemory => t.selfCpuMemory
    case SelfDeviceMemory => t.selfDeviceMemory
    case Count => t.count
    case Flops => if t.flops.Some? then t.flops.value else 0
  }

  const ZERO := Totals(0, 0, 0, 0, 0, 0, 0, 0, 0, Some(0))

  function AddTotals(a: Totals, b: Totals): Totals {
    Totals(a.cpuTime + b.cpuTime, a.deviceTime + b.deviceTime, a.selfCpuTime + b.selfCpuTime,
           a.selfDeviceTime + b.selfDeviceTime, a.cpuMemory + b.cpuMemory, a.deviceMemory + b.deviceMemory,
           a.selfCpuMemory + b.selfCpuMemory, a.selfDeviceMemory + b.selfDeviceMemory, a.count + b.count,
           if a.flops.None? then b.flops else if b.flops.Some? then Some(a.flops.value + b.flops.value) else a.flops)
  }

  lemma AddTotalsGet(a: Totals, b: Totals, f: Field)
    ensures Get(AddTotals(a, b), f) == Get(a, f) + Get(b, f)
  {
  }

  /** What grouping looks at; the other key parts are already strings. */
  datatype Event = Event(
    key: string, nodeId: string, deviceType: string, isLegacy: string, isUserAnnotation: string,
    inputShapes: string, stack: seq<string>, totals: Totals)

  type GroupKey = seq<string>

  function GetKey(e: Event, byShapes: bool, stackN: nat): GroupKey {
    [e.key, e.nodeId, e.deviceType, e.isLegacy, e.isUserAnnotation]
    + (if byShapes then [e.inputShapes] else [])
    + (if stackN > 0 then Truncated(e.stack, stackN) else [])
  }

  /** `stack[:n]` */
  function Truncated(stack: seq<string>, n: nat): seq<string> { if n < |stack| then stack[..n] else stack }

  /**
   Two events share a group exactly if name, node, device type and the two flags agree, and, as far
   as the call asks for them, shapes and the first `n` stack entries.
   */
  lemma SameKeyIff(a: Event, b: Event, byShapes: bool, stackN: nat)
    ensures GetKey(a, byShapes, stackN) == GetKey(b, byShapes, stackN) <==>
      && a.key == b.key && a.nodeId == b.nodeId && a.deviceType == b.deviceType
      && a.isLegacy == b.isLegacy && a.isUserAnnotation == b.isUserAnnotation
      && (byShapes ==> a.inputShapes == b.inputShapes)
      && (stackN > 0 ==>
            (if stackN < |a.stack| then a.stack[..stackN] else a.stack) == (if stackN < |b.stack| then b.stack[..stackN] else b.stack))
  {
    var x, y := GetKey(a, byShapes, stackN), GetKey(b, byShapes, stackN);
    var n := if byShapes then 6 else 5;
    var sx, sy := if stackN > 0 then Truncated(a.stack, stackN) else [], if stackN > 0 then Truncated(b.stack, stackN) else [];
    assert x[n..] == sx && y[n..] == sy;
    KeyParts(a, byShapes, stackN);
    KeyParts(b, byShapes, stackN);
  }

  lemma KeyParts(e: Event, byShapes: bool, stackN: nat)
    ensures var k := GetKey(e, byShapes, stackN);
      && |k| >= 5 && k[0] == e.key && k[1] == e.nodeId && k[2] == e.deviceType && k[3] == e.isLegacy && k[4] == e.isUserAnnotation
      && (byShapes ==> |k| >= 6 && k[5] == e.inputShapes)
  {
  }

  class FunctionEventAvg {
    var key: Option<string>
    var totals: Totals
    var stack: seq<string>
    var inputShapes: string

    constructor ()
      ensures key == None && totals == ZERO && stack == [] && inputShapes == ""
    {
      key, totals, stack, inputShapes := None, ZERO, [], "";
    }

    /** `add`: the assertion on the key fails exactly if there is a key already and it differs. */
    method Add(otherKey: string, other: Totals, otherStack: seq<string>, otherShapes: string) returns (asserted: bool)
      modifies this
      ensures asserted == (old(key) == None || old(key) == Some(otherKey))
      ensures asserted ==> key == Some(otherKey) && totals == AddTotals(old(totals), other)
      ensures stack == (if old(key) == None then otherStack else old(stack))
      ensures inputShapes == (if old(key) == None then otherShapes else old(inputShapes))
    {
      if key.None? {
        key, stack, inputShapes := Some(otherKey), otherStack, otherShapes;
      }
      if key != Some(otherKey) { return false; }
      totals := AddTotals(totals, other);
      asserted := true;
    }
  }

  // ---------------------------------------------------------------- key_averages

  ghost function Share(byShapes: bool, stackN: nat, k: GroupKey, f: Field): Event -> int {
    (e: Event) => if GetKey(e, byShapes, stackN) == k then Get(e.totals, f) else 0
  }

  /** The total of one counter over the events with key `k`. */
  ghost function GroupSum(events: seq<Event>, byShapes: bool, stackN: nat, k: GroupKey, f: Field): int {
    SeqSum(events, Share(byShapes, stackN, k, f))
  }

  ghost function Whole(f: Field): Event -> int { (e: Event) => Get(e.totals, f) }

  /** Each listed key once, and group `i` holds what the events with key `i` add up to. */
  ghost predicate Grouped(keys: seq<GroupKey>, avgs: seq<FunctionEventAvg>, events: seq<Event>, byShapes: bool, stackN: nat)
    reads avgs
  {
    && |keys| == |avgs| && Distinct(keys) && Distinct(avgs)
    && (forall i :: 0 <= i < |keys| ==> |keys[i]| > 0 && avgs[i].key == Some(keys[i][0]))
    && (forall i, f :: 0 <= i < |keys| ==> Get(avgs[i].totals, f) == GroupSum(events, byShapes, stackN, keys[i], f))
    && (forall j :: 0 <= j < |events| ==> GetKey(events[j], byShapes, stackN) in keys)
  }

  /** The stack and the shapes that a group shows. */
  datatype Label = Label(stack: seq<string>, inputShapes: string)

  function LabelsOf(avgs: seq<FunctionEventAvg>): (ls: seq<Label>)
    reads avgs
    ensures |ls| == |avgs| && forall i :: 0 <= i < |ls| ==> ls[i] == Label(avgs[i].stack, avgs[i].inputShapes)
  {
    seq(|avgs|, i requires 0 <= i < |avgs| reads avgs => Label(avgs[i].stack, avgs[i].inputShapes))
  }

  /** Each group shows those of the first event with its key. */
  ghost predicate Labelled(keys: seq<GroupKey>, ls: seq<Label>, events: seq<Event>, byShapes: bool, stackN: nat) {
    |keys| == |ls| && forall i :: 0 <= i < |keys| ==> LabelledBy(ls[i], events, keys[i], byShapes, stackN)
  }

  ghost predicate LabelledBy(l: Label, events: seq<Event>, k: GroupKey, byShapes: bool, stackN: nat) {
    exists j :: IsFirst(events, k, byShapes, stackN, j) && l == Label(events[j].stack, events[j].inputShapes)
  }

  /** Event `j` is the first with key `k`. */
  ghost predicate IsFirst(events: seq<Event>, k: GroupKey, byShapes: bool, stackN: nat, j: int) {
    && 0 <= j < |events| && GetKey(events[j], byShapes, stackN) == k
    && forall i :: 0 <= i < j ==> GetKey(events[i], byShapes, stackN) != k
  }

  lemma StillFirst(events: seq<Event>, e: Event, k: GroupKey, byShapes: bool, stackN: nat)
    ensures forall j :: IsFirst(events, k, byShapes, stackN, j) ==> IsFirst(events + [e], k, byShapes, stackN, j)
  {
  }

  lemma NowFirst(events: seq<Event>, e: Event, byShapes: bool, stackN: nat)
    requires forall j :: 0 <= j < |events| ==> GetKey(events[j], byShapes, stackN) != GetKey(e, byShapes, stackN)
    ensures IsFirst(events + [e], GetKey(e, byShapes, stackN), byShapes, stackN, |events|)
  {
  }

  lemma StillLabelled(keys: seq<GroupKey>, ls: seq<Label>, events: seq<Event>, e: Event, byShapes: bool, stackN: nat)
    requires Labelled(keys, ls, events, byShapes, stackN)
    ensures Labelled(keys, ls, events + [e], byShapes, stackN)
  {
    forall i | 0 <= i < |keys| ensures LabelledBy(ls[i], events + [e], keys[i], byShapes, stackN) {
      assert LabelledBy(ls[i], events, keys[i], byShapes, stackN);
      StillFirst(events, e, keys[i], byShapes, stackN);
      var j :| IsFirst(events, keys[i], byShapes, stackN, j) && ls[i] == Label(events[j].stack, events[j].inputShapes);
      assert IsFirst(events + [e], keys[i], byShapes, stackN, j) && (events + [e])[j] == events[j];
    }
  }

  /** A new group shows the stack and the shapes of its event. */
  lemma NewlyLabelled(keys: seq<GroupKey>, ls: seq<Label>, events: seq<Event>, e: Event, byShapes: bool, stackN: nat)
    requires Labelled(keys, ls, events, byShapes, stackN)
    requires forall j :: 0 <= j < |events| ==> GetKey(events[j], byShapes, stackN) != GetKey(e, byShapes, stackN)
    ensures Labelled(keys + [GetKey(e, byShapes, stackN)], ls + [Label(e.stack, e.inputShapes)], events + [e], byShapes, stackN)
  {
    StillLabelled(keys, ls, events, e, byShapes, stackN);
    NowFirst(events, e, byShapes, stackN);
    assert (events + [e])[|events|] == e;
    assert LabelledBy(Label(e.stack, e.inputShapes), events + [e], GetKey(e, byShapes, stackN), byShapes, stackN);
  }

  lemma GroupSumNext(events: seq<Event>, e: Event, byShapes: bool, stackN: nat, k: GroupKey, f: Field)
    ensures SumMoves(events, e, byShapes, stackN, k, f)
  {
    assert (events + [e])[..|events|] == events;
  }

  lemma {:induction false} GroupSumNone(events: seq<Event>, byShapes: bool, stackN: nat, k: GroupKey, f: Field)
    requires forall j :: 0 <= j < |events| ==> GetKey(events[j], byShapes, stackN) != k
    ensures GroupSum(events, byShapes, stackN, k, f) == 0
  {
    if events != [] { GroupSumNone(events[..|events|-1], byShapes, stackN, k, f); }
  }

  function IndexOf(keys: seq<GroupKey>, k: GroupKey): (i: nat)
    requires k in keys
    ensures i < |keys| && keys[i] == k
  {
    if keys[0] == k then 0 else
      assert k in keys[1..];
      1 + IndexOf(keys[1..], k)
  }

  lemma GroupSumsNext(keys: seq<GroupKey>, events: seq<Event>, e: Event, byShapes: bool, stackN: nat)
    ensures forall i, f :: 0 <= i < |keys| ==> SumMoves(events, e, byShapes, stackN, keys[i], f)
  {
    forall i, f | 0 <= i < |keys| ensures SumMoves(events, e, byShapes, stackN, keys[i], f) {
      GroupSumNext(events, e, byShapes, stackN, keys[i], f);
    }
  }

  ghost predicate SumMoves(events: seq<Event>, e: Event, byShapes: bool, stackN: nat, k: GroupKey, f: Field) {
    GroupSum(events + [e], byShapes, stackN, k, f)
    == GroupSum(events, byShapes, stackN, k, f) + if GetKey(e, byShapes, stackN) == k then Get(e.totals, f) else 0
  }

  /** `stats[get_key(evt, ...)].add(evt)`; the assertion in `add` holds because equal keys begin with equal names. */
  method AddEvent(keys: seq<GroupKey>, avgs: seq<FunctionEventAvg>, e: Event, byShapes: bool, stackN: nat, ghost events: seq<Event>)
    returns (asserted: bool, keys': seq<GroupKey>, avgs': seq<FunctionEventAvg>)
    requires Grouped(keys, avgs, events, byShapes, stackN) && Labelled(keys, LabelsOf(avgs), events, byShapes, stackN)
    modifies avgs
    ensures asserted && Grouped(keys', avgs', events + [e], byShapes, stackN)
    ensures Labelled(keys', LabelsOf(avgs'), events + [e], byShapes, stackN)
    ensures forall i :: 0 <= i < |avgs'| ==> avgs'[i] in avgs || fresh(avgs'[i])
  {
    var k := GetKey(e, byShapes, stackN);
    ghost var ls := LabelsOf(avgs);
    if k in keys {
      StillLabelled(keys, ls, events, e, byShapes, stackN);
      asserted := JoinGroup(keys, avgs, e, byShapes, stackN, events);
      keys', avgs' := keys, avgs;
    } else {
      NewlyLabelled(keys, ls, events, e, byShapes, stackN);
      asserted, keys', avgs' := OpenGroup(keys, avgs, e, byShapes, stackN, events);
    }
  }

  method JoinGroup(keys: seq<GroupKey>, avgs: seq<FunctionEventAvg>, e: Event, byShapes: bool, stackN: nat, ghost events: seq<Event>)
    returns (asserted: bool)
    requires Grouped(keys, avgs, events, byShapes, stackN) && GetKey(e, byShapes, stackN) in keys
    modifies avgs
    ensures asserted && Grouped(keys, avgs, events + [e], byShapes, stackN) && LabelsOf(avgs) == old(LabelsOf(avgs))
  {
    var k := GetKey(e, byShapes, stackN);
    assert k[0] == e.key;
    GroupSumsNext(keys, events, e, byShapes, stackN);
    asserted := AddTo(avgs, IndexOf(keys, k), e);
    assert forall i, f :: 0 <= i < |keys| ==> SumMoves(events, e, byShapes, stackN, keys[i], f);
  }

  method OpenGroup(keys: seq<GroupKey>, avgs: seq<FunctionEventAvg>, e: Event, byShapes: bool, stackN: nat, ghost events: seq<Event>)
    returns (asserted: bool, keys': seq<GroupKey>, avgs': seq<FunctionEventAvg>)
    requires Grouped(keys, avgs, events, byShapes, stackN) && GetKey(e, byShapes, stackN) !in keys
    ensures asserted && Grouped(keys', avgs', events + [e], byShapes, stackN) && keys' == keys + [GetKey(e, byShapes, stackN)]
    ensures LabelsOf(avgs') == LabelsOf(avgs) + [Label(e.stack, e.inputShapes)]
    ensures |avgs'| == |avgs| + 1 && avgs'[..|avgs|] == avgs && fresh(avgs'[|avgs|])
  {
    var k := GetKey(e, byShapes, stackN);
    assert k[0] == e.key;
    GroupSumsNext(keys, events, e, byShapes, stackN);
    var avg;
    asserted, avg := NewGroup(e);
    keys', avgs' := keys + [k], avgs + [avg];
    forall f ensures Get(avg.totals, f) == GroupSum(events + [e], byShapes, stackN, k, f) {
      GroupSumNone(events, byShapes, stackN, k, f);
      GroupSumNext(events, e, byShapes, stackN, k, f);
    }
    assert LabelsOf(avgs')[..|avgs|] == LabelsOf(avgs);
  }

  /** The defaultdict makes a new FunctionEventAvg for a new key. */
  method NewGroup(e: Event) returns (asserted: bool, avg: FunctionEventAvg)
    ensures asserted && fresh(avg) && avg.key == Some(e.key) && avg.stack == e.stack && avg.inputShapes == e.inputShapes
    ensures forall f :: Get(avg.totals, f) == Get(e.totals, f)
  {
    avg := new FunctionEventAvg();
    asserted := avg.Add(e.key, e.totals, e.stack, e.inputShapes);
    forall f ensures Get(avg.totals, f) == Get(e.totals, f) { AddTotalsGet(ZERO, e.totals, f); }
  }

  /** Adds an event to group `n`; the other groups keep their counters. */
  method AddTo(avgs: seq<FunctionEventAvg>, n: nat, e: Event) returns (asserted: bool)
    requires n < |avgs| && Distinct(avgs) && avgs[n].key == Some(e.key)
    modifies avgs[n]
    ensures asserted && avgs[n].key == Some(e.key)
    ensures forall f :: Get(avgs[n].totals, f) == old(Get(avgs[n].totals, f)) + Get(e.totals, f)
    ensures forall i :: 0 <= i < |avgs| && i != n ==> avgs[i].key == old(avgs[i].key) && avgs[i].totals == old(avgs[i].totals)
    ensures LabelsOf(avgs) == old(LabelsOf(avgs))
  {
    ghost var before := avgs[n].totals;
    asserted := avgs[n].Add(e.key, e.totals, e.stack, e.inputShapes);
    forall f ensures Get(avgs[n].totals, f) == Get(before, f) + Get(e.totals, f) { AddTotalsGet(before, e.totals, f); }
  }

  /** What is left of a group's label at the end. */
  function Trimmed(l: Label, byShapes: bool, stackN: nat): Label {
    Label(if stackN < |l.stack| then l.stack[..stackN] else l.stack, if byShapes then l.inputShapes else "")
  }

  /** The last loop of key_averages, over the groups. */
  method TrimLabels(avgs: seq<FunctionEventAvg>, byShapes: bool, stackN: nat)
    requires Distinct(avgs)
    modifies avgs
    ensures forall i :: 0 <= i < |avgs| ==> avgs[i].key == old(avgs[i].key) && avgs[i].totals == old(avgs[i].totals)
    ensures forall i :: 0 <= i < |avgs| ==> LabelsOf(avgs)[i] == Trimmed(old(LabelsOf(avgs)[i]), byShapes, stackN)
  {
    for i := 0 to |avgs|
      invariant forall n :: 0 <= n < |avgs| ==> avgs[n].key == old(avgs[n].key) && avgs[n].totals == old(avgs[n].totals)
      invariant forall n :: 0 <= n < |avgs| ==>
        Label(avgs[n].stack, avgs[n].inputShapes)
        == if n < i then Trimmed(old(LabelsOf(avgs)[n]), byShapes, stackN) else old(LabelsOf(avgs)[n])
    {
      avgs[i].stack := Truncated(avgs[i].stack, stackN);
      if !byShapes { avgs[i].inputShapes := ""; }
    }
  }

  /** The loop over the events. */
  method GroupAll(events: seq<Event>, byShapes: bool, stackN: nat)
    returns (asserted: bool, keys: seq<GroupKey>, avgs: seq<FunctionEventAvg>)
    ensures asserted && Grouped(keys, avgs, events, byShapes, stackN) && Labelled(keys, LabelsOf(avgs), events, byShapes, stackN)
    ensures forall i :: 0 <= i < |avgs| ==> fresh(avgs[i])
  {
    keys, avgs, asserted := [], [], true;
    for j := 0 to |events|
      invariant asserted && Grouped(keys, avgs, events[..j], byShapes, stackN)
      invariant Labelled(keys, LabelsOf(avgs), events[..j], byShapes, stackN)
      invariant forall i :: 0 <= i < |avgs| ==> fresh(avgs[i])
    {
      assert events[..j+1] == events[..j] + [events[j]];
      asserted, keys, avgs := AddEvent(keys, avgs, events[j], byShapes, stackN, events[..j]);
    }
    assert events[..|events|] == events;
  }

  lemma LabelAtEnd(keys: seq<GroupKey>, ls: seq<Label>, events: seq<Event>, byShapes: bool, stackN: nat, i: nat, l: Label)
    requires Labelled(keys, ls, events, byShapes, stackN) && i < |keys| && l == Trimmed(ls[i], byShapes, stackN)
    ensures exists j ::
      && IsFirst(events, keys[i], byShapes, stackN, j)
      && l == Label(if stackN < |events[j].stack| then events[j].stack[..stackN] else events[j].stack,
                    if byShapes then events[j].inputShapes else "")
  {
    assert LabelledBy(ls[i], events, keys[i], byShapes, stackN);
    var j :| IsFirst(events, keys[i], byShapes, stackN, j) && ls[i] == Label(events[j].stack, events[j].inputShapes);
  }

  /**
   EventList.key_averages: each event lands in the group of its key, and in no other; a group shows
   the stack of its first event, cut to the entries asked for, and its shapes if asked for.
   */
  method KeyAveragesOf(events: seq<Event>, byShapes: bool, stackN: nat)
    returns (asserted: bool, keys: seq<GroupKey>, avgs: seq<FunctionEventAvg>)
    ensures asserted && Grouped(keys, avgs, events, byShapes, stackN)
    ensures forall i :: 0 <= i < |keys| ==> exists j ::
      && IsFirst(events, keys[i], byShapes, stackN, j)
      && LabelsOf(avgs)[i] == Label(if stackN < |events[j].stack| then events[j].stack[..stackN] else events[j].stack,
                                    if byShapes then events[j].inputShapes else "")
    ensures forall i :: 0 <= i < |avgs| ==> fresh(avgs[i])
  {
    asserted, keys, avgs := GroupAll(events, byShapes, stackN);
    ghost var ls := LabelsOf(avgs);
    TrimLabels(avgs, byShapes, stackN);
    forall i | 0 <= i < |keys| ensures exists j ::
      && IsFirst(events, keys[i], byShapes, stackN, j)
      && LabelsOf(avgs)[i] == Label(if stackN < |events[j].stack| then events[j].stack[..stackN] else events[j].stack,
                                    if byShapes then events[j].inputShapes else "")
    {
      LabelAtEnd(keys, ls, events, byShapes, stackN, i, LabelsOf(avgs)[i]);
    }
  }

  /** The sum of a counter, given by `w`, over the events with key `k`. */
  ghost function SumOver(events: seq<Event>, byShapes: bool, stackN: nat, k: GroupKey, w: Totals -> int): int {
    if events == [] then 0 else
      var e := events[|events|-1];
      SumOver(events[..|events|-1], byShapes, stackN, k, w) + if GetKey(e, byShapes, stackN) == k then w(e.totals) else 0
  }

  lemma {:induction false} SumOverIsGroupSum(events: seq<Event>, byShapes: bool, stackN: nat, k: GroupKey, f: Field, w: Totals -> int)
    requires forall t: Totals :: Get(t, f) == w(t)
    ensures GroupSum(events, byShapes, stackN, k, f) == SumOver(events, byShapes, stackN, k, w)
  {
    if events != [] {
      SumOverIsGroupSum(events[..|events|-1], byShapes, stackN, k, f, w);
    }
  }

  /** The counters of a group one by one. */
  lemma GroupCounters(keys: seq<GroupKey>, avgs: seq<FunctionEventAvg>, events: seq<Event>, byShapes: bool, stackN: nat, i: nat)
    requires Grouped(keys, avgs, events, byShapes, stackN) && i < |keys|
    ensures var t, k := avgs[i].totals, keys[i];
      && t.cpuTime == SumOver(events, byShapes, stackN, k, (x: Totals) => x.cpuTime)
      && t.deviceTime == SumOver(events, byShapes, stackN, k, (x: Totals) => x.deviceTime)
      && t.selfCpuTime == SumOver(events, byShapes, stackN, k, (x: Totals) => x.selfCpuTime)
      && t.selfDeviceTime == SumOver(events, byShapes, stackN, k, (x: Totals) => x.selfDeviceTime)
      && t.cpuMemory == SumOver(events, byShapes, stackN, k, (x: Totals) => x.cpuMemory)
    ensures var t, k := avgs[i].totals, keys[i];
      && t.deviceMemory == SumOver(events, byShapes, stackN, k, (x: Totals) => x.deviceMemory)
      && t.selfCpuMemory == SumOver(events, byShapes, stackN, k, (x: Totals) => x.selfCpuMemory)
      && t.selfDeviceMemory == SumOver(events, byShapes, stackN, k, (x: Totals) => x.selfDeviceMemory)
      && t.count == SumOver(events, byShapes, stackN, k, (x: Totals) => x.count)
      && (t.flops.Some? ==>
            t.flops.value == SumOver(events, byShapes, stackN, k, (x: Totals) => if x.flops.Some? then x.flops.value else 0))
  {
    var t, k := avgs[i].totals, keys[i];
    assert forall f :: Get(t, f) == GroupSum(events, byShapes, stackN, k, f);
    SumOverIsGroupSum(events, byShapes, stackN, k, CpuTime, (x: Totals) => x.cpuTime);
    SumOverIsGroupSum(events, byShapes, stackN, k, DeviceTime, (x: Totals) => x.deviceTime);
    SumOverIsGroupSum(events, byShapes, stackN, k, SelfCpuTime, (x: Totals) => x.selfCpuTime);
    SumOverIsGroupSum(events, byShapes, stackN, k, SelfDeviceTime, (x: Totals) => x.selfDeviceTime);
    SumOverIsGroupSum(events, byShapes, stackN, k, CpuMemory, (x: Totals) => x.cpuMemory);
    SumOverIsGroupSum(events, byShapes, stackN, k, DeviceMemory, (x: Totals) => x.deviceMemory);
    SumOverIsGroupSum(events, byShapes, stackN, k, SelfCpuMemory, (x: Totals) => x.selfCpuMemory);
    SumOverIsGroupSum(events, byShapes, stackN, k, SelfDeviceMemory, (x: Totals) => x.selfDeviceMemory);
    SumOverIsGroupSum(events, byShapes, stackN, k, Count, (x: Totals) => x.count);
    SumOverIsGroupSum(events, byShapes, stackN, k, Flops, (x: Totals) => if x.flops.Some? then x.flops.value else 0);
  }

  // ---------------------------------------------------------------- total_average

  datatype Item = Item(key: string, totals: Totals)

  ghost function ItemField(f: Field): Item -> int { (x: Item) => Get(x.totals, f) }

  /** EventList.total_average: the key is reset after every event, so the assertion in `add` holds. */
  method TotalAverage(items: seq<Item>) returns (asserted: bool, total: FunctionEventAvg)
    ensures asserted && fresh(total) && total.key == Some("Total")
    ensures forall f :: Get(total.totals, f) == SeqSum(items, ItemField(f))
  {
    total := new FunctionEventAvg();
    asserted := true;
    for i := 0 to |items|
      invariant asserted && total.key == None
      invariant forall f :: Get(total.totals, f) == SeqSum(items[..i], ItemField(f))
    {
      ghost var before := total.totals;
      asserted := total.Add(items[i].key, items[i].totals, [], "");
      total.key := None;
      assert items[..i+1][..i] == items[..i];
      forall f ensures Get(total.totals, f) == SeqSum(items[..i+1], ItemField(f)) {
        AddTotalsGet(before, items[i].totals, f);
      }
    }
    assert items[..|items|] == items;
    total.key := Some("Total");
  }

  function EventItems(events: seq<Event>): (items: seq<Item>)
    ensures |items| == |events| && forall i :: 0 <= i < |items| ==> items[i] == Item(events[i].key, events[i].totals)
  {
    seq(|events|, i requires 0 <= i < |events| => Item(events[i].key, events[i].totals))
  }

  /** The groups as items of a list of their own. */
  ghost predicate AvgItems(avgs: seq<FunctionEventAvg>, items: seq<Item>)
    reads avgs
  {
    |items| == |avgs| && forall i :: 0 <= i < |avgs| ==> avgs[i].key == Some(items[i].key) && avgs[i].totals == items[i].totals
  }

  ghost function OfKey(events: seq<Event>, byShapes: bool, stackN: nat, f: Field): GroupKey -> int {
    (k: GroupKey) => GroupSum(events, byShapes, stackN, k, f)
  }

  ghost function IfKey(k0: GroupKey, v: int): GroupKey -> int { (k: GroupKey) => if k == k0 then v else 0 }

  lemma {:induction false} OneKey(keys: seq<GroupKey>, k0: GroupKey, v: int)
    requires Distinct(keys)
    ensures SeqSum(keys, IfKey(k0, v)) == if k0 in keys then v else 0
  {
    if keys != [] {
      var pre, last := keys[..|keys|-1], keys[|keys|-1];
      assert keys == pre + [last];
      OneKey(pre, k0, v);
      if last == k0 { assert k0 !in pre; }
    }
  }

  /** The groups share the events out: over all keys the group sums add up to the whole. */
  lemma {:induction false} SharesAddUp(keys: seq<GroupKey>, events: seq<Event>, byShapes: bool, stackN: nat, f: Field)
    requires Distinct(keys) && forall j :: 0 <= j < |events| ==> GetKey(events[j], byShapes, stackN) in keys
    ensures SeqSum(keys, OfKey(events, byShapes, stackN, f)) == SeqSum(events, Whole(f))
    decreases |events|
  {
    if events == [] {
      SeqSumSame(keys, OfKey(events, byShapes, stackN, f), IfKey([], 0));
      OneKey(keys, [], 0);
    } else {
      var pre, e := events[..|events|-1], events[|events|-1];
      assert events == pre + [e];
      SharesAddUp(keys, pre, byShapes, stackN, f);
      var k0, v := GetKey(e, byShapes, stackN), Get(e.totals, f);
      forall i | 0 <= i < |keys|
        ensures OfKey(events, byShapes, stackN, f)(keys[i]) == OfKey(pre, byShapes, stackN, f)(keys[i]) + IfKey(k0, v)(keys[i])
      {
        GroupSumNext(pre, e, byShapes, stackN, keys[i], f);
      }
      SeqSumSplit(keys, keys, OfKey(events, byShapes, stackN, f), OfKey(pre, byShapes, stackN, f), IfKey(k0, v));
      OneKey(keys, k0, v);
    }
  }

  lemma {:induction false} ItemsSum<T>(items: seq<Item>, s: seq<T>, f: Field, w: T -> int)
    requires |items| == |s| && forall i :: 0 <= i < |s| ==> Get(items[i].totals, f) == w(s[i])
    ensures SeqSum(items, ItemField(f)) == SeqSum(s, w)
  {
    if s != [] { ItemsSum(items[..|items|-1], s[..|s|-1], f, w); }
  }

  /** Totals of the grouped list and of the raw list agree in every counter, for every grouping. */
  lemma GroupingKeepsTotals(keys: seq<GroupKey>, avgs: seq<FunctionEventAvg>, items: seq<Item>, events: seq<Event>,
                            byShapes: bool, stackN: nat, f: Field)
    requires Grouped(keys, avgs, events, byShapes, stackN) && AvgItems(avgs, items)
    ensures SeqSum(items, ItemField(f)) == SeqSum(EventItems(events), ItemField(f))
  {
    ItemsSum(items, keys, f, OfKey(events, byShapes, stackN, f));
    ItemsSum(EventItems(events), events, f, Whole(f));
    SharesAddUp(keys, events, byShapes, stackN, f);
  }
}
