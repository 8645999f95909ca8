/**
 Profiler events and the list that links them into a tree
 (EventList and FunctionEvent of profiler_util.py). Times are exact integers.
 */
module EventTree {
  import opened Wrappers
  import opened Sums
  import opened Picks
  import opened EventForest

  datatype DeviceType = CPU | MKLDNN | IDEEP | HIP | CUDA | MTIA | PrivateUse1 | OtherDevice

  class FunctionEvent {
    const id: int
    const name: string
    const start: int
    const end: int
    const isAsync: bool
    const deviceType: DeviceType
    const deviceIndex: int
    const nodeId: int
    const cpuMemoryUsage: int
    const deviceMemoryUsage: int
    var thread: int
    var kernels: seq<Kernel>
    var cpuChildren: seq<FunctionEvent>
    var cpuParent: FunctionEvent?

    constructor (id: int, name: string, thread: int, start: int, end: int, isAsync: bool,
                 deviceType: DeviceType, deviceIndex: int, nodeId: int, cpuMemoryUsage: int, deviceMemoryUsage: int)
      ensures this.id == id && this.name == name && this.thread == thread
      ensures this.start == start && this.end == end && this.isAsync == isAsync
      ensures this.deviceType == deviceType && this.deviceIndex == deviceIndex && this.nodeId == nodeId
      ensures this.cpuMemoryUsage == cpuMemoryUsage && this.deviceMemoryUsage == deviceMemoryUsage
      ensures kernels == [] && cpuChildren == [] && cpuParent == null
    {
      this.id, this.name, this.thread := id, name, thread;
      this.start, this.end, this.isAsync := start, end, isAsync;
      this.deviceType, this.deviceIndex, this.nodeId := deviceType, deviceIndex, nodeId;
      this.cpuMemoryUsage, this.deviceMemoryUsage := cpuMemoryUsage, deviceMemoryUsage;
      kernels, cpuChildren, cpuParent := [], [], null;
    }

    /** Only synchronous CPU events take part in nesting and in the self totals. */
    predicate Sync() { !isAsync && deviceType == CPU }

    method AppendKernel(name: string, device: int, duration: int)
      requires deviceType == CPU
      modifies this`kernels
      ensures kernels == old(kernels) + [Kernel(name, device, duration)]
    {
      kernels := kernels + [Kernel(name, device, duration)];
    }

    predicate Unlinked() reads this { cpuChildren == [] && cpuParent == null }
  }

  /** The kernels and the thread of an event. */
  datatype Holdings = Holdings(kernels: seq<Kernel>, thread: int)

  ghost function Held(e: FunctionEvent): Holdings
    reads e
  {
    Holdings(e.kernels, e.thread)
  }

  ghost function HoldingsOf(fes: seq<FunctionEvent>): map<FunctionEvent, Holdings>
    reads fes
  {
    map e | e in fes :: Held(e)
  }

  /** The links of a set of events, as a forest value. */
  ghost function Snapshot(s: set<FunctionEvent>): Forest<FunctionEvent>
    reads s
  {
    map e | e in s ::
      Node(e.name, e.kernels, if e.cpuParent == null then None else Some(e.cpuParent), e.cpuChildren)
  }

  /** The events of `es` that fail the removal test in `f`, in list order. */
  ghost function Survivors(f: Forest<FunctionEvent>, es: seq<FunctionEvent>): seq<FunctionEvent> {
    if es == [] then [] else
      var x := es[|es|-1];
      Survivors(f, es[..|es|-1]) + if x in f && Dup(f, x) then [] else [x]
  }

  lemma {:induction false} SurvivorElements(f: Forest<FunctionEvent>, es: seq<FunctionEvent>)
    requires Distinct(es) && Elements(es) <= f.Keys
    ensures Elements(Survivors(f, es)) == Elements(es) - Removed(f, es)
    ensures Distinct(Survivors(f, es))
  {
    if es != [] {
      var pre, x := es[..|es|-1], es[|es|-1];
      assert es == pre + [x];
      assert Elements(es) == Elements(pre) + {x};
      SurvivorElements(f, pre);
      RemovedNext(f, pre, x);
      assert x !in Elements(pre);
      var s := Survivors(f, pre);
      assert Elements(s + [x]) == Elements(s) + {x};
      assert x !in Elements(s);
    }
  }

  /** The kept list holds the events that fail the removal test, in list order. */
  lemma {:induction false} SurvivorPlaces(f: Forest<FunctionEvent>, es: seq<FunctionEvent>) returns (at: seq<nat>)
    requires Elements(es) <= f.Keys
    ensures Picked(es, at, Survivors(f, es)) && forall k: nat :: k < |es| ==> (k in at <==> !Dup(f, es[k]))
  {
    at := [];
    if es != [] {
      var pre, x := es[..|es|-1], es[|es|-1];
      assert es == pre + [x] && x in Elements(es);
      assert forall e :: e in Elements(pre) ==> e in Elements(es);
      at := SurvivorPlaces(f, pre);
      var kept := Survivors(f, pre);
      PickNone(pre, at, kept, x);
      if !Dup(f, x) {
        PickNext(pre, at, kept, x);
        at := at + [|pre|];
      }
      forall k: nat | k < |es| ensures k in at <==> !Dup(f, es[k]) {
        if k < |pre| { assert es[k] == pre[k]; }
      }
    }
  }

  /** In the event's own fields: it is the only child of a parent with its own name. */
  ghost predicate OnlyNamesake(e: FunctionEvent)
    reads e, e.cpuParent
  {
    e.cpuParent != null && e.cpuParent.name == e.name && e.cpuParent.cpuChildren == [e]
  }

  lemma NamesakeFields(s: set<FunctionEvent>, e: FunctionEvent)
    requires e in s && LinkOk(Snapshot(s), e)
    ensures var f := Snapshot(s);
      OnlyNamesake(e) <==>
        match f[e].parent
        case None => false
        case Some(p) => p in f && f[p].name == f[e].name && f[p].children == [e]
  {
  }

  lemma KeptField(es: seq<FunctionEvent>, rank: FunctionEvent -> int, e: FunctionEvent)
    requires var f := Snapshot(Elements(es)); WellLinked(f) && Ranked(f, rank) && Distinct(es)
    requires e in es
    ensures e !in Survivors(Snapshot(Elements(es)), es) <==> OnlyNamesake(e)
  {
    var f := Snapshot(Elements(es));
    CollapsedList(f, es, rank);
    assert e in f && LinkOk(f, e);
    assert e in Survivors(f, es) <==> e in Elements(Survivors(f, es));
    GoneIff(f, es, rank, e);
    NamesakeFields(Elements(es), e);
  }

  /** A removal takes every only child of a same-named parent off the list and keeps the rest in order. */
  lemma KeptFields(es: seq<FunctionEvent>, rank: FunctionEvent -> int)
    requires var f := Snapshot(Elements(es)); WellLinked(f) && Ranked(f, rank) && Distinct(es)
    ensures var kept := Survivors(Snapshot(Elements(es)), es);
      && InOrder(es, kept)
      && forall e :: e in es ==> (e !in kept <==> OnlyNamesake(e))
  {
    var kept := Survivors(Snapshot(Elements(es)), es);
    var at := SurvivorPlaces(Snapshot(Elements(es)), es);
    PickedInOrder(es, at, kept);
    forall e | e in es ensures e !in Survivors(Snapshot(Elements(es)), es) <==> OnlyNamesake(e) { KeptField(es, rank, e); }
  }

  /** Nothing to remove: the pass and the list are left alone. */
  lemma {:induction false} NothingToRemove(f: Forest<FunctionEvent>, es: seq<FunctionEvent>)
    requires DupAt(f, es) == {}
    ensures Collapse(f, es) == f && Survivors(f, es) == es
  {
    if es != [] {
      var pre := es[..|es|-1];
      assert forall i :: i in DupAt(f, pre) ==> i in DupAt(f, es);
      NothingToRemove(f, pre);
      assert |es| - 1 !in DupAt(f, es);
    }
  }

  lemma {:induction false} SurvivorsFewer(f: Forest<FunctionEvent>, es: seq<FunctionEvent>)
    ensures |Survivors(f, es)| <= |es|
    ensures DupAt(f, es) != {} ==> |Survivors(f, es)| < |es|
  {
    if es != [] {
      var pre := es[..|es|-1];
      SurvivorsFewer(f, pre);
      if DupAt(f, es) != {} && |es| - 1 !in DupAt(f, es) {
        var i :| i in DupAt(f, es);
        assert i in DupAt(f, pre);
      }
    }
  }

  /** The list and the links that a removal leaves behind fit together and are final. */
  lemma CollapsedList(f: Forest<FunctionEvent>, es: seq<FunctionEvent>, rank: FunctionEvent -> int)
    requires WellLinked(f) && Ranked(f, rank) && Distinct(es) && Elements(es) == f.Keys
    ensures var g, kept := Collapse(f, es), Survivors(f, es);
      && WellLinked(g) && Ranked(g, rank) && Distinct(kept) && Elements(kept) == g.Keys
      && g.Keys <= f.Keys && DupAt(g, kept) == {} && forall x :: x in g ==> !Dup(g, x)
  {
    CollapseRemoves(f, es, rank);
    CollapseLeavesNoDup(f, es, rank);
    SurvivorElements(f, es);
  }

  /** The positions of `es` whose event passes the removal test. */
  ghost function DupAt(f: Forest<FunctionEvent>, es: seq<FunctionEvent>): set<int> {
    set i | 0 <= i < |es| && es[i] in f && Dup(f, es[i])
  }

  /** What the pass knows when it reaches position `idx`. */
  lemma PassStep(f: Forest<FunctionEvent>, es: seq<FunctionEvent>, rank: FunctionEvent -> int, idx: nat)
    requires WellLinked(f) && Ranked(f, rank) && Distinct(es) && Elements(es) == f.Keys && idx < |es|
    ensures var g, x := Collapse(f, es[..idx]), es[idx];
      && WellLinked(g) && Ranked(g, rank) && x in g && Dup(g, x) == (idx in DupAt(f, es))
      && Collapse(f, es[..idx+1]) == (if Dup(g, x) then Lift(g, x) else g)
      && (Dup(g, x) ==> Lift(g, x).Keys == g.Keys - {x})
      && DupAt(f, es[..idx+1]) == DupAt(f, es[..idx]) + (if Dup(g, x) then {idx} else {})
  {
    var pre, x := es[..idx], es[idx];
    assert es[..idx+1] == pre + [x] && (pre + [x])[..idx] == pre;
    CollapseRemoves(f, pre, rank);
    assert x in Elements(es);
    assert x !in pre;
    assert SameTests(f, Collapse(f, pre), x);
  }

  class EventList {
    var events: seq<FunctionEvent>

    constructor (events: seq<FunctionEvent>)
      ensures this.events == events
    {
      this.events := events;
    }

    /** The links are sound and acyclic on exactly the listed events. */
    ghost predicate Linked(rank: FunctionEvent -> int)
      reads this, events
    {
      && Distinct(events)
      && WellLinked(Snapshot(Elements(events)))
      && Ranked(Snapshot(Elements(events)), rank)
    }

    /** The body of the removal loop for one event `x`: its parent takes its children and kernels. */
    static method LiftUp(x: FunctionEvent, ghost live: set<FunctionEvent>)
      requires x in live && x.cpuParent != null && x.cpuParent in live && x.cpuParent != x
      requires x !in x.cpuChildren && x.cpuParent !in x.cpuChildren
      requires forall c :: c in x.cpuChildren ==> c in live
      modifies live`cpuChildren, live`cpuParent, live`kernels
      ensures Snapshot(live - {x}) == Lift(old(Snapshot(live)), x)
    {
      ghost var f := Snapshot(live);
      var p, kids := x.cpuParent, x.cpuChildren;
      p.cpuChildren := x.cpuChildren;
      p.kernels := x.kernels;
      for i := 0 to |kids|
        invariant forall e :: e in live && e != p ==>
          e.cpuChildren == old(e.cpuChildren) && e.kernels == old(e.kernels)
        invariant p.cpuChildren == kids && p.kernels == old(x.kernels)
        invariant forall e :: e in live ==>
          e.cpuParent == if e in kids[..i] then p else old(e.cpuParent)
      {
        kids[i].cpuParent := p;
      }
      assert kids[..|kids|] == kids;
      ghost var g := Snapshot(live - {x});
      assert g.Keys == Lift(f, x).Keys;
      forall e | e in g ensures g[e] == Lift(f, x)[e] {}
    }

    /** One sweep of the `for idx` loop; returns the positions marked for deletion. */
    method RemovePass(ghost rank: FunctionEvent -> int) returns (toDelete: set<int>)
      requires Linked(rank)
      modifies Elements(events)`cpuChildren, Elements(events)`cpuParent, Elements(events)`kernels
      ensures var f := old(Snapshot(Elements(events)));
        && toDelete == DupAt(f, events)
        && Snapshot(Collapse(f, events).Keys) == Collapse(f, events)
    {
      ghost var f, es := Snapshot(Elements(events)), events;
      ghost var live := Elements(es);
      assert es[..0] == [] && Collapse(f, []) == f;
      toDelete := {};
      for idx := 0 to |events|
        invariant live <= Elements(es)
        invariant Snapshot(live) == Collapse(f, es[..idx])
        invariant toDelete == DupAt(f, es[..idx])
      {
        var x := events[idx];
        PassStep(f, es, rank, idx);
        ghost var g := Snapshot(live);
        assert live == g.Keys;
        assert LinkOk(g, x);
        assert x.cpuParent != null ==> g[x].parent == Some(x.cpuParent);
        if x.cpuParent != null && x.cpuParent.name == x.name && |x.cpuParent.cpuChildren| == 1 {
          SoleChild(g, x, rank);
          LiftUp(x, live);
          live := live - {x};
          toDelete := toDelete + {idx};
        }
      }
      assert es[..|es|] == es;
      assert live == Snapshot(live).Keys;
    }

    /** `[ev for ind, ev in enumerate(self) if ind not in to_delete]` */
    method Keep(toDelete: set<int>, ghost f: Forest<FunctionEvent>) returns (kept: seq<FunctionEvent>)
      requires toDelete == DupAt(f, events)
      ensures kept == Survivors(f, events)
    {
      kept := [];
      for i := 0 to |events|
        invariant kept == Survivors(f, events[..i])
      {
        assert events[..i+1][..i] == events[..i];
        if i !in toDelete { kept := kept + [events[i]]; }
      }
      assert events[..|events|] == events;
    }

    /** `self.clear(); self.extend(evts)`: no link of any event is touched. */
    method Refill(evts: seq<FunctionEvent>, ghost s: set<FunctionEvent>)
      modifies this
      ensures events == evts && Snapshot(s) == old(Snapshot(s))
    {
      events := evts;
    }

    /**
     EventList._remove_dup_nodes. The list keeps, in order, exactly the events that were not
     the sole child of a same-named parent in the tree the call started from, and the links
     of the survivors are the collapse of the old ones.
     */
    method RemoveDupNodes(ghost rank: FunctionEvent -> int)
      requires Linked(rank)
      modifies this, Elements(events)`cpuChildren, Elements(events)`cpuParent, Elements(events)`kernels
      ensures var f := old(Snapshot(Elements(events)));
        && events == Survivors(f, old(events))
        && Snapshot(Elements(events)) == Collapse(f, old(events))
      ensures forall e :: e in old(events) ==> (e !in events <==> old(OnlyNamesake(e)))
      ensures InOrder(old(events), events)
      ensures Linked(rank)
      ensures DupAt(Snapshot(Elements(events)), events) == {}
    {
      ghost var f, es := Snapshot(Elements(events)), events;
      ghost var g, kept := Collapse(f, es), Survivors(f, es);
      ghost var swept := false;
      CollapsedList(f, es, rank);
      KeptFields(es, rank);
      while true
        invariant Snapshot(if swept then g.Keys else f.Keys) == if swept then g else f
        invariant events == if swept then kept else es
        decreases |events|
      {
        var toDelete := RemovePass(rank);
        if toDelete == {} {
          NothingToRemove(if swept then g else f, events);
          break;
        }
        SurvivorsFewer(f, es);
        var next := Keep(toDelete, f);
        Refill(next, g.Keys);
        swept := true;
      }
    }
  }
}
