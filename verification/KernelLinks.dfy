/**
 The correlation pass of profile._parse_kineto_results: events that carry the id of another
 event are gathered by that id, then each front-end event takes over the device kernels
 linked to it, and the linked CPU runtime events move to its thread.
 */
module KernelLinks {
  import opened Sums
  import opened EventForest
  import opened EventTree

  /** The events whose linked correlation id is `c`, in list order; `links` holds the ids. */
  function WithLink(fes: seq<FunctionEvent>, links: seq<int>, c: int): seq<FunctionEvent>
    requires |fes| == |links|
  {
    if fes == [] then [] else
      var n := |fes| - 1;
      WithLink(fes[..n], links[..n], c) + if links[n] == c then [fes[n]] else []
  }

  lemma {:induction false} WithLinkElements(fes: seq<FunctionEvent>, links: seq<int>, c: int)
    requires |fes| == |links| && Distinct(fes)
    ensures forall k :: 0 <= k < |fes| ==> (fes[k] in WithLink(fes, links, c) <==> links[k] == c)
    ensures forall e :: e in WithLink(fes, links, c) ==> e in fes
    ensures Distinct(WithLink(fes, links, c))
  {
    if fes != [] {
      var n := |fes| - 1;
      assert forall k :: 0 <= k < n ==> fes[..n][k] == fes[k];
      WithLinkElements(fes[..n], links[..n], c);
      assert fes[n] !in fes[..n];
    }
  }

  lemma WithLinkNext(fes: seq<FunctionEvent>, links: seq<int>, fe: FunctionEvent, link: int, c: int)
    requires |fes| == |links|
    ensures WithLink(fes + [fe], links + [link], c) == WithLink(fes, links, c) + if link == c then [fe] else []
  {
    assert (fes + [fe])[..|fes|] == fes && (links + [link])[..|fes|] == links;
  }

  /** `front` holds the unlinked events, `corr` the linked ones by id. */
  ghost predicate Correlated(front: seq<FunctionEvent>, corr: map<int, seq<FunctionEvent>>,
                             fes: seq<FunctionEvent>, links: seq<int>)
  {
    && |fes| == |links| && front == WithLink(fes, links, 0)
    && (forall c :: c in corr ==> c > 0 && corr[c] == WithLink(fes, links, c))
    && (forall c :: c > 0 && c !in corr ==> WithLink(fes, links, c) == [])
  }

  /** The bookkeeping of one event whose linked id is not negative. */
  method Correlate(front: seq<FunctionEvent>, corr: map<int, seq<FunctionEvent>>, fe: FunctionEvent, link: nat,
                   ghost fes: seq<FunctionEvent>, ghost links: seq<int>)
    returns (front': seq<FunctionEvent>, corr': map<int, seq<FunctionEvent>>)
    requires Correlated(front, corr, fes, links)
    ensures Correlated(front', corr', fes + [fe], links + [link])
  {
    front', corr' := front, corr;
    if link > 0 {
      if link !in corr { corr' := corr'[link := []]; }
      corr' := corr'[link := corr'[link] + [fe]];
    } else {
      front' := front + [fe];
    }
    forall c: int ensures WithLink(fes + [fe], links + [link], c) == WithLink(fes, links, c) + if link == c then [fe] else [] {
      WithLinkNext(fes, links, fe, link, c);
    }
  }

  /** The kernels that the device events of a list stand for, in order. */
  function KernelsOf(fs: seq<FunctionEvent>): seq<Kernel> {
    if fs == [] then [] else
      var f := fs[|fs|-1];
      KernelsOf(fs[..|fs|-1]) + if f.deviceType == PrivateUse1 then [Kernel(f.name, f.deviceIndex, f.end - f.start)] else []
  }

  /** The last event of `front` that owns the id `c`, or -1. */
  function LastOwner(front: seq<FunctionEvent>, c: int): (j: int)
    ensures -1 <= j < |front|
    ensures j >= 0 ==> front[j].Sync() && front[j].id == c
    ensures forall i :: j < i < |front| && front[i].Sync() ==> front[i].id != c
  {
    if front == [] then -1
    else if front[|front|-1].Sync() && front[|front|-1].id == c then |front| - 1
    else LastOwner(front[..|front|-1], c)
  }

  /** The inner loop: the events linked to one front-end event. */
  method Attach(fe: FunctionEvent, linked: seq<FunctionEvent>)
    requires fe.deviceType == CPU && fe !in linked && Distinct(linked)
    modifies fe`kernels, Elements(linked)`thread
    ensures fe.kernels == old(fe.kernels) + KernelsOf(linked)
    ensures forall j :: 0 <= j < |linked| ==>
      linked[j].thread == if linked[j].deviceType == CPU then fe.thread else old(linked[j].thread)
  {
    for i := 0 to |linked|
      invariant fe.kernels == old(fe.kernels) + KernelsOf(linked[..i])
      invariant fe.thread == old(fe.thread)
      invariant forall j :: 0 <= j < |linked| ==>
        linked[j].thread == if j < i && linked[j].deviceType == CPU then fe.thread else old(linked[j].thread)
    {
      var f := linked[i];
      assert linked[..i+1][..i] == linked[..i];
      assert f in linked;
      if f.deviceType == PrivateUse1 {
        fe.AppendKernel(f.name, f.deviceIndex, f.end - f.start);
      } else if f.deviceType == CPU {
        f.thread := fe.thread;
      }
    }
    assert linked[..|linked|] == linked;
  }

  /** The kernels that event `k` receives once the first `front` events have been served. */
  function Received(front: seq<FunctionEvent>, fes: seq<FunctionEvent>, links: seq<int>, k: nat): seq<Kernel>
    requires |fes| == |links| && k < |fes|
  {
    if fes[k] in front && fes[k].Sync() && fes[k].id > 0 then KernelsOf(WithLink(fes, links, fes[k].id)) else []
  }

  /** The place in `front` of the event whose thread event `k` takes over, or -1. */
  function Adopter(front: seq<FunctionEvent>, fes: seq<FunctionEvent>, links: seq<int>, k: nat): (j: int)
    requires |fes| == |links| && k < |fes|
    ensures -1 <= j < |front|
  {
    if links[k] > 0 && fes[k].deviceType == CPU then LastOwner(front, links[k]) else -1
  }

  ghost predicate FrontIn(front: seq<FunctionEvent>, fes: seq<FunctionEvent>) {
    forall j :: 0 <= j < |front| ==> front[j] in fes
  }

  /** Whether event `fe` serves the events whose linked id is `c`. */
  predicate Owns(fe: FunctionEvent, c: int) { fe.Sync() && fe.id == c && c > 0 }

  /** What event `k` holds once the events of `front` have been served, given what all held before. */
  ghost function After(was: map<FunctionEvent, Holdings>, front: seq<FunctionEvent>,
                       fes: seq<FunctionEvent>, links: seq<int>, k: nat): Holdings
    requires |fes| == |links| && k < |fes| && fes[k] in was && forall j :: 0 <= j < |front| ==> front[j] in was
  {
    var j := Adopter(front, fes, links, k);
    Holdings(was[fes[k]].kernels + Received(front, fes, links, k),
             if j >= 0 then was[front[j]].thread else was[fes[k]].thread)
  }

  /** The change that serving `fe` makes to event `k`. */
  ghost function Step(h: Holdings, fe: FunctionEvent, thread: int, fes: seq<FunctionEvent>, links: seq<int>, k: nat): Holdings
    requires |fes| == |links| && k < |fes|
  {
    Holdings(h.kernels + (if fes[k] == fe && Owns(fe, fe.id) then KernelsOf(WithLink(fes, links, fe.id)) else []),
             if fes[k].deviceType == CPU && Owns(fe, links[k]) then thread else h.thread)
  }

  lemma AfterNext(was: map<FunctionEvent, Holdings>, pre: seq<FunctionEvent>, fe: FunctionEvent,
                  fes: seq<FunctionEvent>, links: seq<int>, k: nat)
    requires |fes| == |links| && k < |fes| && fes[k] in was && fe in was && fe !in pre
    requires forall j :: 0 <= j < |pre| ==> pre[j] in was
    ensures After(was, pre + [fe], fes, links, k) == Step(After(was, pre, fes, links, k), fe, was[fe].thread, fes, links, k)
  {
    var front := pre + [fe];
    assert front[..|pre|] == pre && front[|pre|] == fe;
    assert Adopter(front, fes, links, k) ==
      if fes[k].deviceType == CPU && Owns(fe, links[k]) then |pre| else Adopter(pre, fes, links, k);
    assert fes[k] in front <==> fes[k] in pre || fes[k] == fe;
  }

  /** The body of the loop over the front-end events, event by event. */
  method Serve(fe: FunctionEvent, corr: map<int, seq<FunctionEvent>>, ghost front: seq<FunctionEvent>,
               ghost fes: seq<FunctionEvent>, ghost links: seq<int>)
    requires Distinct(fes) && Correlated(front, corr, fes, links) && fe in front && fe in fes
    modifies Elements(fes)`kernels, Elements(fes)`thread
    ensures forall k :: 0 <= k < |fes| ==>
      Held(fes[k]) == Step(old(Held(fes[k])), fe, old(fe.thread), fes, links, k)
  {
    ghost var linked := WithLink(fes, links, fe.id);
    WithLinkElements(fes, links, 0);
    WithLinkElements(fes, links, fe.id);
    if fe.deviceType == CPU && !fe.isAsync && fe.id in corr {
      Attach(fe, corr[fe.id]);
      forall k | 0 <= k < |fes|
        ensures fes[k].thread == if fes[k].deviceType == CPU && links[k] == fe.id then old(fe.thread) else old(fes[k].thread)
      {
        assert fes[k] in linked <==> links[k] == fe.id;
        assert fes[k] in Elements(linked) <==> fes[k] in linked;
      }
    }
  }

  /** Every event holds what it should once the events of `front` have been served. */
  ghost predicate Served(was: map<FunctionEvent, Holdings>, front: seq<FunctionEvent>, fes: seq<FunctionEvent>, links: seq<int>)
    requires |fes| == |links| && was.Keys == Elements(fes) && FrontIn(front, fes)
    reads fes
  {
    forall k :: 0 <= k < |fes| ==> Held(fes[k]) == After(was, front, fes, links, k)
  }

  lemma ServedNext(was: map<FunctionEvent, Holdings>, mid: map<FunctionEvent, Holdings>, pre: seq<FunctionEvent>, fe: FunctionEvent,
                   fes: seq<FunctionEvent>, links: seq<int>)
    requires |fes| == |links| && was.Keys == Elements(fes) && FrontIn(pre, fes) && fe in was && fe !in pre
    requires forall k :: 0 <= k < |fes| ==> fes[k] in mid && mid[fes[k]] == After(was, pre, fes, links, k)
    requires forall k :: 0 <= k < |fes| ==> Held(fes[k]) == Step(mid[fes[k]], fe, was[fe].thread, fes, links, k)
    ensures FrontIn(pre + [fe], fes) && Served(was, pre + [fe], fes, links)
  {
    forall k | 0 <= k < |fes| ensures Held(fes[k]) == After(was, pre + [fe], fes, links, k) {
      AfterNext(was, pre, fe, fes, links, k);
    }
  }

  lemma FrontKeepsThread(was: map<FunctionEvent, Holdings>, pre: seq<FunctionEvent>, fe: FunctionEvent,
                         fes: seq<FunctionEvent>, links: seq<int>)
    requires |fes| == |links| && was.Keys == Elements(fes) && FrontIn(pre, fes) && Served(was, pre, fes, links)
    requires Distinct(fes) && fe in WithLink(fes, links, 0)
    ensures fe in fes && fe in was && fe.thread == was[fe].thread
  {
    WithLinkElements(fes, links, 0);
    var i :| 0 <= i < |fes| && fes[i] == fe;
    assert Held(fes[i]) == After(was, pre, fes, links, i);
  }

  /** One round of the loop, with what it means for all events. */
  method ServeNext(ghost pre: seq<FunctionEvent>, fe: FunctionEvent, corr: map<int, seq<FunctionEvent>>,
                   ghost was: map<FunctionEvent, Holdings>, ghost front: seq<FunctionEvent>,
                   ghost fes: seq<FunctionEvent>, ghost links: seq<int>)
    requires Distinct(fes) && Correlated(front, corr, fes, links) && fe in front && fe !in pre
    requires was.Keys == Elements(fes) && FrontIn(pre, fes) && Served(was, pre, fes, links)
    modifies Elements(fes)`kernels, Elements(fes)`thread
    ensures FrontIn(pre + [fe], fes) && Served(was, pre + [fe], fes, links)
  {
    FrontKeepsThread(was, pre, fe, fes, links);
    ghost var mid := HoldingsOf(fes);
    Serve(fe, corr, front, fes, links);
    ServedNext(was, mid, pre, fe, fes, links);
  }

  lemma PrefixNext(s: seq<FunctionEvent>, n: nat)
    requires Distinct(s) && n < |s|
    ensures s[..n+1] == s[..n] + [s[n]] && s[n] !in s[..n]
  {
  }

  lemma FrontDistinct(fes: seq<FunctionEvent>, links: seq<int>)
    requires |fes| == |links| && Distinct(fes)
    ensures Distinct(WithLink(fes, links, 0))
  {
    WithLinkElements(fes, links, 0);
  }

  lemma NoneServed(was: map<FunctionEvent, Holdings>, fes: seq<FunctionEvent>, links: seq<int>)
    requires |fes| == |links| && was == HoldingsOf(fes)
    ensures was.Keys == Elements(fes) && FrontIn([], fes) && Served(was, [], fes, links)
  {
  }

  /** The loop over the front-end events. */
  method Associate(front: seq<FunctionEvent>, corr: map<int, seq<FunctionEvent>>,
                   ghost fes: seq<FunctionEvent>, ghost links: seq<int>)
    requires Distinct(fes) && Correlated(front, corr, fes, links) && FrontIn(front, fes)
    modifies Elements(fes)`kernels, Elements(fes)`thread
    ensures Served(old(HoldingsOf(fes)), front, fes, links)
    ensures forall k :: 0 <= k < |fes| ==> fes[k].Unlinked() == old(fes[k].Unlinked())
  {
    ghost var was := HoldingsOf(fes);
    FrontDistinct(fes, links);
    assert front[..0] == [];
    NoneServed(was, fes, links);
    for n := 0 to |front|
      invariant FrontIn(front[..n], fes) && Served(was, front[..n], fes, links)
    {
      PrefixNext(front, n);
      ServeNext(front[..n], front[n], corr, was, front, fes, links);
    }
    assert front[..|front|] == front;
  }

  // ---------------------------------------------------------------- conservation of device time

  /** The time a linked event stands for on the device. */
  function DeviceTime(f: FunctionEvent): int {
    if f.deviceType == PrivateUse1 then f.end - f.start else 0
  }

  lemma {:induction false} KernelsTime(fs: seq<FunctionEvent>)
    ensures KernelTime(KernelsOf(fs)) == SeqSum(fs, DeviceTime)
  {
    if fs != [] {
      var pre, f := fs[..|fs|-1], fs[|fs|-1];
      KernelsTime(pre);
      if f.deviceType == PrivateUse1 {
        var k := Kernel(f.name, f.deviceIndex, f.end - f.start);
        assert (KernelsOf(pre) + [k])[..|KernelsOf(pre)|] == KernelsOf(pre);
      } else {
        assert KernelsOf(fs) == KernelsOf(pre);
      }
    }
  }

  ghost function Owners(front: set<FunctionEvent>, c: int): set<FunctionEvent> {
    set e | e in front && Owns(e, c)
  }

  /** The device time that an event takes over. */
  ghost function Share(fes: seq<FunctionEvent>, links: seq<int>): FunctionEvent -> int
    requires |fes| == |links|
  {
    (e: FunctionEvent) => if Owns(e, e.id) then SeqSum(WithLink(fes, links, e.id), DeviceTime) else 0
  }

  /** The device time of every event, once per front-end event that owns its linked id. */
  ghost function HandedOver(fes: seq<FunctionEvent>, links: seq<int>, front: set<FunctionEvent>): int
    requires |fes| == |links|
  {
    if fes == [] then 0 else
      var n := |fes| - 1;
      HandedOver(fes[..n], links[..n], front) + DeviceTime(fes[n]) * |Owners(front, links[n])|
  }

  /** Summing by owner or by device event gives the same device time. */
  lemma {:induction false} SharesAddUp(fes: seq<FunctionEvent>, links: seq<int>, front: set<FunctionEvent>)
    requires |fes| == |links|
    ensures SetSum(front, Share(fes, links)) == HandedOver(fes, links, front)
  {
    if fes == [] {
      SetSumSame(front, Share(fes, links), (e: FunctionEvent) => 0);
      SetSumZero(front);
    } else {
      var n := |fes| - 1;
      var pre, links', f, c := fes[..n], links[..n], fes[n], links[n];
      SharesAddUp(pre, links', front);
      var h, v := Owners(front, c), DeviceTime(f);
      forall e | e in front ensures Share(fes, links)(e) == Share(pre, links')(e) + IfIn(h, v)(e) {
        var before := WithLink(pre, links', e.id);
        assert before + [] == before;
        SeqSumConcat(before, [f], DeviceTime);
        assert SeqSum([f], DeviceTime) == v by { assert [f][..0] == []; }
      }
      SetSumPlus(front, Share(pre, links'), IfIn(h, v), Share(fes, links));
      IndicatorSum(front, h, v);
    }
  }
}
