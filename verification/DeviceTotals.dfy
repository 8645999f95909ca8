/** The kernel time of a freshly parsed and nested list. */
module DeviceTotals {
  import opened Wrappers
  import opened Sums
  import opened EventForest
  import opened EventTree
  import opened KernelLinks
  import opened KinetoParse

  ghost function FallbackTime(useDevice: Option<string>): KinetoEvent -> int {
    k => KernelTime(Fallback(useDevice, k))
  }

  /**
   The kernel time that a parse hands out: the stand-in kernels, and every linked device event
   once per front-end event that owns its id.
   */
  ghost function Granted(main: seq<FunctionEvent>, ks: seq<KinetoEvent>, useDevice: Option<string>): int
    requires |main| == |ks|
  {
    SeqSum(ks, FallbackTime(useDevice)) + HandedOver(main, LinksOf(ks), Elements(WithLink(main, LinksOf(ks), 0)))
  }

  /** In `f`, the main events hold the kernels that the correlation pass gave them. */
  ghost predicate Holds(f: Forest<FunctionEvent>, main: seq<FunctionEvent>, ks: seq<KinetoEvent>, useDevice: Option<string>)
    requires |main| == |ks|
  {
    var links := LinksOf(ks);
    var front := WithLink(main, links, 0);
    forall k :: 0 <= k < |main| ==>
      main[k] in f && f[main[k]].kernels == Fallback(useDevice, ks[k]) + Received(front, main, links, k)
  }

  ghost function ShareIn(front: seq<FunctionEvent>, fes: seq<FunctionEvent>, links: seq<int>): FunctionEvent -> int
    requires |fes| == |links|
  {
    (e: FunctionEvent) => if e in front then Share(fes, links)(e) else 0
  }

  lemma ReceivedTime(front: seq<FunctionEvent>, fes: seq<FunctionEvent>, links: seq<int>, k: nat)
    requires |fes| == |links| && k < |fes|
    ensures KernelTime(Received(front, fes, links, k)) == ShareIn(front, fes, links)(fes[k])
  {
    var e := fes[k];
    KernelsTime(WithLink(fes, links, e.id));
    assert ShareIn(front, fes, links)(e) == if e in front then Share(fes, links)(e) else 0;
    assert KernelTime([]) == 0;
  }

  lemma OneMainTime(f: Forest<FunctionEvent>, main: seq<FunctionEvent>, ks: seq<KinetoEvent>, useDevice: Option<string>, k: nat)
    requires |main| == |ks| && k < |main| && Holds(f, main, ks, useDevice)
    ensures KernelTimeOf(f)(main[k])
      == FallbackTime(useDevice)(ks[k]) + ShareIn(WithLink(main, LinksOf(ks), 0), main, LinksOf(ks))(main[k])
  {
    var links := LinksOf(ks);
    var front := WithLink(main, links, 0);
    ReceivedTime(front, main, links, k);
    SeqSumConcat(Fallback(useDevice, ks[k]), Received(front, main, links, k), Duration);
  }

  lemma MainTime(f: Forest<FunctionEvent>, main: seq<FunctionEvent>, ks: seq<KinetoEvent>, useDevice: Option<string>)
    requires |main| == |ks| && Holds(f, main, ks, useDevice)
    ensures SeqSum(main, KernelTimeOf(f)) == SeqSum(ks, FallbackTime(useDevice))
      + SeqSum(main, ShareIn(WithLink(main, LinksOf(ks), 0), main, LinksOf(ks)))
  {
    var shares := ShareIn(WithLink(main, LinksOf(ks), 0), main, LinksOf(ks));
    forall k | 0 <= k < |main| ensures KernelTimeOf(f)(main[k]) == FallbackTime(useDevice)(ks[k]) + shares(main[k]) {
      OneMainTime(f, main, ks, useDevice, k);
    }
    SeqSumSplit(main, ks, KernelTimeOf(f), FallbackTime(useDevice), shares);
  }

  lemma FrontShares(main: seq<FunctionEvent>, links: seq<int>)
    requires |main| == |links| && Distinct(main)
    ensures var front := WithLink(main, links, 0);
      SeqSum(main, ShareIn(front, main, links)) == HandedOver(main, links, Elements(front))
  {
    var front := WithLink(main, links, 0);
    var w := ShareIn(front, main, links);
    var fs, rest := Elements(front), Elements(main) - Elements(front);
    WithLinkElements(main, links, 0);
    SeqSumIsSetSum(main, w);
    assert fs + rest == Elements(main);
    SetSumUnion(fs, rest, w);
    SetSumSame(rest, w, (e: FunctionEvent) => 0);
    SetSumZero(rest);
    SetSumSame(fs, w, Share(main, links));
    SharesAddUp(main, links, fs);
  }

  lemma NoKernelTime(f: Forest<FunctionEvent>, s: set<FunctionEvent>)
    requires forall e :: e in s ==> e in f && f[e].kernels == []
    ensures SetSum(s, KernelTimeOf(f)) == 0
  {
    SetSumSame(s, KernelTimeOf(f), (e: FunctionEvent) => 0);
    SetSumZero(s);
  }

  /** The kernel time in a fresh tree is what the parse handed out. */
  lemma DeviceTimeGranted(f: Forest<FunctionEvent>, main: seq<FunctionEvent>, rest: seq<FunctionEvent>,
                          ks: seq<KinetoEvent>, useDevice: Option<string>)
    requires |main| == |ks| && Distinct(main) && Elements(main) !! Elements(rest) && f.Keys == Elements(main) + Elements(rest)
    requires Holds(f, main, ks, useDevice) && forall e :: e in rest ==> e in f && f[e].kernels == []
    ensures SetSum(f.Keys, KernelTimeOf(f)) == Granted(main, ks, useDevice)
  {
    SetSumUnion(Elements(main), Elements(rest), KernelTimeOf(f));
    NoKernelTime(f, Elements(rest));
    SeqSumIsSetSum(main, KernelTimeOf(f));
    MainTime(f, main, ks, useDevice);
    FrontShares(main, LinksOf(ks));
  }

  /** With one owner at most, no device event is handed out twice; without an owner its time is lost. */
  lemma OneOwner(front: seq<FunctionEvent>, c: int)
    requires forall i, j :: 0 <= i < |front| && 0 <= j < |front| && Owns(front[i], c) && Owns(front[j], c) ==> front[i] == front[j]
    ensures |Owners(Elements(front), c)| == if LastOwner(front, c) >= 0 && c > 0 then 1 else 0
  {
    var h := Owners(Elements(front), c);
    var j := LastOwner(front, c);
    if j >= 0 && c > 0 {
      assert front[j] in h;
      assert h == {front[j]};
    } else {
      assert h == {};
    }
  }

  // ---------------------------------------------------------------- from the raw events

  /** The stand-in time of a raw event: a synchronous CPU event may carry a device time of its own. */
  function StandInTime(useDevice: Option<string>): KinetoEvent -> int {
    (k: KinetoEvent) =>
      if k.deviceType != CPU || k.isAsync || k.startThreadId != k.endThreadId then 0
      else if useDevice == Some("privateuseone") then if k.privateuse1ElapsedNs > 0 then k.privateuse1ElapsedNs else 0
      else if useDevice == Some("supa") then if k.supaElapsedNs > 0 then k.supaElapsedNs else 0
      else 0
  }

  /** The unlinked synchronous CPU events whose correlation id is `c`. */
  ghost function RawOwners(ks: seq<KinetoEvent>, c: int): set<int> {
    set i | 0 <= i < |ks| && c > 0 && ks[i].linkedCorrelationId == 0 && ks[i].correlationId == c
            && ks[i].deviceType == CPU && !ks[i].isAsync && ks[i].startThreadId == ks[i].endThreadId
  }

  /** The device time of the first `n` raw events, each once per event that its linked id names. */
  ghost function RawHandedOver(ks: seq<KinetoEvent>, n: nat): int
    requires n <= |ks|
  {
    if n == 0 then 0 else
      var k := ks[n-1];
      RawHandedOver(ks, n - 1)
      + if k.deviceType == PrivateUse1 then (k.endNs - k.startNs) * |RawOwners(ks, k.linkedCorrelationId)| else 0
  }

  lemma FallbackIsStandIn(useDevice: Option<string>, k: KinetoEvent)
    ensures FallbackTime(useDevice)(k) == StandInTime(useDevice)(k)
  {
    assert KernelTime([]) == 0;
    forall q: Kernel ensures KernelTime([q]) == q.duration { assert [q][..0] == []; }
  }

  lemma {:induction false} FallbacksAreStandIns(useDevice: Option<string>, ks: seq<KinetoEvent>)
    ensures SeqSum(ks, FallbackTime(useDevice)) == SeqSum(ks, StandInTime(useDevice))
  {
    if ks != [] {
      FallbacksAreStandIns(useDevice, ks[..|ks|-1]);
      FallbackIsStandIn(useDevice, ks[|ks|-1]);
    }
  }

  lemma OwnerFromRaw(main: seq<FunctionEvent>, ks: seq<KinetoEvent>, recs: seq<KinetoEvent>, traceStart: int, c: int, i: int)
    requires AllBuilt(main, ks, recs, traceStart) && Distinct(main) && 0 <= i < |main|
    ensures main[i] in Owners(Elements(WithLink(main, LinksOf(ks), 0)), c) <==> i in RawOwners(ks, c)
  {
    WithLinkElements(main, LinksOf(ks), 0);
    assert Built(main[i], ks[i], recs, traceStart);
  }

  lemma OwnersFromRaw(main: seq<FunctionEvent>, ks: seq<KinetoEvent>, recs: seq<KinetoEvent>, traceStart: int, c: int)
    requires AllBuilt(main, ks, recs, traceStart) && Distinct(main)
    ensures |Owners(Elements(WithLink(main, LinksOf(ks), 0)), c)| == |RawOwners(ks, c)|
  {
    var a, b := RawOwners(ks, c), Owners(Elements(WithLink(main, LinksOf(ks), 0)), c);
    WithLinkElements(main, LinksOf(ks), 0);
    forall i | 0 <= i < |main| ensures main[i] in b <==> i in a { OwnerFromRaw(main, ks, recs, traceStart, c, i); }
    PlacesSize(main, a, b);
  }

  lemma {:induction false} HandedOverFromRaw(main: seq<FunctionEvent>, ks: seq<KinetoEvent>, recs: seq<KinetoEvent>, traceStart: int, n: nat)
    requires AllBuilt(main, ks, recs, traceStart) && Distinct(main) && n <= |main|
    ensures HandedOver(main[..n], LinksOf(ks)[..n], Elements(WithLink(main, LinksOf(ks), 0))) == RawHandedOver(ks, n)
  {
    if n > 0 {
      HandedOverFromRaw(main, ks, recs, traceStart, n - 1);
      assert main[..n][..n-1] == main[..n-1] && LinksOf(ks)[..n][..n-1] == LinksOf(ks)[..n-1];
      assert Built(main[n-1], ks[n-1], recs, traceStart);
      OwnersFromRaw(main, ks, recs, traceStart, ks[n-1].linkedCorrelationId);
    }
  }

  /**
   The kernel time that a parse hands out, from the raw events: the stand-in times, and the time of
   every PrivateUse1 event once per unlinked synchronous CPU event that its linked id names.
   */
  lemma GrantedFromRaw(main: seq<FunctionEvent>, ks: seq<KinetoEvent>, useDevice: Option<string>, recs: seq<KinetoEvent>, traceStart: int)
    requires AllBuilt(main, ks, recs, traceStart) && Distinct(main)
    ensures Granted(main, ks, useDevice) == SeqSum(ks, StandInTime(useDevice)) + RawHandedOver(ks, |ks|)
  {
    FallbacksAreStandIns(useDevice, ks);
    HandedOverFromRaw(main, ks, recs, traceStart, |ks|);
    assert main[..|ks|] == main && LinksOf(ks)[..|ks|] == LinksOf(ks);
  }

  // ---------------------------------------------------------------- the kernels themselves

  /** The kernels that the PrivateUse1 events among the first `n` with linked id `c` stand for, in order. */
  function LinkedKernels(ks: seq<KinetoEvent>, c: int, n: nat): seq<Kernel>
    requires n <= |ks|
  {
    if n == 0 then [] else
      var k := ks[n-1];
      LinkedKernels(ks, c, n - 1)
      + if k.linkedCorrelationId == c && k.deviceType == PrivateUse1
        then [Kernel(RewriteName(k.name), k.deviceIndex, k.endNs - k.startNs)] else []
  }

  lemma LinkedStep(fs: seq<FunctionEvent>, fe: FunctionEvent, k: KinetoEvent, recs: seq<KinetoEvent>, traceStart: int, c: int)
    requires Built(fe, k, recs, traceStart)
    ensures KernelsOf(fs + if k.linkedCorrelationId == c then [fe] else [])
         == KernelsOf(fs) + if k.linkedCorrelationId == c && k.deviceType == PrivateUse1
                            then [Kernel(RewriteName(k.name), k.deviceIndex, k.endNs - k.startNs)] else []
  {
    if k.linkedCorrelationId == c {
      assert (fs + [fe])[..|fs|] == fs;
      assert KernelsOf(fs) + [] == KernelsOf(fs);
    } else {
      assert fs + [] == fs && KernelsOf(fs) + [] == KernelsOf(fs);
    }
  }

  lemma LinkedLast(main: seq<FunctionEvent>, links: seq<int>, c: int, n: nat)
    requires 0 < n <= |main| == |links|
    ensures WithLink(main[..n], links[..n], c)
         == WithLink(main[..n-1], links[..n-1], c) + if links[n-1] == c then [main[n-1]] else []
  {
    assert main[..n] == main[..n-1] + [main[n-1]] && links[..n] == links[..n-1] + [links[n-1]];
    WithLinkNext(main[..n-1], links[..n-1], main[n-1], links[n-1], c);
  }

  lemma {:induction false} LinkedFromRaw(main: seq<FunctionEvent>, ks: seq<KinetoEvent>, recs: seq<KinetoEvent>, traceStart: int, c: int, n: nat)
    requires AllBuilt(main, ks, recs, traceStart) && n <= |main|
    ensures KernelsOf(WithLink(main[..n], LinksOf(ks)[..n], c)) == LinkedKernels(ks, c, n)
  {
    if n > 0 {
      var links := LinksOf(ks);
      LinkedFromRaw(main, ks, recs, traceStart, c, n - 1);
      assert Built(main[n-1], ks[n-1], recs, traceStart) && links[n-1] == ks[n-1].linkedCorrelationId;
      LinkedLast(main, links, c, n);
      LinkedStep(WithLink(main[..n-1], links[..n-1], c), main[n-1], ks[n-1], recs, traceStart, c);
    }
  }

  lemma FallbackFromRaw(useDevice: Option<string>, r: KinetoEvent)
    ensures Fallback(useDevice, r) ==
      if StandInTime(useDevice)(r) > 0 then [Kernel(RewriteName(r.name), r.deviceIndex, StandInTime(useDevice)(r))] else []
  {
  }

  lemma AllLinkedFromRaw(main: seq<FunctionEvent>, ks: seq<KinetoEvent>, recs: seq<KinetoEvent>, traceStart: int, c: int)
    requires AllBuilt(main, ks, recs, traceStart)
    ensures KernelsOf(WithLink(main, LinksOf(ks), c)) == LinkedKernels(ks, c, |ks|)
  {
    LinkedFromRaw(main, ks, recs, traceStart, c, |ks|);
    assert main[..|ks|] == main && LinksOf(ks)[..|ks|] == LinksOf(ks);
  }

  lemma FrontFromRaw(main: seq<FunctionEvent>, ks: seq<KinetoEvent>, recs: seq<KinetoEvent>, traceStart: int, k: nat)
    requires AllBuilt(main, ks, recs, traceStart) && Distinct(main) && k < |main|
    ensures main[k] in WithLink(main, LinksOf(ks), 0) <==> ks[k].linkedCorrelationId == 0
    ensures main[k].id == ks[k].correlationId
    ensures main[k].Sync() <==> ks[k].deviceType == CPU && !ks[k].isAsync && ks[k].startThreadId == ks[k].endThreadId
  {
    WithLinkElements(main, LinksOf(ks), 0);
    assert Built(main[k], ks[k], recs, traceStart);
  }

  lemma ReceivedFromRaw(main: seq<FunctionEvent>, ks: seq<KinetoEvent>, recs: seq<KinetoEvent>, traceStart: int, k: nat)
    requires AllBuilt(main, ks, recs, traceStart) && Distinct(main) && k < |main|
    ensures var r := ks[k];
      Received(WithLink(main, LinksOf(ks), 0), main, LinksOf(ks), k) ==
        if r.linkedCorrelationId == 0 && r.correlationId > 0 && r.deviceType == CPU && !r.isAsync && r.startThreadId == r.endThreadId
        then LinkedKernels(ks, r.correlationId, |ks|) else []
  {
    FrontFromRaw(main, ks, recs, traceStart, k);
    AllLinkedFromRaw(main, ks, recs, traceStart, ks[k].correlationId);
  }

  /**
   The kernels of a parsed event, from the raw events: its stand-in kernel, if it carries a device
   time of its own, and then, if it is an unlinked synchronous CPU event, those linked to its id.
   */
  lemma KernelsFromRaw(f: Forest<FunctionEvent>, main: seq<FunctionEvent>, ks: seq<KinetoEvent>, useDevice: Option<string>,
                       recs: seq<KinetoEvent>, traceStart: int, k: nat)
    requires AllBuilt(main, ks, recs, traceStart) && Distinct(main) && k < |main| && Holds(f, main, ks, useDevice)
    ensures var r, t := ks[k], StandInTime(useDevice)(ks[k]);
      main[k] in f && f[main[k]].kernels ==
        (if t > 0 then [Kernel(RewriteName(r.name), r.deviceIndex, t)] else [])
        + (if r.linkedCorrelationId == 0 && r.correlationId > 0 && r.deviceType == CPU && !r.isAsync && r.startThreadId == r.endThreadId
           then LinkedKernels(ks, r.correlationId, |ks|) else [])
  {
    FallbackFromRaw(useDevice, ks[k]);
    ReceivedFromRaw(main, ks, recs, traceStart, k);
  }
}
