/**
 When the self bytes of a finished profile are the bytes of its memory records, and what they
 are otherwise. The conditions are read off the raw events.
 */
module Conservation {
  import opened Wrappers
  import opened Sums
  import opened Grouping
  import opened EventForest
  import opened EventTree
  import opened EventNesting
  import opened KinetoParse
  import opened TreeTotals
  import opened DeviceTotals
  import opened Profile
  import KeyAverages

  // ---------------------------------------------------------------- which top events are disjoint

  predicate SyncCpu(k: KinetoEvent) { k.deviceType == CPU && !k.isAsync && k.startThreadId == k.endThreadId }

  predicate AroundInTime(o: KinetoEvent, x: KinetoEvent) { o.startNs <= x.startNs < o.endNs && x.endNs <= o.endNs }

  /** Event `o` lies around event `x` and not over exactly the same time. */
  predicate StrictlyAround(o: KinetoEvent, x: KinetoEvent) {
    AroundInTime(o, x) && (o.startNs < x.startNs || x.endNs < o.endNs)
  }

  predicate ApartInTime(a: KinetoEvent, b: KinetoEvent) { a.endNs < b.startNs || b.endNs < a.startNs }

  /** A synchronous CPU event with no other one of its thread strictly around it. */
  predicate Outermost(ks: seq<KinetoEvent>, k: nat)
    requires k < |ks|
  {
    && SyncCpu(ks[k])
    && forall o: nat :: o < |ks| && SyncCpu(ks[o]) && RawThread(ks, o) == RawThread(ks, k) ==> !StrictlyAround(ks[o], ks[k])
  }

  /** Two events of one thread over the same time, which is not just an instant. */
  predicate Twins(ks: seq<KinetoEvent>, a: nat, b: nat)
    requires a < |ks| && b < |ks|
  {
    RawThread(ks, a) == RawThread(ks, b) && ks[a].startNs == ks[b].startNs < ks[a].endNs == ks[b].endNs
  }

  ghost predicate ApartOrTwins(ks: seq<KinetoEvent>, a: nat, b: nat)
    requires a < |ks| && b < |ks|
  {
    ApartInTime(ks[a], ks[b]) || Twins(ks, a, b)
  }

  /** Any two outermost events are disjoint as closed intervals, or twins. */
  ghost predicate Separate(ks: seq<KinetoEvent>) {
    forall a: nat, b: nat {:trigger ApartOrTwins(ks, a, b)} ::
      a < |ks| && b < |ks| && a != b && Outermost(ks, a) && Outermost(ks, b) ==> ApartOrTwins(ks, a, b)
  }

  /** What a parse and the nesting pass leave, as far as it matters here. */
  ghost predicate Tree(tr: Trace) {
    && tr.Parses() && tr.f.Keys == Elements(tr.Parts())
    && tr.Sound()
    && Threaded(tr.threads, tr.main, tr.Ks()) && Innermost(tr.f, tr.all, tr.threads)
  }

  lemma GrownIsTree(tr: Trace)
    requires Grown(tr)
    ensures Tree(tr)
  {
    OneNode(tr.all, tr.events, tr.traceStart, tr.main, tr.top, tr.oom);
    assert forall e: FunctionEvent :: e in Elements(tr.all) <==> e in tr.all;
  }

  lemma InTree(tr: Trace, k: nat)
    requires Tree(tr) && k < |tr.main|
    ensures k < |tr.Ks()| && tr.main[k] in tr.f && tr.main[k] in tr.all && tr.main[k].nodeId == -1
    ensures tr.main[k].start == tr.Ks()[k].startNs - tr.traceStart && tr.main[k].end == tr.Ks()[k].endNs - tr.traceStart
    ensures tr.main[k].Sync() <==> SyncCpu(tr.Ks()[k])
  {
    OneNode(tr.all, tr.events, tr.traceStart, tr.main, tr.top, tr.oom);
    assert Built(tr.main[k], tr.Ks()[k], tr.Recs(), tr.traceStart);
    assert tr.main[k] in tr.Parts() && tr.main[k] in Elements(tr.Parts());
  }

  /** A parent is a main event of the same thread. */
  lemma ParentIsMain(tr: Trace, k: nat) returns (p: nat)
    requires Tree(tr)
    requires k < |tr.main| && tr.main[k] in tr.f && tr.f[tr.main[k]].parent.Some?
    ensures p < |tr.main| && tr.f[tr.main[k]].parent == Some(tr.main[p]) && Around(tr.main[p], tr.main[k])
    ensures p != k && RawThread(tr.Ks(), p) == RawThread(tr.Ks(), k)
    ensures AroundInTime(tr.Ks()[p], tr.Ks()[k])
  {
    InTree(tr, k);
    var x := tr.main[k];
    var q := tr.f[x].parent.value;
    assert LinkOk(tr.f, x) && Around(q, x);
    assert q in tr.f && q in Elements(tr.Parts());
    p := LongEventIsMain(tr.events, tr.traceStart, tr.main, tr.top, tr.oom, q);
    InTree(tr, p);
    assert InnermostAt(tr.f, tr.all, tr.threads, x);
    var ts := ClassOrder(tr.all, tr.threads, GroupKey(tr.threads)(x));
    var i: nat :| i < |ts| && ts[i] == x && IsInnermost(ts, i, tr.f[x].parent);
    ClassOrderElements(tr.all, tr.threads, GroupKey(tr.threads)(x));
    assert q in ts;
  }

  /** Of two events that fit each other the later one has the earlier one before it. */
  lemma OneHasEarlierFit(ts: seq<FunctionEvent>, x: FunctionEvent, y: FunctionEvent, px: Option<FunctionEvent>, py: Option<FunctionEvent>)
    requires x != y && Fits(x, y) && Fits(y, x)
    requires exists i: nat :: i < |ts| && ts[i] == x && IsInnermost(ts, i, px)
    requires exists j: nat :: j < |ts| && ts[j] == y && IsInnermost(ts, j, py)
    ensures px.Some? || py.Some?
  {
    var i: nat :| i < |ts| && ts[i] == x && IsInnermost(ts, i, px);
    var j: nat :| j < |ts| && ts[j] == y && IsInnermost(ts, j, py);
  }

  /** Twins have a parent between them. */
  lemma OneTwinHasParent(tr: Trace, a: nat, b: nat)
    requires Tree(tr) && a < |tr.main| == |tr.Ks()| && b < |tr.main| && a != b
    requires SyncCpu(tr.Ks()[a]) && SyncCpu(tr.Ks()[b]) && Twins(tr.Ks(), a, b)
    ensures tr.main[a] in tr.f && tr.main[b] in tr.f && (tr.f[tr.main[a]].parent.Some? || tr.f[tr.main[b]].parent.Some?)
  {
    InTree(tr, a);
    InTree(tr, b);
    var x, y := tr.main[a], tr.main[b];
    assert x != y by { assert tr.Parts()[a] == x && tr.Parts()[b] == y; }
    assert InnermostAt(tr.f, tr.all, tr.threads, x) && InnermostAt(tr.f, tr.all, tr.threads, y);
    assert GroupKey(tr.threads)(x) == GroupKey(tr.threads)(y);
    OneHasEarlierFit(ClassOrder(tr.all, tr.threads, GroupKey(tr.threads)(x)), x, y, tr.f[x].parent, tr.f[y].parent);
  }

  /** An event strictly inside another of its thread has a parent. */
  lemma InnerHasParent(tr: Trace, k: nat, o: nat)
    requires Tree(tr)
    requires k < |tr.main| == |tr.Ks()| && o < |tr.main| && SyncCpu(tr.Ks()[k]) && SyncCpu(tr.Ks()[o])
    requires RawThread(tr.Ks(), o) == RawThread(tr.Ks(), k) && StrictlyAround(tr.Ks()[o], tr.Ks()[k])
    ensures tr.main[k] in tr.f && tr.f[tr.main[k]].parent.Some?
  {
    InTree(tr, k);
    InTree(tr, o);
    InsideMainHasParent(tr, k, o);
  }

  // ---------------------------------------------------------------- the same on positions of raw events

  /** `par` gives each raw event the position of its parent, or -1; `rk` grows from parent to child. */
  ghost predicate ParentOk(ks: seq<KinetoEvent>, par: seq<int>, rk: seq<int>, k: nat)
    requires |par| == |rk| == |ks| && k < |ks|
  {
    par[k] == -1 || (&& 0 <= par[k] < |ks| && rk[par[k]] < rk[k] && SyncCpu(ks[par[k]])
                     && RawThread(ks, par[k]) == RawThread(ks, k) && AroundInTime(ks[par[k]], ks[k]))
  }

  ghost predicate PairOk(ks: seq<KinetoEvent>, par: seq<int>, a: nat, b: nat)
    requires |par| == |ks| && a < |ks| && b < |ks|
  {
    SyncCpu(ks[a]) && SyncCpu(ks[b]) && RawThread(ks, a) == RawThread(ks, b) && a != b ==>
      (StrictlyAround(ks[b], ks[a]) ==> par[a] != -1) && (Twins(ks, a, b) ==> par[a] != -1 || par[b] != -1)
  }

  ghost predicate Links(ks: seq<KinetoEvent>, par: seq<int>, rk: seq<int>) {
    && |par| == |rk| == |ks|
    && (forall k: nat {:trigger ParentOk(ks, par, rk, k)} :: k < |ks| ==> ParentOk(ks, par, rk, k))
    && (forall a: nat, b: nat {:trigger PairOk(ks, par, a, b)} :: a < |ks| && b < |ks| ==> PairOk(ks, par, a, b))
  }

  ghost predicate Top(ks: seq<KinetoEvent>, par: seq<int>, k: nat)
    requires |par| == |ks| && k < |ks|
  {
    SyncCpu(ks[k]) && par[k] == -1
  }

  lemma TopIsOutermost(ks: seq<KinetoEvent>, par: seq<int>, rk: seq<int>, k: nat)
    requires Links(ks, par, rk) && k < |ks| && Top(ks, par, k)
    ensures Outermost(ks, k)
  {
    forall o: nat | o < |ks| && SyncCpu(ks[o]) && RawThread(ks, o) == RawThread(ks, k) ensures !StrictlyAround(ks[o], ks[k]) {
      assert PairOk(ks, par, k, o);
    }
  }

  ghost function Lower(rk: seq<int>, k: nat): set<int>
    requires k < |rk|
  {
    set j | 0 <= j < |rk| && rk[j] < rk[k]
  }

  lemma TwinOfOutermost(ks: seq<KinetoEvent>, p: nat, k: nat)
    requires p < |ks| && k < |ks| && Outermost(ks, k) && SyncCpu(ks[p])
    requires RawThread(ks, p) == RawThread(ks, k) && AroundInTime(ks[p], ks[k])
    ensures Twins(ks, p, k) && Outermost(ks, p)
  {
    assert !StrictlyAround(ks[p], ks[k]);
  }

  /** Above an outermost event there is nothing but twins of it. */
  lemma {:induction false} TopTwin(ks: seq<KinetoEvent>, par: seq<int>, rk: seq<int>, k: nat) returns (t: nat)
    requires Links(ks, par, rk) && k < |ks| && Outermost(ks, k)
    ensures t < |ks| && Top(ks, par, t) && (t == k || Twins(ks, t, k))
    decreases |Lower(rk, k)|
  {
    t := k;
    assert ParentOk(ks, par, rk, k);
    if par[k] != -1 {
      var p := par[k];
      TwinOfOutermost(ks, p, k);
      assert p in Lower(rk, k) && p !in Lower(rk, p) && Lower(rk, p) <= Lower(rk, k);
      Smaller(Lower(rk, p), Lower(rk, k), p);
      t := TopTwin(ks, par, rk, p);
    }
  }

  ghost predicate TopsApart(ks: seq<KinetoEvent>, par: seq<int>)
    requires |par| == |ks|
  {
    forall a: nat, b: nat {:trigger Top(ks, par, a), Top(ks, par, b)} ::
      a < |ks| && b < |ks| && a != b && Top(ks, par, a) && Top(ks, par, b) ==> ApartInTime(ks[a], ks[b])
  }

  lemma ApartByTwins(ks: seq<KinetoEvent>, a: nat, b: nat, s: nat, t: nat)
    requires a < |ks| && b < |ks| && s < |ks| && t < |ks| && a != b
    requires (s == a || Twins(ks, s, a)) && (t == b || Twins(ks, t, b)) && (s == t || ApartInTime(ks[s], ks[t]))
    ensures ApartOrTwins(ks, a, b)
  {
  }

  lemma SeparateIff(ks: seq<KinetoEvent>, par: seq<int>, rk: seq<int>)
    requires Links(ks, par, rk)
    ensures TopsApart(ks, par) <==> Separate(ks)
  {
    if Separate(ks) {
      forall a: nat, b: nat | a < |ks| && b < |ks| && a != b && Top(ks, par, a) && Top(ks, par, b) ensures ApartInTime(ks[a], ks[b]) {
        TopIsOutermost(ks, par, rk, a);
        TopIsOutermost(ks, par, rk, b);
        assert ApartOrTwins(ks, a, b) && PairOk(ks, par, a, b);
      }
    }
    if TopsApart(ks, par) {
      forall a: nat, b: nat | a < |ks| && b < |ks| && a != b && Outermost(ks, a) && Outermost(ks, b) ensures ApartOrTwins(ks, a, b) {
        var s := TopTwin(ks, par, rk, a);
        var t := TopTwin(ks, par, rk, b);
        ApartByTwins(ks, a, b, s, t);
      }
    }
  }

  // ---------------------------------------------------------------- back to the tree

  ghost function ParentPlace(f: Forest<FunctionEvent>, main: seq<FunctionEvent>, k: nat): int
    requires k < |main|
  {
    if main[k] in f && exists p :: 0 <= p < |main| && f[main[k]].parent == Some(main[p])
    then var p :| 0 <= p < |main| && f[main[k]].parent == Some(main[p]); p
    else -1
  }

  lemma PlaceFits(tr: Trace, k: nat)
    requires Tree(tr) && k < |tr.main| == |tr.Ks()|
    ensures tr.main[k] in tr.f && (ParentPlace(tr.f, tr.main, k) == -1 <==> tr.f[tr.main[k]].parent.None?)
    ensures var p, ks := ParentPlace(tr.f, tr.main, k), tr.Ks();
      p != -1 ==> (&& 0 <= p < |tr.main| && tr.rank(tr.main[p]) < tr.rank(tr.main[k]) && SyncCpu(ks[p])
                   && RawThread(ks, p) == RawThread(ks, k) && AroundInTime(ks[p], ks[k]))
  {
    InTree(tr, k);
    if tr.f[tr.main[k]].parent.Some? {
      var q := ParentIsMain(tr, k);
      var p := ParentPlace(tr.f, tr.main, k);
      InTree(tr, q);
      assert tr.Parts()[p] == tr.main[p] && tr.Parts()[q] == tr.main[q];
      assert p == q;
    }
  }

  lemma TreeHasLinks(tr: Trace) returns (par: seq<int>, rk: seq<int>)
    requires Tree(tr)
    ensures |tr.main| == |tr.Ks()| && Links(tr.Ks(), par, rk)
    ensures forall k: nat {:trigger tr.main[k]} :: k < |tr.main| ==> (tr.main[k] in tr.Tops() <==> Top(tr.Ks(), par, k))
  {
    var ks := tr.Ks();
    par := seq(|tr.main|, k requires 0 <= k < |tr.main| => ParentPlace(tr.f, tr.main, k));
    rk := seq(|tr.main|, k requires 0 <= k < |tr.main| => tr.rank(tr.main[k]));
    forall k: nat | k < |ks| ensures ParentOk(ks, par, rk, k) {
      PlaceFits(tr, k);
    }
    forall a: nat, b: nat | a < |ks| && b < |ks| ensures PairOk(ks, par, a, b) {
      PlaceFits(tr, a);
      PlaceFits(tr, b);
      if SyncCpu(ks[a]) && SyncCpu(ks[b]) && RawThread(ks, a) == RawThread(ks, b) && a != b {
        if StrictlyAround(ks[b], ks[a]) { InnerHasParent(tr, a, b); }
        if Twins(ks, a, b) { OneTwinHasParent(tr, a, b); }
      }
    }
    forall k: nat | k < |tr.main| ensures tr.main[k] in tr.Tops() <==> Top(ks, par, k) {
      PlaceFits(tr, k);
      InTree(tr, k);
    }
  }

  lemma TwoPlaces(tr: Trace, a: nat, b: nat)
    requires Tree(tr) && a < |tr.main| == |tr.Ks()| && b < |tr.main|
    ensures tr.main[a] == tr.main[b] ==> a == b
    ensures ApartInTime(tr.Ks()[a], tr.Ks()[b]) <==> tr.main[a].end < tr.main[b].start || tr.main[b].end < tr.main[a].start
  {
    InTree(tr, a);
    InTree(tr, b);
    assert tr.Parts()[a] == tr.main[a] && tr.Parts()[b] == tr.main[b];
  }

  /**
   The exact condition, on raw events alone, under which no instant lies in two top events: any
   two outermost synchronous CPU events are disjoint as closed intervals, or twins.
   */
  lemma TopsApartIff(tr: Trace)
    requires Tree(tr)
    ensures Apart(tr.Tops()) <==> Separate(tr.Ks())
  {
    var ks := tr.Ks();
    var par, rk := TreeHasLinks(tr);
    SeparateIff(ks, par, rk);
    forall a: nat, b: nat | a < |tr.main| && b < |tr.main|
      ensures tr.main[a] == tr.main[b] ==> a == b
      ensures ApartInTime(ks[a], ks[b]) <==> tr.main[a].end < tr.main[b].start || tr.main[b].end < tr.main[a].start
    {
      TwoPlaces(tr, a, b);
    }
    ApartByPlace(tr.Tops(), tr.main, ks, par);
  }

  lemma ApartByPlace(tops: set<FunctionEvent>, main: seq<FunctionEvent>, ks: seq<KinetoEvent>, par: seq<int>)
    requires |main| == |ks| == |par| && forall e :: e in tops ==> e in main
    requires forall k: nat {:trigger main[k]} :: k < |main| ==> (main[k] in tops <==> Top(ks, par, k))
    requires forall a: nat, b: nat {:trigger main[a], main[b]} :: a < |main| && b < |main| ==>
      && (main[a] == main[b] ==> a == b)
      && (ApartInTime(ks[a], ks[b]) <==> main[a].end < main[b].start || main[b].end < main[a].start)
    ensures Apart(tops) <==> TopsApart(ks, par)
  {
    if TopsApart(ks, par) {
      forall x, y | x in tops && y in tops && x != y ensures x.end < y.start || y.end < x.start {
        var a: nat :| a < |main| && main[a] == x;
        var b: nat :| b < |main| && main[b] == y;
        assert Top(ks, par, a) && Top(ks, par, b);
      }
    }
    if Apart(tops) {
      forall a: nat, b: nat | a < |ks| && b < |ks| && a != b && Top(ks, par, a) && Top(ks, par, b) ensures ApartInTime(ks[a], ks[b]) {
        assert main[a] in tops && main[b] in tops && main[a] != main[b];
      }
    }
  }

  // ---------------------------------------------------------------- how often a record counts

  /** An outermost event that stands before its twins. */
  predicate Leads(ks: seq<KinetoEvent>, k: nat)
    requires k < |ks|
  {
    Outermost(ks, k) && forall o: nat :: o < k && SyncCpu(ks[o]) ==> !Twins(ks, o, k)
  }

  /** The outermost events over the instant of record `j`, twins taken once. */
  function LeadersAt(recs: seq<KinetoEvent>, ks: seq<KinetoEvent>, j: nat): set<int>
    requires j < |recs|
  {
    set k | 0 <= k < |ks| && Leads(ks, k) && ks[k].startNs <= recs[j].startNs <= ks[k].endNs
  }

  /** How often record `j` counts, from the raw events alone. */
  ghost function RawTimes(recs: seq<KinetoEvent>, ks: seq<KinetoEvent>, j: nat): int
    requires j < |recs|
  {
    |LeadersAt(recs, ks, j)|
    + if exists k :: 0 <= k < |ks| && ks[k].deviceType == CPU && ks[k].startNs <= recs[j].startNs <= ks[k].endNs then 0 else 1
  }

  lemma {:induction false} LeaderOf(ks: seq<KinetoEvent>, k: nat) returns (l: nat)
    requires k < |ks| && Outermost(ks, k)
    ensures l < |ks| && Leads(ks, l) && (l == k || Twins(ks, l, k))
    decreases k
  {
    l := k;
    if o: nat :| o < k && SyncCpu(ks[o]) && Twins(ks, o, k) {
      TwinOfOutermost(ks, o, k);
      l := LeaderOf(ks, o);
    }
  }

  /** A top event that is the outermost event `k` or a twin of it. */
  ghost predicate StandsFor(ks: seq<KinetoEvent>, par: seq<int>, k: nat, t: nat)
    requires |par| == |ks| && k < |ks|
  {
    t < |ks| && Top(ks, par, t) && (t == k || Twins(ks, t, k))
  }

  ghost function Stand(ks: seq<KinetoEvent>, par: seq<int>, k: nat): (t: nat)
    requires |par| == |ks| && k < |ks|
    ensures (exists u: nat :: StandsFor(ks, par, k, u)) ==> StandsFor(ks, par, k, t)
  {
    if u: nat :| StandsFor(ks, par, k, u) then u else 0
  }

  ghost function TopsAt(recs: seq<KinetoEvent>, ks: seq<KinetoEvent>, par: seq<int>, j: nat): set<int>
    requires |par| == |ks| && j < |recs|
  {
    set k | 0 <= k < |ks| && Top(ks, par, k) && Within(recs[j], ks[k].startNs, ks[k].endNs)
  }

  lemma StandIsTop(ks: seq<KinetoEvent>, par: seq<int>, rk: seq<int>, k: nat)
    requires Links(ks, par, rk) && k < |ks| && Leads(ks, k)
    ensures StandsFor(ks, par, k, Stand(ks, par, k))
  {
    var t := TopTwin(ks, par, rk, k);
    assert StandsFor(ks, par, k, t);
  }

  lemma StandsDiffer(ks: seq<KinetoEvent>, par: seq<int>, a: nat, b: nat, t: nat)
    requires |par| == |ks| && a < |ks| && b < |ks| && Leads(ks, a) && Leads(ks, b)
    requires StandsFor(ks, par, a, t) && StandsFor(ks, par, b, t)
    ensures a == b
  {
  }

  lemma TopStands(ks: seq<KinetoEvent>, par: seq<int>, rk: seq<int>, t: nat) returns (l: nat)
    requires Links(ks, par, rk) && t < |ks| && Top(ks, par, t)
    ensures l < |ks| && Leads(ks, l) && (l == t || Twins(ks, l, t)) && Stand(ks, par, l) == t
  {
    TopIsOutermost(ks, par, rk, t);
    l := LeaderOf(ks, t);
    StandIsTop(ks, par, rk, l);
    assert PairOk(ks, par, t, Stand(ks, par, l));
  }

  lemma StandHolds(recs: seq<KinetoEvent>, ks: seq<KinetoEvent>, par: seq<int>, rk: seq<int>, j: nat, k: int)
    requires Links(ks, par, rk) && j < |recs| && k in LeadersAt(recs, ks, j)
    ensures StandsFor(ks, par, k, Stand(ks, par, k)) && Stand(ks, par, k) in TopsAt(recs, ks, par, j)
  {
    StandIsTop(ks, par, rk, k);
  }

  lemma TopHolds(recs: seq<KinetoEvent>, ks: seq<KinetoEvent>, par: seq<int>, rk: seq<int>, j: nat, t: int) returns (l: int)
    requires Links(ks, par, rk) && j < |recs| && t in TopsAt(recs, ks, par, j)
    ensures l in LeadersAt(recs, ks, j) && Stand(ks, par, l) == t
  {
    l := TopStands(ks, par, rk, t);
  }

  /** Each twin class of outermost events has one top event. */
  lemma TopsAreLeaders(recs: seq<KinetoEvent>, ks: seq<KinetoEvent>, par: seq<int>, rk: seq<int>, j: nat)
    requires Links(ks, par, rk) && j < |recs|
    ensures |LeadersAt(recs, ks, j)| == |TopsAt(recs, ks, par, j)|
  {
    var a, b := LeadersAt(recs, ks, j), TopsAt(recs, ks, par, j);
    var m: map<int, int> := map k | k in a :: Stand(ks, par, k);
    forall k | k in a ensures m[k] in b { StandHolds(recs, ks, par, rk, j, k); }
    forall x, y | x in a && y in a && m[x] == m[y] ensures x == y {
      StandHolds(recs, ks, par, rk, j, x);
      StandHolds(recs, ks, par, rk, j, y);
      StandsDiffer(ks, par, x, y, m[x]);
    }
    forall t | t in b ensures exists k :: k in a && m[k] == t {
      var l := TopHolds(recs, ks, par, rk, j, t);
      assert l in a && m[l] == t;
    }
    BijectionSize(a, b, m);
  }

  lemma HeldInstant(tr: Trace, k: nat, j: nat)
    requires Tree(tr) && k < |tr.main| && j < |tr.Recs()|
    ensures tr.main[k] in Holding(tr.Tops(), tr.traceStart, tr.Recs()[j].startNs)
       <==> tr.main[k] in tr.Tops() && Within(tr.Recs()[j], tr.Ks()[k].startNs, tr.Ks()[k].endNs)
  {
    InTree(tr, k);
  }

  lemma PlacesOfHolding(tr: Trace, par: seq<int>, j: nat)
    requires Tree(tr) && j < |tr.Recs()|
    requires |tr.main| == |tr.Ks()| == |par|
    requires forall k: nat {:trigger tr.main[k]} :: k < |tr.main| ==> (tr.main[k] in tr.Tops() <==> Top(tr.Ks(), par, k))
    ensures |TopsAt(tr.Recs(), tr.Ks(), par, j)| == |Holding(tr.Tops(), tr.traceStart, tr.Recs()[j].startNs)|
  {
    var recs, ks := tr.Recs(), tr.Ks();
    var a, h := TopsAt(recs, ks, par, j), Holding(tr.Tops(), tr.traceStart, recs[j].startNs);
    forall k | 0 <= k < |tr.main| ensures tr.main[k] in h <==> k in a {
      var n: nat := k;
      assert tr.main[n] in tr.Tops() <==> Top(ks, par, n);
      HeldInstant(tr, n, j);
    }
    DistinctMain(tr.all, tr.events, tr.traceStart, tr.main, tr.top, tr.oom);
    PlacesSize(tr.main, a, h);
  }

  lemma DistinctMain(all: seq<FunctionEvent>, events: seq<KinetoEvent>, traceStart: int,
                     main: seq<FunctionEvent>, top: seq<FunctionEvent>, oom: seq<FunctionEvent>)
    requires Parsed(all, events, traceStart, main, top, oom)
    ensures Distinct(main)
  {
    assert main + top + oom == main + (top + oom);
    DistinctConcat(main, top + oom);
  }

  /** A record counts once per outermost event over its instant, twins taken once, or once on its own if no CPU event covers it. */
  lemma TimesFromRaw(tr: Trace, j: nat)
    requires Tree(tr) && j < |tr.Recs()|
    ensures Times(tr.Recs(), tr.Ks(), tr.Tops(), tr.traceStart, j) == RawTimes(tr.Recs(), tr.Ks(), j)
  {
    var par, rk := TreeHasLinks(tr);
    TopsAreLeaders(tr.Recs(), tr.Ks(), par, rk, j);
    PlacesOfHolding(tr, par, j);
  }

  // ---------------------------------------------------------------- CPU time

  /** The duration of raw event `k`. */
  function TimeOf(ks: seq<KinetoEvent>): int -> int {
    (k: int) => if 0 <= k < |ks| then ks[k].endNs - ks[k].startNs else 0
  }

  function Leaders(ks: seq<KinetoEvent>): set<int> { set k | 0 <= k < |ks| && Leads(ks, k) }

  ghost function TopPlaces(ks: seq<KinetoEvent>, par: seq<int>): set<int>
    requires |par| == |ks|
  {
    set k | 0 <= k < |ks| && Top(ks, par, k)
  }

  lemma StandPlace(ks: seq<KinetoEvent>, par: seq<int>, rk: seq<int>, k: nat)
    requires Links(ks, par, rk) && k < |ks| && Leads(ks, k)
    ensures StandsFor(ks, par, k, Stand(ks, par, k)) && Stand(ks, par, k) in TopPlaces(ks, par)
    ensures TimeOf(ks)(k) == TimeOf(ks)(Stand(ks, par, k))
  {
    StandIsTop(ks, par, rk, k);
  }

  lemma PlaceStands(ks: seq<KinetoEvent>, par: seq<int>, rk: seq<int>, t: int) returns (l: nat)
    requires Links(ks, par, rk) && t in TopPlaces(ks, par)
    ensures l in Leaders(ks) && Stand(ks, par, l) == t
  {
    l := TopStands(ks, par, rk, t);
  }

  /** The top events take as long as the outermost events, twins taken once. */
  lemma TopTimeIsLeaderTime(ks: seq<KinetoEvent>, par: seq<int>, rk: seq<int>)
    requires Links(ks, par, rk)
    ensures SetSum(Leaders(ks), TimeOf(ks)) == SetSum(TopPlaces(ks, par), TimeOf(ks))
  {
    var a, b := Leaders(ks), TopPlaces(ks, par);
    var m: map<int, int> := map k | k in a :: Stand(ks, par, k);
    forall k | k in a ensures m[k] in b && TimeOf(ks)(k) == TimeOf(ks)(m[k]) { StandPlace(ks, par, rk, k); }
    forall x, y | x in a && y in a && m[x] == m[y] ensures x == y {
      StandPlace(ks, par, rk, x);
      StandPlace(ks, par, rk, y);
      StandsDiffer(ks, par, x, y, m[x]);
    }
    forall t | t in b ensures exists k :: k in a && m[k] == t {
      var l := PlaceStands(ks, par, rk, t);
      assert l in a && m[l] == t;
    }
    BijectionSum(a, b, m, TimeOf(ks), TimeOf(ks));
  }

  lemma TopWeight(tr: Trace, k: nat)
    requires Tree(tr) && k < |tr.main| && SyncCpu(tr.Ks()[k])
    ensures Weight(CpuTime)(tr.main[k]) == TimeOf(tr.Ks())(k)
  {
    InTree(tr, k);
    SyncWeight(tr.main[k]);
  }

  lemma SyncWeight(e: FunctionEvent)
    requires e.Sync()
    ensures Weight(CpuTime)(e) == e.end - e.start
  {
    assert Total(CpuTime, e) == e.end - e.start;
  }

  /** The time of the top main events, from the raw events. */
  lemma TopTimeFromRaw(tr: Trace)
    requires Tree(tr)
    ensures SetSum(tr.Tops(), Weight(CpuTime)) == SetSum(Leaders(tr.Ks()), TimeOf(tr.Ks()))
  {
    var ks, main, tops := tr.Ks(), tr.main, tr.Tops();
    var par, rk := TreeHasLinks(tr);
    TopTimeIsLeaderTime(ks, par, rk);
    DistinctMain(tr.all, tr.events, tr.traceStart, tr.main, tr.top, tr.oom);
    var a := TopPlaces(ks, par);
    forall k | 0 <= k < |main| && k in a ensures TimeOf(ks)(k) == Weight(CpuTime)(main[k]) { TopWeight(tr, k); }
    forall k | 0 <= k < |main| ensures main[k] in tops <==> k in a {
      var n: nat := k;
      assert main[n] in tops <==> Top(ks, par, n);
    }
    PlacesSum(main, a, tops, TimeOf(ks), Weight(CpuTime));
  }

  lemma RecordTakesNoTime(tr: Trace, e: FunctionEvent)
    requires tr.Parses() && e in tr.Parts() && e !in tr.main
    ensures Weight(CpuTime)(e) == 0
  {
    assert e in tr.top || e in tr.oom;
  }

  /** Record events take no time. */
  lemma RecordTopsTakeNoTime(tr: Trace)
    requires Tree(tr)
    ensures SetSum(TopsIn(tr.f, tr.Parts()), Weight(CpuTime)) == SetSum(tr.Tops(), Weight(CpuTime))
  {
    var rest := TopsIn(tr.f, tr.Parts()) - tr.Tops();
    assert tr.Tops() <= TopsIn(tr.f, tr.Parts()) && tr.Tops() + rest == TopsIn(tr.f, tr.Parts());
    assert forall e :: e in rest ==> e in tr.Parts() && e !in tr.main;
    SetSumUnion(tr.Tops(), rest, Weight(CpuTime));
    forall e | e in rest ensures Weight(CpuTime)(e) == 0 { RecordTakesNoTime(tr, e); }
    SetSumSame(rest, Weight(CpuTime), (e: FunctionEvent) => 0);
    SetSumZero(rest);
  }

  /**
   The total self CPU time of the finished list is a function of the raw events: the durations of
   the outermost synchronous CPU events, twins taken once.
   */
  lemma CpuTimeFromRaw(list: EventList, tr: Trace)
    requires Grown(tr) && CollapseOf(list, tr)
    ensures SelfTotal(CpuTime, list.events) == SetSum(Leaders(tr.Ks()), TimeOf(tr.Ks()))
  {
    GrownIsTree(tr);
    AllBalanced(list, tr);
    SameTops(list, tr);
    RecordTopsTakeNoTime(tr);
    TopTimeFromRaw(tr);
  }

  /**
   The kernel time of the finished list: the stand-in times and the linked device times of the raw
   events, less the kernel time of the parents of removed events.
   */
  lemma KernelTimeFromRaw(list: EventList, tr: Trace)
    requires Grown(tr) && CollapseOf(list, tr)
    ensures ListKernelTime(list.events)
         == SeqSum(tr.Ks(), StandInTime(tr.useDevice)) + RawHandedOver(tr.Ks(), |tr.Ks()|) - LostKernelTime(tr.f, tr.all)
  {
    IsFinished(list, tr);
    DistinctMain(tr.all, tr.events, tr.traceStart, tr.main, tr.top, tr.oom);
    GrantedFromRaw(tr.main, tr.Ks(), tr.useDevice, tr.Recs(), tr.traceStart);
  }

  /** The kernels that the tree holds before duplicates are removed, from the raw events. */
  lemma TreeKernelsFromRaw(tr: Trace, k: nat)
    requires Grown(tr) && k < |tr.main|
    ensures k < |tr.Ks()| && tr.main[k] in tr.f && var r, t := tr.Ks()[k], StandInTime(tr.useDevice)(tr.Ks()[k]);
      tr.f[tr.main[k]].kernels ==
        (if t > 0 then [Kernel(RewriteName(r.name), r.deviceIndex, t)] else [])
        + (if r.linkedCorrelationId == 0 && r.correlationId > 0 && SyncCpu(r) then LinkedKernels(tr.Ks(), r.correlationId, |tr.Ks()|) else [])
  {
    DistinctMain(tr.all, tr.events, tr.traceStart, tr.main, tr.top, tr.oom);
    KernelsFromRaw(tr.f, tr.main, tr.Ks(), tr.useDevice, tr.Recs(), tr.traceStart, k);
  }

  // ---------------------------------------------------------------- records counted twice

  /** Two outermost events that are not twins share the instant of record `j`. */
  ghost predicate SharedBy(recs: seq<KinetoEvent>, ks: seq<KinetoEvent>, j: nat, a: nat, b: nat)
    requires j < |recs|
  {
    && a < |ks| && b < |ks| && a != b && Outermost(ks, a) && Outermost(ks, b) && !Twins(ks, a, b)
    && ks[a].startNs <= recs[j].startNs <= ks[a].endNs && ks[b].startNs <= recs[j].startNs <= ks[b].endNs
  }

  ghost predicate Shared(recs: seq<KinetoEvent>, ks: seq<KinetoEvent>, j: nat)
    requires j < |recs|
  {
    exists a: nat, b: nat :: SharedBy(recs, ks, j, a, b)
  }

  lemma TwoOrMore<T>(h: set<T>)
    ensures |h| >= 2 <==> exists a, b :: a in h && b in h && a != b
  {
    if a, b :| a in h && b in h && a != b {
      SubsetSize({a, b}, h);
    } else if h != {} {
      var e :| e in h;
      SubsetSize(h, {e});
    }
  }

  lemma LeaderIsCharged(recs: seq<KinetoEvent>, ks: seq<KinetoEvent>, j: nat)
    requires j < |recs| && LeadersAt(recs, ks, j) != {}
    ensures Charged(recs, ks, j)
  {
    var k :| k in LeadersAt(recs, ks, j);
  }

  lemma SharedIff(recs: seq<KinetoEvent>, ks: seq<KinetoEvent>, j: nat)
    requires j < |recs|
    ensures RawTimes(recs, ks, j) >= 2 <==> Shared(recs, ks, j)
  {
    var h := LeadersAt(recs, ks, j);
    TwoOrMore(h);
    if h != {} { LeaderIsCharged(recs, ks, j); }
    if a, b :| a in h && b in h && a != b {
      assert SharedBy(recs, ks, j, a, b);
    }
    if a: nat, b: nat :| SharedBy(recs, ks, j, a, b) {
      var s := LeaderOf(ks, a);
      var t := LeaderOf(ks, b);
      assert s in h && t in h && s != t;
    }
  }

  /**
   A record counts more than once if and only if two outermost synchronous CPU events that are
   not twins share its instant.
   */
  lemma CountedTwiceIff(tr: Trace, j: nat)
    requires Tree(tr) && j < |tr.Recs()|
    ensures Times(tr.Recs(), tr.Ks(), tr.Tops(), tr.traceStart, j) >= 2 <==> Shared(tr.Recs(), tr.Ks(), j)
  {
    TimesFromRaw(tr, j);
    SharedIff(tr.Recs(), tr.Ks(), j);
  }

  // ---------------------------------------------------------------- what is conserved

  /** The bytes of the records among the first `n` that only asynchronous CPU events cover. */
  ghost function DroppedBytes(recs: seq<KinetoEvent>, ks: seq<KinetoEvent>, w: KinetoEvent -> int, n: nat): int
    requires n <= |recs|
  {
    if n == 0 then 0 else DroppedBytes(recs, ks, w, n - 1) + if OnlyAsync(recs, ks, n - 1) then w(recs[n-1]) else 0
  }

  /** Record `j` counts once, or not at all if only asynchronous CPU events cover it. */
  ghost predicate CountedOrDropped(recs: seq<KinetoEvent>, ks: seq<KinetoEvent>, tops: set<FunctionEvent>, traceStart: int, j: nat)
    requires j < |recs|
  {
    Times(recs, ks, tops, traceStart, j) == if OnlyAsync(recs, ks, j) then 0 else 1
  }

  lemma {:induction false} AccountedLessDropped(recs: seq<KinetoEvent>, ks: seq<KinetoEvent>, tops: set<FunctionEvent>, traceStart: int,
                                                w: KinetoEvent -> int, n: nat)
    requires n <= |recs| && forall j: nat :: j < n ==> CountedOrDropped(recs, ks, tops, traceStart, j)
    ensures Accounted(recs, ks, tops, traceStart, w, n) == SeqSum(recs[..n], w) - DroppedBytes(recs, ks, w, n)
  {
    if n > 0 {
      AccountedLessDropped(recs, ks, tops, traceStart, w, n - 1);
      assert recs[..n][..n-1] == recs[..n-1];
      assert CountedOrDropped(recs, ks, tops, traceStart, n - 1);
    }
  }

  /** Without out-of-memory records the self bytes of the finished list are the accounted bytes. */
  lemma NoOutOfMemory(m: Metric, list: EventList, tr: Trace)
    requires m != CpuTime && Grown(tr)
    requires CollapseOf(list, tr)
    requires Named(tr.events, OUT_OF_MEMORY_EVENT_NAME) == []
    ensures SelfTotal(m, list.events)
         == Accounted(tr.Recs(), tr.Ks(), tr.Tops(), tr.traceStart, Bytes(m), |tr.Recs()|)
  {
    AllBalanced(list, tr);
    SameTops(list, tr);
    assert tr.oom == [] && Elements(tr.oom) == {};
  }

  /** A record whose instant is not shared counts once or is dropped. */
  lemma OnceOrDropped(tr: Trace, j: nat)
    requires Tree(tr) && j < |tr.Recs()|
    requires !Shared(tr.Recs(), tr.Ks(), j)
    ensures CountedOrDropped(tr.Recs(), tr.Ks(), tr.Tops(), tr.traceStart, j)
  {
    DroppedIff(tr, j);
    CountedTwiceIff(tr, j);
  }

  /**
   End to end, from raw events to the finished list: if no two outermost synchronous CPU events
   that are not twins share the instant of a record, and there are no out-of-memory records, the
   self bytes of the list are the bytes of all records less those that only asynchronous CPU
   events cover.
   */
  lemma BytesLessDropped(m: Metric, list: EventList, tr: Trace)
    requires m != CpuTime && Grown(tr)
    requires CollapseOf(list, tr)
    requires forall j: nat :: j < |tr.Recs()| ==> !Shared(tr.Recs(), tr.Ks(), j)
    requires Named(tr.events, OUT_OF_MEMORY_EVENT_NAME) == []
    ensures SelfTotal(m, list.events)
         == SeqSum(tr.Recs(), Bytes(m)) - DroppedBytes(tr.Recs(), tr.Ks(), Bytes(m), |tr.Recs()|)
  {
    var recs, ks, tops := tr.Recs(), tr.Ks(), tr.Tops();
    GrownIsTree(tr);
    NoOutOfMemory(m, list, tr);
    forall j: nat | j < |recs| ensures CountedOrDropped(recs, ks, tops, tr.traceStart, j) {
      OnceOrDropped(tr, j);
    }
    AccountedLessDropped(recs, ks, tops, tr.traceStart, Bytes(m), |recs|);
    assert recs[..|recs|] == recs;
  }

  /** The bytes of the first `n` records, each as often as the raw events say. */
  ghost function RawBytes(recs: seq<KinetoEvent>, ks: seq<KinetoEvent>, w: KinetoEvent -> int, n: nat): int
    requires n <= |recs|
  {
    if n == 0 then 0 else RawBytes(recs, ks, w, n - 1) + RawTimes(recs, ks, n - 1) * w(recs[n-1])
  }

  lemma {:induction false} AccountedIsRaw(recs: seq<KinetoEvent>, ks: seq<KinetoEvent>, tops: set<FunctionEvent>, traceStart: int,
                                          w: KinetoEvent -> int, n: nat)
    requires n <= |recs| && forall j: nat :: j < n ==> Times(recs, ks, tops, traceStart, j) == RawTimes(recs, ks, j)
    ensures Accounted(recs, ks, tops, traceStart, w, n) == RawBytes(recs, ks, w, n)
  {
    if n > 0 { AccountedIsRaw(recs, ks, tops, traceStart, w, n - 1); }
  }

  /**
   Without out-of-memory records the self bytes of the finished list are a function of the raw
   events: each record as often as there are outermost events over its instant, twins taken once.
   */
  lemma BytesFromRaw(m: Metric, list: EventList, tr: Trace)
    requires m != CpuTime && Grown(tr)
    requires CollapseOf(list, tr)
    requires Named(tr.events, OUT_OF_MEMORY_EVENT_NAME) == []
    ensures SelfTotal(m, list.events) == RawBytes(tr.Recs(), tr.Ks(), Bytes(m), |tr.Recs()|)
  {
    var recs, ks, tops := tr.Recs(), tr.Ks(), tr.Tops();
    GrownIsTree(tr);
    NoOutOfMemory(m, list, tr);
    forall j: nat | j < |recs| ensures Times(recs, ks, tops, tr.traceStart, j) == RawTimes(recs, ks, j) {
      TimesFromRaw(tr, j);
    }
    AccountedIsRaw(recs, ks, tops, tr.traceStart, Bytes(m), |recs|);
  }

  /** The bytes of the first `n` records of the given device types, each as often as the raw events say. */
  ghost function BytesOfTypes(recs: seq<KinetoEvent>, ks: seq<KinetoEvent>, types: set<DeviceType>, n: nat): int
    requires n <= |recs|
  {
    if n == 0 then 0 else
      BytesOfTypes(recs, ks, types, n - 1) + if recs[n-1].deviceType in types then RawTimes(recs, ks, n - 1) * recs[n-1].nbytes else 0
  }

  lemma {:induction false} RawBytesByType(recs: seq<KinetoEvent>, ks: seq<KinetoEvent>, n: nat)
    requires n <= |recs|
    ensures RawBytes(recs, ks, Bytes(CpuMemory), n) == BytesOfTypes(recs, ks, {CPU, MKLDNN, IDEEP}, n)
    ensures RawBytes(recs, ks, Bytes(DeviceMemory), n) == BytesOfTypes(recs, ks, {PrivateUse1, HIP}, n)
  {
    if n > 0 {
      RawBytesByType(recs, ks, n - 1);
      BytesByDevice(recs[n-1]);
      assert recs[n-1].deviceType.OtherDevice? || !recs[n-1].deviceType.OtherDevice?;
    }
  }

  /**
   By device types: records of the host types make up the self CPU memory of the finished list,
   those of PrivateUse1 and HIP its self device memory, and others count nowhere.
   */
  lemma BytesByType(list: EventList, tr: Trace)
    requires Grown(tr) && CollapseOf(list, tr) && Named(tr.events, OUT_OF_MEMORY_EVENT_NAME) == []
    ensures SelfTotal(CpuMemory, list.events) == BytesOfTypes(tr.Recs(), tr.Ks(), {CPU, MKLDNN, IDEEP}, |tr.Recs()|)
    ensures SelfTotal(DeviceMemory, list.events) == BytesOfTypes(tr.Recs(), tr.Ks(), {PrivateUse1, HIP}, |tr.Recs()|)
  {
    BytesFromRaw(CpuMemory, list, tr);
    BytesFromRaw(DeviceMemory, list, tr);
    RawBytesByType(tr.Recs(), tr.Ks(), |tr.Recs()|);
  }

  // ---------------------------------------------------------------- a record counted twice

  /** Two synchronous CPU events, the second beginning at the instant at which the first ends. */
  predicate BackToBack(ks: seq<KinetoEvent>) {
    |ks| == 2 && SyncCpu(ks[0]) && SyncCpu(ks[1]) && ks[0].startNs < ks[0].endNs == ks[1].startNs < ks[1].endNs
  }

  lemma BackToBackAreTops(ks: seq<KinetoEvent>, par: seq<int>, rk: seq<int>)
    requires Links(ks, par, rk) && BackToBack(ks)
    ensures Top(ks, par, 0) && Top(ks, par, 1)
  {
    assert ParentOk(ks, par, rk, 0) && ParentOk(ks, par, rk, 1);
  }

  lemma TwoEvents(s: set<FunctionEvent>, main: seq<FunctionEvent>)
    requires |main| == 2 && main[0] != main[1] && main[0] in s && main[1] in s && forall e :: e in s ==> e in main
    ensures s == {main[0], main[1]} && |s| == 2
  {
  }

  lemma BackToBackTops(tr: Trace)
    requires Tree(tr) && BackToBack(tr.Ks())
    ensures |Holding(tr.Tops(), tr.traceStart, tr.Ks()[1].startNs)| == 2
  {
    var par, rk := TreeHasLinks(tr);
    BackToBackAreTops(tr.Ks(), par, rk);
    assert tr.main[0] in tr.Tops() && tr.main[1] in tr.Tops();
    assert tr.main[0] != tr.main[1] by { assert tr.Parts()[0] == tr.main[0] && tr.Parts()[1] == tr.main[1]; }
    InTree(tr, 0);
    InTree(tr, 1);
    TwoEvents(Holding(tr.Tops(), tr.traceStart, tr.Ks()[1].startNs), tr.main);
  }

  lemma AccountedTwice(m: Metric, tr: Trace)
    requires m != CpuTime && Tree(tr) && BackToBack(tr.Ks())
    requires |tr.Recs()| == 1 && tr.Recs()[0].startNs == tr.Ks()[1].startNs
    ensures Accounted(tr.Recs(), tr.Ks(), tr.Tops(), tr.traceStart, Bytes(m), 1) == 2 * SeqSum(tr.Recs(), Bytes(m))
  {
    var recs, ks := tr.Recs(), tr.Ks();
    BackToBackTops(tr);
    assert ks[1].deviceType == CPU && Within(recs[0], ks[1].startNs, ks[1].endNs);
    assert Charged(recs, ks, 0);
    OneRecord(m, recs, ks, tr.Tops(), tr.traceStart);
  }

  /** A record at the instant that two back-to-back operators share is reported twice. */
  lemma SharedInstantCountsTwice(m: Metric, list: EventList, tr: Trace)
    requires m != CpuTime && Grown(tr)
    requires CollapseOf(list, tr)
    requires BackToBack(tr.Ks()) && Named(tr.events, OUT_OF_MEMORY_EVENT_NAME) == []
    requires |tr.Recs()| == 1 && tr.Recs()[0].startNs == tr.Ks()[1].startNs
    ensures SelfTotal(m, list.events) == 2 * SeqSum(tr.Recs(), Bytes(m))
  {
    GrownIsTree(tr);
    AccountedTwice(m, tr);
    NoOutOfMemory(m, list, tr);
  }

  lemma OneRecord(m: Metric, recs: seq<KinetoEvent>, ks: seq<KinetoEvent>, tops: set<FunctionEvent>, traceStart: int)
    requires m != CpuTime && |recs| == 1 && Times(recs, ks, tops, traceStart, 0) == 2
    ensures Accounted(recs, ks, tops, traceStart, Bytes(m), 1) == 2 * SeqSum(recs, Bytes(m))
  {
    assert Accounted(recs, ks, tops, traceStart, Bytes(m), 0) == 0;
    assert recs[..0] == [] && SeqSum(recs[..0], Bytes(m)) == 0;
  }

  function Op(name: string, startNs: int, endNs: int): KinetoEvent {
    KinetoEvent(name, startNs, endNs, CPU, false, 1, 1, 0, 0, 0, 0, 0, 0)
  }

  function Allocation(device: DeviceType, startNs: int, nbytes: int): KinetoEvent {
    KinetoEvent(MEMORY_EVENT_NAME, startNs, startNs, device, false, 1, 1, 0, 0, nbytes, 0, 0, 0)
  }

  lemma {:induction false} NamedThree(a: KinetoEvent, b: KinetoEvent, c: KinetoEvent, name: string)
    ensures Named([a, b, c], name) ==
      (if a.name == name then [a] else []) + (if b.name == name then [b] else []) + (if c.name == name then [c] else [])
    ensures Listed([a, b, c]) ==
      (if FilterName(a.name) then [] else [a]) + (if FilterName(b.name) then [] else [b]) + (if FilterName(c.name) then [] else [c])
  {
    assert [a, b, c][..2] == [a, b] && [a, b][..1] == [a] && [a][..0] == [];
    assert Named([a], name) == if a.name == name then [a] else [];
    assert Listed([a]) == if FilterName(a.name) then [] else [a];
    assert Named([a, b], name) == Named([a], name) + if b.name == name then [b] else [];
    assert Listed([a, b]) == Listed([a]) + if FilterName(b.name) then [] else [b];
  }

  lemma ShortNames(s: string)
    requires |s| == 1
    ensures !FilterName(s) && s != MEMORY_EVENT_NAME && s != OUT_OF_MEMORY_EVENT_NAME
    ensures FilterName(MEMORY_EVENT_NAME) && MEMORY_EVENT_NAME != OUT_OF_MEMORY_EVENT_NAME
  {
    assert forall i :: 0 <= i < |FILTERED_OUT_NAMES| ==> |FILTERED_OUT_NAMES[i]| > 1;
    assert FILTERED_OUT_NAMES[0] == MEMORY_EVENT_NAME;
    assert MEMORY_EVENT_NAME[1] == 'm' && OUT_OF_MEMORY_EVENT_NAME[1] == 'O';
  }

  lemma ExampleParts(events: seq<KinetoEvent>)
    requires events == [Op("a", 0, 10), Op("b", 10, 20), Allocation(CPU, 10, 7)]
    ensures Records(events) == [events[2]] && Listed(events) == [events[0], events[1]]
    ensures Named(events, OUT_OF_MEMORY_EVENT_NAME) == [] && SeqSum(Records(events), Bytes(CpuMemory)) == 7
  {
    ShortNames("a");
    ShortNames("b");
    NamedThree(events[0], events[1], events[2], MEMORY_EVENT_NAME);
    NamedThree(events[0], events[1], events[2], OUT_OF_MEMORY_EVENT_NAME);
    assert Records(events) == [events[2]] && Listed(events) == [events[0], events[1]];
    assert [events[2]][..0] == [];
    assert SeqSum(Records(events), Bytes(CpuMemory)) == CpuBytes(events[2]) == 7;
  }

  /** Two operators, from 0 to 10 and from 10 to 20, and an allocation of seven bytes at 10: fourteen are reported. */
  lemma SharedInstantExample(list: EventList, tr: Trace)
    requires tr.events == [Op("a", 0, 10), Op("b", 10, 20), Allocation(CPU, 10, 7)]
    requires Grown(tr)
    requires CollapseOf(list, tr)
    ensures SeqSum(tr.Recs(), Bytes(CpuMemory)) == 7 && SelfTotal(CpuMemory, list.events) == 14
  {
    ExampleParts(tr.events);
    SharedInstantCountsTwice(CpuMemory, list, tr);
  }

  lemma DeviceExampleParts(events: seq<KinetoEvent>)
    requires events == [Op("a", 0, 10), Allocation(PrivateUse1, 5, 7)]
    ensures Records(events) == [events[1]] && Listed(events) == [events[0]] && Named(events, OUT_OF_MEMORY_EVENT_NAME) == []
  {
    ShortNames("a");
    NamedThree(events[0], events[1], Allocation(PrivateUse1, 5, 7), MEMORY_EVENT_NAME);
    assert events[..1] == [events[0]] && [events[0]][..0] == [];
    assert Named([events[0]], MEMORY_EVENT_NAME) == [] == Named([events[0]], OUT_OF_MEMORY_EVENT_NAME);
    assert Listed([events[0]]) == [events[0]];
  }

  lemma CoveredOnce(recs: seq<KinetoEvent>, ks: seq<KinetoEvent>)
    requires ks == [Op("a", 0, 10)] && recs == [Allocation(PrivateUse1, 5, 7)]
    ensures RawTimes(recs, ks, 0) == 1
  {
    assert Within(recs[0], ks[0].startNs, ks[0].endNs) && SyncCpu(ks[0]);
    assert Outermost(ks, 0) && Leads(ks, 0);
    assert LeadersAt(recs, ks, 0) == {0};
    assert Charged(recs, ks, 0);
  }

  lemma OneRecordBytes(recs: seq<KinetoEvent>, ks: seq<KinetoEvent>, types: set<DeviceType>)
    requires |recs| == 1 && RawTimes(recs, ks, 0) == 1
    ensures BytesOfTypes(recs, ks, types, 1) == if recs[0].deviceType in types then recs[0].nbytes else 0
  {
    assert BytesOfTypes(recs, ks, types, 0) == 0;
  }

  lemma DeviceExampleBytes(events: seq<KinetoEvent>)
    requires events == [Op("a", 0, 10), Allocation(PrivateUse1, 5, 7)]
    ensures var recs, ks := Records(events), Listed(events);
      && |recs| == 1 && BytesOfTypes(recs, ks, {CPU, MKLDNN, IDEEP}, 1) == 0 && BytesOfTypes(recs, ks, {PrivateUse1, HIP}, 1) == 7
  {
    DeviceExampleParts(events);
    var recs, ks := Records(events), Listed(events);
    CoveredOnce(recs, ks);
    OneRecordBytes(recs, ks, {CPU, MKLDNN, IDEEP});
    OneRecordBytes(recs, ks, {PrivateUse1, HIP});
  }

  /** An operator from 0 to 10 and an allocation of seven bytes on the device at 5: they are its self device memory. */
  lemma DeviceRecordExample(list: EventList, tr: Trace)
    requires tr.events == [Op("a", 0, 10), Allocation(PrivateUse1, 5, 7)] && Grown(tr) && CollapseOf(list, tr)
    ensures SelfTotal(DeviceMemory, list.events) == 7 && SelfTotal(CpuMemory, list.events) == 0
  {
    DeviceExampleParts(tr.events);
    DeviceExampleBytes(tr.events);
    BytesByType(list, tr);
  }

  // ---------------------------------------------------------------- grouped totals

  /** The averaged events carry the self values of the listed ones. */
  ghost predicate CarriesSelfValues(evs: seq<KeyAverages.Event>, es: seq<FunctionEvent>)
    reads es
  {
    |evs| == |es| && forall i :: 0 <= i < |es| ==>
      && evs[i].totals.selfCpuTime == SelfValue(CpuTime, es[i])
      && evs[i].totals.selfCpuMemory == SelfValue(CpuMemory, es[i])
      && evs[i].totals.selfDeviceMemory == SelfValue(DeviceMemory, es[i])
  }

  function SelfField(m: Metric): KeyAverages.Field {
    match m
    case CpuTime => KeyAverages.SelfCpuTime
    case CpuMemory => KeyAverages.SelfCpuMemory
    case DeviceMemory => KeyAverages.SelfDeviceMemory
  }

  lemma {:induction false} WholeIsSelfTotal(evs: seq<KeyAverages.Event>, es: seq<FunctionEvent>, m: Metric)
    requires CarriesSelfValues(evs, es)
    ensures SeqSum(evs, KeyAverages.Whole(SelfField(m))) == SelfTotal(m, es)
  {
    if es != [] { WholeIsSelfTotal(evs[..|evs|-1], es[..|es|-1], m); }
  }

  /**
   Whatever `key_averages` groups by, the groups' self values add up to those of the list: the
   self CPU time to the durations of the top events, the self bytes to the accounted bytes.
   */
  lemma GroupedSelfTotals(list: EventList, tr: Trace,
                          evs: seq<KeyAverages.Event>, keys: seq<KeyAverages.GroupKey>, avgs: seq<KeyAverages.FunctionEventAvg>,
                          items: seq<KeyAverages.Item>, byShapes: bool, stackN: nat, m: Metric)
    requires Balanced(list, tr) && CarriesSelfValues(evs, list.events)
    requires KeyAverages.Grouped(keys, avgs, evs, byShapes, stackN) && KeyAverages.AvgItems(avgs, items)
    ensures SeqSum(items, KeyAverages.ItemField(SelfField(m))) ==
      if m == CpuTime then SetSum(TopEvents(list.events), Weight(CpuTime))
      else Expected(m, tr, TopEvents(list.events))
  {
    KeyAverages.GroupingKeepsTotals(keys, avgs, items, evs, byShapes, stackN, SelfField(m));
    KeyAverages.ItemsSum(KeyAverages.EventItems(evs), evs, SelfField(m), KeyAverages.Whole(SelfField(m)));
    WholeIsSelfTotal(evs, list.events, m);
  }
}
