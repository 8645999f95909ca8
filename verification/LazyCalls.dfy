/**
 What becomes of the calls of _lazy_call, over whole runs of the machine in LazyInit: each is run
 at once or queued, once, and which of the two is decided by its own test of `_initialized`.
 */
module LazyCalls {
  import opened Wrappers
  import opened LazyInit

  // ---------------------------------------------------------------- histories

  ghost predicate StepAt(ss: seq<State>, acts: seq<(Tid, Action)>, n: nat)
    requires |ss| == |acts| + 1 && n < |acts|
  {
    Do(ss[n], acts[n].0, acts[n].1) == Some(ss[n+1])
  }

  /** The states of a run, one before each step and one at the end. */
  ghost predicate History(threads: set<Tid>, ss: seq<State>, acts: seq<(Tid, Action)>) {
    && |ss| == |acts| + 1 && ss[0] == Initial(threads)
    && forall n: nat {:trigger StepAt(ss, acts, n)} :: n < |acts| ==> StepAt(ss, acts, n)
  }

  lemma HistoryNext(threads: set<Tid>, ss: seq<State>, pre: seq<(Tid, Action)>, last: (Tid, Action), s: State)
    requires History(threads, ss, pre) && Do(ss[|pre|], last.0, last.1) == Some(s)
    ensures History(threads, ss + [s], pre + [last])
  {
    var all, acts := ss + [s], pre + [last];
    forall n: nat | n < |acts| ensures StepAt(all, acts, n) {
      if n < |pre| { assert StepAt(ss, pre, n); }
    }
  }

  /** Every run has a history that ends in its last state. */
  lemma {:induction false} HistoryOfRun(threads: set<Tid>, acts: seq<(Tid, Action)>) returns (ss: seq<State>)
    requires Execute(Initial(threads), acts).Some?
    ensures History(threads, ss, acts) && Execute(Initial(threads), acts) == Some(ss[|acts|])
  {
    if acts == [] {
      ss := [Initial(threads)];
    } else {
      var pre, last := acts[..|acts|-1], acts[|acts|-1];
      ss := HistoryOfRun(threads, pre);
      var s := Execute(Initial(threads), acts).value;
      HistoryNext(threads, ss, pre, last, s);
      assert acts == pre + [last];
      ss := ss + [s];
    }
  }

  // ---------------------------------------------------------------- where a call stands

  /** The thread is in neither function, or in none again inside a queued call. */
  predicate Outside(pc: Pc) { pc.User? || (pc.Running? && pc.inner.InUser?) }

  predicate Testing(pc: Pc, c: Call) { pc == CallTest(c) || (pc.Running? && pc.inner == InCallTest(c)) }

  predicate Appending(pc: Pc, c: Call) { pc == Append(c) || (pc.Running? && pc.inner == InAppend(c)) }

  /** A step moves its own thread alone. */
  lemma OthersStay(s: State, u: Tid, a: Action, t: Tid)
    requires Do(s, u, a).Some? && t != u
    ensures var s' := Do(s, u, a).value; (t in s'.pc <==> t in s.pc) && (t in s.pc ==> s'.pc[t] == s.pc[t])
  {
    OwnPlace(s, u, a);
  }

  lemma OwnPlace(s: State, t: Tid, a: Action)
    requires Do(s, t, a).Some?
    ensures var s' := Do(s, t, a).value; t in s.pc && t in s'.pc && s'.pc == s.pc[t := s'.pc[t]]
  {
  }

  /** The next step of a thread that has moved by the end. */
  lemma {:induction false} NextStep(threads: set<Tid>, ss: seq<State>, acts: seq<(Tid, Action)>, t: Tid, i: nat, j: nat) returns (k: nat)
    requires History(threads, ss, acts) && i < j <= |acts|
    requires t in ss[i].pc && t in ss[j].pc && ss[i].pc[t] != ss[j].pc[t]
    ensures i <= k < j && acts[k].0 == t && forall n :: i <= n < k ==> acts[n].0 != t
    ensures t in ss[k].pc && ss[k].pc[t] == ss[i].pc[t]
    decreases j - i
  {
    k := i;
    if acts[i].0 != t {
      assert StepAt(ss, acts, i);
      OthersStay(ss[i], acts[i].0, acts[i].1, t);
      k := NextStep(threads, ss, acts, t, i + 1, j);
    }
  }

  lemma CallBegins(s: State, t: Tid, c: Call)
    requires Do(s, t, CallLazy(c)).Some?
    ensures var s' := Do(s, t, CallLazy(c)).value;
      && t in s.pc && Outside(s.pc[t]) && t in s'.pc && Testing(s'.pc[t], c)
      && s'.queue == s.queue && s'.direct == s.direct
  {
  }

  /** The test: the call is run at once, or goes on to be appended. */
  lemma TestStep(s: State, t: Tid, a: Action, c: Call)
    requires t in s.pc && Testing(s.pc[t], c) && Do(s, t, a).Some?
    ensures var s' := Do(s, t, a).value;
      && a == Go && t in s'.pc && s'.queue == s.queue
      && (if s.initialized then Outside(s'.pc[t]) && s'.direct == s.direct + [c]
          else Appending(s'.pc[t], c) && s'.direct == s.direct)
  {
  }

  lemma AppendStep(s: State, t: Tid, a: Action, c: Call)
    requires t in s.pc && Appending(s.pc[t], c) && Do(s, t, a).Some?
    ensures var s' := Do(s, t, a).value;
      && a == Go && t in s'.pc && Outside(s'.pc[t]) && s'.queue == s.queue + [c] && s'.direct == s.direct
  {
  }

  /** Steps `i` to `j - 1` are one call of _lazy_call by thread `t`, outside or inside a queued call. */
  ghost predicate WholeCall(ss: seq<State>, acts: seq<(Tid, Action)>, t: Tid, c: Call, i: nat, j: nat)
    requires |ss| == |acts| + 1
  {
    && i + 1 < j <= |acts| && acts[i] == (t, CallLazy(c)) && t in ss[j].pc && Outside(ss[j].pc[t])
    && forall n {:trigger ss[n]} :: i < n < j ==> t !in ss[n].pc || !Outside(ss[n].pc[t])
  }

  /** The first step after its begin is the test. */
  lemma CallTests(threads: set<Tid>, ss: seq<State>, acts: seq<(Tid, Action)>, t: Tid, c: Call, i: nat, j: nat) returns (k: nat)
    requires History(threads, ss, acts) && WholeCall(ss, acts, t, c, i, j)
    ensures i < k < j && acts[k] == (t, Go) && t in ss[k].pc && Testing(ss[k].pc[t], c) && forall n :: i < n < k ==> acts[n].0 != t
  {
    assert StepAt(ss, acts, i);
    CallBegins(ss[i], t, c);
    k := NextStep(threads, ss, acts, t, i + 1, j);
    assert StepAt(ss, acts, k);
    TestStep(ss[k], t, acts[k].1, c);
  }

  /**
   A completed call of _lazy_call makes its test in some step `k`. If `_initialized` holds then, that
   step runs the call and is the last one; otherwise the last step appends the call to the queue. It
   does nothing else to the queue or to the calls run.
   */
  lemma CallOutcome(threads: set<Tid>, ss: seq<State>, acts: seq<(Tid, Action)>, t: Tid, c: Call, i: nat, j: nat) returns (k: nat)
    requires History(threads, ss, acts) && WholeCall(ss, acts, t, c, i, j)
    ensures i < k < j && acts[k] == acts[j-1] == (t, Go) && forall n :: i < n < j && acts[n].0 == t ==> n == k || n == j - 1
    ensures if ss[k].initialized
      then k == j - 1 && ss[j].direct == ss[k].direct + [c] && ss[j].queue == ss[k].queue
      else
        && k < j - 1 && ss[k+1].queue == ss[k].queue && ss[k+1].direct == ss[k].direct
        && ss[j].queue == ss[j-1].queue + [c] && ss[j].direct == ss[j-1].direct
  {
    k := CallTests(threads, ss, acts, t, c, i, j);
    assert StepAt(ss, acts, k);
    TestStep(ss[k], t, acts[k].1, c);
    if !ss[k].initialized {
      var m := NextStep(threads, ss, acts, t, k + 1, j);
      assert StepAt(ss, acts, m);
      AppendStep(ss[m], t, acts[m].1, c);
    }
  }

  /** After initialisation every call is run at once. */
  lemma SettledCallRuns(threads: set<Tid>, ss: seq<State>, acts: seq<(Tid, Action)>, t: Tid, c: Call, i: nat, j: nat)
    requires History(threads, ss, acts) && WholeCall(ss, acts, t, c, i, j) && ss[i].initialized
    ensures ss[j].direct == ss[j-1].direct + [c] && ss[j].queue == ss[j-1].queue
  {
    var k := CallOutcome(threads, ss, acts, t, c, i, j);
    StaysInitialized(threads, ss, acts, i, k);
  }

  lemma {:induction false} StaysInitialized(threads: set<Tid>, ss: seq<State>, acts: seq<(Tid, Action)>, i: nat, k: nat)
    requires History(threads, ss, acts) && i <= k <= |acts| && ss[i].initialized
    ensures ss[k].initialized
    decreases k - i
  {
    if i < k {
      assert StepAt(ss, acts, i);
      InitializedStays(ss[i], acts[i].0, acts[i].1);
      StaysInitialized(threads, ss, acts, i + 1, k);
    }
  }

  lemma InitializedStays(s: State, t: Tid, a: Action)
    requires s.initialized && Do(s, t, a).Some?
    ensures Do(s, t, a).value.initialized
  {
  }

  // ---------------------------------------------------------------- no call is lost or doubled

  /** The call of _lazy_call that a thread is in. */
  function InCall(pc: Pc): Option<Call> {
    match pc
    case CallTest(c) => Some(c)
    case Append(c) => Some(c)
    case Running(_, InCallTest(c)) => Some(c)
    case Running(_, InAppend(c)) => Some(c)
    case _ => None
  }

  /** The calls of _lazy_call that were begun, in order. */
  function Begun(acts: seq<(Tid, Action)>): seq<Call> {
    if acts == [] then [] else
      var last := acts[|acts|-1].1;
      Begun(acts[..|acts|-1]) + if last.CallLazy? then [last.c] else []
  }

  /** The threads that are in a call for `c`. */
  ghost function UnderWay(s: State, c: Call): set<Tid> { set t | t in s.pc && InCall(s.pc[t]) == Some(c) }

  ghost predicate CountsUp(s: State, begun: seq<Call>, c: Call) {
    multiset(begun)[c] == multiset(s.queue)[c] + multiset(s.direct)[c] + |UnderWay(s, c)|
  }

  lemma UnderWayMoves(s: State, t: Tid, s': State, c: Call)
    requires t in s.pc && t in s'.pc && s'.pc == s.pc[t := s'.pc[t]]
    ensures |UnderWay(s', c)|
         == |UnderWay(s, c)| - (if InCall(s.pc[t]) == Some(c) then 1 else 0) + (if InCall(s'.pc[t]) == Some(c) then 1 else 0)
  {
    var a, b := UnderWay(s, c), UnderWay(s', c);
    assert a - {t} == b - {t};
    WithoutOne(a, t);
    WithoutOne(b, t);
  }

  lemma WithoutOne(a: set<Tid>, t: Tid)
    ensures |a| == |a - {t}| + if t in a then 1 else 0
  {
    if t in a { assert a == (a - {t}) + {t}; } else { assert a == a - {t}; }
  }

  /** A step begins a call, ends one by running or queueing it, or does neither. */
  lemma CallMoves(s: State, t: Tid, a: Action)
    requires Do(s, t, a).Some?
    ensures var s' := Do(s, t, a).value;
      && t in s.pc && t in s'.pc
      && var b, b' := InCall(s.pc[t]), InCall(s'.pc[t]);
        if a.CallLazy? then b == None && b' == Some(a.c) && s'.queue == s.queue && s'.direct == s.direct
        else
          || (b' == b && s'.queue == s.queue && s'.direct == s.direct)
          || (b.Some? && b' == None && s'.queue == s.queue + [b.value] && s'.direct == s.direct)
          || (b.Some? && b' == None && s'.direct == s.direct + [b.value] && s'.queue == s.queue)
  {
  }

  lemma OneMore(s: seq<Call>, d: Call, c: Call)
    ensures multiset(s + [d])[c] == multiset(s)[c] + if d == c then 1 else 0
  {
  }

  lemma StepCounts(s: State, t: Tid, a: Action, begun: seq<Call>, c: Call)
    requires CountsUp(s, begun, c) && Do(s, t, a).Some?
    ensures CountsUp(Do(s, t, a).value, begun + if a.CallLazy? then [a.c] else [], c)
  {
    var s' := Do(s, t, a).value;
    OwnPlace(s, t, a);
    CallMoves(s, t, a);
    UnderWayMoves(s, t, s', c);
    if a.CallLazy? {
      OneMore(begun, a.c, c);
    } else {
      assert begun + [] == begun;
      if InCall(s.pc[t]).Some? {
        OneMore(s.queue, InCall(s.pc[t]).value, c);
        OneMore(s.direct, InCall(s.pc[t]).value, c);
      }
    }
  }

  /**
   At every point of every run, each call was begun as often as it stands in the queue, was run at
   once, or is under way: no call of _lazy_call is lost on the way, and none counts twice.
   */
  lemma {:induction false} CallsAddUp(threads: set<Tid>, acts: seq<(Tid, Action)>, c: Call)
    requires Execute(Initial(threads), acts).Some?
    ensures CountsUp(Execute(Initial(threads), acts).value, Begun(acts), c)
  {
    if acts == [] {
      assert UnderWay(Initial(threads), c) == {};
    } else {
      var pre, last := acts[..|acts|-1], acts[|acts|-1];
      CallsAddUp(threads, pre, c);
      StepCounts(Execute(Initial(threads), pre).value, last.0, last.1, Begun(pre), c);
    }
  }

  /** What the steps at an append put into the queue, in order. */
  ghost function Appended(ss: seq<State>, acts: seq<(Tid, Action)>, n: nat): seq<Call>
    requires |ss| == |acts| + 1 && n <= |acts|
  {
    if n == 0 then [] else
      var s, t := ss[n-1], acts[n-1].0;
      Appended(ss, acts, n - 1) + if t !in s.pc then [] else
        match s.pc[t]
        case Append(c) => [c]
        case Running(_, InAppend(c)) => [c]
        case _ => []
  }

  /** The queue is what was appended, in that order. */
  lemma {:induction false} QueueIsAppended(threads: set<Tid>, ss: seq<State>, acts: seq<(Tid, Action)>, n: nat)
    requires History(threads, ss, acts) && n <= |acts|
    ensures ss[n].queue == Appended(ss, acts, n)
  {
    if n > 0 {
      QueueIsAppended(threads, ss, acts, n - 1);
      assert StepAt(ss, acts, n - 1);
      QueueMoves(ss[n-1], acts[n-1].0, acts[n-1].1);
    }
  }

  lemma QueueMoves(s: State, t: Tid, a: Action)
    requires Do(s, t, a).Some?
    ensures t in s.pc && Do(s, t, a).value.queue == s.queue + match s.pc[t]
      case Append(c) => [c]
      case Running(_, InAppend(c)) => [c]
      case _ => []
  {
    assert s.queue + [] == s.queue;
  }
}
