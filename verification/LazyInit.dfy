/**
 Lazy initialisation of the device runtime: _lazy_init and _lazy_call as a machine whose
 steps are the indivisible actions of threads, in any interleaving. Queued calls are user
 code that may call both functions again; the runtime call and queued calls may fail.
 */
module LazyInit {
  import opened Wrappers

  type Tid = nat
  type Call = nat

  /** What a running queued call is doing. */
  datatype Inner = InUser | InInitTest | InWait | InCallTest(c: Call) | InAppend(c: Call)

  /** Where a thread stands. */
  datatype Pc =
    | User                       // outside both functions
    | InitTest                   // about to test `_initialized or hasattr(_tls, ...)`
    | Acquire                    // about to take the lock
    | InnerTest                  // holds the lock, about to test `_initialized` again
    | Checks                     // about to check for a bad fork and a missing runtime
    | SupaInit                   // about to call `_supa_init`
    | SetFlag                    // about to set `_tls.is_initializing`
    | LengthTest(i: nat)         // the drain loop, about to test for item i
    | Running(i: nat, inner: Inner)
    | ClearFlag(ok: bool)        // the `finally` block
    | SetInitialized
    | Release(ok: bool)          // leaving the `with` block
    | CallTest(c: Call)          // _lazy_call, about to test `_initialized`
    | Append(c: Call)            // _lazy_call, about to append

  datatype State = State(
    initialized: bool,
    lock: Option<Tid>,
    initializing: set<Tid>,      // threads with `_tls.is_initializing`
    queue: seq<Call>,
    pc: map<Tid, Pc>,
    // history
    inits: nat,                  // calls of `_supa_init`
    faults: nat,                 // exceptions raised inside `_lazy_init`
    runs: seq<nat>,              // queue positions run by drains, in order
    base: nat,                   // where the latest drain begins in `runs`
    lastTest: nat,               // queue length at the last length test that ended a drain
    direct: seq<Call>)           // calls run at once by `_lazy_call`

  datatype Action = CallInit | CallLazy(c: Call) | Go | Fail | Return

  function Initial(threads: set<Tid>): State {
    State(false, None, {}, [], map t | t in threads :: User, 0, 0, [], 0, 0, [])
  }

  function At(s: State, t: Tid, pc: Pc): State { s.(pc := s.pc[t := pc]) }

  /** One step of a queued call that runs inside the drain. */
  function DoInner(s: State, t: Tid, i: nat, inner: Inner, a: Action): Option<State> {
    match (inner, a)
    case (InUser, CallInit) => Some(At(s, t, Running(i, InInitTest)))
    case (InUser, CallLazy(c)) => Some(At(s, t, Running(i, InCallTest(c))))
    case (InUser, Return) => Some(At(s, t, LengthTest(i + 1)))
    case (InUser, Fail) => Some(At(s.(faults := s.faults + 1), t, ClearFlag(false)))
    case (InInitTest, Go) => Some(At(s, t, Running(i, if s.initialized || t in s.initializing then InUser else InWait)))
    case (InCallTest(c), Go) =>
      Some(if s.initialized then At(s.(direct := s.direct + [c]), t, Running(i, InUser))
           else At(s, t, Running(i, InAppend(c))))
    case (InAppend(c), Go) => Some(At(s.(queue := s.queue + [c]), t, Running(i, InUser)))
    case _ => None
  }

  /** One step of thread `t`, or None if it cannot take that step now. */
  function Do(s: State, t: Tid, a: Action): Option<State> {
    if t !in s.pc then None else
      match (s.pc[t], a)
      case (User, CallInit) => Some(At(s, t, InitTest))
      case (User, CallLazy(c)) => Some(At(s, t, CallTest(c)))
      case (InitTest, Go) => Some(At(s, t, if s.initialized || t in s.initializing then User else Acquire))
      case (Acquire, Go) => if s.lock.None? then Some(At(s.(lock := Some(t)), t, InnerTest)) else None
      case (InnerTest, Go) => Some(At(s, t, if s.initialized then Release(true) else Checks))
      case (Checks, Go) => Some(At(s, t, SupaInit))
      case (Checks, Fail) => Some(At(s.(faults := s.faults + 1), t, Release(false)))
      case (SupaInit, Go) => Some(At(s.(inits := s.inits + 1), t, SetFlag))
      case (SupaInit, Fail) => Some(At(s.(inits := s.inits + 1, faults := s.faults + 1), t, Release(false)))
      case (SetFlag, Go) =>
        Some(At(s.(initializing := s.initializing + {t}, base := |s.runs|), t, LengthTest(0)))
      case (LengthTest(i), Go) =>
        Some(if i < |s.queue| then At(s.(runs := s.runs + [i]), t, Running(i, InUser))
             else At(s.(lastTest := |s.queue|), t, ClearFlag(true)))
      case (Running(i, inner), _) => DoInner(s, t, i, inner, a)
      case (ClearFlag(ok), Go) =>
        Some(At(s.(initializing := s.initializing - {t}), t, if ok then SetInitialized else Release(false)))
      case (SetInitialized, Go) => Some(At(s.(initialized := true), t, Release(true)))
      case (Release(_), Go) => Some(At(s.(lock := None), t, User))
      case (CallTest(c), Go) =>
        Some(if s.initialized then At(s.(direct := s.direct + [c]), t, User) else At(s, t, Append(c)))
      case (Append(c), Go) => Some(At(s.(queue := s.queue + [c]), t, User))
      case _ => None
  }

  /** A whole run: None if some step was not possible. */
  function Execute(s: State, acts: seq<(Tid, Action)>): Option<State>
    decreases |acts|
  {
    if acts == [] then Some(s) else
      match Execute(s, acts[..|acts|-1])
      case None => None
      case Some(s') => Do(s', acts[|acts|-1].0, acts[|acts|-1].1)
  }

  // ---------------------------------------------------------------- the invariant

  predicate Draining(pc: Pc) { pc.LengthTest? || pc.Running? || pc.ClearFlag? }

  /** Between the runtime call and the assignment of `_initialized`. */
  predicate Working(pc: Pc) { pc.SetFlag? || Draining(pc) || pc.SetInitialized? }

  predicate Critical(pc: Pc) { pc.InnerTest? || pc.Checks? || pc.SupaInit? || Working(pc) || pc.Release? }

  /** The place of the thread that holds the lock. */
  function Holder(s: State): Pc {
    if s.lock.Some? && s.lock.value in s.pc then s.pc[s.lock.value] else User
  }

  ghost predicate LockInv(s: State) {
    && (s.lock.Some? ==> s.lock.value in s.pc)
    && (forall t :: t in s.pc ==> (Critical(s.pc[t]) <==> s.lock == Some(t)))
    && s.initializing == (if s.lock.Some? && Draining(Holder(s)) then {s.lock.value} else {})
  }

  /** The latest drain has run the first `n` queue positions, in order. */
  ghost predicate Ran(s: State, n: nat) {
    |s.runs| == s.base + n && forall k :: s.base <= k < |s.runs| ==> s.runs[k] == k - s.base
  }

  ghost predicate DrainInv(s: State) {
    var h := Holder(s);
    && (h.LengthTest? ==> Ran(s, h.i) && h.i <= |s.queue|)
    && (h.Running? ==> Ran(s, h.i + 1) && h.i < |s.queue| && !h.inner.InWait?)
    && (h == ClearFlag(true) || h.SetInitialized? || s.initialized ==> Ran(s, s.lastTest) && s.lastTest <= |s.queue|)
    && (s.initialized ==> !Working(h) && !h.Checks? && !h.SupaInit?)
    && (h == Release(true) ==> s.initialized)
  }

  /** What holds as long as nothing has failed. */
  ghost predicate CleanInv(s: State) {
    var h := Holder(s);
    && (h == ClearFlag(false) || (h == Release(false)) ==> s.faults > 0)
    && (s.faults == 0 ==> s.base == 0)
    && (s.faults == 0 && !s.initialized && (h.SetFlag? || !Working(h)) ==> s.runs == [])
    && s.inits <= s.faults + if s.initialized || (Working(h) && h != ClearFlag(false)) then 1 else 0
  }

  /** No drain, failed ones included, runs a position that is not queued; a finished one looked at all it ran. */
  ghost predicate BoundInv(s: State) {
    var h := Holder(s);
    && (forall k :: 0 <= k < |s.runs| ==> s.runs[k] < |s.queue|)
    && (h == ClearFlag(true) || h.SetInitialized? || s.initialized ==> forall k :: 0 <= k < |s.runs| ==> s.runs[k] < s.lastTest)
  }

  ghost predicate Inv(s: State) { LockInv(s) && DrainInv(s) && CleanInv(s) && BoundInv(s) }

  /** A step that neither enters nor leaves the lock or the drain. */
  lemma PlainMove(s: State, t: Tid, s': State)
    requires LockInv(s) && t in s.pc && t in s'.pc && s'.pc == s.pc[t := s'.pc[t]]
    requires s'.lock == s.lock && s'.initializing == s.initializing
    requires Critical(s'.pc[t]) == Critical(s.pc[t]) && Draining(s'.pc[t]) == Draining(s.pc[t])
    ensures LockInv(s')
  {
    forall u | u in s'.pc ensures Critical(s'.pc[u]) <==> s'.lock == Some(u) {
      assert u in s.pc;
    }
  }

  /** A step of the holder into or out of the drain. */
  lemma DrainMove(s: State, t: Tid, s': State)
    requires LockInv(s) && t in s.pc && t in s'.pc && s'.pc == s.pc[t := s'.pc[t]] && s'.lock == s.lock
    requires Critical(s'.pc[t]) && Critical(s.pc[t])
    requires s'.initializing == if Draining(s'.pc[t]) then {t} else {}
    ensures LockInv(s')
  {
    forall u | u in s'.pc ensures Critical(s'.pc[u]) <==> s'.lock == Some(u) {
      assert u in s.pc;
    }
  }

  /** A step that takes the free lock. */
  lemma TakeMove(s: State, t: Tid, s': State)
    requires LockInv(s) && t in s.pc && s'.pc == s.pc[t := InnerTest] && s.lock.None? && s'.lock == Some(t)
    requires s'.initializing == s.initializing
    ensures LockInv(s')
  {
    forall u | u in s'.pc ensures Critical(s'.pc[u]) <==> s'.lock == Some(u) {
      assert u in s.pc;
    }
  }

  /** A step that gives the lock back outside the drain. */
  lemma GiveMove(s: State, t: Tid, s': State)
    requires LockInv(s) && t in s.pc && s.pc[t].Release? && s'.pc == s.pc[t := User] && s'.lock == None
    requires s'.initializing == s.initializing
    ensures LockInv(s')
  {
    forall u | u in s'.pc ensures Critical(s'.pc[u]) <==> s'.lock == Some(u) {
      assert u in s.pc;
    }
  }

  lemma StepKeepsLockInv(s: State, t: Tid, a: Action)
    requires LockInv(s) && Do(s, t, a).Some?
    ensures LockInv(Do(s, t, a).value)
  {
    var s' := Do(s, t, a).value;
    match s.pc[t]
    case Acquire => TakeMove(s, t, s');
    case Release(_) => GiveMove(s, t, s');
    case SetFlag => DrainMove(s, t, s');
    case ClearFlag(_) => DrainMove(s, t, s');
    case Running(i, inner) => PlainMove(s, t, s');
    case _ => PlainMove(s, t, s');
  }

  /** A thread without the lock can only take the free lock or lengthen the queue. */
  lemma OutsiderStep(s: State, t: Tid, a: Action)
    requires LockInv(s) && Do(s, t, a).Some? && s.lock != Some(t)
    ensures var s' := Do(s, t, a).value;
      && (Holder(s') == Holder(s) || (Holder(s) == User && Holder(s') == InnerTest))
      && s'.initialized == s.initialized && s'.runs == s.runs && s'.base == s.base && s'.lastTest == s.lastTest
      && s'.inits == s.inits && s'.faults == s.faults && s.queue <= s'.queue
  {
    assert !Critical(s.pc[t]);
    assert s.lock.Some? ==> s.lock.value != t;
  }

  lemma InnerKeepsDrainInv(s: State, t: Tid, a: Action)
    requires LockInv(s) && DrainInv(s) && s.lock == Some(t) && s.pc[t].Running? && Do(s, t, a).Some?
    ensures DrainInv(Do(s, t, a).value)
  {
    var pc := s.pc[t];
    assert Holder(s) == pc && t in s.initializing;
    match pc.inner
    case InUser =>
    case InInitTest =>
    case InWait =>
    case InCallTest(c) =>
    case InAppend(c) =>
  }

  lemma TestKeepsDrainInv(s: State, t: Tid, a: Action)
    requires LockInv(s) && DrainInv(s) && s.lock == Some(t) && s.pc[t].LengthTest? && Do(s, t, a).Some?
    ensures DrainInv(Do(s, t, a).value)
  {
    assert Holder(s) == s.pc[t];
  }

  lemma StepKeepsDrainInv(s: State, t: Tid, a: Action)
    requires LockInv(s) && DrainInv(s) && Do(s, t, a).Some?
    ensures DrainInv(Do(s, t, a).value)
  {
    var s' := Do(s, t, a).value;
    if s.lock != Some(t) {
      OutsiderStep(s, t, a);
    } else {
      assert Holder(s) == s.pc[t];
      match s.pc[t]
      case InnerTest =>
      case Checks =>
      case SupaInit =>
      case SetFlag =>
      case LengthTest(i) => TestKeepsDrainInv(s, t, a);
      case Running(_, _) => InnerKeepsDrainInv(s, t, a);
      case ClearFlag(_) =>
      case SetInitialized =>
      case Release(_) =>
    }
  }

  lemma StepKeepsCleanInv(s: State, t: Tid, a: Action)
    requires Inv(s) && Do(s, t, a).Some?
    ensures CleanInv(Do(s, t, a).value)
  {
    if s.lock != Some(t) { OutsiderStep(s, t, a); }
  }

  lemma StepKeepsBoundInv(s: State, t: Tid, a: Action)
    requires Inv(s) && Do(s, t, a).Some?
    ensures BoundInv(Do(s, t, a).value)
  {
    if s.lock != Some(t) {
      OutsiderStep(s, t, a);
    } else {
      assert Holder(s) == s.pc[t];
    }
  }

  // ---------------------------------------------------------------- whole runs

  /** The invariant holds in every state of every run. */
  lemma {:induction false} RunKeepsInv(threads: set<Tid>, acts: seq<(Tid, Action)>)
    requires Execute(Initial(threads), acts).Some?
    ensures Inv(Execute(Initial(threads), acts).value)
  {
    if acts != [] {
      var pre, last := acts[..|acts|-1], acts[|acts|-1];
      RunKeepsInv(threads, pre);
      var s := Execute(Initial(threads), pre).value;
      StepKeepsLockInv(s, last.0, last.1);
      StepKeepsDrainInv(s, last.0, last.1);
      StepKeepsCleanInv(s, last.0, last.1);
      StepKeepsBoundInv(s, last.0, last.1);
    }
  }

  ghost predicate Reachable(s: State) {
    exists threads, acts :: Execute(Initial(threads), acts) == Some(s)
  }

  lemma ReachableInv(s: State)
    requires Reachable(s)
    ensures Inv(s)
  {
    var threads, acts :| Execute(Initial(threads), acts) == Some(s);
    RunKeepsInv(threads, acts);
  }

  /** At most one thread drains the queue, and it holds the lock. */
  lemma OneDrainer(s: State, t: Tid, u: Tid)
    requires Reachable(s) && t in s.pc && u in s.pc && Draining(s.pc[t]) && Draining(s.pc[u])
    ensures t == u && s.lock == Some(t)
  {
    ReachableInv(s);
  }

  /**
   Without failures the runtime is initialised at most once, and the drain runs the queue
   positions 0, 1, 2, ... each once, calls appended during the drain included.
   */
  lemma CleanRunsOnce(s: State)
    requires Reachable(s) && s.faults == 0
    ensures s.inits <= 1
    ensures |s.runs| <= |s.queue| && forall k :: 0 <= k < |s.runs| ==> s.runs[k] == k
  {
    ReachableInv(s);
  }

  /** Every failure costs at most one more initialisation. */
  lemma InitsBounded(s: State)
    requires Reachable(s)
    ensures s.inits <= s.faults + 1
  {
    ReachableInv(s);
  }

  /** A step by which `_lazy_init` returns normally to a thread that is not draining. */
  predicate ReturnsFromInit(s: State, t: Tid, a: Action) {
    && t in s.pc && a == Go && Do(s, t, a).Some?
    && ((s.pc[t] == InitTest && Do(s, t, a).value.pc[t] == User) || s.pc[t] == Release(true))
  }

  /**
   A normal return means that initialisation is complete and that the drain ran everything
   that was queued at its last length test.
   */
  lemma ReturnMeansInitialized(s: State, t: Tid, a: Action)
    requires Reachable(s) && ReturnsFromInit(s, t, a)
    ensures s.initialized && Ran(s, s.lastTest) && s.lastTest <= |s.queue|
  {
    ReachableInv(s);
    assert Critical(s.pc[t]) <==> s.lock == Some(t);
  }

  /** A re-entrant call of `_lazy_init` returns at once; it never waits for the lock its thread holds. */
  lemma ReentrantCallReturns(s: State, t: Tid, i: nat)
    requires Reachable(s) && t in s.pc && s.pc[t] == Running(i, InInitTest)
    ensures Do(s, t, Go) == Some(At(s, t, Running(i, InUser)))
  {
    ReachableInv(s);
    assert Critical(s.pc[t]) <==> s.lock == Some(t);
  }

  /** The checks, the native call and a queued call may fail, and nothing else. */
  lemma FailsIff(s: State, t: Tid)
    requires t in s.pc
    ensures Do(s, t, Fail).Some? <==> s.pc[t].Checks? || s.pc[t].SupaInit? || (s.pc[t].Running? && s.pc[t].inner.InUser?)
  {
  }

  /** What an exception inside `_lazy_init` leaves once it is out of it. */
  function Failed(s: State, t: Tid): State
    requires t in s.pc
  {
    s.(faults := s.faults + 1, inits := s.inits + (if s.pc[t].SupaInit? then 1 else 0),
       initializing := {}, lock := None, pc := s.pc[t := User])
  }

  lemma EarlyFailure(s: State, t: Tid)
    requires Inv(s) && t in s.pc && (s.pc[t].Checks? || s.pc[t].SupaInit?)
    ensures !s.initialized && Do(s, t, Fail).Some? && Do(Do(s, t, Fail).value, t, Go) == Some(Failed(s, t))
  {
    assert Critical(s.pc[t]) <==> s.lock == Some(t);
    assert Holder(s) == s.pc[t] && s.initializing == {};
    assert s.pc[t := Release(false)][t := User] == s.pc[t := User];
  }

  lemma QueuedFailure(s: State, t: Tid)
    requires Inv(s) && t in s.pc && s.pc[t].Running? && s.pc[t].inner.InUser?
    ensures !s.initialized && Do(s, t, Fail).Some? && Do(Do(s, t, Fail).value, t, Go).Some?
    ensures Do(Do(Do(s, t, Fail).value, t, Go).value, t, Go) == Some(Failed(s, t))
  {
    assert Critical(s.pc[t]) <==> s.lock == Some(t);
    assert Holder(s) == s.pc[t] && s.initializing == {t} && {t} - {t} == {};
    assert s.pc[t := ClearFlag(false)][t := Release(false)] == s.pc[t := Release(false)];
    assert s.pc[t := Release(false)][t := User] == s.pc[t := User];
  }

  /**
   An exception leaves `_lazy_init` at once: the flag and the lock are given back, nothing is
   initialised, the queue stays, and a later call can begin anew.
   */
  lemma FailureUnwinds(s: State, t: Tid)
    requires Reachable(s) && Do(s, t, Fail).Some?
    ensures var s1 := Do(s, t, Fail);
      var s2 := if s.pc[t].Running? then Do(s1.value, t, Go) else s1;
      s2.Some? && !s.initialized && Do(s2.value, t, Go) == Some(s.(
        faults := s.faults + 1, inits := s.inits + (if s.pc[t].SupaInit? then 1 else 0),
        initializing := {}, lock := None, pc := s.pc[t := User]))
  {
    ReachableInv(s);
    FailsIff(s, t);
    if s.pc[t].Running? { QueuedFailure(s, t); } else { EarlyFailure(s, t); }
  }

  /** The thread that holds the lock can always move, so nobody waits for a stuck thread. */
  lemma HolderCanMove(s: State)
    requires Reachable(s) && s.lock.Some?
    ensures exists a :: Do(s, s.lock.value, a).Some?
  {
    ReachableInv(s);
    var t := s.lock.value;
    assert Critical(s.pc[t]);
    var a := if s.pc[t].Running? && s.pc[t].inner.InUser? then Return else Go;
    assert Do(s, t, a).Some?;
  }

  /** Once initialised, always initialised, and no drain ever runs again. */
  lemma {:induction false} SettledForGood(s: State, acts: seq<(Tid, Action)>)
    requires Inv(s) && s.initialized && Execute(s, acts).Some?
    ensures var e := Execute(s, acts).value;
      Inv(e) && e.initialized && e.runs == s.runs && e.base == s.base && e.lastTest == s.lastTest && e.inits == s.inits
      && s.queue <= e.queue
  {
    if acts != [] {
      var pre, last := acts[..|acts|-1], acts[|acts|-1];
      SettledForGood(s, pre);
      var m := Execute(s, pre).value;
      StepKeepsLockInv(m, last.0, last.1);
      StepKeepsDrainInv(m, last.0, last.1);
      StepKeepsCleanInv(m, last.0, last.1);
      StepKeepsBoundInv(m, last.0, last.1);
      if m.lock != Some(last.0) { OutsiderStep(m, last.0, last.1); }
    }
  }

  /**
   Which queued calls ever run: from an initialised state on, and whatever failed before,
   position p has been run exactly if it was in the queue at the length test that ended the
   drain. A call appended later is never run.
   */
  lemma QueuedCallRunsIff(s: State, acts: seq<(Tid, Action)>, p: nat)
    requires Reachable(s) && s.initialized && Execute(s, acts).Some?
    requires p < |Execute(s, acts).value.queue|
    ensures p in Execute(s, acts).value.runs <==> p < s.lastTest
  {
    ReachableInv(s);
    SettledForGood(s, acts);
    if p < s.lastTest { assert s.runs[s.base + p] == p; }
  }

  lemma ReachableStep(s: State, t: Tid, a: Action, s': State)
    requires Reachable(s) && Do(s, t, a) == Some(s')
    ensures Reachable(s')
  {
    var threads, acts :| Execute(Initial(threads), acts) == Some(s);
    var more := acts + [(t, a)];
    assert more[..|more|-1] == acts;
    assert Execute(Initial(threads), more) == Some(s');
  }

  /** A thread alone takes the lock ... */
  lemma SoloLock(s: State, t: Tid) returns (s': State)
    requires Reachable(s) && t in s.pc && s.pc[t].User? && !s.initialized && s.lock.None? && t !in s.initializing
    ensures Reachable(s') && s' == s.(lock := Some(t), pc := s.pc[t := InnerTest])
  {
    var a1 := At(s, t, InitTest);
    ReachableStep(s, t, CallInit, a1);
    var a2 := At(a1, t, Acquire);
    ReachableStep(a1, t, Go, a2);
    s' := At(a2.(lock := Some(t)), t, InnerTest);
    ReachableStep(a2, t, Go, s');
  }

  /** ... initialises the runtime ... */
  lemma SoloInit(s: State, t: Tid) returns (s': State)
    requires Reachable(s) && t in s.pc && s.pc[t].InnerTest? && !s.initialized
    ensures Reachable(s') && s' == s.(inits := s.inits + 1, pc := s.pc[t := SetFlag])
  {
    var a1 := At(s, t, Checks);
    ReachableStep(s, t, Go, a1);
    var a2 := At(a1, t, SupaInit);
    ReachableStep(a1, t, Go, a2);
    s' := At(a2.(inits := s.inits + 1), t, SetFlag);
    ReachableStep(a2, t, Go, s');
  }

  /** ... drains an empty queue ... */
  lemma SoloDrain(s: State, t: Tid) returns (s': State)
    requires Reachable(s) && t in s.pc && s.pc[t].SetFlag? && s.queue == [] && s.initializing == {}
    ensures Reachable(s') && s' == s.(base := |s.runs|, lastTest := 0, pc := s.pc[t := SetInitialized])
  {
    var a1 := At(s.(initializing := {t}, base := |s.runs|), t, LengthTest(0));
    assert s.initializing + {t} == {t} && {t} - {t} == {};
    ReachableStep(s, t, Go, a1);
    var a2 := At(a1.(lastTest := 0), t, ClearFlag(true));
    ReachableStep(a1, t, Go, a2);
    s' := At(a2.(initializing := {}), t, SetInitialized);
    ReachableStep(a2, t, Go, s');
  }

  /** ... and returns. */
  lemma SoloReturn(s: State, t: Tid) returns (s': State)
    requires Reachable(s) && t in s.pc && s.pc[t].SetInitialized?
    ensures Reachable(s') && s' == s.(initialized := true, lock := None, pc := s.pc[t := User])
  {
    var a1 := At(s.(initialized := true), t, Release(true));
    ReachableStep(s, t, Go, a1);
    s' := At(a1.(lock := None), t, User);
    ReachableStep(a1, t, Go, s');
  }

  lemma SoloInitialise(s: State, t: Tid) returns (s': State)
    requires Reachable(s) && t in s.pc && s.pc[t].User? && !s.initialized && s.lock.None? && s.initializing == {} && s.queue == []
    ensures Reachable(s') && s' == s.(initialized := true, inits := s.inits + 1, base := |s.runs|, lastTest := 0)
  {
    var s1 := SoloLock(s, t);
    var s2 := SoloInit(s1, t);
    var s3 := SoloDrain(s2, t);
    s' := SoloReturn(s3, t);
    assert s'.pc == s.pc;
  }

  lemma TestedTooEarly(c: Call) returns (s: State)
    ensures Reachable(s) && s == At(Initial({0, 1}), 1, Append(c))
  {
    var s0 := Initial({0, 1});
    assert Execute(s0, []) == Some(s0);
    var s1 := At(s0, 1, CallTest(c));
    ReachableStep(s0, 1, CallLazy(c), s1);
    s := At(s1, 1, Append(c));
    ReachableStep(s1, 1, Go, s);
  }

  /**
   Such a loss happens for every call: thread 1 tests before, and appends after, the
   initialisation by thread 0; both have returned, and by QueuedCallRunsIff it never runs.
   */
  lemma LostCallExample(c: Call) returns (s: State)
    ensures Reachable(s) && s.initialized && s.faults == 0 && s.lastTest == 0
    ensures s.queue == [c] && s.runs == [] && s.direct == [] && s.pc == map[0 := User, 1 := User]
  {
    var s1 := TestedTooEarly(c);
    assert s1.pc == map[0 := User, 1 := Append(c)];
    var s2 := SoloInitialise(s1, 0);
    s := At(s2.(queue := s2.queue + [c]), 1, User);
    ReachableStep(s2, 1, Go, s);
  }
}
