/**
 The run protocol of profiler.profile: start, any number of steps, stop, driven by an
 arbitrary schedule through the action table.
 */
module ProfilerRun {
  import opened Wrappers

  datatype Action = NONE | WARMUP | RECORD | RECORD_AND_SAVE

  datatype Effect =
    | Prepare | Start | Stop | Ready | Warn      // the entries of the action table
    | EnterStep(n: nat) | ExitStep(n: nat)       // the step markers
    | IncrementStep                              // KinetoStepTracker.increment_step

  predicate Recording(a: Action) { a == RECORD || a == RECORD_AND_SAVE }

  /** profile.action_map; a missing entry does nothing. */
  function Table(prev: Action, current: Option<Action>): seq<Effect> {
    match (prev, current)
    case (NONE, Some(NONE)) => []
    case (NONE, Some(WARMUP)) => [Prepare]
    case (NONE, Some(RECORD)) => [Prepare, Start]
    case (NONE, Some(RECORD_AND_SAVE)) => [Prepare, Start]
    case (WARMUP, Some(NONE)) => [Warn, Start, Stop]
    case (WARMUP, Some(WARMUP)) => []
    case (WARMUP, Some(RECORD)) => [Start]
    case (WARMUP, Some(RECORD_AND_SAVE)) => [Start]
    case (RECORD, Some(NONE)) => [Warn, Stop]
    case (RECORD, Some(WARMUP)) => [Warn, Stop]
    case (RECORD, Some(RECORD)) => []
    case (RECORD, Some(RECORD_AND_SAVE)) => []
    case (RECORD_AND_SAVE, Some(NONE)) => [Stop, Ready]
    case (RECORD_AND_SAVE, Some(WARMUP)) => [Stop, Ready, Prepare]
    case (RECORD_AND_SAVE, Some(RECORD)) => [Stop, Ready, Prepare, Start]
    case (RECORD_AND_SAVE, Some(RECORD_AND_SAVE)) => [Stop, Ready, Prepare, Start]
    case (WARMUP, None) => [Start, Stop]
    case (RECORD, None) => [Stop, Ready]
    case (RECORD_AND_SAVE, None) => [Stop, Ready]
    case (NONE, None) => []
  }

  predicate Stopping(prev: Action, current: Option<Action>) {
    || prev == RECORD_AND_SAVE
    || (prev == RECORD && (current.None? || current.value == NONE || current.value == WARMUP))
    || (prev == WARMUP && (current.None? || current.value == NONE))
  }

  /**
   The table, effect by effect: a warning only for a schedule that breaks off, and then first; a trace
   is prepared where a new one may be coming; it is ready exactly if it was to be saved, or recording
   runs into the end, and then directly after it stopped; no effect comes twice.
   */
  lemma TableMeaning(prev: Action, current: Option<Action>)
    ensures var t := Table(prev, current);
      && (Warn in t <==> current.Some? && ((prev == WARMUP && current.value == NONE) || (prev == RECORD && current.value in {NONE, WARMUP})))
      && (Prepare in t <==> current.Some? && current.value != NONE && prev in {NONE, RECORD_AND_SAVE})
      && (Ready in t <==> prev == RECORD_AND_SAVE || (prev == RECORD && current.None?))
      && (Stop in t <==> Stopping(prev, current))
      && (Start in t <==>
            || (current.Some? && current.value in {RECORD, RECORD_AND_SAVE} && prev != RECORD)
            || (prev == WARMUP && (current.None? || current.value == NONE)))
    ensures var t := Table(prev, current);
      forall i :: 0 <= i < |t| ==>
        && (t[i] == Warn ==> i == 0) && (t[i] == Ready ==> i > 0 && t[i-1] == Stop)
        && (t[i] == Prepare ==> i + 1 == |t| || t[i+1] == Start)
        && (t[i] == Stop && i > 0 ==> t[i-1] == Warn || t[i-1] == Start)
        && t[i] in {Warn, Prepare, Ready, Stop, Start}
        && forall j :: i < j < |t| ==> t[i] != t[j]
  {
  }

  function Marker(record: bool, e: Effect): seq<Effect> { if record then [e] else [] }

  /** The effects of `start`. */
  function StartLog(schedule: nat -> Action, record: bool): seq<Effect> {
    Table(NONE, Some(schedule(0))) + Marker(record, EnterStep(0))
  }

  /** The effects of the call of `step` that leaves step `i`. */
  function StepLog(schedule: nat -> Action, record: bool, i: nat): seq<Effect> {
    Marker(record, ExitStep(i)) + Table(schedule(i), Some(schedule(i + 1))) + [IncrementStep] + Marker(record, EnterStep(i + 1))
  }

  /** The effects of `stop` in step `n`. */
  function StopLog(schedule: nat -> Action, record: bool, n: nat): seq<Effect> {
    Marker(record, ExitStep(n)) + Table(schedule(n), None)
  }

  /** The effects of `start` and `n` calls of `step`. */
  function RunningLog(schedule: nat -> Action, record: bool, n: nat): seq<Effect> {
    if n == 0 then StartLog(schedule, record) else RunningLog(schedule, record, n - 1) + StepLog(schedule, record, n - 1)
  }

  /** A whole run: start, `n` steps, stop. */
  function RunLog(schedule: nat -> Action, record: bool, n: nat): seq<Effect> {
    RunningLog(schedule, record, n) + StopLog(schedule, record, n)
  }

  lemma Regroup(a: seq<Effect>, b: seq<Effect>, c: seq<Effect>, d: seq<Effect>, e: seq<Effect>)
    ensures a + b + c + d + e == a + (b + c + d + e)
  {
  }

  class Profiler {
    const schedule: nat -> Action
    const recordSteps: bool
    var stepNum: nat
    var currentAction: Action
    var stepRecFn: Option<nat>
    var log: seq<Effect>

    /** Started, with `stepNum` steps taken. */
    ghost predicate Running() reads this {
      && currentAction == schedule(stepNum) && stepRecFn == (if recordSteps then Some(stepNum) else None)
      && log == RunningLog(schedule, recordSteps, stepNum)
    }

    /** Steps are marked if the caller gave the schedule. */
    constructor (schedule: nat -> Action, recordSteps: bool)
      ensures this.schedule == schedule && this.recordSteps == recordSteps
      ensures stepNum == 0 && stepRecFn == None && log == [] && currentAction == schedule(0)
    {
      this.schedule, this.recordSteps := schedule, recordSteps;
      stepNum, currentAction, stepRecFn, log := 0, schedule(0), None, [];
    }

    method Transit(prev: Action, current: Option<Action>)
      modifies this`log
      ensures log == old(log) + Table(prev, current)
    {
      var actions := Table(prev, current);
      for i := 0 to |actions|
        invariant log == old(log) + actions[..i]
      {
        log := log + [actions[i]];
      }
    }

    method Start()
      requires stepNum == 0 && stepRecFn == None && log == [] && currentAction == schedule(0)
      modifies this
      ensures Running() && stepNum == 0
    {
      Transit(NONE, Some(currentAction));
      if recordSteps {
        stepRecFn := Some(stepNum);
        log := log + [EnterStep(stepNum)];
      }
    }

    method Step()
      requires Running()
      modifies this
      ensures Running() && stepNum == old(stepNum) + 1
    {
      if recordSteps && stepRecFn.Some? { log := log + [ExitStep(stepRecFn.value)]; }
      assert log == old(log) + Marker(recordSteps, ExitStep(stepNum));
      var prev := currentAction;
      stepNum := stepNum + 1;
      currentAction := schedule(stepNum);
      Transit(prev, Some(currentAction));
      log := log + [IncrementStep];
      if recordSteps {
        stepRecFn := Some(stepNum);
        log := log + [EnterStep(stepNum)];
      }
      Regroup(old(log), Marker(recordSteps, ExitStep(stepNum - 1)), Table(prev, Some(currentAction)), [IncrementStep],
              Marker(recordSteps, EnterStep(stepNum)));
    }

    method Stop()
      requires Running()
      modifies this
      ensures log == RunLog(schedule, recordSteps, stepNum) && stepNum == old(stepNum)
    {
      if recordSteps && stepRecFn.Some? { log := log + [ExitStep(stepRecFn.value)]; }
      Transit(currentAction, None);
    }
  }

  // ---------------------------------------------------------------- observers of a log

  /** An observer sees the effects one after the other. */
  function Observe<S>(see: (S, Effect) -> S, s: S, log: seq<Effect>): S {
    if log == [] then s else see(Observe(see, s, log[..|log|-1]), log[|log|-1])
  }

  lemma {:induction false} ObserveConcat<S>(see: (S, Effect) -> S, s: S, a: seq<Effect>, b: seq<Effect>)
    ensures Observe(see, s, a + b) == Observe(see, Observe(see, s, a), b)
  {
    if b == [] {
      assert a + b == a;
    } else {
      assert (a + b)[..|a + b|-1] == a + b[..|b|-1];
      ObserveConcat(see, s, a, b[..|b|-1]);
    }
  }

  lemma ObserveOne<S>(see: (S, Effect) -> S, s: S, e: Effect)
    ensures Observe(see, s, [e]) == see(s, e)
  {
    assert [e][..0] == [];
  }

  lemma ObserveTwo<S>(see: (S, Effect) -> S, s: S, e: Effect, f: Effect)
    ensures Observe(see, s, [e, f]) == see(see(s, e), f)
  {
    assert [e, f][..1] == [e];
    ObserveOne(see, s, e);
  }

  lemma ObserveThree<S>(see: (S, Effect) -> S, s: S, e: Effect, f: Effect, g: Effect)
    ensures Observe(see, s, [e, f, g]) == see(see(see(s, e), f), g)
  {
    assert [e, f, g][..2] == [e, f];
    ObserveTwo(see, s, e, f);
  }

  lemma ObserveFour<S>(see: (S, Effect) -> S, s: S, e: Effect, f: Effect, g: Effect, h: Effect)
    ensures Observe(see, s, [e, f, g, h]) == see(see(see(see(s, e), f), g), h)
  {
    assert [e, f, g, h][..3] == [e, f, g];
    ObserveThree(see, s, e, f, g);
  }

  /** Evaluates an observer on one entry of the table. */
  lemma ObserveTable<S>(see: (S, Effect) -> S, s: S, prev: Action, current: Option<Action>)
    ensures var t := Table(prev, current);
      Observe(see, s, t) ==
        if |t| == 0 then s
        else if |t| == 1 then see(s, t[0])
        else if |t| == 2 then see(see(s, t[0]), t[1])
        else if |t| == 3 then see(see(see(s, t[0]), t[1]), t[2])
        else see(see(see(see(s, t[0]), t[1]), t[2]), t[3])
  {
    var t := Table(prev, current);
    if |t| == 1 { ObserveOne(see, s, t[0]); assert t == [t[0]]; }
    if |t| == 2 { ObserveTwo(see, s, t[0], t[1]); assert t == [t[0], t[1]]; }
    if |t| == 3 { ObserveThree(see, s, t[0], t[1], t[2]); assert t == [t[0], t[1], t[2]]; }
    if |t| == 4 { ObserveFour(see, s, t[0], t[1], t[2], t[3]); assert t == [t[0], t[1], t[2], t[3]]; }
  }

  lemma ObserveMarker<S>(see: (S, Effect) -> S, s: S, record: bool, e: Effect)
    ensures Observe(see, s, Marker(record, e)) == if record then see(s, e) else s
  {
    ObserveOne(see, s, e);
  }

  lemma ObserveStart<S>(see: (S, Effect) -> S, s: S, s': S, schedule: nat -> Action, record: bool)
    requires Observe(see, s, Table(NONE, Some(schedule(0)))) == s'
    ensures Observe(see, s, StartLog(schedule, record)) == if record then see(s', EnterStep(0)) else s'
  {
    ObserveConcat(see, s, Table(NONE, Some(schedule(0))), Marker(record, EnterStep(0)));
    ObserveMarker(see, s', record, EnterStep(0));
  }

  lemma ObserveStep<S>(see: (S, Effect) -> S, s: S, s': S, schedule: nat -> Action, record: bool, i: nat)
    requires Observe(see, if record then see(s, ExitStep(i)) else s, Table(schedule(i), Some(schedule(i + 1)))) == s'
    ensures Observe(see, s, StepLog(schedule, record, i))
         == if record then see(see(s', IncrementStep), EnterStep(i + 1)) else see(s', IncrementStep)
  {
    var m1, t, m2 := Marker(record, ExitStep(i)), Table(schedule(i), Some(schedule(i + 1))), Marker(record, EnterStep(i + 1));
    ObserveConcat(see, s, m1 + t + [IncrementStep], m2);
    ObserveConcat(see, s, m1 + t, [IncrementStep]);
    ObserveConcat(see, s, m1, t);
    ObserveMarker(see, s, record, ExitStep(i));
    ObserveOne(see, Observe(see, s, m1 + t), IncrementStep);
    ObserveMarker(see, Observe(see, s, m1 + t + [IncrementStep]), record, EnterStep(i + 1));
  }

  lemma ObserveStop<S>(see: (S, Effect) -> S, s: S, s': S, schedule: nat -> Action, record: bool, n: nat)
    requires Observe(see, if record then see(s, ExitStep(n)) else s, Table(schedule(n), None)) == s'
    ensures Observe(see, s, StopLog(schedule, record, n)) == s'
  {
    ObserveConcat(see, s, Marker(record, ExitStep(n)), Table(schedule(n), None));
    ObserveMarker(see, s, record, ExitStep(n));
  }

  lemma ObserveRunning<S>(see: (S, Effect) -> S, s0: S, s: S, schedule: nat -> Action, record: bool, n: nat)
    requires n > 0 && Observe(see, s0, RunningLog(schedule, record, n - 1)) == s
    ensures Observe(see, s0, RunningLog(schedule, record, n)) == Observe(see, s, StepLog(schedule, record, n - 1))
  {
    ObserveConcat(see, s0, RunningLog(schedule, record, n - 1), StepLog(schedule, record, n - 1));
  }

  lemma ObserveRun<S>(see: (S, Effect) -> S, s0: S, s: S, schedule: nat -> Action, record: bool, n: nat)
    requires Observe(see, s0, RunningLog(schedule, record, n)) == s
    ensures Observe(see, s0, RunLog(schedule, record, n)) == Observe(see, s, StopLog(schedule, record, n))
  {
    ObserveConcat(see, s0, RunningLog(schedule, record, n), StopLog(schedule, record, n));
  }

  // ---------------------------------------------------------------- traces

  datatype Trace = Trace(ok: bool, on: bool)

  /** Traces must start and stop strictly in turn. */
  function SeeTrace(t: Trace, e: Effect): Trace {
    match e
    case Start => Trace(t.ok && !t.on, true)
    case Stop => Trace(t.ok && t.on, false)
    case _ => t
  }

  predicate RecordingNow(a: Option<Action>) { a.Some? && Recording(a.value) }

  lemma TraceTable(prev: Action, current: Option<Action>)
    ensures Observe(SeeTrace, Trace(true, Recording(prev)), Table(prev, current)) == Trace(true, RecordingNow(current))
  {
    ObserveTable(SeeTrace, Trace(true, Recording(prev)), prev, current);
  }

  lemma TraceStep(schedule: nat -> Action, record: bool, i: nat)
    ensures Observe(SeeTrace, Trace(true, Recording(schedule(i))), StepLog(schedule, record, i))
         == Trace(true, Recording(schedule(i + 1)))
  {
    TraceTable(schedule(i), Some(schedule(i + 1)));
    ObserveStep(SeeTrace, Trace(true, Recording(schedule(i))), Trace(true, Recording(schedule(i + 1))), schedule, record, i);
  }

  lemma TraceStart(schedule: nat -> Action, record: bool)
    ensures Observe(SeeTrace, Trace(true, false), StartLog(schedule, record)) == Trace(true, Recording(schedule(0)))
  {
    TraceTable(NONE, Some(schedule(0)));
    ObserveStart(SeeTrace, Trace(true, false), Trace(true, Recording(schedule(0))), schedule, record);
  }

  lemma TraceStop(schedule: nat -> Action, record: bool, n: nat)
    ensures Observe(SeeTrace, Trace(true, Recording(schedule(n))), StopLog(schedule, record, n)) == Trace(true, false)
  {
    TraceTable(schedule(n), None);
    ObserveStop(SeeTrace, Trace(true, Recording(schedule(n))), Trace(true, false), schedule, record, n);
  }

  lemma TraceAdvance(schedule: nat -> Action, record: bool, i: nat, before: seq<Effect>, after: seq<Effect>)
    requires after == before + StepLog(schedule, record, i)
    requires Observe(SeeTrace, Trace(true, false), before) == Trace(true, Recording(schedule(i)))
    ensures Observe(SeeTrace, Trace(true, false), after) == Trace(true, Recording(schedule(i + 1)))
  {
    ObserveConcat(SeeTrace, Trace(true, false), before, StepLog(schedule, record, i));
    TraceStep(schedule, record, i);
  }

  /** At every point of every run starts and stops alternate, and a trace is on exactly while recording. */
  lemma {:induction false} TracesAlternate(schedule: nat -> Action, record: bool, n: nat)
    ensures Observe(SeeTrace, Trace(true, false), RunningLog(schedule, record, n)) == Trace(true, Recording(schedule(n)))
  {
    if n == 0 {
      TraceStart(schedule, record);
    } else {
      TracesAlternate(schedule, record, n - 1);
      TraceAdvance(schedule, record, n - 1, RunningLog(schedule, record, n - 1), RunningLog(schedule, record, n));
    }
  }

  /** After stop every trace is off. */
  lemma RunEndsOff(schedule: nat -> Action, record: bool, n: nat)
    ensures Observe(SeeTrace, Trace(true, false), RunLog(schedule, record, n)) == Trace(true, false)
  {
    TracesAlternate(schedule, record, n);
    ObserveRun(SeeTrace, Trace(true, false), Trace(true, Recording(schedule(n))), schedule, record, n);
    TraceStop(schedule, record, n);
  }

  // ---------------------------------------------------------------- trace-ready

  function SeeReady(c: int, e: Effect): int { if e == Ready then c + 1 else c }

  /** How many of the first `n` steps have the action RECORD_AND_SAVE. */
  function Saves(schedule: nat -> Action, n: nat): int {
    if n == 0 then 0 else Saves(schedule, n - 1) + if schedule(n - 1) == RECORD_AND_SAVE then 1 else 0
  }

  lemma ReadyTable(prev: Action, current: Option<Action>, c: int)
    ensures Observe(SeeReady, c, Table(prev, current))
         == c + if prev == RECORD_AND_SAVE || (prev == RECORD && current.None?) then 1 else 0
  {
    ObserveTable(SeeReady, c, prev, current);
  }

  lemma ReadyStep(schedule: nat -> Action, record: bool, i: nat, c: int)
    ensures Observe(SeeReady, c, StepLog(schedule, record, i)) == c + if schedule(i) == RECORD_AND_SAVE then 1 else 0
  {
    ReadyTable(schedule(i), Some(schedule(i + 1)), c);
    ObserveStep(SeeReady, c, c + if schedule(i) == RECORD_AND_SAVE then 1 else 0, schedule, record, i);
  }

  lemma ReadyStart(schedule: nat -> Action, record: bool)
    ensures Observe(SeeReady, 0, StartLog(schedule, record)) == 0
  {
    ReadyTable(NONE, Some(schedule(0)), 0);
    ObserveStart(SeeReady, 0, 0, schedule, record);
  }

  lemma ReadyStop(schedule: nat -> Action, record: bool, n: nat, c: int)
    ensures Observe(SeeReady, c, StopLog(schedule, record, n)) == c + if Recording(schedule(n)) then 1 else 0
  {
    ReadyTable(schedule(n), None, c);
    ObserveStop(SeeReady, c, c + if Recording(schedule(n)) then 1 else 0, schedule, record, n);
  }

  lemma ReadyAdvance(schedule: nat -> Action, record: bool, i: nat, c: int, before: seq<Effect>, after: seq<Effect>)
    requires after == before + StepLog(schedule, record, i) && Observe(SeeReady, 0, before) == c
    ensures Observe(SeeReady, 0, after) == c + if schedule(i) == RECORD_AND_SAVE then 1 else 0
  {
    ObserveConcat(SeeReady, 0, before, StepLog(schedule, record, i));
    ReadyStep(schedule, record, i, c);
  }

  lemma {:induction false} ReadyWhileRunning(schedule: nat -> Action, record: bool, n: nat)
    ensures Observe(SeeReady, 0, RunningLog(schedule, record, n)) == Saves(schedule, n)
  {
    if n == 0 {
      ReadyStart(schedule, record);
    } else {
      ReadyWhileRunning(schedule, record, n - 1);
      ReadyAdvance(schedule, record, n - 1, Saves(schedule, n - 1),
                   RunningLog(schedule, record, n - 1), RunningLog(schedule, record, n));
    }
  }

  /** Trace-ready fires once per RECORD_AND_SAVE step left, plus once if the run stops while recording. */
  lemma ReadyCount(schedule: nat -> Action, record: bool, n: nat)
    ensures Observe(SeeReady, 0, RunLog(schedule, record, n)) == Saves(schedule, n) + if Recording(schedule(n)) then 1 else 0
  {
    ReadyWhileRunning(schedule, record, n);
    ObserveRun(SeeReady, 0, Saves(schedule, n), schedule, record, n);
    ReadyStop(schedule, record, n, Saves(schedule, n));
  }

  // ---------------------------------------------------------------- prepare

  datatype Prepared = Prepared(ok: bool, count: nat)

  /** Every start must find exactly one prepare since the previous stop. */
  function SeePrepare(p: Prepared, e: Effect): Prepared {
    match e
    case Prepare => Prepared(p.ok, p.count + 1)
    case Start => Prepared(p.ok && p.count == 1, p.count)
    case Stop => Prepared(p.ok, 0)
    case _ => p
  }

  /** WARMUP directly follows RECORD somewhere in the first `n` steps. */
  ghost predicate Relapses(schedule: nat -> Action, n: nat) {
    exists i: nat :: i < n && schedule(i) == RECORD && schedule(i + 1) == WARMUP
  }

  /** In WARMUP since a relapse: the next start will lack its prepare. */
  predicate Owing(schedule: nat -> Action, n: nat) {
    n > 0 && schedule(n) == WARMUP && (schedule(n - 1) == RECORD || (schedule(n - 1) == WARMUP && Owing(schedule, n - 1)))
  }

  lemma RelapsesNext(schedule: nat -> Action, n: nat)
    requires n > 0
    ensures Relapses(schedule, n) <==>
      Relapses(schedule, n - 1) || (schedule(n - 1) == RECORD && schedule(n) == WARMUP)
  {
    var m := n - 1;
    assert schedule(m + 1) == schedule(n);
  }

  /** The prepare count in a state: one unless idle or owing. */
  function CountIn(a: Action, owing: bool): nat { if a == NONE || owing then 0 else 1 }

  lemma PrepareTable(prev: Action, current: Option<Action>, p: Prepared, owing: bool)
    requires p.ok ==> p.count == CountIn(prev, owing)
    requires owing ==> prev == WARMUP
    ensures var q := Observe(SeePrepare, p, Table(prev, current));
      && (q.ok <==> p.ok && !(owing && current != Some(WARMUP)))
      && (q.ok && current.Some? ==>
            q.count == CountIn(current.value, current.value == WARMUP && (prev == RECORD || owing)))
  {
    ObserveTable(SeePrepare, p, prev, current);
  }

  /** The link between the observer and the schedule. */
  ghost predicate Linked(schedule: nat -> Action, n: nat, p: Prepared) {
    && (!Relapses(schedule, n) ==> p.ok && !Owing(schedule, n))
    && (Relapses(schedule, n) ==> !p.ok || Owing(schedule, n))
    && (p.ok ==> p.count == CountIn(schedule(n), Owing(schedule, n)))
  }

  lemma PrepareStep(schedule: nat -> Action, record: bool, n: nat, p: Prepared)
    requires n > 0 && Linked(schedule, n - 1, p)
    ensures Linked(schedule, n, Observe(SeePrepare, p, StepLog(schedule, record, n - 1)))
  {
    RelapsesNext(schedule, n);
    PrepareTable(schedule(n - 1), Some(schedule(n)), p, Owing(schedule, n - 1));
    ObserveStep(SeePrepare, p, Observe(SeePrepare, p, Table(schedule(n - 1), Some(schedule(n)))), schedule, record, n - 1);
  }

  lemma PrepareStart(schedule: nat -> Action, record: bool)
    ensures Linked(schedule, 0, Observe(SeePrepare, Prepared(true, 0), StartLog(schedule, record)))
  {
    var p := Prepared(true, 0);
    PrepareTable(NONE, Some(schedule(0)), p, false);
    ObserveStart(SeePrepare, p, Observe(SeePrepare, p, Table(NONE, Some(schedule(0)))), schedule, record);
  }

  lemma PrepareStop(schedule: nat -> Action, record: bool, n: nat, p: Prepared)
    requires Linked(schedule, n, p)
    ensures Observe(SeePrepare, p, StopLog(schedule, record, n)).ok <==> !Relapses(schedule, n)
  {
    PrepareTable(schedule(n), None, p, Owing(schedule, n));
    ObserveStop(SeePrepare, p, Observe(SeePrepare, p, Table(schedule(n), None)), schedule, record, n);
  }

  lemma PrepareAdvance(schedule: nat -> Action, record: bool, n: nat, before: seq<Effect>, after: seq<Effect>)
    requires n > 0 && after == before + StepLog(schedule, record, n - 1)
    requires Linked(schedule, n - 1, Observe(SeePrepare, Prepared(true, 0), before))
    ensures Linked(schedule, n, Observe(SeePrepare, Prepared(true, 0), after))
  {
    ObserveConcat(SeePrepare, Prepared(true, 0), before, StepLog(schedule, record, n - 1));
    PrepareStep(schedule, record, n, Observe(SeePrepare, Prepared(true, 0), before));
  }

  lemma {:induction false} PreparedWhileRunning(schedule: nat -> Action, record: bool, n: nat)
    ensures Linked(schedule, n, Observe(SeePrepare, Prepared(true, 0), RunningLog(schedule, record, n)))
  {
    if n == 0 {
      PrepareStart(schedule, record);
    } else {
      PreparedWhileRunning(schedule, record, n - 1);
      PrepareAdvance(schedule, record, n, RunningLog(schedule, record, n - 1), RunningLog(schedule, record, n));
    }
  }

  /** Each start has exactly one prepare since the previous stop if and only if WARMUP never directly follows RECORD. */
  lemma PreparedIff(schedule: nat -> Action, record: bool, n: nat)
    ensures Observe(SeePrepare, Prepared(true, 0), RunLog(schedule, record, n)).ok <==> !Relapses(schedule, n)
  {
    PreparedWhileRunning(schedule, record, n);
    var p := Observe(SeePrepare, Prepared(true, 0), RunningLog(schedule, record, n));
    ObserveRun(SeePrepare, Prepared(true, 0), p, schedule, record, n);
    PrepareStop(schedule, record, n, p);
  }

  // ---------------------------------------------------------------- step markers

  datatype Open = Open(ok: bool, step: Option<nat>)

  /** Step markers must be entered and left in turn, each left for the step it was entered for. */
  function SeeMarker(m: Open, e: Effect): Open {
    match e
    case EnterStep(n) => Open(m.ok && m.step.None?, Some(n))
    case ExitStep(n) => Open(m.ok && m.step == Some(n), None)
    case _ => m
  }

  lemma MarkerTable(prev: Action, current: Option<Action>)
    ensures Observe(SeeMarker, Open(true, None), Table(prev, current)) == Open(true, None)
  {
    ObserveTable(SeeMarker, Open(true, None), prev, current);
  }

  function OpenAt(record: bool, n: nat): Open { Open(true, if record then Some(n) else None) }

  lemma MarkerStart(schedule: nat -> Action, record: bool)
    ensures Observe(SeeMarker, Open(true, None), StartLog(schedule, record)) == OpenAt(record, 0)
  {
    MarkerTable(NONE, Some(schedule(0)));
    ObserveStart(SeeMarker, Open(true, None), Open(true, None), schedule, record);
  }

  lemma MarkerStep(schedule: nat -> Action, record: bool, i: nat)
    ensures Observe(SeeMarker, OpenAt(record, i), StepLog(schedule, record, i)) == OpenAt(record, i + 1)
  {
    MarkerTable(schedule(i), Some(schedule(i + 1)));
    ObserveStep(SeeMarker, OpenAt(record, i), Open(true, None), schedule, record, i);
  }

  lemma MarkerStop(schedule: nat -> Action, record: bool, n: nat)
    ensures Observe(SeeMarker, OpenAt(record, n), StopLog(schedule, record, n)) == Open(true, None)
  {
    MarkerTable(schedule(n), None);
    ObserveStop(SeeMarker, OpenAt(record, n), Open(true, None), schedule, record, n);
  }

  lemma {:induction false} MarkersNest(schedule: nat -> Action, record: bool, n: nat)
    ensures Observe(SeeMarker, Open(true, None), RunningLog(schedule, record, n)) == OpenAt(record, n)
  {
    if n == 0 {
      MarkerStart(schedule, record);
    } else {
      MarkersNest(schedule, record, n - 1);
      ObserveRunning(SeeMarker, Open(true, None), OpenAt(record, n - 1), schedule, record, n);
      MarkerStep(schedule, record, n - 1);
    }
  }

  /** After stop every step marker is closed. */
  lemma MarkersClosed(schedule: nat -> Action, record: bool, n: nat)
    ensures Observe(SeeMarker, Open(true, None), RunLog(schedule, record, n)) == Open(true, None)
  {
    MarkersNest(schedule, record, n);
    ObserveRun(SeeMarker, Open(true, None), OpenAt(record, n), schedule, record, n);
    MarkerStop(schedule, record, n);
  }
}
