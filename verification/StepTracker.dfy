/** KinetoStepTracker: a global step count shared by many requesters. */
module StepTracker {

  datatype Op = Init(who: string) | Erase(who: string) | Increment(who: string)

  /** `_current_step`, `_step_dict`, and the number of `_kineto_step` calls and of warnings. */
  datatype Count = Count(current: int, steps: map<string, int>, kineto: int, warnings: int)

  const FRESH := Count(0, map[], 0, 0)

  ghost predicate Valid(c: Count) {
    c.kineto == c.current && c.warnings == 0 && forall r :: r in c.steps ==> c.steps[r] <= c.current
  }

  /** What an operation should do: only a requester that is level with the global count moves it on. */
  function Apply(c: Count, op: Op): Count {
    match op
    case Init(who) => c.(steps := c.steps[who := c.current])
    case Erase(who) => c.(steps := c.steps - {who})
    case Increment(who) =>
      var own := 1 + if who in c.steps then c.steps[who] else c.current;
      var up := if own > c.current then 1 else 0;
      Count(c.current + up, c.steps[who := own], c.kineto + up, c.warnings)
  }

  class KinetoStepTracker {
    var currentStep: int
    var stepDict: map<string, int>
    var kinetoSteps: int
    var warnings: int

    function Value(): Count reads this { Count(currentStep, stepDict, kinetoSteps, warnings) }

    constructor ()
      ensures Value() == FRESH
    {
      currentStep, stepDict, kinetoSteps, warnings := 0, map[], 0, 0;
    }

    method InitStepCount(requester: string)
      modifies this
      ensures Value() == Apply(old(Value()), Init(requester))
    {
      stepDict := stepDict[requester := currentStep];
    }

    method EraseStepCount(requester: string) returns (erased: bool)
      modifies this
      ensures Value() == Apply(old(Value()), Erase(requester)) && erased == (requester in old(stepDict))
    {
      erased := requester in stepDict;
      stepDict := stepDict - {requester};
    }

    /** `max(cls._step_dict.values())` */
    method MaxStep() returns (m: int)
      requires |stepDict| > 0
      ensures (exists r :: r in stepDict && stepDict[r] == m) && forall r :: r in stepDict ==> stepDict[r] <= m
    {
      var rest := stepDict.Keys;
      var r :| r in rest;
      m, rest := stepDict[r], rest - {r};
      while rest != {}
        invariant rest <= stepDict.Keys
        invariant exists q :: q in stepDict && stepDict[q] == m
        invariant forall q :: q in stepDict && q !in rest ==> stepDict[q] <= m
        decreases |rest|
      {
        r :| r in rest;
        if stepDict[r] > m { m := stepDict[r]; }
        rest := rest - {r};
      }
    }

    /** The code takes the maximum over all requesters; on valid counts that is the same. */
    method IncrementStep(requester: string) returns (step: int)
      requires Valid(Value())
      modifies this
      ensures Value() == Apply(old(Value()), Increment(requester)) && step == currentStep
    {
      if requester !in stepDict { InitStepCount(requester); }
      stepDict := stepDict[requester := stepDict[requester] + 1];
      assert requester in stepDict.Keys;
      var newStep := MaxStep();
      assert stepDict[requester] <= newStep;
      if newStep > currentStep {
        var delta := newStep - currentStep;
        warnings := warnings + if delta > 1 then 1 else 0;
        ghost var before := Value();
        for i := 0 to delta
          invariant Value() == before.(kineto := before.kineto + i)
        {
          kinetoSteps := kinetoSteps + 1;
        }
        currentStep := newStep;
      }
      step := currentStep;
    }
  }

  function ApplyAll(c: Count, ops: seq<Op>): Count {
    if ops == [] then c else Apply(ApplyAll(c, ops[..|ops|-1]), ops[|ops|-1])
  }

  lemma ApplyKeepsValid(c: Count, op: Op)
    requires Valid(c)
    ensures Valid(Apply(c, op)) && c.current <= Apply(c, op).current <= c.current + 1
  {
  }

  /**
   Over every sequence of operations the global count bounds every requester's, equals the
   number of `_kineto_step` calls, and the warning about a jump by more than one never fires.
   */
  lemma {:induction false} CountStaysValid(ops: seq<Op>)
    ensures Valid(ApplyAll(FRESH, ops))
  {
    if ops != [] {
      CountStaysValid(ops[..|ops|-1]);
      ApplyKeepsValid(ApplyAll(FRESH, ops[..|ops|-1]), ops[|ops|-1]);
    }
  }

  /** The global count never decreases, and only increments raise it, by at most one each. */
  lemma {:induction false} CountNeverDecreases(c: Count, ops: seq<Op>)
    requires Valid(c)
    ensures Valid(ApplyAll(c, ops))
    ensures c.current <= ApplyAll(c, ops).current <= c.current + Increments(ops)
  {
    if ops != [] {
      CountNeverDecreases(c, ops[..|ops|-1]);
      ApplyKeepsValid(ApplyAll(c, ops[..|ops|-1]), ops[|ops|-1]);
    }
  }

  function Increments(ops: seq<Op>): nat {
    if ops == [] then 0 else Increments(ops[..|ops|-1]) + if ops[|ops|-1].Increment? then 1 else 0
  }

  /** The increments by one requester among the operations. */
  function IncrementsBy(ops: seq<Op>, who: string): int {
    if ops == [] then 0 else IncrementsBy(ops[..|ops|-1], who) + if ops[|ops|-1] == Increment(who) then 1 else 0
  }

  /** Requesters registered before any step. */
  function Registered(who: set<string>): Count { Count(0, map r | r in who :: 0, 0, 0) }

  ghost predicate StepsOf(who: set<string>, ops: seq<Op>) {
    forall i :: 0 <= i < |ops| ==> ops[i].Increment? && ops[i].who in who
  }

  /**
   The purpose of the tracker: for requesters registered at the start, stepping in whatever
   order, the global count is the largest number of increments of any one of them.
   */
  lemma {:induction false} CountIsMaximum(who: set<string>, ops: seq<Op>)
    requires StepsOf(who, ops)
    ensures var c := ApplyAll(Registered(who), ops);
      && c.steps == (map r | r in who :: IncrementsBy(ops, r))
      && (forall r :: r in who ==> IncrementsBy(ops, r) <= c.current)
      && (c.current == 0 || exists r :: r in who && IncrementsBy(ops, r) == c.current)
  {
    if ops != [] {
      var pre, last := ops[..|ops|-1], ops[|ops|-1];
      CountIsMaximum(who, pre);
      var b, c := ApplyAll(Registered(who), pre), ApplyAll(Registered(who), ops);
      assert c.steps == b.steps[last.who := b.steps[last.who] + 1];
      assert forall r :: r in who ==> c.steps[r] == IncrementsBy(ops, r);
      if c.current == b.current {
        if c.current != 0 {
          var r :| r in who && IncrementsBy(pre, r) == b.current;
          assert IncrementsBy(ops, r) == c.current;
        }
      } else {
        assert IncrementsBy(ops, last.who) == c.current;
      }
    }
  }

  /** A requester that joins late is level with the others, so its very first step moves the count on. */
  lemma LateRequesterMovesOn(c: Count, who: string)
    requires Valid(c) && who !in c.steps
    ensures Apply(c, Increment(who)).current == c.current + 1
  {
  }

  // ---------------------------------------------------------------- when the count is the maximum

  /** The class's promise: the global count is the largest value of the dictionary. */
  ghost predicate IsMaximum(c: Count) {
    (exists r :: Level(c, r)) && forall r :: r in c.steps ==> c.steps[r] <= c.current
  }

  predicate Level(c: Count, r: string) { r in c.steps && c.steps[r] == c.current }

  /** The operation brings `r` up to the global count, or on with it. */
  predicate Reaches(c: Count, op: Op, r: string) {
    op.who == r && match op
      case Init(_) => true
      case Erase(_) => false
      case Increment(_) => r !in c.steps || c.steps[r] + 1 >= c.current
  }

  /** The operation erases `r`, or moves the count on without it. */
  predicate PartsFrom(c: Count, op: Op, r: string) {
    match op
    case Init(_) => false
    case Erase(who) => who == r
    case Increment(who) => who != r && (who !in c.steps || Level(c, who))
  }

  lemma LevelStep(c: Count, op: Op, r: string)
    requires Valid(c)
    ensures Level(Apply(c, op), r) <==> Reaches(c, op, r) || (Level(c, r) && !PartsFrom(c, op, r))
  {
  }

  /** Operation `k` made `r` level with the count and nothing parted them since. */
  ghost predicate LevelSince(ops: seq<Op>, k: nat, r: string) {
    && k < |ops| && Reaches(ApplyAll(FRESH, ops[..k]), ops[k], r)
    && forall i {:trigger ops[i]} :: k < i < |ops| ==> !PartsFrom(ApplyAll(FRESH, ops[..i]), ops[i], r)
  }

  lemma LevelSinceNext(pre: seq<Op>, last: Op, k: nat, r: string)
    requires k < |pre|
    ensures LevelSince(pre + [last], k, r) <==> LevelSince(pre, k, r) && !PartsFrom(ApplyAll(FRESH, pre), last, r)
  {
    var ops := pre + [last];
    assert ops[..|pre|] == pre && ops[|pre|] == last;
    assert forall i :: 0 <= i < |pre| ==> ops[..i] == pre[..i] && ops[i] == pre[i];
  }

  lemma {:induction false} LevelIff(ops: seq<Op>, r: string)
    ensures Level(ApplyAll(FRESH, ops), r) <==> exists k: nat :: LevelSince(ops, k, r)
  {
    if ops != [] {
      var n := |ops| - 1;
      var pre, last := ops[..n], ops[n];
      CountStaysValid(pre);
      LevelStep(ApplyAll(FRESH, pre), last, r);
      LevelIff(pre, r);
      assert ops == pre + [last];
      if k: nat :| LevelSince(ops, k, r) {
        if k < n { LevelSinceNext(pre, last, k, r); }
      }
      if Reaches(ApplyAll(FRESH, pre), last, r) { assert LevelSince(ops, n, r); }
      if k: nat :| LevelSince(pre, k, r) && !PartsFrom(ApplyAll(FRESH, pre), last, r) { LevelSinceNext(pre, last, k, r); }
    }
  }

  /**
   The global count is the maximum of the dictionary if and only if some requester drew level with
   it and has neither been erased nor outrun since.
   */
  lemma MaximumIff(ops: seq<Op>)
    ensures IsMaximum(ApplyAll(FRESH, ops)) <==> exists r, k: nat :: LevelSince(ops, k, r)
  {
    CountStaysValid(ops);
    if r :| Level(ApplyAll(FRESH, ops), r) { LevelIff(ops, r); }
    if r, k: nat :| LevelSince(ops, k, r) { LevelIff(ops, r); }
  }

  /** Of single operations only the erasure of the one requester that is level breaks the promise. */
  lemma MaximumBreaksIff(c: Count, op: Op)
    requires Valid(c) && IsMaximum(c)
    ensures !IsMaximum(Apply(c, op)) <==> op.Erase? && forall r :: Level(c, r) ==> r == op.who
  {
    ApplyKeepsValid(c, op);
    if op.Erase? {
      forall r ensures Level(Apply(c, op), r) <==> Level(c, r) && r != op.who { LevelStep(c, op, r); }
    } else {
      var r :| Level(c, r);
      LevelStep(c, op, r);
      LevelStep(c, op, op.who);
    }
  }

  /** As long as nothing is erased the count is the maximum from the first operation on. */
  lemma {:induction false} MaximumWithoutErase(ops: seq<Op>)
    requires ops != [] && forall i :: 0 <= i < |ops| ==> !ops[i].Erase?
    ensures IsMaximum(ApplyAll(FRESH, ops))
  {
    var n := |ops| - 1;
    CountStaysValid(ops);
    if n > 0 {
      MaximumWithoutErase(ops[..n]);
      CountStaysValid(ops[..n]);
      MaximumBreaksIff(ApplyAll(FRESH, ops[..n]), ops[n]);
    } else {
      LevelStep(FRESH, ops[0], ops[0].who);
      assert ops[..0] == [] && ApplyAll(FRESH, ops) == Apply(FRESH, ops[0]);
    }
  }

  /** When the leading requester is erased, the count stays above all that are left. */
  lemma LeaderErased(a: string, b: string)
    requires a != b
    ensures var c := ApplyAll(FRESH, [Init(b), Increment(a), Erase(a)]); c.current == 1 && c.steps == map[b := 0] && !IsMaximum(c)
  {
    var ops := [Init(b), Increment(a), Erase(a)];
    assert ops[..2] == [Init(b), Increment(a)] && ops[..2][..1] == [Init(b)] && ops[..2][..1][..0] == [];
    var c1 := ApplyAll(FRESH, [Init(b)]);
    assert [Init(b)][..0] == [] && ApplyAll(FRESH, []) == FRESH;
    assert c1 == Apply(FRESH, Init(b)) && c1.steps == map[b := 0];
    var c2 := ApplyAll(FRESH, ops[..2]);
    assert c2 == Apply(c1, Increment(a)) && c2.current == 1 && c2.steps == map[b := 0, a := 1];
  }
}
