/**
 The preprocessor filter of the code generator: CtrlState and the loop of
 CppImplements.__get_impl_names that keeps the lines effective for one PyTorch version.
 Text is ASCII.
 */
module Preprocessor {
  import opened Wrappers
  import opened Sums
  import opened Strings
  import opened ConditionText
  import opened Conditions
  import Grouping

  datatype Error = MultiLineCondition | NoOpenGroup

  // ---------------------------------------------------------------- the filter

  /** What the filter looks at: the kind of a line and what its condition, if any, says. */
  datatype Line = Line(text: string, kind: Kind, continued: bool, check: Option<bool>)

  function Classify(v: Versions, text: string): Line {
    Line(text, KindOf(text), Continued(text), Check(v, Strip(text)))
  }

  /** The two flags of a CtrlState. */
  datatype Frame = Frame(record: bool, active: bool)

  function Open(check: Option<bool>, outer: bool): Frame { Frame(outer && check == Some(true), outer) }

  function Else(f: Frame): Frame {
    var active := f.active && !f.record;
    Frame(!f.record && active, active)
  }

  function Elif(f: Frame, check: Option<bool>): Frame {
    var g := Else(f);
    if g.active && check.Some? then g.(record := check.value) else g
  }

  class CtrlState {
    var record: bool
    var active: bool

    function Value(): Frame reads this { Frame(record, active) }

    constructor (check: Option<bool>, initial: bool)
      ensures Value() == Open(check, initial)
    {
      record, active := false, initial;
      new;
      if initial { CheckCondition(check); }
    }

    method CheckCondition(check: Option<bool>)
      modifies this
      ensures active == old(active) && record == if check.Some? then check.value else old(record)
    {
      if check.Some? { record := check.value; }
    }

    method UpdateElse()
      modifies this
      ensures Value() == Else(old(Value()))
    {
      if record { active := false; }
      record := !record && active;
    }

    method UpdateElif(check: Option<bool>)
      modifies this
      ensures Value() == Elif(old(Value()), check)
    {
      UpdateElse();
      if active { CheckCondition(check); }
    }
  }

  /** The loop's state as a value: the stack, whose last element is `current`, and the kept lines. */
  datatype Progress = Progress(stack: seq<Frame>, kept: seq<string>)

  function Step(p: Progress, line: Line): Result<Progress, Error> {
    if p.stack == [] then Err(NoOpenGroup) else
      var n := |p.stack| - 1;
      match line.kind
      case IfLine =>
        if line.continued then Err(MultiLineCondition)
        else Ok(p.(stack := p.stack + [Open(line.check, p.stack[n].record)]))
      case ElseLine => Ok(p.(stack := p.stack[n := Else(p.stack[n])]))
      case ElifLine =>
        if line.continued then Err(MultiLineCondition)
        else Ok(p.(stack := p.stack[n := Elif(p.stack[n], line.check)]))
      case EndifLine => if n == 0 then Err(NoOpenGroup) else Ok(p.(stack := p.stack[..n]))
      case TextLine => Ok(if p.stack[n].record then p.(kept := p.kept + [line.text]) else p)
  }

  function Run(p: Progress, lines: seq<Line>): Result<Progress, Error>
    decreases |lines|
  {
    if lines == [] then Ok(p) else
      match Step(p, lines[0])
      case Err(e) => Err(e)
      case Ok(q) => Run(q, lines[1..])
  }

  const START := Progress([Frame(true, true)], [])

  /** The objects on the stack are different and have these values. */
  ghost predicate Shows(stack: seq<CtrlState>, frames: seq<Frame>)
    reads stack
  {
    && |stack| == |frames| && (forall i :: 0 <= i < |stack| ==> stack[i].Value() == frames[i])
    && (forall i, j :: 0 <= i < j < |stack| ==> stack[i] != stack[j])
  }

  /** The branches of the loop body that handle a directive; the last stack element is `current`. */
  method Directive(stack: seq<CtrlState>, line: Line, ghost p: Progress) returns (error: Option<Error>, stack': seq<CtrlState>)
    requires stack != [] && Shows(stack, p.stack) && !line.kind.TextLine?
    modifies stack
    ensures match Step(p, line)
            case Err(e) => error == Some(e)
            case Ok(q) => error == None && stack' != [] && Shows(stack', q.stack) && q.kept == p.kept
    ensures forall k :: 0 <= k < |stack'| ==> stack'[k] in stack || fresh(stack'[k])
  {
    error, stack' := None, stack;
    var current := stack[|stack|-1];
    match line.kind
    case IfLine =>
      if line.continued { return Some(MultiLineCondition), stack; }
      current := new CtrlState(line.check, current.record);
      stack' := stack + [current];
    case ElseLine =>
      current.UpdateElse();
    case ElifLine =>
      if line.continued { return Some(MultiLineCondition), stack; }
      current.UpdateElif(line.check);
    case EndifLine =>
      stack' := stack[..|stack|-1];
      if stack' == [] { error := Some(NoOpenGroup); }
  }

  /** The filtering loop of __get_impl_names, on classified lines. */
  method FilterLines(lines: seq<Line>) returns (r: Result<seq<string>, Error>)
    ensures r == match Run(START, lines)
                 case Err(e) => Err(e)
                 case Ok(p) => Ok(p.kept)
  {
    var global := new CtrlState(None, true);
    global.record := true;
    var stack: seq<CtrlState> := [global];
    var kept: seq<string> := [];
    ghost var p := START;
    for i := 0 to |lines|
      invariant stack != [] && Shows(stack, p.stack) && kept == p.kept
      invariant forall k :: 0 <= k < |stack| ==> fresh(stack[k])
      invariant Run(START, lines) == Run(p, lines[i..])
    {
      var line := lines[i];
      assert lines[i..][0] == line && lines[i..][1..] == lines[i+1..];
      ghost var next := Step(p, line);
      if line.kind.TextLine? {
        if stack[|stack|-1].record { kept := kept + [line.text]; }
      } else {
        var error, stack' := Directive(stack, line, p);
        if error.Some? { return Err(error.value); }
        stack := stack';
      }
      p := next.value;
    }
    assert lines[|lines|..] == [];
    r := Ok(kept);
  }

  function ClassifyAll(v: Versions, contents: seq<string>): seq<Line> {
    seq(|contents|, i requires 0 <= i < |contents| => Classify(v, contents[i]))
  }

  /** The filter on the raw lines of a file. */
  method Filter(v: Versions, contents: seq<string>) returns (r: Result<seq<string>, Error>)
    ensures r == match Run(START, ClassifyAll(v, contents))
                 case Err(e) => Err(e)
                 case Ok(p) => Ok(p.kept)
  {
    r := FilterLines(ClassifyAll(v, contents));
  }

  // ---------------------------------------------------------------- reference semantics

  /** A well-nested file: text, and groups of an #if part and any number of #elif and #else arms. */
  datatype Items =
    | Nil
    | Text(line: Line, rest: Items)
    | Group(open: Line, body: Items, arms: Arms, close: Line, after: Items)
  datatype Arms = NoArms | Arm(head: Line, part: Items, more: Arms)

  predicate WellFormed(items: Items) {
    match items
    case Nil => true
    case Text(line, rest) => line.kind.TextLine? && WellFormed(rest)
    case Group(open, body, arms, close, after) =>
      && open.kind.IfLine? && !open.continued && close.kind.EndifLine?
      && WellFormed(body) && WellFormedArms(arms) && WellFormed(after)
  }

  predicate WellFormedArms(arms: Arms) {
    match arms
    case NoArms => true
    case Arm(head, part, more) =>
      (head.kind.ElseLine? || (head.kind.ElifLine? && !head.continued)) && WellFormed(part) && WellFormedArms(more)
  }

  function Lines(items: Items): seq<Line> {
    match items
    case Nil => []
    case Text(line, rest) => [line] + Lines(rest)
    case Group(open, body, arms, close, after) =>
      [open] + Lines(body) + ArmLines(arms) + [close] + Lines(after)
  }

  function ArmLines(arms: Arms): seq<Line> {
    match arms
    case NoArms => []
    case Arm(head, part, more) => [head] + Lines(part) + ArmLines(more)
  }

  /**
   Section 19.1 of ISO C++17: of each group at most one part is processed, the first whose
   condition holds. `holds` says so of #if and #elif lines; #else holds always.
   */
  function Effective(items: Items, holds: Line -> bool): seq<string> {
    match items
    case Nil => []
    case Text(line, rest) => [line.text] + Effective(rest, holds)
    case Group(open, body, arms, close, after) =>
      (if holds(open) then Effective(body, holds) else EffectiveArm(arms, holds)) + Effective(after, holds)
  }

  predicate Takes(head: Line, holds: Line -> bool) { head.kind.ElseLine? || holds(head) }

  function EffectiveArm(arms: Arms, holds: Line -> bool): seq<string> {
    match arms
    case NoArms => []
    case Arm(head, part, more) => if Takes(head, holds) then Effective(part, holds) else EffectiveArm(more, holds)
  }

  /**
   How the filter reads conditions: an #if that it does not recognise is false, but an #elif
   that it does not recognise is true.
   */
  function Reads(line: Line): bool {
    if line.kind.ElifLine? then line.check != Some(false) else line.check == Some(true)
  }

  function Then(r: Result<Progress, Error>, lines: seq<Line>): Result<Progress, Error> {
    match r case Err(e) => Err(e) case Ok(p) => Run(p, lines)
  }

  lemma {:induction false} RunConcat(p: Progress, a: seq<Line>, b: seq<Line>)
    ensures Run(p, a + b) == Then(Run(p, a), b)
    decreases |a|
  {
    if a == [] {
      assert a + b == b;
    } else {
      assert (a + b)[1..] == a[1..] + b && (a + b)[0] == a[0];
      if Step(p, a[0]).Ok? { RunConcat(Step(p, a[0]).value, a[1..], b); }
    }
  }

  lemma RunOne(p: Progress, line: Line)
    ensures Run(p, [line]) == Step(p, line)
  {
    assert [line][1..] == [];
  }

  /** `kept` and, if `on`, also `more`. */
  function With(kept: seq<string>, on: bool, more: seq<string>): seq<string> { if on then kept + more else kept }

  lemma WithWith(kept: seq<string>, on: bool, a: seq<string>, b: seq<string>)
    ensures With(With(kept, on, a), on, b) == With(kept, on, a + b)
  {
    assert kept + a + b == kept + (a + b);
  }

  lemma RunThen(p: Progress, a: seq<Line>, q: Progress, b: seq<Line>)
    requires Run(p, a) == Ok(q)
    ensures Run(p, a + b) == Run(q, b)
  {
    RunConcat(p, a, b);
  }

  function GroupLines(open: Line, body: Items, arms: Arms, close: Line): seq<Line> {
    [open] + Lines(body) + ArmLines(arms) + [close]
  }

  function EffectivePart(open: Line, body: Items, arms: Arms, holds: Line -> bool): seq<string> {
    if holds(open) then Effective(body, holds) else EffectiveArm(arms, holds)
  }

  /** On the lines of a well-nested file the filter leaves its stack as it found it. */
  lemma {:induction false} ItemsRun(st: seq<Frame>, kept: seq<string>, items: Items)
    requires st != [] && WellFormed(items)
    ensures Run(Progress(st, kept), Lines(items))
         == Ok(Progress(st, With(kept, st[|st|-1].record, Effective(items, Reads))))
    decreases items, 1
  {
    var on := st[|st|-1].record;
    var p := Progress(st, kept);
    match items
    case Nil =>
      assert kept + [] == kept;
    case Text(line, rest) =>
      var kept' := With(kept, on, [line.text]);
      RunOne(p, line);
      RunThen(p, [line], Progress(st, kept'), Lines(rest));
      ItemsRun(st, kept', rest);
      WithWith(kept, on, [line.text], Effective(rest, Reads));
    case Group(open, body, arms, close, after) =>
      var part := EffectivePart(open, body, arms, Reads);
      var kept' := With(kept, on, part);
      GroupRun(st, kept, items);
      RunThen(p, GroupLines(open, body, arms, close), Progress(st, kept'), Lines(after));
      ItemsRun(st, kept', after);
      WithWith(kept, on, part, Effective(after, Reads));
  }

  lemma {:induction false} GroupRun(st: seq<Frame>, kept: seq<string>, group: Items)
    requires st != [] && group.Group? && WellFormed(group)
    ensures Run(Progress(st, kept), GroupLines(group.open, group.body, group.arms, group.close))
         == Ok(Progress(st, With(kept, st[|st|-1].record, EffectivePart(group.open, group.body, group.arms, Reads))))
    decreases group, 0
  {
    var Group(open, body, arms, close, after) := group;
    var p0 := Progress(st, kept);
    var f := Open(open.check, st[|st|-1].record);
    RunOne(p0, open);
    var kept2 := With(kept, f.record, Effective(body, Reads));
    ItemsRun(st + [f], kept, body);
    RunThen(p0, [open], Progress(st + [f], kept), Lines(body));
    var g := ArmsRun(st, f, kept2, arms);
    var kept3 := With(kept2, f.active && !f.record, EffectiveArm(arms, Reads));
    RunThen(p0, [open] + Lines(body), Progress(st + [f], kept2), ArmLines(arms));
    RunThen(p0, [open] + Lines(body) + ArmLines(arms), Progress(st + [g], kept3), [close]);
    RunOne(Progress(st + [g], kept3), close);
    assert (st + [g])[..|st|] == st;
  }

  /** From the arms of a group the filter takes the first that it reads as true, if none was taken before. */
  lemma {:induction false} ArmsRun(st: seq<Frame>, f: Frame, kept: seq<string>, arms: Arms) returns (g: Frame)
    requires st != [] && WellFormedArms(arms) && (f.record ==> f.active)
    ensures Run(Progress(st + [f], kept), ArmLines(arms))
         == Ok(Progress(st + [g], With(kept, f.active && !f.record, EffectiveArm(arms, Reads))))
    decreases arms, 1
  {
    g := f;
    if arms.NoArms? {
      assert kept + [] == kept;
    } else {
      var head, part, more := arms.head, arms.part, arms.more;
      var p := Progress(st + [f], kept);
      var h := ArmFrame(st, f, kept, head);
      var kept' := With(kept, h.record, Effective(part, Reads));
      ItemsRun(st + [h], kept, part);
      RunThen(p, [head], Progress(st + [h], kept), Lines(part));
      RunThen(p, [head] + Lines(part), Progress(st + [h], kept'), ArmLines(more));
      g := ArmsRun(st, h, kept', more);
    }
  }

  lemma ArmFrame(st: seq<Frame>, f: Frame, kept: seq<string>, head: Line) returns (h: Frame)
    requires st != [] && (f.record ==> f.active) && (head.kind.ElseLine? || (head.kind.ElifLine? && !head.continued))
    ensures Run(Progress(st + [f], kept), [head]) == Ok(Progress(st + [h], kept))
    ensures h.active == (f.active && !f.record) && h.record == (h.active && (head.kind.ElseLine? || Reads(head)))
  {
    h := if head.kind.ElseLine? then Else(f) else Elif(f, head.check);
    RunOne(Progress(st + [f], kept), head);
    assert (st + [f])[|st| := h] == st + [h];
  }

  /** The filter keeps exactly the effective lines of a well-nested file, reading conditions by `Reads`. */
  lemma FilterMeaning(items: Items)
    requires WellFormed(items)
    ensures Run(START, Lines(items)) == Ok(START.(kept := Effective(items, Reads)))
  {
    ItemsRun(START.stack, [], items);
    assert [] + Effective(items, Reads) == Effective(items, Reads);
  }

  // ---------------------------------------------------------------- which files are well nested

  /** Counting open groups from left to right: no group is closed or continued that is not open, and none stays open. */
  predicate Nests(n: nat, lines: seq<Line>)
    decreases |lines|
  {
    if lines == [] then n == 0 else
      match lines[0].kind
      case IfLine => !lines[0].continued && Nests(n + 1, lines[1..])
      case ElseLine => n > 0 && Nests(n, lines[1..])
      case ElifLine => n > 0 && !lines[0].continued && Nests(n, lines[1..])
      case EndifLine => n > 0 && Nests(n - 1, lines[1..])
      case TextLine => Nests(n, lines[1..])
  }

  lemma NestsFirst(n: nat, line: Line, a: seq<Line>, b: seq<Line>)
    ensures [line] + a + b == [line] + (a + b)
    ensures ([line] + (a + b))[0] == line && ([line] + (a + b))[1..] == a + b
  {
  }

  lemma {:induction false} LinesNest(items: Items, n: nat, rest: seq<Line>)
    requires WellFormed(items)
    ensures Nests(n, Lines(items) + rest) <==> Nests(n, rest)
  {
    match items
    case Nil =>
      assert [] + rest == rest;
    case Text(line, more) =>
      NestsFirst(n, line, Lines(more), rest);
      LinesNest(more, n, rest);
    case Group(open, body, arms, close, after) =>
      var tail := [close] + (Lines(after) + rest);
      assert Lines(items) + rest == [open] + (Lines(body) + (ArmLines(arms) + tail));
      LinesNest(body, n + 1, ArmLines(arms) + tail);
      ArmLinesNest(arms, n + 1, tail);
      LinesNest(after, n, rest);
  }

  lemma {:induction false} ArmLinesNest(arms: Arms, n: nat, rest: seq<Line>)
    requires WellFormedArms(arms) && n > 0
    ensures Nests(n, ArmLines(arms) + rest) <==> Nests(n, rest)
  {
    if arms.NoArms? {
      assert [] + rest == rest;
    } else {
      var tail := ArmLines(arms.more) + rest;
      assert ArmLines(arms) + rest == [arms.head] + (Lines(arms.part) + tail);
      LinesNest(arms.part, n, tail);
      ArmLinesNest(arms.more, n, rest);
    }
  }

  /** Reads items as far as they go; what is left begins with an arm or a close. */
  lemma {:induction false} ReadItems(n: nat, lines: seq<Line>) returns (items: Items, rest: seq<Line>)
    requires Nests(n, lines)
    ensures WellFormed(items) && lines == Lines(items) + rest && Nests(n, rest) && |rest| <= |lines|
    ensures rest != [] ==> !rest[0].kind.IfLine? && !rest[0].kind.TextLine?
    decreases |lines|, 0
  {
    items, rest := Nil, lines;
    if lines != [] && lines[0].kind.TextLine? {
      items, rest := ReadItems(n, lines[1..]);
      items := Text(lines[0], items);
    } else if lines != [] && lines[0].kind.IfLine? {
      var body, armed := ReadItems(n + 1, lines[1..]);
      var arms, closed := ReadArms(n + 1, armed);
      var after;
      after, rest := ReadItems(n, closed[1..]);
      items := Group(lines[0], body, arms, closed[0], after);
      GroupText(lines, body, armed, arms, closed, after, rest);
    }
  }

  lemma Regroup(o: seq<Line>, b: seq<Line>, a: seq<Line>, c: seq<Line>, t: seq<Line>, rest: seq<Line>)
    ensures o + (b + (a + (c + (t + rest)))) == (o + b + a + c + t) + rest
  {
    assert o + (b + (a + (c + (t + rest)))) == (o + b) + (a + (c + (t + rest)));
    assert (o + b) + (a + (c + (t + rest))) == (o + b + a) + (c + (t + rest));
  }

  lemma GroupText(lines: seq<Line>, body: Items, armed: seq<Line>, arms: Arms, closed: seq<Line>, after: Items, rest: seq<Line>)
    requires lines != [] && closed != []
    requires lines[1..] == Lines(body) + armed && armed == ArmLines(arms) + closed && closed[1..] == Lines(after) + rest
    ensures lines == Lines(Group(lines[0], body, arms, closed[0], after)) + rest
  {
    assert lines == [lines[0]] + lines[1..] && closed == [closed[0]] + closed[1..];
    Regroup([lines[0]], Lines(body), ArmLines(arms), [closed[0]], Lines(after), rest);
  }

  /** Reads the arms of an open group up to its close. */
  lemma {:induction false} ReadArms(n: nat, lines: seq<Line>) returns (arms: Arms, rest: seq<Line>)
    requires n > 0 && Nests(n, lines)
    requires lines != [] ==> !lines[0].kind.IfLine? && !lines[0].kind.TextLine?
    ensures WellFormedArms(arms) && lines == ArmLines(arms) + rest && Nests(n, rest) && |rest| <= |lines|
    ensures rest != [] && rest[0].kind.EndifLine?
    decreases |lines|, 1
  {
    arms, rest := NoArms, lines;
    if !lines[0].kind.EndifLine? {
      var part, more := ReadItems(n, lines[1..]);
      arms, rest := ReadArms(n, more);
      arms := Arm(lines[0], part, arms);
      assert lines == [lines[0]] + (Lines(part) + (ArmLines(arms.more) + rest));
    }
  }

  /** The well-nested files are exactly the line lists that pass the count, so FilterMeaning covers all of them. */
  lemma NestsIff(lines: seq<Line>)
    ensures Nests(0, lines) <==> exists items :: WellFormed(items) && Lines(items) == lines
  {
    if Nests(0, lines) {
      var items, rest := ReadItems(0, lines);
      assert Lines(items) == lines;
    }
    if items :| WellFormed(items) && Lines(items) == lines {
      LinesNest(items, 0, []);
      assert lines + [] == lines;
    }
  }

  // ---------------------------------------------------------------- against the standard

  /** All text of a file, effective or not. */
  function Texts(items: Items): seq<string> {
    match items
    case Nil => []
    case Text(line, rest) => [line.text] + Texts(rest)
    case Group(_, body, arms, _, after) => Texts(body) + ArmTexts(arms) + Texts(after)
  }

  function ArmTexts(arms: Arms): seq<string> {
    if arms.NoArms? then [] else Texts(arms.part) + ArmTexts(arms.more)
  }

  /**
   At every group that is reached, `holds` and the filter take the same part, or parts of which
   neither has an effective line.
   */
  predicate SameParts(items: Items, holds: Line -> bool)
    decreases items, 1
  {
    match items
    case Nil => true
    case Text(_, rest) => SameParts(rest, holds)
    case Group(open, body, arms, _, after) =>
      SamePart(items, holds) && SameParts(after, holds)
  }

  predicate SamePart(group: Items, holds: Line -> bool)
    requires group.Group?
    decreases group, 0
  {
    var Group(open, body, arms, _, _) := group;
    if holds(open) != Reads(open)
    then EffectivePart(open, body, arms, holds) == [] && EffectivePart(open, body, arms, Reads) == []
    else if Reads(open) then SameParts(body, holds) else SameArms(arms, holds)
  }

  predicate SameArms(arms: Arms, holds: Line -> bool)
    decreases arms, 1
  {
    match arms
    case NoArms => true
    case Arm(head, part, more) =>
      if Takes(head, holds) != Takes(head, Reads)
      then EffectiveArm(arms, holds) == [] && EffectiveArm(arms, Reads) == []
      else if Takes(head, Reads) then SameParts(part, holds) else SameArms(more, holds)
  }

  lemma {:induction false} SameEffect(items: Items, holds: Line -> bool)
    requires SameParts(items, holds)
    ensures Effective(items, holds) == Effective(items, Reads)
  {
    match items
    case Nil =>
    case Text(_, rest) => SameEffect(rest, holds);
    case Group(open, body, arms, _, after) =>
      if holds(open) == Reads(open) {
        if Reads(open) { SameEffect(body, holds); } else { SameArmEffect(arms, holds); }
      }
      SameEffect(after, holds);
  }

  lemma {:induction false} SameArmEffect(arms: Arms, holds: Line -> bool)
    requires SameArms(arms, holds)
    ensures EffectiveArm(arms, holds) == EffectiveArm(arms, Reads)
  {
    if arms.Arm? && Takes(arms.head, holds) == Takes(arms.head, Reads) {
      if Takes(arms.head, Reads) { SameEffect(arms.part, holds); } else { SameArmEffect(arms.more, holds); }
    }
  }

  lemma {:induction false} EffectiveWithin(items: Items, holds: Line -> bool)
    ensures Elements(Effective(items, holds)) <= Elements(Texts(items))
    decreases items, 1
  {
    match items
    case Nil =>
    case Text(line, rest) =>
      EffectiveWithin(rest, holds);
      ElementsConcat([line.text], Effective(rest, holds));
      ElementsConcat([line.text], Texts(rest));
    case Group(open, body, arms, _, after) =>
      PartWithin(items, holds);
      EffectiveWithin(after, holds);
      ElementsConcat(EffectivePart(open, body, arms, holds), Effective(after, holds));
      ElementsConcat(Texts(body) + ArmTexts(arms), Texts(after));
  }

  lemma {:induction false} PartWithin(group: Items, holds: Line -> bool)
    requires group.Group?
    ensures Elements(EffectivePart(group.open, group.body, group.arms, holds)) <= Elements(Texts(group.body) + ArmTexts(group.arms))
    decreases group, 0
  {
    var Group(open, body, arms, _, _) := group;
    ElementsConcat(Texts(body), ArmTexts(arms));
    if holds(open) { EffectiveWithin(body, holds); } else { EffectiveArmWithin(arms, holds); }
  }

  lemma {:induction false} EffectiveArmWithin(arms: Arms, holds: Line -> bool)
    ensures Elements(EffectiveArm(arms, holds)) <= Elements(ArmTexts(arms))
    decreases arms, 1
  {
    if arms.Arm? {
      ElementsConcat(Texts(arms.part), ArmTexts(arms.more));
      if Takes(arms.head, holds) { EffectiveWithin(arms.part, holds); } else { EffectiveArmWithin(arms.more, holds); }
    }
  }

  lemma ElementsConcat(a: seq<string>, b: seq<string>)
    ensures Elements(a + b) == Elements(a) + Elements(b)
  {
  }

  lemma NotLonger(a: seq<string>, b: seq<string>, c: seq<string>, d: seq<string>, s: set<string>, t: set<string>)
    requires Elements(c) <= s && Elements(b) <= t && s !! t
    ensures a + b == c + d ==> |c| <= |a|
  {
    if |a| < |c| && b != [] {
      assert (a + b)[|a|] == b[0] && (c + d)[|a|] == c[|a|];
      assert b[0] in Elements(b) && c[|a|] in Elements(c);
    }
    assert |a| < |c| && b == [] ==> |a + b| < |c + d|;
  }

  /** Lists over two disjoint alphabets can be told apart inside a concatenation. */
  lemma CutSame(a: seq<string>, b: seq<string>, c: seq<string>, d: seq<string>, s: set<string>, t: set<string>)
    requires Elements(a) <= s && Elements(c) <= s && Elements(b) <= t && Elements(d) <= t && s !! t
    ensures a + b == c + d <==> a == c && b == d
  {
    NotLonger(a, b, c, d, s, t);
    NotLonger(c, d, a, b, s, t);
    if a + b == c + d {
      assert a == (a + b)[..|a|] && c == (c + d)[..|a|] && b == (a + b)[|a|..] && d == (c + d)[|a|..];
    }
  }

  lemma OnlyEmptyIsShared(a: seq<string>, b: seq<string>, s: set<string>, t: set<string>)
    requires Elements(a) <= s && Elements(b) <= t && s !! t
    ensures a == b <==> a == [] && b == []
  {
    if a != [] && b != [] { assert a[0] in Elements(a) && b[0] in Elements(b); }
  }

  /** If all text lines are different, the same lines are effective if and only if the readings take the same parts. */
  lemma {:induction false} SameEffectIff(items: Items, holds: Line -> bool)
    requires Distinct(Texts(items))
    ensures Effective(items, holds) == Effective(items, Reads) <==> SameParts(items, holds)
    decreases items, 1
  {
    match items
    case Nil =>
    case Text(line, rest) =>
      Grouping.DistinctConcat([line.text], Texts(rest));
      SameEffectIff(rest, holds);
      assert ([line.text] + Effective(rest, holds))[1..] == Effective(rest, holds);
      assert ([line.text] + Effective(rest, Reads))[1..] == Effective(rest, Reads);
    case Group(open, body, arms, _, after) =>
      Grouping.DistinctConcat(Texts(body) + ArmTexts(arms), Texts(after));
      PartIff(items, holds);
      SameEffectIff(after, holds);
      PartWithin(items, holds);
      PartWithin(items, Reads);
      EffectiveWithin(after, holds);
      EffectiveWithin(after, Reads);
      CutSame(EffectivePart(open, body, arms, holds), Effective(after, holds),
              EffectivePart(open, body, arms, Reads), Effective(after, Reads),
              Elements(Texts(body) + ArmTexts(arms)), Elements(Texts(after)));
  }

  lemma {:induction false} PartIff(group: Items, holds: Line -> bool)
    requires group.Group? && Distinct(Texts(group.body) + ArmTexts(group.arms))
    ensures var Group(open, body, arms, _, _) := group;
      EffectivePart(open, body, arms, holds) == EffectivePart(open, body, arms, Reads) <==> SamePart(group, holds)
    decreases group, 0
  {
    var Group(open, body, arms, _, _) := group;
    Grouping.DistinctConcat(Texts(body), ArmTexts(arms));
    if holds(open) == Reads(open) {
      if Reads(open) { SameEffectIff(body, holds); } else { SameArmEffectIff(arms, holds); }
    } else if holds(open) {
      EffectiveWithin(body, holds);
      EffectiveArmWithin(arms, Reads);
      OnlyEmptyIsShared(Effective(body, holds), EffectiveArm(arms, Reads), Elements(Texts(body)), Elements(ArmTexts(arms)));
    } else {
      EffectiveWithin(body, Reads);
      EffectiveArmWithin(arms, holds);
      OnlyEmptyIsShared(Effective(body, Reads), EffectiveArm(arms, holds), Elements(Texts(body)), Elements(ArmTexts(arms)));
    }
  }

  lemma {:induction false} SameArmEffectIff(arms: Arms, holds: Line -> bool)
    requires Distinct(ArmTexts(arms))
    ensures EffectiveArm(arms, holds) == EffectiveArm(arms, Reads) <==> SameArms(arms, holds)
    decreases arms, 1
  {
    if arms.Arm? {
      var head, part, more := arms.head, arms.part, arms.more;
      Grouping.DistinctConcat(Texts(part), ArmTexts(more));
      if Takes(head, holds) == Takes(head, Reads) {
        if Takes(head, Reads) { SameEffectIff(part, holds); } else { SameArmEffectIff(more, holds); }
      } else if Takes(head, holds) {
        EffectiveWithin(part, holds);
        EffectiveArmWithin(more, Reads);
        OnlyEmptyIsShared(Effective(part, holds), EffectiveArm(more, Reads), Elements(Texts(part)), Elements(ArmTexts(more)));
      } else {
        EffectiveWithin(part, Reads);
        EffectiveArmWithin(more, holds);
        OnlyEmptyIsShared(Effective(part, Reads), EffectiveArm(more, holds), Elements(Texts(part)), Elements(ArmTexts(more)));
      }
    }
  }

  /** `right` says so of every condition that is reached; skipped groups and later arms do not matter. */
  predicate Reached(items: Items, right: Line -> bool) {
    match items
    case Nil => true
    case Text(_, rest) => Reached(rest, right)
    case Group(open, body, arms, _, after) =>
      && right(open)
      && (if Reads(open) then Reached(body, right) else ReachedArms(arms, right))
      && Reached(after, right)
  }

  predicate ReachedArms(arms: Arms, right: Line -> bool) {
    match arms
    case NoArms => true
    case Arm(head, part, more) =>
      && (head.kind.ElseLine? || right(head))
      && if Takes(head, Reads) then Reached(part, right) else ReachedArms(more, right)
  }

  lemma {:induction false} RightTakesSameParts(items: Items, right: Line -> bool, holds: Line -> bool)
    requires Reached(items, right) && forall line :: right(line) ==> holds(line) == Reads(line)
    ensures SameParts(items, holds)
  {
    match items
    case Nil =>
    case Text(_, rest) => RightTakesSameParts(rest, right, holds);
    case Group(open, body, arms, _, after) =>
      if Reads(open) { RightTakesSameParts(body, right, holds); } else { RightTakesSameArms(arms, right, holds); }
      RightTakesSameParts(after, right, holds);
  }

  lemma {:induction false} RightTakesSameArms(arms: Arms, right: Line -> bool, holds: Line -> bool)
    requires ReachedArms(arms, right) && forall line :: right(line) ==> holds(line) == Reads(line)
    ensures SameArms(arms, holds)
  {
    if arms.Arm? {
      if Takes(arms.head, Reads) {
        RightTakesSameParts(arms.part, right, holds);
      } else {
        RightTakesSameArms(arms.more, right, holds);
      }
    }
  }

  /** The lines with the directives that the standard sees. */
  function StandardLines(v: Versions, contents: seq<string>): seq<Line> {
    seq(|contents|, i requires 0 <= i < |contents| => Classify(v, contents[i]).(kind := StandardKind(contents[i])))
  }

  /** The filter sees the same groups if and only if each line is clear as a directive or as none. */
  lemma SameGroupsIff(v: Versions, contents: seq<string>)
    ensures ClassifyAll(v, contents) == StandardLines(v, contents) <==> forall i :: 0 <= i < |contents| ==> KindRight(contents[i])
  {
    var a, b := ClassifyAll(v, contents), StandardLines(v, contents);
    forall i | 0 <= i < |contents| ensures a[i] == b[i] <==> KindRight(contents[i]) { KindRightIff(contents[i]); }
    if forall i :: 0 <= i < |contents| ==> KindRight(contents[i]) { assert forall i :: 0 <= i < |a| ==> a[i] == b[i]; }
  }

  /** What the conditions are worth by the standard; `other` says so of those outside the modelled grammar. */
  function Standard(defs: Macros, other: Line -> bool): Line -> bool {
    (line: Line) => var c := Condition(Strip(line.text)); if c.Some? then Holds(defs, c.value) else other(line)
  }

  /** A condition that the filter reads right, by its text. */
  predicate LineRight(v: Versions, defs: Macros, line: Line) {
    var s := Strip(line.text);
    && line == Classify(v, line.text) && (line.kind.IfLine? || line.kind.ElifLine?) && Condition(s).Some?
    && if line.kind.IfLine? then IfRight(v, defs, s, Condition(s).value) else ElifRight(v, defs, s, Condition(s).value)
  }

  function Right(v: Versions, defs: Macros): Line -> bool { (line: Line) => LineRight(v, defs, line) }

  /** A condition is read as the standard does if and only if its text is of that kind. */
  lemma LineRightIff(v: Versions, defs: Macros, other: Line -> bool, text: string)
    requires KindOf(text).IfLine? || KindOf(text).ElifLine?
    requires Condition(Strip(text)).Some?
    ensures var line := Classify(v, text); Standard(defs, other)(line) == Reads(line) <==> LineRight(v, defs, line)
  {
    var s := Strip(text);
    if "#if" <= s { IfRightIff(v, defs, s); }
  }

  /**
   On every well-nested file the filter keeps the standard's lines if each condition that is reached
   is read right, or at least the same parts are taken; for files whose text lines are all
   different the latter is exactly when it does so.
   */
  lemma FilterIsStandard(v: Versions, defs: Macros, other: Line -> bool, contents: seq<string>, items: Items)
    requires WellFormed(items) && Lines(items) == ClassifyAll(v, contents)
    ensures var holds := Standard(defs, other);
      var kept := Run(START, ClassifyAll(v, contents));
      var standard := Ok(START.(kept := Effective(items, holds)));
      && (Reached(items, Right(v, defs)) ==> SameParts(items, holds))
      && (SameParts(items, holds) ==> kept == standard)
      && (Distinct(Texts(items)) ==> (kept == standard <==> SameParts(items, holds)))
  {
    var holds := Standard(defs, other);
    FilterMeaning(items);
    if Reached(items, Right(v, defs)) {
      forall line | Right(v, defs)(line) ensures holds(line) == Reads(line) {
        LineRightIff(v, defs, other, line.text);
      }
      RightTakesSameParts(items, Right(v, defs), holds);
    }
    if SameParts(items, holds) { SameEffect(items, holds); }
    if Distinct(Texts(items)) { SameEffectIff(items, holds); }
  }

  /** A condition that compares the version with a version name and asks for nothing else. */
  ghost predicate IsVersionTest(v: Versions, defs: Macros, text: string) {
    exists op, name :: op != Ne && Operand(name) && Shared(v, defs, name) && Strip(text) == "#if " + Test("TORCH_VER", op, name)
  }

  lemma VersionTestRight(v: Versions, defs: Macros, text: string)
    requires Fits(v, defs) && IsVersionTest(v, defs, text)
    ensures LineRight(v, defs, Classify(v, text))
  {
    var op, name :| op != Ne && Operand(name) && Shared(v, defs, name) && Strip(text) == "#if " + Test("TORCH_VER", op, name);
    var l := "TORCH_VER";
    VersionWord(l);
    NameRight(v, defs, l, op, name);
    IfAhead(Test(l, op, name));
  }

  /** All conditions are right, as none stands in an #elif. */
  ghost predicate Plain(lines: seq<Line>, right: Line -> bool) {
    forall i :: 0 <= i < |lines| ==> !lines[i].kind.ElifLine? && (lines[i].kind.IfLine? ==> right(lines[i]))
  }

  lemma PlainParts(a: seq<Line>, b: seq<Line>, right: Line -> bool)
    requires Plain(a + b, right)
    ensures Plain(a, right) && Plain(b, right)
  {
    forall i | 0 <= i < |a| ensures !a[i].kind.ElifLine? && (a[i].kind.IfLine? ==> right(a[i])) { assert (a + b)[i] == a[i]; }
    forall i | 0 <= i < |b| ensures !b[i].kind.ElifLine? && (b[i].kind.IfLine? ==> right(b[i])) {
      assert (a + b)[|a| + i] == b[i];
    }
  }

  lemma {:induction false} PlainIsReached(items: Items, right: Line -> bool)
    requires WellFormed(items) && Plain(Lines(items), right)
    ensures Reached(items, right)
  {
    match items
    case Nil =>
    case Text(line, rest) =>
      PlainParts([line], Lines(rest), right);
      PlainIsReached(rest, right);
    case Group(open, body, arms, close, after) =>
      PlainParts([open] + Lines(body) + ArmLines(arms) + [close], Lines(after), right);
      PlainParts([open] + Lines(body) + ArmLines(arms), [close], right);
      PlainParts([open] + Lines(body), ArmLines(arms), right);
      PlainParts([open], Lines(body), right);
      assert [open][0] == open;
      PlainIsReached(body, right);
      PlainArmsReached(arms, right);
      PlainIsReached(after, right);
  }

  lemma {:induction false} PlainArmsReached(arms: Arms, right: Line -> bool)
    requires WellFormedArms(arms) && Plain(ArmLines(arms), right)
    ensures ReachedArms(arms, right)
  {
    if arms.Arm? {
      PlainParts([arms.head] + Lines(arms.part), ArmLines(arms.more), right);
      PlainParts([arms.head], Lines(arms.part), right);
      assert [arms.head][0] == arms.head;
      PlainIsReached(arms.part, right);
      PlainArmsReached(arms.more, right);
    }
  }

  /** So it does on every #if/#else/#endif file whose conditions are such tests. */
  lemma VersionFilesAreStandard(v: Versions, defs: Macros, other: Line -> bool, contents: seq<string>, items: Items)
    requires Fits(v, defs) && WellFormed(items) && Lines(items) == ClassifyAll(v, contents)
    requires forall text :: text in contents ==> !KindOf(text).ElifLine? && (KindOf(text).IfLine? ==> IsVersionTest(v, defs, text))
    ensures Run(START, ClassifyAll(v, contents)) == Ok(START.(kept := Effective(items, Standard(defs, other))))
  {
    var lines := Lines(items);
    forall i | 0 <= i < |lines|
      ensures !lines[i].kind.ElifLine? && (lines[i].kind.IfLine? ==> Right(v, defs)(lines[i]))
    {
      assert contents[i] in contents && lines[i] == Classify(v, contents[i]);
      if lines[i].kind.IfLine? { VersionTestRight(v, defs, contents[i]); }
    }
    PlainIsReached(items, Right(v, defs));
    FilterIsStandard(v, defs, other, contents, items);
  }

  // ---------------------------------------------------------------- arms

  /** The part of a group that the filter records, if any. */
  function Taken(open: Line, body: Items, arms: Arms): Option<Items> {
    if Reads(open) then Some(body) else TakenArm(arms)
  }

  function TakenArm(arms: Arms): Option<Items> {
    if arms.NoArms? then None
    else if arms.head.kind.ElseLine? || Reads(arms.head) then Some(arms.part) else TakenArm(arms.more)
  }

  predicate HasElse(arms: Arms) { arms.Arm? && (arms.head.kind.ElseLine? || HasElse(arms.more)) }

  lemma {:induction false} TakenArmMeaning(arms: Arms)
    ensures EffectiveArm(arms, Reads) == if TakenArm(arms).Some? then Effective(TakenArm(arms).value, Reads) else []
    ensures HasElse(arms) ==> TakenArm(arms).Some?
  {
    if arms.Arm? { TakenArmMeaning(arms.more); }
  }

  /**
   What an active group adds are the effective lines of one part and nothing else; one part
   is recorded for sure if the group has an #else. An inactive group adds nothing.
   */
  lemma OnePartRecorded(st: seq<Frame>, kept: seq<string>, group: Items)
    requires st != [] && group.Group? && WellFormed(group)
    ensures var Group(open, body, arms, close, _) := group;
      var taken := Taken(open, body, arms);
      && Run(Progress(st, kept), GroupLines(open, body, arms, close))
         == Ok(Progress(st, With(kept, st[|st|-1].record && taken.Some?, if taken.Some? then Effective(taken.value, Reads) else [])))
      && (HasElse(arms) ==> taken.Some?)
  {
    GroupRun(st, kept, group);
    TakenArmMeaning(group.arms);
    assert kept + [] == kept;
  }

  // ---------------------------------------------------------------- the reading of #elif

  /** A comparison behind `#if` at place `i` that speaks of TORCH_VER and is false. */
  ghost predicate FalseAt(v: Versions, s: string, i: nat)
    requires i <= |s| && MatchComparison(s[i..]).Some?
  {
    var c := MatchComparison(s[i..]).value;
    "#if" <= s[i..] && (c.left == "TORCH_VER" || c.right == "TORCH_VER") && !Evaluate(v, c)
  }

  /**
   The patterns ask for `#if`, so the condition of an #elif is never looked at. Such a line reads
   as false if and only if the first comparison behind an `#if` further on in it is false.
   */
  lemma ElifReadsFalseIff(v: Versions, text: string)
    requires KindOf(text) == ElifLine
    ensures var s := Strip(text);
      !Reads(Classify(v, text)) <==> exists i: nat :: i > 0 && FirstMatch(s, i) && FalseAt(v, s, i)
  {
    var s := Strip(text);
    FindIsFirstMatch(s);
    assert s[0..] == s && !("#if" <= s);
    if i: nat :| FirstMatch(s, i) { assert i > 0; }
  }

  /** Without an `#if` further on it always reads as true. */
  lemma ElifReadsTrue(v: Versions, text: string)
    requires KindOf(text) == ElifLine && !Occurs("#if", Strip(text))
    ensures Classify(v, text).check == None && Reads(Classify(v, text))
  {
    NoIfNoComparison(Strip(text));
  }

  lemma IfZeroLine(v: Versions, s: string)
    requires s == "#if 0"
    ensures Classify(v, s) == Line(s, IfLine, false, Some(false))
  {
    PlainStrip(s);
    assert s[3..] == " 0" && DropSpaces(" 0") == DropSpaces("0") == "0" by { assert " 0"[1..] == "0"; }
    assert TakeWord("0") == "0" by { assert "0"[1..] == "" && TakeWord("") == ""; }
    assert "0"[1..] == "" && DropSpaces("") == "" && TakeOp("") == None;
    assert MatchComparison(s) == None;
    NoHashNoIf(s[1..]);
    NoIfNoComparison(s[1..]);
    assert FindComparison(s) == None;
  }

  lemma ElifZeroLine(v: Versions, s: string)
    requires s == "#elif 0"
    ensures Classify(v, s) == Line(s, ElifLine, false, None)
  {
    PlainStrip(s);
    NoHashNoIf(s[1..]);
    NoIfNoComparison(s);
    assert s[1] == 'e' && "#if"[1] == 'i' && s[3] == 'i' && "#else"[3] == 's';
  }

  lemma OtherLines(v: Versions, s: string)
    ensures s == "x" ==> Classify(v, s).kind == TextLine
    ensures s == "#endif" ==> Classify(v, s).kind == EndifLine
  {
    if s == "x" || s == "#endif" { PlainStrip(s); }
    assert s == "#endif" ==> s[2] == 'n' && "#if"[2] == 'f' && "#else"[2] == 'l' && "#elif"[2] == 'l';
  }

  /** So a false #elif arm is kept where the standard drops it, here in a file of four lines. */
  lemma ElifExample(v: Versions, defs: Macros, other: Line -> bool) returns (file: Items)
    ensures var contents := ["#if 0", "#elif 0", "x", "#endif"];
      && WellFormed(file) && Lines(file) == ClassifyAll(v, contents)
      && Run(START, ClassifyAll(v, contents)) == Ok(START.(kept := ["x"]))
      && Effective(file, Standard(defs, other)) == []
  {
    var contents := ["#if 0", "#elif 0", "x", "#endif"];
    var lines := ClassifyAll(v, contents);
    IfZeroLine(v, contents[0]);
    ElifZeroLine(v, contents[1]);
    OtherLines(v, contents[2]);
    OtherLines(v, contents[3]);
    ZerosFail(defs, other, lines[0], lines[1]);
    file := ExampleFile(lines, Standard(defs, other));
  }

  lemma ZerosFail(defs: Macros, other: Line -> bool, a: Line, b: Line)
    requires a.text == "#if 0" && b.text == "#elif 0"
    ensures !Standard(defs, other)(a) && !Standard(defs, other)(b)
  {
    PlainStrip(a.text);
    PlainStrip(b.text);
    IfZeroCondition(a.text);
    ElifZeroCondition(b.text);
    OneDigit("0");
  }

  lemma ExampleFile(lines: seq<Line>, holds: Line -> bool) returns (file: Items)
    requires |lines| == 4 && lines[0].kind.IfLine? && lines[0].check == Some(false) && !lines[0].continued
    requires lines[1].kind.ElifLine? && lines[1].check == None && !lines[1].continued
    requires lines[2].kind.TextLine? && lines[3].kind.EndifLine?
    requires !holds(lines[0]) && !holds(lines[1])
    ensures WellFormed(file) && Lines(file) == lines
    ensures Run(START, lines) == Ok(START.(kept := [lines[2].text])) && Effective(file, holds) == []
  {
    var part := Text(lines[2], Nil);
    var arms := Arm(lines[1], part, NoArms);
    file := Group(lines[0], Nil, arms, lines[3], Nil);
    assert Lines(part) == [lines[2]] && ArmLines(arms) == [lines[1], lines[2]];
    FilterMeaning(file);
    assert Effective(part, Reads) == [lines[2].text];
    assert EffectiveArm(arms, holds) == EffectiveArm(NoArms, holds) == [];
  }

  // ---------------------------------------------------------------- failures

  function Opened(line: Line): int {
    if line.kind.IfLine? then 1 else if line.kind.EndifLine? then -1 else 0
  }

  function Balance(lines: seq<Line>): int {
    if lines == [] then 0 else Opened(lines[0]) + Balance(lines[1..])
  }

  predicate BadCondition(line: Line) { (line.kind.IfLine? || line.kind.ElifLine?) && line.continued }

  ghost predicate Sound(n: nat, lines: seq<Line>) {
    && (forall k :: 0 <= k < |lines| ==> !BadCondition(lines[k]))
    && (forall k :: 0 <= k <= |lines| ==> n + Balance(lines[..k]) >= 0)
  }

  lemma SoundTail(n: nat, lines: seq<Line>)
    requires lines != []
    ensures Sound(n, lines) <==>
      !BadCondition(lines[0]) && n + Opened(lines[0]) >= 0 && Sound(n + Opened(lines[0]), lines[1..])
  {
    var tail, b := lines[1..], Opened(lines[0]);
    forall k | 0 <= k <= |tail| ensures Balance(lines[..k+1]) == b + Balance(tail[..k]) {
      assert lines[..k+1][1..] == tail[..k];
    }
    assert forall k :: 0 < k < |lines| ==> lines[k] == tail[k-1];
    if Sound(n, lines) {
      forall k | 0 <= k <= |tail| ensures n + b + Balance(tail[..k]) >= 0 {
        assert n + Balance(lines[..k+1]) >= 0;
      }
      assert tail[..0] == [];
    } else if !BadCondition(lines[0]) && n + b >= 0 && Sound(n + b, tail) {
      forall k | 0 <= k <= |lines| ensures n + Balance(lines[..k]) >= 0 {
        if k > 0 { assert n + b + Balance(tail[..k-1]) >= 0; }
      }
    }
  }

  /** The filter fails exactly if a condition is continued or some prefix closes a group it never opened. */
  lemma {:induction false} RunSucceedsIff(p: Progress, lines: seq<Line>)
    requires p.stack != []
    ensures Run(p, lines).Ok? <==> Sound(|p.stack| - 1, lines)
    decreases |lines|
  {
    if lines == [] {
      assert lines[..0] == [];
    } else {
      SoundTail(|p.stack| - 1, lines);
      if Step(p, lines[0]).Ok? { RunSucceedsIff(Step(p, lines[0]).value, lines[1..]); }
    }
  }

  /** How many groups the first `k` lines open less those they close, by the beginnings of the lines. */
  function OpenAfter(contents: seq<string>, k: nat): int
    requires k <= |contents|
  {
    if k == 0 then 0 else
      OpenAfter(contents, k - 1)
      + (if KindOf(contents[k-1]) == IfLine then 1 else if KindOf(contents[k-1]) == EndifLine then -1 else 0)
  }

  lemma {:induction false} BalanceLast(lines: seq<Line>, last: Line)
    ensures Balance(lines + [last]) == Balance(lines) + Opened(last)
  {
    if lines == [] {
      assert [last][1..] == [] && [] + [last] == [last];
    } else {
      assert (lines + [last])[1..] == lines[1..] + [last];
      BalanceLast(lines[1..], last);
    }
  }

  lemma {:induction false} OpenIsBalance(v: Versions, contents: seq<string>, k: nat)
    requires k <= |contents|
    ensures OpenAfter(contents, k) == Balance(ClassifyAll(v, contents)[..k])
  {
    if k > 0 {
      var lines := ClassifyAll(v, contents);
      OpenIsBalance(v, contents, k - 1);
      assert lines[..k] == lines[..k-1] + [lines[k-1]];
      BalanceLast(lines[..k-1], lines[k-1]);
    } else {
      assert ClassifyAll(v, contents)[..0] == [];
    }
  }

  ghost predicate EndsInBackslash(line: string) {
    exists i :: 0 <= i < |line| && line[i] == '\\' && forall j :: i < j < |line| ==> IsSpace(line[j])
  }

  lemma BadLine(v: Versions, text: string)
    ensures BadCondition(Classify(v, text)) <==> (KindOf(text) == IfLine || KindOf(text) == ElifLine) && EndsInBackslash(text)
  {
    ContinuedIff(text);
  }

  /** No #if or #elif line ends in a backslash, blanks aside. */
  ghost predicate NoneContinued(contents: seq<string>) {
    forall k :: 0 <= k < |contents| && (KindOf(contents[k]) == IfLine || KindOf(contents[k]) == ElifLine) ==> !EndsInBackslash(contents[k])
  }

  lemma NoBadLineIff(v: Versions, contents: seq<string>)
    ensures NoneContinued(contents)
       <==> forall k :: 0 <= k < |ClassifyAll(v, contents)| ==> !BadCondition(ClassifyAll(v, contents)[k])
  {
    var lines := ClassifyAll(v, contents);
    forall k | 0 <= k < |contents|
      ensures BadCondition(lines[k]) <==>
        (KindOf(contents[k]) == IfLine || KindOf(contents[k]) == ElifLine) && EndsInBackslash(contents[k])
    {
      BadLine(v, contents[k]);
    }
  }

  lemma BalancedIff(v: Versions, contents: seq<string>)
    ensures (forall k: nat {:trigger OpenAfter(contents, k)} :: k <= |contents| ==> OpenAfter(contents, k) >= 0)
       <==> forall k :: 0 <= k <= |ClassifyAll(v, contents)| ==> 0 + Balance(ClassifyAll(v, contents)[..k]) >= 0
  {
    var lines := ClassifyAll(v, contents);
    forall k: nat | k <= |contents| ensures OpenAfter(contents, k) == Balance(lines[..k]) { OpenIsBalance(v, contents, k); }
    if k :| 0 <= k <= |lines| && 0 + Balance(lines[..k]) < 0 {
      var n: nat := k;
      assert OpenAfter(contents, n) < 0;
    }
  }

  /**
   On the text: the filter succeeds if and only if no condition is continued and no line closes a
   group that none before it opened.
   */
  lemma FilterSucceedsIff(v: Versions, contents: seq<string>)
    ensures Run(START, ClassifyAll(v, contents)).Ok?
       <==> NoneContinued(contents) && forall k: nat {:trigger OpenAfter(contents, k)} :: k <= |contents| ==> OpenAfter(contents, k) >= 0
  {
    RunSucceedsIff(START, ClassifyAll(v, contents));
    NoBadLineIff(v, contents);
    BalancedIff(v, contents);
  }
}
