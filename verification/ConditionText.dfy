/**
 How the preprocessor filter looks at one line: the directive it takes it for and what its
 patterns find of the condition. Text is ASCII.
 */
module ConditionText {
  import opened Wrappers
  import opened Strings

  // ---------------------------------------------------------------- words and blanks

  predicate IsSpace(c: char) { c in " \t\n\r" || c as int == 11 || c as int == 12 }

  predicate IsWord(c: char) { 'a' <= c <= 'z' || 'A' <= c <= 'Z' || '0' <= c <= '9' || c == '_' }

  function DropSpaces(s: string): string {
    if s != [] && IsSpace(s[0]) then DropSpaces(s[1..]) else s
  }

  function DropTrailingSpaces(s: string): string {
    if s != [] && IsSpace(s[|s|-1]) then DropTrailingSpaces(s[..|s|-1]) else s
  }

  function Strip(s: string): string { DropTrailingSpaces(DropSpaces(s)) }

  function TakeWord(s: string): (w: string)
    ensures w <= s
  {
    if s != [] && IsWord(s[0]) then [s[0]] + TakeWord(s[1..]) else []
  }

  // ---------------------------------------------------------------- comparisons

  datatype Op = Lt | Le | Eq | Ne | Ge | Gt

  function Sign(op: Op): string {
    match op
    case Lt => "<"
    case Le => "<="
    case Eq => "=="
    case Ne => "!="
    case Ge => ">="
    case Gt => ">"
  }

  predicate Compares(op: Op, a: int, b: int) {
    match op
    case Lt => a < b
    case Le => a <= b
    case Eq => a == b
    case Ne => a != b
    case Ge => a >= b
    case Gt => a > b
  }

  datatype Comparison = Comparison(left: string, op: Op, right: string)

  function TakeOp(s: string): (op: Option<Op>)
    ensures op.Some? ==> Sign(op.value) <= s
  {
    if "<=" <= s then Some(Le) else if "<" <= s then Some(Lt) else if "==" <= s then Some(Eq)
    else if ">=" <= s then Some(Ge) else if ">" <= s then Some(Gt) else None
  }

  /** `#if\s+(\w+)\s*(<=|<|==|>=|>)\s*(\w*)` at the start of `s`. */
  function MatchComparison(s: string): Option<Comparison> {
    if !("#if" <= s) || DropSpaces(s[3..]) == s[3..] then None else
      var a := DropSpaces(s[3..]);
      var left := TakeWord(a);
      if left == [] then None else
        var b := DropSpaces(a[|left|..]);
        match TakeOp(b)
        case None => None
        case Some(op) => Some(Comparison(left, op, TakeWord(DropSpaces(b[|Sign(op)|..]))))
  }

  /** condition_re.search: the leftmost match. */
  function FindComparison(s: string): Option<Comparison> {
    if MatchComparison(s).Some? || s == [] then MatchComparison(s) else FindComparison(s[1..])
  }

  /** force_condition_re: `^#if\s+(0|1|true|false)$`. */
  function MatchForce(s: string): Option<bool> {
    if !("#if" <= s) || DropSpaces(s[3..]) == s[3..] then None else
      var a := DropSpaces(s[3..]);
      if a == "1" || a == "true" then Some(true) else if a == "0" || a == "false" then Some(false) else None
  }

  /** TorchVersions: the number of a version name, 0 if unknown. */
  datatype Versions = Versions(current: int, known: map<string, int>) {
    function Get(name: string): int {
      if name == "TORCH_VER" then current else if name in known then known[name] else 0
    }
  }

  /** CtrlState._evaluate. */
  function Evaluate(v: Versions, c: Comparison): bool {
    c.op != Ne && Compares(c.op, v.Get(c.left), v.Get(c.right))
  }

  predicate Speaks(c: Comparison) { c.left == "TORCH_VER" || c.right == "TORCH_VER" }

  /** CtrlState.check_condition: the new value of `record`, or None to leave it alone. */
  function Check(v: Versions, line: string): Option<bool> {
    match FindComparison(line)
    case Some(c) => if Speaks(c) then Some(Evaluate(v, c)) else None
    case None => MatchForce(line)
  }

  // ---------------------------------------------------------------- directives

  datatype Kind = IfLine | ElseLine | ElifLine | EndifLine | TextLine

  function KindOf(line: string): Kind {
    var s := Strip(line);
    if "#if" <= s then IfLine else if "#else" <= s then ElseLine
    else if "#elif" <= s then ElifLine else if "#endif" <= s then EndifLine else TextLine
  }

  predicate Continued(line: string) { var s := Strip(line); s != [] && s[|s|-1] == '\\' }

  // ---------------------------------------------------------------- blanks, words and continued lines

  /** Tab, the four line breaks and the space; letters, digits and the underscore. */
  lemma CharClasses(c: char)
    ensures IsSpace(c) <==> 9 <= c as int <= 13 || c as int == 32
    ensures IsWord(c) <==> 48 <= c as int <= 57 || 65 <= c as int <= 90 || c as int == 95 || 97 <= c as int <= 122
  {
  }

  /** Stripping takes the blanks at both ends and no other character. */
  lemma {:induction false} DropSpacesMeaning(s: string) returns (n: nat)
    ensures n <= |s| && DropSpaces(s) == s[n..] && (forall i :: 0 <= i < n ==> IsSpace(s[i])) && (n < |s| ==> !IsSpace(s[n]))
  {
    n := 0;
    if s != [] && IsSpace(s[0]) {
      var m := DropSpacesMeaning(s[1..]);
      n := m + 1;
      assert s[1..][m..] == s[n..];
    }
  }

  lemma {:induction false} DropTrailingMeaning(s: string) returns (n: nat)
    ensures n <= |s| && DropTrailingSpaces(s) == s[..n] && (forall i :: n <= i < |s| ==> IsSpace(s[i])) && (n > 0 ==> !IsSpace(s[n-1]))
  {
    n := |s|;
    if s != [] && IsSpace(s[|s|-1]) {
      n := DropTrailingMeaning(s[..|s|-1]);
      assert s[..|s|-1][..n] == s[..n];
    }
  }

  lemma StripMeaning(s: string) returns (from: nat, to: nat)
    ensures from <= to <= |s| && Strip(s) == s[from..to]
    ensures forall i :: 0 <= i < from || to <= i < |s| ==> IsSpace(s[i])
    ensures from < to ==> !IsSpace(s[from]) && !IsSpace(s[to-1])
  {
    from := DropSpacesMeaning(s);
    var n := DropTrailingMeaning(s[from..]);
    to := from + n;
    assert s[from..][..n] == s[from..to];
    assert forall i :: from <= i < |s| ==> s[i] == s[from..][i-from];
  }

  /** A line is continued if and only if its last character that is no blank is a backslash. */
  lemma ContinuedIff(line: string)
    ensures Continued(line) <==>
      exists i :: 0 <= i < |line| && line[i] == '\\' && forall j :: i < j < |line| ==> IsSpace(line[j])
  {
    var from, to := StripMeaning(line);
    if from < to { assert Strip(line)[to-from-1] == line[to-1]; }
  }

  // ---------------------------------------------------------------- where a comparison is found

  lemma {:induction false} NoIfNoComparison(s: string)
    requires !Occurs("#if", s)
    ensures FindComparison(s) == None
  {
    if s != [] { NoIfNoComparison(s[1..]); }
  }

  /** The first place of `s` where the comparison pattern matches. */
  ghost predicate FirstMatch(s: string, i: nat) {
    i <= |s| && MatchComparison(s[i..]).Some? && forall j: nat :: j < i ==> MatchComparison(s[j..]).None?
  }

  lemma {:induction false} FindIsFirstMatch(s: string)
    ensures FindComparison(s).Some? ==> exists i: nat :: FirstMatch(s, i) && FindComparison(s) == MatchComparison(s[i..])
    ensures forall i: nat :: FirstMatch(s, i) ==> FindComparison(s) == MatchComparison(s[i..])
  {
    assert s[0..] == s;
    if MatchComparison(s).Some? {
      assert FirstMatch(s, 0);
    } else if s != [] {
      FindIsFirstMatch(s[1..]);
      assert forall j: nat :: 0 < j <= |s| ==> s[j..] == s[1..][j-1..];
      forall i: nat ensures FirstMatch(s, i) <==> i > 0 && FirstMatch(s[1..], i - 1) {
        if i > 0 && FirstMatch(s[1..], i - 1) {
          forall j: nat | j < i ensures MatchComparison(s[j..]).None? {
            if j > 0 { assert MatchComparison(s[1..][j-1..]).None?; }
          }
        }
        if FirstMatch(s, i) && i > 0 {
          forall j: nat | j < i - 1 ensures MatchComparison(s[1..][j..]).None? {
            assert s[1..][j..] == s[j+1..];
          }
        }
      }
      if FindComparison(s).Some? {
        var i: nat :| FirstMatch(s[1..], i) && FindComparison(s[1..]) == MatchComparison(s[1..][i..]);
        assert FirstMatch(s, i + 1) && s[i+1..] == s[1..][i..];
      }
    }
  }

  lemma PlainStrip(s: string)
    requires s != [] && !IsSpace(s[0]) && !IsSpace(s[|s|-1])
    ensures Strip(s) == s
  {
  }

  /** Text without a `#` holds no directive. */
  lemma {:induction false} NoHashNoIf(s: string)
    requires forall i :: 0 <= i < |s| ==> s[i] != '#'
    ensures !Occurs("#if", s)
  {
    assert "#if"[0] == '#';
    if s != [] { NoHashNoIf(s[1..]); }
  }
}
