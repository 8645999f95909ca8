/**
 What the condition of a directive line is worth in itself, by section 19.1 of ISO C++17, and
 which conditions the preprocessor filter reads as the standard does.
 */
module Conditions {
  import opened Wrappers
  import opened ConditionText

  // ---------------------------------------------------------------- tokens

  datatype Token = Word(text: string) | Cmp(op: Op) | AndAnd | OrOr | Bang | OpenParen | CloseParen | Other

  /** A token of two signs. */
  function Pair(a: char, b: char): Option<Token> {
    if b == '=' then
      if a == '<' then Some(Cmp(Le)) else if a == '>' then Some(Cmp(Ge))
      else if a == '=' then Some(Cmp(Eq)) else if a == '!' then Some(Cmp(Ne)) else None
    else if a == b then
      if a == '&' then Some(AndAnd) else if a == '|' then Some(OrOr)
      else if a == '<' || a == '>' then Some(Other) else None
    else None
  }

  function Single(a: char): Token {
    if a == '<' then Cmp(Lt) else if a == '>' then Cmp(Gt) else if a == '!' then Bang
    else if a == '(' then OpenParen else if a == ')' then CloseParen else Other
  }

  predicate Begins(s: string, a: char, b: char) { |s| >= 2 && s[0] == a && s[1] == b }

  /** What follows the end of a comment, if it ends on this line. */
  function BehindComment(s: string): (r: Option<string>)
    ensures r.Some? ==> |r.value| < |s|
  {
    if s == [] then None else if Begins(s, '*', '/') then Some(s[2..]) else BehindComment(s[1..])
  }

  /** The tokens of a line, the longest first; comments are blanks. */
  function Lex(s: string): seq<Token>
    decreases |s|
  {
    if s == [] then []
    else if IsSpace(s[0]) then Lex(s[1..])
    else if IsWord(s[0]) then [Word(TakeWord(s))] + Lex(s[|TakeWord(s)|..])
    else if Begins(s, '/', '/') then []
    else if Begins(s, '/', '*') then
      match BehindComment(s[2..])
      case None => [Other]
      case Some(rest) => Lex(rest)
    else if |s| >= 2 && Pair(s[0], s[1]).Some? then [Pair(s[0], s[1]).value] + Lex(s[2..])
    else [Single(s[0])] + Lex(s[1..])
  }

  // ---------------------------------------------------------------- integer literals

  function DigitValue(c: char): nat {
    if '0' <= c <= '9' then c as nat - '0' as nat
    else if 'a' <= c <= 'z' then c as nat - 'a' as nat + 10
    else if 'A' <= c <= 'Z' then c as nat - 'A' as nat + 10
    else 99
  }

  /** The leading digits of a base. */
  function Digits(s: string, base: nat): (d: string)
    ensures d <= s
  {
    if s != [] && DigitValue(s[0]) < base then [s[0]] + Digits(s[1..], base) else []
  }

  function NumberOf(digits: string, base: nat): nat {
    if digits == [] then 0 else NumberOf(digits[..|digits|-1], base) * base + DigitValue(digits[|digits|-1])
  }

  predicate IsLong(s: string) { s == "" || s == "l" || s == "L" || s == "ll" || s == "LL" }

  predicate IsUnsigned(c: char) { c == 'u' || c == 'U' }

  predicate IsSuffix(s: string) {
    IsLong(s) || (s != [] && ((IsUnsigned(s[0]) && IsLong(s[1..])) || (IsUnsigned(s[|s|-1]) && IsLong(s[..|s|-1]))))
  }

  function WithBase(s: string, base: nat): Option<nat> {
    var d := Digits(s, base);
    if d == [] || !IsSuffix(s[|d|..]) then None else Some(NumberOf(d, base))
  }

  /** An integer literal: binary, octal, decimal or hexadecimal, with or without a suffix. */
  function Number(w: string): Option<nat> {
    if |w| > 2 && w[0] == '0' && (w[1] == 'x' || w[1] == 'X') then WithBase(w[2..], 16)
    else if |w| > 2 && w[0] == '0' && (w[1] == 'b' || w[1] == 'B') then WithBase(w[2..], 2)
    else if w != [] && w[0] == '0' then WithBase(w, 8)
    else WithBase(w, 10)
  }

  predicate IsLiteral(w: string) { w != [] && '0' <= w[0] <= '9' }

  // ---------------------------------------------------------------- conditions

  datatype Cond =
    | Name(word: string)
    | Defined(word: string)
    | Not(arg: Cond)
    | Compare(left: Cond, op: Op, right: Cond)
    | And(left: Cond, right: Cond)
    | Or(left: Cond, right: Cond)

  datatype Parsed = Parsed(cond: Cond, rest: seq<Token>)

  function ParseOr(ts: seq<Token>): (r: Option<Parsed>)
    ensures r.Some? ==> |r.value.rest| < |ts|
    decreases |ts|, 3
  {
    match ParseAnd(ts)
    case None => None
    case Some(Parsed(a, rest)) =>
      if rest == [] || rest[0] != OrOr then Some(Parsed(a, rest)) else
        match ParseOr(rest[1..])
        case None => None
        case Some(p) => Some(Parsed(Or(a, p.cond), p.rest))
  }

  function ParseAnd(ts: seq<Token>): (r: Option<Parsed>)
    ensures r.Some? ==> |r.value.rest| < |ts|
    decreases |ts|, 2
  {
    match ParseCompare(ts)
    case None => None
    case Some(Parsed(a, rest)) =>
      if rest == [] || rest[0] != AndAnd then Some(Parsed(a, rest)) else
        match ParseAnd(rest[1..])
        case None => None
        case Some(p) => Some(Parsed(And(a, p.cond), p.rest))
  }

  function ParseCompare(ts: seq<Token>): (r: Option<Parsed>)
    ensures r.Some? ==> |r.value.rest| < |ts|
    decreases |ts|, 1
  {
    match ParseUnary(ts)
    case None => None
    case Some(Parsed(a, rest)) =>
      if rest == [] || !rest[0].Cmp? then Some(Parsed(a, rest)) else
        match ParseUnary(rest[1..])
        case None => None
        case Some(p) => Some(Parsed(Compare(a, rest[0].op, p.cond), p.rest))
  }

  function ParseUnary(ts: seq<Token>): (r: Option<Parsed>)
    ensures r.Some? ==> |r.value.rest| < |ts|
    decreases |ts|, 0
  {
    if ts == [] then None else
      match ts[0]
      case Bang =>
        (match ParseUnary(ts[1..])
         case None => None
         case Some(p) => Some(Parsed(Not(p.cond), p.rest)))
      case OpenParen =>
        (match ParseOr(ts[1..])
         case None => None
         case Some(p) => if p.rest != [] && p.rest[0] == CloseParen then Some(Parsed(p.cond, p.rest[1..])) else None)
      case Word(w) =>
        if w == "defined" then ParseDefined(ts[1..])
        else if IsLiteral(w) && Number(w).None? then None
        else Some(Parsed(Name(w), ts[1..]))
      case _ => None
  }

  /** `X` or `(X)` behind `defined`. */
  function ParseDefined(ts: seq<Token>): (r: Option<Parsed>)
    ensures r.Some? ==> |r.value.rest| < |ts|
  {
    if ts != [] && ts[0].Word? then Some(Parsed(Defined(ts[0].text), ts[1..]))
    else if |ts| >= 3 && ts[0] == OpenParen && ts[1].Word? && ts[2] == CloseParen then Some(Parsed(Defined(ts[1].text), ts[3..]))
    else None
  }

  /** The values of the macros; a macro without a value has any. */
  type Macros = map<string, int>

  /** An identifier that is no macro counts as 0, but `true` as 1. */
  function WordValue(defs: Macros, w: string): int {
    if IsLiteral(w) then (if Number(w).Some? then Number(w).value else 0)
    else if w == "true" then 1 else if w == "false" then 0
    else if w in defs then defs[w] else 0
  }

  function Truth(b: bool): int { if b then 1 else 0 }

  function Value(defs: Macros, e: Cond): int {
    match e
    case Name(w) => WordValue(defs, w)
    case Defined(w) => Truth(w in defs)
    case Not(a) => Truth(Value(defs, a) == 0)
    case Compare(a, op, b) => Truth(Compares(op, Value(defs, a), Value(defs, b)))
    case And(a, b) => Truth(Value(defs, a) != 0 && Value(defs, b) != 0)
    case Or(a, b) => Truth(Value(defs, a) != 0 || Value(defs, b) != 0)
  }

  predicate Holds(defs: Macros, e: Cond) { Value(defs, e) != 0 }

  /**
   The condition of an #if, #ifdef, #ifndef or #elif line without blanks around it. None is a
   line with arithmetic, chained comparisons or calls in it, or an ill-formed one.
   */
  function Condition(s: string): Option<Cond> {
    if s == [] || s[0] != '#' then None else
      var ts := Lex(s[1..]);
      if ts == [] || !ts[0].Word? then None
      else if ts[0].text == "if" || ts[0].text == "elif" then
        (match ParseOr(ts[1..])
         case None => None
         case Some(p) => if p.rest == [] then Some(p.cond) else None)
      else if |ts| != 2 || !ts[1].Word? || IsLiteral(ts[1].text) then None
      else if ts[0].text == "ifdef" then Some(Defined(ts[1].text))
      else if ts[0].text == "ifndef" then Some(Not(Defined(ts[1].text)))
      else None
  }

  // ---------------------------------------------------------------- directives

  function DirectiveKind(w: string): Kind {
    if w == "if" || w == "ifdef" || w == "ifndef" then IfLine
    else if w == "else" then ElseLine else if w == "elif" then ElifLine else if w == "endif" then EndifLine
    else TextLine
  }

  /** The word of a directive; blanks may stand before and behind the `#`. */
  function StandardKind(line: string): Kind {
    var s := Strip(line);
    if s == [] || s[0] != '#' || Lex(s[1..]) == [] || !Lex(s[1..])[0].Word? then TextLine
    else DirectiveKind(Lex(s[1..])[0].text)
  }

  predicate BeginsLikeDirective(w: string) { "if" <= w || "else" <= w || "elif" <= w || "endif" <= w }

  /** The directive's word follows the `#` at once, and a word that begins like one is one. */
  predicate KindRight(line: string) {
    var s := Strip(line);
    s != [] && s[0] == '#' ==>
      var w := TakeWord(s[1..]);
      if w == [] then StandardKind(line) == TextLine else BeginsLikeDirective(w) ==> DirectiveKind(w) != TextLine
  }

  lemma {:induction false} PrefixOfWord(p: string, t: string)
    requires forall i :: 0 <= i < |p| ==> IsWord(p[i])
    ensures p <= t <==> p <= TakeWord(t)
  {
    if p != [] && t != [] && p[0] == t[0] {
      PrefixOfWord(p[1..], t[1..]);
      assert TakeWord(t)[1..] == TakeWord(t[1..]);
      assert p <= t <==> p[1..] <= t[1..];
      assert p <= TakeWord(t) <==> p[1..] <= TakeWord(t[1..]);
    }
  }

  lemma HashPrefix(p: string, hashed: string, s: string)
    requires hashed == "#" + p && s != [] && s[0] == '#' && forall i :: 0 <= i < |p| ==> IsWord(p[i])
    ensures hashed <= s <==> p <= TakeWord(s[1..])
  {
    PrefixOfWord(p, s[1..]);
    assert hashed <= s <==> p <= s[1..];
  }

  lemma KindOfWord(s: string, line: string)
    requires s == Strip(line) && s != [] && s[0] == '#'
    ensures var w := TakeWord(s[1..]);
      KindOf(line) == if "if" <= w then IfLine else if "else" <= w then ElseLine
                      else if "elif" <= w then ElifLine else if "endif" <= w then EndifLine else TextLine
  {
    HashPrefix("if", "#if", s);
    HashPrefix("else", "#else", s);
    HashPrefix("elif", "#elif", s);
    HashPrefix("endif", "#endif", s);
  }

  lemma DirectiveBegins(w: string)
    ensures DirectiveKind(w) == IfLine ==> "if" <= w
    ensures DirectiveKind(w) == ElseLine ==> "else" <= w && w[1] == 'l' && w[2] == 's'
    ensures DirectiveKind(w) == ElifLine ==> "elif" <= w && w[1] == 'l' && w[2] == 'i'
    ensures DirectiveKind(w) == EndifLine ==> "endif" <= w && w[1] == 'n'
  {
  }

  /** The filter takes a line for the right directive if and only if KindRight says so. */
  lemma KindRightIff(line: string)
    ensures KindOf(line) == StandardKind(line) <==> KindRight(line)
  {
    var s := Strip(line);
    if s == [] || s[0] != '#' {
      assert "#if"[0] == '#' && "#else"[0] == '#' && "#elif"[0] == '#' && "#endif"[0] == '#';
    } else {
      var w := TakeWord(s[1..]);
      KindOfWord(s, line);
      if w != [] {
        LexWord(s[1..]);
        DirectiveBegins(w);
      }
    }
  }

  // ---------------------------------------------------------------- the parts of a condition

  /** The first comparison, what `&&` joins to it and what `||` offers instead. */
  function First(e: Cond): Cond { var d := if e.Or? then e.left else e; if d.And? then d.left else d }

  predicate Joined(defs: Macros, e: Cond) {
    var d := if e.Or? then e.left else e;
    d.And? ==> Holds(defs, d.right)
  }

  predicate Otherwise(defs: Macros, e: Cond) { e.Or? && Holds(defs, e.right) }

  lemma PartsMeaning(defs: Macros, e: Cond)
    ensures Holds(defs, e) <==> (Holds(defs, First(e)) && Joined(defs, e)) || Otherwise(defs, e)
  {
    if e.Or? { assert Holds(defs, e) <==> Holds(defs, e.left) || Holds(defs, e.right); }
    var d := if e.Or? then e.left else e;
    if d.And? { assert Holds(defs, d) <==> Holds(defs, d.left) && Holds(defs, d.right); }
  }

  // ---------------------------------------------------------------- tokens and patterns

  lemma {:induction false} LexSpaces(s: string)
    ensures Lex(s) == Lex(DropSpaces(s))
  {
    if s != [] && IsSpace(s[0]) { LexSpaces(s[1..]); }
  }

  lemma LexWord(s: string)
    requires TakeWord(s) != []
    ensures Lex(s) == [Word(TakeWord(s))] + Lex(s[|TakeWord(s)|..])
  {
    assert IsWord(s[0]) && !IsSpace(s[0]);
  }

  /** Where the pattern sees an operator there is the same token, or one outside the grammar. */
  lemma LexOp(s: string, op: Op)
    requires TakeOp(s) == Some(op)
    ensures Lex(s) != [] && (Lex(s)[0] == Other || (Lex(s)[0] == Cmp(op) && Lex(s)[1..] == Lex(s[|Sign(op)|..])))
  {
    assert s != [] && !IsSpace(s[0]) && !IsWord(s[0]) && s[0] != '/';
    assert |Sign(op)| == 2 ==> |s| >= 2 && s[1] == '=';
  }

  lemma LexIf(s: string)
    requires "#if" <= s && (|s| > 3 ==> !IsWord(s[3]))
    ensures Lex(s[1..]) == [Word("if")] + Lex(s[3..])
  {
    var t := s[1..];
    assert t[0] == 'i' && t[1] == 'f' && t[2..] == s[3..] && t[1..][1..] == t[2..];
    assert TakeWord(t[2..]) == [];
    assert TakeWord(t[1..]) == ['f'];
    assert TakeWord(t) == ['i'] + ['f'] == "if";
    LexWord(t);
  }

  lemma SpaceBehind(s: string)
    requires DropSpaces(s) != s
    ensures s != [] && IsSpace(s[0]) && !IsWord(s[0])
  {
  }

  /** The text behind the word that follows `#if`. */
  function BehindWord(s: string): string
    requires |s| >= 3
  {
    var a := DropSpaces(s[3..]);
    DropSpaces(a[|TakeWord(a)|..])
  }

  lemma IfTokens(s: string)
    requires "#if" <= s && DropSpaces(s[3..]) != s[3..] && TakeWord(DropSpaces(s[3..])) != []
    ensures Lex(s[1..]) == [Word("if"), Word(TakeWord(DropSpaces(s[3..])))] + Lex(BehindWord(s))
  {
    var rest := s[3..];
    SpaceBehind(rest);
    LexIf(s);
    WordTokens(rest);
    TwoTokens(Word("if"), Word(TakeWord(DropSpaces(rest))), Lex(BehindWord(s)));
  }

  lemma WordTokens(rest: string)
    requires TakeWord(DropSpaces(rest)) != []
    ensures var a := DropSpaces(rest); Lex(rest) == [Word(TakeWord(a))] + Lex(DropSpaces(a[|TakeWord(a)|..]))
  {
    var a := DropSpaces(rest);
    LexSpaces(rest);
    LexWord(a);
    LexSpaces(a[|TakeWord(a)|..]);
  }

  /** The tokens of a comparison that stands first. */
  lemma ComparisonTokens(s: string, c: Comparison) returns (tail: string)
    requires MatchComparison(s) == Some(c)
    ensures var ts := Lex(s[1..]);
      && |ts| >= 3 && ts[0] == Word("if") && ts[1] == Word(c.left)
      && (ts[2] == Other || (ts[2] == Cmp(c.op) && ts[3..] == Lex(tail)))
      && c.right == TakeWord(tail)
  {
    IfTokens(s);
    var b := BehindWord(s);
    LexOp(b, c.op);
    var t := b[|Sign(c.op)|..];
    LexSpaces(t);
    tail := DropSpaces(t);
    var front, ts := [Word("if"), Word(c.left)], Lex(b);
    assert (front + ts)[2] == ts[0] && (front + ts)[3..] == ts[1..];
  }

  /** A condition whose tokens begin with a word and an operator begins with that comparison. */
  lemma ParseLeads(ts: seq<Token>)
    requires |ts| >= 2 && ts[0].Word? && (ts[1].Cmp? || ts[1] == Other) && ParseOr(ts).Some? && ParseOr(ts).value.rest == []
    ensures ts[1].Cmp? && First(ParseOr(ts).value.cond).Compare?
    ensures var f := First(ParseOr(ts).value.cond);
      && f.left == Name(ts[0].text) && f.op == ts[1].op
      && (|ts| >= 3 && ts[2].Word? && ts[2].text != "defined" ==> f.right == Name(ts[2].text))
  {
    assert ParseAnd(ts).Some? && ParseCompare(ts).Some?;
    ParseLeft(ts);
    var c := ParseCompare(ts).value.cond;
    assert ParseAnd(ts).Some?;
    var d := ParseAnd(ts).value.cond;
    assert d == c || (d.And? && d.left == c);
    var e := ParseOr(ts).value.cond;
    assert e == d || (e.Or? && e.left == d);
  }

  lemma ParseLeft(ts: seq<Token>)
    requires |ts| >= 2 && ts[0].Word? && (ts[1].Cmp? || ts[1] == Other) && ParseUnary(ts).Some?
    ensures ts[1] == Other ==> ParseCompare(ts) == Some(Parsed(Name(ts[0].text), ts[1..]))
    ensures ts[1].Cmp? && ParseCompare(ts).Some? ==>
      var c := ParseCompare(ts).value.cond;
      && c.Compare? && c.left == Name(ts[0].text) && c.op == ts[1].op
      && (|ts| >= 3 && ts[2].Word? && ts[2].text != "defined" ==> c.right == Name(ts[2].text))
  {
    assert ParseDefined(ts[1..]) == None;
    assert ParseUnary(ts) == Some(Parsed(Name(ts[0].text), ts[1..]));
    if ts[1].Cmp? && |ts| >= 3 && ts[2].Word? && ts[2].text != "defined" { ParseRight(ts[1..][1..]); }
  }

  lemma ParseRight(ts: seq<Token>)
    requires ts != [] && ts[0].Word? && ts[0].text != "defined"
    ensures ParseUnary(ts).Some? ==> ParseUnary(ts).value.cond == Name(ts[0].text)
  {
  }

  /** The first comparison of the condition is then the one that the pattern finds. */
  lemma FirstIsComparison(s: string, c: Comparison)
    requires MatchComparison(s) == Some(c) && Condition(s).Some?
    ensures var f := First(Condition(s).value); f.Compare? && f.left == Name(c.left) && f.op == c.op
    ensures var f := First(Condition(s).value); c.right != [] && c.right != "defined" ==> f.right == Name(c.right)
  {
    var tail := ComparisonTokens(s, c);
    var all := Lex(s[1..]);
    var ts := all[1..];
    assert ts[0] == all[1] && ts[1] == all[2];
    assert ParseOr(ts).Some? && Condition(s) == Some(ParseOr(ts).value.cond);
    ParseLeads(ts);
    if c.right != [] {
      LexWord(tail);
      assert all[3] == all[3..][0] == Word(c.right) && ts[2] == all[3];
    }
  }

  // ---------------------------------------------------------------- what the filter reads right

  /** The found comparison is read as the standard does: a word that is no version name stands for 0. */
  predicate ComparisonRight(v: Versions, defs: Macros, c: Comparison, e: Cond) {
    Evaluate(v, c) == Holds(defs, First(e))
  }

  /**
   The condition `e` of the #if line `s` is read right. If the line begins with a comparison with
   TORCH_VER, the filter looks no further: a comparison read as true needs that what is joined
   to it holds, or another alternative, and one read as false needs that no alternative holds;
   a misread comparison must not matter. A comparison found behind a further `#if` decides in place
   of the condition. What is recognised nowhere reads as false.
   */
  predicate IfRight(v: Versions, defs: Macros, s: string, e: Cond) {
    match FindComparison(s)
    case None => MatchForce(s).Some? || !Holds(defs, e)
    case Some(c) =>
      if !Speaks(c) then !Holds(defs, e)
      else if MatchComparison(s).None? then Evaluate(v, c) == Holds(defs, e)
      else if ComparisonRight(v, defs, c, e) then
        if Evaluate(v, c) then Joined(defs, e) || Otherwise(defs, e) else !Otherwise(defs, e)
      else
        if Evaluate(v, c) then Otherwise(defs, e) else !Joined(defs, e) && !Otherwise(defs, e)
  }

  /** An #elif line reads as true unless a false comparison stands behind an `#if` further on in it. */
  predicate ElifRight(v: Versions, defs: Macros, s: string, e: Cond) {
    var c := FindComparison(s);
    Holds(defs, e) <==> !(c.Some? && Speaks(c.value) && !Evaluate(v, c.value))
  }

  lemma ForceCondition(s: string)
    requires MatchForce(s).Some?
    ensures var a := DropSpaces(s[3..]);
      && (a == "0" || a == "1" || a == "true" || a == "false") && Condition(s) == Some(Name(a))
      && MatchForce(s) == Some(a == "1" || a == "true")
  {
    var a := DropSpaces(s[3..]);
    WholeWord(a);
    IfTokens(s);
    assert a[|a|..] == [] && DropSpaces([]) == [] && Lex([]) == [];
    OneDigit(a);
    OneWord(a);
    var ts := Lex(s[1..]);
    assert ts[0] == Word("if") && ts[1..] == [Word(a)];
  }

  lemma OneDigit(a: string)
    ensures a == "0" ==> Number(a) == Some(0)
    ensures a == "1" ==> Number(a) == Some(1)
  {
    assert Digits([], 8) == [] == Digits([], 10);
    if a == "0" { assert a[1..] == [] && Digits(a, 8) == a && NumberOf([], 8) == 0 && a[..0] == []; }
    if a == "1" { assert a[1..] == [] && Digits(a, 10) == a && NumberOf([], 10) == 0 && a[..0] == []; }
  }

  lemma WholeWord(a: string)
    requires a == "0" || a == "1" || a == "true" || a == "false"
    ensures TakeWord(a) == a != [] && a != "defined"
  {
    TakeAll(a);
  }

  lemma {:induction false} TakeAll(a: string)
    requires forall i :: 0 <= i < |a| ==> IsWord(a[i])
    ensures TakeWord(a) == a
  {
    if a != [] { TakeAll(a[1..]); }
  }

  lemma OneWord(a: string)
    requires a != "defined" && (IsLiteral(a) ==> Number(a).Some?)
    ensures ParseOr([Word(a)]) == Some(Parsed(Name(a), []))
  {
    var ts := [Word(a)];
    assert ParseUnary(ts) == Some(Parsed(Name(a), ts[1..])) && ts[1..] == [];
    assert ParseCompare(ts) == ParseAnd(ts) == ParseUnary(ts);
  }

  /** The forced conditions are read right. */
  lemma ForceRight(defs: Macros, s: string)
    requires MatchForce(s).Some?
    ensures Condition(s).Some? && MatchForce(s) == Some(Holds(defs, Condition(s).value))
  {
    ForceCondition(s);
    OneDigit(DropSpaces(s[3..]));
  }

  /** An #if line is read as the standard does if and only if IfRight says so. */
  lemma IfRightIff(v: Versions, defs: Macros, s: string)
    requires "#if" <= s && Condition(s).Some?
    ensures (Check(v, s) == Some(true)) == Holds(defs, Condition(s).value) <==> IfRight(v, defs, s, Condition(s).value)
  {
    var e := Condition(s).value;
    PartsMeaning(defs, e);
    if MatchForce(s).Some? { ForceRight(defs, s); }
  }

  /** A leading comparison is misread if and only if it matters that the filter takes what is no version name for 0. */
  lemma ComparisonRightIff(v: Versions, defs: Macros, s: string, c: Comparison)
    requires MatchComparison(s) == Some(c) && Condition(s).Some?
    ensures var f := First(Condition(s).value);
      && f.Compare? && (c.right != [] && c.right != "defined" ==> f.right == Name(c.right))
      && (ComparisonRight(v, defs, c, Condition(s).value)
          <==> (Compares(c.op, v.Get(c.left), v.Get(c.right)) <==> Compares(c.op, WordValue(defs, c.left), Value(defs, f.right))))
  {
    FirstIsComparison(s, c);
    var f := First(Condition(s).value);
    assert Value(defs, f.left) == WordValue(defs, c.left);
    assert Holds(defs, f) <==> Compares(c.op, WordValue(defs, c.left), Value(defs, f.right));
  }

  /** The version header defines the names of the filter's table, with their numbers. */
  ghost predicate Fits(v: Versions, defs: Macros) {
    && "TORCH_VER" in defs && defs["TORCH_VER"] == v.current
    && forall n :: n in v.known ==> IsName(n) && n in defs && defs[n] == v.known[n]
  }

  predicate IsName(w: string) { w != [] && !IsLiteral(w) && w != "true" && w != "false" && w != "defined" }

  /** A name of the table, or one that is no macro either. */
  predicate Shared(v: Versions, defs: Macros, w: string) {
    IsName(w) && (w == "TORCH_VER" || w in v.known || w !in defs)
  }

  lemma SharedValue(v: Versions, defs: Macros, w: string)
    requires Fits(v, defs) && Shared(v, defs, w)
    ensures v.Get(w) == WordValue(defs, w)
  {
  }

  /** Comparisons of such names are never misread. */
  lemma NamesComparedRight(v: Versions, defs: Macros, s: string, c: Comparison)
    requires Fits(v, defs) && MatchComparison(s) == Some(c) && Condition(s).Some?
    requires Shared(v, defs, c.left) && Shared(v, defs, c.right)
    ensures ComparisonRight(v, defs, c, Condition(s).value)
  {
    ComparisonRightIff(v, defs, s, c);
    SharedValue(v, defs, c.left);
    SharedValue(v, defs, c.right);
  }

  // ---------------------------------------------------------------- lines of the sources

  /** A comparison as the sources write it. */
  function Test(l: string, op: Op, r: string): string { l + (" " + (Sign(op) + (" " + r))) }

  predicate IsWordText(w: string) { w != [] && forall i :: 0 <= i < |w| ==> IsWord(w[i]) }

  predicate Ends(rest: string) { rest == [] || !IsWord(rest[0]) }

  lemma {:induction false} TakeAhead(w: string, rest: string)
    requires (forall i :: 0 <= i < |w| ==> IsWord(w[i])) && Ends(rest)
    ensures TakeWord(w + rest) == w
  {
    if w == [] {
      assert w + rest == rest;
    } else {
      assert (w + rest)[1..] == w[1..] + rest;
      TakeAhead(w[1..], rest);
    }
  }

  lemma WordAhead(w: string, rest: string)
    requires IsWordText(w) && Ends(rest)
    ensures TakeWord(w + rest) == w && DropSpaces(w + rest) == w + rest && (w + rest)[|w|..] == rest
    ensures Lex(w + rest) == [Word(w)] + Lex(rest)
  {
    TakeAhead(w, rest);
    LexWord(w + rest);
    assert IsWord((w + rest)[0]);
  }

  lemma SignAhead(op: Op, rest: string)
    requires rest != [] && rest[0] == ' '
    ensures var s := Sign(op) + rest;
      && DropSpaces(s) == s && Ends(s) && s[|Sign(op)|..] == rest && (op != Ne ==> TakeOp(s) == Some(op))
      && Lex(s) == [Cmp(op)] + Lex(rest)
  {
    var sign := Sign(op);
    var s := sign + rest;
    assert s[|sign|..] == rest && s[0] == sign[0] && !IsSpace(s[0]) && !IsWord(s[0]) && s[0] != '/';
    if |sign| == 1 {
      assert s[1] == ' ' && Pair(s[0], s[1]) == None && Single(s[0]) == Cmp(op);
    } else {
      assert s[1] == '=' && Pair(s[0], s[1]) == Some(Cmp(op));
    }
  }

  lemma SpaceAhead(rest: string)
    ensures DropSpaces(" " + rest) == DropSpaces(rest) && Lex(" " + rest) == Lex(rest) && Ends(" " + rest)
  {
    assert (" " + rest)[1..] == rest;
  }

  lemma WordSignTokens(l: string, op: Op, t: string)
    requires IsWordText(l)
    ensures Lex(l + (" " + (Sign(op) + (" " + t)))) == [Word(l), Cmp(op)] + Lex(t)
  {
    SignTokens(op, t);
    var b := " " + (Sign(op) + (" " + t));
    assert Ends(b);
    WordAhead(l, b);
    TwoTokens(Word(l), Cmp(op), Lex(t));
  }

  lemma SignTokens(op: Op, t: string)
    ensures Lex(" " + (Sign(op) + (" " + t))) == [Cmp(op)] + Lex(t)
  {
    SpaceAhead(Sign(op) + (" " + t));
    SignAhead(op, " " + t);
    SpaceAhead(t);
  }

  lemma TwoTokens(a: Token, b: Token, ts: seq<Token>)
    ensures [a] + ([b] + ts) == [a, b] + ts
  {
  }

  lemma TestTokens(l: string, op: Op, r: string, rest: string)
    requires IsWordText(l) && IsWordText(r) && Ends(rest)
    ensures Lex(Test(l, op, r) + rest) == [Word(l), Cmp(op), Word(r)] + Lex(rest)
  {
    Regroup(l, " ", Sign(op), r, rest);
    WordSignTokens(l, op, r + rest);
    WordAhead(r, rest);
    assert [Word(l), Cmp(op)] + ([Word(r)] + Lex(rest)) == [Word(l), Cmp(op), Word(r)] + Lex(rest);
  }

  lemma Regroup(l: string, space: string, sign: string, r: string, rest: string)
    ensures l + (space + (sign + (space + r))) + rest == l + (space + (sign + (space + (r + rest))))
  {
    assert space + r + rest == space + (r + rest);
    assert sign + (space + r) + rest == sign + (space + r + rest);
    assert space + (sign + (space + r)) + rest == space + (sign + (space + r) + rest);
  }

  lemma TestMatches(l: string, op: Op, r: string, rest: string)
    requires IsWordText(l) && IsWordText(r) && Ends(rest) && op != Ne
    ensures var s := "#if " + (Test(l, op, r) + rest); MatchComparison(s) == Some(Comparison(l, op, r)) == FindComparison(s)
  {
    var a := " " + (r + rest);
    var b := " " + (Sign(op) + a);
    var s := "#if " + (Test(l, op, r) + rest);
    Regroup(l, " ", Sign(op), r, rest);
    assert s[3..] == " " + (Test(l, op, r) + rest);
    SpaceAhead(l + b);
    SpaceAhead(Sign(op) + a);
    WordAhead(l, b);
    SignAhead(op, a);
    SpaceAhead(r + rest);
    WordAhead(r, rest);
  }

  lemma IfAhead(t: string)
    ensures var s := "#if " + t; "#if" <= s && s[0] == '#' && Lex(s[1..]) == [Word("if")] + Lex(t)
  {
    var s := "#if " + t;
    assert s[3..] == " " + t && s[3] == ' ';
    LexIf(s);
    SpaceAhead(t);
  }

  predicate Operand(w: string) { IsWordText(w) && w != "defined" && (IsLiteral(w) ==> Number(w).Some?) }

  lemma ParseTest(l: string, op: Op, r: string, rest: seq<Token>)
    requires Operand(l) && Operand(r)
    ensures ParseCompare([Word(l), Cmp(op), Word(r)] + rest) == Some(Parsed(Compare(Name(l), op, Name(r)), rest))
  {
    var ts := [Word(l), Cmp(op), Word(r)] + rest;
    assert ts[1..][0] == Cmp(op) && ts[1..][1..] == [Word(r)] + rest;
    assert ([Word(r)] + rest)[1..] == rest;
    assert ParseUnary(ts) == Some(Parsed(Name(l), ts[1..]));
  }

  lemma IfCondition(t: string, e: Cond)
    requires ParseOr(Lex(t)) == Some(Parsed(e, []))
    ensures Condition("#if " + t) == Some(e)
  {
    IfAhead(t);
    assert ([Word("if")] + Lex(t))[1..] == Lex(t);
  }

  /** A line with one comparison. */
  lemma SingleCondition(l: string, op: Op, r: string)
    requires Operand(l) && Operand(r)
    ensures Condition("#if " + Test(l, op, r)) == Some(Compare(Name(l), op, Name(r)))
  {
    LastTest(l, op, r);
    var ts := [Word(l), Cmp(op), Word(r)];
    assert ts + [] == ts;
    ParseTest(l, op, r, []);
    assert ParseOr(ts) == ParseAnd(ts) == ParseCompare(ts);
    IfCondition(Test(l, op, r), Compare(Name(l), op, Name(r)));
  }

  lemma LastTest(l: string, op: Op, r: string)
    requires IsWordText(l) && IsWordText(r)
    ensures Lex(Test(l, op, r)) == [Word(l), Cmp(op), Word(r)]
  {
    var t := Test(l, op, r);
    assert t + [] == t && Lex([]) == [];
    TestTokens(l, op, r, []);
    assert [Word(l), Cmp(op), Word(r)] + [] == [Word(l), Cmp(op), Word(r)];
  }

  /** Two comparisons. */
  function Both(l: string, op: Op, a: string, op': Op, b: string): string { Test(l, op, a) + (" && " + Test(l, op', b)) }

  lemma AndAhead(t: string)
    requires t != [] && IsWord(t[0])
    ensures Ends(" && " + t) && Lex(" && " + t) == [AndAnd] + Lex(t)
  {
    var s := "&& " + t;
    assert " && " + t == " " + s;
    SpaceAhead(s);
    assert s[0] == '&' == s[1] && s[2..] == " " + t;
    SpaceAhead(t);
    assert Lex(s) == [AndAnd] + Lex(s[2..]);
  }

  lemma BothTokens(l: string, op: Op, a: string, op': Op, b: string)
    requires IsWordText(l) && IsWordText(a) && IsWordText(b)
    ensures Lex(Both(l, op, a, op', b)) == [Word(l), Cmp(op), Word(a)] + ([AndAnd] + [Word(l), Cmp(op'), Word(b)])
  {
    var t := Test(l, op', b);
    LastTest(l, op', b);
    AndAhead(t);
    TestTokens(l, op, a, " && " + t);
  }

  lemma BothParsed(l: string, op: Op, a: string, op': Op, b: string)
    requires Operand(l) && Operand(a) && Operand(b)
    ensures ParseOr([Word(l), Cmp(op), Word(a)] + ([AndAnd] + [Word(l), Cmp(op'), Word(b)]))
         == Some(Parsed(And(Compare(Name(l), op, Name(a)), Compare(Name(l), op', Name(b))), []))
  {
    var last := [Word(l), Cmp(op'), Word(b)];
    var more := [AndAnd] + last;
    var ts := [Word(l), Cmp(op), Word(a)] + more;
    assert more[1..] == last && last + [] == last;
    ParseTest(l, op, a, more);
    ParseTest(l, op', b, []);
    assert ParseAnd(last) == ParseCompare(last);
    assert ParseOr(ts) == ParseAnd(ts);
  }

  /** A line with two comparisons. */
  function Range(l: string, op: Op, a: string, op': Op, b: string): string { "#if " + Both(l, op, a, op', b) }

  lemma RangeCondition(l: string, op: Op, a: string, op': Op, b: string)
    requires Operand(l) && Operand(a) && Operand(b)
    ensures Condition(Range(l, op, a, op', b)) == Some(And(Compare(Name(l), op, Name(a)), Compare(Name(l), op', Name(b))))
  {
    BothTokens(l, op, a, op', b);
    BothParsed(l, op, a, op', b);
    IfCondition(Both(l, op, a, op', b), And(Compare(Name(l), op, Name(a)), Compare(Name(l), op', Name(b))));
  }

  /** Two comparisons of version names: the filter reads the first alone, which is right unless only the second fails. */
  lemma RangeRightIff(v: Versions, defs: Macros, l: string, op: Op, a: string, op': Op, b: string)
    requires Fits(v, defs) && l == "TORCH_VER" && Operand(l) && op != Ne
    requires Operand(a) && Operand(b) && Shared(v, defs, a) && Shared(v, defs, b)
    ensures var s := Range(l, op, a, op', b);
      && Check(v, s) == Some(Compares(op, v.current, v.Get(a)))
      && Condition(s).Some?
      && (Holds(defs, Condition(s).value) <==> Compares(op, v.current, v.Get(a)) && Compares(op', v.current, v.Get(b)))
      && (IfRight(v, defs, s, Condition(s).value) <==> !Compares(op, v.current, v.Get(a)) || Compares(op', v.current, v.Get(b)))
  {
    var s := Range(l, op, a, op', b);
    AndAhead(Test(l, op', b));
    TestMatches(l, op, a, " && " + Test(l, op', b));
    RangeCondition(l, op, a, op', b);
    IfAhead(Both(l, op, a, op', b));
    SharedValue(v, defs, a);
    SharedValue(v, defs, b);
    SharedValue(v, defs, l);
    TwoCompared(defs, l, op, a, op', b);
    IfRightIff(v, defs, s);
  }

  lemma TwoCompared(defs: Macros, l: string, op: Op, a: string, op': Op, b: string)
    ensures Holds(defs, And(Compare(Name(l), op, Name(a)), Compare(Name(l), op', Name(b))))
       <==> Compares(op, WordValue(defs, l), WordValue(defs, a)) && Compares(op', WordValue(defs, l), WordValue(defs, b))
  {
    var p, q := Compare(Name(l), op, Name(a)), Compare(Name(l), op', Name(b));
    assert Value(defs, And(p, q)) == Truth(Value(defs, p) != 0 && Value(defs, q) != 0);
    assert Value(defs, p) == Truth(Compares(op, Value(defs, Name(l)), Value(defs, Name(a))));
    assert Value(defs, q) == Truth(Compares(op', Value(defs, Name(l)), Value(defs, Name(b))));
  }

  lemma SingleRead(v: Versions, defs: Macros, l: string, op: Op, r: string)
    requires Fits(v, defs) && l == "TORCH_VER" && Operand(l) && op != Ne && Operand(r)
    ensures var s := "#if " + Test(l, op, r);
      && Condition(s).Some? && "#if" <= s && Check(v, s) == Some(Compares(op, v.current, v.Get(r)))
      && (Holds(defs, Condition(s).value) <==> Compares(op, v.current, WordValue(defs, r)))
  {
    assert Test(l, op, r) + [] == Test(l, op, r);
    TestMatches(l, op, r, []);
    SingleCondition(l, op, r);
    IfAhead(Test(l, op, r));
    SharedValue(v, defs, l);
    OneCompared(defs, l, op, r);
  }

  lemma OneCompared(defs: Macros, l: string, op: Op, r: string)
    ensures Holds(defs, Compare(Name(l), op, Name(r))) <==> Compares(op, WordValue(defs, l), WordValue(defs, r))
  {
    var e := Compare(Name(l), op, Name(r));
    assert Value(defs, e.left) == WordValue(defs, l) && Value(defs, e.right) == WordValue(defs, r);
  }

  /** A comparison with a number: the filter takes it for 0. */
  lemma NumberRightIff(v: Versions, defs: Macros, l: string, op: Op, n: string)
    requires Fits(v, defs) && l == "TORCH_VER" && Operand(l) && op != Ne
    requires Operand(n) && IsLiteral(n) && n != l
    ensures var s := "#if " + Test(l, op, n);
      && Condition(s).Some? && Check(v, s) == Some(Compares(op, v.current, 0))
      && (Holds(defs, Condition(s).value) <==> Compares(op, v.current, Number(n).value))
      && (IfRight(v, defs, s, Condition(s).value) <==> (Compares(op, v.current, 0) <==> Compares(op, v.current, Number(n).value)))
  {
    SingleRead(v, defs, l, op, n);
    IfRightIff(v, defs, "#if " + Test(l, op, n));
  }

  /** A comparison with a version name is read right. */
  lemma NameRight(v: Versions, defs: Macros, l: string, op: Op, a: string)
    requires Fits(v, defs) && l == "TORCH_VER" && Operand(l) && op != Ne && Operand(a) && Shared(v, defs, a)
    ensures var s := "#if " + Test(l, op, a);
      && Condition(s).Some? && IfRight(v, defs, s, Condition(s).value)
      && Check(v, s) == Some(Holds(defs, Condition(s).value)) == Some(Compares(op, v.current, v.Get(a)))
  {
    SingleRead(v, defs, l, op, a);
    SharedValue(v, defs, a);
    IfRightIff(v, defs, "#if " + Test(l, op, a));
  }

  // ---------------------------------------------------------------- what the operators mean

  /** A comparison is worth 1 or 0, by the relation of the two values. */
  lemma ComparisonValue(defs: Macros, a: string, op: Op, b: string)
    ensures var x, y := WordValue(defs, a), WordValue(defs, b);
      Value(defs, Compare(Name(a), op, Name(b))) ==
        match op
        case Lt => (if x < y then 1 else 0)
        case Le => (if x <= y then 1 else 0)
        case Eq => (if x == y then 1 else 0)
        case Ne => (if x == y then 0 else 1)
        case Ge => (if x >= y then 1 else 0)
        case Gt => (if x > y then 1 else 0)
  {
    assert Value(defs, Name(a)) == WordValue(defs, a) && Value(defs, Name(b)) == WordValue(defs, b);
  }

  /** `!`, `&&`, `||` and `defined`. */
  lemma LogicalValue(defs: Macros, a: Cond, b: Cond, w: string)
    ensures Value(defs, Not(a)) == if Value(defs, a) == 0 then 1 else 0
    ensures Value(defs, And(a, b)) == if Value(defs, a) != 0 && Value(defs, b) != 0 then 1 else 0
    ensures Value(defs, Or(a, b)) == if Value(defs, a) != 0 || Value(defs, b) != 0 then 1 else 0
    ensures Value(defs, Defined(w)) == if w in defs then 1 else 0
    ensures !IsLiteral(w) && w != "true" && w != "false" ==> Value(defs, Name(w)) == if w in defs then defs[w] else 0
  {
  }

  /** What the filter answers to a comparison with a name of its table, for each operator that it knows. */
  lemma VersionTestRead(v: Versions, op: Op, name: string)
    requires op != Ne && name in v.known && name != "TORCH_VER" && IsWordText(name)
    ensures Check(v, "#if " + Test("TORCH_VER", op, name)) ==
      match op
      case Lt => Some(v.current < v.known[name])
      case Le => Some(v.current <= v.known[name])
      case Eq => Some(v.current == v.known[name])
      case Ge => Some(v.current >= v.known[name])
      case Gt => Some(v.current > v.known[name])
      case Ne => None
  {
    var l := "TORCH_VER";
    VersionWord(l);
    assert Test(l, op, name) + [] == Test(l, op, name);
    TestMatches(l, op, name, []);
  }

  /** At the version itself `>=` holds and `>` does not, by the filter and by the standard. */
  lemma BoundaryExample(v: Versions, defs: Macros, a: string)
    requires Fits(v, defs) && v.current == 20500 && a == "TORCH_2_5_0" && a in v.known && v.known[a] == 20500
    ensures var s := "#if " + Test("TORCH_VER", Ge, a);
      Check(v, s) == Some(true) && Condition(s).Some? && Holds(defs, Condition(s).value)
    ensures var s := "#if " + Test("TORCH_VER", Gt, a);
      Check(v, s) == Some(false) && Condition(s).Some? && !Holds(defs, Condition(s).value)
  {
    var l := "TORCH_VER";
    VersionWord(l);
    NameWord(a);
    NameRight(v, defs, l, Ge, a);
    NameRight(v, defs, l, Gt, a);
  }

  /** Of the forced conditions the filter reads `1` and `true` as true, `0` and `false` as false, and no other text. */
  lemma ForceMeaning(a: string)
    requires a != [] && !IsSpace(a[0])
    ensures MatchForce("#if " + a) ==
      if a == "1" || a == "true" then Some(true) else if a == "0" || a == "false" then Some(false) else None
  {
    var s := "#if " + a;
    assert s[3..] == " " + a;
    SpaceAhead(a);
  }

  /** #ifdef and #ifndef ask whether a name is a macro. */
  lemma DefinedCondition(w: string, name: string)
    requires (w == "ifdef" || w == "ifndef") && IsWordText(name) && !IsLiteral(name)
    ensures Condition(['#'] + (w + (" " + name))) == Some(if w == "ifdef" then Defined(name) else Not(Defined(name)))
  {
    DirectiveWord(w);
    NameBehind(w, name);
    var text := w + (" " + name);
    assert (['#'] + text)[1..] == text && w != "if" && w != "elif" && (w == "ifndef" ==> w != "ifdef");
  }

  lemma DirectiveWord(w: string)
    requires w == "ifdef" || w == "ifndef"
    ensures IsWordText(w)
  {
  }

  lemma NameBehind(w: string, name: string)
    requires IsWordText(w) && IsWordText(name)
    ensures Lex(w + (" " + name)) == [Word(w), Word(name)]
  {
    SpaceAhead(name);
    WordAhead(w, " " + name);
    assert name + [] == name && Lex([]) == [];
    WordAhead(name, []);
  }

  /** The directives with arms. */
  lemma DirectiveWords(w: string)
    ensures DirectiveKind(w) == IfLine <==> w == "if" || w == "ifdef" || w == "ifndef"
    ensures DirectiveKind(w) == ElseLine <==> w == "else"
    ensures DirectiveKind(w) == ElifLine <==> w == "elif"
    ensures DirectiveKind(w) == EndifLine <==> w == "endif"
  {
    assert "else"[1] == 'l' && "elif"[2] == 'i' && "endif"[1] == 'n';
  }

  // ---------------------------------------------------------------- two lines that are misread

  lemma VersionWord(l: string)
    requires l == "TORCH_VER"
    ensures Operand(l)
  {
  }

  lemma NameWord(w: string)
    requires w == "TORCH_2_5_0" || w == "TORCH_2_9_0"
    ensures Operand(w) && IsName(w) && w != "TORCH_VER"
  {
    assert w[0] == 'T' && w[6] != 'V';
  }

  lemma {:induction false} AllDigits(s: string, base: nat)
    requires forall i :: 0 <= i < |s| ==> DigitValue(s[i]) < base
    ensures Digits(s, base) == s
  {
    if s != [] { AllDigits(s[1..], base); }
  }

  lemma NextDigit(s: string, k: nat)
    requires k < |s|
    ensures NumberOf(s[..k+1], 10) == NumberOf(s[..k], 10) * 10 + DigitValue(s[k])
  {
    assert s[..k+1][..k] == s[..k];
  }

  lemma NumberWord(n: string)
    requires n == "20600"
    ensures Operand(n) && IsLiteral(n) && n != "TORCH_VER" && Number(n) == Some(20600)
  {
    AllDigits(n, 10);
    NextDigit(n, 0);
    NextDigit(n, 1);
    NextDigit(n, 2);
    NextDigit(n, 3);
    NextDigit(n, 4);
    assert n[..0] == [] && n[..5] == n && n[5..] == [];
  }

  lemma ElifZeroCondition(s: string)
    requires s == "#elif 0"
    ensures Condition(s) == Some(Name("0"))
  {
    var w, t := "elif", "0";
    assert s[1..] == w + (" " + t);
    WordAhead(w, " " + t);
    SpaceAhead(t);
    WordAhead(t, []);
    assert t + [] == t && Lex([]) == [] && [Word(t)] + [] == [Word(t)];
    OneDigit(t);
    OneWord(t);
    assert ([Word(w)] + [Word(t)])[1..] == [Word(t)];
  }

  lemma IfZeroCondition(s: string)
    requires s == "#if 0"
    ensures Condition(s) == Some(Name("0"))
  {
    assert s[3..] == " 0" && " 0"[1..] == "0" && DropSpaces("0") == "0" && DropSpaces(" 0") == "0";
    ForceCondition(s);
  }

  /** With version 2.9.0 a range that ends before it is read as true. */
  lemma RangeExample(v: Versions, defs: Macros, a: string, b: string)
    requires Fits(v, defs) && v.current == 20900 && a == "TORCH_2_5_0" && b == "TORCH_2_9_0"
    requires a in v.known && v.known[a] == 20500 && b in v.known && v.known[b] == 20900
    ensures var s := Range("TORCH_VER", Ge, a, Lt, b);
      Check(v, s) == Some(true) && Condition(s).Some? && !Holds(defs, Condition(s).value)
  {
    var l := "TORCH_VER";
    VersionWord(l);
    NameWord(a);
    NameWord(b);
    RangeRightIff(v, defs, l, Ge, a, Lt, b);
  }

  /** With version 2.5.0 a comparison with a later number is read as true. */
  lemma NumberExample(v: Versions, defs: Macros, n: string)
    requires Fits(v, defs) && v.current == 20500 && n == "20600"
    ensures var s := "#if " + Test("TORCH_VER", Ge, n);
      Check(v, s) == Some(true) && Condition(s).Some? && !Holds(defs, Condition(s).value)
  {
    var l := "TORCH_VER";
    VersionWord(l);
    NumberWord(n);
    NumberRightIff(v, defs, l, Ge, n);
  }
}
