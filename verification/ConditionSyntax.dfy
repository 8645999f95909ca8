/**
 The grammar of conditions against its own printed form: whatever condition, token or number is
 written out is read back.
 */
module ConditionSyntax {
  import opened Wrappers
  import opened ConditionText
  import opened Conditions

  // ---------------------------------------------------------------- writing and reading conditions

  /** Words that can stand in a condition. */
  predicate Writable(e: Cond) {
    match e
    case Name(w) => Operand(w)
    case Defined(w) => IsWordText(w)
    case Not(a) => Writable(a)
    case Compare(a, _, b) => Writable(a) && Writable(b)
    case And(a, b) => Writable(a) && Writable(b)
    case Or(a, b) => Writable(a) && Writable(b)
  }

  /** A condition written out with all its parentheses. */
  function Written(e: Cond): seq<Token>
    decreases e, 0
  {
    match e
    case Name(w) => [Word(w)]
    case Defined(w) => [Word("defined"), OpenParen, Word(w), CloseParen]
    case Not(a) => [Bang] + InParens(a)
    case Compare(a, op, b) => InParens(a) + ([Cmp(op)] + InParens(b))
    case And(a, b) => InParens(a) + ([AndAnd] + InParens(b))
    case Or(a, b) => InParens(a) + ([OrOr] + InParens(b))
  }

  function InParens(e: Cond): seq<Token>
    decreases e, 1
  {
    [OpenParen] + (Written(e) + [CloseParen])
  }

  /** What cannot go on with a condition. */
  predicate Stops(rest: seq<Token>) { rest == [] || rest[0] == CloseParen }

  lemma OneToken(t: Token, rest: seq<Token>)
    ensures ([t] + rest)[0] == t && ([t] + rest)[1..] == rest
  {
  }

  lemma Assoc(a: seq<Token>, b: seq<Token>, c: seq<Token>)
    ensures a + b + c == a + (b + c)
  {
  }

  lemma {:induction false} ParensParse(e: Cond, rest: seq<Token>)
    requires Writable(e)
    ensures ParseUnary(InParens(e) + rest) == Some(Parsed(e, rest))
    decreases e, 2
  {
    var inner := Written(e) + ([CloseParen] + rest);
    OneToken(CloseParen, rest);
    WrittenParses(e, [CloseParen] + rest);
    assert InParens(e) + rest == [OpenParen] + inner;
    OneToken(OpenParen, inner);
  }

  lemma {:induction false} WrittenParses(e: Cond, rest: seq<Token>)
    requires Writable(e) && Stops(rest)
    ensures ParseOr(Written(e) + rest) == Some(Parsed(e, rest))
    decreases e, 1
  {
    var ts := Written(e) + rest;
    match e
    case Name(w) =>
      OneToken(Word(w), rest);
      assert ParseUnary(ts) == Some(Parsed(e, rest));
      OnlyUnary(ts, e, rest);
    case Defined(w) =>
      DefinedParses(w, rest);
      OnlyUnary(ts, e, rest);
    case Not(a) =>
      ParensParse(a, rest);
      Assoc([Bang], InParens(a), rest);
      OneToken(Bang, InParens(a) + rest);
      OnlyUnary(ts, e, rest);
    case Compare(a, op, b) =>
      JoinParses(e, a, Cmp(op), b, rest);
      assert ParseCompare(ts) == Some(Parsed(e, rest));
      assert ParseOr(ts) == ParseAnd(ts) == ParseCompare(ts);
    case And(a, b) =>
      JoinParses(e, a, AndAnd, b, rest);
      OnlyUnary(InParens(b) + rest, b, rest);
      assert ParseCompare(ts) == ParseUnary(ts);
      assert ParseAnd(ts) == Some(Parsed(e, rest));
      assert ParseOr(ts) == ParseAnd(ts);
    case Or(a, b) =>
      JoinParses(e, a, OrOr, b, rest);
      OnlyUnary(InParens(b) + rest, b, rest);
      assert ParseAnd(ts) == ParseCompare(ts) == ParseUnary(ts);
  }

  lemma OnlyUnary(ts: seq<Token>, e: Cond, rest: seq<Token>)
    requires ParseUnary(ts) == Some(Parsed(e, rest)) && Stops(rest)
    ensures ParseOr(ts) == ParseAnd(ts) == ParseCompare(ts) == ParseUnary(ts)
  {
  }

  lemma DefinedParses(w: string, rest: seq<Token>)
    ensures ParseUnary(Written(Defined(w)) + rest) == Some(Parsed(Defined(w), rest))
  {
    var ts := Written(Defined(w)) + rest;
    var inner := ts[1..];
    assert inner[0] == OpenParen && inner[1] == Word(w) && inner[2] == CloseParen && inner[3..] == rest;
  }

  lemma {:induction false} JoinParses(e: Cond, a: Cond, t: Token, b: Cond, rest: seq<Token>)
    requires Writable(a) && Writable(b) && (e == And(a, b) || e == Or(a, b) || (e.Compare? && e.left == a && e.right == b))
    ensures var ts := InParens(a) + ([t] + InParens(b)) + rest;
      && ParseUnary(ts) == Some(Parsed(a, [t] + (InParens(b) + rest)))
      && ([t] + (InParens(b) + rest))[1..] == InParens(b) + rest && ParseUnary(InParens(b) + rest) == Some(Parsed(b, rest))
    decreases e, 0
  {
    Assoc(InParens(a), [t] + InParens(b), rest);
    Assoc([t], InParens(b), rest);
    ParensParse(a, [t] + (InParens(b) + rest));
    ParensParse(b, rest);
    OneToken(t, InParens(b) + rest);
  }

  // ---------------------------------------------------------------- text

  function TokenText(t: Token): string {
    match t
    case Word(w) => w
    case Cmp(op) => Sign(op)
    case AndAnd => "&&"
    case OrOr => "||"
    case Bang => "!"
    case OpenParen => "("
    case CloseParen => ")"
    case Other => "+"
  }

  predicate Spellable(t: Token) { t.Word? ==> IsWordText(t.text) }

  /** Tokens with a blank behind each. */
  function Text(ts: seq<Token>): string {
    if ts == [] then "" else TokenText(ts[0]) + (" " + Text(ts[1..]))
  }

  lemma SignAlone(t: Token, rest: string)
    requires !t.Word? && !t.Cmp?
    ensures Lex(TokenText(t) + (" " + rest)) == [t] + Lex(" " + rest)
  {
    var b := " " + rest;
    var s := TokenText(t) + b;
    assert s[0] == TokenText(t)[0] && s[|TokenText(t)|..] == b && b[0] == ' ';
    if |TokenText(t)| == 1 { assert s[1] == ' '; } else { assert s[1] == TokenText(t)[1]; }
  }

  /** Every token is read back. */
  lemma LexToken(t: Token, rest: string)
    requires Spellable(t)
    ensures Lex(TokenText(t) + (" " + rest)) == [t] + Lex(rest)
  {
    SpaceAhead(rest);
    match t
    case Word(w) => WordAhead(w, " " + rest);
    case Cmp(op) => SignAhead(op, " " + rest);
    case _ => SignAlone(t, rest);
  }

  lemma {:induction false} LexText(ts: seq<Token>)
    requires forall t :: t in ts ==> Spellable(t)
    ensures Lex(Text(ts)) == ts
  {
    if ts != [] {
      LexToken(ts[0], Text(ts[1..]));
      LexText(ts[1..]);
    }
  }

  lemma {:induction false} WrittenSpellable(e: Cond)
    requires Writable(e)
    ensures forall t :: t in Written(e) ==> Spellable(t)
  {
    match e
    case Name(_) =>
    case Defined(w) => DefinedIsWord("defined");
    case Not(a) => WrittenSpellable(a);
    case Compare(a, _, b) =>
      WrittenSpellable(a);
      WrittenSpellable(b);
    case And(a, b) =>
      WrittenSpellable(a);
      WrittenSpellable(b);
    case Or(a, b) =>
      WrittenSpellable(a);
      WrittenSpellable(b);
  }

  lemma DefinedIsWord(w: string)
    requires w == "defined"
    ensures IsWordText(w)
  {
  }

  /** Every condition that is written out on an #if line is read back. */
  lemma ConditionReadBack(e: Cond)
    requires Writable(e)
    ensures Condition("#if " + Text(Written(e))) == Some(e)
  {
    WrittenSpellable(e);
    LexText(Written(e));
    WrittenParses(e, []);
    assert Written(e) + [] == Written(e);
    IfCondition(Text(Written(e)), e);
  }

  /** Comments are no part of a condition. */
  lemma {:induction false} BehindCommentAt(c: string, rest: string)
    requires '*' !in c
    ensures BehindComment(c + ("*/" + rest)) == Some(rest)
  {
    var t := "*/" + rest;
    if c == [] {
      assert c + t == t && t[2..] == rest;
    } else {
      assert (c + t)[1..] == c[1..] + t && (c + t)[0] == c[0];
      BehindCommentAt(c[1..], rest);
    }
  }

  lemma CommentsAreBlank(c: string, rest: string)
    requires '*' !in c
    ensures Lex("/*" + (c + ("*/" + rest))) == Lex(rest) && Lex("//" + rest) == []
  {
    var t := c + ("*/" + rest);
    BehindCommentAt(c, rest);
    assert ("/*" + t)[2..] == t;
  }

  // ---------------------------------------------------------------- precedence

  lemma AndStep(w: string, ts: seq<Token>, x: Cond, rest: seq<Token>)
    requires Operand(w) && ParseAnd(ts) == Some(Parsed(x, rest))
    ensures ParseAnd([Word(w), AndAnd] + ts) == Some(Parsed(And(Name(w), x), rest))
  {
    var more := [AndAnd] + ts;
    WordParses(w, more);
    assert [Word(w), AndAnd] + ts == [Word(w)] + more;
    OneToken(AndAnd, ts);
  }

  lemma LastAnd(w: string, rest: seq<Token>)
    requires Operand(w) && (rest == [] || rest[0] == OrOr)
    ensures ParseAnd([Word(w)] + rest) == Some(Parsed(Name(w), rest))
  {
    WordParses(w, rest);
  }

  lemma WordParses(w: string, rest: seq<Token>)
    requires Operand(w) && (rest == [] || !rest[0].Cmp?)
    ensures ParseUnary([Word(w)] + rest) == Some(Parsed(Name(w), rest)) == ParseCompare([Word(w)] + rest)
  {
    OneToken(Word(w), rest);
  }

  /** `&&` binds stronger than `||` on its right ... */
  lemma AndInOr(a: string, b: string, c: string)
    requires Operand(a) && Operand(b) && Operand(c)
    ensures ParseOr([Word(a), OrOr] + [Word(b), AndAnd, Word(c)]) == Some(Parsed(Or(Name(a), And(Name(b), Name(c))), []))
  {
    var ts := [Word(b), AndAnd, Word(c)];
    LastAnd(c, []);
    assert [Word(c)] + [] == [Word(c)];
    AndStep(b, [Word(c)], Name(c), []);
    assert [Word(b), AndAnd] + [Word(c)] == ts;
    var more := [OrOr] + ts;
    LastAnd(a, more);
    assert [Word(a), OrOr] + ts == [Word(a)] + more;
    OneToken(OrOr, ts);
  }

  /** ... and on its left, */
  lemma AndBeforeOr(a: string, b: string, c: string)
    requires Operand(a) && Operand(b) && Operand(c)
    ensures ParseOr([Word(a), AndAnd] + ([Word(b)] + [OrOr, Word(c)])) == Some(Parsed(Or(And(Name(a), Name(b)), Name(c)), []))
  {
    var more := [OrOr, Word(c)];
    LastAnd(b, more);
    AndStep(a, [Word(b)] + more, Name(b), more);
    LastAnd(c, []);
    assert [Word(c)] + [] == [Word(c)] == more[1..];
  }

  /** and `!` stronger than both. */
  lemma NotBeforeAnd(a: string, b: string)
    requires Operand(a) && Operand(b)
    ensures ParseOr([Bang] + ([Word(a)] + [AndAnd, Word(b)])) == Some(Parsed(And(Not(Name(a)), Name(b)), []))
  {
    var more := [AndAnd, Word(b)];
    WordParses(a, more);
    var ts := [Bang] + ([Word(a)] + more);
    OneToken(Bang, [Word(a)] + more);
    assert ParseUnary(ts) == Some(Parsed(Not(Name(a)), more)) == ParseCompare(ts);
    LastAnd(b, []);
    assert [Word(b)] + [] == [Word(b)] == more[1..];
    assert ParseAnd(ts) == Some(Parsed(And(Not(Name(a)), Name(b)), []));
  }

  // ---------------------------------------------------------------- numbers

  function DigitOf(d: nat): char
    requires d < 16
  {
    if d < 10 then ('0' as int + d) as char else ('a' as int + d - 10) as char
  }

  /** A number in positional notation. */
  function Digital(n: nat, base: nat): string
    requires 2 <= base <= 16
  {
    if n < base then [DigitOf(n)] else Digital(n / base, base) + [DigitOf(n % base)]
  }

  lemma DigitOfValue(d: nat)
    requires d < 16
    ensures DigitValue(DigitOf(d)) == d && (DigitOf(d) == '0' <==> d == 0)
  {
  }

  lemma Quotient(n: nat, base: nat)
    requires base >= 2
    ensures n == n / base * base + n % base && n % base < base && (n >= base ==> 0 < n / base < n)
  {
    if n >= base { assert n / base >= 1; }
  }

  lemma NextValue(d: string, c: char, base: nat)
    ensures NumberOf(d + [c], base) == NumberOf(d, base) * base + DigitValue(c)
  {
    assert (d + [c])[..|d|] == d;
  }

  lemma {:induction false} DigitalDigits(n: nat, base: nat)
    requires 2 <= base <= 16
    ensures var d := Digital(n, base);
      && d != [] && (forall i :: 0 <= i < |d| ==> DigitValue(d[i]) < base) && (n > 0 ==> d[0] != '0')
  {
    Quotient(n, base);
    if n < base {
      DigitOfValue(n);
    } else {
      var q, r := n / base, n % base;
      DigitOfValue(r);
      DigitalDigits(q, base);
      assert Digital(n, base) == Digital(q, base) + [DigitOf(r)];
    }
  }

  lemma {:induction false} DigitalValue(n: nat, base: nat)
    requires 2 <= base <= 16
    ensures NumberOf(Digital(n, base), base) == n
  {
    Quotient(n, base);
    if n < base {
      DigitOfValue(n);
      NextValue([], DigitOf(n), base);
      assert [] + [DigitOf(n)] == [DigitOf(n)];
    } else {
      var q, r := n / base, n % base;
      DigitOfValue(r);
      DigitalValue(q, base);
      NextValue(Digital(q, base), DigitOf(r), base);
    }
  }

  lemma {:induction false} DigitsStop(d: string, base: nat, rest: string)
    requires forall i :: 0 <= i < |d| ==> DigitValue(d[i]) < base
    requires rest == [] || DigitValue(rest[0]) >= base
    ensures Digits(d + rest, base) == d
  {
    if d == [] {
      assert d + rest == rest;
    } else {
      assert (d + rest)[1..] == d[1..] + rest;
      DigitsStop(d[1..], base, rest);
    }
  }

  predicate Suffix(s: string) { s == "" || s == "u" || s == "U" || s == "l" || s == "L" || s == "ul" || s == "UL" || s == "ull" || s == "ULL" }

  lemma SuffixIsSuffix(s: string)
    requires Suffix(s)
    ensures IsSuffix(s) && (s == [] || DigitValue(s[0]) >= 16)
  {
    if |s| >= 2 { assert s[1..] == "l" || s[1..] == "L" || s[1..] == "ll" || s[1..] == "LL"; }
    if |s| == 1 { assert s[1..] == ""; }
  }

  lemma DigitalWithBase(n: nat, base: nat, suffix: string)
    requires 2 <= base <= 16 && Suffix(suffix)
    ensures WithBase(Digital(n, base) + suffix, base) == Some(n)
  {
    var d := Digital(n, base);
    DigitalValue(n, base);
    DigitalDigits(n, base);
    SuffixIsSuffix(suffix);
    DigitsStop(d, base, suffix);
    assert (d + suffix)[|d|..] == suffix;
  }

  /** Every number is read back, in decimal, */
  lemma DecimalReadBack(n: nat, suffix: string)
    requires Suffix(suffix) && n > 0
    ensures Number(Digital(n, 10) + suffix) == Some(n)
  {
    DigitalWithBase(n, 10, suffix);
    DigitalDigits(n, 10);
    assert (Digital(n, 10) + suffix)[0] == Digital(n, 10)[0];
  }

  lemma Prefixed(c: char, d: string, base: nat, n: nat)
    requires d != [] && WithBase(d, base) == Some(n)
    requires (c == 'x' && base == 16) || (c == 'b' && base == 2)
    ensures Number(['0', c] + d) == Some(n)
  {
    assert (['0', c] + d)[2..] == d;
  }

  /** in hexadecimal and binary notation, */
  lemma PrefixedReadBack(n: nat, suffix: string)
    requires Suffix(suffix)
    ensures Number(['0', 'x'] + (Digital(n, 16) + suffix)) == Some(n) == Number(['0', 'b'] + (Digital(n, 2) + suffix))
  {
    DigitalWithBase(n, 16, suffix);
    DigitalDigits(n, 16);
    Prefixed('x', Digital(n, 16) + suffix, 16, n);
    DigitalWithBase(n, 2, suffix);
    DigitalDigits(n, 2);
    Prefixed('b', Digital(n, 2) + suffix, 2, n);
  }

  /** and in octal. */
  lemma OctalReadBack(n: nat, suffix: string)
    requires Suffix(suffix)
    ensures Number(['0'] + (Digital(n, 8) + suffix)) == Some(n)
  {
    var d := Digital(n, 8);
    DigitalValue(n, 8);
    DigitalDigits(n, 8);
    ZeroAhead(d, suffix);
    assert (['0'] + (d + suffix))[1] == d[0];
  }

  lemma ZeroAhead(d: string, suffix: string)
    requires Suffix(suffix) && forall i :: 0 <= i < |d| ==> DigitValue(d[i]) < 8
    ensures WithBase(['0'] + (d + suffix), 8) == Some(NumberOf(d, 8))
  {
    var all := ['0'] + d;
    SuffixIsSuffix(suffix);
    DigitsStop(all, 8, suffix);
    assert ['0'] + (d + suffix) == all + suffix && (all + suffix)[|all|..] == suffix;
    LeadingZero(d, 8);
  }

  lemma {:induction false} LeadingZero(d: string, base: nat)
    ensures NumberOf(['0'] + d, base) == NumberOf(d, base)
  {
    var s := ['0'] + d;
    if d == [] {
      assert s[..0] == [];
    } else {
      assert s[..|s|-1] == ['0'] + d[..|d|-1];
      LeadingZero(d[..|d|-1], base);
    }
  }
}
