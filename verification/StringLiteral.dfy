/**
 The string printer of the vendored gtest (PrintCharsAsStringTo) and a reader of C++ narrow
 string literals after sections 5.13.3 and 5.13.5 of ISO C++17. The main result says what
 reading back gives for every byte string, and exactly when that is the original.
 */
module StringLiteral {
  import opened Wrappers

  type byte = b: int | 0 <= b < 256

  datatype CharFormat = AsIs | HexEscape | SpecialEscape

  // ---------------------------------------------------------------- the printer

  predicate IsPrintableAscii(c: byte) { 0x20 <= c <= 0x7E }

  predicate IsXDigit(c: byte) {
    '0' as int <= c <= '9' as int || 'a' as int <= c <= 'f' as int || 'A' as int <= c <= 'F' as int
  }

  function HexDigit(d: int): char
    requires 0 <= d < 16
  {
    if d < 10 then ('0' as int + d) as char else ('A' as int + d - 10) as char
  }

  /** `std::hex << std::uppercase`: no padding. */
  function HexText(c: byte): string {
    if c < 16 then [HexDigit(c)] else [HexDigit(c / 16), HexDigit(c % 16)]
  }

  /** PrintAsCharLiteralTo. */
  function CharLiteral(c: byte): (string, CharFormat) {
    if c == 0 then ("\\0", SpecialEscape)
    else if c == '\'' as int then ("\\'", SpecialEscape)
    else if c == '\\' as int then ("\\\\", SpecialEscape)
    else if c == 7 then ("\\a", SpecialEscape)
    else if c == 8 then ("\\b", SpecialEscape)
    else if c == 12 then ("\\f", SpecialEscape)
    else if c == 10 then ("\\n", SpecialEscape)
    else if c == 13 then ("\\r", SpecialEscape)
    else if c == 9 then ("\\t", SpecialEscape)
    else if c == 11 then ("\\v", SpecialEscape)
    else if IsPrintableAscii(c) then ([c as char], AsIs)
    else ("\\x" + HexText(c), HexEscape)
  }

  /** PrintAsStringLiteralTo. */
  function Literal(c: byte): (string, CharFormat) {
    if c == '\'' as int then ("'", AsIs)
    else if c == '"' as int then ("\\\"", SpecialEscape)
    else CharLiteral(c)
  }

  /**
   How a byte is printed: printable characters stand for themselves, but for the double quote and
   the backslash; NUL and seven control characters have an escape of a letter or digit; all others
   are hexadecimal, without leading zeros.
   */
  lemma LiteralMeaning(c: byte)
    ensures 0x20 <= c <= 0x7E && c != 0x22 && c != 0x5C ==> Literal(c) == ([c as char], AsIs)
    ensures c == 0x22 ==> Literal(c) == (['\\', '"'], SpecialEscape)
    ensures c == 0x5C ==> Literal(c) == (['\\', '\\'], SpecialEscape)
    ensures c == 0 ==> Literal(c) == (['\\', '0'], SpecialEscape)
    ensures 7 <= c <= 13 ==> Literal(c) == (['\\', "abtnvfr"[c-7]], SpecialEscape)
    ensures (0 < c < 7 || 13 < c < 0x20 || c > 0x7E) ==> Literal(c).1 == HexEscape && Literal(c).0 == ['\\', 'x'] + HexText(c)
    ensures HexText(c) == if c < 16 then ["0123456789ABCDEF"[c]] else ["0123456789ABCDEF"[c / 16], "0123456789ABCDEF"[c % 16]]
  {
    forall d | 0 <= d < 16 ensures HexDigit(d) == "0123456789ABCDEF"[d] {}
  }

  /** The rest of the output after a character; `prevHex` says whether that was a hex escape. */
  function Body(s: seq<byte>, prevHex: bool): string {
    if s == [] then "\""
    else (if prevHex && IsXDigit(s[0]) then "\" \"" else "") + Literal(s[0]).0 + Body(s[1..], Literal(s[0]).1.HexEscape?)
  }

  lemma Regroup(a: string, b: string, c: string, d: string)
    ensures a + b + c + d == a + (b + c + d)
  {
  }

  /** PrintCharsAsStringTo: the text, and whether any character needed a hex escape. */
  method PrintCharsAsStringTo(begin: seq<byte>) returns (os: string, format: CharFormat)
    ensures os == "\"" + Body(begin, false)
    ensures format == HexEscape <==> exists i :: 0 <= i < |begin| && Literal(begin[i]).1.HexEscape?
    ensures format == AsIs || format == HexEscape
  {
    os := "\"";
    var isPreviousHex := false;
    format := AsIs;
    for index := 0 to |begin|
      invariant os + Body(begin[index..], isPreviousHex) == "\"" + Body(begin, false)
      invariant format == AsIs || format == HexEscape
      invariant format == HexEscape <==> exists i :: 0 <= i < index && Literal(begin[i]).1.HexEscape?
    {
      var cur := begin[index];
      assert begin[index..][1..] == begin[index+1..];
      ghost var before, sep := os, if isPreviousHex && IsXDigit(cur) then "\" \"" else "";
      if isPreviousHex && IsXDigit(cur) {
        os := os + "\" \"";
      }
      var text := Literal(cur);
      assert os == before + sep;
      Regroup(before, sep, text.0, Body(begin[index+1..], text.1.HexEscape?));
      os := os + text.0;
      isPreviousHex := text.1.HexEscape?;
      if isPreviousHex { format := HexEscape; }
    }
    assert begin[|begin|..] == [];
    os := os + "\"";
  }

  // ---------------------------------------------------------------- the reader

  predicate HexChar(c: char) { '0' <= c <= '9' || 'a' <= c <= 'f' || 'A' <= c <= 'F' }

  function HexValueOf(c: char): int
    requires HexChar(c)
  {
    if c <= '9' then c as int - '0' as int
    else if c <= 'F' then c as int - 'A' as int + 10 else c as int - 'a' as int + 10
  }

  predicate OctChar(c: char) { '0' <= c <= '7' }

  /** The number of leading hexadecimal digits: a hex escape takes them all. */
  function HexRun(s: string): (n: nat)
    ensures n <= |s| && forall i :: 0 <= i < n ==> HexChar(s[i])
  {
    if s != [] && HexChar(s[0]) then 1 + HexRun(s[1..]) else 0
  }

  /** The number of leading octal digits, at most `max`: an octal escape takes one to three. */
  function OctRun(s: string, max: nat): (n: nat)
    ensures n <= |s| && n <= max && forall i :: 0 <= i < n ==> OctChar(s[i])
  {
    if s != [] && max > 0 && OctChar(s[0]) then 1 + OctRun(s[1..], max - 1) else 0
  }

  function HexValue(s: string): int
    requires forall i :: 0 <= i < |s| ==> HexChar(s[i])
  {
    if s == [] then 0 else 16 * HexValue(s[..|s|-1]) + HexValueOf(s[|s|-1])
  }

  function OctValue(s: string): int
    requires forall i :: 0 <= i < |s| ==> OctChar(s[i])
  {
    if s == [] then 0 else 8 * OctValue(s[..|s|-1]) + (s[|s|-1] as int - '0' as int)
  }

  /** The simple escape sequences. */
  function SimpleEscape(c: char): Option<int> {
    if c == '\'' || c == '"' || c == '?' || c == '\\' then Some(c as int)
    else if c == 'a' then Some(7)
    else if c == 'b' then Some(8)
    else if c == 'f' then Some(12)
    else if c == 'n' then Some(10)
    else if c == 'r' then Some(13)
    else if c == 't' then Some(9)
    else if c == 'v' then Some(11)
    else None
  }

  function Cons(v: int, rest: Option<seq<int>>): Option<seq<int>> {
    if 0 <= v < 256 && rest.Some? then Some([v] + rest.value) else None
  }

  /** Reads on inside a literal. */
  function Inside(s: string): Option<seq<int>>
    decreases |s|
  {
    if s == [] || s[0] == '\n' then None
    else if s[0] == '"' then Between(s[1..])
    else if s[0] != '\\' then Cons(s[0] as int, Inside(s[1..]))
    else if |s| < 2 then None
    else if s[1] == 'x' then
      var n := HexRun(s[2..]);
      if n == 0 then None else Cons(HexValue(s[2..2+n]), Inside(s[2+n..]))
    else if OctChar(s[1]) then
      var n := OctRun(s[1..], 3);
      Cons(OctValue(s[1..1+n]), Inside(s[1+n..]))
    else if SimpleEscape(s[1]).Some? then Cons(SimpleEscape(s[1]).value, Inside(s[2..]))
    else None
  }

  /** Reads on between two literals: adjacent literals are one string. */
  function Between(s: string): Option<seq<int>>
    decreases |s|
  {
    if s == [] then Some([])
    else if s[0] in " \t\n\r" then Between(s[1..])
    else if s[0] == '"' then Inside(s[1..])
    else None
  }

  function Read(s: string): Option<seq<int>> {
    if s != [] && s[0] == '"' then Inside(s[1..]) else None
  }

  // ---------------------------------------------------------------- reading back

  predicate Octal(c: byte) { '0' as int <= c <= '7' as int }

  /** What a NUL and the octal digits after it are read as: one byte. */
  function Squash(s: seq<byte>): seq<int> {
    if s == [] then []
    else if s[0] == 0 && |s| >= 2 && Octal(s[1]) then
      if |s| >= 3 && Octal(s[2])
      then [8 * (s[1] - 48) + (s[2] - 48)] + Squash(s[3..])
      else [s[1] - 48] + Squash(s[2..])
    else [s[0]] + Squash(s[1..])
  }

  /** No NUL directly followed by an octal digit. */
  predicate NoNulOctal(s: seq<byte>) {
    forall i :: 0 <= i && i + 1 < |s| && s[i] == 0 ==> !Octal(s[i+1])
  }

  lemma {:induction false} HexRunStops(h: string, rest: string)
    requires forall i :: 0 <= i < |h| ==> HexChar(h[i])
    requires rest != [] && !HexChar(rest[0])
    ensures HexRun(h + rest) == |h|
  {
    if h == [] {
      assert h + rest == rest;
    } else {
      assert (h + rest)[1..] == h[1..] + rest;
      HexRunStops(h[1..], rest);
    }
  }

  lemma HexTextValue(c: byte)
    ensures forall i :: 0 <= i < |HexText(c)| ==> HexChar(HexText(c)[i])
    ensures |HexText(c)| > 0 && HexValue(HexText(c)) == c
  {
    var h := HexText(c);
    if c < 16 {
      assert h[..0] == [];
    } else {
      assert h[..1] == [HexDigit(c / 16)] && h[..1][..0] == [];
      assert HexValue(h[..1]) == c / 16;
    }
  }

  /** After a hex escape the printed text never goes on with a hexadecimal digit: the literal is broken first. */
  lemma BreakAfterHex(s: seq<byte>)
    ensures Body(s, true) != [] && !HexChar(Body(s, true)[0])
  {
    if s != [] && !IsXDigit(s[0]) {
      var t := Literal(s[0]).0;
      assert t != [] && Body(s, true)[0] == t[0];
    }
  }

  /** Printed text starts with an octal digit exactly if the byte is one, and then it stands for itself. */
  lemma OctalStart(s: seq<byte>)
    ensures Body(s, false) != []
    ensures OctChar(Body(s, false)[0]) <==> s != [] && Octal(s[0])
    ensures s != [] && Octal(s[0]) ==> Body(s, false) == [s[0] as char] + Body(s[1..], false)
  {
    if s != [] {
      var t := Literal(s[0]).0;
      assert t != [] && Body(s, false)[0] == t[0];
    }
  }

  lemma ReadHex(c: byte, rest: string)
    requires Literal(c).1.HexEscape? && rest != [] && !HexChar(rest[0])
    ensures Inside(Literal(c).0 + rest) == Cons(c, Inside(rest))
  {
    var h := HexText(c);
    var s := "\\x" + h + rest;
    assert Literal(c).0 == "\\x" + h;
    assert s[2..] == h + rest;
    HexRunStops(h, rest);
    HexTextValue(c);
    assert s[2..2+|h|] == h && s[2+|h|..] == rest;
  }

  lemma ReadPlain(c: byte, rest: string)
    requires !Literal(c).1.HexEscape? && c != 0
    ensures Inside(Literal(c).0 + rest) == Cons(c, Inside(rest))
  {
    var t := Literal(c).0;
    var s := t + rest;
    if |t| == 1 {
      assert s[0] == c as char && s[1..] == rest;
    } else {
      assert s[0] == '\\' && s[1] == t[1] && s[2..] == rest;
    }
  }

  /** An octal escape of the digit 0 and `k` more digits. */
  lemma ReadOctal(digits: string, rest: string)
    requires 1 <= |digits| <= 3 && forall i :: 0 <= i < |digits| ==> OctChar(digits[i])
    requires |digits| == 3 || (rest != [] && !OctChar(rest[0]))
    ensures Inside("\\" + digits + rest) == Cons(OctValue(digits), Inside(rest))
  {
    var s := "\\" + digits + rest;
    assert s[1..] == digits + rest;
    OctRunStops(digits, rest, 3);
    assert s[1] == digits[0] && s[1..1+|digits|] == digits && s[1+|digits|..] == rest;
  }

  lemma {:induction false} OctRunStops(h: string, rest: string, max: nat)
    requires |h| <= max && forall i :: 0 <= i < |h| ==> OctChar(h[i])
    requires |h| == max || (rest != [] && !OctChar(rest[0]))
    ensures OctRun(h + rest, max) == |h|
  {
    if h == [] {
      assert h + rest == rest;
    } else {
      assert (h + rest)[1..] == h[1..] + rest;
      OctRunStops(h[1..], rest, max - 1);
    }
  }

  /** A NUL is printed as an octal escape, which takes up to two octal digits of what follows. */
  lemma ReadNul(s: seq<byte>)
    requires s != [] && s[0] == 0
    ensures Inside("\\0" + Body(s[1..], false)) ==
      if |s| >= 2 && Octal(s[1])
      then if |s| >= 3 && Octal(s[2])
           then Cons(8 * (s[1] - 48) + (s[2] - 48), Inside(Body(s[3..], false)))
           else Cons(s[1] - 48, Inside(Body(s[2..], false)))
      else Cons(0, Inside(Body(s[1..], false)))
  {
    var rest := Body(s[1..], false);
    OctalStart(s[1..]);
    if |s| >= 2 && Octal(s[1]) {
      assert s[1..][1..] == s[2..];
      NulDigit(s);
    } else {
      ReadOctal("0", rest);
      assert "0"[..0] == [];
      assert "\\" + "0" + rest == "\\0" + rest;
    }
  }

  lemma NulText(digits: string, all: string, rest: string)
    requires all == ['0'] + digits
    ensures "\\0" + (digits + rest) == "\\" + all + rest
  {
  }

  /** An octal escape that begins with 0, given its value. */
  lemma ReadNulEscape(digits: string, all: string, rest: string, v: int)
    requires all == ['0'] + digits && |all| <= 3 && (forall i :: 0 <= i < |all| ==> OctChar(all[i])) && OctValue(all) == v
    requires |all| == 3 || (rest != [] && !OctChar(rest[0]))
    ensures Inside("\\0" + (digits + rest)) == Cons(v, Inside(rest))
  {
    NulText(digits, all, rest);
    ReadOctal(all, rest);
  }

  lemma NulTwo(a: byte, rest: string)
    requires Octal(a) && rest != [] && !OctChar(rest[0])
    ensures Inside("\\0" + ([a as char] + rest)) == Cons(a - 48, Inside(rest))
  {
    OctTwo(a);
    ReadNulEscape([a as char], ['0', a as char], rest, a - 48);
  }

  lemma NulThree(a: byte, b: byte, rest: string)
    requires Octal(a) && Octal(b)
    ensures Inside("\\0" + ([a as char] + ([b as char] + rest))) == Cons(8 * (a - 48) + (b - 48), Inside(rest))
  {
    OctThree(a, b);
    assert [a as char] + ([b as char] + rest) == [a as char, b as char] + rest;
    ReadNulEscape([a as char, b as char], ['0', a as char, b as char], rest, 8 * (a - 48) + (b - 48));
  }

  lemma NulDigit(s: seq<byte>)
    requires |s| >= 2 && s[0] == 0 && Octal(s[1])
    ensures Inside("\\0" + ([s[1] as char] + Body(s[2..], false))) ==
      if |s| >= 3 && Octal(s[2])
      then Cons(8 * (s[1] - 48) + (s[2] - 48), Inside(Body(s[3..], false)))
      else Cons(s[1] - 48, Inside(Body(s[2..], false)))
  {
    OctalStart(s[2..]);
    if |s| >= 3 && Octal(s[2]) {
      assert s[2..][1..] == s[3..];
      NulThree(s[1], s[2], Body(s[3..], false));
    } else {
      NulTwo(s[1], Body(s[2..], false));
    }
  }

  lemma OctTwo(a: byte)
    requires Octal(a)
    ensures OctValue(['0', a as char]) == a - 48
  {
    assert ['0', a as char][..1] == ['0'] && ['0'][..0] == [];
  }

  lemma OctThree(a: byte, b: byte)
    requires Octal(a) && Octal(b)
    ensures OctValue(['0', a as char, b as char]) == 8 * (a - 48) + (b - 48)
  {
    assert ['0', a as char, b as char][..2] == ['0', a as char];
    OctTwo(a);
  }

  /** A break of the literal is read as nothing. */
  lemma ReadBreak(tail: string)
    ensures Inside("\" \"" + tail) == Inside(tail)
  {
    var s := "\" \"" + tail;
    assert s[1..] == " \"" + tail;
    assert (" \"" + tail)[1..] == "\"" + tail && ("\"" + tail)[1..] == tail;
    assert Between(" \"" + tail) == Between("\"" + tail) == Inside(tail);
  }

  /** Reading back, for every byte string: everything comes back but NULs that precede octal digits. */
  lemma {:induction false} ReadBody(s: seq<byte>, prevHex: bool)
    ensures Inside(Body(s, prevHex)) == Some(Squash(s))
    decreases |s|, if prevHex then 1 else 0
  {
    if s == [] {
      assert "\""[1..] == [];
    } else if prevHex && IsXDigit(s[0]) {
      BodyBreaks(s);
      ReadBreak(Body(s, false));
      ReadBody(s, false);
    } else if s[0] == 0 {
      BodyGoesOn(s, prevHex);
      ReadNul(s);
      if |s| >= 2 && Octal(s[1]) {
        ReadBody(if |s| >= 3 && Octal(s[2]) then s[3..] else s[2..], false);
      } else {
        ReadBody(s[1..], false);
      }
    } else {
      BodyGoesOn(s, prevHex);
      ReadOne(s);
      ReadBody(s[1..], Literal(s[0]).1.HexEscape?);
    }
  }

  lemma BodyBreaks(s: seq<byte>)
    requires s != [] && IsXDigit(s[0])
    ensures Body(s, true) == "\" \"" + Body(s, false)
  {
  }

  lemma BodyGoesOn(s: seq<byte>, prevHex: bool)
    requires s != [] && !(prevHex && IsXDigit(s[0]))
    ensures Body(s, prevHex) == Literal(s[0]).0 + Body(s[1..], Literal(s[0]).1.HexEscape?)
  {
    var text := Literal(s[0]).0;
    assert "" + text == text;
  }

  lemma ReadOne(s: seq<byte>)
    requires s != [] && s[0] != 0
    ensures var rest := Body(s[1..], Literal(s[0]).1.HexEscape?);
      Inside(Literal(s[0]).0 + rest) == Cons(s[0], Inside(rest))
  {
    var hex := Literal(s[0]).1.HexEscape?;
    if hex {
      BreakAfterHex(s[1..]);
      ReadHex(s[0], Body(s[1..], hex));
    } else {
      ReadPlain(s[0], Body(s[1..], hex));
    }
  }

  lemma NoNulOctalTail(s: seq<byte>)
    requires s != []
    ensures NoNulOctal(s) <==> !(s[0] == 0 && |s| >= 2 && Octal(s[1])) && NoNulOctal(s[1..])
  {
    var t := s[1..];
    assert forall i :: 0 <= i < |t| ==> t[i] == s[i+1];
    if NoNulOctal(s) {
      forall i | 0 <= i && i + 1 < |t| && t[i] == 0 ensures !Octal(t[i+1]) { assert !Octal(s[(i+1)+1]); }
      assert |s| >= 2 && s[0] == 0 ==> !Octal(s[0+1]);
    }
    if !NoNulOctal(s) {
      var i :| 0 <= i && i + 1 < |s| && s[i] == 0 && Octal(s[i+1]);
      if i > 0 { assert t[i-1] == 0 && Octal(t[(i-1)+1]); }
    }
  }

  lemma {:induction false} SquashShortens(s: seq<byte>)
    ensures |Squash(s)| <= |s|
    ensures !NoNulOctal(s) ==> |Squash(s)| < |s|
  {
    if s != [] {
      NoNulOctalTail(s);
      if s[0] == 0 && |s| >= 2 && Octal(s[1]) {
        SquashShortens(if |s| >= 3 && Octal(s[2]) then s[3..] else s[2..]);
      } else {
        SquashShortens(s[1..]);
      }
    }
  }

  lemma {:induction false} SquashIdentity(s: seq<byte>)
    requires NoNulOctal(s)
    ensures Squash(s) == s
  {
    if s != [] {
      NoNulOctalTail(s);
      SquashIdentity(s[1..]);
    }
  }

  /**
   Reading the printed text as adjacent C++ literals gives back the printed bytes if and only
   if no NUL is directly followed by an octal digit.
   */
  lemma RoundTrip(s: seq<byte>)
    ensures Read("\"" + Body(s, false)) == Some(Squash(s))
    ensures Read("\"" + Body(s, false)) == Some(s) <==> NoNulOctal(s)
  {
    assert ("\"" + Body(s, false))[1..] == Body(s, false);
    ReadBody(s, false);
    if NoNulOctal(s) { SquashIdentity(s); } else { SquashShortens(s); }
  }
}
