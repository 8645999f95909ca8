/**
 The UTF-8 recogniser of the vendored gtest, against the encoding of section 3 and the
 syntax of section 4 of RFC 3629: it accepts exactly the encodings of scalar values.
 */
module Utf8 {
  import opened StringLiteral

  // ---------------------------------------------------------------- the standard

  /** A code point that is not a surrogate. */
  predicate Scalar(c: int) { 0 <= c <= 0x10FFFF && !(0xD800 <= c <= 0xDFFF) }

  function Encode(c: int): seq<byte>
    requires Scalar(c)
  {
    if c < 0x80 then [c]
    else if c < 0x800 then [0xC0 + c / 0x40, 0x80 + c % 0x40]
    else if c < 0x10000 then [0xE0 + c / 0x1000, 0x80 + c / 0x40 % 0x40, 0x80 + c % 0x40]
    else [0xF0 + c / 0x40000, 0x80 + c / 0x1000 % 0x40, 0x80 + c / 0x40 % 0x40, 0x80 + c % 0x40]
  }

  ghost predicate Scalars(cs: seq<int>) { forall i :: 0 <= i < |cs| ==> Scalar(cs[i]) }

  ghost function EncodeAll(cs: seq<int>): seq<byte>
    requires Scalars(cs)
  {
    if cs == [] then [] else Encode(cs[0]) + EncodeAll(cs[1..])
  }

  ghost predicate IsUtf8(s: seq<byte>) {
    exists cs :: Scalars(cs) && EncodeAll(cs) == s
  }

  // ---------------------------------------------------------------- the recogniser

  predicate IsUTF8TrailByte(t: byte) { 0x80 <= t <= 0xBF }

  /** The length of the character at the head of `s`, or 0 if there is none. */
  function HeadLength(s: seq<byte>): (n: nat)
    ensures n <= |s|
  {
    if s == [] then 0
    else if s[0] <= 0x7F then 1
    else if s[0] < 0xC2 then 0
    else if s[0] <= 0xDF && 2 <= |s| && IsUTF8TrailByte(s[1]) then 2
    else if 0xE0 <= s[0] <= 0xEF && 3 <= |s| && IsUTF8TrailByte(s[1]) && IsUTF8TrailByte(s[2])
      && (s[0] != 0xE0 || s[1] >= 0xA0) && (s[0] != 0xED || s[1] < 0xA0) then 3
    else if 0xF0 <= s[0] <= 0xF4 && 4 <= |s| && IsUTF8TrailByte(s[1]) && IsUTF8TrailByte(s[2]) && IsUTF8TrailByte(s[3])
      && (s[0] != 0xF0 || s[1] >= 0x90) && (s[0] != 0xF4 || s[1] < 0x90) then 4
    else 0
  }

  ghost predicate Accepts(s: seq<byte>)
    decreases |s|
  {
    s == [] || (HeadLength(s) > 0 && Accepts(s[HeadLength(s)..]))
  }

  /** IsValidUTF8. Every access stays below the length. */
  method IsValidUTF8(s: seq<byte>) returns (valid: bool)
    ensures valid <==> IsUtf8(s)
  {
    AcceptsExactly(s);
    var length := |s|;
    var i := 0;
    while i < length
      invariant 0 <= i <= length
      invariant Accepts(s[i..]) == Accepts(s)
      decreases length - i
    {
      ghost var at := i;
      var lead := s[i];
      i := i + 1;
      if lead <= 0x7F {
      } else if lead < 0xC2 {
        return false;
      } else if lead <= 0xDF && i + 1 <= length && IsUTF8TrailByte(s[i]) {
        i := i + 1;
      } else if 0xE0 <= lead <= 0xEF && i + 2 <= length && IsUTF8TrailByte(s[i]) && IsUTF8TrailByte(s[i+1])
        && (lead != 0xE0 || s[i] >= 0xA0) && (lead != 0xED || s[i] < 0xA0) {
        i := i + 2;
      } else if 0xF0 <= lead <= 0xF4 && i + 3 <= length
        && IsUTF8TrailByte(s[i]) && IsUTF8TrailByte(s[i+1]) && IsUTF8TrailByte(s[i+2])
        && (lead != 0xF0 || s[i] >= 0x90) && (lead != 0xF4 || s[i] < 0x90) {
        i := i + 3;
      } else {
        return false;
      }
      assert HeadLength(s[at..]) == i - at;
      assert s[at..][i - at..] == s[i..];
    }
    assert s[i..] == [];
    valid := true;
  }

  // ---------------------------------------------------------------- exactness

  /** The code point of an accepted head. */
  function Decode(s: seq<byte>): int
    requires HeadLength(s) > 0
  {
    var n, a: int := HeadLength(s), s[0];
    if n == 1 then a
    else
      var b: int := s[1] - 0x80;
      if n == 2 then (a - 0xC0) * 0x40 + b
      else
        var c: int := s[2] - 0x80;
        if n == 3 then (a - 0xE0) * 0x1000 + b * 0x40 + c
        else
          var d: int := s[3] - 0x80;
          (a - 0xF0) * 0x40000 + b * 0x1000 + c * 0x40 + d
  }

  /** The base-64 digits of a code point. */
  lemma Digits(a: int, b: int, c: int, d: int)
    requires a >= 0 && 0 <= b < 0x40 && 0 <= c < 0x40 && 0 <= d < 0x40
    ensures var v := a * 0x40000 + b * 0x1000 + c * 0x40 + d;
      v / 0x40000 == a && v / 0x1000 % 0x40 == b && v / 0x40 % 0x40 == c && v % 0x40 == d
  {
    var v := a * 0x40000 + b * 0x1000 + c * 0x40 + d;
    assert v / 0x40 == a * 0x1000 + b * 0x40 + c;
    assert v / 0x1000 == a * 0x40 + b;
  }

  lemma TwoByteHead(s: seq<byte>)
    requires HeadLength(s) == 2
    ensures Scalar(Decode(s)) && Encode(Decode(s)) == s[..2]
  {
    Digits(0, 0, s[0] - 0xC0, s[1] - 0x80);
  }

  lemma ThreeByteHead(s: seq<byte>)
    requires HeadLength(s) == 3
    ensures Scalar(Decode(s)) && Encode(Decode(s)) == s[..3]
  {
    Digits(0, s[0] - 0xE0, s[1] - 0x80, s[2] - 0x80);
    var v := Decode(s);
    assert v / 0x1000 == s[0] - 0xE0;
  }

  lemma FourByteHead(s: seq<byte>)
    requires HeadLength(s) == 4
    ensures Scalar(Decode(s)) && Encode(Decode(s)) == s[..4]
  {
    Digits(s[0] - 0xF0, s[1] - 0x80, s[2] - 0x80, s[3] - 0x80);
  }

  /** An accepted head is the encoding of a scalar value. */
  lemma HeadIsEncoding(s: seq<byte>)
    requires HeadLength(s) > 0
    ensures Scalar(Decode(s)) && Encode(Decode(s)) == s[..HeadLength(s)]
  {
    match HeadLength(s)
    case 1 =>
    case 2 => TwoByteHead(s);
    case 3 => ThreeByteHead(s);
    case _ => FourByteHead(s);
  }

  /** The encoding of a scalar value is an accepted head. */
  lemma EncodingIsHead(c: int, rest: seq<byte>)
    requires Scalar(c)
    ensures HeadLength(Encode(c) + rest) == |Encode(c)|
  {
  }

  lemma {:induction false} AcceptedIsUtf8(s: seq<byte>) returns (cs: seq<int>)
    requires Accepts(s)
    ensures Scalars(cs) && EncodeAll(cs) == s
    decreases |s|
  {
    if s == [] {
      cs := [];
    } else {
      var n, c := HeadLength(s), Decode(s);
      HeadIsEncoding(s);
      var rest := AcceptedIsUtf8(s[n..]);
      cs := [c] + rest;
      assert cs[0] == c && cs[1..] == rest;
      assert s == s[..n] + s[n..];
    }
  }

  lemma {:induction false} Utf8IsAccepted(cs: seq<int>)
    requires Scalars(cs)
    ensures Accepts(EncodeAll(cs))
    decreases |cs|
  {
    if cs != [] {
      Utf8IsAccepted(cs[1..]);
      var rest := EncodeAll(cs[1..]);
      EncodingIsHead(cs[0], rest);
      assert (Encode(cs[0]) + rest)[|Encode(cs[0])|..] == rest;
    }
  }

  /** The recogniser accepts exactly the encodings. */
  lemma AcceptsExactly(s: seq<byte>)
    ensures Accepts(s) <==> IsUtf8(s)
  {
    if Accepts(s) { var cs := AcceptedIsUtf8(s); }
    if IsUtf8(s) {
      var cs :| Scalars(cs) && EncodeAll(cs) == s;
      Utf8IsAccepted(cs);
    }
  }
}
