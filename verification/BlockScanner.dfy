/**
 The brace scanners of the native code generator: removal of quantized registration blocks
 and extraction of a balanced block.
 */
module BlockScanner {
  import opened Strings
  import opened Picks

  // ---------------------------------------------------------------- text

  function Count(s: string, c: char): nat {
    if s == [] then 0 else Count(s[..|s|-1], c) + if s[|s|-1] == c then 1 else 0
  }

  /** Opening minus closing braces. */
  function Delta(line: string): int { Count(line, '{') - Count(line, '}') }

  function Join(lines: seq<string>): string {
    if lines == [] then [] else Join(lines[..|lines|-1]) + lines[|lines|-1]
  }

  const HEADER := "TORCH_LIBRARY_IMPL(aten, QuantizedPrivateUse1, m)"

  predicate IsHeader(line: string) { Occurs(HEADER, line) }

  /** The block registers one of the operators. */
  predicate Names(block: seq<string>, ops: set<string>) {
    exists op :: op in ops && Occurs("m.impl(\"" + op + "\"", Join(block))
  }

  // ---------------------------------------------------------------- segments

  /** A file is cut into lines outside blocks and whole registration blocks. */
  datatype Segment = Plain(line: string) | Block(lines: seq<string>)

  predicate HasOpening(line: string) { Count(line, '{') > 0 }

  /**
   How many lines belong to a block whose braces stand at `depth`: up to and with the first one
   that brings the depth to 0 once a brace was opened (`begun`).
   */
  function TailLength(lines: seq<string>, depth: int, begun: bool): (n: nat)
    ensures n <= |lines|
  {
    if lines == [] then 0
    else if (begun || HasOpening(lines[0])) && depth + Delta(lines[0]) <= 0 then 1
    else 1 + TailLength(lines[1..], depth + Delta(lines[0]), begun || HasOpening(lines[0]))
  }

  /**
   Two ways to read a block off its header line: as C++ braces have it (Braces), and as the
   scanner does (Scanned), which always takes a line behind the header and never asks whether
   a brace was opened.
   */
  datatype Reading = Braces | Scanned

  function BlockLength(lines: seq<string>, rd: Reading): (n: nat)
    requires lines != []
    ensures 1 <= n <= |lines|
  {
    if rd.Braces? && HasOpening(lines[0]) && Delta(lines[0]) <= 0 then 1
    else 1 + TailLength(lines[1..], Delta(lines[0]), rd.Scanned? || HasOpening(lines[0]))
  }

  function Segments(lines: seq<string>, rd: Reading): seq<Segment>
    decreases |lines|
  {
    if lines == [] then []
    else if IsHeader(lines[0]) then
      [Block(lines[..BlockLength(lines, rd)])] + Segments(lines[BlockLength(lines, rd)..], rd)
    else [Plain(lines[0])] + Segments(lines[1..], rd)
  }

  function LinesOf(s: Segment): seq<string> { if s.Plain? then [s.line] else s.lines }

  function Flatten(segs: seq<Segment>): seq<string> {
    if segs == [] then [] else LinesOf(segs[0]) + Flatten(segs[1..])
  }

  predicate Dropped(s: Segment, drop: seq<string> -> bool) { s.Block? && drop(s.lines) }

  function Keep(segs: seq<Segment>, drop: seq<string> -> bool): seq<Segment> {
    if segs == [] then []
    else if Dropped(segs[0], drop) then Keep(segs[1..], drop)
    else [segs[0]] + Keep(segs[1..], drop)
  }

  function NamesAny(ops: set<string>): seq<string> -> bool { (block: seq<string>) => Names(block, ops) }

  function Strip(lines: seq<string>, ops: set<string>): seq<string> {
    if ops == {} then lines else Kept(lines, NamesAny(ops))
  }

  /** strip_quantized_registration_blocks. */
  method StripQuantizedRegistrationBlocks(lines: seq<string>, ops: set<string>) returns (result: seq<string>)
    ensures result == Strip(lines, ops)
  {
    if ops == {} { return lines; }
    result := KeepLines(lines, NamesAny(ops));
  }

  /** The outer loop. */
  method KeepLines(lines: seq<string>, drop: seq<string> -> bool) returns (result: seq<string>)
    ensures result == Kept(lines, drop)
  {
    result := [];
    var idx := 0;
    NothingDone(lines, drop);
    while idx < |lines|
      invariant Done(lines, idx, drop, result)
      decreases |lines| - idx
    {
      var line := lines[idx];
      if !IsHeader(line) {
        StepPlain(lines, idx, drop, result);
        result := result + [line];
        idx := idx + 1;
      } else {
        var block := ReadBlock(lines, idx);
        StepBlock(lines, idx, drop, result, block);
        if !drop(block) { result := result + block; }
        idx := idx + |block|;
      }
    }
    AllDone(lines, drop, result);
  }

  /** The lines before `idx` are dealt with. */
  ghost predicate Done(lines: seq<string>, idx: nat, drop: seq<string> -> bool, result: seq<string>) {
    idx <= |lines| && result + Kept(lines[idx..], drop) == Kept(lines, drop)
  }

  lemma NothingDone(lines: seq<string>, drop: seq<string> -> bool)
    ensures Done(lines, 0, drop, [])
  {
    assert lines[0..] == lines;
  }

  lemma AllDone(lines: seq<string>, drop: seq<string> -> bool, result: seq<string>)
    requires Done(lines, |lines|, drop, result)
    ensures result == Kept(lines, drop)
  {
    assert lines[|lines|..] == [] && Kept([], drop) == [];
  }

  lemma Regroup(a: seq<string>, b: seq<string>, c: seq<string>)
    ensures a + b + c == a + (b + c)
  {
  }

  lemma StepPlain(lines: seq<string>, idx: nat, drop: seq<string> -> bool, result: seq<string>)
    requires idx < |lines| && !IsHeader(lines[idx]) && Done(lines, idx, drop, result)
    ensures Done(lines, idx + 1, drop, result + [lines[idx]])
  {
    KeptPlain(lines[idx..], drop);
    assert lines[idx..][1..] == lines[idx+1..];
    Regroup(result, [lines[idx]], Kept(lines[idx+1..], drop));
  }

  lemma StepBlock(lines: seq<string>, idx: nat, drop: seq<string> -> bool, result: seq<string>, block: seq<string>)
    requires idx < |lines| && IsHeader(lines[idx]) && block == lines[idx..][..BlockLength(lines[idx..], Scanned)]
    requires Done(lines, idx, drop, result)
    ensures block != [] && Done(lines, idx + |block|, drop, if drop(block) then result else result + block)
  {
    var n := BlockLength(lines[idx..], Scanned);
    KeptBlock(lines[idx..], drop);
    assert lines[idx..][n..] == lines[idx+n..];
    Regroup(result, block, Kept(lines[idx+n..], drop));
  }

  /** What is kept of the lines. */
  function Kept(lines: seq<string>, drop: seq<string> -> bool): seq<string> { Flatten(Keep(Segments(lines, Scanned), drop)) }

  lemma KeptPlain(lines: seq<string>, drop: seq<string> -> bool)
    requires lines != [] && !IsHeader(lines[0])
    ensures Kept(lines, drop) == [lines[0]] + Kept(lines[1..], drop)
  {
    var tail := Segments(lines[1..], Scanned);
    assert ([Plain(lines[0])] + tail)[1..] == tail;
    var kept := Keep(tail, drop);
    assert ([Plain(lines[0])] + kept)[1..] == kept;
  }

  lemma KeptBlock(lines: seq<string>, drop: seq<string> -> bool)
    requires lines != [] && IsHeader(lines[0])
    ensures var n := BlockLength(lines, Scanned); var block := lines[..n];
      Kept(lines, drop) == if drop(block) then Kept(lines[n..], drop) else block + Kept(lines[n..], drop)
  {
    var n := BlockLength(lines, Scanned);
    var head, tail := Block(lines[..n]), Segments(lines[n..], Scanned);
    assert ([head] + tail)[1..] == tail;
    var kept := Keep(tail, drop);
    assert ([head] + kept)[1..] == kept;
  }

  /** The inner loop: a header line and what belongs to it. */
  method ReadBlock(lines: seq<string>, start: nat) returns (block: seq<string>)
    requires start < |lines|
    ensures block == lines[start..][..BlockLength(lines[start..], Scanned)]
  {
    ghost var rest := lines[start..];
    block := [lines[start]];
    var idx := start + 1;
    var depth := Delta(lines[start]);
    assert rest[1..] == lines[idx..];
    while idx < |lines|
      invariant start < idx <= |lines| && block == lines[start..idx]
      invariant BlockLength(rest, Scanned) == idx - start + TailLength(lines[idx..], depth, true)
      decreases |lines| - idx
    {
      assert lines[idx..][1..] == lines[idx+1..];
      block := block + [lines[idx]];
      depth := depth + Delta(lines[idx]);
      idx := idx + 1;
      if depth <= 0 {
        assert BlockLength(rest, Scanned) == idx - start;
        break;
      }
    }
    assert rest[..idx - start] == lines[start..idx];
  }

  // ---------------------------------------------------------------- what the segments mean

  lemma FlattenCons(head: Segment, tail: seq<Segment>)
    ensures Flatten([head] + tail) == LinesOf(head) + Flatten(tail)
  {
    assert ([head] + tail)[1..] == tail;
  }

  lemma FirstCut(lines: seq<string>, rd: Reading) returns (head: Segment, n: nat)
    requires lines != []
    ensures 1 <= n <= |lines| && LinesOf(head) == lines[..n]
    ensures Segments(lines, rd) == [head] + Segments(lines[n..], rd)
  {
    if IsHeader(lines[0]) {
      n := BlockLength(lines, rd);
      head := Block(lines[..n]);
    } else {
      n, head := 1, Plain(lines[0]);
    }
  }

  /** Cutting and joining again gives the file back. */
  lemma {:induction false} SegmentsFlatten(lines: seq<string>, rd: Reading)
    ensures Flatten(Segments(lines, rd)) == lines
    decreases |lines|
  {
    if lines != [] {
      var head, n := FirstCut(lines, rd);
      var tail := Segments(lines[n..], rd);
      SegmentsFlatten(lines[n..], rd);
      FlattenCons(head, tail);
      assert lines[..n] + lines[n..] == lines;
    }
  }

  /** The lines close the block with the last of them and not before. */
  predicate Closes(lines: seq<string>, depth: int, begun: bool) {
    && lines != []
    && var d, o := depth + Delta(lines[0]), begun || HasOpening(lines[0]);
    if o && d <= 0 then |lines| == 1 else Closes(lines[1..], d, o)
  }

  /** The lines never close the block. */
  predicate StaysOpen(lines: seq<string>, depth: int, begun: bool) {
    lines == [] ||
    var d, o := depth + Delta(lines[0]), begun || HasOpening(lines[0]);
    !(o && d <= 0) && StaysOpen(lines[1..], d, o)
  }

  lemma {:induction false} TailIs(lines: seq<string>, depth: int, begun: bool)
    ensures var n := TailLength(lines, depth, begun);
      Closes(lines[..n], depth, begun) || (n == |lines| && StaysOpen(lines, depth, begun))
  {
    if lines != [] {
      var d, o := depth + Delta(lines[0]), begun || HasOpening(lines[0]);
      if !(o && d <= 0) {
        TailIs(lines[1..], d, o);
        var n := TailLength(lines, depth, begun);
        assert lines[..n][1..] == lines[1..][..n-1];
      }
    }
  }

  lemma {:induction false} ClosedTail(lines: seq<string>, depth: int, begun: bool, more: seq<string>)
    requires Closes(lines, depth, begun)
    ensures TailLength(lines + more, depth, begun) == |lines|
  {
    assert (lines + more)[0] == lines[0] && (lines + more)[1..] == lines[1..] + more;
    var d, o := depth + Delta(lines[0]), begun || HasOpening(lines[0]);
    if !(o && d <= 0) { ClosedTail(lines[1..], d, o, more); }
  }

  lemma {:induction false} OpenTail(lines: seq<string>, depth: int, begun: bool)
    requires StaysOpen(lines, depth, begun)
    ensures TailLength(lines, depth, begun) == |lines|
  {
    if lines != [] { OpenTail(lines[1..], depth + Delta(lines[0]), begun || HasOpening(lines[0])); }
  }

  /** `b` is a whole block, as `rd` has it. */
  predicate WholeBlock(b: seq<string>, rd: Reading) {
    && b != []
    && if rd.Braces? && HasOpening(b[0]) && Delta(b[0]) <= 0 then |b| == 1
       else Closes(b[1..], Delta(b[0]), rd.Scanned? || HasOpening(b[0]))
  }

  /** `b` begins a block that never closes. */
  predicate OpenBlock(b: seq<string>, rd: Reading) {
    && b != [] && !(rd.Braces? && HasOpening(b[0]) && Delta(b[0]) <= 0)
    && StaysOpen(b[1..], Delta(b[0]), rd.Scanned? || HasOpening(b[0]))
  }

  lemma BlockIsWhole(lines: seq<string>, rd: Reading)
    requires lines != []
    ensures var n := BlockLength(lines, rd); WholeBlock(lines[..n], rd) || (n == |lines| && OpenBlock(lines, rd))
  {
    TailIs(lines[1..], Delta(lines[0]), rd.Scanned? || HasOpening(lines[0]));
    var n := BlockLength(lines, rd);
    assert lines[..n][1..] == lines[1..][..n-1];
  }

  /** A list of segments as a reading cuts it: only the last block may lack its closing brace. */
  predicate Cut(segs: seq<Segment>, rd: Reading) {
    segs == [] ||
    match segs[0]
    case Plain(line) => !IsHeader(line) && Cut(segs[1..], rd)
    case Block(b) =>
      && b != [] && IsHeader(b[0]) && Cut(segs[1..], rd)
      && (WholeBlock(b, rd) || (|segs| == 1 && OpenBlock(b, rd)))
  }

  lemma {:induction false} SegmentsAreCut(lines: seq<string>, rd: Reading)
    ensures Cut(Segments(lines, rd), rd)
    decreases |lines|
  {
    if lines != [] {
      var n := if IsHeader(lines[0]) then BlockLength(lines, rd) else 1;
      var head := if IsHeader(lines[0]) then Block(lines[..n]) else Plain(lines[0]);
      SegmentsAreCut(lines[n..], rd);
      assert ([head] + Segments(lines[n..], rd))[1..] == Segments(lines[n..], rd);
      if IsHeader(lines[0]) {
        BlockIsWhole(lines, rd);
        if n == |lines| { assert lines[n..] == [] && lines[..n] == lines; }
      }
    }
  }

  lemma {:induction false} KeepIsCut(segs: seq<Segment>, drop: seq<string> -> bool, rd: Reading)
    requires Cut(segs, rd)
    ensures Cut(Keep(segs, drop), rd)
  {
    if segs != [] {
      KeepIsCut(segs[1..], drop, rd);
      var kept := Keep(segs[1..], drop);
      assert ([segs[0]] + kept)[1..] == kept;
      if |segs| == 1 { assert segs[1..] == [] && kept == []; }
    }
  }

  lemma BlockAgain(b: seq<string>, rest: seq<string>, rd: Reading)
    requires WholeBlock(b, rd) || (rest == [] && OpenBlock(b, rd))
    ensures BlockLength(b + rest, rd) == |b|
  {
    assert (b + rest)[0] == b[0] && (b + rest)[1..] == b[1..] + rest;
    var begun := rd.Scanned? || HasOpening(b[0]);
    if Closes(b[1..], Delta(b[0]), begun) {
      ClosedTail(b[1..], Delta(b[0]), begun, rest);
    } else if StaysOpen(b[1..], Delta(b[0]), begun) && rest == [] {
      assert b[1..] + rest == b[1..];
      OpenTail(b[1..], Delta(b[0]), begun);
    }
  }

  /** A cut list is found again when its lines are cut anew. */
  lemma {:induction false} CutAgain(segs: seq<Segment>, rd: Reading)
    requires Cut(segs, rd)
    ensures Segments(Flatten(segs), rd) == segs
  {
    if segs != [] {
      var rest := Flatten(segs[1..]);
      CutAgain(segs[1..], rd);
      match segs[0]
      case Plain(line) =>
        assert ([line] + rest)[1..] == rest;
      case Block(b) =>
        var lines := b + rest;
        BlockAgain(b, rest, rd);
        assert lines[..|b|] == b && lines[|b|..] == rest;
    }
  }

  /** The scanner's segments of the result are those of the input without the ones that name an operator. */
  lemma StripKeepsSegments(lines: seq<string>, ops: set<string>)
    requires ops != {}
    ensures Segments(Strip(lines, ops), Scanned) == Keep(Segments(lines, Scanned), NamesAny(ops))
  {
    SegmentsAreCut(lines, Scanned);
    KeepIsCut(Segments(lines, Scanned), NamesAny(ops), Scanned);
    CutAgain(Keep(Segments(lines, Scanned), NamesAny(ops)), Scanned);
  }

  lemma {:induction false} KeepTwice(segs: seq<Segment>, drop: seq<string> -> bool)
    ensures Keep(Keep(segs, drop), drop) == Keep(segs, drop)
    ensures forall i :: 0 <= i < |Keep(segs, drop)| ==> !Dropped(Keep(segs, drop)[i], drop)
  {
    if segs != [] {
      KeepTwice(segs[1..], drop);
      var kept := Keep(segs[1..], drop);
      assert ([segs[0]] + kept)[1..] == kept;
    }
  }

  /** Stripping twice is stripping once. */
  lemma StripIsIdempotent(lines: seq<string>, ops: set<string>)
    ensures Strip(Strip(lines, ops), ops) == Strip(lines, ops)
  {
    if ops != {} {
      StripKeepsSegments(lines, ops);
      KeepTwice(Segments(lines, Scanned), NamesAny(ops));
    }
  }

  // ---------------------------------------------------------------- what a block is

  function DeltaOf(lines: seq<string>): int {
    if lines == [] then 0 else Delta(lines[0]) + DeltaOf(lines[1..])
  }

  predicate AnyOpening(lines: seq<string>) { exists i :: 0 <= i < |lines| && HasOpening(lines[i]) }

  /** The first `n` lines have opened a brace and closed all they opened. */
  ghost predicate ClosedBy(lines: seq<string>, n: nat)
    requires n <= |lines|
  {
    AnyOpening(lines[..n]) && DeltaOf(lines[..n]) <= 0
  }

  /** `n` is the first line by which a brace was opened and all are closed, or the end. */
  ghost predicate IsBlockEnd(lines: seq<string>, n: nat) {
    && n <= |lines| && (forall k: nat {:trigger ClosedBy(lines, k)} :: k < n ==> !ClosedBy(lines, k))
    && (n == |lines| || ClosedBy(lines, n))
  }

  /** The same for lines behind others with this depth. */
  ghost predicate ClosedFrom(lines: seq<string>, depth: int, begun: bool, n: nat)
    requires n <= |lines|
  {
    (begun || AnyOpening(lines[..n])) && depth + DeltaOf(lines[..n]) <= 0
  }

  lemma ClosedFromNext(lines: seq<string>, depth: int, begun: bool, n: nat)
    requires 0 < n <= |lines|
    ensures ClosedFrom(lines, depth, begun, n)
      <==> ClosedFrom(lines[1..], depth + Delta(lines[0]), begun || HasOpening(lines[0]), n - 1)
  {
    var a, b := lines[..n], lines[1..][..n-1];
    assert a[0] == lines[0] && a[1..] == b;
    if AnyOpening(a) && !HasOpening(a[0]) {
      var i :| 0 <= i < |a| && HasOpening(a[i]);
      assert b[i-1] == a[i];
    }
    if i :| 0 <= i < |b| && HasOpening(b[i]) { assert a[i+1] == b[i]; }
  }

  lemma {:induction false} TailMeaning(lines: seq<string>, depth: int, begun: bool)
    ensures var n := TailLength(lines, depth, begun);
      && (forall k: nat {:trigger ClosedFrom(lines, depth, begun, k)} :: 0 < k < n ==> !ClosedFrom(lines, depth, begun, k))
      && (n == |lines| || (n > 0 && ClosedFrom(lines, depth, begun, n)))
  {
    if lines != [] {
      var d, o, n := depth + Delta(lines[0]), begun || HasOpening(lines[0]), TailLength(lines, depth, begun);
      assert ClosedFrom(lines[1..], d, o, 0) <==> o && d <= 0 by { assert lines[1..][..0] == []; }
      if !(o && d <= 0) { TailMeaning(lines[1..], d, o); }
      forall k: nat | 0 < k < n ensures !ClosedFrom(lines, depth, begun, k) { ClosedFromNext(lines, depth, begun, k); }
      ClosedFromNext(lines, depth, begun, n);
    }
  }

  /** Read by braces, a block runs from its header to the first line by which a brace was opened and all are closed. */
  lemma BlockMeaning(lines: seq<string>)
    requires lines != []
    ensures IsBlockEnd(lines, BlockLength(lines, Braces))
  {
    var n := BlockLength(lines, Braces);
    var d, o := Delta(lines[0]), HasOpening(lines[0]);
    TailMeaning(lines[1..], d, o);
    forall k: nat | k <= |lines| ensures ClosedBy(lines, k) == ClosedFrom(lines, 0, false, k) {}
    forall k: nat | 0 < k <= |lines| ensures ClosedBy(lines, k) == ClosedFrom(lines[1..], d, o, k - 1) {
      ClosedFromNext(lines, 0, false, k);
    }
    assert lines[..0] == [];
    assert ClosedFrom(lines[1..], d, o, 0) <==> o && d <= 0 by { assert lines[1..][..0] == []; }
  }

  /** The header's braces leave the scanner the right block, whatever stands in the lines behind the next. */
  predicate HeaderOk(lines: seq<string>)
    requires lines != []
  {
    || |lines| == 1 || Delta(lines[0]) > 0
    || (!HasOpening(lines[0]) && (|lines| == 2 || HasOpening(lines[1])))
  }

  /**
   The scanner takes the right block if and only if nothing follows the header, or the header
   leaves a brace open, or it has no opening brace and then nothing or one behind the next line.
   */
  lemma SameBlockIff(lines: seq<string>)
    requires lines != []
    ensures BlockLength(lines, Scanned) == BlockLength(lines, Braces) <==> HeaderOk(lines)
  {
    NoOpeningNoRise(lines[0]);
    if |lines| > 1 {
      NoOpeningNoRise(lines[1]);
      var d := Delta(lines[0]) + Delta(lines[1]);
      assert lines[1..][1..] == lines[2..] && lines[1..][0] == lines[1];
      if |lines| > 2 { assert TailLength(lines[2..], d, false) >= 1; }
    }
  }

  lemma NoOpeningNoRise(line: string)
    ensures !HasOpening(line) ==> Delta(line) <= 0
    ensures Delta(line) > 0 ==> HasOpening(line)
  {
  }

  /** Every header that the reading by braces meets is of that kind. */
  predicate HeadersOk(lines: seq<string>)
    decreases |lines|
  {
    lines == [] ||
    if IsHeader(lines[0]) then HeaderOk(lines) && HeadersOk(lines[BlockLength(lines, Braces)..])
    else HeadersOk(lines[1..])
  }

  lemma FirstSegment(lines: seq<string>, rd: Reading)
    requires lines != [] && IsHeader(lines[0])
    ensures var n := BlockLength(lines, rd);
      && Segments(lines, rd) != [] && Segments(lines, rd)[0] == Block(lines[..n])
      && Segments(lines, rd)[1..] == Segments(lines[n..], rd)
  {
  }

  /** The scanner's segments are the right ones if and only if that holds of every header. */
  lemma {:induction false} SegmentsRightIff(lines: seq<string>)
    ensures Segments(lines, Scanned) == Segments(lines, Braces) <==> HeadersOk(lines)
    decreases |lines|
  {
    if lines != [] {
      if IsHeader(lines[0]) {
        var n, m := BlockLength(lines, Braces), BlockLength(lines, Scanned);
        FirstSegment(lines, Scanned);
        FirstSegment(lines, Braces);
        SameBlockIff(lines);
        if m == n { SegmentsRightIff(lines[n..]); } else { assert |lines[..m]| != |lines[..n]|; }
      } else {
        SegmentsRightIff(lines[1..]);
        var a, b := Segments(lines[1..], Scanned), Segments(lines[1..], Braces);
        assert ([Plain(lines[0])] + a)[1..] == a && ([Plain(lines[0])] + b)[1..] == b;
      }
    }
  }

  // ---------------------------------------------------------------- what stripping does to blocks

  /** If every header is right, the result's blocks are the input's without those that name an operator. */
  lemma StripKeepsBlocks(lines: seq<string>, ops: set<string>)
    requires ops != {} && HeadersOk(lines)
    ensures Segments(Strip(lines, ops), Braces) == Keep(Segments(lines, Braces), NamesAny(ops))
  {
    SegmentsRightIff(lines);
    SegmentsAreCut(lines, Braces);
    KeepIsCut(Segments(lines, Braces), NamesAny(ops), Braces);
    CutAgain(Keep(Segments(lines, Braces), NamesAny(ops)), Braces);
  }

  /** The text of a block is its lines one behind the other. */
  lemma {:induction false} JoinCons(line: string, rest: seq<string>)
    ensures Join([]) == "" && Join([line] + rest) == line + Join(rest)
  {
    var all := [line] + rest;
    if rest == [] {
      assert all == [line] && all[..0] == [];
      assert Join(all) == [] + line == line + [];
    } else {
      assert all[..|all|-1] == [line] + rest[..|rest|-1];
      JoinCons(line, rest[..|rest|-1]);
    }
  }

  /** Keeping takes the segments that are not dropped, in order. */
  lemma {:induction false} KeepPlaces(segs: seq<Segment>, drop: seq<string> -> bool) returns (at: seq<nat>)
    ensures Picked(segs, at, Keep(segs, drop)) && forall k: nat :: k < |segs| ==> (k in at <==> !Dropped(segs[k], drop))
  {
    at := [];
    if segs != [] {
      var tail := segs[1..];
      var rest := KeepPlaces(tail, drop);
      PickBehind(segs[0], tail, rest, Keep(tail, drop));
      assert segs == [segs[0]] + tail;
      at := if Dropped(segs[0], drop) then Shift(rest) else [0] + Shift(rest);
      forall k: nat | k < |segs| ensures k in at <==> !Dropped(segs[k], drop) {
        if k > 0 {
          assert segs[k] == tail[k-1];
          ShiftElement(rest, k - 1);
        } else {
          ShiftElement(rest, 0);
        }
      }
    }
  }

  /** No line of the block's text registers any of the operators. */
  ghost predicate RegistersNone(block: seq<string>, ops: set<string>) {
    forall op, i: nat :: op in ops && i <= |Join(block)| ==> !("m.impl(\"" + op + "\"" <= Join(block)[i..])
  }

  lemma NamesMeaning(block: seq<string>, ops: set<string>)
    ensures !NamesAny(ops)(block) <==> RegistersNone(block, ops)
  {
    forall op | op in ops
      ensures Occurs("m.impl(\"" + op + "\"", Join(block)) <==>
        exists i: nat :: i <= |Join(block)| && "m.impl(\"" + op + "\"" <= Join(block)[i..]
    {
      OccursIff("m.impl(\"" + op + "\"", Join(block));
    }
  }

  lemma SegmentsOfResult(lines: seq<string>, ops: set<string>, rd: Reading)
    requires rd.Scanned? || HeadersOk(lines)
    ensures Segments(Strip(lines, ops), rd) == Keep(Segments(lines, rd), NamesAny(ops))
  {
    if ops == {} {
      forall b: seq<string> ensures !NamesAny(ops)(b) {}
      KeepAll(Segments(lines, rd), NamesAny(ops));
    } else if rd.Scanned? {
      StripKeepsSegments(lines, ops);
    } else {
      StripKeepsBlocks(lines, ops);
    }
  }

  /** A line outside blocks, or a block in whose text no `m.impl("op"` of the operators stands anywhere. */
  ghost predicate Harmless(x: Segment, ops: set<string>) { x.Plain? || RegistersNone(x.lines, ops) }

  lemma HarmlessIff(x: Segment, ops: set<string>)
    ensures Harmless(x, ops) <==> !Dropped(x, NamesAny(ops))
  {
    if x.Block? { NamesMeaning(x.lines, ops); }
  }

  /**
   Which segments are left, in terms of the text: all lines outside blocks, and exactly the blocks
   that register none of the operators, in order. That holds of the scanner's blocks, and of the
   blocks by braces if every header is right.
   */
  lemma SegmentsLeft(lines: seq<string>, ops: set<string>, rd: Reading) returns (at: seq<nat>)
    requires rd.Scanned? || HeadersOk(lines)
    ensures var before := Segments(lines, rd);
      && Picked(before, at, Segments(Strip(lines, ops), rd))
      && forall k: nat :: k < |before| ==> (k in at <==> before[k].Plain? || RegistersNone(before[k].lines, ops))
  {
    var before := Segments(lines, rd);
    SegmentsOfResult(lines, ops, rd);
    at := KeepPlaces(before, NamesAny(ops));
    forall k: nat | k < |before| ensures k in at <==> Harmless(before[k], ops) { HarmlessIff(before[k], ops); }
  }

  /** So no block that registers one of the operators is left. */
  lemma NoNamedBlockLeft(lines: seq<string>, ops: set<string>, rd: Reading)
    requires rd.Scanned? || HeadersOk(lines)
    ensures var segs := Segments(Strip(lines, ops), rd);
      forall k, op, i: nat :: 0 <= k < |segs| && segs[k].Block? && op in ops && i <= |Join(segs[k].lines)| ==>
        !("m.impl(\"" + op + "\"" <= Join(segs[k].lines)[i..])
  {
    var segs := Segments(Strip(lines, ops), rd);
    var at := SegmentsLeft(lines, ops, rd);
    forall k | 0 <= k < |segs| && segs[k].Block? ensures RegistersNone(segs[k].lines, ops) {
      assert segs[k] == Segments(lines, rd)[at[k]] && at[k] in at;
    }
  }

  lemma {:induction false} KeepAll(segs: seq<Segment>, drop: seq<string> -> bool)
    requires forall b :: !drop(b)
    ensures Keep(segs, drop) == segs
  {
    if segs != [] { KeepAll(segs[1..], drop); }
  }

  /** The lines outside blocks, in order. */
  function Outside(segs: seq<Segment>): seq<string> {
    if segs == [] then []
    else if segs[0].Plain? then [segs[0].line] + Outside(segs[1..])
    else Outside(segs[1..])
  }

  lemma {:induction false} KeepKeepsOutside(segs: seq<Segment>, drop: seq<string> -> bool)
    ensures Outside(Keep(segs, drop)) == Outside(segs)
  {
    if segs != [] {
      KeepKeepsOutside(segs[1..], drop);
      var kept := Keep(segs[1..], drop);
      assert ([segs[0]] + kept)[1..] == kept;
    }
  }

  /** And every line outside the blocks survives, in order. */
  lemma StripKeepsOutside(lines: seq<string>, ops: set<string>)
    requires HeadersOk(lines)
    ensures Outside(Segments(Strip(lines, ops), Braces)) == Outside(Segments(lines, Braces))
  {
    if ops != {} {
      StripKeepsBlocks(lines, ops);
      KeepKeepsOutside(Segments(lines, Braces), NamesAny(ops));
    }
  }

  // ---------------------------------------------------------------- where the scanner goes wrong

  lemma TwoLines(a: string, b: string)
    ensures Join([a, b]) == a + b && [a, b][1..] == [b] && [a, b][..2] == [a, b] && [a, b][2..] == [] && [a, b][..1] == [a]
  {
    assert [a, b][..1] == [a] && [a][..0] == [];
    assert Join([a]) == [] + a == a;
  }

  /** Behind a block of one line the next line counts as part of it, and is dropped with it. */
  lemma LineBehindIsLost(h: string, next: string, op: string)
    requires IsHeader(h) && HasOpening(h) && Delta(h) <= 0 && Delta(h) + Delta(next) <= 0 && !IsHeader(next)
    requires Occurs("m.impl(\"" + op + "\"", h + next)
    ensures Outside(Segments([h, next], Braces)) == [next] && Strip([h, next], {op}) == []
  {
    var lines := [h, next];
    TwoLines(h, next);
    assert [next][1..] == [] && TailLength([next], Delta(h), true) == 1;
    assert Segments(lines, Scanned) == [Block(lines)] + Segments([], Scanned) == [Block(lines)];
    assert Segments([next], Braces) == [Plain(next)] + Segments([], Braces) == [Plain(next)];
    assert Segments(lines, Braces) == [Block([h])] + Segments([next], Braces);
    assert op in {op} && Names(lines, {op});
    assert [Block(lines)][1..] == [] && Keep([Block(lines)], NamesAny({op})) == [];
    assert Outside([]) == [] && Outside([Plain(next)]) == [next];
    assert [Block([h]), Plain(next)][1..] == [Plain(next)] && [Plain(next)][1..] == [];
  }

  lemma ThreeLines(a: string, b: string, c: string)
    ensures var s := [a, b, c];
      s[1..] == [b, c] && s[..2] == [a, b] && s[2..] == [c] && s[..3] == s && s[3..] == [] && Join(s) == a + b + c
  {
    assert [a, b, c][..2] == [a, b];
    TwoLines(a, b);
  }

  /** No brace is opened up to the line behind the header; the third line opens one and closes all. */
  predicate LateBrace(h: string, next: string, third: string) {
    && IsHeader(h) && !HasOpening(h) && !HasOpening(next)
    && !IsHeader(third) && HasOpening(third) && Delta(h) + Delta(next) + Delta(third) <= 0
  }

  lemma LateBraceSegments(h: string, next: string, third: string)
    requires LateBrace(h, next, third)
    ensures Segments([h, next, third], Braces) == [Block([h, next, third])]
    ensures Segments([h, next, third], Scanned) == [Block([h, next]), Plain(third)]
  {
    var lines := [h, next, third];
    ThreeLines(h, next, third);
    TwoLines(next, third);
    NoOpeningNoRise(h);
    NoOpeningNoRise(next);
    assert TailLength([next, third], Delta(h), true) == 1;
    assert [third][1..] == [] && TailLength([third], Delta(h) + Delta(next), false) == 1;
    assert TailLength([next, third], Delta(h), false) == 2;
    FirstSegment(lines, Braces);
    FirstSegment(lines, Scanned);
    PlainSegment(third);
    assert Segments([], Braces) == [];
    OneMore(Segments(lines, Braces));
    OneMore(Segments(lines, Scanned));
  }

  lemma PlainSegment(line: string)
    requires !IsHeader(line)
    ensures Segments([line], Scanned) == [Plain(line)]
  {
    assert [line][1..] == [] && Segments([], Scanned) == [];
  }

  lemma OneMore(segs: seq<Segment>)
    requires segs != []
    ensures segs == [segs[0]] + segs[1..]
  {
  }

  /** Then the block is cut short and its registration stays. */
  lemma RegistrationStays(h: string, next: string, third: string, op: string)
    requires LateBrace(h, next, third)
    requires !Occurs("m.impl(\"" + op + "\"", h + next) && Occurs("m.impl(\"" + op + "\"", h + next + third)
    ensures var lines := [h, next, third];
      && Segments(lines, Braces) == [Block(lines)] && Dropped(Block(lines), NamesAny({op}))
      && Strip(lines, {op}) == lines
  {
    var lines, drop := [h, next, third], NamesAny({op});
    LateBraceSegments(h, next, third);
    ThreeLines(h, next, third);
    TwoLines(h, next);
    assert op in {op} && Names(lines, {op}) && !Names([h, next], {op});
    var head, tail := Block([h, next]), [Plain(third)];
    var segs := [head] + tail;
    assert segs[1..] == tail && tail[1..] == [] && Keep([], drop) == [];
    assert Keep(tail, drop) == tail && Keep(segs, drop) == segs;
    FlattenCons(head, tail);
    assert tail == [Plain(third)] + [];
    FlattenCons(Plain(third), []);
    assert [h, next] + [third] == lines;
  }

  lemma {:induction false} CountNone(s: string, c: char)
    requires c !in s
    ensures Count(s, c) == 0
  {
    if s != [] { CountNone(s[..|s|-1], c); }
  }

  lemma {:induction false} CountConcat(a: string, b: string, c: char)
    ensures Count(a + b, c) == Count(a, c) + Count(b, c)
  {
    if b == [] {
      assert a + b == a;
    } else {
      assert (a + b)[..|a + b|-1] == a + b[..|b|-1];
      CountConcat(a, b[..|b|-1], c);
    }
  }

  lemma {:induction false} OccursBehind(pat: string, a: string, b: string)
    requires Occurs(pat, b)
    ensures Occurs(pat, a + b)
  {
    if a == [] { assert a + b == b; } else { assert (a + b)[1..] == a[1..] + b; OccursBehind(pat, a[1..], b); }
  }

  lemma {:induction false} OccursAhead(pat: string, a: string, b: string)
    requires pat <= a
    ensures Occurs(pat, a + b)
  {
    assert pat <= a + b;
  }

  lemma NoBraces(s: string, a: string, b: string)
    requires s == a + b && '{' !in a && '{' !in b && '}' !in a && '}' !in b
    ensures '{' !in s && '}' !in s && Count(s, '{') == 0 == Count(s, '}')
  {
    CountNone(s, '{');
    CountNone(s, '}');
  }

  lemma HeaderFront(s: string)
    requires s == "TORCH_LIBRARY_IMPL(aten, "
    ensures '{' !in s && '}' !in s
  {
    NoBraces(s, "TORCH_LIBRARY", "_IMPL(aten, ");
  }

  lemma HeaderBack(s: string)
    requires s == "QuantizedPrivateUse1, m)"
    ensures '{' !in s && '}' !in s
  {
    NoBraces(s, "QuantizedPri", "vateUse1, m)");
  }

  lemma HeaderHasNoBraces()
    ensures Count(HEADER, '{') == 0 == Count(HEADER, '}')
  {
    var a, b := "TORCH_LIBRARY_IMPL(aten, ", "QuantizedPrivateUse1, m)";
    HeaderFront(a);
    HeaderBack(b);
    HeaderParts(HEADER, a, b);
    NoBraces(HEADER, a, b);
  }

  lemma HeaderParts(h: string, a: string, b: string)
    requires h == HEADER && a == "TORCH_LIBRARY_IMPL(aten, " && b == "QuantizedPrivateUse1, m)"
    ensures h == a + b
  {
  }

  /** A registration on one line takes an unrelated line along. */
  lemma LineLostExample()
    ensures var h := HEADER + " { m.impl(\"a\", f); }";
      Outside(Segments([h, "x"], Braces)) == ["x"] && Strip([h, "x"], {"a"}) == []
  {
    var tail := " { m.impl(\"a\", f); }";
    var h := HEADER + tail;
    OneBraceEach(tail);
    HeaderHasNoBraces();
    CountConcat(HEADER, tail, '{');
    CountConcat(HEADER, tail, '}');
    OccursAhead(HEADER, HEADER, tail);
    CountNone("x", '{');
    CountNone("x", '}');
    NotInShort(HEADER, "x");
    var pat := "m.impl(\"" + "a" + "\"";
    assert pat == "m.impl(\"a\"" && pat <= tail[3..];
    OccursBehind(pat, tail[..3], tail[3..]);
    assert tail == tail[..3] + tail[3..];
    OccursBehind(pat, HEADER, tail);
    OccursBefore(pat, h, "x");
    LineBehindIsLost(h, "x", "a");
  }

  lemma OneBraceEach(tail: string)
    requires tail == " { m.impl(\"a\", f); }"
    ensures Count(tail, '{') == 1 && Count(tail, '}') == 1
  {
    var a, b, c := " {", " m.impl(\"a\",", " f); }";
    OneOpening(a);
    NoBraceIn(b);
    OneClosing(c);
    TailParts(tail, a, b, c);
    AddCounts(a, b, c, '{');
    AddCounts(a, b, c, '}');
  }

  lemma TailParts(tail: string, a: string, b: string, c: string)
    requires tail == " { m.impl(\"a\", f); }" && a == " {" && b == " m.impl(\"a\"," && c == " f); }"
    ensures tail == a + (b + c)
  {
  }

  lemma OneOpening(a: string)
    requires a == " {"
    ensures Count(a, '{') == 1 && Count(a, '}') == 0
  {
    assert a[..1] == " " && a[1] == '{';
    CountNone(a[..1], '{');
    CountNone(a, '}');
  }

  lemma NoBraceIn(b: string)
    requires b == " m.impl(\"a\","
    ensures Count(b, '{') == 0 && Count(b, '}') == 0
  {
    CountNone(b, '{');
    CountNone(b, '}');
  }

  lemma OneClosing(c: string)
    requires c == " f); }"
    ensures Count(c, '{') == 0 && Count(c, '}') == 1
  {
    assert c[..5] == " f); " && c[5] == '}';
    CountNone(c, '{');
    CountNone(c[..5], '}');
  }

  lemma AddCounts(a: string, b: string, c: string, x: char)
    ensures Count(a + (b + c), x) == Count(a, x) + Count(b, x) + Count(c, x)
  {
    CountConcat(a, b + c, x);
    CountConcat(b, c, x);
  }

  lemma {:induction false} NotInShort(pat: string, s: string)
    requires |s| < |pat|
    ensures !Occurs(pat, s)
  {
    if s != [] { NotInShort(pat, s[1..]); }
  }

  lemma {:induction false} OccursBefore(pat: string, a: string, b: string)
    requires Occurs(pat, a)
    ensures Occurs(pat, a + b)
  {
    if pat <= a {
      assert pat <= a + b;
    } else {
      assert (a + b)[1..] == a[1..] + b;
      OccursBefore(pat, a[1..], b);
    }
  }

  // ---------------------------------------------------------------- balanced blocks

  datatype Extracted = Found(block: string, end: nat) | NoOpenBrace | NoCloseBrace

  predicate Trailing(c: char) { c in " \t\r\n;" }

  lemma TrailingChars(c: char)
    ensures Trailing(c) <==> c == ' ' || c == '\t' || c == '\r' || c == '\n' || c == ';'
  {
  }

  /** `open` is the first opening brace at or after `start`. */
  ghost predicate FirstOpen(text: string, start: nat, open: nat) {
    start <= open < |text| && text[open] == '{' && forall k :: start <= k < open ==> text[k] != '{'
  }

  /** `close` is the first place after which the braces from `open` on balance. */
  ghost predicate FirstClose(text: string, open: nat, close: nat) {
    open < close < |text| && Delta(text[open..close+1]) == 0 && forall k :: open < k <= close ==> Delta(text[open..k]) > 0
  }

  lemma DeltaNext(text: string, open: nat, k: nat)
    requires open <= k < |text|
    ensures Delta(text[open..k+1])
         == Delta(text[open..k]) + (if text[k] == '{' then 1 else 0) - (if text[k] == '}' then 1 else 0)
  {
    var s := text[open..k+1];
    assert s[..|s|-1] == text[open..k] && s[|s|-1] == text[k];
  }

  /**
   _extract_balanced_block: from `start` to the brace that closes the first one begun at or
   after it, with the whole run of blanks and semicolons behind; it fails exactly if no brace
   is opened or the first one never closes.
   */
  method ExtractBalancedBlock(text: string, start: nat) returns (r: Extracted)
    ensures r.NoOpenBrace? <==> forall k :: start <= k < |text| ==> text[k] != '{'
    ensures r.NoCloseBrace? ==> exists open: nat :: FirstOpen(text, start, open) && forall k :: open < k <= |text| ==> Delta(text[open..k]) > 0
    ensures r.Found? ==> exists open: nat, close: nat ::
      && FirstOpen(text, start, open) && FirstClose(text, open, close)
      && close < r.end <= |text| && r.block == text[start..r.end]
      && (forall k :: close < k < r.end ==> Trailing(text[k])) && (r.end < |text| ==> !Trailing(text[r.end]))
  {
    var open := start;
    while open < |text| && text[open] != '{'
      invariant start <= open && (open <= |text| || open == start)
      invariant forall k :: start <= k < open ==> text[k] != '{'
      decreases |text| - open
    {
      open := open + 1;
    }
    if open >= |text| { return NoOpenBrace; }
    assert FirstOpen(text, start, open);
    var depth := 0;
    assert text[open..open] == [];
    for idx := open to |text|
      invariant depth == Delta(text[open..idx])
      invariant forall k :: open < k <= idx ==> Delta(text[open..k]) > 0
    {
      DeltaNext(text, open, idx);
      var ch := text[idx];
      if ch == '{' {
        depth := depth + 1;
      } else if ch == '}' {
        depth := depth - 1;
        if depth == 0 {
          assert FirstClose(text, open, idx);
          var end := idx + 1;
          while end < |text| && Trailing(text[end])
            invariant idx < end <= |text| && forall k :: idx < k < end ==> Trailing(text[k])
          {
            end := end + 1;
          }
          return Found(text[start..end], end);
        }
      }
    }
    r := NoCloseBrace;
  }
}
