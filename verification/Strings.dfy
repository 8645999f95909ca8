/** Python's `in` on strings. */
module Strings {
  predicate Occurs(pat: string, s: string) {
    pat <= s || (s != [] && Occurs(pat, s[1..]))
  }

  /** The pattern stands somewhere in the text. */
  lemma {:induction false} OccursIff(pat: string, s: string)
    ensures Occurs(pat, s) <==> exists i: nat :: i <= |s| && pat <= s[i..]
  {
    if pat <= s {
      assert s[0..] == s;
    } else if s != [] {
      OccursIff(pat, s[1..]);
      if i: nat :| i <= |s| && pat <= s[i..] {
        assert s[0..] == s;
        assert s[1..][i-1..] == s[i..];
      }
      if i: nat :| i <= |s[1..]| && pat <= s[1..][i..] { assert s[i+1..] == s[1..][i..]; }
    }
  }
}
