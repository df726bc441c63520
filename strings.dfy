/** Python's `str.strip()` with no argument, which the submission handlers apply to most text
    fields; the artist edit stores the phone number as submitted. */
module Strings {

  /** The characters for which Python's `str.isspace()` holds: exactly those `strip()` removes. */
  predicate IsSpace(c: char) {
    || c == ' '
    || ('\t' <= c <= '\r')
    || ('\U{1C}' <= c <= '\U{1F}')
    || c == '\U{85}' || c == '\U{A0}' || c == '\U{1680}'
    || ('\U{2000}' <= c <= '\U{200A}')
    || c == '\U{2028}' || c == '\U{2029}' || c == '\U{202F}' || c == '\U{205F}' || c == '\U{3000}'
  }

  predicate AllSpace(s: string) {
    forall i :: 0 <= i < |s| ==> IsSpace(s[i])
  }

  /** Neither end of `s` is whitespace. */
  predicate Bare(s: string) {
    s == [] || (!IsSpace(s[0]) && !IsSpace(s[|s| - 1]))
  }

  /** `r` is what remains of `s` once its leading and trailing whitespace are removed:
      a slice of `s` with no whitespace at either end, cut out of whitespace only. */
  ghost predicate IsStripOf(s: string, r: string) {
    exists i, j :: 0 <= i <= j <= |s| && r == s[i..j] && AllSpace(s[..i]) && AllSpace(s[j..]) && Bare(r)
  }

  /** `s.lstrip()` */
  function StripLeft(s: string): string {
    if s != [] && IsSpace(s[0]) then StripLeft(s[1..]) else s
  }

  /** `s.rstrip()` */
  function StripRight(s: string): string {
    if s != [] && IsSpace(s[|s| - 1]) then StripRight(s[..|s| - 1]) else s
  }

  /** `s.strip()` */
  function Strip(s: string): string {
    StripRight(StripLeft(s))
  }

  /** StripLeft keeps a suffix of `s` that does not start with whitespace, and drops only
      whitespace. */
  lemma {:induction false} StripLeftKeepsSuffix(s: string)
    ensures var r := StripLeft(s);
      && |r| <= |s| && r == s[|s| - |r|..]
      && AllSpace(s[..|s| - |r|])
      && (r == [] || !IsSpace(r[0]))
  {
    if s != [] && IsSpace(s[0]) {
      StripLeftKeepsSuffix(s[1..]);
      var r := StripLeft(s);
      var k := |s| - |r|;
      assert s[1..][..k - 1] == s[1..k];
      assert forall n :: 1 <= n < k ==> s[n] == s[1..][..k - 1][n - 1];
    }
  }

  /** StripRight keeps a prefix of `s` that does not end with whitespace, and drops only
      whitespace. */
  lemma {:induction false} StripRightKeepsPrefix(s: string)
    ensures var r := StripRight(s);
      && |r| <= |s| && r == s[..|r|]
      && AllSpace(s[|r|..])
      && (r == [] || !IsSpace(r[|r| - 1]))
  {
    if s != [] && IsSpace(s[|s| - 1]) {
      var t := s[..|s| - 1];
      StripRightKeepsPrefix(t);
      var r := StripRight(s);
      assert t[..|r|] == s[..|r|];
      assert forall n :: |r| <= n < |s| - 1 ==> s[n] == t[|r|..][n - |r|];
    }
  }

  /** Strip's result is a stripping of its input. */
  lemma StripIsStrip(s: string)
    ensures IsStripOf(s, Strip(s))
  {
    var left := StripLeft(s);
    StripLeftKeepsSuffix(s);
    StripRightKeepsPrefix(left);
    var r := StripRight(left);
    var i := |s| - |left|;
    assert s[i..i + |r|] == r;
    assert s[i + |r|..] == left[|r|..];
  }

  /** Whitespace-only input strips to the empty string. */
  lemma StripLeftAllSpace(s: string)
    requires AllSpace(s)
    ensures StripLeft(s) == []
  {
  }

  /** StripLeft stops at the first character that is not whitespace. */
  lemma StripLeftAt(s: string, i: nat)
    requires i < |s| && AllSpace(s[..i]) && !IsSpace(s[i])
    ensures StripLeft(s) == s[i..]
  {
    StripLeftKeepsSuffix(s);
    var k := |s| - |StripLeft(s)|;
    if k < i {
      assert false;
    } else if i < k {
      assert false;
    }
  }

  /** StripRight stops at the last character that is not whitespace. */
  lemma StripRightAt(s: string, j: nat)
    requires 0 < j <= |s| && AllSpace(s[j..]) && !IsSpace(s[j - 1])
    ensures StripRight(s) == s[..j]
  {
  }

  /** There is only one way to strip a string: any slice that meets IsStripOf is Strip's result. */
  lemma {:induction false} StripUnique(s: string, r: string)
    requires IsStripOf(s, r)
    ensures r == Strip(s)
  {
    var i, j :| 0 <= i <= j <= |s| && r == s[i..j] && AllSpace(s[..i]) && AllSpace(s[j..]) && Bare(r);
    if r == [] {
      assert AllSpace(s) by {
        forall n | 0 <= n < |s| ensures IsSpace(s[n]) {
          if n < i { assert s[n] == s[..i][n]; } else { assert s[n] == s[j..][n - j]; }
        }
      }
      StripLeftAllSpace(s);
    } else {
      StripLeftAt(s, i);
      var left := s[i..];
      assert left[j - i..] == s[j..];
      assert left[j - i - 1] == r[|r| - 1];
      StripRightAt(left, j - i);
    }
  }

  /** Stripping twice is stripping once. */
  lemma StripIdempotent(s: string)
    ensures Strip(Strip(s)) == Strip(s)
  {
    var r := Strip(s);
    StripIsStrip(s);
    var i, j :| 0 <= i <= j <= |s| && r == s[i..j] && AllSpace(s[..i]) && AllSpace(s[j..]) && Bare(r);
    assert r == r[0..|r|] && r[..0] == [] && r[|r|..] == [];
    StripUnique(r, r);
  }
}
