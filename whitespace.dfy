/**
 * Python's `str.strip()` with no argument, which the script uses to drop blank
 * spans: it removes leading and trailing characters for which `str.isspace()`
 * holds.
 */
module Whitespace {

  /** The characters `str.isspace()` accepts (and `str.strip()` removes). */
  predicate IsSpace(c: char) {
    || ('\t' <= c <= '\r')
    || ('\U{1C}' <= c <= ' ')
    || c == '\U{85}' || c == '\U{A0}' || c == '\U{1680}'
    || ('\U{2000}' <= c <= '\U{200A}')
    || c == '\U{2028}' || c == '\U{2029}' || c == '\U{202F}'
    || c == '\U{205F}' || c == '\U{3000}'
  }

  /** The string has at least one character that is not whitespace. */
  ghost predicate HasVisible(s: string) {
    exists i :: 0 <= i < |s| && !IsSpace(s[i])
  }

  /** `s.lstrip()`: drop whitespace at the front. */
  function StripLeft(s: string): string
    decreases |s|
  {
    if s != [] && IsSpace(s[0]) then StripLeft(s[1..]) else s
  }

  /** `s.rstrip()`: drop whitespace at the back. */
  function StripRight(s: string): string
    decreases |s|
  {
    if s != [] && IsSpace(s[|s| - 1]) then StripRight(s[..|s| - 1]) else s
  }

  /**
   * `s.lstrip()` is the longest suffix of `s` that does not start with
   * whitespace: what it drops is all whitespace.
   */
  lemma {:induction false} StripLeftIsSuffix(s: string)
    ensures var r := StripLeft(s);
      && |r| <= |s| && r == s[|s| - |r|..]
      && (forall i :: 0 <= i < |s| - |r| ==> IsSpace(s[i]))
      && (r == [] || !IsSpace(r[0]))
    decreases |s|
  {
    if s != [] && IsSpace(s[0]) {
      StripLeftIsSuffix(s[1..]);
    }
  }

  /**
   * `s.rstrip()` is the longest prefix of `s` that does not end with
   * whitespace: what it drops is all whitespace.
   */
  lemma {:induction false} StripRightIsPrefix(s: string)
    ensures var r := StripRight(s);
      && |r| <= |s| && r == s[..|r|]
      && (forall i :: |r| <= i < |s| ==> IsSpace(s[i]))
      && (r == [] || !IsSpace(r[|r| - 1]))
    decreases |s|
  {
    if s != [] && IsSpace(s[|s| - 1]) {
      StripRightIsPrefix(s[..|s| - 1]);
    }
  }

  /** `s.strip()`: empty exactly when `s` is empty or all whitespace. */
  function Strip(s: string): (r: string)
    ensures r == [] <==> !HasVisible(s)
  {
    var left := StripLeft(s);
    var r := StripRight(left);
    StripLeftIsSuffix(s);
    StripRightIsPrefix(left);
    assert r == [] ==> left == [];
    assert r != [] ==> HasVisible(s) by {
      if r != [] {
        assert left[0] == s[|s| - |left|];
      }
    }
    r
  }

  /** The text left by `s.strip()` starts and ends with a visible character. */
  lemma StripTrimsBothEnds(s: string)
    ensures var r := Strip(s); r != [] ==> !IsSpace(r[0]) && !IsSpace(r[|r| - 1])
  {
    StripLeftIsSuffix(s);
    StripRightIsPrefix(StripLeft(s));
  }
}
