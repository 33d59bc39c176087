/**
 * The parts of Python's `str` that the service and the batch route rely on:
 * `str.isspace` for one character and `str.strip()` with no argument.
 */
module PyText {

  /** Python's `str.isspace` for a single code point (bidirectional class WS, B or S, or category Zs). */
  predicate IsWhitespace(c: char)
  {
    || ('\t' <= c <= '\r')                      // TAB, LF, VT, FF, CR
    || ('\U{1C}' <= c <= '\U{1F}')              // information separators
    || c == ' '
    || c == '\U{85}' || c == '\U{A0}' || c == '\U{1680}'
    || ('\U{2000}' <= c <= '\U{200A}')
    || c == '\U{2028}' || c == '\U{2029}' || c == '\U{202F}' || c == '\U{205F}' || c == '\U{3000}'
  }

  /** True when every character of `s` is whitespace (vacuously true of ""). */
  predicate IsBlank(s: string)
  {
    forall i :: 0 <= i < |s| ==> IsWhitespace(s[i])
  }

  /** `s.lstrip()`: `s` without its leading whitespace. */
  function StripLeading(s: string): string
  {
    if |s| > 0 && IsWhitespace(s[0]) then StripLeading(s[1..]) else s
  }

  /** `s.rstrip()`: `s` without its trailing whitespace. */
  function StripTrailing(s: string): string
  {
    if |s| > 0 && IsWhitespace(s[|s| - 1]) then StripTrailing(s[..|s| - 1]) else s
  }

  /**
   * `s.lstrip()` is the longest suffix of `s` that does not start with
   * whitespace: everything it drops is whitespace.
   */
  lemma {:induction false} StripLeadingSpec(s: string)
    ensures var r := StripLeading(s);
            && |r| <= |s| && r == s[|s| - |r|..]
            && (forall i :: 0 <= i < |s| - |r| ==> IsWhitespace(s[i]))
            && (r != [] ==> !IsWhitespace(r[0]))
  {
    if |s| > 0 && IsWhitespace(s[0]) {
      StripLeadingSpec(s[1..]);
      var r := StripLeading(s);
      assert s[1..][|s| - 1 - |r|..] == s[|s| - |r|..];
      forall i | 1 <= i < |s| - |r| ensures IsWhitespace(s[i]) {
        assert s[1..][i - 1] == s[i];
      }
    }
  }

  /**
   * `s.rstrip()` is the longest prefix of `s` that does not end with
   * whitespace: everything it drops is whitespace.
   */
  lemma {:induction false} StripTrailingSpec(s: string)
    ensures var r := StripTrailing(s);
            && |r| <= |s| && r == s[..|r|]
            && (forall i :: |r| <= i < |s| ==> IsWhitespace(s[i]))
            && (r != [] ==> !IsWhitespace(r[|r| - 1]))
  {
    if |s| > 0 && IsWhitespace(s[|s| - 1]) {
      var p := s[..|s| - 1];
      StripTrailingSpec(p);
      var r := StripTrailing(s);
      assert p[..|r|] == s[..|r|];
      forall i | |r| <= i < |s| - 1 ensures IsWhitespace(s[i]) {
        assert p[i] == s[i];
      }
    }
  }

  /** `s.strip()`: `s` without its leading and trailing whitespace. */
  function Strip(s: string): string
  {
    StripTrailing(StripLeading(s))
  }

  /** `s.strip()` is empty exactly when `s` consists only of whitespace. */
  lemma StripEmptyIffBlank(s: string)
    ensures Strip(s) == [] <==> IsBlank(s)
  {
    var l := StripLeading(s);
    StripLeadingSpec(s);
    StripTrailingSpec(l);
    if Strip(s) == [] {
      // every character of `l` is trailing whitespace, yet `l` cannot start with whitespace
      if l != [] {
        assert false;
      }
    } else {
      var k := |s| - |l|;
      assert l != [] && !IsWhitespace(l[0]);
      assert s[k] == l[0];
    }
  }

  /**
   * The guard `t and t.strip()` shared by `analyze` and the batch route: the
   * transcript is non-empty and is not whitespace only.
   */
  predicate IsAnalyzable(t: string)
  {
    |t| > 0 && Strip(t) != []
  }

  /** A transcript passes the guard exactly when it has a character that is not whitespace. */
  lemma AnalyzableIffVisibleChar(t: string)
    ensures IsAnalyzable(t) <==> exists i :: 0 <= i < |t| && !IsWhitespace(t[i])
  {
    StripEmptyIffBlank(t);
  }
}
