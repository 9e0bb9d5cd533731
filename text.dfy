/**
 * The few Python string operations that the configuration reader and the
 * interactive prompt rely on: `str.strip()`, `str.lower()` and
 * `str.split('=', 1)`, stated over `seq<char>`.
 */
module Text {
  import opened Wrappers

  /** The characters for which Python's `str.isspace()` holds. */
  predicate IsSpace(c: char) {
    || c == ' '
    || ('\t' <= c <= '\r')
    || ('\U{1C}' <= c <= '\U{1F}')
    || c == '\U{85}' || c == '\U{A0}' || c == '\U{1680}'
    || ('\U{2000}' <= c <= '\U{200A}')
    || c == '\U{2028}' || c == '\U{2029}' || c == '\U{202F}' || c == '\U{205F}' || c == '\U{3000}'
  }

  /**
   * Python's `s.strip()`: `s` without its leading and trailing white space,
   * dropped one character at a time.
   */
  function Strip(s: string): string
    decreases |s|
  {
    if s != [] && IsSpace(s[0]) then Strip(s[1..])
    else if s != [] && IsSpace(s[|s| - 1]) then Strip(s[..|s| - 1])
    else s
  }

  /** `s[i..j]` is `s` with only white space dropped on either side, and it neither starts nor ends with white space. */
  predicate TrimmedAt(s: string, i: int, j: int)
    requires 0 <= i <= j <= |s|
  {
    && (forall k :: 0 <= k < i ==> IsSpace(s[k]))
    && (forall k :: j <= k < |s| ==> IsSpace(s[k]))
    && (i == j || (!IsSpace(s[i]) && !IsSpace(s[j - 1])))
  }

  /**
   * What `Strip` keeps is one contiguous piece of `s` that neither starts nor
   * ends with white space, and everything it drops on either side is white space.
   */
  lemma {:induction false} StripIsTrimmedInfix(s: string)
    ensures exists i, j :: 0 <= i <= j <= |s| && Strip(s) == s[i..j] && TrimmedAt(s, i, j)
    decreases |s|
  {
    if s != [] && IsSpace(s[0]) {
      StripIsTrimmedInfix(s[1..]);
      var i, j :| 0 <= i <= j <= |s[1..]| && Strip(s[1..]) == s[1..][i..j] && TrimmedAt(s[1..], i, j);
      TrimmedAfterLeadingSpace(s, i, j);
    } else if s != [] && IsSpace(s[|s| - 1]) {
      StripIsTrimmedInfix(s[..|s| - 1]);
      var i, j :| 0 <= i <= j <= |s| - 1 && Strip(s[..|s| - 1]) == s[..|s| - 1][i..j] && TrimmedAt(s[..|s| - 1], i, j);
      TrimmedBeforeTrailingSpace(s, i, j);
    } else {
      assert Strip(s) == s[0..|s|];
      assert TrimmedAt(s, 0, |s|);
    }
  }

  lemma TrimmedAfterLeadingSpace(s: string, i: int, j: int)
    requires s != [] && IsSpace(s[0]) && 0 <= i <= j <= |s| - 1 && TrimmedAt(s[1..], i, j)
    ensures s[1..][i..j] == s[i + 1..j + 1] && TrimmedAt(s, i + 1, j + 1)
  {
    assert forall k :: 1 <= k < |s| ==> s[k] == s[1..][k - 1];
  }

  lemma TrimmedBeforeTrailingSpace(s: string, i: int, j: int)
    requires s != [] && IsSpace(s[|s| - 1]) && 0 <= i <= j <= |s| - 1 && TrimmedAt(s[..|s| - 1], i, j)
    ensures s[..|s| - 1][i..j] == s[i..j] && TrimmedAt(s, i, j)
  {
    assert forall k :: 0 <= k < |s| - 1 ==> s[k] == s[..|s| - 1][k];
  }

  /** `Strip` keeps nothing exactly when `s` is all white space. */
  lemma StripEmptyIffBlank(s: string)
    ensures Strip(s) == [] <==> forall k :: 0 <= k < |s| ==> IsSpace(s[k])
  {
    StripIsTrimmedInfix(s);
    var i, j :| 0 <= i <= j <= |s| && Strip(s) == s[i..j] && TrimmedAt(s, i, j);
    if i != j {
      assert !IsSpace(s[i]);
    }
  }

  /** A trailing white space character, such as the newline a file line keeps, does not change what `Strip` keeps. */
  lemma {:induction false} StripIgnoresTrailingSpace(s: string, c: char)
    requires IsSpace(c)
    ensures Strip(s + [c]) == Strip(s)
    decreases |s|
  {
    if s != [] && IsSpace(s[0]) {
      assert (s + [c])[1..] == s[1..] + [c];
      StripIgnoresTrailingSpace(s[1..], c);
    } else {
      assert (s + [c])[..|s|] == s;
    }
  }

  /** Python's `str.lower()` on ASCII letters; every other character is kept. */
  function LowerChar(c: char): char {
    if 'A' <= c <= 'Z' then (c as int + 32) as char else c
  }

  function Lower(s: string): (r: string)
    ensures |r| == |s|
    ensures forall k :: 0 <= k < |s| ==> r[k] == LowerChar(s[k])
  {
    if s == [] then [] else [LowerChar(s[0])] + Lower(s[1..])
  }

  predicate IsLowerLetter(c: char) {
    'a' <= c <= 'z'
  }

  /** `s` spells the lower-case word `w`, each letter in either case. */
  predicate MatchesIgnoringCase(s: string, w: string) {
    |s| == |w| && forall k :: 0 <= k < |s| ==> s[k] == w[k] || s[k] as int + 32 == w[k] as int
  }

  /** Lower-casing `s` gives the lower-case word `w` exactly when `s` spells `w` in any case. */
  lemma LowerMatches(s: string, w: string)
    requires forall k :: 0 <= k < |w| ==> IsLowerLetter(w[k])
    ensures Lower(s) == w <==> MatchesIgnoringCase(s, w)
  {
    if MatchesIgnoringCase(s, w) {
      forall k | 0 <= k < |s| ensures Lower(s)[k] == w[k] {
        if s[k] != w[k] {
          assert 'A' <= s[k] <= 'Z';
        }
      }
    }
  }

  /**
   * Python's `s.split(sep, 1)` unpacked into two names: the part before the
   * first `sep` and everything after it, or None when `s` holds no `sep`
   * (the unpacking raises ValueError then).
   */
  function SplitAtFirst(s: string, sep: char): (r: Option<(string, string)>)
    ensures r.None? <==> sep !in s
    ensures r.Some? ==> s == r.value.0 + [sep] + r.value.1 && sep !in r.value.0
  {
    if s == [] then None
    else if s[0] == sep then Some(([], s[1..]))
    else match SplitAtFirst(s[1..], sep)
      case None => None
      case Some(parts) => Some(([s[0]] + parts.0, parts.1))
  }
}
