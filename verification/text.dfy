/** String helpers shared by the filters and the reducer: the handful of
    Kotlin and JavaScript string functions the calculator relies on, stated
    over `seq<char>`. */
module Text {

  /** Kotlin's `Char.isWhitespace()`: Java's `Character.isWhitespace` (the ASCII
      control whitespace, the information separators, and the Unicode space
      separators other than no-break ones) together with `Character.isSpaceChar`
      (every space, line and paragraph separator, no-break ones included). */
  predicate IsWhitespace(c: char)
  {
    || c == ' ' || c == '\t' || c == '\n' || c == '\r'
    || c == '\U{000B}' || c == '\U{000C}'
    || ('\U{001C}' <= c <= '\U{001F}')
    || c == '\U{00A0}' || c == '\U{1680}'
    || ('\U{2000}' <= c <= '\U{200A}')
    || c == '\U{2028}' || c == '\U{2029}' || c == '\U{202F}' || c == '\U{205F}' || c == '\U{3000}'
  }

  predicate NoWhitespace(s: string)
  {
    forall i :: 0 <= i < |s| ==> !IsWhitespace(s[i])
  }

  /** Kotlin's `CharSequence.isBlank()`: empty or whitespace only. */
  predicate IsBlank(s: string)
  {
    forall i :: 0 <= i < |s| ==> IsWhitespace(s[i])
  }

  /** Drops leading whitespace. */
  function TrimStart(s: string): (r: string)
    ensures |r| <= |s| && r == s[|s| - |r|..]
    ensures r == [] || !IsWhitespace(r[0])
    ensures forall i :: 0 <= i < |s| - |r| ==> IsWhitespace(s[i])
  {
    if |s| > 0 && IsWhitespace(s[0]) then TrimStart(s[1..]) else s
  }

  /** Drops trailing whitespace. */
  function TrimEnd(s: string): (r: string)
    ensures |r| <= |s| && r == s[..|r|]
    ensures r == [] || !IsWhitespace(r[|r| - 1])
    ensures forall i :: |r| <= i < |s| ==> IsWhitespace(s[i])
  {
    if |s| > 0 && IsWhitespace(s[|s| - 1]) then TrimEnd(s[..|s| - 1]) else s
  }

  /** Kotlin's `String.trim()`: the longest slice without whitespace at either end. */
  function Trim(s: string): (r: string)
    ensures |r| <= |s|
    ensures r == [] || (!IsWhitespace(r[0]) && !IsWhitespace(r[|r| - 1]))
    ensures forall i :: 0 <= i < |r| ==> r[i] in s
  {
    var t := TrimStart(s);
    var r := TrimEnd(t);
    PrefixOfSuffix(s, t, r);
    r
  }

  /** A prefix `r` of a suffix `t` of `s` starts like `t` and holds only
      characters of `s`. */
  lemma PrefixOfSuffix(s: string, t: string, r: string)
    requires |t| <= |s| && t == s[|s| - |t|..]
    requires |r| <= |t| && r == t[..|r|]
    ensures r != [] ==> r[0] == t[0]
    ensures forall i :: 0 <= i < |r| ==> r[i] in s
  {
    var k := |s| - |t|;
    forall i | 0 <= i < |r|
      ensures r[i] in s
    {
      assert r[i] == t[i] == s[k + i];
    }
  }

  /** A string with no whitespace anywhere is its own trim. */
  lemma TrimNoWhitespace(s: string)
    requires NoWhitespace(s)
    ensures Trim(s) == s
  {
    assert TrimStart(s) == s by {
      if |s| > 0 {
        assert !IsWhitespace(s[0]);
      }
    }
    if |s| > 0 {
      assert !IsWhitespace(s[|s| - 1]);
    }
  }

  predicate StartsWith(s: string, prefix: string)
  {
    |prefix| <= |s| && s[..|prefix|] == prefix
  }

  predicate EndsWith(s: string, suffix: string)
  {
    |suffix| <= |s| && s[|s| - |suffix|..] == suffix
  }

  /** Kotlin's `removeSuffix`: drops `suffix` when `s` ends with it. */
  function RemoveSuffix(s: string, suffix: string): (r: string)
    ensures EndsWith(s, suffix) ==> r + suffix == s
    ensures !EndsWith(s, suffix) ==> r == s
  {
    if EndsWith(s, suffix) then s[..|s| - |suffix|] else s
  }

  /** `s.includes(t)` / `s.contains(t)`: `t` occurs somewhere in `s`. */
  function Contains(s: string, t: string): (b: bool)
    decreases |s|
  {
    StartsWith(s, t) || (|s| > 0 && Contains(s[1..], t))
  }

  /** `Contains` holds exactly when `t` is found at some index of `s`. */
  lemma {:induction false} ContainsAt(s: string, t: string)
    ensures Contains(s, t) <==> exists i :: 0 <= i <= |s| - |t| && StartsWith(s[i..], t)
    decreases |s|
  {
    if StartsWith(s, t) {
      assert StartsWith(s[0..], t);
    } else if |s| > 0 {
      ContainsAt(s[1..], t);
      if Contains(s[1..], t) {
        var i :| 0 <= i <= |s[1..]| - |t| && StartsWith(s[1..][i..], t);
        assert s[1..][i..] == s[i + 1..];
      }
      if exists i :: 0 <= i <= |s| - |t| && StartsWith(s[i..], t) {
        var i :| 0 <= i <= |s| - |t| && StartsWith(s[i..], t);
        assert i != 0;
        assert s[1..][i - 1..] == s[i..];
      }
    }
  }

  /** Number of occurrences of `c` in `s`. */
  function Count(c: char, s: string): nat
  {
    if s == [] then 0 else (if s[0] == c then 1 else 0) + Count(c, s[1..])
  }

  lemma {:induction false} CountAppend(c: char, a: string, b: string)
    ensures Count(c, a + b) == Count(c, a) + Count(c, b)
    decreases |a|
  {
    if a == [] {
      assert a + b == b;
    } else {
      assert (a + b)[1..] == a[1..] + b;
      CountAppend(c, a[1..], b);
    }
  }

  lemma {:induction false} CountZero(c: char, s: string)
    ensures Count(c, s) == 0 <==> c !in s
    decreases |s|
  {
    if s != [] {
      CountZero(c, s[1..]);
      assert s == [s[0]] + s[1..];
    }
  }

  /** Dropping the last character never adds an occurrence. */
  lemma CountDropLast(c: char, s: string)
    requires s != []
    ensures Count(c, s[..|s| - 1]) <= Count(c, s)
  {
    assert s == s[..|s| - 1] + [s[|s| - 1]];
    CountAppend(c, s[..|s| - 1], [s[|s| - 1]]);
  }

  /** The text before the first `sep`, which is the whole string when `sep`
      does not occur: the first element of Kotlin's `split(sep)`, which is
      never empty as a list. */
  function BeforeFirst(s: string, sep: char): (r: string)
    ensures |r| <= |s| && r == s[..|r|]
    ensures sep !in r
    ensures |r| < |s| ==> s[|r|] == sep
  {
    if s == [] then []
    else if s[0] == sep then []
    else [s[0]] + BeforeFirst(s[1..], sep)
  }

  /** Text after the first separator does not affect what comes before it. */
  lemma {:induction false} BeforeFirstOfLonger(s: string, tail: string)
    ensures BeforeFirst(s + [','] + tail, ',') == BeforeFirst(s, ',')
    decreases |s|
  {
    if s == [] {
      assert (s + [','] + tail)[0] == ',';
    } else {
      assert (s + [','] + tail)[1..] == s[1..] + [','] + tail;
      assert (s + [','] + tail)[0] == s[0];
      if s[0] != ',' {
        BeforeFirstOfLonger(s[1..], tail);
      }
    }
  }

  /** A string without the separator is its own first element. */
  lemma {:induction false} BeforeFirstNoSep(s: string)
    requires ',' !in s
    ensures BeforeFirst(s, ',') == s
    decreases |s|
  {
    if s != [] {
      assert s[0] != ',';
      BeforeFirstNoSep(s[1..]);
    }
  }
}
