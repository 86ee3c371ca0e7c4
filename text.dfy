/**
 * The string operations of Python that the crawler relies on: `str.find`,
 * `str.rfind`, `str.split`, `str.join`, and a case-insensitive substring
 * search standing in for `re.search(word, s, re.I)`.
 */
module Text {

  /** Python's `s.find(c)` for one character: the first index of `c`, or -1. */
  function Find(s: string, c: char): (i: int)
    ensures -1 <= i < |s|
    ensures i == -1 <==> c !in s
    ensures 0 <= i ==> s[i] == c && c !in s[..i]
  {
    if s == [] then -1
    else if s[0] == c then 0
    else
      var k := Find(s[1..], c);
      if k < 0 then -1 else k + 1
  }

  /** Python's `s.rfind(c)` for one character: the last index of `c`, or -1. */
  function RFind(s: string, c: char): (i: int)
    ensures -1 <= i < |s|
    ensures i == -1 <==> c !in s
    ensures 0 <= i ==> s[i] == c && c !in s[i + 1..]
  {
    if s == [] then -1
    else if s[|s| - 1] == c then |s| - 1
    else
      assert s == s[..|s| - 1] + [s[|s| - 1]];
      RFind(s[..|s| - 1], c)
  }

  /**
   * Python's `s.split(sep)` for a one-character separator: one more part
   * than there are separators, and no part contains the separator.
   */
  function Split(s: string, sep: char): (parts: seq<string>)
    ensures |parts| == multiset(s)[sep] + 1
    ensures forall k :: 0 <= k < |parts| ==> sep !in parts[k]
    decreases |s|
  {
    var i := Find(s, sep);
    if i < 0 then
      assert multiset(s)[sep] == 0;
      [s]
    else
      assert s == s[..i] + [s[i]] + s[i + 1..];
      assert multiset(s) == multiset(s[..i]) + multiset{sep} + multiset(s[i + 1..]);
      [s[..i]] + Split(s[i + 1..], sep)
  }

  /** Python's `sep.join(parts)` for a one-character separator. */
  function Join(sep: char, parts: seq<string>): (s: string)
    ensures |parts| == 1 ==> s == parts[0]
  {
    if parts == [] then ""
    else if |parts| == 1 then parts[0]
    else parts[0] + [sep] + Join(sep, parts[1..])
  }

  /** Splitting what was joined gives back the parts, when no part holds the separator. */
  lemma {:induction false} SplitJoin(parts: seq<string>, sep: char)
    requires |parts| >= 1
    requires forall k :: 0 <= k < |parts| ==> sep !in parts[k]
    ensures Split(Join(sep, parts), sep) == parts
    decreases |parts|
  {
    if |parts| == 1 {
      assert sep !in parts[0];
      assert Split(parts[0], sep) == [parts[0]];
    } else {
      var rest := Join(sep, parts[1..]);
      assert Join(sep, parts) == parts[0] + [sep] + rest;
      SplitFront(parts[0], sep, rest);
      assert forall k :: 0 <= k < |parts[1..]| ==> parts[1..][k] == parts[k + 1];
      SplitJoin(parts[1..], sep);
      assert parts == [parts[0]] + parts[1..];
    }
  }

  /** A first part free of the separator is split off whole. */
  lemma SplitFront(a: string, sep: char, b: string)
    requires sep !in a
    ensures Split(a + [sep] + b, sep) == [a] + Split(b, sep)
  {
    var s := a + [sep] + b;
    FindAfterPrefix(a, sep, b);
    assert s[|a| + 1..] == b;
    assert s[..|a|] == a;
  }

  /** Joining what was split gives back the string. */
  lemma {:induction false} JoinSplit(s: string, sep: char)
    ensures Join(sep, Split(s, sep)) == s
    decreases |s|
  {
    var i := Find(s, sep);
    if i >= 0 {
      JoinSplit(s[i + 1..], sep);
      assert s == s[..i] + [sep] + s[i + 1..];
    }
  }

  lemma FindAfterPrefix(a: string, sep: char, b: string)
    requires sep !in a
    ensures Find(a + [sep] + b, sep) == |a|
  {
    var s := a + [sep] + b;
    assert s[|a|] == sep;
    assert s[..|a|] == a;
  }

  /** Whether `pat` occurs in `s` starting at index `i`. */
  predicate OccursAt(s: string, pat: string, i: nat)
  {
    i + |pat| <= |s| && s[i..i + |pat|] == pat
  }

  /** Python's `s.find(pat)` for a non-empty pattern: the first occurrence, or -1. */
  function FindStr(s: string, pat: string): (i: int)
    requires |pat| > 0
    ensures -1 <= i < |s|
    ensures 0 <= i ==> OccursAt(s, pat, i)
    ensures 0 <= i ==> forall k: nat :: k < i ==> !OccursAt(s, pat, k)
    ensures i == -1 ==> forall k: nat :: !OccursAt(s, pat, k)
  {
    if |s| < |pat| then -1
    else if s[..|pat|] == pat then 0
    else
      var k := FindStr(s[1..], pat);
      ShiftOccurs(s, pat);
      assert !OccursAt(s, pat, 0) by {
        assert s[0..|pat|] == s[..|pat|];
      }
      if k < 0 then -1 else k + 1
  }

  lemma ShiftOccurs(s: string, pat: string)
    requires |s| > 0
    ensures forall k: nat :: 1 <= k ==> (OccursAt(s[1..], pat, k - 1) <==> OccursAt(s, pat, k))
  {
    forall k: nat | 1 <= k
      ensures OccursAt(s[1..], pat, k - 1) <==> OccursAt(s, pat, k)
    {
      if k + |pat| <= |s| {
        assert s[1..][k - 1..k - 1 + |pat|] == s[k..k + |pat|];
      }
    }
  }

  /** Python's `s.split(sep)` for a non-empty separator string. */
  function SplitStr(s: string, sep: string): (parts: seq<string>)
    requires |sep| > 0
    ensures |parts| >= 1
    decreases |s|
  {
    var i := FindStr(s, sep);
    if i < 0 then [s]
    else [s[..i]] + SplitStr(s[i + |sep|..], sep)
  }

  /**
   * Splitting `a + sep + b` at `sep` gives `[a, b]` when the separator's
   * first character occurs in neither half.
   */
  lemma {:induction false} SplitStrTwo(a: string, sep: string, b: string)
    requires |sep| > 0
    requires sep[0] !in a && sep[0] !in b
    ensures SplitStr(a + sep + b, sep) == [a, b]
  {
    var s := a + sep + b;
    assert OccursAt(s, sep, |a|) by {
      assert s[|a|..|a| + |sep|] == sep;
    }
    forall k: nat | k < |a|
      ensures !OccursAt(s, sep, k)
    {
      if k + |sep| <= |s| {
        assert s[k..k + |sep|][0] == s[k] == a[k];
      }
    }
    var i := FindStr(s, sep);
    assert i == |a|;
    assert s[..i] == a;
    assert s[i + |sep|..] == b;
    forall k: nat
      ensures !OccursAt(b, sep, k)
    {
      if k + |sep| <= |b| {
        assert b[k..k + |sep|][0] == b[k];
      }
    }
  }

  /** When the separator's first character does not occur in `s`, `s` is not split. */
  lemma SplitStrNone(s: string, sep: string)
    requires |sep| > 0
    requires sep[0] !in s
    ensures SplitStr(s, sep) == [s]
  {
    forall k: nat
      ensures !OccursAt(s, sep, k)
    {
      if k + |sep| <= |s| {
        assert s[k..k + |sep|][0] == s[k];
      }
    }
  }

  /**
   * Whether `c` matches the lower-case ASCII letter `w` under Python's
   * `re.IGNORECASE` for `str` patterns: the letter itself, its upper-case
   * form, and for 's' also U+017F LATIN SMALL LETTER LONG S, which Unicode
   * case folding maps to 's'.
   */
  predicate FoldMatch(c: char, w: char)
  {
    c == w || (c as int) + 32 == w as int || (w == 's' && c == '\U{017F}')
  }

  /** Whether the lower-case ASCII word `w` matches `s` at index `i`, ignoring case. */
  predicate MatchesAt(s: string, w: string, i: nat)
  {
    i + |w| <= |s| && forall k :: 0 <= k < |w| ==> FoldMatch(s[i + k], w[k])
  }

  /** `re.search(w, s, re.I)` for a plain lower-case ASCII word `w`. */
  predicate ContainsFold(s: string, w: string)
  {
    exists i :: 0 <= i <= |s| && MatchesAt(s, w, i)
  }

  /** A word contained in `s` is contained in every extension of `s`. */
  lemma {:induction false} ContainsFoldExtend(pre: string, s: string, post: string, w: string)
    requires ContainsFold(s, w)
    ensures ContainsFold(pre + s + post, w)
  {
    var i :| 0 <= i <= |s| && MatchesAt(s, w, i);
    var t := pre + s + post;
    forall k | 0 <= k < |w|
      ensures FoldMatch(t[|pre| + i + k], w[k])
    {
      assert t[|pre| + i + k] == s[i + k];
    }
    assert MatchesAt(t, w, |pre| + i);
  }

  /** ASCII case mapping of one character, upwards or downwards; anything other than an ASCII letter is kept. */
  function AsciiCase(c: char, up: bool): char
  {
    if up && 'a' <= c <= 'z' then (c as int - 32) as char
    else if !up && 'A' <= c <= 'Z' then (c as int + 32) as char
    else c
  }

  /** `s.upper()` (or `s.lower()`) restricted to ASCII letters. */
  function AsciiRecase(s: string, up: bool): (r: string)
    ensures |r| == |s| && forall i :: 0 <= i < |s| ==> r[i] == AsciiCase(s[i], up)
  {
    seq(|s|, i requires 0 <= i < |s| => AsciiCase(s[i], up))
  }

  /** A word of lower-case ASCII letters, as the patterns the matcher is used with are. */
  predicate LowerWord(w: string)
  {
    forall k :: 0 <= k < |w| ==> 'a' <= w[k] <= 'z'
  }

  /** `s` spells the lower-case word `w` with any mix of upper- and lower-case letters. */
  predicate CaseVariant(s: string, w: string)
  {
    |s| == |w| && forall k :: 0 <= k < |w| ==> s[k] == w[k] || (s[k] as int) + 32 == w[k] as int
  }

  lemma FoldMatchRecase(c: char, w: char, up: bool)
    requires 'a' <= w <= 'z'
    ensures FoldMatch(AsciiCase(c, up), w) <==> FoldMatch(c, w)
  {
  }

  /** Matching ignores case: recasing the searched text never changes whether a lower-case word occurs in it. */
  lemma ContainsFoldRecase(s: string, w: string, up: bool)
    requires LowerWord(w)
    ensures ContainsFold(AsciiRecase(s, up), w) <==> ContainsFold(s, w)
  {
    var r := AsciiRecase(s, up);
    forall i | 0 <= i <= |s|
      ensures MatchesAt(r, w, i) <==> MatchesAt(s, w, i)
    {
      if i + |w| <= |s| {
        forall k | 0 <= k < |w|
          ensures FoldMatch(r[i + k], w[k]) <==> FoldMatch(s[i + k], w[k])
        {
          FoldMatchRecase(s[i + k], w[k], up);
        }
      }
    }
    if ContainsFold(r, w) {
      var i :| 0 <= i <= |r| && MatchesAt(r, w, i);
      assert MatchesAt(s, w, i);
    }
    if ContainsFold(s, w) {
      var i :| 0 <= i <= |s| && MatchesAt(s, w, i);
      assert MatchesAt(r, w, i);
    }
  }

  /** A word spelt in any mix of cases is found wherever it stands. */
  lemma ContainsCaseVariant(pre: string, v: string, post: string, w: string)
    requires CaseVariant(v, w)
    ensures ContainsFold(pre + v + post, w)
  {
    assert MatchesAt(v, w, 0);
    ContainsFoldExtend(pre, v, post, w);
  }
}
