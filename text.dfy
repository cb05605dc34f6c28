/**
 * String helpers of the .NET base library that the core relies on:
 * char.IsWhiteSpace, string.Trim(), string.Trim(char), string.IsNullOrWhiteSpace,
 * comparisons with StringComparison.OrdinalIgnoreCase (modelled as ASCII case
 * folding) and the backslash-to-slash normalisation applied to torrent file paths.
 */
module Text {

  /** char.IsWhiteSpace: the characters of the Unicode White_Space property. */
  predicate IsWhiteSpace(c: char) {
    ('\t' <= c <= '\r') || c == ' ' || c == '\U{85}' || c == '\U{A0}' || c == '\U{1680}'
    || ('\U{2000}' <= c <= '\U{200A}') || c == '\U{2028}' || c == '\U{2029}'
    || c == '\U{202F}' || c == '\U{205F}' || c == '\U{3000}'
  }

  /** string.IsNullOrWhiteSpace (a Dafny string is never null). */
  predicate IsNullOrWhiteSpace(s: string) {
    forall i :: 0 <= i < |s| ==> IsWhiteSpace(s[i])
  }

  /** Drops the leading characters satisfying `drop`. */
  function TrimStartBy(s: string, drop: char -> bool): (r: string)
    ensures |r| <= |s| && r == s[|s| - |r|..]
    ensures r == [] || !drop(r[0])
    ensures forall i :: 0 <= i < |s| - |r| ==> drop(s[i])
    decreases |s|
  {
    if |s| > 0 && drop(s[0]) then TrimStartBy(s[1..], drop) else s
  }

  /** Drops the trailing characters satisfying `drop`. */
  function TrimEndBy(s: string, drop: char -> bool): (r: string)
    ensures |r| <= |s| && r == s[..|r|]
    ensures r == [] || !drop(r[|r| - 1])
    ensures forall i :: |r| <= i < |s| ==> drop(s[i])
    decreases |s|
  {
    if |s| > 0 && drop(s[|s| - 1]) then TrimEndBy(s[..|s| - 1], drop) else s
  }

  predicate IsTrimmedBy(s: string, drop: char -> bool) {
    s == [] || (!drop(s[0]) && !drop(s[|s| - 1]))
  }

  /** `r` is the slice of `s` starting at `a`, and every character of `s`
      before or after that slice is droppable. */
  predicate IsMiddleSlice(s: string, drop: char -> bool, a: int, r: string) {
    && 0 <= a && a + |r| <= |s| && r == s[a..a + |r|]
    && (forall i :: 0 <= i < a ==> drop(s[i]))
    && (forall i :: a + |r| <= i < |s| ==> drop(s[i]))
  }

  /** string.Trim(chars): both ends. The result is a piece of `s` with no droppable end. */
  function TrimBy(s: string, drop: char -> bool): (r: string)
    ensures IsTrimmedBy(r, drop)
    ensures forall c :: c in r ==> c in s
    ensures r == [] <==> forall i :: 0 <= i < |s| ==> drop(s[i])
  {
    var t := TrimStartBy(s, drop);
    var r := TrimEndBy(t, drop);
    MiddleOfTrimmed(s, drop, t, r);
    r
  }

  /** The trimmed string is the middle slice of `s` left once the droppable
      characters at either end are gone. */
  lemma TrimByIsMiddleSlice(s: string, drop: char -> bool)
    ensures exists a :: IsMiddleSlice(s, drop, a, TrimBy(s, drop))
  {
    var t := TrimStartBy(s, drop);
    MiddleOfTrimmed(s, drop, t, TrimEndBy(t, drop));
    assert IsMiddleSlice(s, drop, |s| - |t|, TrimBy(s, drop));
  }

  /** Trimming the end of a trimmed start leaves a middle slice of the whole. */
  lemma MiddleOfTrimmed(s: string, drop: char -> bool, t: string, r: string)
    requires |t| <= |s| && t == s[|s| - |t|..]
    requires forall i :: 0 <= i < |s| - |t| ==> drop(s[i])
    requires |r| <= |t| && r == t[..|r|]
    requires forall i :: |r| <= i < |t| ==> drop(t[i])
    ensures IsMiddleSlice(s, drop, |s| - |t|, r)
    ensures forall c :: c in r ==> c in s
  {
    var a := |s| - |t|;
    assert r == s[a..a + |r|];
    forall i | a + |r| <= i < |s|
      ensures drop(s[i])
    {
      assert s[i] == t[i - a];
    }
    forall c | c in r
      ensures c in s
    {
      var k :| 0 <= k < |r| && r[k] == c;
      assert s[a + k] == c;
    }
  }

  lemma TrimByKeepsTrimmed(s: string, drop: char -> bool)
    requires IsTrimmedBy(s, drop)
    ensures TrimBy(s, drop) == s
  {
  }

  /** string.Trim() */
  function Trim(s: string): string {
    TrimBy(s, IsWhiteSpace)
  }

  /** string.Trim('"') */
  function TrimQuotes(s: string): string {
    TrimBy(s, c => c == '"')
  }

  predicate IsTrimmed(s: string) {
    IsTrimmedBy(s, IsWhiteSpace)
  }

  /** Upper-casing of ASCII letters; other characters are their own fold. */
  function UpperAscii(c: char): char {
    if 'a' <= c <= 'z' then (c as int - 32) as char else c
  }

  function FoldCase(s: string): (r: string)
    ensures |r| == |s|
    ensures forall i :: 0 <= i < |s| ==> r[i] == UpperAscii(s[i])
  {
    seq(|s|, i requires 0 <= i < |s| => UpperAscii(s[i]))
  }

  /** string.Equals(a, b, StringComparison.OrdinalIgnoreCase) */
  predicate EqualsIgnoreCase(a: string, b: string) {
    FoldCase(a) == FoldCase(b)
  }

  /** The same character, or the same ASCII letter in the other case. */
  predicate SameLetterIgnoringCase(c: char, d: char) {
    || c == d
    || ('a' <= c <= 'z' && d as int == c as int - 32)
    || ('a' <= d <= 'z' && c as int == d as int - 32)
  }

  lemma UpperAsciiIff(c: char, d: char)
    ensures UpperAscii(c) == UpperAscii(d) <==> SameLetterIgnoringCase(c, d)
  {
  }

  /** Two strings compare equal ignoring case exactly when they have the same
      length and agree character by character up to the case of ASCII letters. */
  lemma EqualsIgnoreCaseIff(a: string, b: string)
    ensures EqualsIgnoreCase(a, b) <==>
      |a| == |b| && forall i :: 0 <= i < |a| ==> SameLetterIgnoringCase(a[i], b[i])
  {
    var fa, fb := FoldCase(a), FoldCase(b);
    if |a| == |b| {
      forall i | 0 <= i < |a| {
        UpperAsciiIff(a[i], b[i]);
      }
      if forall i :: 0 <= i < |a| ==> SameLetterIgnoringCase(a[i], b[i]) {
        assert forall i :: 0 <= i < |a| ==> fa[i] == fb[i];
      }
    }
  }

  /** s.StartsWith(prefix, StringComparison.OrdinalIgnoreCase) */
  predicate StartsWithIgnoreCase(s: string, prefix: string) {
    |s| >= |prefix| && EqualsIgnoreCase(s[..|prefix|], prefix)
  }

  /** s.EndsWith(suffix, StringComparison.OrdinalIgnoreCase) */
  predicate EndsWithIgnoreCase(s: string, suffix: string) {
    |s| >= |suffix| && EqualsIgnoreCase(s[|s| - |suffix|..], suffix)
  }

  predicate IsPathSeparator(c: char) {
    c == '\\' || c == '/'
  }

  /** p.Replace('\\', '/') */
  function NormalizeSeparators(p: string): (r: string)
    ensures |r| == |p|
    ensures '\\' !in r
  {
    seq(|p|, i requires 0 <= i < |p| => if p[i] == '\\' then '/' else p[i])
  }

  /** Every backslash becomes a slash; every other character stays where it was. */
  lemma NormalizeSeparatorsAt(p: string)
    ensures forall i :: 0 <= i < |p| && p[i] == '\\' ==> NormalizeSeparators(p)[i] == '/'
    ensures forall i :: 0 <= i < |p| && p[i] != '\\' ==> NormalizeSeparators(p)[i] == p[i]
  {
  }
}
