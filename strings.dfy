/**
 * Character classes and string helpers shared by the pipeline: Python's
 * `str.isspace`, the line boundaries of `str.splitlines`, an ASCII `lower`,
 * `strip`, whitespace `split`, `join`, `find` and `rstrip` of one character.
 */
module Strings {
  import opened Wrappers

  /** The characters for which Python's `str.isspace()` holds; `\s`, `strip()` and `split()` use the same set. */
  predicate IsSpace(c: char) {
    var n := c as int;
    (9 <= n <= 13) || (28 <= n <= 32) || n == 0x85 || n == 0xA0 || n == 0x1680 ||
    (0x2000 <= n <= 0x200A) || n == 0x2028 || n == 0x2029 || n == 0x202F || n == 0x205F || n == 0x3000
  }

  /** The line boundaries of `str.splitlines()`. */
  predicate IsLineBreak(c: char) {
    var n := c as int;
    (10 <= n <= 13) || (28 <= n <= 30) || n == 0x85 || n == 0x2028 || n == 0x2029
  }

  lemma LineBreakIsSpace(c: char)
    requires IsLineBreak(c)
    ensures IsSpace(c)
  {
  }

  predicate IsDigit(c: char) { '0' <= c <= '9' }

  predicate IsLetter(c: char) { 'a' <= c <= 'z' || 'A' <= c <= 'Z' }

  function LowerChar(c: char): char {
    if 'A' <= c <= 'Z' then (c as int + 32) as char else c
  }

  /** `str.lower()` restricted to ASCII letters. */
  function Lower(s: string): (r: string)
    ensures |r| == |s|
    ensures forall i :: 0 <= i < |s| ==> r[i] == LowerChar(s[i])
  {
    if s == [] then [] else [LowerChar(s[0])] + Lower(s[1..])
  }

  /** `s` with its leading whitespace removed. */
  function TrimStart(s: string): (r: string)
    ensures |r| <= |s| && r == s[|s| - |r|..]
    ensures r != [] ==> !IsSpace(r[0])
    ensures forall i :: 0 <= i < |s| - |r| ==> IsSpace(s[i])
  {
    if s != [] && IsSpace(s[0]) then TrimStart(s[1..]) else s
  }

  /** `s` with its trailing whitespace removed. */
  function TrimEnd(s: string): (r: string)
    ensures |r| <= |s| && r == s[..|r|]
    ensures r != [] ==> !IsSpace(r[|r| - 1])
    ensures forall i :: |r| <= i < |s| ==> IsSpace(s[i])
  {
    if s != [] && IsSpace(s[|s| - 1]) then TrimEnd(s[..|s| - 1]) else s
  }

  /** Python's `str.strip()`. */
  function Strip(s: string): (r: string)
    ensures r != [] ==> !IsSpace(r[0]) && !IsSpace(r[|r| - 1])
    ensures |r| <= |s|
  {
    TrimEnd(TrimStart(s))
  }

  /** The longest prefix of `s` holding no whitespace. */
  function TakeWord(s: string): (w: string)
    ensures |w| <= |s| && w == s[..|w|]
    ensures forall i :: 0 <= i < |w| ==> !IsSpace(w[i])
    ensures |w| < |s| ==> IsSpace(s[|w|])
  {
    if s == [] || IsSpace(s[0]) then [] else [s[0]] + TakeWord(s[1..])
  }

  /** Python's `str.split()` with no separator: the maximal runs of non-whitespace, in order. */
  function Words(s: string): (ws: seq<string>)
    ensures forall k :: 0 <= k < |ws| ==> ws[k] != [] && forall i :: 0 <= i < |ws[k]| ==> !IsSpace(ws[k][i])
    decreases |s|
  {
    var t := TrimStart(s);
    if t == [] then []
    else
      var w := TakeWord(t);
      assert w != [] by { assert !IsSpace(t[0]); }
      [w] + Words(t[|w|..])
  }

  /** Python's `sep.join(parts)`. */
  function Join(sep: string, parts: seq<string>): string {
    if |parts| == 0 then ""
    else if |parts| == 1 then parts[0]
    else parts[0] + sep + Join(sep, parts[1..])
  }

  /** `pat` occurs in `s` at position `i`. */
  predicate OccursAt(s: string, pat: string, i: nat) {
    i + |pat| <= |s| && s[i..i + |pat|] == pat
  }

  /** An occurrence inside a prefix is an occurrence in the whole string. */
  lemma OccursInPrefix(c: string, s: string, pat: string, i: nat)
    requires |c| <= |s| && c == s[..|c|] && OccursAt(c, pat, i)
    ensures OccursAt(s, pat, i)
  {
    assert s[i..i + |pat|] == c[i..i + |pat|];
  }

  /** `pat` occurs in `s` at position `i`, comparing ASCII letters without regard to case. */
  predicate OccursAtIgnoringCase(s: string, pat: string, i: nat) {
    i + |pat| <= |s| && Lower(s[i..i + |pat|]) == Lower(pat)
  }

  /** The first position at or after `from` where `pat` occurs in `s` (Python's `str.find`). */
  function FindFrom(s: string, pat: string, from: nat): (r: Option<nat>)
    ensures r.Some? ==> from <= r.value && OccursAt(s, pat, r.value)
    decreases |s| - from
  {
    if from + |pat| > |s| then None
    else if OccursAt(s, pat, from) then Some(from)
    else FindFrom(s, pat, from + 1)
  }

  /** `FindFrom` finds the first occurrence, and finds none only when there is none. */
  lemma {:induction false} FindFromIsFirst(s: string, pat: string, from: nat)
    ensures FindFrom(s, pat, from).Some? ==> forall j :: from <= j < FindFrom(s, pat, from).value ==> !OccursAt(s, pat, j)
    ensures FindFrom(s, pat, from).None? <==> forall j :: from <= j ==> !OccursAt(s, pat, j)
    decreases |s| - from
  {
    if from + |pat| <= |s| && !OccursAt(s, pat, from) {
      FindFromIsFirst(s, pat, from + 1);
    }
  }

  /** Python's `s.find(pat)`: the first position of `pat` in `s`, or -1. */
  function Find(s: string, pat: string): (r: int)
    ensures -1 <= r <= |s|
    ensures r >= 0 ==> OccursAt(s, pat, r)
  {
    match FindFrom(s, pat, 0)
    case Some(k) => k
    case None => -1
  }

  /** `Find` gives the first occurrence, and -1 exactly when there is none. */
  lemma FindIsFirst(s: string, pat: string)
    ensures Find(s, pat) >= 0 ==> forall j :: 0 <= j < Find(s, pat) ==> !OccursAt(s, pat, j)
    ensures Find(s, pat) == -1 <==> forall j :: 0 <= j ==> !OccursAt(s, pat, j)
  {
    FindFromIsFirst(s, pat, 0);
  }

  /** The first position at or after `from` where `pat` occurs in `s` regardless of ASCII case. */
  function FindFromIgnoringCase(s: string, pat: string, from: nat): (r: Option<nat>)
    ensures r.Some? ==> from <= r.value && OccursAtIgnoringCase(s, pat, r.value)
    ensures r.Some? ==> forall j :: from <= j < r.value ==> !OccursAtIgnoringCase(s, pat, j)
    ensures r.None? ==> forall j :: from <= j ==> !OccursAtIgnoringCase(s, pat, j)
    decreases |s| - from
  {
    if from + |pat| > |s| then None
    else if OccursAtIgnoringCase(s, pat, from) then Some(from)
    else FindFromIgnoringCase(s, pat, from + 1)
  }

  /** Python's `s[:n]`. */
  function Take(s: string, n: nat): (r: string)
    ensures |r| <= n && |r| <= |s| && r == s[..|r|]
    ensures |r| < n ==> r == s
  {
    if |s| <= n then s else s[..n]
  }

  /** Python's `s.rstrip(c)` for a single character `c`. */
  function RStripChar(s: string, c: char): (r: string)
    ensures |r| <= |s| && r == s[..|r|]
    ensures r != [] ==> r[|r| - 1] != c
    ensures forall i :: |r| <= i < |s| ==> s[i] == c
  {
    if s != [] && s[|s| - 1] == c then RStripChar(s[..|s| - 1], c) else s
  }
}
