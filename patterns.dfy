/**
 * The two regular expressions of the heuristic extractor, written out as
 * scanners with the leftmost, greedy, backtracking semantics of Python's `re`:
 *
 *   phone  `(\+?\d[\d\s().-]{7,})`
 *   email  `[A-Z0-9._%+-]+@[A-Z0-9.-]+\.[A-Z]{2,}` with IGNORECASE
 *
 * Each scanner is paired with a declarative description of the text it
 * accepts, and proved sound (what it returns has that shape) and complete
 * (it finds a match wherever the shape occurs).
 */
module Patterns {
  import opened Wrappers
  import opened Strings

  /** The character classes the two patterns use. */
  datatype CharClass =
    | PhoneBody   // `[\d\s().-]`
    | Local       // `[A-Z0-9._%+-]` ignoring case
    | Domain      // `[A-Z0-9.-]` ignoring case
    | Letter      // `[A-Z]` ignoring case

  predicate In(cls: CharClass, c: char) {
    match cls
    case PhoneBody => IsDigit(c) || IsSpace(c) || c == '(' || c == ')' || c == '.' || c == '-'
    case Local => IsLetter(c) || IsDigit(c) || c == '.' || c == '_' || c == '%' || c == '+' || c == '-'
    case Domain => IsLetter(c) || IsDigit(c) || c == '.' || c == '-'
    case Letter => IsLetter(c)
  }

  /** Every character of `t` in `lo..hi-1` belongs to `cls`. */
  predicate AllIn(t: string, lo: nat, hi: nat, cls: CharClass)
    requires lo <= hi <= |t|
  {
    forall k :: lo <= k < hi ==> In(cls, t[k])
  }

  /** The length of the longest run of `cls` characters starting at `i`. */
  function Run(s: string, i: nat, cls: CharClass): (n: nat)
    requires i <= |s|
    ensures i + n <= |s|
    ensures i + n < |s| ==> !In(cls, s[i + n])
    decreases |s| - i
  {
    if i < |s| && In(cls, s[i]) then 1 + Run(s, i + 1, cls) else 0
  }

  /** Every character of the run belongs to the class. */
  lemma {:induction false} RunAllIn(s: string, i: nat, cls: CharClass)
    requires i <= |s|
    ensures AllIn(s, i, i + Run(s, i, cls), cls)
    decreases |s| - i
  {
    if i < |s| && In(cls, s[i]) {
      RunAllIn(s, i + 1, cls);
    }
  }

  /** A run of `cls` characters from `i` to `j` ends no later than the longest one. */
  lemma {:induction false} RunReaches(s: string, i: nat, j: nat, cls: CharClass)
    requires i <= j <= |s| && AllIn(s, i, j, cls)
    ensures j <= i + Run(s, i, cls)
    decreases j - i
  {
    if i < j {
      RunReaches(s, i + 1, j, cls);
    }
  }

  // ---------------------------------------------------------------------------
  // Phone: `(\+?\d[\d\s().-]{7,})`
  // ---------------------------------------------------------------------------

  /** The texts the phone pattern matches as a whole. */
  predicate IsPhoneText(t: string) {
    (|t| >= 9 && t[0] == '+' && IsDigit(t[1]) && forall k :: 2 <= k < |t| ==> In(PhoneBody, t[k])) ||
    (|t| >= 8 && IsDigit(t[0]) && forall k :: 1 <= k < |t| ==> In(PhoneBody, t[k]))
  }

  /** The length of the phone match starting at `i`, if any: the optional `+` taken when it helps, the body run greedy. */
  function PhoneMatchAt(s: string, i: nat): Option<nat>
    requires i <= |s|
  {
    if i + 1 < |s| && s[i] == '+' && IsDigit(s[i + 1]) then
      var r := Run(s, i + 2, PhoneBody);
      if r >= 7 then Some(2 + r) else None
    else if i < |s| && IsDigit(s[i]) then
      var r := Run(s, i + 1, PhoneBody);
      if r >= 7 then Some(1 + r) else None
    else None
  }

  /** What the phone scanner returns is phone text, and it cannot be extended. */
  lemma PhoneMatchSound(s: string, i: nat)
    requires i <= |s| && PhoneMatchAt(s, i).Some?
    ensures var n := PhoneMatchAt(s, i).value;
            i + n <= |s| && IsPhoneText(s[i..i + n]) && (i + n == |s| || !In(PhoneBody, s[i + n]))
  {
    if i + 1 < |s| && s[i] == '+' && IsDigit(s[i + 1]) {
      RunAllIn(s, i + 2, PhoneBody);
    } else {
      RunAllIn(s, i + 1, PhoneBody);
    }
    var n := PhoneMatchAt(s, i).value;
    var t := s[i..i + n];
    assert forall k :: 0 <= k < |t| ==> t[k] == s[i + k];
  }

  /** Wherever phone text starts at `i`, the scanner matches there, and at least as far. */
  lemma PhoneMatchComplete(s: string, i: nat, j: nat)
    requires i < j <= |s| && IsPhoneText(s[i..j])
    ensures PhoneMatchAt(s, i).Some? && j <= i + PhoneMatchAt(s, i).value
  {
    var t := s[i..j];
    assert forall k :: 0 <= k < |t| ==> t[k] == s[i + k];
    if t[0] == '+' {
      RunReaches(s, i + 2, j, PhoneBody);
    } else {
      RunReaches(s, i + 1, j, PhoneBody);
    }
  }

  /** `phone_pattern.findall(s[from..])`: non-overlapping matches, left to right. */
  function Phones(s: string, from: nat): (ps: seq<string>)
    requires from <= |s|
    decreases |s| - from
  {
    if from == |s| then []
    else match PhoneMatchAt(s, from)
      case Some(n) => [s[from..from + n]] + Phones(s, from + n)
      case None => Phones(s, from + 1)
  }

  /** `t` is phone text that occurs in `s` at some position at or after `from`. */
  predicate PhoneFoundAfter(s: string, t: string, from: nat) {
    IsPhoneText(t) && exists i :: from <= i <= |s| && OccursAt(s, t, i)
  }

  lemma FoundAfterEarlier(s: string, t: string, lo: nat, hi: nat)
    requires lo <= hi && PhoneFoundAfter(s, t, hi)
    ensures PhoneFoundAfter(s, t, lo)
  {
  }

  /** Every phone found is phone text occurring in `s` at or after `from`. */
  lemma {:induction false} PhonesAreMatches(s: string, from: nat)
    requires from <= |s|
    ensures forall k :: 0 <= k < |Phones(s, from)| ==> PhoneFoundAfter(s, Phones(s, from)[k], from)
    decreases |s| - from
  {
    if from < |s| {
      var ps := Phones(s, from);
      match PhoneMatchAt(s, from)
      case Some(n) =>
        var rest := Phones(s, from + n);
        assert ps == [s[from..from + n]] + rest;
        PhoneMatchSound(s, from);
        assert OccursAt(s, s[from..from + n], from);
        PhonesAreMatches(s, from + n);
        forall k | 0 <= k < |ps|
          ensures PhoneFoundAfter(s, ps[k], from)
        {
          if k > 0 {
            assert ps[k] == rest[k - 1];
            assert PhoneFoundAfter(s, rest[k - 1], from + n);
            FoundAfterEarlier(s, ps[k], from, from + n);
          } else {
            assert ps[k] == s[from..from + n];
          }
        }
      case None =>
        var rest := Phones(s, from + 1);
        assert ps == rest;
        PhonesAreMatches(s, from + 1);
        forall k | 0 <= k < |ps|
          ensures PhoneFoundAfter(s, ps[k], from)
        {
          assert PhoneFoundAfter(s, rest[k], from + 1);
          FoundAfterEarlier(s, ps[k], from, from + 1);
        }
    }
  }

  /** No stretch of `s` that starts in `from..i` is phone text. */
  predicate NoPhoneBefore(s: string, from: nat, i: nat) {
    forall k, j :: from <= k < i && k < j <= |s| ==> !IsPhoneText(s[k..j])
  }

  /** No stretch of `s` that starts at `i` and ends after `end` is phone text. */
  predicate NoLongerPhone(s: string, i: nat, end: nat) {
    forall j :: end < j <= |s| && i <= j ==> !IsPhoneText(s[i..j])
  }

  /**
   * `t` occurs in `s` at some position at or after `from` before which no
   * phone text starts, and no longer phone text starts there.
   */
  predicate LeftmostPhone(s: string, t: string, from: nat) {
    exists i :: from <= i <= |s| && OccursAt(s, t, i) && NoPhoneBefore(s, from, i) && NoLongerPhone(s, i, i + |t|)
  }

  /** The first phone found occurs in `s` at a position before which no phone text starts, and is the longest there. */
  lemma {:induction false} FirstPhoneLeftmost(s: string, from: nat)
    requires from <= |s| && Phones(s, from) != []
    ensures LeftmostPhone(s, Phones(s, from)[0], from)
    decreases |s| - from
  {
    match PhoneMatchAt(s, from)
    case Some(n) =>
      PhoneMatchSound(s, from);
      assert Phones(s, from)[0] == s[from..from + n];
      assert OccursAt(s, Phones(s, from)[0], from);
      assert NoPhoneBefore(s, from, from);
      forall j | from + n < j <= |s| ensures !IsPhoneText(s[from..j]) {
        if IsPhoneText(s[from..j]) {
          PhoneMatchComplete(s, from, j);
        }
      }
      assert NoLongerPhone(s, from, from + |Phones(s, from)[0]|);
    case None =>
      assert Phones(s, from) == Phones(s, from + 1);
      FirstPhoneLeftmost(s, from + 1);
      var t := Phones(s, from + 1)[0];
      var i :| from + 1 <= i <= |s| && OccursAt(s, t, i) && NoPhoneBefore(s, from + 1, i) && NoLongerPhone(s, i, i + |t|);
      forall j | from < j <= |s| ensures !IsPhoneText(s[from..j]) {
        if IsPhoneText(s[from..j]) {
          PhoneMatchComplete(s, from, j);
        }
      }
      assert NoPhoneBefore(s, from, i);
  }

  /** At most one phone text is leftmost and longest: the first phone found is the only one. */
  lemma LeftmostPhoneUnique(s: string, t1: string, t2: string, from: nat)
    requires IsPhoneText(t1) && LeftmostPhone(s, t1, from)
    requires IsPhoneText(t2) && LeftmostPhone(s, t2, from)
    ensures t1 == t2
  {
    var i1 :| from <= i1 <= |s| && OccursAt(s, t1, i1) && NoPhoneBefore(s, from, i1) && NoLongerPhone(s, i1, i1 + |t1|);
    var i2 :| from <= i2 <= |s| && OccursAt(s, t2, i2) && NoPhoneBefore(s, from, i2) && NoLongerPhone(s, i2, i2 + |t2|);
    assert IsPhoneText(s[i1..i1 + |t1|]) && IsPhoneText(s[i2..i2 + |t2|]);
    assert i1 == i2;
    assert |t1| == |t2|;
  }

  /** The scan finds nothing exactly when no position at or after `from` starts a match. */
  lemma {:induction false} PhonesEmptyIff(s: string, from: nat)
    requires from <= |s|
    ensures Phones(s, from) == [] <==> forall i :: from <= i <= |s| ==> PhoneMatchAt(s, i).None?
    decreases |s| - from
  {
    if from < |s| {
      match PhoneMatchAt(s, from)
      case Some(n) =>
      case None =>
        PhonesEmptyIff(s, from + 1);
    }
  }

  /** As the extractor asks it: the text holds a phone match iff findall returns something. */
  lemma PhoneFoundIff(s: string)
    ensures Phones(s, 0) != [] <==> exists i, j :: 0 <= i < j <= |s| && IsPhoneText(s[i..j])
  {
    PhonesEmptyIff(s, 0);
    if Phones(s, 0) != [] {
      var i :| 0 <= i <= |s| && PhoneMatchAt(s, i).Some?;
      PhoneMatchSound(s, i);
      var j := i + PhoneMatchAt(s, i).value;
      assert IsPhoneText(s[i..j]);
    } else {
      forall i, j | 0 <= i < j <= |s|
        ensures !IsPhoneText(s[i..j])
      {
        if IsPhoneText(s[i..j]) {
          PhoneMatchComplete(s, i, j);
        }
      }
    }
  }

  // ---------------------------------------------------------------------------
  // Email: `[A-Z0-9._%+-]+@[A-Z0-9.-]+\.[A-Z]{2,}`, ignoring case
  // ---------------------------------------------------------------------------

  /** `t` splits as local part `t[..at]`, `@`, domain `t[at+1..dot]`, `.`, and two or more letters. */
  predicate EmailShape(t: string, at: nat, dot: nat) {
    0 < at && at + 1 < dot && dot + 3 <= |t| &&
    AllIn(t, 0, at, Local) && t[at] == '@' && AllIn(t, at + 1, dot, Domain) &&
    t[dot] == '.' && AllIn(t, dot + 1, |t|, Letter)
  }

  /** The texts the email pattern matches as a whole. */
  predicate IsEmailText(t: string) {
    exists at: nat, dot: nat :: 0 < at < dot < |t| && EmailShape(t, at, dot)
  }

  /** A dot at `p` followed by at least two letters. */
  predicate TldAt(s: string, p: nat) {
    p < |s| && s[p] == '.' && Run(s, p + 1, Letter) >= 2
  }

  /** The largest `p` in `lo..hi-1` with a dot and two letters after it: where backtracking the greedy domain run stops. */
  function LastTld(s: string, lo: nat, hi: nat): (r: Option<nat>)
    requires hi <= |s|
    ensures r.Some? ==> lo <= r.value < hi && TldAt(s, r.value)
    decreases hi
  {
    if hi <= lo then None
    else if TldAt(s, hi - 1) then Some(hi - 1)
    else LastTld(s, lo, hi - 1)
  }

  /** No position after the one found, and none at all when nothing is found, has a dot with two letters. */
  lemma {:induction false} LastTldIsLast(s: string, lo: nat, hi: nat)
    requires hi <= |s|
    ensures LastTld(s, lo, hi).Some? ==> forall p :: LastTld(s, lo, hi).value < p < hi ==> !TldAt(s, p)
    ensures LastTld(s, lo, hi).None? ==> forall p :: lo <= p < hi ==> !TldAt(s, p)
    decreases hi
  {
    if lo < hi && !TldAt(s, hi - 1) {
      LastTldIsLast(s, lo, hi - 1);
    }
  }

  /** The end of the email match starting at `i`, if any. */
  function EmailMatchAt(s: string, i: nat): Option<nat>
    requires i <= |s|
  {
    var at := i + Run(s, i, Local);
    if at == i || at >= |s| || s[at] != '@' then None
    else DomainMatch(s, at)
  }

  /** The end of the match whose `@` is at `at`: the domain run, backtracked to the last dot with two letters after it. */
  function DomainMatch(s: string, at: nat): Option<nat>
    requires at < |s|
  {
    var e := at + 1 + Run(s, at + 1, Domain);
    var r := LastTld(s, at + 2, e);
    if r.None? then None else Some(r.value + 1 + Run(s, r.value + 1, Letter))
  }


  /** The shape, read at offset `i` of `s`, is the shape of the slice starting there. */
  lemma ShapeOfSlice(s: string, i: nat, j: nat, at: nat, dot: nat)
    requires i <= j <= |s| && i < at && at + 1 < dot && dot + 3 <= j
    requires AllIn(s, i, at, Local) && s[at] == '@' && AllIn(s, at + 1, dot, Domain)
    requires s[dot] == '.' && AllIn(s, dot + 1, j, Letter)
    ensures EmailShape(s[i..j], at - i, dot - i)
  {
    var t := s[i..j];
    assert forall k :: 0 <= k < |t| ==> t[k] == s[i + k];
  }

  /** The shape of a slice, read back at its offset in `s`. */
  lemma SliceOfShape(s: string, i: nat, j: nat, at: nat, dot: nat)
    requires i <= j <= |s| && EmailShape(s[i..j], at, dot)
    ensures AllIn(s, i, i + at, Local) && s[i + at] == '@' && AllIn(s, i + at + 1, i + dot, Domain)
    ensures s[i + dot] == '.' && AllIn(s, i + dot + 1, j, Letter)
  {
    var t := s[i..j];
    assert forall k :: i <= k < j ==> s[k] == t[k - i];
  }

  /** What the email scanner returns is email text. */
  lemma EmailMatchSound(s: string, i: nat)
    requires i <= |s| && EmailMatchAt(s, i).Some?
    ensures i < EmailMatchAt(s, i).value <= |s| && IsEmailText(s[i..EmailMatchAt(s, i).value])
  {
    var at := i + Run(s, i, Local);
    var e := at + 1 + Run(s, at + 1, Domain);
    var p := LastTld(s, at + 2, e).value;
    var end := EmailMatchAt(s, i).value;
    RunAllIn(s, i, Local);
    RunAllIn(s, at + 1, Domain);
    RunAllIn(s, p + 1, Letter);
    ShapeOfSlice(s, i, end, at, p);
  }

  /** The scanner succeeds once the local run ends at an `@` and a dot with two letters lies inside the domain run. */
  lemma EmailMatchFromParts(s: string, i: nat, at: nat, dot: nat)
    requires i <= at < |s| && at == i + Run(s, i, Local) && at > i && s[at] == '@'
    requires at + 2 <= dot < at + 1 + Run(s, at + 1, Domain) && TldAt(s, dot)
    ensures EmailMatchAt(s, i).Some?
  {
    DomainMatchFinds(s, at, dot);
  }

  /** A dot with two letters inside the domain run makes the domain part match. */
  lemma DomainMatchFinds(s: string, at: nat, dot: nat)
    requires at < |s| && at + 2 <= dot < at + 1 + Run(s, at + 1, Domain) && TldAt(s, dot)
    ensures DomainMatch(s, at).Some?
  {
    LastTldIsLast(s, at + 2, at + 1 + Run(s, at + 1, Domain));
  }


  /** The email shape laid out at positions of `s` from `i` to `j` makes the scanner match at `i`. */
  lemma EmailAtPositions(s: string, i: nat, j: nat, at: nat, dot: nat)
    requires i < at && at + 1 < dot && dot + 3 <= j <= |s|
    requires AllIn(s, i, at, Local) && s[at] == '@' && AllIn(s, at + 1, dot, Domain)
    requires s[dot] == '.' && AllIn(s, dot + 1, j, Letter)
    ensures EmailMatchAt(s, i).Some?
  {
    // `@` is no local character, so the local run ends exactly at the `@`
    RunReaches(s, i, at, Local);
    RunAllIn(s, i, Local);
    assert AllIn(s, at + 1, dot + 1, Domain);
    RunReaches(s, at + 1, dot + 1, Domain);
    RunReaches(s, dot + 1, j, Letter);
    EmailMatchFromParts(s, i, at, dot);
  }

  /** The last dot with two letters in `lo..e-1`, with its letter run, ends no earlier than the letters after any such dot. */
  lemma TldReaches(s: string, lo: nat, e: nat, dot: nat, j: nat)
    requires lo <= dot && dot + 3 <= j <= e <= |s|
    requires s[dot] == '.' && AllIn(s, dot + 1, j, Letter)
    ensures LastTld(s, lo, e).Some?
    ensures j <= LastTld(s, lo, e).value + 1 + Run(s, LastTld(s, lo, e).value + 1, Letter)
  {
    RunReaches(s, dot + 1, j, Letter);
    assert TldAt(s, dot);
    LastTldIsLast(s, lo, e);
    var p := LastTld(s, lo, e).value;
    // a later dot cannot lie among the letters after `dot`
    assert p == dot || j <= p;
  }

  /** The match the scanner makes for an email shape laid out from `i` to `j` reaches at least `j`. */
  lemma EmailMatchReaches(s: string, i: nat, j: nat, at: nat, dot: nat)
    requires i < at && at + 1 < dot && dot + 3 <= j <= |s|
    requires AllIn(s, i, at, Local) && s[at] == '@' && AllIn(s, at + 1, dot, Domain)
    requires s[dot] == '.' && AllIn(s, dot + 1, j, Letter)
    ensures EmailMatchAt(s, i).Some? && j <= EmailMatchAt(s, i).value
  {
    // the local run stops at the `@`
    RunReaches(s, i, at, Local);
    RunAllIn(s, i, Local);
    assert i + Run(s, i, Local) == at;
    // the domain run covers the dot and the letters after it
    assert AllIn(s, at + 1, j, Domain);
    RunReaches(s, at + 1, j, Domain);
    TldReaches(s, at + 2, at + 1 + Run(s, at + 1, Domain), dot, j);
  }

  /** Wherever email text starts at `i`, the scanner matches there, at least as far. */
  lemma EmailMatchComplete(s: string, i: nat, j: nat)
    requires i < j <= |s| && IsEmailText(s[i..j])
    ensures EmailMatchAt(s, i).Some? && j <= EmailMatchAt(s, i).value
  {
    var a', d' :| 0 < a' < d' < j - i && EmailShape(s[i..j], a', d');
    SliceOfShape(s, i, j, a', d');
    EmailMatchReaches(s, i, j, i + a', i + d');
  }

  /** `email_pattern.findall(s)[0]`: the leftmost match at or after `from`, if any. */
  function FirstEmail(s: string, from: nat): (r: Option<string>)
    requires from <= |s|
    decreases |s| - from
  {
    if from == |s| then None
    else match EmailMatchAt(s, from)
      case Some(end) => Some(s[from..end])
      case None => FirstEmail(s, from + 1)
  }

  /** No stretch of `s` that starts in `from..i` is email text. */
  predicate NoEmailBefore(s: string, from: nat, i: nat) {
    forall k, j :: from <= k < i && k < j <= |s| ==> !IsEmailText(s[k..j])
  }

  /** No stretch of `s` that starts at `i` and ends after `end` is email text. */
  predicate NoLongerEmail(s: string, i: nat, end: nat) {
    forall j :: end < j <= |s| && i <= j ==> !IsEmailText(s[i..j])
  }

  /**
   * `t` occurs in `s` at some position at or after `from` before which no
   * email text starts, and no longer email text starts there.
   */
  predicate LeftmostEmail(s: string, t: string, from: nat) {
    exists i :: from <= i <= |s| && OccursAt(s, t, i) && NoEmailBefore(s, from, i) && NoLongerEmail(s, i, i + |t|)
  }

  /** At most one email text is leftmost and longest: the first email found is the only one. */
  lemma LeftmostEmailUnique(s: string, t1: string, t2: string, from: nat)
    requires IsEmailText(t1) && LeftmostEmail(s, t1, from)
    requires IsEmailText(t2) && LeftmostEmail(s, t2, from)
    ensures t1 == t2
  {
    var i1 :| from <= i1 <= |s| && OccursAt(s, t1, i1) && NoEmailBefore(s, from, i1) && NoLongerEmail(s, i1, i1 + |t1|);
    var i2 :| from <= i2 <= |s| && OccursAt(s, t2, i2) && NoEmailBefore(s, from, i2) && NoLongerEmail(s, i2, i2 + |t2|);
    assert IsEmailText(s[i1..i1 + |t1|]) && IsEmailText(s[i2..i2 + |t2|]);
    assert i1 == i2;
    assert |t1| == |t2|;
  }

  /** No email text is longer than the scanner's match at `i`. */
  lemma EmailMatchLongest(s: string, i: nat, end: nat)
    requires i < |s| && EmailMatchAt(s, i) == Some(end)
    ensures NoLongerEmail(s, i, end)
  {
    forall j | end < j <= |s| && i <= j ensures !IsEmailText(s[i..j]) {
      if IsEmailText(s[i..j]) {
        EmailMatchComplete(s, i, j);
      }
    }
  }

  /** Where the scanner matches nothing, no email text starts. */
  lemma NoEmailMatchNoEmail(s: string, i: nat)
    requires i < |s| && EmailMatchAt(s, i).None?
    ensures forall j :: i < j <= |s| ==> !IsEmailText(s[i..j])
  {
    forall j | i < j <= |s| ensures !IsEmailText(s[i..j]) {
      if IsEmailText(s[i..j]) {
        EmailMatchComplete(s, i, j);
      }
    }
  }

  /** The first email found occurs in `s` at a position before which no email text starts, and is the longest there. */
  lemma {:induction false} FirstEmailLeftmost(s: string, from: nat)
    requires from <= |s| && FirstEmail(s, from).Some?
    ensures LeftmostEmail(s, FirstEmail(s, from).value, from)
    decreases |s| - from
  {
    match EmailMatchAt(s, from)
    case Some(end) =>
      EmailMatchSound(s, from);
      assert OccursAt(s, s[from..end], from);
      assert NoEmailBefore(s, from, from);
      EmailMatchLongest(s, from, end);
      assert NoLongerEmail(s, from, from + |s[from..end]|);
    case None =>
      FirstEmailLeftmost(s, from + 1);
      var t := FirstEmail(s, from).value;
      var i :| from + 1 <= i <= |s| && OccursAt(s, t, i) && NoEmailBefore(s, from + 1, i) && NoLongerEmail(s, i, i + |t|);
      NoEmailMatchNoEmail(s, from);
      assert NoEmailBefore(s, from, i);
  }

  /** The first email found is email text occurring leftmost in `s`, and there is an email exactly when one is found. */
  lemma FirstEmailIff(s: string, from: nat)
    requires from <= |s|
    ensures FirstEmail(s, from).Some? ==> IsEmailText(FirstEmail(s, from).value)
    ensures FirstEmail(s, from).Some? ==> LeftmostEmail(s, FirstEmail(s, from).value, from)
    ensures FirstEmail(s, from).None? <==> forall i, j :: from <= i < j <= |s| ==> !IsEmailText(s[i..j])
  {
    FirstEmailExact(s, from);
    if FirstEmail(s, from).Some? {
      FirstEmailLeftmost(s, from);
    }
  }

  /** The first email found is email text, and none is found exactly when no stretch is email text. */
  lemma {:induction false} FirstEmailExact(s: string, from: nat)
    requires from <= |s|
    ensures FirstEmail(s, from).Some? ==> IsEmailText(FirstEmail(s, from).value)
    ensures FirstEmail(s, from).None? <==> forall i, j :: from <= i < j <= |s| ==> !IsEmailText(s[i..j])
    decreases |s| - from
  {
    if from < |s| {
      match EmailMatchAt(s, from)
      case Some(end) =>
        EmailMatchSound(s, from);
      case None =>
        FirstEmailExact(s, from + 1);
        forall j | from < j <= |s| ensures !IsEmailText(s[from..j]) {
          if IsEmailText(s[from..j]) {
            EmailMatchComplete(s, from, j);
          }
        }
    }
  }
}
