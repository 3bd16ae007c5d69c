/**
 * Heuristic lead extraction from scraped artifacts: HTML is flattened to one
 * line of text, each line holding an email or a phone number becomes a lead,
 * and when no line does, up to five phones found anywhere in the text become
 * low-confidence leads named after the words just before them.
 */
module LeadExtractor {
  import opened Wrappers
  import opened Strings
  import opened Models
  import opened Patterns

  // ---------------------------------------------------------------------------
  // HTML to text
  // ---------------------------------------------------------------------------

  /**
   * `re.sub(open + ".*?" + close, " ", s, flags=re.S | re.I)`: from each
   * opening marker to the first closing marker after it, the block becomes one
   * space; an opening marker with no closing marker after it stays as text.
   */
  function RemoveBlocks(s: string, open: string, close: string): (r: string)
    requires open != []
    decreases |s|
  {
    if s == [] then []
    else if OccursAtIgnoringCase(s, open, 0) then
      match FindFromIgnoringCase(s, close, |open|)
      case Some(j) => " " + RemoveBlocks(s[j + |close|..], open, close)
      case None => [s[0]] + RemoveBlocks(s[1..], open, close)
    else [s[0]] + RemoveBlocks(s[1..], open, close)
  }

  /** The number of characters other than `>` from position `i` on. */
  function UntilClose(s: string, i: nat): (n: nat)
    requires i <= |s|
    ensures i + n <= |s|
    ensures forall k :: i <= k < i + n ==> s[k] != '>'
    ensures i + n < |s| ==> s[i + n] == '>'
    decreases |s| - i
  {
    if i < |s| && s[i] != '>' then 1 + UntilClose(s, i + 1) else 0
  }

  /** The length of the tag `<[^>]+>` at the start of `s`, or 0 when none starts there. */
  function TagLength(s: string): (n: nat)
    ensures n == 0 || (2 < n <= |s| && s[0] == '<' && s[n - 1] == '>')
    ensures n > 0 ==> forall k :: 1 <= k < n - 1 ==> s[k] != '>'
  {
    if s != [] && s[0] == '<' then
      var m := UntilClose(s, 1);
      if m >= 1 && 1 + m < |s| then m + 2 else 0
    else 0
  }

  /** `re.sub(r"<[^>]+>", " ", s)`: every tag becomes one space. */
  function StripTags(s: string): (r: string)
    decreases |s|
  {
    if s == [] then []
    else if TagLength(s) > 0 then " " + StripTags(s[TagLength(s)..])
    else [s[0]] + StripTags(s[1..])
  }

  /** `re.sub(r"\s+", " ", s)`: every maximal run of whitespace becomes one space. */
  function Collapse(s: string): (r: string)
    ensures forall k :: 0 <= k < |r| && IsSpace(r[k]) ==> r[k] == ' '
    ensures forall k :: 0 <= k < |r| - 1 ==> !(IsSpace(r[k]) && IsSpace(r[k + 1]))
    ensures s == [] <==> r == []
    ensures s != [] ==> (IsSpace(r[0]) <==> IsSpace(s[0]))
    decreases |s|
  {
    if s == [] then []
    else if IsSpace(s[0]) then
      var t := TrimStart(s);
      assert |t| < |s| by { assert t == s[|s| - |t|..]; }
      " " + Collapse(t)
    else [s[0]] + Collapse(s[1..])
  }

  /** The text of a page: scripts and styles dropped, tags blanked, entities decoded, whitespace collapsed. */
  function HtmlToText(html: string, unescape: string -> string): string {
    var noScripts := RemoveBlocks(html, "<script", "</script>");
    var noStyles := RemoveBlocks(noScripts, "<style", "</style>");
    Collapse(unescape(StripTags(noStyles)))
  }

  /** Text in which every whitespace character is a plain space and no two of them are adjacent. */
  predicate Collapsed(t: string) {
    (forall k :: 0 <= k < |t| && IsSpace(t[k]) ==> t[k] == ' ') &&
    (forall k :: 0 <= k < |t| - 1 ==> !(IsSpace(t[k]) && IsSpace(t[k + 1])))
  }

  /** The text of any page is collapsed and so holds no line break at all. */
  lemma HtmlToTextIsOneLine(html: string, unescape: string -> string)
    ensures Collapsed(HtmlToText(html, unescape))
    ensures forall k :: 0 <= k < |HtmlToText(html, unescape)| ==> !IsLineBreak(HtmlToText(html, unescape)[k])
  {
    var t := HtmlToText(html, unescape);
    forall k | 0 <= k < |t|
      ensures !IsLineBreak(t[k])
    {
      if IsLineBreak(t[k]) {
        LineBreakIsSpace(t[k]);
      }
    }
  }

  /** The non-whitespace characters of `s`, in order. */
  function NonSpace(s: string): string
    decreases |s|
  {
    if s == [] then [] else (if IsSpace(s[0]) then [] else [s[0]]) + NonSpace(s[1..])
  }

  lemma {:induction false} NonSpaceTrimStart(s: string)
    ensures NonSpace(TrimStart(s)) == NonSpace(s)
    decreases |s|
  {
    if s != [] && IsSpace(s[0]) {
      NonSpaceTrimStart(s[1..]);
    }
  }

  /** Collapsing whitespace keeps every other character, in order. */
  lemma {:induction false} CollapseKeepsText(s: string)
    ensures NonSpace(Collapse(s)) == NonSpace(s)
    decreases |s|
  {
    if s != [] {
      if IsSpace(s[0]) {
        var t := TrimStart(s);
        assert |t| < |s| by { assert t == s[|s| - |t|..]; }
        CollapseKeepsText(t);
        NonSpaceTrimStart(s);
        assert (" " + Collapse(t))[1..] == Collapse(t);
      } else {
        CollapseKeepsText(s[1..]);
        assert ([s[0]] + Collapse(s[1..]))[1..] == Collapse(s[1..]);
      }
    }
  }

  /** Collapsed text is left as it is, so collapsing twice changes nothing more. */
  lemma {:induction false} CollapseFixesCollapsed(s: string)
    requires Collapsed(s)
    ensures Collapse(s) == s
    decreases |s|
  {
    if s != [] {
      assert Collapsed(s[1..]);
      CollapseFixesCollapsed(s[1..]);
      if IsSpace(s[0]) {
        assert s[0] == ' ';
        assert TrimStart(s) == s[1..] by {
          assert TrimStart(s) == TrimStart(s[1..]);
          if |s| > 1 { assert !IsSpace(s[1]); }
        }
      }
    }
  }

  lemma CollapseIdempotent(s: string)
    ensures Collapse(Collapse(s)) == Collapse(s)
  {
    CollapseFixesCollapsed(Collapse(s));
  }

  /** Text without any `<` holds no tag and is left as it is. */
  lemma {:induction false} StripTagsKeepsPlainText(s: string)
    requires forall k :: 0 <= k < |s| ==> s[k] != '<'
    ensures StripTags(s) == s
    decreases |s|
  {
    if s != [] {
      StripTagsKeepsPlainText(s[1..]);
    }
  }

  /** Text in which the opening marker never occurs is left as it is. */
  lemma {:induction false} RemoveBlocksKeepsPlainText(s: string, open: string, close: string)
    requires open != []
    requires forall k :: 0 <= k ==> !OccursAtIgnoringCase(s, open, k)
    ensures RemoveBlocks(s, open, close) == s
    decreases |s|
  {
    if s != [] {
      forall k | 0 <= k
        ensures !OccursAtIgnoringCase(s[1..], open, k)
      {
        assert !OccursAtIgnoringCase(s, open, k + 1);
        if k + |open| <= |s[1..]| {
          assert s[1..][k..k + |open|] == s[k + 1..k + 1 + |open|];
        }
      }
      RemoveBlocksKeepsPlainText(s[1..], open, close);
    }
  }

  // ---------------------------------------------------------------------------
  // Lines
  // ---------------------------------------------------------------------------

  /** The length of the first line of `s`: the characters before the first line break. */
  function LineLength(s: string): (n: nat)
    ensures n <= |s|
    ensures forall k :: 0 <= k < n ==> !IsLineBreak(s[k])
    ensures n < |s| ==> IsLineBreak(s[n])
  {
    if s == [] || IsLineBreak(s[0]) then 0 else 1 + LineLength(s[1..])
  }

  /** A non-empty line without surrounding whitespace, as `str.strip` leaves it. */
  predicate Stripped(l: string) {
    l != [] && !IsSpace(l[0]) && !IsSpace(l[|l| - 1])
  }

  /** `[ln.strip() for ln in s.splitlines() if ln.strip()]`. */
  function Lines(s: string): (ls: seq<string>)
    ensures forall k :: 0 <= k < |ls| ==> Stripped(ls[k])
    decreases |s|
  {
    var n := LineLength(s);
    var line := Strip(s[..n]);
    var rest := if n < |s| then Lines(s[n + 1..]) else [];
    if line == [] then rest
    else
      assert Stripped(line);
      var ls := [line] + rest;
      assert forall k :: 0 <= k < |ls| ==> Stripped(ls[k]) by {
        forall k | 0 < k < |ls|
          ensures Stripped(ls[k])
        {
          assert ls[k] == rest[k - 1];
        }
      }
      ls
  }

  /** Text without line breaks is one line, or none when it is blank. */
  lemma OneLineText(s: string)
    requires forall k :: 0 <= k < |s| ==> !IsLineBreak(s[k])
    ensures Lines(s) == if Strip(s) == [] then [] else [Strip(s)]
  {
    assert LineLength(s) == |s|;
    assert s[..|s|] == s;
  }

  // ---------------------------------------------------------------------------
  // The line pass
  // ---------------------------------------------------------------------------

  /** No lead is added once the list holds more than this many. */
  const LineCap := 20
  /** The longest company name the heuristics produce from a line or a window. */
  const NameLimit := 120

  /** The company named by a line: the text before its first `" - "`, else the line, cut to 120 characters. */
  function Company(line: string): (c: string)
    ensures |c| <= NameLimit && |c| <= |line| && c == line[..|c|]
    ensures FindFrom(c, " - ", 0).None?
    ensures |c| < NameLimit ==> c == line || OccursAt(line, " - ", |c|)
  {
    var cut := FindFrom(line, " - ", 0);
    var c := Take(if cut.Some? then line[..cut.value] else line, NameLimit);
    FindFromIsFirst(line, " - ", 0);
    assert FindFrom(c, " - ", 0).None? by {
      forall j | 0 <= j && OccursAt(c, " - ", j)
        ensures false
      {
        OccursInPrefix(c, line, " - ", j);
      }
    }
    c
  }

  /** The lead built for a line from its first email match and its phone matches. */
  function LeadOfLine(line: string, email: Option<string>, phones: seq<string>, source: string, now: string): LeadCandidate {
    NewLead(Company(line), email, if phones == [] then None else Some(phones[0]), Some(source),
            if email.Some? then 0.5 else 0.4, now)
  }

  /** The lead a line yields: one when it holds an email or a phone match. */
  function LineLead(line: string, source: string, now: string): Option<LeadCandidate> {
    var email := FirstEmail(line, 0);
    var phones := Phones(line, 0);
    if email.None? && phones == [] then None else Some(LeadOfLine(line, email, phones, source, now))
  }

  /** What each line yields, in order. */
  function LineOutcomes(lines: seq<string>, source: string, now: string): (found: seq<Option<LeadCandidate>>)
    ensures |found| == |lines|
  {
    seq(|lines|, k requires 0 <= k < |lines| => LineLead(lines[k], source, now))
  }

  /** The leads the line pass keeps from the first `n` outcomes: none is added once more than `LineCap` exist. */
  function Capped(found: seq<Option<LeadCandidate>>, n: nat): (kept: seq<LeadCandidate>)
    requires n <= |found|
    ensures |kept| <= n && |kept| <= LineCap + 1
  {
    if n == 0 then []
    else
      var prev := Capped(found, n - 1);
      if |prev| > LineCap || found[n - 1].None? then prev else prev + [found[n - 1].value]
  }

  /** The fallback's company guess: five of the six last words of the window, else its first 120 characters. */
  function Guess(window: string): string {
    var parts := Words(window);
    if |parts| >= 6 then Join(" ", parts[|parts| - 6..|parts| - 1]) else Take(window, NameLimit)
  }

  /** `text[max(0, idx - 60) : idx + 20]` with Python's slice clamping; `idx` may be -1. */
  function Window(text: string, idx: int): (w: string)
    requires -1 <= idx <= |text|
    ensures |w| <= 80 && |w| <= |text|
    ensures 60 <= idx && idx + 20 <= |text| ==> |w| == 80
  {
    var lo := if idx - 60 < 0 then 0 else idx - 60;
    var hi := if idx + 20 > |text| then |text| else idx + 20;
    text[lo..hi]
  }

  /** The fallback lead for a phone match of the whole text. */
  function FallbackLead(text: string, ph: string, source: string, now: string): LeadCandidate {
    var guess := Strip(Guess(Window(text, Find(text, ph))));
    NewLead(if guess == [] then "Unknown" else guess, None, Some(ph), Some(source), 0.3, now)
  }

  /** How many phone matches of the whole text the fallback turns into leads. */
  const FallbackCap := 5

  /** The fallback lead of each phone match of `text`. */
  function FallbackOf(text: string, source: string, now: string): string -> LeadCandidate {
    ph => FallbackLead(text, ph, source, now)
  }

  /** `[f(x) for x in xs[:n]]`. */
  function MapPrefix<A, B>(f: A -> B, xs: seq<A>, n: nat): (ys: seq<B>)
    requires n <= |xs|
    ensures |ys| == n
  {
    if n == 0 then [] else MapPrefix(f, xs, n - 1) + [f(xs[n - 1])]
  }

  /** Element `k` of the mapped prefix is `f` of element `k`. */
  lemma {:induction false} MapPrefixAt<A, B>(f: A -> B, xs: seq<A>, n: nat, k: nat)
    requires k < n <= |xs|
    ensures MapPrefix(f, xs, n)[k] == f(xs[k])
  {
    if k < n - 1 {
      MapPrefixAt(f, xs, n - 1, k);
    }
  }

  /** The fallback leads: one for each of the first five phone matches of the text. */
  function FallbackLeads(text: string, source: string, now: string): seq<LeadCandidate> {
    var phones := Phones(text, 0);
    MapPrefix(FallbackOf(text, source, now), phones, if |phones| < FallbackCap then |phones| else FallbackCap)
  }

  /** The leads of one page's text: those of the line pass, or the fallback's when there are none. */
  function HeuristicLeads(text: string, source: string, now: string): seq<LeadCandidate> {
    var lines := Lines(text);
    var byLine := Capped(LineOutcomes(lines, source, now), |lines|);
    if byLine != [] then byLine else FallbackLeads(text, source, now)
  }

  /** Once more than `LineCap` leads exist the line pass adds no more. */
  lemma {:induction false} CappedStops(found: seq<Option<LeadCandidate>>, n: nat, m: nat)
    requires n <= m <= |found| && |Capped(found, n)| > LineCap
    ensures Capped(found, m) == Capped(found, n)
    decreases m - n
  {
    if n < m {
      CappedStops(found, n, m - 1);
    }
  }

  /** The line pass of `_heuristic_extract`: a lead per line with an email or a phone, stopping past the cap. */
  method ScanLines(lines: seq<string>, source: string, now: string) returns (leads: seq<LeadCandidate>)
    ensures leads == Capped(LineOutcomes(lines, source, now), |lines|)
  {
    ghost var found := LineOutcomes(lines, source, now);
    leads := [];
    var i := 0;
    while i < |lines|
      invariant i <= |lines|
      invariant leads == Capped(found, i)
    {
      if |leads| > LineCap {
        break;
      }
      var line := lines[i];
      var email := FirstEmail(line, 0);
      var phones := Phones(line, 0);
      assert found[i] == LineLead(line, source, now);
      if email.Some? || phones != [] {
        leads := leads + [LeadOfLine(line, email, phones, source, now)];
      }
      i := i + 1;
    }
    if i < |lines| {
      CappedStops(found, i, |lines|);
    }
  }

  /** The fallback of `_heuristic_extract`: a lead for each of the first five phone matches of the text. */
  method ScanFallback(text: string, source: string, now: string) returns (leads: seq<LeadCandidate>)
    ensures leads == FallbackLeads(text, source, now)
  {
    leads := [];
    var phones := Phones(text, 0);
    var n := if |phones| < FallbackCap then |phones| else FallbackCap;
    for k := 0 to n
      invariant leads == MapPrefix(FallbackOf(text, source, now), phones, k)
    {
      var ph := phones[k];
      var idx := Find(text, ph);
      var window := Window(text, idx);
      var company := Strip(Guess(window));
      if company == [] {
        company := "Unknown";
      }
      leads := leads + [NewLead(company, None, Some(ph), Some(source), 0.3, now)];
    }
  }

  /** `_heuristic_extract`: the line pass, then the fallback when it found nothing. */
  method HeuristicExtract(text: string, source: string, now: string) returns (leads: seq<LeadCandidate>)
    ensures leads == HeuristicLeads(text, source, now)
  {
    leads := ScanLines(Lines(text), source, now);
    if leads == [] {
      leads := ScanFallback(text, source, now);
    }
  }

  // ---------------------------------------------------------------------------
  // Extraction over artifacts
  // ---------------------------------------------------------------------------

  /** The leads one artifact yields: the heuristic leads of its page text when it is `ok`, else none. */
  function ArtifactLeads(a: ScrapeArtifact, unescape: string -> string, now: string): seq<LeadCandidate> {
    if a.status != Ok then [] else HeuristicLeads(HtmlToText(a.html.GetOr(""), unescape), a.source, now)
  }

  /** The error one artifact contributes: its non-empty error when it is not `ok`. */
  function ArtifactErrors(a: ScrapeArtifact): seq<string> {
    if a.status != Ok && Filled(a.error) then [a.error.value] else []
  }

  /** The leads of the first `n` artifacts, in order. */
  function ExtractedLeads(arts: seq<ScrapeArtifact>, unescape: string -> string, now: string, n: nat): seq<LeadCandidate>
    requires n <= |arts|
  {
    ConcatPrefix(ArtifactLeadsOf(unescape, now), arts, n)
  }

  /** The leads of each artifact, as a function. */
  function ArtifactLeadsOf(unescape: string -> string, now: string): ScrapeArtifact -> seq<LeadCandidate> {
    a => ArtifactLeads(a, unescape, now)
  }

  /** `f(xs[0]) + ... + f(xs[n - 1])`. */
  function ConcatPrefix<A, B>(f: A -> seq<B>, xs: seq<A>, n: nat): seq<B>
    requires n <= |xs|
  {
    if n == 0 then [] else ConcatPrefix(f, xs, n - 1) + f(xs[n - 1])
  }

  /** `b` is an element of one of `f(xs[0])`, ..., `f(xs[n - 1])`. */
  ghost predicate InSomePart<A, B>(f: A -> seq<B>, xs: seq<A>, n: nat, b: B)
    requires n <= |xs|
  {
    exists k, j :: 0 <= k < n && 0 <= j < |f(xs[k])| && b == f(xs[k])[j]
  }

  /** Each element of the concatenation is an element of some `f(xs[k])`; it is empty when every part is. */
  lemma {:induction false} ConcatPrefixFrom<A, B>(f: A -> seq<B>, xs: seq<A>, n: nat)
    requires n <= |xs|
    ensures forall m :: 0 <= m < |ConcatPrefix(f, xs, n)| ==> InSomePart(f, xs, n, ConcatPrefix(f, xs, n)[m])
    ensures (forall k :: 0 <= k < n ==> f(xs[k]) == []) ==> ConcatPrefix(f, xs, n) == []
  {
    if n > 0 {
      ConcatPrefixFrom(f, xs, n - 1);
      var all := ConcatPrefix(f, xs, n);
      var prev := ConcatPrefix(f, xs, n - 1);
      var last := f(xs[n - 1]);
      assert all == prev + last;
      forall m | 0 <= m < |all|
        ensures InSomePart(f, xs, n, all[m])
      {
        if m < |prev| {
          assert InSomePart(f, xs, n - 1, prev[m]);
          var k, j :| 0 <= k < n - 1 && 0 <= j < |f(xs[k])| && prev[m] == f(xs[k])[j];
          assert all[m] == f(xs[k])[j];
        } else {
          assert all[m] == f(xs[n - 1])[m - |prev|];
        }
      }
    }
  }

  /** The errors of the first `n` artifacts, in order. */
  function ExtractErrors(arts: seq<ScrapeArtifact>, n: nat): seq<string>
    requires n <= |arts|
  {
    if n == 0 then [] else ExtractErrors(arts, n - 1) + ArtifactErrors(arts[n - 1])
  }

  /** One iteration of `extract_leads`: route a failed artifact's error, or parse an `ok` artifact's page. */
  method ExtractOne(art: ScrapeArtifact, unescape: string -> string, now: string) returns (parsed: seq<LeadCandidate>, error: seq<string>)
    ensures parsed == ArtifactLeads(art, unescape, now)
    ensures error == ArtifactErrors(art)
  {
    parsed := [];
    error := [];
    if art.status != Ok {
      if art.error.Some? && art.error.value != "" {
        error := [art.error.value];
      }
    } else {
      var html := if art.html.Some? then art.html.value else "";
      var text := HtmlToText(html, unescape);
      parsed := HeuristicExtract(text, art.source, now);
    }
  }

  /** `extract_leads` with the LLM pass off: heuristic leads of `ok` artifacts, errors of the others. */
  method ExtractLeads(arts: seq<ScrapeArtifact>, unescape: string -> string, now: string)
    returns (leads: seq<LeadCandidate>, errors: seq<string>)
    ensures leads == ExtractedLeads(arts, unescape, now, |arts|)
    ensures errors == ExtractErrors(arts, |arts|)
  {
    leads := [];
    errors := [];
    for i := 0 to |arts|
      invariant leads == ExtractedLeads(arts, unescape, now, i)
      invariant errors == ExtractErrors(arts, i)
    {
      var parsed, error := ExtractOne(arts[i], unescape, now);
      leads := leads + parsed;
      errors := errors + error;
    }
  }

  // ---------------------------------------------------------------------------
  // Properties of the heuristics
  // ---------------------------------------------------------------------------

  /** Some stretch of `s` is email text. */
  predicate HasEmail(s: string) {
    exists i, j :: 0 <= i < j <= |s| && IsEmailText(s[i..j])
  }

  /** Some stretch of `s` is phone text. */
  predicate HasPhone(s: string) {
    exists i, j :: 0 <= i < j <= |s| && IsPhoneText(s[i..j])
  }

  /** `l` is the lead the line pass makes of `line`. */
  predicate FromLine(l: LeadCandidate, line: string, source: string, now: string) {
    && l.companyName == Company(line) && l.source == Some(source) && l.capturedAt == now
    && (l.email.Some? <==> HasEmail(line))
    && (l.email.Some? ==> IsEmailText(l.email.value) && LeftmostEmail(line, l.email.value, 0))
    && (l.phone.Some? <==> HasPhone(line))
    && (l.phone.Some? ==> PhoneFoundAfter(line, l.phone.value, 0) && LeftmostPhone(line, l.phone.value, 0))
    && (l.email.Some? || l.phone.Some?)
    && l.confidence == (if l.email.Some? then 0.5 else 0.4)
    && l == NewLead(l.companyName, l.email, l.phone, l.source, l.confidence, l.capturedAt)
  }

  /** `FromLine` leaves no choice: the found email and phone are the leftmost longest ones, so the lead is determined. */
  lemma FromLineDetermines(l1: LeadCandidate, l2: LeadCandidate, line: string, source: string, now: string)
    requires FromLine(l1, line, source, now) && FromLine(l2, line, source, now)
    ensures l1 == l2
  {
    if l1.email.Some? {
      LeftmostEmailUnique(line, l1.email.value, l2.email.value, 0);
    }
    if l1.phone.Some? {
      LeftmostPhoneUnique(line, l1.phone.value, l2.phone.value, 0);
    }
  }

  /** A line yields a lead exactly when it holds email or phone text, and the lead carries what it found. */
  lemma LineLeadFacts(line: string, source: string, now: string)
    ensures LineLead(line, source, now).Some? <==> HasEmail(line) || HasPhone(line)
    ensures LineLead(line, source, now).Some? ==> FromLine(LineLead(line, source, now).value, line, source, now)
  {
    FirstEmailIff(line, 0);
    PhoneFoundIff(line);
    PhonesAreMatches(line, 0);
    if Phones(line, 0) != [] {
      FirstPhoneLeftmost(line, 0);
    }
  }

  /** A stripped line names a non-empty company: a line cannot start with `" - "`. */
  lemma CompanyNonEmpty(line: string)
    requires Stripped(line)
    ensures Company(line) != []
  {
  }

  /** Every lead of the first `n` outcomes, with no cap: the reference the line pass is measured against. */
  function Found(found: seq<Option<LeadCandidate>>, n: nat): (ls: seq<LeadCandidate>)
    requires n <= |found|
    ensures |ls| <= n
  {
    if n == 0 then [] else Found(found, n - 1) + (if found[n - 1].Some? then [found[n - 1].value] else [])
  }

  /** The line pass keeps the first `LineCap + 1` of the leads found, or all of them when there are fewer. */
  lemma {:induction false} CappedIsPrefix(found: seq<Option<LeadCandidate>>, n: nat)
    requires n <= |found|
    ensures |Capped(found, n)| == if |Found(found, n)| <= LineCap + 1 then |Found(found, n)| else LineCap + 1
    ensures Capped(found, n) == Found(found, n)[..|Capped(found, n)|]
  {
    if n > 0 {
      CappedIsPrefix(found, n - 1);
      var prev := Capped(found, n - 1);
      var all := Found(found, n - 1);
      assert Found(found, n)[..|all|] == all;
      if |prev| > LineCap {
        assert Found(found, n)[..|prev|] == all[..|prev|];
      } else {
        assert prev == all;
      }
    }
  }

  /** `l` is one of the first `n` outcomes. */
  predicate FoundAmong(found: seq<Option<LeadCandidate>>, n: nat, l: LeadCandidate)
    requires n <= |found|
  {
    exists k :: 0 <= k < n && found[k] == Some(l)
  }

  /** Every lead found comes from one of the outcomes, and none is found exactly when every outcome is empty. */
  lemma {:induction false} FoundFrom(found: seq<Option<LeadCandidate>>, n: nat)
    requires n <= |found|
    ensures forall m :: 0 <= m < |Found(found, n)| ==> FoundAmong(found, n, Found(found, n)[m])
    ensures Found(found, n) == [] <==> forall k :: 0 <= k < n ==> found[k].None?
  {
    if n > 0 {
      FoundFrom(found, n - 1);
      var all := Found(found, n);
      var prev := Found(found, n - 1);
      forall m | 0 <= m < |all|
        ensures FoundAmong(found, n, all[m])
      {
        if m < |prev| {
          assert all[m] == prev[m];
          assert FoundAmong(found, n - 1, prev[m]);
        } else {
          assert found[n - 1] == Some(all[m]);
        }
      }
    }
  }

  /** The line pass: at most `LineCap + 1` leads, each made of one of the lines, and none exactly when no line holds email or phone text. */
  lemma LinePassFacts(lines: seq<string>, source: string, now: string)
    requires forall k :: 0 <= k < |lines| ==> Stripped(lines[k])
    ensures var kept := Capped(LineOutcomes(lines, source, now), |lines|);
      && |kept| <= LineCap + 1
      && (kept == [] <==> forall k :: 0 <= k < |lines| ==> !HasEmail(lines[k]) && !HasPhone(lines[k]))
      && forall m :: 0 <= m < |kept| ==>
           kept[m].companyName != [] && exists k :: 0 <= k < |lines| && FromLine(kept[m], lines[k], source, now)
  {
    var found := LineOutcomes(lines, source, now);
    var kept := Capped(found, |lines|);
    CappedIsPrefix(found, |lines|);
    FoundFrom(found, |lines|);
    var all := Found(found, |lines|);
    forall k | 0 <= k < |lines|
      ensures found[k].None? <==> !HasEmail(lines[k]) && !HasPhone(lines[k])
      ensures found[k].Some? ==> FromLine(found[k].value, lines[k], source, now) && found[k].value.companyName != []
    {
      LineLeadFacts(lines[k], source, now);
      CompanyNonEmpty(lines[k]);
    }
    forall m | 0 <= m < |kept|
      ensures kept[m].companyName != [] && exists k :: 0 <= k < |lines| && FromLine(kept[m], lines[k], source, now)
    {
      assert kept[m] == all[m];
      assert FoundAmong(found, |lines|, all[m]);
      var k :| 0 <= k < |lines| && found[k] == Some(all[m]);
      assert FromLine(kept[m], lines[k], source, now);
    }
  }

  /** `l` is the fallback lead made of the phone match `ph` of `text`. */
  predicate FromFallback(l: LeadCandidate, ph: string, text: string, source: string, now: string) {
    && l.phone == Some(ph) && PhoneFoundAfter(text, ph, 0) && l.email.None?
    && l.confidence == 0.3 && l.source == Some(source) && l.capturedAt == now
    && (l.companyName == "Unknown" || Stripped(l.companyName))
  }

  /** The fallback lead of a phone match is made of it. */
  lemma FallbackLeadFacts(text: string, ph: string, source: string, now: string)
    requires PhoneFoundAfter(text, ph, 0)
    ensures FromFallback(FallbackLead(text, ph, source, now), ph, text, source, now)
  {
    var guess := Strip(Guess(Window(text, Find(text, ph))));
    assert guess != [] ==> Stripped(guess);
  }

  /** The fallback: a lead for each of the first five phone matches of the text, each cut around a real occurrence. */
  lemma FallbackFacts(text: string, source: string, now: string)
    ensures |FallbackLeads(text, source, now)| == (if |Phones(text, 0)| < FallbackCap then |Phones(text, 0)| else FallbackCap)
    ensures forall k :: 0 <= k < |FallbackLeads(text, source, now)| ==>
      FromFallback(FallbackLeads(text, source, now)[k], Phones(text, 0)[k], text, source, now)
    ensures forall k :: 0 <= k < |Phones(text, 0)| ==> Find(text, Phones(text, 0)[k]) >= 0
  {
    var phones := Phones(text, 0);
    var leads := FallbackLeads(text, source, now);
    PhonesAreMatches(text, 0);
    forall k | 0 <= k < |phones|
      ensures Find(text, phones[k]) >= 0
    {
      FindIsFirst(text, phones[k]);
    }
    forall k | 0 <= k < |leads|
      ensures FromFallback(leads[k], phones[k], text, source, now)
    {
      MapPrefixAt(FallbackOf(text, source, now), phones, |leads|, k);
      FallbackLeadFacts(text, phones[k], source, now);
    }
  }

  /** What every lead of `_heuristic_extract` carries, whichever pass made it. */
  predicate HeuristicShape(l: LeadCandidate, source: string, now: string) {
    && l.source == Some(source) && l.capturedAt == now && l.companyName != []
    && l.confidence in {0.3, 0.4, 0.5}
    && (l.email.Some? <==> l.confidence == 0.5)
    && (l.phone.Some? || l.email.Some?)
  }

  /** What `_heuristic_extract` returns: at most 21 leads, each of the shape above. */
  lemma HeuristicFacts(text: string, source: string, now: string)
    ensures |HeuristicLeads(text, source, now)| <= LineCap + 1
    ensures forall m :: 0 <= m < |HeuristicLeads(text, source, now)| ==> HeuristicShape(HeuristicLeads(text, source, now)[m], source, now)
  {
    var lines := Lines(text);
    var byLine := Capped(LineOutcomes(lines, source, now), |lines|);
    var leads := HeuristicLeads(text, source, now);
    if byLine != [] {
      LinePassFacts(lines, source, now);
      assert leads == byLine;
      forall m | 0 <= m < |byLine|
        ensures HeuristicShape(byLine[m], source, now)
      {
        var k :| 0 <= k < |lines| && FromLine(byLine[m], lines[k], source, now);
      }
    } else {
      FallbackFacts(text, source, now);
      assert leads == FallbackLeads(text, source, now);
      var phones := Phones(text, 0);
      forall m | 0 <= m < |leads|
        ensures HeuristicShape(leads[m], source, now)
      {
        assert FromFallback(leads[m], phones[m], text, source, now);
      }
    }
  }

  /** The fallback runs exactly when no line of the text holds email or phone text. */
  lemma HeuristicFallsBack(text: string, source: string, now: string)
    ensures (forall k :: 0 <= k < |Lines(text)| ==> !HasEmail(Lines(text)[k]) && !HasPhone(Lines(text)[k])) ==>
      HeuristicLeads(text, source, now) == FallbackLeads(text, source, now)
    ensures !(forall k :: 0 <= k < |Lines(text)| ==> !HasEmail(Lines(text)[k]) && !HasPhone(Lines(text)[k])) ==>
      HeuristicLeads(text, source, now) == Capped(LineOutcomes(Lines(text), source, now), |Lines(text)|) != []
  {
    LinePassFacts(Lines(text), source, now);
  }

  // ---------------------------------------------------------------------------
  // Properties of the extraction over artifacts
  // ---------------------------------------------------------------------------

  /** Errors are the non-empty errors of failed artifacts, at most one each; none exactly when no failed artifact has one. */
  lemma {:induction false} ExtractErrorsFacts(arts: seq<ScrapeArtifact>, n: nat)
    requires n <= |arts|
    ensures |ExtractErrors(arts, n)| <= n
    ensures forall m :: 0 <= m < |ExtractErrors(arts, n)| ==>
      ExtractErrors(arts, n)[m] != "" && exists k :: 0 <= k < n && arts[k].status != Ok && arts[k].error == Some(ExtractErrors(arts, n)[m])
    ensures ExtractErrors(arts, n) == [] <==> forall k :: 0 <= k < n ==> arts[k].status == Ok || !Filled(arts[k].error)
  {
    if n > 0 {
      ExtractErrorsFacts(arts, n - 1);
      var errs := ExtractErrors(arts, n);
      var prev := ExtractErrors(arts, n - 1);
      var last := ArtifactErrors(arts[n - 1]);
      assert errs == prev + last;
      assert last != [] ==> last == [arts[n - 1].error.value] && arts[n - 1].status != Ok && Filled(arts[n - 1].error);
      forall m | 0 <= m < |errs|
        ensures errs[m] != "" && exists k :: 0 <= k < n && arts[k].status != Ok && arts[k].error == Some(errs[m])
      {
        if m < |prev| {
          assert errs[m] == prev[m];
          var k :| 0 <= k < n - 1 && arts[k].status != Ok && arts[k].error == Some(prev[m]);
        } else {
          assert errs[m] == last[0];
          assert arts[n - 1].error == Some(errs[m]);
        }
      }
    }
  }

  /** An artifact's leads carry its source and the extraction time; a failed artifact has none. */
  lemma ArtifactLeadsFacts(a: ScrapeArtifact, unescape: string -> string, now: string)
    ensures a.status != Ok ==> ArtifactLeads(a, unescape, now) == []
    ensures forall m :: 0 <= m < |ArtifactLeads(a, unescape, now)| ==>
      ArtifactLeads(a, unescape, now)[m].source == Some(a.source) && ArtifactLeads(a, unescape, now)[m].capturedAt == now
  {
    if a.status == Ok {
      HeuristicFacts(HtmlToText(a.html.GetOr(""), unescape), a.source, now);
    }
  }

  /** Every lead comes from an `ok` artifact, carries its source and the extraction time, and failed artifacts yield none. */
  lemma ExtractedLeadsFacts(arts: seq<ScrapeArtifact>, unescape: string -> string, now: string, n: nat)
    requires n <= |arts|
    ensures forall m :: 0 <= m < |ExtractedLeads(arts, unescape, now, n)| ==>
      && ExtractedLeads(arts, unescape, now, n)[m].capturedAt == now
      && exists k :: 0 <= k < n && arts[k].status == Ok && ExtractedLeads(arts, unescape, now, n)[m].source == Some(arts[k].source)
    ensures (forall k :: 0 <= k < n ==> arts[k].status != Ok) ==> ExtractedLeads(arts, unescape, now, n) == []
  {
    var f := ArtifactLeadsOf(unescape, now);
    var leads := ExtractedLeads(arts, unescape, now, n);
    ConcatPrefixFrom(f, arts, n);
    forall m | 0 <= m < |leads|
      ensures leads[m].capturedAt == now
      ensures exists k :: 0 <= k < n && arts[k].status == Ok && leads[m].source == Some(arts[k].source)
    {
      assert InSomePart(f, arts, n, leads[m]);
      var k, j :| 0 <= k < n && 0 <= j < |f(arts[k])| && leads[m] == f(arts[k])[j];
      ArtifactLeadsFacts(arts[k], unescape, now);
    }
  }
}
