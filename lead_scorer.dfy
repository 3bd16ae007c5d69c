/**
 * Rule-based lead scoring (`score_leads`): each lead starts at 0.2, gains or
 * loses a fixed amount per rule that fires, is clamped to [0, 1] and carries
 * the list of fired rules as its rationale; the scored leads are then sorted
 * by score, highest first, keeping the input order among equal scores.
 * Scores are exact reals here, not binary floating point.
 */
module LeadScorer {
  import opened Wrappers
  import opened Strings
  import opened Models

  // ---------------------------------------------------------------------------
  // The rules, one lead at a time
  // ---------------------------------------------------------------------------

  /** `filters or SearchFilters()`: a missing filter object means no categories and no requirements. */
  function FiltersOrDefault(filters: Option<SearchFilters>): (f: SearchFilters)
    ensures filters.Some? ==> f == filters.value
    ensures filters.None? ==> f.categories == [] && !f.mustHaveEmail && !f.mustHavePhone && f.custom == map[]
  {
    filters.GetOr(SearchFilters([], false, false, map[]))
  }

  /** `[c.lower() for c in categories]`. */
  function LowerAll(cs: seq<string>): (r: seq<string>)
    ensures |r| == |cs|
    ensures forall i :: 0 <= i < |cs| ==> r[i] == Lower(cs[i])
  {
    if cs == [] then [] else [Lower(cs[0])] + LowerAll(cs[1..])
  }

  /** The lead's category equals one of the filter's categories, ignoring ASCII case. */
  predicate CategoryMatch(l: LeadCandidate, f: SearchFilters) {
    Filled(l.category) && exists i :: 0 <= i < |f.categories| && Lower(f.categories[i]) == Lower(l.category.value)
  }

  /** The amount a rule adds when it fires. */
  function Weight(fires: bool, amount: real): real {
    if fires then amount else 0.0
  }

  /** The unclamped score: the base plus every fired rule's amount. */
  function RawScore(l: LeadCandidate, f: SearchFilters): real {
    0.2
      + Weight(Filled(l.email), 0.3)
      + Weight(Filled(l.phone), 0.2)
      + Weight(CategoryMatch(l, f), 0.2)
      + Weight(f.mustHaveEmail && !Filled(l.email), -0.3)
      + Weight(f.mustHavePhone && !Filled(l.phone), -0.2)
  }

  /** `max(0.0, min(1.0, x))`. */
  function Clamp(x: real): (r: real)
    ensures 0.0 <= r <= 1.0
    ensures 0.0 <= x <= 1.0 ==> r == x
    ensures x < 0.0 ==> r == 0.0
    ensures x > 1.0 ==> r == 1.0
  {
    if x > 1.0 then 1.0 else if x < 0.0 then 0.0 else x
  }

  /** The lead's final score. */
  function Score(l: LeadCandidate, f: SearchFilters): (s: real)
    ensures 0.0 <= s <= 1.0
  {
    Clamp(RawScore(l, f))
  }

  /** The tag of a rule, when it fires. */
  function Tag(fires: bool, name: string): seq<string> {
    if fires then [name] else []
  }

  /** The names of the fired rules, in the order the rules are checked. */
  function Tags(l: LeadCandidate, f: SearchFilters): seq<string> {
    Tag(Filled(l.email), "has_email")
      + Tag(Filled(l.phone), "has_phone")
      + Tag(CategoryMatch(l, f), "category_match")
      + Tag(f.mustHaveEmail && !Filled(l.email), "missing_required_email")
      + Tag(f.mustHavePhone && !Filled(l.phone), "missing_required_phone")
  }

  /** `", ".join(parts) if parts else "baseline"`. */
  function Rationale(parts: seq<string>): string {
    if parts == [] then "baseline" else Join(", ", parts)
  }

  /** One rule of the loop body: when it fires, add its amount to the score and its tag to the parts. */
  method ApplyRule(fires: bool, amount: real, name: string, score: real, parts: seq<string>)
    returns (score': real, parts': seq<string>)
    ensures score' == score + Weight(fires, amount)
    ensures parts' == parts + Tag(fires, name)
  {
    score', parts' := score, parts;
    if fires {
      score' := score' + amount;
      parts' := parts' + [name];
    }
  }

  /** The body of the loop of `score_leads`: the score and rationale of one lead. */
  method ScoreLead(l: LeadCandidate, f: SearchFilters) returns (s: ScoredLead)
    ensures s == ScoredLead(l, Score(l, f), Rationale(Tags(l, f)))
  {
    var score := 0.2;
    var parts: seq<string> := [];
    score, parts := ApplyRule(Filled(l.email), 0.3, "has_email", score, parts);
    assert parts == Tag(Filled(l.email), "has_email");
    score, parts := ApplyRule(Filled(l.phone), 0.2, "has_phone", score, parts);
    var matched := Filled(l.category) && |f.categories| > 0 && Lower(l.category.value) in LowerAll(f.categories);
    assert matched == CategoryMatch(l, f);
    score, parts := ApplyRule(matched, 0.2, "category_match", score, parts);
    score, parts := ApplyRule(f.mustHaveEmail && !Filled(l.email), -0.3, "missing_required_email", score, parts);
    score, parts := ApplyRule(f.mustHavePhone && !Filled(l.phone), -0.2, "missing_required_phone", score, parts);
    assert parts == Tags(l, f) && score == RawScore(l, f);
    score := if 1.0 < score then 1.0 else score;
    score := if score < 0.0 then 0.0 else score;
    var rationale := if parts != [] then Join(", ", parts) else "baseline";
    s := ScoredLead(l, score, rationale);
  }

  // ---------------------------------------------------------------------------
  // Properties of one lead's score
  // ---------------------------------------------------------------------------

  /** A rule's tag is in the rationale list exactly when the rule fires. */
  lemma TagsIff(l: LeadCandidate, f: SearchFilters)
    ensures "has_email" in Tags(l, f) <==> Filled(l.email)
    ensures "has_phone" in Tags(l, f) <==> Filled(l.phone)
    ensures "category_match" in Tags(l, f) <==> CategoryMatch(l, f)
    ensures "missing_required_email" in Tags(l, f) <==> f.mustHaveEmail && !Filled(l.email)
    ensures "missing_required_phone" in Tags(l, f) <==> f.mustHavePhone && !Filled(l.phone)
    ensures |Tags(l, f)| <= 5
  {
  }

  /** A joined list is at least as long as its first part. */
  lemma {:induction false} JoinCoversFirst(sep: string, parts: seq<string>)
    requires parts != []
    ensures |Join(sep, parts)| >= |parts[0]|
    ensures parts[0] == Join(sep, parts)[..|parts[0]|]
  {
  }

  /** The rationale is "baseline" exactly when no rule fired, and otherwise starts with the first fired tag. */
  lemma RationaleBaselineIff(l: LeadCandidate, f: SearchFilters)
    ensures Rationale(Tags(l, f)) == "baseline" <==> Tags(l, f) == []
    ensures Tags(l, f) != [] ==> Tags(l, f)[0] == Rationale(Tags(l, f))[..|Tags(l, f)[0]|]
  {
    var t := Tags(l, f);
    if t != [] {
      JoinCoversFirst(", ", t);
      assert |t[0]| > |"baseline"|;
    }
  }

  /** The category rule ignores ASCII case on both sides. */
  lemma CategoryMatchIgnoresCase(l: LeadCandidate, f: SearchFilters, c: string)
    requires Filled(l.category) && Lower(c) == Lower(l.category.value)
    requires c in f.categories
    ensures CategoryMatch(l, f)
  {
    var i :| 0 <= i < |f.categories| && f.categories[i] == c;
  }

  /** With no categories in the filter, the category rule never fires. */
  lemma NoCategoriesNoMatch(l: LeadCandidate, f: SearchFilters)
    requires f.categories == []
    ensures !CategoryMatch(l, f)
  {
  }

  /** A lead with an email and a phone scores at least 0.7 under any filters: neither penalty can apply. */
  lemma EmailAndPhoneScoreHigh(l: LeadCandidate, f: SearchFilters)
    requires Filled(l.email) && Filled(l.phone)
    ensures Score(l, f) >= 0.7
  {
  }

  /** Without filters, the score is 0.2 plus 0.3 for an email and 0.2 for a phone. */
  lemma DefaultFilterScore(l: LeadCandidate)
    ensures Score(l, FiltersOrDefault(None)) == 0.2 + Weight(Filled(l.email), 0.3) + Weight(Filled(l.phone), 0.2)
  {
  }

  // ---------------------------------------------------------------------------
  // The stable descending sort (`list.sort(key=..., reverse=True)`), for any key
  // ---------------------------------------------------------------------------

  /** Puts `x` after the leading entries whose key is strictly higher. */
  function Insert<T>(key: T -> real, x: T, s: seq<T>): (r: seq<T>)
    ensures |r| == |s| + 1
  {
    if s == [] || key(s[0]) <= key(x) then [x] + s
    else [s[0]] + Insert(key, x, s[1..])
  }

  /** The sorted list; earlier entries are inserted in front of equal later ones. */
  function SortBy<T>(key: T -> real, xs: seq<T>): (r: seq<T>)
    ensures |r| == |xs|
  {
    if xs == [] then [] else Insert(key, xs[0], SortBy(key, xs[1..]))
  }

  /** Inserting adds exactly `x`. */
  lemma {:induction false} InsertPermutes<T>(key: T -> real, x: T, s: seq<T>)
    ensures multiset(Insert(key, x, s)) == multiset(s) + multiset{x}
  {
    if s != [] && key(s[0]) > key(x) {
      InsertPermutes(key, x, s[1..]);
      assert s == [s[0]] + s[1..];
    }
  }

  /** The sorted list is a permutation of the input. */
  lemma {:induction false} SortPermutes<T>(key: T -> real, xs: seq<T>)
    ensures multiset(SortBy(key, xs)) == multiset(xs)
  {
    if xs != [] {
      SortPermutes(key, xs[1..]);
      InsertPermutes(key, xs[0], SortBy(key, xs[1..]));
      assert xs == [xs[0]] + xs[1..];
    }
  }

  /** Keys never increase along the list. */
  predicate NonIncreasing<T>(key: T -> real, s: seq<T>) {
    forall i, j :: 0 <= i < j < |s| ==> key(s[i]) >= key(s[j])
  }

  /** The entries with key `v`, in order. */
  function WithKey<T>(key: T -> real, s: seq<T>, v: real): (r: seq<T>)
    ensures |r| <= |s|
  {
    if s == [] then []
    else (if key(s[0]) == v then [s[0]] else []) + WithKey(key, s[1..], v)
  }

  lemma {:induction false} InsertSorted<T>(key: T -> real, x: T, s: seq<T>)
    requires NonIncreasing(key, s)
    ensures NonIncreasing(key, Insert(key, x, s))
  {
    if s != [] && key(s[0]) > key(x) {
      InsertSorted(key, x, s[1..]);
      var r := Insert(key, x, s[1..]);
      InsertPermutes(key, x, s[1..]);
      forall j | 0 <= j < |r|
        ensures key(s[0]) >= key(r[j])
      {
        assert r[j] in multiset(r);
        if r[j] != x {
          assert r[j] in multiset(s[1..]);
          var m :| 0 <= m < |s[1..]| && s[1..][m] == r[j];
          assert s[m + 1] == r[j];
        }
      }
    }
  }

  /** Inserting `x` puts it in front of every entry of equal key. */
  lemma {:induction false} InsertStable<T>(key: T -> real, x: T, s: seq<T>, v: real)
    ensures WithKey(key, Insert(key, x, s), v) == WithKey(key, [x], v) + WithKey(key, s, v)
  {
    var here := WithKey(key, [x], v);
    if s != [] && key(s[0]) > key(x) {
      var r := Insert(key, x, s[1..]);
      assert Insert(key, x, s) == [s[0]] + r;
      assert ([s[0]] + r)[1..] == r;
      InsertStable(key, x, s[1..], v);
      var first := if key(s[0]) == v then [s[0]] else [];
      assert WithKey(key, s, v) == first + WithKey(key, s[1..], v);
      assert WithKey(key, [s[0]] + r, v) == first + WithKey(key, r, v);
      assert first == [] || here == [];
    } else {
      assert Insert(key, x, s) == [x] + s;
      assert ([x] + s)[1..] == s;
    }
  }

  /** The sorted list has non-increasing keys. */
  lemma {:induction false} SortedNonIncreasing<T>(key: T -> real, xs: seq<T>)
    ensures NonIncreasing(key, SortBy(key, xs))
  {
    if xs != [] {
      SortedNonIncreasing(key, xs[1..]);
      InsertSorted(key, xs[0], SortBy(key, xs[1..]));
    }
  }

  /** The sort is stable: among entries of equal key, the input order is kept. */
  lemma {:induction false} SortStable<T>(key: T -> real, xs: seq<T>, v: real)
    ensures WithKey(key, SortBy(key, xs), v) == WithKey(key, xs, v)
  {
    if xs != [] {
      assert WithKey(key, xs, v) == WithKey(key, [xs[0]], v) + WithKey(key, xs[1..], v);
      SortStable(key, xs[1..], v);
      InsertStable(key, xs[0], SortBy(key, xs[1..]), v);
    }
  }

  // ---------------------------------------------------------------------------
  // `score_leads`
  // ---------------------------------------------------------------------------

  /** The key of the sort. */
  function ScoreKey(): ScoredLead -> real {
    (s: ScoredLead) => s.score
  }

  /** The scored forms of the first `n` leads, in input order. */
  function ScoredPrefix(leads: seq<LeadCandidate>, f: SearchFilters, n: nat): (r: seq<ScoredLead>)
    requires n <= |leads|
    ensures |r| == n
  {
    if n == 0 then [] else ScoredPrefix(leads, f, n - 1) + [ScoredLead(leads[n - 1], Score(leads[n - 1], f), Rationale(Tags(leads[n - 1], f)))]
  }

  /** `score_leads`: score every lead, then sort by score, highest first. */
  method ScoreLeads(leads: seq<LeadCandidate>, filters: Option<SearchFilters>) returns (r: seq<ScoredLead>)
    ensures r == SortBy(ScoreKey(), ScoredPrefix(leads, FiltersOrDefault(filters), |leads|))
    ensures |r| == |leads| && NonIncreasing(ScoreKey(), r)
  {
    var f := FiltersOrDefault(filters);
    var scored: seq<ScoredLead> := [];
    for i := 0 to |leads|
      invariant scored == ScoredPrefix(leads, f, i)
    {
      var s := ScoreLead(leads[i], f);
      scored := scored + [s];
    }
    r := SortBy(ScoreKey(), scored);
    SortedNonIncreasing(ScoreKey(), scored);
  }

  /** Entry `k` of the scored list is lead `k` with its score and rationale. */
  lemma {:induction false} ScoredPrefixAt(leads: seq<LeadCandidate>, f: SearchFilters, n: nat, k: nat)
    requires k < n <= |leads|
    ensures ScoredPrefix(leads, f, n)[k] == ScoredLead(leads[k], Score(leads[k], f), Rationale(Tags(leads[k], f)))
  {
    if k < n - 1 {
      ScoredPrefixAt(leads, f, n - 1, k);
    }
  }

  /**
   * The result of `score_leads`: a reordering of the leads scored in input
   * order, each lead with its own score and rationale, scores within [0, 1]
   * and non-increasing, and entries of equal score in their input order.
   */
  lemma ScoreLeadsFacts(leads: seq<LeadCandidate>, filters: Option<SearchFilters>)
    ensures var f := FiltersOrDefault(filters);
      var scored := ScoredPrefix(leads, f, |leads|);
      var r := SortBy(ScoreKey(), scored);
      && |r| == |leads|
      && multiset(r) == multiset(scored)
      && (forall k :: 0 <= k < |leads| ==> scored[k] == ScoredLead(leads[k], Score(leads[k], f), Rationale(Tags(leads[k], f))))
      && (forall i :: 0 <= i < |r| ==> 0.0 <= r[i].score <= 1.0)
      && NonIncreasing(ScoreKey(), r)
      && (forall v :: WithKey(ScoreKey(), r, v) == WithKey(ScoreKey(), scored, v))
  {
    var f := FiltersOrDefault(filters);
    var scored := ScoredPrefix(leads, f, |leads|);
    var r := SortBy(ScoreKey(), scored);
    SortPermutes(ScoreKey(), scored);
    forall k | 0 <= k < |leads|
      ensures scored[k] == ScoredLead(leads[k], Score(leads[k], f), Rationale(Tags(leads[k], f)))
    {
      ScoredPrefixAt(leads, f, |leads|, k);
    }
    forall i | 0 <= i < |r|
      ensures 0.0 <= r[i].score <= 1.0
    {
      assert r[i] in multiset(scored);
      var k :| 0 <= k < |scored| && scored[k] == r[i];
      ScoredPrefixAt(leads, f, |leads|, k);
    }
    SortedNonIncreasing(ScoreKey(), scored);
    forall v
      ensures WithKey(ScoreKey(), r, v) == WithKey(ScoreKey(), scored, v)
    {
      SortStable(ScoreKey(), scored, v);
    }
  }
}
