/**
 * Persistence of scored leads (`persist`): one run record per call, then one
 * upsert per lead into a table of lead rows keyed by a normalised identity
 * key, with key-less leads always added as new rows. The database is an
 * abstract table here: a map from key to row plus the list of key-less rows.
 */
module LeadDataManager {
  import opened Wrappers
  import opened Strings
  import opened Models
  import opened UrlParse

  // ---------------------------------------------------------------------------
  // The identity key (`_lead_unique_key`)
  // ---------------------------------------------------------------------------

  /** `re.sub(r"\\D", "", s)`: deletes every literal two-character sequence backslash, `D`, left to right. */
  function RemoveBackslashD(s: string): (r: string)
    ensures |r| <= |s|
  {
    if |s| >= 2 && s[0] == '\\' && s[1] == 'D' then RemoveBackslashD(s[2..])
    else if s == [] then []
    else [s[0]] + RemoveBackslashD(s[1..])
  }

  /** `re.sub(r"\D", "", s)`: the decimal digits of `s`, in order. */
  function Digits(s: string): (r: string)
    ensures |r| <= |s|
  {
    if s == [] then [] else (if IsDigit(s[0]) then [s[0]] else []) + Digits(s[1..])
  }

  /** The key of the `src:` branch: the lower-cased network location and the path without trailing `/`. */
  function SourceKey(url: string): string {
    "src:" + Lower(Parse(url).netloc) + RStripChar(Parse(url).path, '/')
  }

  /**
   * The identity key, given how the phone number is normalised: the email,
   * else the normalised phone when that is not empty, else the website, else
   * the source URL, else none.
   */
  function KeyWith(normalise: string -> string, l: LeadCandidate): (k: Option<string>)
    ensures k.Some? ==> |k.value| >= 4
  {
    if Filled(l.email) then Some("email:" + Lower(l.email.value))
    else if Filled(l.phone) && normalise(l.phone.value) != "" then Some("phone:" + normalise(l.phone.value))
    else if Filled(l.website) then Some("web:" + RStripChar(Lower(l.website.value), '/'))
    else if Filled(l.sourceUrl) then Some(SourceKey(l.sourceUrl.value))
    else None
  }

  /** The phone normaliser as written, and as evidently intended. */
  const AsWrittenPhone: string -> string := s => RemoveBackslashD(s)
  const DigitsOnly: string -> string := s => Digits(s)

  /** `_lead_unique_key` as the code is written: the phone pattern removes only literal backslash-`D` pairs. */
  function UniqueKeyAsWritten(l: LeadCandidate): Option<string> {
    KeyWith(AsWrittenPhone, l)
  }

  /** `_lead_unique_key` as evidently intended: the phone contributes its digits only. */
  function UniqueKey(l: LeadCandidate): Option<string> {
    KeyWith(DigitsOnly, l)
  }

  /** The branch of the key that applies to a lead, in priority order. */
  datatype KeyKind = ByEmail | ByPhone | ByWebsite | BySource | NoKey

  function KindWith(normalise: string -> string, l: LeadCandidate): KeyKind {
    if Filled(l.email) then ByEmail
    else if Filled(l.phone) && normalise(l.phone.value) != "" then ByPhone
    else if Filled(l.website) then ByWebsite
    else if Filled(l.sourceUrl) then BySource
    else NoKey
  }

  /** The prefix each branch puts in front of its key. */
  function PrefixOf(kind: KeyKind): string {
    match kind
    case ByEmail => "email:"
    case ByPhone => "phone:"
    case ByWebsite => "web:"
    case BySource => "src:"
    case NoKey => ""
  }

  /** Whatever the phone normaliser, a lead has a key exactly when a branch applies, and the key carries its prefix. */
  lemma KeyShape(normalise: string -> string, l: LeadCandidate)
    ensures KeyWith(normalise, l).None? <==> KindWith(normalise, l) == NoKey
    ensures KeyWith(normalise, l).Some? ==> PrefixOf(KindWith(normalise, l)) <= KeyWith(normalise, l).value
  {
  }

  /** A text made only of backslash-`D` pairs: what the as-written phone pattern erases completely. */
  predicate OnlyBackslashD(s: string) {
    s == [] || (|s| >= 2 && s[0] == '\\' && s[1] == 'D' && OnlyBackslashD(s[2..]))
  }

  lemma {:induction false} RemoveBackslashDEmptyIff(s: string)
    ensures RemoveBackslashD(s) == [] <==> OnlyBackslashD(s)
  {
    if |s| >= 2 && s[0] == '\\' && s[1] == 'D' {
      RemoveBackslashDEmptyIff(s[2..]);
    }
  }

  /**
   * The key as written: a lead has none exactly when it has no email, no
   * website, no source URL and no phone other than one made of backslash-`D`
   * pairs; a phone without digits still gives a `phone:` key.
   */
  lemma UniqueKeyShape(l: LeadCandidate)
    ensures UniqueKeyAsWritten(l).None? <==> KindWith(AsWrittenPhone, l) == NoKey
    ensures UniqueKeyAsWritten(l).None? <==>
              !Filled(l.email) && (!Filled(l.phone) || OnlyBackslashD(l.phone.value))
              && !Filled(l.website) && !Filled(l.sourceUrl)
    ensures UniqueKeyAsWritten(l).Some? ==>
              UniqueKeyAsWritten(l).value != "" && PrefixOf(KindWith(AsWrittenPhone, l)) <= UniqueKeyAsWritten(l).value
  {
    KeyShape(AsWrittenPhone, l);
    if Filled(l.phone) {
      RemoveBackslashDEmptyIff(l.phone.value);
    }
  }

  /** Equal keys come from the same branch, whatever the phone normaliser: an email key never equals a phone, website or source key. */
  lemma KeysOfDifferentKindsDiffer(normalise: string -> string, a: LeadCandidate, b: LeadCandidate)
    requires KeyWith(normalise, a).Some? && KeyWith(normalise, a) == KeyWith(normalise, b)
    ensures KindWith(normalise, a) == KindWith(normalise, b)
  {
    KeyShape(normalise, a);
    KeyShape(normalise, b);
    var k := KeyWith(normalise, a).value;
    assert k[0] == PrefixOf(KindWith(normalise, a))[0] && k[0] == PrefixOf(KindWith(normalise, b))[0];
  }

  /** The email decides the key whatever else the lead holds, ignoring ASCII case. */
  lemma SameEmailSameKey(a: LeadCandidate, b: LeadCandidate)
    requires Filled(a.email) && Filled(b.email) && Lower(a.email.value) == Lower(b.email.value)
    ensures UniqueKey(a) == UniqueKey(b) && UniqueKeyAsWritten(a) == UniqueKeyAsWritten(b)
  {
  }

  /** Without an email, two phones that normalise to the same non-empty text share one key. */
  lemma PhoneFormatsMerge(normalise: string -> string, a: LeadCandidate, b: LeadCandidate)
    requires !Filled(a.email) && !Filled(b.email) && Filled(a.phone) && Filled(b.phone)
    requires normalise(a.phone.value) == normalise(b.phone.value) != ""
    ensures KeyWith(normalise, a) == KeyWith(normalise, b) == Some("phone:" + normalise(a.phone.value))
  {
  }

  /** A trailing `/` on the website does not change the key, whatever the phone normaliser. */
  lemma WebsiteTrailingSlash(normalise: string -> string, l: LeadCandidate, w: string)
    requires w != ""
    ensures KeyWith(normalise, l.(website := Some(w + "/"))) == KeyWith(normalise, l.(website := Some(w)))
  {
    assert Lower(w + "/") == Lower(w) + "/";
    assert RStripChar(Lower(w) + "/", '/') == RStripChar(Lower(w), '/') by {
      assert (Lower(w) + "/")[..|Lower(w) + "/"| - 1] == Lower(w);
    }
  }

  /** A text without a backslash passes the as-written phone pattern unchanged. */
  lemma {:induction false} RemoveBackslashDKeeps(s: string)
    requires '\\' !in s
    ensures RemoveBackslashD(s) == s
  {
    if s != [] {
      assert s == [s[0]] + s[1..];
      RemoveBackslashDKeeps(s[1..]);
    }
  }

  /** As written, the phone key keeps the phone's separators: the key is the phone verbatim. */
  lemma PhoneKeyKeepsSeparators(l: LeadCandidate)
    requires !Filled(l.email) && Filled(l.phone) && '\\' !in l.phone.value
    ensures UniqueKeyAsWritten(l) == Some("phone:" + l.phone.value)
  {
    RemoveBackslashDKeeps(l.phone.value);
  }

  /** One phone number written two ways. */
  const DashedPhone: string := "555-1234"
  const SpacedPhone: string := "555 1234"

  /** As written, two spellings of one number give two different keys. */
  lemma PhoneSpellingsSplitAsWritten(a: LeadCandidate, b: LeadCandidate)
    requires !Filled(a.email) && !Filled(b.email)
    requires a.phone == Some(DashedPhone) && b.phone == Some(SpacedPhone)
    ensures UniqueKeyAsWritten(a) == Some("phone:" + DashedPhone)
    ensures UniqueKeyAsWritten(b) == Some("phone:" + SpacedPhone)
    ensures UniqueKeyAsWritten(a) != UniqueKeyAsWritten(b)
  {
    assert '\\' !in DashedPhone && '\\' !in SpacedPhone;
    PhoneKeyKeepsSeparators(a);
    PhoneKeyKeepsSeparators(b);
    assert ("phone:" + DashedPhone)[9] != ("phone:" + SpacedPhone)[9];
  }

  /** With the digits-only pattern, the two spellings share one key. */
  lemma PhoneSpellingsMerge(a: LeadCandidate, b: LeadCandidate)
    requires !Filled(a.email) && !Filled(b.email)
    requires a.phone == Some(DashedPhone) && b.phone == Some(SpacedPhone)
    ensures UniqueKey(a) == UniqueKey(b) == Some("phone:5551234")
  {
    DigitsOfDashed();
    DigitsOfSpaced();
    PhoneFormatsMerge(DigitsOnly, a, b);
    assert "phone:" + "5551234" == "phone:5551234";
  }

  lemma {:induction false} DigitsAppend(a: string, b: string)
    ensures Digits(a + b) == Digits(a) + Digits(b)
  {
    if a == [] {
      assert a + b == b;
    } else {
      var head := if IsDigit(a[0]) then [a[0]] else [];
      assert (a + b)[0] == a[0];
      assert (a + b)[1..] == a[1..] + b;
      assert Digits(a + b) == head + Digits(a[1..] + b);
      assert Digits(a) == head + Digits(a[1..]);
      DigitsAppend(a[1..], b);
      assert head + (Digits(a[1..]) + Digits(b)) == (head + Digits(a[1..])) + Digits(b);
    }
  }

  lemma {:induction false} DigitsOfNumber(s: string)
    requires forall i :: 0 <= i < |s| ==> IsDigit(s[i])
    ensures Digits(s) == s
  {
    if s != [] {
      DigitsOfNumber(s[1..]);
    }
  }

  /** Every character kept is a digit. */
  lemma {:induction false} DigitsAreDigits(s: string)
    ensures forall i :: 0 <= i < |Digits(s)| ==> IsDigit(Digits(s)[i])
  {
    if s != [] {
      DigitsAreDigits(s[1..]);
    }
  }

  /** A number split by one separator keeps only its two groups of digits. */
  lemma DigitsAroundSeparator(a: string, sep: char, b: string)
    requires forall i :: 0 <= i < |a| ==> IsDigit(a[i])
    requires forall i :: 0 <= i < |b| ==> IsDigit(b[i])
    requires !IsDigit(sep)
    ensures Digits(a + [sep] + b) == a + b
  {
    DigitsAppend(a + [sep], b);
    DigitsAppend(a, [sep]);
    DigitsOfNumber(a);
    DigitsOfNumber(b);
    assert Digits([sep]) == [] by {
      assert [sep][1..] == [];
    }
    calc {
      Digits(a + [sep] + b);
      Digits(a + [sep]) + Digits(b);
      Digits(a) + Digits([sep]) + Digits(b);
      a + [] + b;
      { assert a + [] == a; }
      a + b;
    }
  }

  lemma DigitsOfDashed()
    ensures Digits(DashedPhone) == "5551234"
  {
    DigitsAroundSeparator("555", '-', "1234");
  }

  lemma DigitsOfSpaced()
    ensures Digits(SpacedPhone) == "5551234"
  {
    DigitsAroundSeparator("555", ' ', "1234");
  }

  // ---------------------------------------------------------------------------
  // Rows and the upsert
  // ---------------------------------------------------------------------------

  /** A row of the `leads` table. */
  datatype LeadRow = LeadRow(
    leadUuid: Option<string>,
    runUuid: Option<string>,
    runId: int,
    segmentKey: Option<string>,
    segmentLevel: Option<string>,
    uniqueKey: Option<string>,
    timesSeen: int,
    firstSeenRunId: Option<string>,
    lastSeenRunId: Option<string>,
    companyName: string,
    website: Option<string>,
    phone: Option<string>,
    email: Option<string>,
    address: Option<string>,
    category: Option<string>,
    contactName: Option<string>,
    contactTitle: Option<string>,
    confidence: real,
    sourceUrl: Option<string>,
    source: Option<string>,
    score: real,
    rationale: string,
    capturedAt: string)

  /** A row of the `runs` table; the list and map columns hold what `json.dumps` would serialise. */
  datatype RunRow = RunRow(
    id: int,
    runUuid: Option<string>,
    startedAt: string,
    endedAt: Option<string>,
    sourcesAttempted: seq<string>,
    errors: seq<string>,
    stats: map<string, Json>,
    searchInputJson: Option<string>,
    searchFingerprint: Option<string>,
    segmentsJson: Option<string>)

  /** The run record of a call, with the id the table assigns it. */
  function RunRowOf(m: RunMetadata, id: int): RunRow {
    RunRow(id, m.runId, m.startTime, m.endTime, m.sourcesAttempted, m.errors, m.stats,
           m.searchInputJson, m.searchFingerprint, m.segmentsJson)
  }

  /** The leads table: keyed rows under the unique index, and the rows without a key. */
  datatype Table = Table(rows: map<string, LeadRow>, keyless: seq<LeadRow>)

  /**
   * The lead as `persist` leaves it, given the key function: key recorded,
   * first-seen run set once, last-seen run set to this run.
   */
  function Stamp(key: LeadCandidate -> Option<string>, l: LeadCandidate, runUuid: Option<string>): LeadCandidate {
    l.(uniqueKey := key(l),
       firstSeenRunId := if l.firstSeenRunId.None? then runUuid else l.firstSeenRunId,
       lastSeenRunId := runUuid)
  }

  /** The parameters of the insert for one stamped lead. */
  function RowOf(l: LeadCandidate, s: ScoredLead, runUuid: Option<string>, runId: int): LeadRow {
    LeadRow(l.leadId, runUuid, runId, l.segmentKey, l.segmentLevel, l.uniqueKey,
            l.timesSeen, l.firstSeenRunId, l.lastSeenRunId,
            l.companyName, l.website, l.phone, l.email, l.address, l.category,
            l.contactName, l.contactTitle, l.confidence, l.sourceUrl, l.source,
            s.score, s.rationale, l.capturedAt)
  }

  /** SQL `COALESCE(new, old)`. */
  function Coalesce(incoming: Option<string>, existing: Option<string>): Option<string> {
    if incoming.Some? then incoming else existing
  }

  /** The `ON CONFLICT ... DO UPDATE` of an existing row with the row that conflicts with it. */
  function Merge(cur: LeadRow, inc: LeadRow): LeadRow {
    cur.(timesSeen := cur.timesSeen + 1,
         lastSeenRunId := inc.lastSeenRunId,
         companyName := inc.companyName,
         website := Coalesce(inc.website, cur.website),
         phone := Coalesce(inc.phone, cur.phone),
         email := Coalesce(inc.email, cur.email),
         address := Coalesce(inc.address, cur.address),
         category := Coalesce(inc.category, cur.category),
         contactName := Coalesce(inc.contactName, cur.contactName),
         contactTitle := Coalesce(inc.contactTitle, cur.contactTitle),
         confidence := inc.confidence,
         sourceUrl := Coalesce(inc.sourceUrl, cur.sourceUrl),
         source := Coalesce(inc.source, cur.source),
         score := inc.score,
         rationale := inc.rationale,
         capturedAt := inc.capturedAt)
  }

  /** One insert: a key-less row is appended; a keyed row is added, or merged into the row holding its key. */
  function Upsert(t: Table, key: Option<string>, row: LeadRow): (r: Table)
    ensures r.rows.Keys == t.rows.Keys + (if key.Some? then {key.value} else {})
    ensures |r.keyless| == |t.keyless| + (if key.None? then 1 else 0)
  {
    match key
    case None => t.(keyless := t.keyless + [row])
    case Some(k) => t.(rows := t.rows[k := if k in t.rows then Merge(t.rows[k], row) else row])
  }

  /** The table after the first `n` leads of a call, each upserted under its key. */
  function UpsertAll(key: LeadCandidate -> Option<string>, t: Table, leads: seq<ScoredLead>, runUuid: Option<string>, runId: int, n: nat): (r: Table)
    requires n <= |leads|
  {
    if n == 0 then t
    else
      var s := leads[n - 1];
      var l := Stamp(key, s.lead, runUuid);
      Upsert(UpsertAll(key, t, leads, runUuid, runId, n - 1), key(s.lead), RowOf(l, s, runUuid, runId))
  }

  /** The input leads after the first `n` of them were stamped. */
  function StampedPrefix(key: LeadCandidate -> Option<string>, leads: seq<ScoredLead>, runUuid: Option<string>, n: nat): (r: seq<ScoredLead>)
    requires n <= |leads|
    ensures |r| == |leads|
    ensures forall i :: n <= i < |leads| ==> r[i] == leads[i]
  {
    if n == 0 then leads
    else
      var r := StampedPrefix(key, leads, runUuid, n - 1);
      var s := leads[n - 1];
      r[n - 1 := s.(lead := Stamp(key, s.lead, runUuid))]
  }

  /** `json_path or os.path.join(os.path.dirname(db_path), "leads.json")` when export is on, else none. */
  function JsonOutputPath(jsonExport: bool, jsonPath: Option<string>, dbPath: string): Option<string> {
    if !jsonExport then None
    else if Filled(jsonPath) then jsonPath
    else Some(JoinPath(DirName(dbPath), "leads.json"))
  }

  /** `posixpath.dirname`: up to the last `/`, without trailing slashes unless it is all slashes. */
  function DirName(p: string): string {
    var head := p[..LastIndexOf(p, '/') + 1];
    if head != [] && exists i :: 0 <= i < |head| && head[i] != '/' then RStripChar(head, '/') else head
  }

  /** `posixpath.join(a, b)` for a relative `b`. */
  function JoinPath(a: string, b: string): string {
    if a == [] || a[|a| - 1] == '/' then a + b else a + "/" + b
  }

  // ---------------------------------------------------------------------------
  // The store and `persist`
  // ---------------------------------------------------------------------------

  /** The database: the runs table and the leads table. */
  class LeadStore {
    var runs: seq<RunRow>
    var rows: map<string, LeadRow>
    var keyless: seq<LeadRow>

    /** A fresh database, as `ensure_db` leaves a new file. */
    constructor()
      ensures runs == [] && rows == map[] && keyless == []
    {
      runs := [];
      rows := map[];
      keyless := [];
    }

    /** The leads table as a value. */
    function Leads(): Table
      reads this
    {
      Table(rows, keyless)
    }

    /** One pass of the loop of `persist`: stamp the lead and upsert its row under the key as written. */
    method PersistOne(s: ScoredLead, runUuid: Option<string>, runId: int) returns (stamped: ScoredLead)
      modifies this
      ensures stamped == s.(lead := Stamp(UniqueKeyAsWritten, s.lead, runUuid))
      ensures Leads() == Upsert(old(Leads()), UniqueKeyAsWritten(s.lead), RowOf(stamped.lead, s, runUuid, runId))
      ensures runs == old(runs)
    {
      var l := s.lead;
      var key := UniqueKeyAsWritten(l);
      l := l.(uniqueKey := key);
      if l.firstSeenRunId.None? {
        l := l.(firstSeenRunId := runUuid);
      }
      l := l.(lastSeenRunId := runUuid);
      stamped := s.(lead := l);
      var row := RowOf(l, s, runUuid, runId);
      match key {
        case None =>
          keyless := keyless + [row];
        case Some(k) =>
          if k in rows {
            rows := rows[k := Merge(rows[k], row)];
          } else {
            rows := rows[k := row];
          }
      }
    }

    /**
     * `persist`: add the run record, upsert every lead in order, and report
     * the number of leads handled and where the JSON export goes. The leads
     * come back as the call leaves them, stamped with key and run ids.
     */
    method Persist(leads: seq<ScoredLead>, metadata: RunMetadata, dbPath: string, jsonExport: bool, jsonPath: Option<string>)
      returns (result: PersistenceResult, stamped: seq<ScoredLead>)
      modifies this
      ensures runs == old(runs) + [RunRowOf(metadata, |old(runs)| + 1)]
      ensures Leads() == UpsertAll(UniqueKeyAsWritten, old(Leads()), leads, metadata.runId, |old(runs)| + 1, |leads|)
      ensures stamped == StampedPrefix(UniqueKeyAsWritten, leads, metadata.runId, |leads|)
      ensures result == PersistenceResult(|leads|, Some(dbPath), JsonOutputPath(jsonExport, jsonPath, dbPath))
    {
      var runId := |runs| + 1;
      runs := runs + [RunRowOf(metadata, runId)];
      ghost var start := old(Leads());
      stamped := leads;
      var savedRows := 0;
      for i := 0 to |leads|
        invariant Leads() == UpsertAll(UniqueKeyAsWritten, start, leads, metadata.runId, runId, i)
        invariant stamped == StampedPrefix(UniqueKeyAsWritten, leads, metadata.runId, i)
        invariant runs == old(runs) + [RunRowOf(metadata, runId)]
        invariant savedRows == i
      {
        var s := PersistOne(leads[i], metadata.runId, runId);
        stamped := stamped[i := s];
        savedRows := savedRows + 1;
      }
      var outPath: Option<string> := None;
      if jsonExport {
        outPath := if Filled(jsonPath) then jsonPath else Some(JoinPath(DirName(dbPath), "leads.json"));
      }
      result := PersistenceResult(savedRows, Some(dbPath), outPath);
    }
  }

  // ---------------------------------------------------------------------------
  // Properties of the upsert
  // ---------------------------------------------------------------------------

  /** Each optional descriptive field takes the new value when there is one and keeps the old one otherwise. */
  predicate Coalesced(r: LeadRow, cur: LeadRow, inc: LeadRow) {
    && r.website == (if inc.website.Some? then inc.website else cur.website)
    && r.phone == (if inc.phone.Some? then inc.phone else cur.phone)
    && r.email == (if inc.email.Some? then inc.email else cur.email)
    && r.address == (if inc.address.Some? then inc.address else cur.address)
    && r.category == (if inc.category.Some? then inc.category else cur.category)
    && r.contactName == (if inc.contactName.Some? then inc.contactName else cur.contactName)
    && r.contactTitle == (if inc.contactTitle.Some? then inc.contactTitle else cur.contactTitle)
    && r.sourceUrl == (if inc.sourceUrl.Some? then inc.sourceUrl else cur.sourceUrl)
    && r.source == (if inc.source.Some? then inc.source else cur.source)
  }

  /**
   * A row whose key is already in the table: seen once more, last-seen run,
   * score, rationale and capture time overwritten, identity and first-seen
   * run kept, descriptive fields merged; no other row changes.
   */
  lemma UpsertOnConflict(t: Table, k: string, row: LeadRow)
    requires k in t.rows
    ensures var r := Upsert(t, Some(k), row).rows[k];
      var o := t.rows[k];
      && r.timesSeen == o.timesSeen + 1
      && r.lastSeenRunId == row.lastSeenRunId
      && r.firstSeenRunId == o.firstSeenRunId && r.leadUuid == o.leadUuid && r.runUuid == o.runUuid
      && r.runId == o.runId && r.segmentKey == o.segmentKey && r.segmentLevel == o.segmentLevel
      && r.uniqueKey == o.uniqueKey
      && r.score == row.score && r.rationale == row.rationale && r.capturedAt == row.capturedAt
      && r.companyName == row.companyName && r.confidence == row.confidence
      && Coalesced(r, o, row)
    ensures Upsert(t, Some(k), row).keyless == t.keyless
    ensures forall j :: j in t.rows && j != k ==> Upsert(t, Some(k), row).rows[j] == t.rows[j]
  {
  }

  /** A row with a new key is added as it is. */
  lemma UpsertFresh(t: Table, k: string, row: LeadRow)
    requires k !in t.rows
    ensures Upsert(t, Some(k), row) == Table(t.rows[k := row], t.keyless)
  {
  }

  /** A row without a key is always added, and touches no keyed row. */
  lemma UpsertKeyless(t: Table, row: LeadRow)
    ensures Upsert(t, None, row) == Table(t.rows, t.keyless + [row])
  {
  }

  /** The keys of the first `n` leads. */
  function KeysAmong(key: LeadCandidate -> Option<string>, leads: seq<ScoredLead>, n: nat): (ks: set<string>)
    requires n <= |leads|
  {
    if n == 0 then {}
    else KeysAmong(key, leads, n - 1) + (if key(leads[n - 1].lead).Some? then {key(leads[n - 1].lead).value} else {})
  }

  /** How many of the first `n` leads have no key. */
  function KeylessCount(key: LeadCandidate -> Option<string>, leads: seq<ScoredLead>, n: nat): (c: nat)
    requires n <= |leads|
    ensures c <= n
    ensures c == 0 <==> forall i :: 0 <= i < n ==> key(leads[i].lead).Some?
  {
    if n == 0 then 0 else KeylessCount(key, leads, n - 1) + (if key(leads[n - 1].lead).None? then 1 else 0)
  }

  /** After a call, the keys are the old ones plus the call's, and one key-less row is added per key-less lead. */
  lemma {:induction false} UpsertAllCounts(key: LeadCandidate -> Option<string>, t: Table, leads: seq<ScoredLead>,
                                           runUuid: Option<string>, runId: int, n: nat)
    requires n <= |leads|
    ensures UpsertAll(key, t, leads, runUuid, runId, n).rows.Keys == t.rows.Keys + KeysAmong(key, leads, n)
    ensures |UpsertAll(key, t, leads, runUuid, runId, n).keyless| == |t.keyless| + KeylessCount(key, leads, n)
  {
    if n > 0 {
      UpsertAllCounts(key, t, leads, runUuid, runId, n - 1);
    }
  }

  /** On a fresh table, the rows are one per distinct key plus one per key-less lead. */
  lemma FreshStoreRows(key: LeadCandidate -> Option<string>, leads: seq<ScoredLead>, runUuid: Option<string>, runId: int)
    ensures var r := UpsertAll(key, Table(map[], []), leads, runUuid, runId, |leads|);
      |r.rows| == |KeysAmong(key, leads, |leads|)| && |r.keyless| == KeylessCount(key, leads, |leads|)
  {
    UpsertAllCounts(key, Table(map[], []), leads, runUuid, runId, |leads|);
    var r := UpsertAll(key, Table(map[], []), leads, runUuid, runId, |leads|);
    assert r.rows.Keys == KeysAmong(key, leads, |leads|);
  }

  /**
   * Every lead comes back stamped: first-seen run set only when it had none,
   * last-seen run and key set, and nothing else about the lead or its score changed.
   */
  lemma {:induction false} StampedFacts(key: LeadCandidate -> Option<string>, leads: seq<ScoredLead>, runUuid: Option<string>, n: nat)
    requires n <= |leads|
    ensures forall i :: 0 <= i < n ==>
      var o := leads[i].lead;
      var s := StampedPrefix(key, leads, runUuid, n)[i];
      && s.score == leads[i].score && s.rationale == leads[i].rationale
      && s.lead.firstSeenRunId == (if o.firstSeenRunId.None? then runUuid else o.firstSeenRunId)
      && s.lead.lastSeenRunId == runUuid
      && s.lead.uniqueKey == key(o)
      && s.lead.(firstSeenRunId := o.firstSeenRunId, lastSeenRunId := o.lastSeenRunId, uniqueKey := o.uniqueKey) == o
  {
    if n > 0 {
      StampedFacts(key, leads, runUuid, n - 1);
    }
  }

  /** A key-less lead at position `i` always adds a fresh row, whatever came before. */
  lemma KeylessLeadAddsRow(key: LeadCandidate -> Option<string>, t: Table, leads: seq<ScoredLead>,
                           runUuid: Option<string>, runId: int, i: nat)
    requires i < |leads| && key(leads[i].lead).None?
    ensures UpsertAll(key, t, leads, runUuid, runId, i + 1).rows == UpsertAll(key, t, leads, runUuid, runId, i).rows
    ensures |UpsertAll(key, t, leads, runUuid, runId, i + 1).keyless| == |UpsertAll(key, t, leads, runUuid, runId, i).keyless| + 1
  {
  }

  /** The table after a call with two leads: the first lead's row upserted, then the second's. */
  lemma UpsertTwo(key: LeadCandidate -> Option<string>, t: Table, a: ScoredLead, b: ScoredLead, runUuid: Option<string>, runId: int)
    ensures UpsertAll(key, t, [a, b], runUuid, runId, 2) ==
            Upsert(Upsert(t, key(a.lead), RowOf(Stamp(key, a.lead, runUuid), a, runUuid, runId)),
                   key(b.lead), RowOf(Stamp(key, b.lead, runUuid), b, runUuid, runId))
  {
    var leads := [a, b];
    assert leads[0] == a && leads[1] == b;
    assert UpsertAll(key, t, leads, runUuid, runId, 0) == t;
  }

  /** As written, the two spellings of one number become two rows of a fresh table. */
  lemma PhoneSpellingRowsAsWritten(a: ScoredLead, b: ScoredLead, runUuid: Option<string>, runId: int)
    requires !Filled(a.lead.email) && !Filled(b.lead.email)
    requires a.lead.phone == Some(DashedPhone) && b.lead.phone == Some(SpacedPhone)
    ensures var t := UpsertAll(UniqueKeyAsWritten, Table(map[], []), [a, b], runUuid, runId, 2);
            t.rows.Keys == {"phone:" + DashedPhone, "phone:" + SpacedPhone} && |t.rows| == 2 && t.keyless == []
  {
    PhoneSpellingsSplitAsWritten(a.lead, b.lead);
    UpsertTwo(UniqueKeyAsWritten, Table(map[], []), a, b, runUuid, runId);
    var ka, kb := "phone:" + DashedPhone, "phone:" + SpacedPhone;
    var t := UpsertAll(UniqueKeyAsWritten, Table(map[], []), [a, b], runUuid, runId, 2);
    assert t.rows.Keys == {ka, kb};
    assert |{ka, kb}| == 2;
    assert |t.rows| == |t.rows.Keys|;
  }

  /** With the digits-only key, the two spellings become one row, seen twice. */
  lemma PhoneSpellingRowsMerge(a: ScoredLead, b: ScoredLead, runUuid: Option<string>, runId: int)
    requires !Filled(a.lead.email) && !Filled(b.lead.email)
    requires a.lead.phone == Some(DashedPhone) && b.lead.phone == Some(SpacedPhone)
    ensures var t := UpsertAll(UniqueKey, Table(map[], []), [a, b], runUuid, runId, 2);
            t.rows.Keys == {"phone:5551234"} && t.rows["phone:5551234"].timesSeen == a.lead.timesSeen + 1 && t.keyless == []
  {
    PhoneSpellingsMerge(a.lead, b.lead);
    UpsertTwo(UniqueKey, Table(map[], []), a, b, runUuid, runId);
  }

  /** As written, a phone without digits such as `N/A` is a key of its own; with the digits-only key it gives none. */
  lemma DigitlessPhoneKeyed(l: LeadCandidate)
    requires !Filled(l.email) && l.phone == Some("N/A") && !Filled(l.website) && !Filled(l.sourceUrl)
    ensures UniqueKeyAsWritten(l) == Some("phone:N/A")
    ensures UniqueKey(l).None?
  {
    assert '\\' !in "N/A";
    PhoneKeyKeepsSeparators(l);
    assert "phone:" + "N/A" == "phone:N/A";
    assert Digits("N/A") == [] by {
      assert "N/A"[1..] == "/A" && "/A"[1..] == "A" && "A"[1..] == [];
    }
  }

  // ---------------------------------------------------------------------------
  // Properties of the JSON path
  // ---------------------------------------------------------------------------

  /** Without export there is no JSON path; with an explicit path, that path is used. */
  lemma JsonPathChoice(dbPath: string, jsonPath: Option<string>)
    ensures JsonOutputPath(false, jsonPath, dbPath).None?
    ensures Filled(jsonPath) ==> JsonOutputPath(true, jsonPath, dbPath) == jsonPath
  {
  }

  /** With export on and no path, the JSON file sits beside the database. */
  lemma DefaultJsonBesideDb(dir: string, name: string)
    requires dir != [] && dir[|dir| - 1] != '/'
    requires '/' !in name
    ensures JsonOutputPath(true, None, dir + "/" + name) == Some(dir + "/leads.json")
  {
    var p := dir + "/" + name;
    var slash := LastIndexOf(p, '/');
    assert p[|dir|] == '/';
    assert slash == |dir| by {
      forall i | |dir| < i < |p|
        ensures p[i] != '/'
      {
        assert p[i] == name[i - |dir| - 1];
      }
    }
    var head := p[..slash + 1];
    assert head == dir + "/";
    assert head[|dir| - 1] != '/';
    assert RStripChar(head, '/') == dir by {
      assert head[..|head| - 1] == dir;
    }
    assert DirName(p) == dir;
    assert JoinPath(dir, "leads.json") == dir + "/leads.json";
  }
}
