/**
 * The record types of the lead-search pipeline and the defaulting parser that
 * turns a request payload into a SearchRequest.
 *
 * LeadCandidate and RunMetadata carry, beyond the fields their dataclasses
 * declare, the attributes that the persistence layer reads from them
 * (lead id, segment, times seen, first/last seen run, unique key; run id,
 * search-input snapshot, fingerprint, segments).
 */
module Models {
  import opened Wrappers

  /** A JSON value as it arrives in a payload. Numbers, integral or not, are reals. */
  datatype Json =
    | JNull
    | JBool(b: bool)
    | JNum(n: real)
    | JStr(s: string)
    | JArr(items: seq<Json>)
    | JObj(fields: map<string, Json>)

  /** Python's `bool(value)` for a decoded JSON value. */
  predicate Truthy(j: Json) {
    match j
    case JNull => false
    case JBool(b) => b
    case JNum(n) => n != 0.0
    case JStr(s) => s != ""
    case JArr(xs) => xs != []
    case JObj(m) => m != map[]
  }

  /** Python's truthiness of an `Optional[str]`: present and non-empty. */
  predicate Filled(o: Option<string>) {
    o.Some? && o.value != ""
  }

  datatype LlmSettings = LlmSettings(
    provider: string,
    model: string,
    baseUrl: Option<string>,
    apiKey: Option<string>,
    temperature: real,
    topP: real,
    maxTokens: Option<int>)

  datatype SearchFilters = SearchFilters(
    categories: seq<string>,
    mustHaveEmail: bool,
    mustHavePhone: bool,
    custom: map<string, Json>)

  datatype SearchRequest = SearchRequest(
    keywords: seq<string>,
    locations: seq<string>,
    vertical: Option<string>,
    filters: SearchFilters,
    sources: seq<string>,
    maxResults: int,
    pagesPerSource: int,
    timeoutSeconds: int,
    llm: LlmSettings,
    storage: map<string, Json>,
    features: map<string, Json>,
    passthrough: map<string, Json>)

  datatype StrategyStep = StrategyStep(
    source: string,
    query: string,
    location: Option<string>,
    page: int,
    maxPages: int,
    throttleSeconds: real,
    parserHint: Option<string>,
    stepId: string)

  datatype Status = Ok | Skipped | Error

  datatype ScrapeArtifact = ScrapeArtifact(
    source: string,
    stepId: string,
    status: Status,
    html: Option<string>,
    jsonBlob: Option<Json>,
    screenshotPath: Option<string>,
    error: Option<string>,
    fetchedAt: string)

  datatype LeadCandidate = LeadCandidate(
    companyName: string,
    website: Option<string>,
    phone: Option<string>,
    email: Option<string>,
    address: Option<string>,
    category: Option<string>,
    contactName: Option<string>,
    contactTitle: Option<string>,
    confidence: real,
    sourceUrl: Option<string>,
    source: Option<string>,
    capturedAt: string,
    // attributes read by persistence but not declared by the dataclass
    leadId: Option<string>,
    segmentKey: Option<string>,
    segmentLevel: Option<string>,
    timesSeen: int,
    firstSeenRunId: Option<string>,
    lastSeenRunId: Option<string>,
    uniqueKey: Option<string>)

  datatype ScoredLead = ScoredLead(lead: LeadCandidate, score: real, rationale: string)

  datatype CacheStats = CacheStats(hits: int, deduped: int, kept: int)

  datatype PersistenceResult = PersistenceResult(savedRows: int, dbPath: Option<string>, jsonPath: Option<string>)

  datatype RunMetadata = RunMetadata(
    startTime: string,
    endTime: Option<string>,
    sourcesAttempted: seq<string>,
    errors: seq<string>,
    stats: map<string, Json>,
    // attributes read by persistence but not declared by the dataclass
    runId: Option<string>,
    searchInputJson: Option<string>,
    searchFingerprint: Option<string>,
    segmentsJson: Option<string>)

  /** A lead built with the dataclass defaults for every field not given. */
  function NewLead(companyName: string, email: Option<string>, phone: Option<string>,
                   source: Option<string>, confidence: real, capturedAt: string): (l: LeadCandidate)
    ensures l.companyName == companyName && l.email == email && l.phone == phone
    ensures l.source == source && l.confidence == confidence && l.capturedAt == capturedAt
    ensures l.website.None? && l.address.None? && l.category.None? && l.sourceUrl.None?
    ensures l.firstSeenRunId.None? && l.lastSeenRunId.None? && l.uniqueKey.None? && l.timesSeen == 1
    ensures l.contactName.None? && l.contactTitle.None? && l.leadId.None?
    ensures l.segmentKey.None? && l.segmentLevel.None?
  {
    LeadCandidate(companyName, None, phone, email, None, None, None, None, confidence, None, source, capturedAt,
                  None, None, None, 1, None, None, None)
  }

  // ---------------------------------------------------------------------------
  // Request payload and its defaulting parser
  // ---------------------------------------------------------------------------

  /** The `llm` part of a payload; `None` stands for an absent key. */
  datatype LlmPayload = LlmPayload(
    provider: Option<string>,
    model: Option<string>,
    baseUrl: Option<string>,
    apiKey: Option<string>,
    temperature: Option<real>,
    topP: Option<real>,
    maxTokens: Option<int>)

  /** A request payload with its fields already typed; `None` stands for an absent key. */
  datatype Payload = Payload(
    keywords: Option<seq<string>>,
    locations: Option<seq<string>>,
    vertical: Option<string>,
    filters: Option<map<string, Json>>,
    sources: Option<seq<string>>,
    maxResults: Option<int>,
    pagesPerSource: Option<int>,
    timeoutSeconds: Option<int>,
    llm: Option<LlmPayload>,
    storage: Option<map<string, Json>>,
    features: Option<map<string, Json>>,
    passthrough: Option<map<string, Json>>)

  const DefaultSources: seq<string> := ["google_maps"]
  const DefaultStorage: map<string, Json> := map["sqlite_path" := JStr("./data/lead_search.db"), "json_export" := JBool(false)]
  const DefaultFeatures: map<string, Json> := map["anti_detection" := JBool(true), "capture_screenshots" := JBool(false)]
  const ReservedFilterKeys: set<string> := {"categories", "must_have_email", "must_have_phone"}

  /** Python's `value or default` for a list. */
  function ListOr<T>(o: Option<seq<T>>, default: seq<T>): seq<T> {
    if o.Some? && o.value != [] then o.value else default
  }

  /** Python's `value or default` for a dictionary. */
  function MapOr(o: Option<map<string, Json>>, default: map<string, Json>): map<string, Json> {
    if o.Some? && o.value != map[] then o.value else default
  }

  /** The string elements of a JSON list, in order. */
  function Strings(xs: seq<Json>): (r: seq<string>)
    ensures (forall k :: 0 <= k < |xs| ==> xs[k].JStr?) ==> |r| == |xs| && forall k :: 0 <= k < |xs| ==> r[k] == xs[k].s
  {
    if xs == [] then []
    else (if xs[0].JStr? then [xs[0].s] else []) + Strings(xs[1..])
  }

  /** The strings held by a `categories` value that is a JSON list; nothing for any other value. */
  function StringItems(j: Json): seq<string> {
    if j.JArr? then Strings(j.items) else []
  }

  /** `bool(filters_payload.get(key, False))`. */
  predicate FlagOf(fp: map<string, Json>, key: string) {
    key in fp && Truthy(fp[key])
  }

  /** A JSON list whose every item is a string. */
  predicate StringList(j: Json) {
    j.JArr? && forall k :: 0 <= k < |j.items| ==> j.items[k].JStr?
  }

  /** The SearchFilters built from a filters payload. */
  function FiltersFromPayload(fp: map<string, Json>): (f: SearchFilters)
    ensures f.mustHaveEmail <==> "must_have_email" in fp && Truthy(fp["must_have_email"])
    ensures f.mustHavePhone <==> "must_have_phone" in fp && Truthy(fp["must_have_phone"])
    ensures ("categories" !in fp || !Truthy(fp["categories"])) ==> f.categories == []
    ensures "categories" in fp && StringList(fp["categories"]) ==>
              |f.categories| == |fp["categories"].items| &&
              forall k :: 0 <= k < |f.categories| ==> f.categories[k] == fp["categories"].items[k].s
    ensures forall k :: k in f.custom <==> k in fp && k !in ReservedFilterKeys
    ensures forall k :: k in f.custom ==> f.custom[k] == fp[k]
  {
    SearchFilters(
      categories := if "categories" in fp && Truthy(fp["categories"]) then StringItems(fp["categories"]) else [],
      mustHaveEmail := FlagOf(fp, "must_have_email"),
      mustHavePhone := FlagOf(fp, "must_have_phone"),
      custom := map k | k in fp && k !in ReservedFilterKeys :: fp[k])
  }

  function LlmFromPayload(lp: LlmPayload): LlmSettings {
    LlmSettings(
      provider := lp.provider.GetOr("openai"),
      model := lp.model.GetOr("gpt-4.1-mini"),
      baseUrl := lp.baseUrl,
      apiKey := lp.apiKey,
      temperature := lp.temperature.GetOr(0.0),
      topP := lp.topP.GetOr(1.0),
      maxTokens := lp.maxTokens)
  }

  const EmptyLlmPayload: LlmPayload := LlmPayload(None, None, None, None, None, None, None)

  /** `SearchRequest.from_payload`. */
  function FromPayload(p: Payload): (r: SearchRequest)
    ensures p.sources.None? || p.sources == Some([]) ==> r.sources == ["google_maps"]
    ensures p.sources.Some? && p.sources.value != [] ==> r.sources == p.sources.value
    ensures r.keywords == (if p.keywords.Some? then p.keywords.value else [])
    ensures r.locations == (if p.locations.Some? then p.locations.value else [])
    ensures r.vertical == p.vertical
    ensures r.filters == FiltersFromPayload(if p.filters.Some? then p.filters.value else map[])
    ensures r.maxResults == (if p.maxResults.Some? then p.maxResults.value else 50)
    ensures r.pagesPerSource == (if p.pagesPerSource.Some? then p.pagesPerSource.value else 3)
    ensures r.timeoutSeconds == (if p.timeoutSeconds.Some? then p.timeoutSeconds.value else 30)
    ensures p.storage.None? || p.storage == Some(map[]) ==> r.storage == DefaultStorage
    ensures p.storage.Some? && p.storage.value != map[] ==> r.storage == p.storage.value
    ensures p.features.None? || p.features == Some(map[]) ==> r.features == DefaultFeatures
    ensures p.features.Some? && p.features.value != map[] ==> r.features == p.features.value
    ensures r.passthrough == (if p.passthrough.Some? then p.passthrough.value else map[])
    ensures var lp := if p.llm.Some? then p.llm.value else EmptyLlmPayload;
            && r.llm.provider == (if lp.provider.Some? then lp.provider.value else "openai")
            && r.llm.model == (if lp.model.Some? then lp.model.value else "gpt-4.1-mini")
            && r.llm.baseUrl == lp.baseUrl && r.llm.apiKey == lp.apiKey
            && r.llm.temperature == (if lp.temperature.Some? then lp.temperature.value else 0.0)
            && r.llm.topP == (if lp.topP.Some? then lp.topP.value else 1.0)
            && r.llm.maxTokens == lp.maxTokens
    ensures p.filters.None? ==> !r.filters.mustHaveEmail && !r.filters.mustHavePhone && r.filters.categories == []
  {
    SearchRequest(
      keywords := ListOr(p.keywords, []),
      locations := ListOr(p.locations, []),
      vertical := p.vertical,
      filters := FiltersFromPayload(MapOr(p.filters, map[])),
      sources := ListOr(p.sources, DefaultSources),
      maxResults := p.maxResults.GetOr(50),
      pagesPerSource := p.pagesPerSource.GetOr(3),
      timeoutSeconds := p.timeoutSeconds.GetOr(30),
      llm := LlmFromPayload(if p.llm.Some? then p.llm.value else EmptyLlmPayload),
      storage := MapOr(p.storage, DefaultStorage),
      features := MapOr(p.features, DefaultFeatures),
      passthrough := MapOr(p.passthrough, map[]))
  }

  /** The dataclass defaults of SearchRequest, SearchFilters and LLMSettings, field by field. */
  function DefaultRequest(): SearchRequest {
    SearchRequest(
      keywords := [], locations := [], vertical := None,
      filters := SearchFilters([], false, false, map[]),
      sources := ["google_maps"], maxResults := 50, pagesPerSource := 3, timeoutSeconds := 30,
      llm := LlmSettings("openai", "gpt-4.1-mini", None, None, 0.0, 1.0, None),
      storage := map["sqlite_path" := JStr("./data/lead_search.db"), "json_export" := JBool(false)],
      features := map["anti_detection" := JBool(true), "capture_screenshots" := JBool(false)],
      passthrough := map[])
  }

  const EmptyPayload: Payload := Payload(None, None, None, None, None, None, None, None, None, None, None, None)

  /** An empty payload yields exactly the dataclass defaults: the parser and the dataclass agree. */
  lemma EmptyPayloadGivesDefaults()
    ensures FromPayload(EmptyPayload) == DefaultRequest()
  {
    var f := FiltersFromPayload(map[]);
    assert f.custom == map[];
  }

  /** `custom` never holds one of the three keys the filters interpret, and holds every other key. */
  lemma CustomExcludesReservedKeys(p: Payload)
    requires p.filters.Some? && p.filters.value != map[]
    ensures forall k :: k in FromPayload(p).filters.custom <==> k in p.filters.value && k !in ReservedFilterKeys
  {
  }
}
