/**
 * Scrape dispatch: every strategy step becomes exactly one artifact, decided
 * in this order: a preloaded page or JSON blob wins; without a browser
 * factory the step is skipped; otherwise a browser is opened and the page
 * rendered, and any failure on the way becomes an error artifact.
 *
 * The browser and everything it does (contexts, anti-detection, navigation,
 * waiting, probing for `inner_text`, `content`, `screenshot`) is an oracle:
 * given the index of the step and the URL, it says how the attempt ends.
 */
module PlaywrightScraper {
  import opened Wrappers
  import opened Models

  // ---------------------------------------------------------------------------
  // The browser oracle
  // ---------------------------------------------------------------------------

  /** What a page does when a screenshot is asked for. */
  datatype Shot =
    | NoScreenshot              // the page has no `screenshot` method
    | ScreenshotSaved
    | ScreenshotFails(msg: string)

  /** How rendering the page ends once a browser is open. */
  datatype PageOutcome =
    | PageFails(msg: string)    // new_context, new_page, goto, wait or content raised
    | Loaded(innerText: Option<string>, content: string, shot: Shot)  // innerText: None when missing or raising

  /** What one call of the browser factory leads to. */
  datatype Launch =
    | FactoryFails(msg: string)
    | Launched(hasClose: bool, outcome: PageOutcome)

  /** The browser factory, told the step index and the URL it will visit. */
  type BrowserFactory = (nat, string) -> Launch

  /** The inputs of one `scrape_steps` call besides the steps; absent preload maps are empty maps. */
  datatype Config = Config(
    captureScreenshots: bool,
    browserFactory: Option<BrowserFactory>,
    preloadedHtml: map<string, string>,
    preloadedJson: map<string, Json>,
    quote: string -> string,   // urllib's quote_plus, left uninterpreted
    now: string)               // the clock reading every artifact is stamped with

  const SkipMessage: string := "Playwright browser_factory not provided; supply preloaded_html or browser."

  // ---------------------------------------------------------------------------
  // build_maps_url
  // ---------------------------------------------------------------------------

  /** The result offset of a page: 20 results per page, never negative. */
  function MapsOffset(page: int): (start: nat)
    ensures page <= 1 ==> start == 0
    ensures page >= 1 ==> start == (page - 1) * 20
  {
    if page <= 1 then 0 else (page - 1) * 20
  }

  function DigitChar(d: nat): char
    requires d < 10
  {
    "0123456789"[d]
  }

  function DigitValue(c: char): nat {
    if '0' <= c <= '9' then (c as int - '0' as int) as nat else 0
  }

  /** The decimal rendering of a natural number, as an f-string writes it. */
  function Decimal(n: nat): (s: string)
    ensures s != [] && forall i :: 0 <= i < |s| ==> '0' <= s[i] <= '9'
  {
    if n < 10 then [DigitChar(n)] else Decimal(n / 10) + [DigitChar(n % 10)]
  }

  /** Reads a string of decimal digits back as a number. */
  function ParseDecimal(s: string): nat {
    if s == [] then 0 else ParseDecimal(s[..|s| - 1]) * 10 + DigitValue(s[|s| - 1])
  }

  lemma {:induction false} DecimalRoundTrip(n: nat)
    ensures ParseDecimal(Decimal(n)) == n
  {
    var s := Decimal(n);
    if n >= 10 {
      DecimalRoundTrip(n / 10);
      assert s[..|s| - 1] == Decimal(n / 10);
    }
  }

  const MapsSearchPrefix: string := "https://www.google.com/maps/search/"

  /**
   * `build_maps_url`: a Maps search URL whose text after the quoted query and
   * `?start=` reads back as the page's result offset.
   */
  function BuildMapsUrl(quote: string -> string, query: string, page: int): (url: string)
    ensures MapsSearchPrefix <= url
    ensures var head := MapsSearchPrefix + quote(query) + "?start=";
            head <= url && ParseDecimal(url[|head|..]) == MapsOffset(page)
  {
    var head := MapsSearchPrefix + quote(query) + "?start=";
    var url := head + Decimal(MapsOffset(page));
    DecimalRoundTrip(MapsOffset(page));
    assert url[|head|..] == Decimal(MapsOffset(page));
    assert url[..|MapsSearchPrefix|] == MapsSearchPrefix;
    url
  }

  /** The URL of a query determines the offset, so pages from 1 on never share a URL. */
  lemma UrlDeterminesOffset(quote: string -> string, query: string, p: int, q: int)
    requires BuildMapsUrl(quote, query, p) == BuildMapsUrl(quote, query, q)
    ensures MapsOffset(p) == MapsOffset(q)
    ensures p >= 1 && q >= 1 ==> p == q
  {
  }

  /** Pages 0 and 1 (and negative pages) share the first result page; later pages are 20 results apart. */
  lemma MapsOffsetMonotone(p: int, q: int)
    requires p <= q
    ensures MapsOffset(p) <= MapsOffset(q)
    ensures p >= 1 ==> MapsOffset(q) - MapsOffset(p) == (q - p) * 20
  {
  }

  // ---------------------------------------------------------------------------
  // One step
  // ---------------------------------------------------------------------------

  /** `preloaded_html.get(step_id) or preloaded_html.get(query)`: an empty page under the step id falls back to the query. */
  function HtmlPreload(m: map<string, string>, step: StrategyStep): Option<string> {
    if step.stepId in m && m[step.stepId] != "" then Some(m[step.stepId])
    else if step.query in m then Some(m[step.query])
    else None
  }

  /** The same lookup for JSON blobs; a falsy blob under the step id falls back, and a JSON null counts as absent. */
  function JsonPreload(m: map<string, Json>, step: StrategyStep): Option<Json> {
    if step.stepId in m && Truthy(m[step.stepId]) then Some(m[step.stepId])
    else if step.query in m && m[step.query] != JNull then Some(m[step.query])
    else None
  }

  predicate HasPreload(step: StrategyStep, cfg: Config) {
    HtmlPreload(cfg.preloadedHtml, step).Some? || JsonPreload(cfg.preloadedJson, step).Some?
  }

  /** The step reaches the browser: nothing preloaded and a factory given. */
  predicate Attempted(step: StrategyStep, cfg: Config) {
    !HasPreload(step, cfg) && cfg.browserFactory.Some?
  }

  function ErrorArtifact(step: StrategyStep, msg: string, now: string): ScrapeArtifact {
    ScrapeArtifact(step.source, step.stepId, Error, None, None, None, Some(msg), now)
  }

  function ScreenshotName(stepId: string): string {
    "screenshot-" + stepId + ".png"
  }

  /** The artifact of a step that reached the browser, from how the launch ended. */
  function LaunchArtifact(step: StrategyStep, launch: Launch, capture: bool, now: string): (a: ScrapeArtifact)
    ensures a.source == step.source && a.stepId == step.stepId && a.fetchedAt == now
    ensures a.jsonBlob.None?
    ensures a.status == Error <==>
              launch.FactoryFails? || launch.outcome.PageFails? || (capture && launch.outcome.shot.ScreenshotFails?)
    ensures a.status != Skipped
  {
    match launch
    case FactoryFails(msg) => ErrorArtifact(step, msg, now)
    case Launched(_, PageFails(msg)) => ErrorArtifact(step, msg, now)
    case Launched(_, Loaded(inner, content, shot)) =>
      var html := if Filled(inner) then inner.value else content;
      if capture && shot.ScreenshotFails? then ErrorArtifact(step, shot.msg, now)
      else
        var path := if capture && shot.ScreenshotSaved? then Some(ScreenshotName(step.stepId)) else None;
        ScrapeArtifact(step.source, step.stepId, Ok, Some(html), None, path, None, now)
  }

  /** The call the factory receives for step `i`. */
  function LaunchFor(step: StrategyStep, i: nat, cfg: Config): Launch
    requires cfg.browserFactory.Some?
  {
    cfg.browserFactory.value(i, BuildMapsUrl(cfg.quote, step.query, step.page))
  }

  /** The artifact `scrape_steps` emits for step `i`. */
  function ArtifactFor(step: StrategyStep, i: nat, cfg: Config): (a: ScrapeArtifact)
    ensures a.source == step.source && a.stepId == step.stepId && a.fetchedAt == cfg.now
  {
    var h := HtmlPreload(cfg.preloadedHtml, step);
    var j := JsonPreload(cfg.preloadedJson, step);
    if h.Some? || j.Some? then ScrapeArtifact(step.source, step.stepId, Ok, h, j, None, None, cfg.now)
    else if cfg.browserFactory.None? then ScrapeArtifact(step.source, step.stepId, Skipped, None, None, None, Some(SkipMessage), cfg.now)
    else LaunchArtifact(step, LaunchFor(step, i, cfg), cfg.captureScreenshots, cfg.now)
  }

  // ---------------------------------------------------------------------------
  // The run over all steps: factory calls and the bound browser
  // ---------------------------------------------------------------------------

  /** How a step ends as far as the browser variable is concerned. */
  datatype StepEvent =
    | NoBrowser                 // preloaded or skipped: no factory call and no `finally`
    | FactoryFailed             // the factory raised: whatever was bound stays bound
    | Opened(hasClose: bool)    // the factory returned a browser, bound from now on

  /** The browser event of step `i`. */
  function EventFor(step: StrategyStep, i: nat, cfg: Config): StepEvent {
    if !Attempted(step, cfg) then NoBrowser
    else match LaunchFor(step, i, cfg)
      case FactoryFails(_) => FactoryFailed
      case Launched(hasClose, _) => Opened(hasClose)
  }

  /** The browser events of the first n steps, in order. */
  function EventsUpTo(steps: seq<StrategyStep>, cfg: Config, n: nat): (es: seq<StepEvent>)
    requires n <= |steps|
    ensures |es| == n
  {
    if n == 0 then [] else EventsUpTo(steps, cfg, n - 1) + [EventFor(steps[n - 1], n - 1, cfg)]
  }

  /** The browser events of a run, one per step. */
  function Events(steps: seq<StrategyStep>, cfg: Config): (es: seq<StepEvent>)
    ensures |es| == |steps|
  {
    EventsUpTo(steps, cfg, |steps|)
  }

  /** Entry i of the events is the event of step i. */
  lemma EventAt(steps: seq<StrategyStep>, cfg: Config, i: nat)
    requires i < |steps|
    ensures Events(steps, cfg)[i] == EventFor(steps[i], i, cfg)
  {
    EventAtUpTo(steps, cfg, |steps|, i);
  }

  lemma {:induction false} EventAtUpTo(steps: seq<StrategyStep>, cfg: Config, n: nat, i: nat)
    requires i < n <= |steps|
    ensures EventsUpTo(steps, cfg, n)[i] == EventFor(steps[i], i, cfg)
  {
    if i < n - 1 {
      EventAtUpTo(steps, cfg, n - 1, i);
    }
  }

  /** A browser bound to the local variable: the step that opened it and whether it has `close`. */
  datatype Bound = Bound(openedAt: nat, hasClose: bool)

  /** The indices of the first n steps that called the factory, in order. */
  function FactoryCalls(events: seq<StepEvent>, n: nat): seq<nat>
    requires n <= |events|
  {
    if n == 0 then []
    else FactoryCalls(events, n - 1) + (if events[n - 1].NoBrowser? then [] else [n - 1])
  }

  /** The browser bound after step i: rebound only when the factory returns. */
  function Rebound(b: Option<Bound>, e: StepEvent, i: nat): Option<Bound> {
    if e.Opened? then Some(Bound(i, e.hasClose)) else b
  }

  /** What the `finally` of a step closes, given the browser bound by then: whatever is bound, if it has `close`. */
  function Released(b: Option<Bound>, e: StepEvent): seq<nat> {
    if !e.NoBrowser? && b.Some? && b.value.hasClose then [b.value.openedAt] else []
  }

  /**
   * The browser bound after the first n steps ran. A factory failure leaves
   * the browser of an earlier step bound, since the local variable persists
   * across iterations.
   */
  function BoundAfter(events: seq<StepEvent>, n: nat): Option<Bound>
    requires n <= |events|
  {
    if n == 0 then None
    else Rebound(BoundAfter(events, n - 1), events[n - 1], n - 1)
  }

  /** The browsers closed during the first n steps, named by the step that opened each. */
  function Closes(events: seq<StepEvent>, n: nat): seq<nat>
    requires n <= |events|
  {
    if n == 0 then []
    else Closes(events, n - 1) + Released(BoundAfter(events, n), events[n - 1])
  }

  /** The `try`/`except`/`finally` block of one step that reached the browser. */
  method RunBrowser(step: StrategyStep, i: nat, cfg: Config, browser: Option<Bound>)
    returns (artifact: ScrapeArtifact, bound: Option<Bound>, closed: seq<nat>)
    requires Attempted(step, cfg)
    ensures artifact == ArtifactFor(step, i, cfg)
    ensures bound == Rebound(browser, EventFor(step, i, cfg), i)
    ensures closed == Released(bound, EventFor(step, i, cfg))
  {
    bound := browser;
    var url := BuildMapsUrl(cfg.quote, step.query, step.page);
    var launch := cfg.browserFactory.value(i, url);
    match launch {
      case FactoryFails(msg) =>
        artifact := ErrorArtifact(step, msg, cfg.now);
      case Launched(hasClose, outcome) =>
        bound := Some(Bound(i, hasClose));
        match outcome {
          case PageFails(msg) =>
            artifact := ErrorArtifact(step, msg, cfg.now);
          case Loaded(inner, content, shot) =>
            var html := if Filled(inner) then inner.value else content;
            var path: Option<string> := None;
            if cfg.captureScreenshots && !shot.NoScreenshot? {
              path := Some(ScreenshotName(step.stepId));
            }
            if cfg.captureScreenshots && shot.ScreenshotFails? {
              artifact := ErrorArtifact(step, shot.msg, cfg.now);
            } else {
              artifact := ScrapeArtifact(step.source, step.stepId, Ok, Some(html), None, path, None, cfg.now);
            }
        }
    }
    // finally: close whatever browser is bound; a failing close is swallowed
    closed := [];
    if bound.Some? && bound.value.hasClose {
      closed := [bound.value.openedAt];
    }
  }

  /** One iteration of `scrape_steps`: the artifact of step `i`, the factory call it makes, and the browser after it. */
  method ScrapeStep(step: StrategyStep, i: nat, cfg: Config, browser: Option<Bound>)
    returns (artifact: ScrapeArtifact, called: seq<nat>, bound: Option<Bound>, closed: seq<nat>)
    ensures artifact == ArtifactFor(step, i, cfg)
    ensures called == (if EventFor(step, i, cfg).NoBrowser? then [] else [i])
    ensures bound == Rebound(browser, EventFor(step, i, cfg), i)
    ensures closed == Released(bound, EventFor(step, i, cfg))
  {
    var preloadHtml := HtmlPreload(cfg.preloadedHtml, step);
    var preloadJson := JsonPreload(cfg.preloadedJson, step);
    called, bound, closed := [], browser, [];
    if preloadHtml.Some? || preloadJson.Some? {
      artifact := ScrapeArtifact(step.source, step.stepId, Ok, preloadHtml, preloadJson, None, None, cfg.now);
    } else if cfg.browserFactory.None? {
      artifact := ScrapeArtifact(step.source, step.stepId, Skipped, None, None, None, Some(SkipMessage), cfg.now);
    } else {
      called := [i];
      artifact, bound, closed := RunBrowser(step, i, cfg, browser);
    }
  }

  /** `scrape_steps`. */
  /** Step `n` extends the factory calls, the bound browser and the closes by what it meets. */
  lemma StepExtends(events: seq<StepEvent>, n: nat, called: seq<nat>, bound: Option<Bound>, closed: seq<nat>)
    requires n < |events|
    requires called == (if events[n].NoBrowser? then [] else [n])
    requires bound == Rebound(BoundAfter(events, n), events[n], n)
    requires closed == Released(bound, events[n])
    ensures FactoryCalls(events, n + 1) == FactoryCalls(events, n) + called
    ensures BoundAfter(events, n + 1) == bound
    ensures Closes(events, n + 1) == Closes(events, n) + closed
  {
  }

  /** Appending the artifact of step `n` keeps every artifact that of its step. */
  lemma ArtifactsExtend(before: seq<ScrapeArtifact>, a: ScrapeArtifact, steps: seq<StrategyStep>, cfg: Config, n: nat)
    requires n < |steps| && |before| == n
    requires forall k :: 0 <= k < n ==> before[k] == ArtifactFor(steps[k], k, cfg)
    requires a == ArtifactFor(steps[n], n, cfg)
    ensures forall k :: 0 <= k < n + 1 ==> (before + [a])[k] == ArtifactFor(steps[k], k, cfg)
  {
    forall k | 0 <= k < n + 1 ensures (before + [a])[k] == ArtifactFor(steps[k], k, cfg) {
      if k < n {
        assert (before + [a])[k] == before[k];
      }
    }
  }

  method ScrapeSteps(steps: seq<StrategyStep>, cfg: Config) returns (artifacts: seq<ScrapeArtifact>, calls: seq<nat>, closes: seq<nat>)
    ensures |artifacts| == |steps|
    ensures forall i :: 0 <= i < |steps| ==> artifacts[i] == ArtifactFor(steps[i], i, cfg)
    ensures calls == FactoryCalls(Events(steps, cfg), |steps|)
    ensures closes == Closes(Events(steps, cfg), |steps|)
  {
    artifacts, calls, closes := [], [], [];
    var browser: Option<Bound> := None;
    ghost var events := Events(steps, cfg);
    for i := 0 to |steps|
      invariant |artifacts| == i
      invariant forall k :: 0 <= k < i ==> artifacts[k] == ArtifactFor(steps[k], k, cfg)
      invariant calls == FactoryCalls(events, i)
      invariant browser == BoundAfter(events, i)
      invariant closes == Closes(events, i)
    {
      EventAt(steps, cfg, i);
      var artifact, called, closed;
      artifact, called, browser, closed := ScrapeStep(steps[i], i, cfg, browser);
      StepExtends(events, i, called, browser, closed);
      ArtifactsExtend(artifacts, artifact, steps, cfg, i);
      artifacts := artifacts + [artifact];
      calls := calls + called;
      closes := closes + closed;
    }
  }

  // ---------------------------------------------------------------------------
  // Properties
  // ---------------------------------------------------------------------------

  /** A preload makes the step `ok` with exactly the preloaded values, and the factory is not called for it. */
  lemma PreloadWins(steps: seq<StrategyStep>, cfg: Config, i: nat)
    requires i < |steps| && HasPreload(steps[i], cfg)
    ensures var a := ArtifactFor(steps[i], i, cfg);
            a.status == Ok && a.html == HtmlPreload(cfg.preloadedHtml, steps[i]) &&
            a.jsonBlob == JsonPreload(cfg.preloadedJson, steps[i]) && a.error.None? && a.screenshotPath.None?
    ensures i !in FactoryCalls(Events(steps, cfg), |steps|)
  {
    FactoryCallsExactly(steps, cfg, |steps|, i);
  }

  /**
   * A non-empty page preloaded under the step id becomes the artifact's page,
   * whatever is preloaded under the query; without one, the page preloaded
   * under the query is used, even an empty one.
   */
  lemma PreloadedPagePreference(step: StrategyStep, i: nat, cfg: Config)
    ensures var m := cfg.preloadedHtml;
            var a := ArtifactFor(step, i, cfg);
            step.stepId in m && m[step.stepId] != "" ==> a.status == Ok && a.html == Some(m[step.stepId])
    ensures var m := cfg.preloadedHtml;
            var a := ArtifactFor(step, i, cfg);
            !(step.stepId in m && m[step.stepId] != "") && step.query in m ==> a.status == Ok && a.html == Some(m[step.query])
  {
  }

  /**
   * A truthy blob preloaded under the step id becomes the artifact's blob,
   * whatever is preloaded under the query; without one, the blob under the
   * query is used unless it is JSON null, which counts as nothing preloaded.
   */
  lemma PreloadedBlobPreference(step: StrategyStep, i: nat, cfg: Config)
    ensures var m := cfg.preloadedJson;
            var a := ArtifactFor(step, i, cfg);
            step.stepId in m && Truthy(m[step.stepId]) ==> a.status == Ok && a.jsonBlob == Some(m[step.stepId])
    ensures var m := cfg.preloadedJson;
            var a := ArtifactFor(step, i, cfg);
            !(step.stepId in m && Truthy(m[step.stepId])) && step.query in m && m[step.query] != JNull ==>
              a.status == Ok && a.jsonBlob == Some(m[step.query])
    ensures var m := cfg.preloadedJson;
            !(step.stepId in m && Truthy(m[step.stepId])) && !(step.query in m && m[step.query] != JNull) ==>
              !HasPreload(step, cfg.(preloadedHtml := map[]))
  {
  }

  /** Among the first n steps, the factory is called for step i exactly when it has no preload and a factory is given. */
  lemma FactoryCallsExactly(steps: seq<StrategyStep>, cfg: Config, n: nat, i: nat)
    requires n <= |steps|
    ensures i in FactoryCalls(Events(steps, cfg), n) <==> i < n && Attempted(steps[i], cfg)
  {
    CallsAtEvents(Events(steps, cfg), n, i);
    if i < n {
      EventAt(steps, cfg, i);
    }
  }

  /** Among the first n events, i is a factory call exactly when its event is not `NoBrowser`. */
  lemma {:induction false} CallsAtEvents(events: seq<StepEvent>, n: nat, i: nat)
    requires n <= |events|
    ensures i in FactoryCalls(events, n) <==> i < n && !events[i].NoBrowser?
  {
    if n > 0 {
      CallsAtEvents(events, n - 1, i);
    }
  }

  /** Without a preload and without a factory the step is skipped with the fixed message. */
  lemma SkippedWithoutFactory(step: StrategyStep, i: nat, cfg: Config)
    requires !HasPreload(step, cfg) && cfg.browserFactory.None?
    ensures ArtifactFor(step, i, cfg).status == Skipped && ArtifactFor(step, i, cfg).error == Some(SkipMessage)
  {
  }

  /** A step is skipped only when there is neither a preload nor a factory. */
  lemma SkippedOnlyWithoutFactory(step: StrategyStep, i: nat, cfg: Config)
    ensures ArtifactFor(step, i, cfg).status == Skipped <==> !HasPreload(step, cfg) && cfg.browserFactory.None?
  {
  }

  /** A failing browser yields an `error` artifact carrying the exception text. */
  lemma BrowserFailureIsError(step: StrategyStep, i: nat, cfg: Config)
    requires Attempted(step, cfg)
    requires LaunchFor(step, i, cfg).FactoryFails? || LaunchFor(step, i, cfg).outcome.PageFails?
    ensures var launch := LaunchFor(step, i, cfg);
            var a := ArtifactFor(step, i, cfg);
            a.status == Error && a.html.None? &&
            a.error == Some(if launch.FactoryFails? then launch.msg else launch.outcome.msg)
  {
  }

  /** The page text: `inner_text("body")` when it gives a non-empty text, else `content()`. */
  lemma RenderedHtml(step: StrategyStep, i: nat, cfg: Config)
    requires Attempted(step, cfg)
    requires LaunchFor(step, i, cfg).Launched? && LaunchFor(step, i, cfg).outcome.Loaded?
    requires !(cfg.captureScreenshots && LaunchFor(step, i, cfg).outcome.shot.ScreenshotFails?)
    ensures var o := LaunchFor(step, i, cfg).outcome;
            ArtifactFor(step, i, cfg).status == Ok &&
            ArtifactFor(step, i, cfg).html == Some(if Filled(o.innerText) then o.innerText.value else o.content)
  {
  }

  /** A screenshot path is set only when screenshots are asked for and taken, and then it is named after the step. */
  lemma ScreenshotPathRule(step: StrategyStep, i: nat, cfg: Config)
    ensures var a := ArtifactFor(step, i, cfg);
            a.screenshotPath.Some? <==>
              Attempted(step, cfg) && cfg.captureScreenshots &&
              LaunchFor(step, i, cfg).Launched? && LaunchFor(step, i, cfg).outcome.Loaded? &&
              LaunchFor(step, i, cfg).outcome.shot.ScreenshotSaved?
    ensures var a := ArtifactFor(step, i, cfg);
            a.screenshotPath.Some? ==> a.screenshotPath.value == ScreenshotName(step.stepId)
  {
  }

  /** Step `i` opened a browser that has `close`. */
  predicate OpenedWithClose(steps: seq<StrategyStep>, cfg: Config, i: nat)
    requires i < |steps|
  {
    Attempted(steps[i], cfg) && LaunchFor(steps[i], i, cfg).Launched? && LaunchFor(steps[i], i, cfg).hasClose
  }

  /** An `Opened` event is a factory call that returned, with the `close` it reports. */
  lemma OpenedEvent(steps: seq<StrategyStep>, cfg: Config, i: nat, hasClose: bool)
    requires i < |steps| && Events(steps, cfg)[i] == Opened(hasClose)
    ensures Attempted(steps[i], cfg) && LaunchFor(steps[i], i, cfg).Launched?
    ensures LaunchFor(steps[i], i, cfg).hasClose == hasClose
  {
    EventAt(steps, cfg, i);
  }

  /** Every browser closed was opened by an earlier or the same step, and has `close`. */
  lemma ClosesAreOpened(steps: seq<StrategyStep>, cfg: Config, n: nat)
    requires n <= |steps|
    ensures forall c :: c in Closes(Events(steps, cfg), n) ==> c < n && OpenedWithClose(steps, cfg, c)
  {
    forall c | c in Closes(Events(steps, cfg), n) ensures c < n && OpenedWithClose(steps, cfg, c) {
      ClosesAreOpenedEvents(Events(steps, cfg), n);
      OpenedEvent(steps, cfg, c, true);
    }
  }

  /** Over any events: every close names an earlier or the same `Opened` event with `close`. */
  lemma {:induction false} ClosesAreOpenedEvents(events: seq<StepEvent>, n: nat)
    requires n <= |events|
    ensures forall c :: c in Closes(events, n) ==> c < n && events[c] == Opened(true)
  {
    if n > 0 {
      ClosesAreOpenedEvents(events, n - 1);
      BoundIsOpenedEvents(events, n);
      var b := BoundAfter(events, n);
      var r := Released(b, events[n - 1]);
      assert Closes(events, n) == Closes(events, n - 1) + r;
      assert r != [] ==> b.Some? && r == [b.value.openedAt] && b.value.hasClose;
    }
  }

  /**
   * Every browser that has `close` is closed, by the `finally` of the step that
   * opened it, whether that step's page loaded or failed.
   */
  lemma ClosedWhenOpened(steps: seq<StrategyStep>, cfg: Config, n: nat, i: nat)
    requires i < n <= |steps| && OpenedWithClose(steps, cfg, i)
    ensures i in Closes(Events(steps, cfg), n)
  {
    EventAt(steps, cfg, i);
    ClosedWhenOpenedEvents(Events(steps, cfg), n, i);
  }

  /** Over any events: an `Opened` event with `close` is among the closes of every longer run. */
  lemma ClosedWhenOpenedEvents(events: seq<StepEvent>, n: nat, i: nat)
    requires i < n <= |events| && events[i] == Opened(true)
    ensures i in Closes(events, n)
  {
    assert BoundAfter(events, i + 1) == Some(Bound(i, true));
    assert Closes(events, i + 1) == Closes(events, i) + [i];
    ClosesGrow(events, i + 1, n, i);
  }

  /** Closes are only ever added: one among the first m steps stays among the first n. */
  lemma {:induction false} ClosesGrow(events: seq<StepEvent>, m: nat, n: nat, c: nat)
    requires m <= n <= |events| && c in Closes(events, m)
    ensures c in Closes(events, n)
    decreases n - m
  {
    if m < n {
      ClosesGrow(events, m, n - 1, c);
      assert Closes(events, n) == Closes(events, n - 1) + Released(BoundAfter(events, n), events[n - 1]);
    }
  }

  /** The bound browser, if any, was opened by one of the first n steps, which records whether it has `close`. */
  lemma BoundIsOpened(steps: seq<StrategyStep>, cfg: Config, n: nat)
    requires n <= |steps|
    ensures var b := BoundAfter(Events(steps, cfg), n);
            b.Some? ==> b.value.openedAt < n && Attempted(steps[b.value.openedAt], cfg) &&
                        LaunchFor(steps[b.value.openedAt], b.value.openedAt, cfg).Launched? &&
                        LaunchFor(steps[b.value.openedAt], b.value.openedAt, cfg).hasClose == b.value.hasClose
  {
    var b := BoundAfter(Events(steps, cfg), n);
    BoundIsOpenedEvents(Events(steps, cfg), n);
    if b.Some? {
      OpenedEvent(steps, cfg, b.value.openedAt, b.value.hasClose);
    }
  }

  /** Over any events: the bound browser comes from an earlier `Opened` event, with its `close`. */
  lemma {:induction false} BoundIsOpenedEvents(events: seq<StepEvent>, n: nat)
    requires n <= |events|
    ensures var b := BoundAfter(events, n);
            b.Some? ==> b.value.openedAt < n && events[b.value.openedAt] == Opened(b.value.hasClose)
  {
    if n > 0 {
      BoundIsOpenedEvents(events, n - 1);
    }
  }

  /** At most one close per factory call, over any events. */
  lemma {:induction false} ClosesAtMostCalls(events: seq<StepEvent>, n: nat)
    requires n <= |events|
    ensures |Closes(events, n)| <= |FactoryCalls(events, n)|
  {
    if n > 0 {
      ClosesAtMostCalls(events, n - 1);
    }
  }

  /**
   * A stale browser is closed twice: when a step opens a browser and the
   * factory then fails on the next step, that step's `finally` finds the
   * earlier browser still bound and closes it again.
   */
  lemma StaleBrowserClosedAgain(s0: StrategyStep, s1: StrategyStep, cfg: Config)
    requires Attempted(s0, cfg) && Attempted(s1, cfg)
    requires LaunchFor(s0, 0, cfg).Launched? && LaunchFor(s0, 0, cfg).hasClose
    requires LaunchFor(s1, 1, cfg).FactoryFails?
    ensures Closes(Events([s0, s1], cfg), 2) == [0, 0]
    ensures ArtifactFor(s1, 1, cfg).status == Error
  {
    var steps := [s0, s1];
    var es := Events(steps, cfg);
    assert steps[0] == s0 && steps[1] == s1;
    EventAt(steps, cfg, 0);
    EventAt(steps, cfg, 1);
    assert es[0] == Opened(true) && es[1] == FactoryFailed;
    assert BoundAfter(es, 1) == Some(Bound(0, true));
    assert Closes(es, 1) == [0];
    assert BoundAfter(es, 2) == Some(Bound(0, true));
  }
}
