# Lead search pipeline, modelled in Dafny

The lead search agent turns a search request into a list of scored business
leads through six stages:

1. It parses a loosely typed JSON payload into a `SearchRequest`.
2. It expands the request into strategy steps: one per keyword, location and page on Google Maps.
3. It runs each step through a browser, or takes preloaded pages instead, to get scrape artifacts.
4. It extracts leads from each artifact's text with an email pattern and a phone pattern.
5. It drops duplicate leads, scores each lead against the search filters and sorts by score.
6. It upserts the leads into a SQLite table keyed by a normalised unique key, and optionally names a JSON export.

The project has one or two Dafny modules per file of the pipeline, plus two helper modules:

| module | file modelled |
|---|---|
| `Models` | `models.py` |
| `SearchStrategies` | `search_strategies.py` |
| `PlaywrightScraper` | `playwright_scraper.py` |
| `Patterns` and `LeadExtractor` | `lead_extractor.py` (`Patterns` holds its two regular expressions) |
| `LeadCacheManager` | `lead_cache_manager.py` |
| `LeadScorer` | `lead_scorer.py` |
| `UrlParse` and `LeadDataManager` | `lead_data_manager.py` (`UrlParse` holds the part of `urlparse` the key reads) |
| `Wrappers`, `Strings` | helpers: `Option`, and Python's string methods |

The model follows three patterns.

- Loops in the source are methods with loop invariants. Each such method is proved equal to a specification function: `BuildGoogleMapsStrategies`, `ScrapeSteps`, `ExtractLeads`, `DedupeLeads`, `ScoreLeads`, `LeadStore.Persist`. Lemmas about those functions state what the stage promises.
- The SQLite database is the class `LeadDataManager.LeadStore`. Its fields are the run table and the lead table, and `Persist` updates them.
- The clock, the UUID source, the browser, `html.unescape` and `quote_plus` are parameters. They are either uninterpreted functions or oracles.

Where the code disagrees with its own dataclass declarations or its tests, the model follows the code:

- `persist` reads lead and run attributes that the dataclasses in `models.py` do not declare: `lead_id`, `segment_key`, `segment_level`, `times_seen`, `first_seen_run_id`, `last_seen_run_id`, `unique_key`, `run_id`, `search_input_json`, `search_fingerprint` and `segments_json`. As written, it would fail on a plain `LeadCandidate`. The model's `LeadCandidate` and `RunMetadata` carry these fields, with the defaults `_lead_unique_key` and the table schema imply.
- `_html_to_text` collapses every run of whitespace, newlines included, into one space. So the line pass of `_heuristic_extract` always sees at most one line per artifact (`LeadExtractor.HtmlToTextIsOneLine`).
- The scraper tests expect Maps card parsing into `json_blob` and captcha detection. These are not in `scrape_steps`: there, a page that loads is an `ok` artifact carrying the page text.
- `_lead_unique_key` is meant to strip non-digits from phone numbers, but as written it does not (see Findings). `Persist` runs the key as written (`UniqueKeyAsWritten`). The corrected key (`UniqueKey`) stands beside it. The table functions and their lemmas take the key function as a parameter, so every property of the table holds for both keys.

## Model

| member | source | states |
|---|---|---|
| `Models.NewLead` | realtimex_lead_search/lead_search/models.py:127-140 | a new lead carries the given name, contacts, source, confidence and time; every other optional field (website, address, category, contact name and title, source URL, lead id, segment key and level, run ids, unique key) is unset, and it has been seen once |
| `Models.FiltersFromPayload` | realtimex_lead_search/lead_search/models.py:59-69 | each must-have flag is set exactly when its payload value is truthy; absent or falsy categories give none, and a list of strings gives exactly those strings in order; `custom` holds exactly the non-reserved payload keys, with their values |
| `Models.FromPayload` | realtimex_lead_search/lead_search/models.py:53-100 | given keywords, locations and passthrough are kept, and missing ones are empty; the vertical is passed through; the filters are parsed from the filters payload, or from an empty one; missing or empty sources default to `google_maps`, and given ones are kept; missing numbers default to 50 results, 3 pages and 30 seconds; missing or empty storage and features get their default maps, and given ones are kept; each LLM setting is the given value or its default (`openai`, `gpt-4.1-mini`, 0.0, 1.0), with base URL, API key and token limit passed through |
| `Models.EmptyPayloadGivesDefaults` | realtimex_lead_search/lead_search/models.py:34-51 | parsing an empty payload gives exactly the dataclass defaults of `SearchRequest` |
| `Models.CustomExcludesReservedKeys` | realtimex_lead_search/lead_search/models.py:64-68 | custom filter keys are exactly the filter payload's keys other than `categories`, `must_have_email` and `must_have_phone` |
| `Strings.Lower` | realtimex_lead_search/lead_search/lead_cache_manager.py:33 | lower-casing keeps the length and folds each character on its own |
| `Strings.RStripChar` | realtimex_lead_search/lead_search/lead_data_manager.py:246 | `rstrip("/")` gives a prefix that does not end in `/`, and only `/` characters were removed |
| `SearchStrategies.BuildGoogleMapsStrategies` | realtimex_lead_search/lead_search/search_strategies.py:19-43 | the triple loop produces, in order, the keyword × location × page plan stamped into steps; no keywords gives no steps |
| `SearchStrategies.MapsPlan` | realtimex_lead_search/lead_search/search_strategies.py:19-31 | defines the keyword × location × page plan (properties in `MapsPlanLength`, `MapsPlanAt` and `MapsPlanPages`) |
| `SearchStrategies.MapsPlanLength` | realtimex_lead_search/lead_search/search_strategies.py:25-31 | the plan has keywords × max(1, locations) × max(1, pages) steps |
| `SearchStrategies.MapsPlanAt` | realtimex_lead_search/lead_search/search_strategies.py:28-31 | the step at position (keyword k, location l, page p) has query `kw` or `kw loc`, location `loc` and page p + 1 |
| `SearchStrategies.MapsPlanPages` | realtimex_lead_search/lead_search/search_strategies.py:26-31 | every planned page lies between 1 and the page bound |
| `SearchStrategies.MapsStepsFields` | realtimex_lead_search/lead_search/search_strategies.py:33-41 | every Maps step has source `google_maps`, the page bound, throttle 1.5 and parser hint `maps_listing`, and a fresh step id from the clock |
| `SearchStrategies.BuildStrategies` | realtimex_lead_search/lead_search/search_strategies.py:10-16 | the steps are the Maps plan once for each source whose lower-cased name is `google_maps`, `maps` or `google-maps`, in source order |
| `SearchStrategies.SourcesPlan` | realtimex_lead_search/lead_search/search_strategies.py:10-16 | defines the plan over the sources: one Maps plan per Maps source, in order (properties in `SourcesPlanLength` and `SingleMapsSource`) |
| `SearchStrategies.SourcesPlanLength` | realtimex_lead_search/lead_search/search_strategies.py:13-15 | the number of steps is the number of Maps sources × the length of one Maps plan |
| `SearchStrategies.GoogleMapsIsMapsSource` | realtimex_lead_search/lead_search/search_strategies.py:14 | `google_maps` is routed to the Maps builder |
| `SearchStrategies.SingleMapsSource` | realtimex_lead_search/lead_search/search_strategies.py:13-15 | one Maps source plans exactly one Maps plan |
| `SearchStrategies.TwoByTwoByTwoRequest` | tests/test_strategies.py:8-14 | the test payload parses to two keywords, two locations, two pages and the Google Maps source |
| `SearchStrategies.TwoByTwoByTwoGivesEightSteps` | tests/test_strategies.py:15-20 | two keywords, two locations and two pages give 8 steps; the first two are pages 1 and 2 of the first query |
| `PlaywrightScraper.MapsOffset` | realtimex_lead_search/lead_search/playwright_scraper.py:112 | the start offset is 0 up to page 1 and 20 per page after it |
| `PlaywrightScraper.DecimalRoundTrip` | realtimex_lead_search/lead_search/playwright_scraper.py:113 | the decimal rendering of the offset reads back as the same number |
| `PlaywrightScraper.BuildMapsUrl` | realtimex_lead_search/lead_search/playwright_scraper.py:109-113 | the URL starts with the Maps search prefix, then the quoted query and `?start=`; the text after that reads back as the page's result offset |
| `PlaywrightScraper.UrlDeterminesOffset` | realtimex_lead_search/lead_search/playwright_scraper.py:109-113 | two pages of one query with the same URL have the same offset; pages from 1 on never share a URL |
| `PlaywrightScraper.MapsOffsetMonotone` | realtimex_lead_search/lead_search/playwright_scraper.py:112 | later pages never have smaller offsets; from page 1 on, pages are exactly 20 results apart |
| `PlaywrightScraper.LaunchArtifact` | realtimex_lead_search/lead_search/playwright_scraper.py:56-98 | a step that reaches the browser is an `error` artifact exactly when the factory, the page or an asked-for screenshot fails; it is never `skipped` and carries no JSON |
| `PlaywrightScraper.ArtifactFor` | realtimex_lead_search/lead_search/playwright_scraper.py:28-98 | every artifact carries its step's source and id and the clock reading |
| `PlaywrightScraper.RunBrowser` | realtimex_lead_search/lead_search/playwright_scraper.py:56-104 | one browser attempt yields the specified artifact, rebinds the browser only when the factory returns, and closes whatever browser is bound if it has `close` |
| `PlaywrightScraper.ScrapeSteps` | realtimex_lead_search/lead_search/playwright_scraper.py:11-106 | one artifact per step, in order, each as specified; the factory calls and the closes are those that the steps' browser events (`EventFor`: no browser, factory failed, or opened with or without `close`) determine |
| `PlaywrightScraper.ScrapeStep` | realtimex_lead_search/lead_search/playwright_scraper.py:28-104 | one loop iteration: the artifact is as specified, the factory is called exactly when the step reaches the browser, and the bound browser and the closes follow the step's event |
| `PlaywrightScraper.PreloadWins` | realtimex_lead_search/lead_search/playwright_scraper.py:32-42 | a preloaded step is `ok` with exactly the preloaded page and blob, and the factory is never called for it |
| `PlaywrightScraper.PreloadedPagePreference` | realtimex_lead_search/lead_search/playwright_scraper.py:29-42 | a non-empty page preloaded under the step id is the artifact's page whatever the query maps to; otherwise a page preloaded under the query is used, even an empty one |
| `PlaywrightScraper.PreloadedBlobPreference` | realtimex_lead_search/lead_search/playwright_scraper.py:30-42 | a truthy blob under the step id is the artifact's blob whatever the query maps to; otherwise a non-null blob under the query is used; with neither, the blob is no preload |
| `PlaywrightScraper.FactoryCallsExactly` | realtimex_lead_search/lead_search/playwright_scraper.py:44-57 | the factory is called for a step exactly when that step has no preload and a factory is given |
| `PlaywrightScraper.SkippedWithoutFactory` | realtimex_lead_search/lead_search/playwright_scraper.py:44-53 | with no preload and no factory, the step is `skipped` with the fixed message |
| `PlaywrightScraper.SkippedOnlyWithoutFactory` | realtimex_lead_search/lead_search/playwright_scraper.py:32-53 | a step is `skipped` if and only if it has neither a preload nor a factory |
| `PlaywrightScraper.BrowserFailureIsError` | realtimex_lead_search/lead_search/playwright_scraper.py:90-98 | a failing factory or page gives an `error` artifact carrying the exception text and no page |
| `PlaywrightScraper.RenderedHtml` | realtimex_lead_search/lead_search/playwright_scraper.py:68-75 | the artifact's page is the body's inner text when that is non-empty, and `content()` otherwise |
| `PlaywrightScraper.ScreenshotPathRule` | realtimex_lead_search/lead_search/playwright_scraper.py:76-79 | a screenshot path is set only when screenshots are asked for and taken; it is then `screenshot-<step id>.png` |
| `PlaywrightScraper.ClosesAreOpened` | realtimex_lead_search/lead_search/playwright_scraper.py:99-104 | every close is of a browser opened by the same or an earlier step, and that browser has `close` |
| `PlaywrightScraper.ClosedWhenOpened` | realtimex_lead_search/lead_search/playwright_scraper.py:56-104 | every browser a step opens that has `close` is closed, by that step's `finally`, whether its page loads, fails or its screenshot fails |
| `PlaywrightScraper.BoundIsOpened` | realtimex_lead_search/lead_search/playwright_scraper.py:57 | the bound browser, if any, came from a factory call of an earlier step that returned |
| `PlaywrightScraper.ClosesAtMostCalls` | realtimex_lead_search/lead_search/playwright_scraper.py:99-104 | there are never more closes than factory calls |
| `PlaywrightScraper.StaleBrowserClosedAgain` | realtimex_lead_search/lead_search/playwright_scraper.py:99-104 | when a later step's factory fails, the `finally` closes the earlier step's browser a second time |
| `Patterns.Run` | realtimex_lead_search/lead_search/lead_extractor.py:51-52 | a greedy character-class run stops at the end of the text or at the first character outside the class |
| `Patterns.RunAllIn` | realtimex_lead_search/lead_search/lead_extractor.py:51-52 | every character of a greedy run is in its class |
| `Patterns.RunReaches` | realtimex_lead_search/lead_search/lead_extractor.py:51-52 | a greedy run reaches at least as far as any stretch of class characters from its start |
| `Patterns.PhoneMatchSound` | realtimex_lead_search/lead_search/lead_extractor.py:52 | a phone match is an optional `+`, a digit, then at least seven digits, spaces, brackets, dots or dashes |
| `Patterns.PhoneMatchComplete` | realtimex_lead_search/lead_search/lead_extractor.py:52 | a phone-shaped text at a position is matched there, by a match at least as long |
| `Patterns.PhonesAreMatches` | realtimex_lead_search/lead_search/lead_extractor.py:58 | every phone `findall` returns occurs in the text at or after the search start and has the phone shape |
| `Patterns.FirstPhoneLeftmost` | realtimex_lead_search/lead_search/lead_extractor.py:58-59 | the first phone `findall` returns occurs in the text at a position before which no phone text starts, and no longer phone text starts there, so `phones[0]` is the leftmost, longest phone |
| `Patterns.LeftmostPhoneUnique` | realtimex_lead_search/lead_search/lead_extractor.py:58-59 | two phone texts that are both leftmost and longest from a position are the same text |
| `Patterns.Phones` | realtimex_lead_search/lead_search/lead_extractor.py:52-58 | defines `findall` of the phone pattern from a position (properties in `PhonesAreMatches`, `PhonesEmptyIff` and `PhoneFoundIff`) |
| `Patterns.PhonesEmptyIff` | realtimex_lead_search/lead_search/lead_extractor.py:58-59 | `findall` finds no phone if and only if no position starts a match |
| `Patterns.PhoneFoundIff` | realtimex_lead_search/lead_search/lead_extractor.py:58-59 | a phone is found if and only if some slice of the text is phone-shaped |
| `Patterns.LastTld` | realtimex_lead_search/lead_search/lead_extractor.py:51 | a found top-level domain position lies in range and starts a dot followed by two or more letters |
| `Patterns.LastTldIsLast` | realtimex_lead_search/lead_search/lead_extractor.py:51 | the backtracking domain match takes the last possible dot; none is found only when there is none |
| `Patterns.EmailMatchSound` | realtimex_lead_search/lead_search/lead_extractor.py:51 | an email match is a local part, `@`, a domain, a dot and two or more letters, ignoring case |
| `Patterns.EmailMatchComplete` | realtimex_lead_search/lead_search/lead_extractor.py:51 | an email-shaped slice starting at a position guarantees a match there that reaches at least the end of that slice |
| `Patterns.EmailMatchReaches` | realtimex_lead_search/lead_search/lead_extractor.py:51 | a match at a position covers every local part, `@`, domain and final dot-and-letters that start there |
| `Patterns.TldReaches` | realtimex_lead_search/lead_search/lead_extractor.py:51 | the last dot followed by two letters in a domain is at or after any given one, and its letters reach at least as far |
| `Patterns.EmailMatchLongest` | realtimex_lead_search/lead_search/lead_extractor.py:51 | no email text starting at a position is longer than the match there |
| `Patterns.NoEmailMatchNoEmail` | realtimex_lead_search/lead_search/lead_extractor.py:51 | where the scanner matches nothing, no email text starts |
| `Patterns.LeftmostEmailUnique` | realtimex_lead_search/lead_search/lead_extractor.py:57 | two email texts that are both leftmost and longest from a position are the same text |
| `Patterns.FirstEmail` | realtimex_lead_search/lead_search/lead_extractor.py:51-57 | defines `search` of the email pattern from a position (properties in `FirstEmailIff`) |
| `Patterns.FirstEmailIff` | realtimex_lead_search/lead_search/lead_extractor.py:57 | the first email found is email-shaped and occurs in the text at a position before which no email text starts, and no longer email text starts there (the leftmost, longest email); none is found if and only if no slice of the text is |
| `LeadExtractor.UntilClose` | realtimex_lead_search/lead_search/lead_extractor.py:138 | the tag body runs up to the first `>` or the end of the text |
| `LeadExtractor.TagLength` | realtimex_lead_search/lead_search/lead_extractor.py:138 | a tag is `<`, at least one non-`>` character, and `>` |
| `LeadExtractor.StripTags` | realtimex_lead_search/lead_search/lead_extractor.py:138 | defines tag stripping: each `<[^>]+>` becomes one space and other text is kept (properties in `StripTagsKeepsPlainText` and `HtmlToTextIsOneLine`) |
| `LeadExtractor.RemoveBlocks` | realtimex_lead_search/lead_search/lead_extractor.py:136-137 | defines script and style removal, case-insensitive and non-greedy, each block replaced by a space (properties in `RemoveBlocksKeepsPlainText`) |
| `LeadExtractor.Collapse` | realtimex_lead_search/lead_search/lead_extractor.py:140 | after collapsing, every whitespace character is a space, no two are adjacent, and emptiness and a leading space are kept |
| `LeadExtractor.HtmlToText` | realtimex_lead_search/lead_search/lead_extractor.py:134-141 | defines `_html_to_text`: drop scripts and styles, strip tags, unescape, collapse whitespace (properties in `HtmlToTextIsOneLine`) |
| `LeadExtractor.HtmlToTextIsOneLine` | realtimex_lead_search/lead_search/lead_extractor.py:134-141 | the text from `_html_to_text` is collapsed and has no line break |
| `LeadExtractor.CollapseKeepsText` | realtimex_lead_search/lead_search/lead_extractor.py:140 | collapsing whitespace keeps every non-space character, in order |
| `LeadExtractor.CollapseFixesCollapsed` | realtimex_lead_search/lead_search/lead_extractor.py:140 | collapsed text is left as it is |
| `LeadExtractor.CollapseIdempotent` | realtimex_lead_search/lead_search/lead_extractor.py:140 | collapsing twice is collapsing once |
| `LeadExtractor.StripTagsKeepsPlainText` | realtimex_lead_search/lead_search/lead_extractor.py:138 | text without `<` passes tag stripping unchanged |
| `LeadExtractor.RemoveBlocksKeepsPlainText` | realtimex_lead_search/lead_search/lead_extractor.py:136-137 | text without an opening marker passes script and style removal unchanged |
| `LeadExtractor.LineLength` | realtimex_lead_search/lead_search/lead_extractor.py:50 | a line runs to the first line break or the end of the text |
| `LeadExtractor.Lines` | realtimex_lead_search/lead_search/lead_extractor.py:50 | every kept line is non-empty and stripped |
| `LeadExtractor.OneLineText` | realtimex_lead_search/lead_search/lead_extractor.py:50 | text without line breaks gives its stripped self as the only line, or no line when it is blank |
| `LeadExtractor.Company` | realtimex_lead_search/lead_search/lead_extractor.py:61 | the company is a prefix of the line, at most 120 characters, free of `" - "`, and ends the line or stops at its first `" - "` when shorter than 120 |
| `LeadExtractor.CompanyNonEmpty` | realtimex_lead_search/lead_search/lead_extractor.py:50-61 | a stripped non-empty line names a non-empty company |
| `LeadExtractor.LineLeadFacts` | realtimex_lead_search/lead_search/lead_extractor.py:57-70 | a line yields a lead exactly when it holds an email or a phone; the lead has an email exactly when the line holds one, and then the leftmost, longest one, a phone exactly when the line holds one, and then the leftmost, longest phone text of the line, the company, the source and confidence 0.5 with an email or 0.4 without |
| `LeadExtractor.FromLineDetermines` | realtimex_lead_search/lead_search/lead_extractor.py:57-70 | the line, source and clock reading determine the line lead completely: two leads both satisfying the line-lead description are equal |
| `LeadExtractor.LineLead` | realtimex_lead_search/lead_search/lead_extractor.py:57-70 | defines the lead of one line: the leftmost email and `phones[0]`, the company, confidence 0.5 or 0.4, or none when the line holds neither (properties in `LineLeadFacts` and `FromLineDetermines`) |
| `LeadExtractor.Capped` | realtimex_lead_search/lead_search/lead_extractor.py:54-70 | the line pass keeps no more leads than lines seen and at most 21 (the check `len(leads) > 20` runs before each line; order in `CappedIsPrefix`) |
| `LeadExtractor.CappedStops` | realtimex_lead_search/lead_search/lead_extractor.py:55-56 | once more than 20 leads are held, further lines add nothing |
| `LeadExtractor.CappedIsPrefix` | realtimex_lead_search/lead_search/lead_extractor.py:54-70 | the line pass keeps the first min(found, 21) line leads, in line order |
| `LeadExtractor.LinePassFacts` | realtimex_lead_search/lead_search/lead_extractor.py:54-70 | every lead of the line pass comes from one of the lines and has a non-empty company |
| `LeadExtractor.MapPrefixAt` | realtimex_lead_search/lead_search/lead_extractor.py:75 | the per-phone loop builds one lead per phone, in order |
| `LeadExtractor.ScanLines` | realtimex_lead_search/lead_search/lead_extractor.py:54-70 | the line loop returns the capped line leads |
| `LeadExtractor.ScanFallback` | realtimex_lead_search/lead_search/lead_extractor.py:73-88 | the fallback loop returns one lead for each of the first five phones of the text |
| `LeadExtractor.HeuristicExtract` | realtimex_lead_search/lead_search/lead_extractor.py:47-89 | the heuristic returns the line leads, or the fallback leads when the line pass found none |
| `LeadExtractor.HeuristicLeads` | realtimex_lead_search/lead_search/lead_extractor.py:47-89 | defines `_heuristic_extract`: the capped line leads, or the fallback leads when there are none (properties in `HeuristicFacts` and `HeuristicFallsBack`) |
| `LeadExtractor.Window` | realtimex_lead_search/lead_search/lead_extractor.py:76-77 | the window around a phone is at most 80 characters, and exactly 80 when at least 60 characters precede the phone and 20 follow its start |
| `LeadExtractor.Guess` | realtimex_lead_search/lead_search/lead_extractor.py:78-80 | defines the company guess: five of the last six words of the window when it has at least six, else its first 120 characters (used by `FallbackLeadFacts`) |
| `LeadExtractor.FallbackLead` | realtimex_lead_search/lead_search/lead_extractor.py:76-88 | defines one fallback lead: the stripped guess or `Unknown`, the phone, confidence 0.3 (properties in `FallbackLeadFacts`) |
| `LeadExtractor.FallbackLeads` | realtimex_lead_search/lead_search/lead_extractor.py:73-88 | defines the fallback: one lead for each of the first five phones of the whole text (properties in `FallbackFacts`) |
| `LeadExtractor.FallbackLeadFacts` | realtimex_lead_search/lead_search/lead_extractor.py:76-87 | a fallback lead has the phone, which occurs in the text, no email, the source, confidence 0.3, and a stripped non-empty name or `Unknown` |
| `LeadExtractor.FallbackFacts` | realtimex_lead_search/lead_search/lead_extractor.py:74-88 | the fallback makes min(phones, 5) leads, one per phone in order, and each phone occurs in the text |
| `LeadExtractor.HeuristicFacts` | realtimex_lead_search/lead_search/lead_extractor.py:47-89 | the heuristic yields at most 21 leads, each with the artifact's source and a confidence of 0.3, 0.4 or 0.5 |
| `LeadExtractor.HeuristicFallsBack` | realtimex_lead_search/lead_search/lead_extractor.py:72-75 | the fallback is used if and only if no line holds an email or a phone |
| `LeadExtractor.ExtractOne` | realtimex_lead_search/lead_search/lead_extractor.py:28-36 | one artifact gives its heuristic leads when `ok`, and otherwise its error when it has one |
| `LeadExtractor.ExtractLeads` | realtimex_lead_search/lead_search/lead_extractor.py:14-44 | the leads are the concatenated leads of the artifacts and the errors are the errors of the failed ones, in order |
| `LeadExtractor.ConcatPrefixFrom` | realtimex_lead_search/lead_search/lead_extractor.py:36 | every extended lead comes from one of the artifacts; no artifact leads means no leads |
| `LeadExtractor.ExtractErrorsFacts` | realtimex_lead_search/lead_search/lead_extractor.py:28-31 | every error is the non-empty error of an artifact that is not `ok`; there are no errors if and only if every artifact is `ok` or has no error |
| `LeadExtractor.ArtifactLeads` | realtimex_lead_search/lead_search/lead_extractor.py:28-36 | defines the leads of one artifact: the heuristic leads of its page text when `ok`, else none (properties in `ArtifactLeadsFacts`) |
| `LeadExtractor.ArtifactLeadsFacts` | realtimex_lead_search/lead_search/lead_extractor.py:28-36 | an artifact that is not `ok` gives no leads; each lead of an `ok` artifact has its source and the clock reading |
| `LeadExtractor.ExtractedLeadsFacts` | realtimex_lead_search/lead_search/lead_extractor.py:27-36 | each extracted lead has the source of some `ok` artifact; with no `ok` artifact there are no leads |
| `LeadCacheManager.LeadKeys` | realtimex_lead_search/lead_search/lead_cache_manager.py:30-38 | a lead has at most three keys, none empty, and none exactly when it has no email, phone or website |
| `LeadCacheManager.AddKeys` | realtimex_lead_search/lead_search/lead_cache_manager.py:21-23 | the seen set grows by exactly the lead's keys |
| `LeadCacheManager.Visit` | realtimex_lead_search/lead_search/lead_cache_manager.py:17-24 | one iteration counts a hit when a key was seen, and otherwise keeps the lead and records its keys |
| `LeadCacheManager.Dedupe` | realtimex_lead_search/lead_search/lead_cache_manager.py:10-27 | defines the dedupe pass over a key function: seen keys, kept leads and hits (properties in `DroppedIff`, `DedupeSubsequence` and `DedupeIdempotent`) |
| `LeadCacheManager.DedupeLeads` | realtimex_lead_search/lead_search/lead_cache_manager.py:10-27 | the kept leads and the stats are those of the specified pass; `deduped` equals `hits` and `kept` is the number kept |
| `LeadCacheManager.DedupeCounts` | realtimex_lead_search/lead_search/lead_cache_manager.py:16-26 | kept plus hits is the number of leads |
| `LeadCacheManager.KeptIndices` | realtimex_lead_search/lead_search/lead_cache_manager.py:16-24 | the kept positions are positions of the input |
| `LeadCacheManager.DedupeSubsequence` | realtimex_lead_search/lead_search/lead_cache_manager.py:16-24 | the kept leads are the input's leads at strictly increasing positions, and exactly the positions whose lead is kept |
| `LeadCacheManager.SeenIsKeptKeys` | realtimex_lead_search/lead_search/lead_cache_manager.py:21-23 | the seen set is exactly the union of the kept leads' keys |
| `LeadCacheManager.DroppedIff` | realtimex_lead_search/lead_search/lead_cache_manager.py:18-20 | a lead is dropped if and only if it shares a key with a lead kept before it |
| `LeadCacheManager.KeptDistinct` | realtimex_lead_search/lead_search/lead_cache_manager.py:16-24 | no two kept leads share a key |
| `LeadCacheManager.DistinctKeptWhole` | realtimex_lead_search/lead_search/lead_cache_manager.py:16-24 | leads that pairwise share no key are all kept, with no hit |
| `LeadCacheManager.DedupeIdempotent` | realtimex_lead_search/lead_search/lead_cache_manager.py:10-27 | deduplicating the kept leads again keeps them all, with no hit |
| `LeadCacheManager.KeylessKept` | realtimex_lead_search/lead_search/lead_cache_manager.py:18-24 | a lead with no email, phone or website is always kept |
| `LeadCacheManager.EmailCaseCollapses` | realtimex_lead_search/lead_search/lead_cache_manager.py:33 | emails that differ only in case are duplicates |
| `LeadCacheManager.WebsiteCaseCollapses` | realtimex_lead_search/lead_search/lead_cache_manager.py:37 | websites that differ only in case are duplicates |
| `LeadCacheManager.PhonesVerbatim` | realtimex_lead_search/lead_search/lead_cache_manager.py:35 | phones are compared as written, so two spellings of a number are kept as two leads |
| `LeadScorer.FiltersOrDefault` | realtimex_lead_search/lead_search/lead_scorer.py:12 | no filters means no categories, no must-haves and no custom entries |
| `LeadScorer.LowerAll` | realtimex_lead_search/lead_search/lead_scorer.py:26 | each category is lower-cased, in place in the list |
| `LeadScorer.Clamp` | realtimex_lead_search/lead_search/lead_scorer.py:36 | the clamped score lies in [0, 1], equals the raw score inside that range and the nearer bound outside it |
| `LeadScorer.RawScore` | realtimex_lead_search/lead_search/lead_scorer.py:16-34 | defines the unclamped rule sum: 0.2, plus 0.3 for an email, 0.2 for a phone and 0.2 for a category match, minus 0.3 and 0.2 for a missing required email and phone |
| `LeadScorer.Tags` | realtimex_lead_search/lead_search/lead_scorer.py:19-34 | defines the tags of the fired rules, in rule order (properties in `TagsIff`) |
| `LeadScorer.Rationale` | realtimex_lead_search/lead_search/lead_scorer.py:37 | defines the rationale: the tags joined by `, `, or `baseline` (properties in `RationaleBaselineIff`) |
| `LeadScorer.Score` | realtimex_lead_search/lead_search/lead_scorer.py:16-36 | every score lies in [0, 1] |
| `LeadScorer.ApplyRule` | realtimex_lead_search/lead_search/lead_scorer.py:19-34 | a rule that fires adds its weight and its tag; one that does not changes nothing |
| `LeadScorer.ScoreLead` | realtimex_lead_search/lead_search/lead_scorer.py:15-38 | one lead's score is the clamped rule sum and its rationale is the joined tags |
| `LeadScorer.TagsIff` | realtimex_lead_search/lead_search/lead_scorer.py:19-34 | each of the five tags is present exactly when its rule fires; there are at most five tags |
| `LeadScorer.RationaleBaselineIff` | realtimex_lead_search/lead_search/lead_scorer.py:37 | the rationale is `baseline` exactly when no rule fired; otherwise it starts with the first tag |
| `LeadScorer.CategoryMatchIgnoresCase` | realtimex_lead_search/lead_search/lead_scorer.py:25-28 | a category equal to a filter category up to case is a match |
| `LeadScorer.NoCategoriesNoMatch` | realtimex_lead_search/lead_search/lead_scorer.py:25 | without filter categories nothing matches |
| `LeadScorer.EmailAndPhoneScoreHigh` | realtimex_lead_search/lead_search/lead_scorer.py:16-36 | a lead with an email and a phone scores at least 0.7 under any filters, so the bound of 0.6 that `tests/test_extract_and_score.py` checks always holds |
| `LeadScorer.DefaultFilterScore` | realtimex_lead_search/lead_search/lead_scorer.py:12-24 | under the default filters, the score is 0.2 plus 0.3 for an email and 0.2 for a phone |
| `LeadScorer.Insert` | realtimex_lead_search/lead_search/lead_scorer.py:40 | inserting adds exactly one element |
| `LeadScorer.SortBy` | realtimex_lead_search/lead_search/lead_scorer.py:40 | the stable descending sort keeps the length (properties in `SortPermutes`, `SortedNonIncreasing` and `SortStable`) |
| `LeadScorer.InsertPermutes` | realtimex_lead_search/lead_search/lead_scorer.py:40 | inserting adds the element to the multiset and nothing else |
| `LeadScorer.SortPermutes` | realtimex_lead_search/lead_search/lead_scorer.py:40 | the sort is a permutation |
| `LeadScorer.InsertSorted` | realtimex_lead_search/lead_search/lead_scorer.py:40 | inserting into a list sorted by descending score keeps it sorted |
| `LeadScorer.InsertStable` | realtimex_lead_search/lead_search/lead_scorer.py:40 | the inserted element goes before every element with the same score |
| `LeadScorer.SortedNonIncreasing` | realtimex_lead_search/lead_search/lead_scorer.py:40 | the sorted list has non-increasing scores |
| `LeadScorer.SortStable` | realtimex_lead_search/lead_search/lead_scorer.py:40 | leads with equal scores keep their input order, as a stable sort keeps them |
| `LeadScorer.ScoredPrefixAt` | realtimex_lead_search/lead_search/lead_scorer.py:15-38 | the k-th scored lead is the k-th input lead, with its own score and rationale |
| `LeadScorer.ScoreLeads` | realtimex_lead_search/lead_search/lead_scorer.py:10-41 | the result is the per-lead scoring sorted by descending score: one entry per lead, with scores that never increase |
| `LeadScorer.ScoreLeadsFacts` | realtimex_lead_search/lead_search/lead_scorer.py:10-41 | the result is a permutation of the input leads, each scored on its own; scores lie in [0, 1] and do not increase; ties keep input order |
| `UrlParse.IndexOfAny` | realtimex_lead_search/lead_search/lead_data_manager.py:249 | the first delimiter position, or the end of the text |
| `UrlParse.LastIndexOf` | realtimex_lead_search/lead_search/lead_data_manager.py:249 | the last position of the character, or -1 |
| `UrlParse.WithoutParams` | realtimex_lead_search/lead_search/lead_data_manager.py:249-250 | cutting `;params` leaves a prefix of the path |
| `UrlParse.SplitNetloc` | realtimex_lead_search/lead_search/lead_data_manager.py:249-251 | the network location and the remainder reassemble the text, with or without the leading `//` |
| `UrlParse.PathOf` | realtimex_lead_search/lead_search/lead_data_manager.py:249-250 | the path is the prefix before the query or fragment |
| `UrlParse.Parse` | realtimex_lead_search/lead_search/lead_data_manager.py:249 | defines the part of `urlparse` the key reads: the scheme, the network location and the path without `;params` (properties in `ParseHierarchical`) |
| `UrlParse.ParseHierarchical` | realtimex_lead_search/lead_search/lead_data_manager.py:248-251 | `scheme://host/path?query` parses to the lower-cased scheme, the host and the path |
| `LeadDataManager.RemoveBackslashD` | realtimex_lead_search/lead_search/lead_data_manager.py:242 | the as-written substitution never lengthens the phone |
| `LeadDataManager.Digits` | realtimex_lead_search/lead_search/lead_data_manager.py:242 | the intended substitution never lengthens the phone |
| `LeadDataManager.KeyWith` | realtimex_lead_search/lead_search/lead_data_manager.py:237-252 | every key has at least its four-character kind prefix |
| `LeadDataManager.UniqueKeyAsWritten` | realtimex_lead_search/lead_search/lead_data_manager.py:237-252 | defines `_lead_unique_key` as written, with the backslash-`D` phone substitution (properties in `UniqueKeyShape`, `PhoneKeyKeepsSeparators` and `DigitlessPhoneKeyed`) |
| `LeadDataManager.UniqueKey` | realtimex_lead_search/lead_search/lead_data_manager.py:237-252 | defines the corrected key, with the digits-only phone substitution (properties in `PhoneSpellingsMerge` and `PhoneSpellingRowsMerge`) |
| `LeadDataManager.KeyShape` | realtimex_lead_search/lead_search/lead_data_manager.py:237-252 | whatever the phone normaliser, a lead has no key exactly when no branch applies, and a key starts with its branch's prefix |
| `LeadDataManager.RemoveBackslashDEmptyIff` | realtimex_lead_search/lead_search/lead_data_manager.py:242-243 | the as-written substitution erases a phone completely if and only if the phone is made only of backslash-`D` pairs |
| `LeadDataManager.UniqueKeyShape` | realtimex_lead_search/lead_search/lead_data_manager.py:237-252 | as written, a lead has no key exactly when it has no email, no website, no source URL, and no phone other than one made of backslash-`D` pairs; so a phone without digits, such as `N/A`, still gives a key; a key starts with the prefix of the first branch that applies |
| `LeadDataManager.KeysOfDifferentKindsDiffer` | realtimex_lead_search/lead_search/lead_data_manager.py:239-252 | whatever the phone normaliser, so for the key as written too, equal keys come from the same branch |
| `LeadDataManager.SameEmailSameKey` | realtimex_lead_search/lead_search/lead_data_manager.py:239-240 | emails equal up to case give equal keys, whatever the other fields |
| `LeadDataManager.PhoneFormatsMerge` | realtimex_lead_search/lead_search/lead_data_manager.py:241-244 | whatever the phone normaliser, two leads without email whose phones normalise to the same non-empty text share one `phone:` key; as written, the normaliser deletes only backslash-`D` pairs, so this merges only phones that differ in those pairs; the corrected use is `PhoneSpellingsMerge` |
| `LeadDataManager.WebsiteTrailingSlash` | realtimex_lead_search/lead_search/lead_data_manager.py:245-247 | whatever the phone normaliser, so for the key as written too, a trailing slash on the website does not change the key |
| `LeadDataManager.RemoveBackslashDKeeps` | realtimex_lead_search/lead_search/lead_data_manager.py:242 | the as-written substitution leaves a phone without a backslash unchanged |
| `LeadDataManager.PhoneKeyKeepsSeparators` | realtimex_lead_search/lead_search/lead_data_manager.py:241-244 | as written, a phone key is the phone verbatim |
| `LeadDataManager.PhoneSpellingsSplitAsWritten` | realtimex_lead_search/lead_search/lead_data_manager.py:242 | as written, `555-1234` and `555 1234` give two different keys |
| `LeadDataManager.PhoneSpellingsMerge` | realtimex_lead_search/lead_search/lead_data_manager.py:242 | corrected, both spellings give the key `phone:5551234` |
| `LeadDataManager.DigitsAppend` | realtimex_lead_search/lead_search/lead_data_manager.py:242 | digit extraction distributes over concatenation |
| `LeadDataManager.DigitsOfNumber` | realtimex_lead_search/lead_search/lead_data_manager.py:242 | an all-digit phone is its own digits |
| `LeadDataManager.DigitsAreDigits` | realtimex_lead_search/lead_search/lead_data_manager.py:242 | the extracted digits are all digits |
| `LeadDataManager.DigitsAroundSeparator` | realtimex_lead_search/lead_search/lead_data_manager.py:242 | one separator between two numbers is dropped |
| `LeadDataManager.DigitsOfDashed` | realtimex_lead_search/lead_search/lead_data_manager.py:242 | the digits of `555-1234` are `5551234` |
| `LeadDataManager.DigitsOfSpaced` | realtimex_lead_search/lead_search/lead_data_manager.py:242 | the digits of `555 1234` are `5551234` |
| `LeadDataManager.Upsert` | realtimex_lead_search/lead_search/lead_data_manager.py:152-195 | a keyed lead adds its key to the table; a keyless lead adds one keyless row |
| `LeadDataManager.Merge` | realtimex_lead_search/lead_search/lead_data_manager.py:162-178 | defines the `ON CONFLICT` update (properties in `UpsertOnConflict`) |
| `LeadDataManager.UpsertAll` | realtimex_lead_search/lead_search/lead_data_manager.py:117-196 | defines the table after the loop, for a given key function (properties in `UpsertAllCounts`, `FreshStoreRows` and `KeylessLeadAddsRow`) |
| `LeadDataManager.StampedPrefix` | realtimex_lead_search/lead_search/lead_data_manager.py:118-124 | for any key function, the stamping pass keeps the number of leads and leaves the leads not yet visited as they were |
| `LeadDataManager.LeadStore.constructor` | realtimex_lead_search/lead_search/lead_data_manager.py:16-82 | a new database has no runs and no leads |
| `LeadDataManager.LeadStore.PersistOne` | realtimex_lead_search/lead_search/lead_data_manager.py:119-196 | one lead is stamped with its as-written key and the run ids, and its row is upserted under that key; the run table is unchanged |
| `LeadDataManager.LeadStore.Persist` | realtimex_lead_search/lead_search/lead_data_manager.py:85-208 | one run row is appended with the next id; every lead is stamped and upserted in order under the key as written; the result counts every lead and names the database and the JSON path |
| `LeadDataManager.UpsertOnConflict` | realtimex_lead_search/lead_search/lead_data_manager.py:162-178 | on a key conflict, `times_seen` goes up by one; the last-seen run, name, confidence, score, rationale and capture time are replaced; the ids, segment and first-seen run are kept; the other fields are coalesced; other rows and the keyless rows are untouched |
| `LeadDataManager.UpsertFresh` | realtimex_lead_search/lead_search/lead_data_manager.py:152-161 | a new key inserts the row as given |
| `LeadDataManager.UpsertKeyless` | realtimex_lead_search/lead_search/lead_data_manager.py:183-195 | a lead without a key is appended as a fresh row |
| `LeadDataManager.KeylessCount` | realtimex_lead_search/lead_search/lead_data_manager.py:183-195 | for any key function, at most one key-less row per lead, and none exactly when every lead has a key |
| `LeadDataManager.UpsertAllCounts` | realtimex_lead_search/lead_search/lead_data_manager.py:117-196 | for any key function, so for the key as written too: after the loop, the table's keys are the old keys plus the leads' keys, and the key-less rows grew by the number of key-less leads |
| `LeadDataManager.FreshStoreRows` | realtimex_lead_search/lead_search/lead_data_manager.py:117-196 | for any key function: into an empty table, the keyed rows are one per distinct key and the key-less rows one per key-less lead |
| `LeadDataManager.StampedFacts` | realtimex_lead_search/lead_search/lead_data_manager.py:120-124 | for any key function: each stamped lead has its key, keeps a set first-seen run and otherwise takes this run, has this run as last seen, and is otherwise unchanged with its score and rationale |
| `LeadDataManager.KeylessLeadAddsRow` | realtimex_lead_search/lead_search/lead_data_manager.py:183-195 | for any key function: a key-less lead always adds a row, even for a lead seen before |
| `LeadDataManager.PhoneSpellingRowsAsWritten` | realtimex_lead_search/lead_search/lead_data_manager.py:242 | as written, leads with phones `555-1234` and `555 1234` and no email become two rows of a fresh table, `phone:555-1234` and `phone:555 1234` |
| `LeadDataManager.PhoneSpellingRowsMerge` | realtimex_lead_search/lead_search/lead_data_manager.py:242 | corrected, the same two leads become one row, `phone:5551234`, seen twice |
| `LeadDataManager.DigitlessPhoneKeyed` | realtimex_lead_search/lead_search/lead_data_manager.py:241-244 | as written, a lead whose only contact is the phone `N/A` is keyed `phone:N/A`, so later runs merge into its row; with the digits-only key it has no key |
| `LeadDataManager.JsonPathChoice` | realtimex_lead_search/lead_search/lead_data_manager.py:201-203 | without export there is no JSON path; a given non-empty path is used as is |
| `LeadDataManager.JsonOutputPath` | realtimex_lead_search/lead_search/lead_data_manager.py:201-203 | defines the JSON path: none without export, else the given path, else `leads.json` beside the database (properties in `JsonPathChoice` and `DefaultJsonBesideDb`) |
| `LeadDataManager.DefaultJsonBesideDb` | tests/test_data_manager.py:16-21 | with export and no path, the JSON file is `leads.json` beside the database |

## Left out

- SQLite itself is not modelled: the connection, the `CREATE TABLE` statements, the `_ensure_column` and `_ensure_unique` migrations, and commit and close. The database is the `LeadStore` object. The run id `lastrowid` is modelled as the number of runs plus one, which is what `AUTOINCREMENT` gives on a table that only grows.
- The JSON export is not modelled: `json.dumps` of the run lists, the JSON file itself, the directory creation and `_scored_to_dict`. The model computes only the path the result names.
- JSON numbers in a payload or a preloaded blob are exact reals (`Models.JNum`): the rounding of a decoded float to the nearest IEEE-754 double is not modelled, so a literal too small to survive that rounding counts as truthy here.
- The browser is an oracle: anti-detection (`anti_detection.py`), contexts, navigation and waiting. `anti_detection.py` is not part of this model.
- The LLM path is left out: `_llm_extract`, `llm_adapter.py` and `prompts.py`. It is only reached with `use_llm`, and it calls a remote model.
- `html.unescape` and `quote_plus` are uninterpreted function parameters.
- The clock and UUIDs are parameters: step ids, `fetched_at`, `captured_at` and the run UUID.
- One clock reading `now` stands for every `_ts()` call of a stage: all the artifacts of one `scrape_steps` call share one `fetched_at`, and all the leads of one extraction share one `captured_at`. In the source, each comes from its own `_ts()` call (`models.py:124`, `models.py:140`), so later ones can be later.
- Python's `str.lower`, `\d`, `[A-Z]` with `re.I` and `str.isspace` are modelled on ASCII and the whitespace set of `isspace`. Unicode case folding and Unicode digits are not modelled.
- Scores and confidences are exact reals, not binary floats. So `0.2 + 0.3` is exactly `0.5`. Float rounding is not modelled, and it matters beyond the clamp bounds. Leads whose exact scores tie may be ordered differently by the source, because rounding can break the tie. For example, with both must-have flags set, an email-only lead and a phone lead with a matching category both score exactly 0.3 here. In Python they score 0.3 and 0.3000000000000001, so the source puts the phone lead first whatever the input order.
- FiltersFromPayload: a `categories` value that is a JSON string, or a list holding non-strings, is reduced to the strings it holds. The source keeps the value as given: `score_leads` would then iterate a string character by character, and raise on a non-string item in `c.lower()`. The model's `SearchFilters` holds a list of strings, as the dataclass declares.
- `SearchRequest.from_payload` takes a typed payload. The `int()` and `float()` coercions and the errors they raise on bad input are not modelled.
- `str.splitlines` is modelled as a cut at every line-break character, so `\r\n` gives an empty piece. The line pass drops empty pieces, so the lines kept are the same.
- `urlparse` is modelled as in CPython 3.12, including its `uses_params` scheme list. It is not modelled where its input is unusual: stripping of leading control characters and spaces, removal of tabs and newlines, the query and fragment fields, and the `ValueError` on unbalanced IPv6 brackets. Only the scheme, network location and path the key reads are modelled.
- The test scenario in `tests/test_extract_and_score.py:12-17` is not restated as a lemma: one HTML page through extraction. Evaluating both patterns on that literal text costs more than the verifier's resource bound. What the general lemmas do give is that a line's lead is fully determined: its email and phone are the leftmost, longest matches (`LeftmostEmailUnique`, `LeftmostPhoneUnique`, `FromLineDetermines`), so for that page only the expected email and phone satisfy the model's description; that the literal page holds them is not proved.
- `LeadSearchResponse.to_dict` and the agent entry point `lead_search_agent.py` are wiring around the core and are not part of this model.
- `LeadScorer.ScoreLeads`: `list.sort` is stable and works in place. It is modelled on values, as a stable insertion sort proved to permute and order the list.
- `LeadDataManager.LeadStore.Persist`: in the source, `persist` writes the key and run ids into the caller's lead objects. The model returns the stamped leads as `stamped` instead of mutating shared objects.
- `ScrapeSteps`, `ExtractLeads`, `DedupeLeads`, `ScoreLeads` and `Persist` call per-iteration methods: `ScrapeStep`, `ExtractOne`, `Visit`, `ScoreLead` and `PersistOne`. Each stands for one loop body of the source; `RunBrowser` stands for the `try` block of a step that reaches the browser.

## Findings

| source | as written | input that shows it | evidently intended | confidence | as-written member | corrected member |
|---|---|---|---|---|---|---|
| realtimex_lead_search/lead_search/lead_data_manager.py:242 | `re.sub(r"\\D", "", phone)` matches a literal backslash followed by `D`, so the phone is kept with its separators | a lead with phone `555-1234` and one with phone `555 1234`, neither with an email: the keys are `phone:555-1234` and `phone:555 1234`, two rows | remove every non-digit, so both phones give the key `phone:5551234` and a single upserted row | not executed | `LeadDataManager.PhoneSpellingRowsAsWritten` | `LeadDataManager.PhoneSpellingRowsMerge` |
