/**
 * Strategy expansion: a search request becomes an ordered list of scrape steps,
 * every keyword crossed with every location crossed with every page, once for
 * each requested source that names Google Maps.
 */
module SearchStrategies {
  import opened Wrappers
  import opened Strings
  import opened Models

  /** The source names (after lower-casing) that are routed to the Google Maps builder. */
  const MapsSourceNames: set<string> := {"google_maps", "maps", "google-maps"}

  predicate IsMapsSource(source: string) {
    Lower(source) in MapsSourceNames
  }

  /** One step as planned, before it is given its timestamp id. */
  datatype Planned = Planned(query: string, location: Option<string>, page: int)

  /** `request.locations or [None]`. */
  function LocationsOf(req: SearchRequest): (ls: seq<Option<string>>)
    ensures |ls| == if req.locations == [] then 1 else |req.locations|
  {
    if req.locations == [] then [None] else seq(|req.locations|, i requires 0 <= i < |req.locations| => Some(req.locations[i]))
  }

  /** `max(1, request.pages_per_source)`. */
  function MaxPages(req: SearchRequest): (n: nat)
    ensures n >= 1
  {
    if req.pagesPerSource < 1 then 1 else req.pagesPerSource
  }

  /** The keyword alone when the location is missing or empty, else keyword, space, location. */
  function QueryFor(kw: string, loc: Option<string>): string {
    if loc.None? || loc.value == "" then kw else kw + " " + loc.value
  }

  /** Pages 1..n of one keyword at one location. */
  function PagePlan(kw: string, loc: Option<string>, n: nat): (ps: seq<Planned>)
    ensures |ps| == n
  {
    seq(n, i requires 0 <= i < n => Planned(QueryFor(kw, loc), loc, i + 1))
  }

  /** The concatenation of a sequence of blocks, in order. */
  function Flatten<T>(bs: seq<seq<T>>): seq<T> {
    if bs == [] then [] else Flatten(bs[..|bs| - 1]) + bs[|bs| - 1]
  }

  /** One block per location of one keyword, each holding all its pages. */
  function LocationBlocks(kw: string, locs: seq<Option<string>>, n: nat): (bs: seq<seq<Planned>>)
    ensures |bs| == |locs| && forall l :: 0 <= l < |locs| ==> bs[l] == PagePlan(kw, locs[l], n)
  {
    seq(|locs|, l requires 0 <= l < |locs| => PagePlan(kw, locs[l], n))
  }

  /** Every location of one keyword, each with all its pages. */
  function LocationPlan(kw: string, locs: seq<Option<string>>, n: nat): seq<Planned> {
    Flatten(LocationBlocks(kw, locs, n))
  }

  /** One block per keyword. */
  function KeywordBlocks(kws: seq<string>, locs: seq<Option<string>>, n: nat): (bs: seq<seq<Planned>>)
    ensures |bs| == |kws| && forall k :: 0 <= k < |kws| ==> bs[k] == LocationPlan(kws[k], locs, n)
  {
    seq(|kws|, k requires 0 <= k < |kws| => LocationPlan(kws[k], locs, n))
  }

  /** Every keyword (outermost), location, page (innermost). */
  function KeywordPlan(kws: seq<string>, locs: seq<Option<string>>, n: nat): seq<Planned> {
    Flatten(KeywordBlocks(kws, locs, n))
  }

  /** What `build_google_maps_strategies` plans for a request. */
  function MapsPlan(req: SearchRequest): seq<Planned> {
    if req.keywords == [] then [] else KeywordPlan(req.keywords, LocationsOf(req), MaxPages(req))
  }

  /** The StrategyStep built for a planned step; `stamp` is the clock reading that its default id uses. */
  function MakeStep(p: Planned, maxPages: int, stamp: string): StrategyStep {
    StrategyStep("google_maps", p.query, p.location, p.page, maxPages, 1.5, Some("maps_listing"), "step-" + stamp)
  }

  /**
   * The steps built from `plan`, in order; the n-th step built reads the
   * clock as `clock(base + n)`.
   */
  function Stamp(plan: seq<Planned>, maxPages: int, clock: nat -> string, base: nat): (steps: seq<StrategyStep>)
    ensures |steps| == |plan|
    ensures forall n :: 0 <= n < |plan| ==> steps[n] == MakeStep(plan[n], maxPages, clock(base + n))
  {
    seq(|plan|, n requires 0 <= n < |plan| => MakeStep(plan[n], maxPages, clock(base + n)))
  }

  lemma StampSnoc(plan: seq<Planned>, p: Planned, maxPages: int, clock: nat -> string, base: nat)
    ensures Stamp(plan + [p], maxPages, clock, base) == Stamp(plan, maxPages, clock, base) + [MakeStep(p, maxPages, clock(base + |plan|))]
  {
  }

  /** Building two plans one after the other is building their concatenation. */
  lemma StampAppend(p: seq<Planned>, q: seq<Planned>, maxPages: int, clock: nat -> string, base: nat)
    ensures Stamp(p + q, maxPages, clock, base) == Stamp(p, maxPages, clock, base) + Stamp(q, maxPages, clock, base + |p|)
  {
  }

  lemma FlattenStep<T>(bs: seq<seq<T>>, i: nat)
    requires i < |bs|
    ensures Flatten(bs[..i + 1]) == Flatten(bs[..i]) + bs[i]
  {
    assert bs[..i + 1][..i] == bs[..i];
  }

  /** Flattening blocks of a common size `b` gives `|bs| * b` items. */
  lemma {:induction false} FlattenLength<T>(bs: seq<seq<T>>, b: nat)
    requires forall i :: 0 <= i < |bs| ==> |bs[i]| == b
    ensures |Flatten(bs)| == |bs| * b
  {
    if bs != [] {
      FlattenLength(bs[..|bs| - 1], b);
      assert |bs| * b == (|bs| - 1) * b + b;
    }
  }

  /** Item `i * b + j` of flattened blocks of common size `b` is item `j` of block `i`. */
  lemma {:induction false} FlattenAt<T>(bs: seq<seq<T>>, b: nat, i: nat, j: nat)
    requires forall i :: 0 <= i < |bs| ==> |bs[i]| == b
    requires i < |bs| && j < b
    ensures i * b + j < |Flatten(bs)| && Flatten(bs)[i * b + j] == bs[i][j]
  {
    var front := bs[..|bs| - 1];
    FlattenLength(front, b);
    FlattenLength(bs, b);
    if i < |bs| - 1 {
      FlattenAt(front, b, i, j);
    } else {
      assert i * b == (|bs| - 1) * b;
    }
  }

  /** The plan has |keywords| * max(1,|locations|) * max(1, pages) steps (none without keywords). */
  lemma LocationPlanLength(kw: string, locs: seq<Option<string>>, n: nat)
    ensures |LocationPlan(kw, locs, n)| == |locs| * n
  {
    FlattenLength(LocationBlocks(kw, locs, n), n);
  }

  lemma MapsPlanLength(req: SearchRequest)
    ensures |MapsPlan(req)| == |req.keywords| * (|LocationsOf(req)| * MaxPages(req))
  {
    if req.keywords != [] {
      var L, P := LocationsOf(req), MaxPages(req);
      forall k | 0 <= k < |req.keywords| ensures |LocationPlan(req.keywords[k], L, P)| == |L| * P {
        LocationPlanLength(req.keywords[k], L, P);
      }
      FlattenLength(KeywordBlocks(req.keywords, L, P), |L| * P);
    }
  }

  /** Page p + 1 of location l of one keyword sits at position l * pages + p of its location plan. */
  lemma LocationPlanAt(kw: string, L: seq<Option<string>>, P: nat, l: nat, p: nat)
    requires l < |L| && p < P
    ensures l * P + p < |LocationPlan(kw, L, P)|
    ensures LocationPlan(kw, L, P)[l * P + p] == Planned(QueryFor(kw, L[l]), L[l], p + 1)
  {
    FlattenAt(LocationBlocks(kw, L, P), P, l, p);
  }

  /** Item j of keyword k's block sits at position k * (|locations| * pages) + j of the keyword plan. */
  lemma KeywordPlanAt(kws: seq<string>, L: seq<Option<string>>, P: nat, k: nat, j: nat)
    requires k < |kws| && j < |L| * P
    ensures |LocationPlan(kws[k], L, P)| == |L| * P
    ensures k * (|L| * P) + j < |KeywordPlan(kws, L, P)|
    ensures KeywordPlan(kws, L, P)[k * (|L| * P) + j] == LocationPlan(kws[k], L, P)[j]
  {
    var kb := KeywordBlocks(kws, L, P);
    forall k' | 0 <= k' < |kws| ensures |kb[k']| == |L| * P {
      LocationPlanLength(kws[k'], L, P);
    }
    FlattenAt(kb, |L| * P, k, j);
  }

  /**
   * Keyword-major, then location, then page: the step at position
   * (k * |locations| + l) * pages + p is keyword k at location l on page p + 1.
   */
  lemma MapsPlanAt(req: SearchRequest, k: nat, l: nat, p: nat)
    requires k < |req.keywords| && l < |LocationsOf(req)| && p < MaxPages(req)
    ensures (k * |LocationsOf(req)| + l) * MaxPages(req) + p < |MapsPlan(req)|
    ensures var L := LocationsOf(req);
            MapsPlan(req)[(k * |L| + l) * MaxPages(req) + p] == Planned(QueryFor(req.keywords[k], L[l]), L[l], p + 1)
  {
    var kws, L, P := req.keywords, LocationsOf(req), MaxPages(req);
    assert MapsPlan(req) == KeywordPlan(kws, L, P);
    PlanAt(kws, L, P, k, l, p);
  }

  /** The position formula on the plan of a keyword list, a location list and a page count. */
  lemma PlanAt(kws: seq<string>, L: seq<Option<string>>, P: nat, k: nat, l: nat, p: nat)
    requires k < |kws| && l < |L| && p < P
    ensures (k * |L| + l) * P + p < |KeywordPlan(kws, L, P)|
    ensures KeywordPlan(kws, L, P)[(k * |L| + l) * P + p] == Planned(QueryFor(kws[k], L[l]), L[l], p + 1)
  {
    LocationPlanAt(kws[k], L, P, l, p);
    BlockBound(l, p, |L|, P);
    KeywordPlanAt(kws, L, P, k, l * P + p);
    Regroup(k, l, p, |L|, P);
  }

  lemma BlockBound(l: nat, p: nat, L: nat, P: nat)
    requires l < L && p < P
    ensures l * P + p < L * P
  {
    assert (l + 1) * P <= L * P;
  }

  lemma MulSucc(c: nat, m: nat)
    ensures (c + 1) * m == c * m + m
  {
  }

  lemma Regroup(k: nat, l: nat, p: nat, L: nat, P: nat)
    ensures (k * L + l) * P + p == k * (L * P) + (l * P + p)
  {
    assert (k * L + l) * P == k * L * P + l * P;
  }

  /** Every item of flattened blocks comes from one of the blocks. */
  lemma {:induction false} FlattenMember<T>(bs: seq<seq<T>>, x: T)
    requires x in Flatten(bs)
    ensures exists i :: 0 <= i < |bs| && x in bs[i]
  {
    var front := bs[..|bs| - 1];
    if x !in bs[|bs| - 1] {
      FlattenMember(front, x);
      var i :| 0 <= i < |front| && x in front[i];
      assert bs[i] == front[i];
    }
  }

  /** Every planned page lies in 1..max(1, pages_per_source). */
  lemma MapsPlanPages(req: SearchRequest)
    ensures forall x :: x in MapsPlan(req) ==> 1 <= x.page <= MaxPages(req)
  {
    var L, P := LocationsOf(req), MaxPages(req);
    forall x | x in MapsPlan(req) ensures 1 <= x.page <= P {
      var kb := KeywordBlocks(req.keywords, L, P);
      FlattenMember(kb, x);
      var k :| 0 <= k < |kb| && x in kb[k];
      var lb := LocationBlocks(req.keywords[k], L, P);
      FlattenMember(lb, x);
      var l :| 0 <= l < |lb| && x in lb[l];
    }
  }

  /** One more page of a (keyword, location) pair appends exactly that page. */
  lemma PagePlanSnoc(kw: string, loc: Option<string>, page: nat)
    requires page >= 1
    ensures PagePlan(kw, loc, page) == PagePlan(kw, loc, page - 1) + [Planned(QueryFor(kw, loc), loc, page)]
  {
  }

  /** Finishing block `i` of a flattening extends what is done by that block. */
  lemma BlockStep<T>(done: seq<T>, bs: seq<seq<T>>, i: nat)
    requires i < |bs|
    ensures done + Flatten(bs[..i + 1]) == (done + Flatten(bs[..i])) + bs[i]
  {
    FlattenStep(bs, i);
  }

  /** `build_google_maps_strategies`: the triple loop over keywords, locations and pages. */
  method BuildGoogleMapsStrategies(req: SearchRequest, clock: nat -> string, base: nat) returns (steps: seq<StrategyStep>)
    ensures steps == Stamp(MapsPlan(req), MaxPages(req), clock, base)
  {
    steps := [];
    if req.keywords == [] {
      return;
    }
    var kws, locs, maxPages := req.keywords, LocationsOf(req), MaxPages(req);
    ghost var kwBlocks := KeywordBlocks(kws, locs, maxPages);
    ghost var plan: seq<Planned> := [];
    assert kwBlocks[..0] == [];
    for ki := 0 to |kws|
      invariant plan == Flatten(kwBlocks[..ki])
      invariant steps == Stamp(plan, maxPages, clock, base)
    {
      var kw := kws[ki];
      ghost var locBlocks := LocationBlocks(kw, locs, maxPages);
      ghost var done := plan;
      assert locBlocks[..0] == [];
      for li := 0 to |locs|
        invariant plan == done + Flatten(locBlocks[..li])
        invariant steps == Stamp(plan, maxPages, clock, base)
      {
        var loc := locs[li];
        var query := QueryFor(kw, loc);
        ghost var before := plan;
        for page := 1 to maxPages + 1
          invariant plan == before + PagePlan(kw, loc, page - 1)
          invariant steps == Stamp(plan, maxPages, clock, base)
        {
          var x := Planned(query, loc, page);
          assert plan + [x] == before + PagePlan(kw, loc, page) by {
            PagePlanSnoc(kw, loc, page);
          }
          assert steps + [MakeStep(x, maxPages, clock(base + |steps|))] == Stamp(plan + [x], maxPages, clock, base) by {
            StampSnoc(plan, x, maxPages, clock, base);
          }
          steps := steps + [MakeStep(x, maxPages, clock(base + |steps|))];
          plan := plan + [x];
        }
        assert plan == done + Flatten(locBlocks[..li + 1]) by {
          assert locBlocks[li] == PagePlan(kw, loc, maxPages);
          BlockStep(done, locBlocks, li);
        }
      }
      assert plan == Flatten(kwBlocks[..ki + 1]) by {
        assert locBlocks[..|locs|] == locBlocks;
        assert kwBlocks[ki] == Flatten(locBlocks);
        FlattenStep(kwBlocks, ki);
      }
    }
    assert kwBlocks[..|kws|] == kwBlocks;
  }

  /** Every step of the Maps builder has the fixed source, page bound, throttle and parser hint, and a page in range. */
  lemma MapsStepsFields(req: SearchRequest, clock: nat -> string, base: nat, n: nat)
    requires n < |MapsPlan(req)|
    ensures var st := Stamp(MapsPlan(req), MaxPages(req), clock, base)[n];
            st.source == "google_maps" && st.maxPages == MaxPages(req) && st.throttleSeconds == 1.5 &&
            st.parserHint == Some("maps_listing") && 1 <= st.page <= MaxPages(req) &&
            st.stepId == "step-" + clock(base + n)
  {
    MapsPlanPages(req);
    assert MapsPlan(req)[n] in MapsPlan(req);
  }

  /** The plans of every Maps-routed source, in source order. */
  function SourcesPlan(sources: seq<string>, req: SearchRequest): seq<Planned> {
    if sources == [] then []
    else SourcesPlan(sources[..|sources| - 1], req) + (if IsMapsSource(sources[|sources| - 1]) then MapsPlan(req) else [])
  }

  /** How many of the sources are routed to the Maps builder. */
  function MapsSourceCount(sources: seq<string>): nat {
    if sources == [] then 0
    else MapsSourceCount(sources[..|sources| - 1]) + (if IsMapsSource(sources[|sources| - 1]) then 1 else 0)
  }

  /** Each Maps-routed source contributes one full plan; the others contribute nothing. */
  lemma {:induction false} SourcesPlanLength(sources: seq<string>, req: SearchRequest)
    ensures |SourcesPlan(sources, req)| == MapsSourceCount(sources) * |MapsPlan(req)|
  {
    if sources != [] {
      var front := sources[..|sources| - 1];
      SourcesPlanLength(front, req);
      MulSucc(MapsSourceCount(front), |MapsPlan(req)|);
    }
  }

  /** `build_strategies`: extends the step list once per Maps-routed source. */
  method BuildStrategies(req: SearchRequest, clock: nat -> string) returns (steps: seq<StrategyStep>)
    ensures steps == Stamp(SourcesPlan(req.sources, req), MaxPages(req), clock, 0)
  {
    steps := [];
    for i := 0 to |req.sources|
      invariant steps == Stamp(SourcesPlan(req.sources[..i], req), MaxPages(req), clock, 0)
    {
      assert req.sources[..i + 1][..i] == req.sources[..i];
      if IsMapsSource(req.sources[i]) {
        var more := BuildGoogleMapsStrategies(req, clock, |steps|);
        StampAppend(SourcesPlan(req.sources[..i], req), MapsPlan(req), MaxPages(req), clock, 0);
        steps := steps + more;
      } else {
        assert SourcesPlan(req.sources[..i + 1], req) == SourcesPlan(req.sources[..i], req) + [];
      }
    }
    assert req.sources[..|req.sources|] == req.sources;
  }

  /** The request of the strategy test: two keywords, two locations, two pages, Google Maps. */
  function TwoByTwoByTwo(): Payload {
    Payload(Some(["plumber", "electrician"]), Some(["seattle", "portland"]), None, None, Some(["google_maps"]),
            None, Some(2), None, None, None, None, None)
  }

  lemma GoogleMapsIsMapsSource()
    ensures IsMapsSource("google_maps")
  {
    assert Lower("google_maps") == "google_maps";
  }

  /** A request naming one Maps source plans exactly the Google Maps steps. */
  lemma SingleMapsSource(req: SearchRequest)
    requires |req.sources| == 1 && IsMapsSource(req.sources[0])
    ensures SourcesPlan(req.sources, req) == MapsPlan(req)
  {
    assert req.sources[..0] == [];
  }

  /** The test request parses to two keywords, two locations, two pages and the Google Maps source. */
  lemma TwoByTwoByTwoRequest()
    ensures var req := FromPayload(TwoByTwoByTwo());
            req.keywords == ["plumber", "electrician"] && req.locations == ["seattle", "portland"] &&
            req.pagesPerSource == 2 && req.sources == ["google_maps"]
  {
  }

  /** 2 keywords x 2 locations x 2 pages on Google Maps give 8 steps; the first two are pages 1 and 2 of the first pair. */
  lemma TwoByTwoByTwoGivesEightSteps(req: SearchRequest)
    requires |req.keywords| == 2 && |req.locations| == 2 && req.pagesPerSource == 2 && req.sources == ["google_maps"]
    ensures |SourcesPlan(req.sources, req)| == 8
    ensures SourcesPlan(req.sources, req)[0] == Planned(QueryFor(req.keywords[0], Some(req.locations[0])), Some(req.locations[0]), 1)
    ensures SourcesPlan(req.sources, req)[0].page == 1 && SourcesPlan(req.sources, req)[1].page == 2
  {
    GoogleMapsIsMapsSource();
    SingleMapsSource(req);
    var L, P := LocationsOf(req), MaxPages(req);
    assert |L| == 2 && P == 2;
    MapsPlanLength(req);
    MapsPlanAt(req, 0, 0, 0);
    MapsPlanAt(req, 0, 0, 1);
  }
}
