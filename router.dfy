/**
 * The rule-based part of the smart search router: the countries a place name mentions,
 * recommendations built from registry sources with a reason and search parameters, the
 * fallback to a general search when no rule applies, the cache key of a research context
 * and the merge of further recommendations into the rule-based ones.
 */
module Router {
  import opened Wrappers
  import opened Text
  import opened OrderedMap
  import opened Models
  import opened Registry
  import opened Sorting

  // ---------------------------------------------------------------------------------------
  // Countries named in a place
  // ---------------------------------------------------------------------------------------

  /** `known_countries`; the original iterates a set, and the result is a set whatever the order. */
  const KnownCountries: seq<string> := [
    "united states", "usa", "us", "america",
    "belgium", "belgie", "belgique",
    "netherlands", "holland", "nederland",
    "germany", "deutschland",
    "france",
    "ireland",
    "england", "uk", "united kingdom",
    "cherokee nation", "indian territory", "oklahoma"
  ]

  /** The names `_extract_countries` can report. */
  const CanonicalCountries: set<string> := {
    "united states", "belgium", "netherlands", "germany", "france", "ireland", "united kingdom", "oklahoma"
  }

  /** The normalisation of one known name. */
  function Normalize(country: string): string
  {
    if country == "usa" || country == "us" || country == "america" then "united states"
    else if country == "belgie" || country == "belgique" then "belgium"
    else if country == "holland" || country == "nederland" then "netherlands"
    else if country == "deutschland" then "germany"
    else if country == "uk" || country == "england" then "united kingdom"
    else if country == "cherokee nation" || country == "indian territory" then "oklahoma"
    else country
  }

  /** Reference definition: the normalised names of the known names among the first `n` that occur in the lower-cased place. */
  ghost function CountriesUpTo(placeLower: string, n: nat): set<string>
    requires n <= |KnownCountries|
  {
    set i | 0 <= i < n && Contains(placeLower, KnownCountries[i]) :: Normalize(KnownCountries[i])
  }

  ghost function Countries(place: string): set<string>
  {
    CountriesUpTo(Lower(place), |KnownCountries|)
  }

  /** `_extract_countries` */
  method ExtractCountries(place: string) returns (found: set<string>)
    ensures found == Countries(place)
  {
    var placeLower := Lower(place);
    found := {};
    for i := 0 to |KnownCountries|
      invariant found == CountriesUpTo(placeLower, i)
    {
      var country := KnownCountries[i];
      if Contains(placeLower, country) {
        found := found + {Normalize(country)};
      }
      assert CountriesUpTo(placeLower, i + 1) == CountriesUpTo(placeLower, i) + (if Contains(placeLower, country) then {Normalize(country)} else {});
    }
  }

  /** Only the eight normalised names are ever reported. */
  lemma CountriesCanonical(place: string)
    ensures Countries(place) <= CanonicalCountries
  {
    forall c | c in Countries(place) ensures c in CanonicalCountries {
      var i :| 0 <= i < |KnownCountries| && Contains(Lower(place), KnownCountries[i]) && c == Normalize(KnownCountries[i]);
      assert KnownCountries[i] in KnownCountries;
    }
  }

  /** A place naming one of the known names reports its normalised form. */
  lemma CountriesFound(place: string, i: nat)
    requires i < |KnownCountries| && Contains(Lower(place), KnownCountries[i])
    ensures Normalize(KnownCountries[i]) in Countries(place)
  {
  }

  // ---------------------------------------------------------------------------------------
  // Recommendations
  // ---------------------------------------------------------------------------------------

  datatype SourceRecommendation = SourceRecommendation(
    sourceId: string,
    sourceName: string,
    reason: string,
    priority: int,
    level: SourceLevel,
    url: Option<string>,
    provider: Option<string>,
    recordTypes: seq<string>,
    searchParams: OMap<string>,
    aiGenerated: bool)

  /** `from_source_definition`: the source's identity and coverage, the given reason and priority, and `{}` for missing or empty search parameters. */
  function FromSourceDefinition(source: SourceDefinition, reason: string, priority: int, params: Option<OMap<string>>): (r: SourceRecommendation)
    ensures r.sourceId == source.id && r.sourceName == source.name && r.level == source.level
    ensures r.url == source.url && r.provider == source.provider && r.recordTypes == source.recordTypes
    ensures r.reason == reason && r.priority == priority && !r.aiGenerated
    ensures params.Some? && params.value.keys != [] ==> r.searchParams == params.value
    ensures params.None? || params.value.keys == [] ==> r.searchParams == Empty()
  {
    var p := if params.Some? && params.value.keys != [] then params.value else Empty();
    SourceRecommendation(source.id, source.name, reason, priority, source.level, source.url, source.provider, source.recordTypes, p, false)
  }

  /** `f"{year - 5}-{year + 5}"` */
  function YearRange(year: int): string
  {
    IntToString(year - 5) + "-" + IntToString(year + 5)
  }

  /** `_build_search_params`: `surname` exactly when the surname is truthy, `year_range` exactly when the year is, and nothing else. */
  function BuildSearchParams(surname: Option<string>, year: Option<int>): (r: OMap<string>)
    ensures r.Valid()
    ensures "surname" in r.m <==> StrTruthy(surname)
    ensures StrTruthy(surname) ==> r.m["surname"] == surname.value
    ensures "year_range" in r.m <==> IntTruthy(year)
    ensures IntTruthy(year) ==> r.m["year_range"] == YearRange(year.value)
    ensures forall k :: k in r.m ==> k == "surname" || k == "year_range"
  {
    var withSurname := if StrTruthy(surname) then Empty<string>().Put("surname", surname.value) else Empty();
    if IntTruthy(year) then withSurname.Put("year_range", YearRange(year.value)) else withSurname
  }

  /** For a year of 5 or more, the range reads back as the two years it spans. */
  lemma YearRangeReadsBack(year: int)
    requires year >= 5
    ensures Split(YearRange(year), '-') == [NatToString(year - 5), NatToString(year + 5)]
    ensures DigitsValue(NatToString(year - 5)) == year - 5 && DigitsValue(NatToString(year + 5)) == year + 5
  {
    var lo, hi := NatToString(year - 5), NatToString(year + 5);
    assert '-' !in lo && '-' !in hi by {
      assert forall k :: 0 <= k < |lo| ==> IsDigit(lo[k]);
      assert forall k :: 0 <= k < |hi| ==> IsDigit(hi[k]);
    }
    assert Join("-", [lo, hi]) == YearRange(year);
    SplitOfJoin([lo, hi], '-');
    DigitsValueOfNatToString(year - 5);
    DigitsValueOfNatToString(year + 5);
  }

  /** The first two entries, as `xs[:2]`. */
  function FirstTwo(xs: seq<string>): (r: seq<string>)
    ensures |r| == (if |xs| < 2 then |xs| else 2)
    ensures forall i :: 0 <= i < |r| ==> r[i] == xs[i]
  {
    if |xs| <= 2 then xs else xs[..2]
  }

  /** `[g for g in geographic if any(g.lower() in loc.lower() or loc.lower() in g.lower() for loc in locations)]` */
  function GeoMatches(geos: seq<string>, locations: seq<string>): (r: seq<string>)
    ensures forall x :: x in r <==> x in geos && RelatedToAny(Lower(x), Lowered(locations))
    decreases |geos|
  {
    if geos == [] then []
    else
      var init := geos[..|geos| - 1];
      var g := geos[|geos| - 1];
      assert geos == init + [g];
      GeoMatches(init, locations) + (if RelatedToAny(Lower(g), Lowered(locations)) then [g] else [])
  }

  /** `m.lower()` occurs in some ethnicity, lower-cased. */
  predicate OccursInAny(m: string, ethnicities: seq<string>)
  {
    exists j :: 0 <= j < |ethnicities| && Contains(Lower(ethnicities[j]), Lower(m))
  }

  /** `[m for m in ethnic_markers if any(m.lower() in e.lower() for e in ethnicities)]` */
  function MarkerMatches(markers: seq<string>, ethnicities: seq<string>): (r: seq<string>)
    ensures forall x :: x in r <==> x in markers && OccursInAny(x, ethnicities)
    decreases |markers|
  {
    if markers == [] then []
    else
      var init := markers[..|markers| - 1];
      var m := markers[|markers| - 1];
      assert markers == init + [m];
      MarkerMatches(init, ethnicities) + (if OccursInAny(m, ethnicities) then [m] else [])
  }

  /** A reason other than the general description: non-empty, and not opening with the `g` of `general`. */
  predicate Specific(x: string)
  {
    |x| > 0 && x[0] != 'g'
  }

  /** `covers ...`: up to two geography entries related to a location. */
  function GeoReason(s: SourceDefinition, locations: seq<string>): (r: seq<string>)
    ensures |r| <= 1 && forall x <- r :: Specific(x)
  {
    var geo := GeoMatches(s.geographic, locations);
    if locations != [] && geo != [] then ["covers " + Join(", ", FirstTwo(geo))] else []
  }

  /** `records from ...`: the coverage years, when a year is asked and both ends are set. */
  function YearsReason(s: SourceDefinition, year: Option<int>): (r: seq<string>)
    ensures |r| <= 1 && forall x <- r :: Specific(x)
  {
    if IntTruthy(year) && IntTruthy(s.temporal.start) && IntTruthy(s.temporal.end)
    then ["records from " + IntToString(s.temporal.start.value) + "-" + IntToString(s.temporal.end.value)]
    else []
  }

  /** `includes ... records`: up to two markers occurring in an ethnicity. */
  function MarkerReason(s: SourceDefinition, ethnicities: seq<string>): (r: seq<string>)
    ensures |r| <= 1 && forall x <- r :: Specific(x)
  {
    var markers := MarkerMatches(s.ethnicMarkers, ethnicities);
    if ethnicities != [] && s.ethnicMarkers != [] && markers != [] then ["includes " + Join(", ", FirstTwo(markers)) + " records"] else []
  }

  /** The reasons `_generate_reason` collects, in order, before the fallback: each non-empty, and `primary source` last for a primary source. */
  function Reasons(s: SourceDefinition, locations: seq<string>, year: Option<int>, ethnicities: seq<string>): (r: seq<string>)
    ensures forall x <- r :: Specific(x)
    ensures s.level == Primary ==> |r| > 0 && r[|r| - 1] == "primary source"
  {
    GeoReason(s, locations) + YearsReason(s, year) + MarkerReason(s, ethnicities) + (if s.level == Primary then ["primary source"] else [])
  }

  /** The fallback reason when nothing else applies. */
  function GeneralReason(s: SourceDefinition): string
  {
    "general " + (if s.recordTypes != [] then s.recordTypes[0] else "genealogy") + " database"
  }

  /** `_generate_reason`: the reasons joined by `; `, or the general description when none applies; never empty. */
  function GenerateReason(s: SourceDefinition, locations: seq<string>, year: Option<int>, ethnicities: seq<string>): (r: string)
    ensures |r| > 0
  {
    var reasons := Reasons(s, locations, year, ethnicities);
    var parts := if reasons == [] then [GeneralReason(s)] else reasons;
    JoinHead("; ", parts);
    Join("; ", parts)
  }

  /** The reason names a primary source last, and is the general description exactly when no reason applies. */
  lemma GenerateReasonShape(s: SourceDefinition, locations: seq<string>, year: Option<int>, ethnicities: seq<string>)
    ensures s.level == Primary ==> IsSuffix("primary source", GenerateReason(s, locations, year, ethnicities))
    ensures s.level == Primary ==> Contains(GenerateReason(s, locations, year, ethnicities), "primary source")
    ensures Reasons(s, locations, year, ethnicities) == [] <==> GenerateReason(s, locations, year, ethnicities) == GeneralReason(s)
  {
    var reasons := Reasons(s, locations, year, ethnicities);
    var r := GenerateReason(s, locations, year, ethnicities);
    if s.level == Primary {
      JoinLast("; ", reasons);
      ContainsSuffix("primary source", r);
    }
    if reasons != [] {
      JoinHead("; ", reasons);
      assert Specific(reasons[0]) by { assert reasons[0] in reasons; }
      assert r[0] == reasons[0][0] != 'g';
      assert GeneralReason(s)[0] == 'g';
    }
  }

  /** The recommendations built from `sources`, in order, with priorities from 1. */
  function Recommend(sources: seq<SourceDefinition>, locations: seq<string>, year: Option<int>, ethnicities: seq<string>, surname: Option<string>): (r: seq<SourceRecommendation>)
    ensures |r| == |sources|
    ensures forall i :: 0 <= i < |sources| ==> r[i] == RecommendOne(sources[i], i + 1, locations, year, ethnicities, surname)
  {
    Numbered(sources, (s, n) => RecommendOne(s, n, locations, year, ethnicities, surname))
  }

  /** Each element turned into its result under `f`, given its position counted from 1. */
  function Numbered<S, T>(xs: seq<S>, f: (S, int) -> T): (r: seq<T>)
    ensures |r| == |xs|
    ensures forall i :: 0 <= i < |xs| ==> r[i] == f(xs[i], i + 1)
  {
    seq(|xs|, i requires 0 <= i < |xs| => f(xs[i], i + 1))
  }

  /** One recommendation: the source with its reason, its priority and the search parameters. */
  function RecommendOne(s: SourceDefinition, priority: int, locations: seq<string>, year: Option<int>, ethnicities: seq<string>, surname: Option<string>): (r: SourceRecommendation)
    ensures r.priority == priority && r.sourceId == s.id && |r.reason| > 0 && !r.aiGenerated
  {
    FromSourceDefinition(s, GenerateReason(s, locations, year, ethnicities), priority, Some(BuildSearchParams(surname, year)))
  }

  /** Each source gives one recommendation at its place in the list, with priority one more than its index and a non-empty reason. */
  lemma RecommendShape(sources: seq<SourceDefinition>, locations: seq<string>, year: Option<int>, ethnicities: seq<string>, surname: Option<string>)
    ensures var r := Recommend(sources, locations, year, ethnicities, surname);
      forall i :: 0 <= i < |sources| ==> r[i].priority == i + 1 && r[i].sourceId == sources[i].id && |r[i].reason| > 0 && !r[i].aiGenerated
  {
  }

  /** The query `_route_by_rules` falls back to. */
  function GeneralQuery(locations: seq<string>, year: Option<int>, ethnicities: seq<string>): SourceQuery
  {
    SourceQuery(locations, year, None, None, ethnicities, [], None)
  }

  /** At most the first ten of the general sources. */
  function FirstTen(ss: seq<SourceDefinition>): (r: seq<SourceDefinition>)
    ensures |r| <= 10 && |r| <= |ss| && r == ss[..|r|]
    ensures |ss| <= 10 ==> r == ss
  {
    if |ss| <= 10 then ss else ss[..10]
  }

  /** Reference definition of `_route_by_rules`, given what the rules name and what the general search finds. */
  function Routed(ruleSources: seq<SourceDefinition>, general: seq<SourceDefinition>, locations: seq<string>, year: Option<int>, ethnicities: seq<string>, surname: Option<string>): seq<SourceRecommendation>
  {
    if ruleSources != [] then Recommend(ruleSources, locations, year, ethnicities, surname)
    else Recommend(FirstTen(general), locations, year, ethnicities, surname)
  }

  /** The rules' sources are recommended when there are any; otherwise at most ten general ones; priorities run 1..n either way. */
  lemma RoutedShape(ruleSources: seq<SourceDefinition>, general: seq<SourceDefinition>, locations: seq<string>, year: Option<int>, ethnicities: seq<string>, surname: Option<string>)
    ensures var r := Routed(ruleSources, general, locations, year, ethnicities, surname);
      && (ruleSources != [] ==> |r| == |ruleSources| && forall i :: 0 <= i < |r| ==> r[i].sourceId == ruleSources[i].id)
      && (ruleSources == [] ==> |r| <= 10 && forall i :: 0 <= i < |r| ==> r[i].sourceId == general[i].id)
      && forall i :: 0 <= i < |r| ==> r[i].priority == i + 1
  {
    RecommendShape(ruleSources, locations, year, ethnicities, surname);
    RecommendShape(FirstTen(general), locations, year, ethnicities, surname);
  }

  /** Reference definition of the `route_async` merge: the further recommendations whose source is not among `existing`. */
  function NotAlready(extra: seq<SourceRecommendation>, existing: set<string>): (r: seq<SourceRecommendation>)
    ensures forall x :: x in r <==> x in extra && x.sourceId !in existing
    decreases |extra|
  {
    if extra == [] then []
    else
      var init := extra[..|extra| - 1];
      var x := extra[|extra| - 1];
      assert extra == init + [x];
      NotAlready(init, existing) + (if x.sourceId !in existing then [x] else [])
  }

  function SourceIdSet(recs: seq<SourceRecommendation>): (r: set<string>)
    ensures forall id :: id in r <==> exists i :: 0 <= i < |recs| && recs[i].sourceId == id
  {
    set i | 0 <= i < |recs| :: recs[i].sourceId
  }

  /** Cache key parts, in order. */
  function KeyParts(ctx: PersonContext): seq<string>
  {
    [ ctx.surname.UnwrapOr(""),
      if IntTruthy(ctx.birthYear) then IntToString(ctx.birthYear.value) else "",
      ctx.birthPlace.UnwrapOr(""),
      ctx.deathPlace.UnwrapOr("") ]
  }

  /** The research context of a person, as the router reads it. */
  datatype PersonContext = PersonContext(
    surname: Option<string>,
    givenName: Option<string>,
    surnameVariants: seq<string>,
    birthPlace: Option<string>,
    deathPlace: Option<string>,
    residencePlaces: seq<string>,
    allLocations: seq<string>,
    birthYear: Option<int>,
    deathYear: Option<int>,
    ethnicMarkers: seq<string>,
    migrationDetected: bool,
    originCountry: Option<string>,
    destinationCountry: Option<string>)

  /** `_cache_key` */
  function CacheKey(ctx: PersonContext): string
  {
    Join(":", KeyParts(ctx))
  }

  /** No part of the key but the names can hold a colon. */
  predicate ColonFree(ctx: PersonContext)
  {
    ':' !in ctx.surname.UnwrapOr("") && ':' !in ctx.birthPlace.UnwrapOr("") && ':' !in ctx.deathPlace.UnwrapOr("")
  }

  /** When the names hold no colon, the key splits back into its four parts. */
  lemma CacheKeySplits(ctx: PersonContext)
    requires ColonFree(ctx)
    ensures Split(CacheKey(ctx), ':') == KeyParts(ctx)
  {
    var parts := KeyParts(ctx);
    if IntTruthy(ctx.birthYear) {
      var y := ctx.birthYear.value;
      if y < 0 {
        var digits := NatToString(-y);
        assert forall k :: 0 <= k < |digits| ==> IsDigit(digits[k]);
        assert ':' !in "-" + digits;
      } else {
        var digits := NatToString(y);
        assert forall k :: 0 <= k < |digits| ==> IsDigit(digits[k]);
      }
    }
    SplitOfJoin(parts, ':');
  }

  /** Contexts whose names hold no colon share a cache key only when they agree on surname, birth place, death place and (truthy) birth year. */
  lemma CacheKeyDetermines(a: PersonContext, b: PersonContext)
    requires ColonFree(a) && ColonFree(b) && CacheKey(a) == CacheKey(b)
    ensures KeyParts(a) == KeyParts(b)
  {
    CacheKeySplits(a);
    CacheKeySplits(b);
  }

  // ---------------------------------------------------------------------------------------
  // The router
  // ---------------------------------------------------------------------------------------

  class SmartRouter {
    const registry: SourceRegistry
    const enableAiFallback: bool

    constructor(registry: SourceRegistry, enableAiFallback: bool)
      ensures this.registry == registry && this.enableAiFallback == enableAiFallback
    {
      this.registry := registry;
      this.enableAiFallback := enableAiFallback;
    }

    /** Appends one recommendation per source, priorities counting on from those already made. */
    method RecommendAll(sources: seq<SourceDefinition>, locations: seq<string>, year: Option<int>, ethnicities: seq<string>, surname: Option<string>)
      returns (recs: seq<SourceRecommendation>)
      ensures recs == Recommend(sources, locations, year, ethnicities, surname)
    {
      ghost var all := Recommend(sources, locations, year, ethnicities, surname);
      recs := [];
      for i := 0 to |sources|
        invariant recs == all[..i]
      {
        var rec := RecommendOne(sources[i], i + 1, locations, year, ethnicities, surname);
        PrefixSnoc(all, i);
        recs := recs + [rec];
      }
      assert all[..|sources|] == all;
    }

    /** `_route_by_rules`: the sources of the matching rules, or failing those the first ten that a general search finds. */
    method RouteByRules(locations: seq<string>, year: Option<int>, ethnicities: seq<string>, surname: Option<string>)
      returns (recs: seq<SourceRecommendation>)
      requires registry.Valid()
      ensures recs == Routed(
        registry.RuleSources(RouteContext(locations, year, ethnicities, [])),
        Found(registry.sources.Values(), GeneralQuery(locations, year, ethnicities)),
        locations, year, ethnicities, surname)
    {
      var ruleSources := registry.GetSourcesByRules(RouteContext(locations, year, ethnicities, []));
      recs := RecommendAll(ruleSources, locations, year, ethnicities, surname);
      if recs == [] {
        var general := registry.FindSources(GeneralQuery(locations, year, ethnicities));
        recs := RecommendAll(FirstTen(general), locations, year, ethnicities, surname);
      }
    }

    /** The merge step of `route_async`: with fewer than three recommendations, the fallback on and a context given, the further ones whose source is not yet recommended are appended. */
    method MergeAiRecommendations(recs: seq<SourceRecommendation>, hasContext: bool, aiRecs: seq<SourceRecommendation>)
      returns (merged: seq<SourceRecommendation>)
      ensures |recs| < 3 && enableAiFallback && hasContext ==> merged == recs + NotAlready(aiRecs, SourceIdSet(recs))
      ensures !(|recs| < 3 && enableAiFallback && hasContext) ==> merged == recs
    {
      merged := recs;
      if |recs| < 3 && enableAiFallback && hasContext {
        var existing := SourceIdSet(recs);
        for i := 0 to |aiRecs|
          invariant merged == recs + NotAlready(aiRecs[..i], existing)
        {
          var rec := aiRecs[i];
          assert aiRecs[..i + 1][..i] == aiRecs[..i];
          if rec.sourceId !in existing {
            merged := merged + [rec];
          }
        }
        assert aiRecs[..|aiRecs|] == aiRecs;
      }
    }
  }

  /** The merge keeps the rule-based recommendations first, adds only sources not among them, and adds every such one. */
  lemma MergeShape(recs: seq<SourceRecommendation>, aiRecs: seq<SourceRecommendation>)
    ensures var merged := recs + NotAlready(aiRecs, SourceIdSet(recs));
      && merged[..|recs|] == recs
      && (forall i :: |recs| <= i < |merged| ==> forall j :: 0 <= j < |recs| ==> merged[i].sourceId != recs[j].sourceId)
      && (forall x :: x in aiRecs && (forall j :: 0 <= j < |recs| ==> recs[j].sourceId != x.sourceId) ==> x in merged)
  {
    var merged := recs + NotAlready(aiRecs, SourceIdSet(recs));
    forall i | |recs| <= i < |merged| ensures forall j :: 0 <= j < |recs| ==> merged[i].sourceId != recs[j].sourceId {
      assert merged[i] in NotAlready(aiRecs, SourceIdSet(recs));
    }
  }
}
