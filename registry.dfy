/**
 * The source registry: what each genealogical database covers (places, years, ethnic
 * markers, record types), routing rules that name the databases to search for a research
 * context, and the queries the router asks of both.
 *
 * Lists that the original accepts as `list | None` are sequences here, `[]` standing for
 * `None`: every use tests them for truthiness only.
 */
module Registry {
  import opened Wrappers
  import opened Text
  import opened Sorting
  import opened OrderedMap
  import opened Models

  // ---------------------------------------------------------------------------------------
  // Coverage of one source
  // ---------------------------------------------------------------------------------------

  datatype TemporalCoverage = TemporalCoverage(start: Option<int>, end: Option<int>)

  /** `contains_year`: a bound that is unset or zero imposes nothing, one that is set is inclusive. */
  function ContainsYear(t: TemporalCoverage, year: int): (r: bool)
    ensures r <==> (!IntTruthy(t.start) || t.start.value <= year) && (!IntTruthy(t.end) || year <= t.end.value)
  {
    if IntTruthy(t.start) && year < t.start.value then false
    else if IntTruthy(t.end) && year > t.end.value then false
    else true
  }

  /** `bound or default` for an optional year. */
  function YearOr(o: Option<int>, default: int): int
  {
    if IntTruthy(o) then o.value else default
  }

  predicate InRange(y: int, lo: int, hi: int)
  {
    lo <= y <= hi
  }

  /** `overlaps`: an open query or an open coverage always overlaps; otherwise the closed ranges, with missing ends read as 0 and 9999, intersect. */
  function Overlaps(t: TemporalCoverage, start: Option<int>, end: Option<int>): (r: bool)
    ensures start.None? && end.None? ==> r
    ensures t.start.None? && t.end.None? ==> r
  {
    if start.None? && end.None? then true
    else if t.start.None? && t.end.None? then true
    else
      var rangeStart := YearOr(start, 0);
      var rangeEnd := YearOr(end, 9999);
      var selfStart := YearOr(t.start, 0);
      var selfEnd := YearOr(t.end, 9999);
      rangeStart <= selfEnd && rangeEnd >= selfStart
  }

  /** When neither the query nor the coverage is open, ranges that do not run backwards overlap exactly when some year lies in both. */
  lemma OverlapsCommonYear(t: TemporalCoverage, start: Option<int>, end: Option<int>)
    requires !(start.None? && end.None?) && !(t.start.None? && t.end.None?)
    requires YearOr(start, 0) <= YearOr(end, 9999) && YearOr(t.start, 0) <= YearOr(t.end, 9999)
    ensures Overlaps(t, start, end) <==>
      exists y :: InRange(y, YearOr(start, 0), YearOr(end, 9999)) && InRange(y, YearOr(t.start, 0), YearOr(t.end, 9999))
  {
    var lo1, hi1 := YearOr(start, 0), YearOr(end, 9999);
    var lo2, hi2 := YearOr(t.start, 0), YearOr(t.end, 9999);
    if Overlaps(t, start, end) {
      var y := if lo1 < lo2 then lo2 else lo1;
      assert InRange(y, lo1, hi1) && InRange(y, lo2, hi2);
    }
  }

  /** For a year of four digits or fewer, containment is overlap with the one-year range. */
  lemma ContainsYearIsOverlap(t: TemporalCoverage, year: int)
    requires 1 <= year <= 9999
    ensures ContainsYear(t, year) == Overlaps(t, Some(year), Some(year))
  {
  }

  datatype SourceDefinition = SourceDefinition(
    id: string,
    name: string,
    description: Option<string>,
    url: Option<string>,
    apiEndpoint: Option<string>,
    provider: Option<string>,
    level: SourceLevel,
    geographic: seq<string>,
    temporal: TemporalCoverage,
    recordTypes: seq<string>,
    ethnicMarkers: seq<string>,
    notes: Option<string>)

  /** Either string occurs in the other. */
  predicate Related(a: string, b: string)
  {
    Contains(a, b) || Contains(b, a)
  }

  /** `[x.lower() for x in xs]` */
  function Lowered(xs: seq<string>): (r: seq<string>)
    ensures |r| == |xs|
    ensures forall i :: 0 <= i < |xs| ==> r[i] == Lower(xs[i])
  {
    seq(|xs|, i requires 0 <= i < |xs| => Lower(xs[i]))
  }

  /** `any(g in loc or loc in g for loc in locs)` */
  function RelatedToAny(g: string, locs: seq<string>): (r: bool)
    ensures r <==> exists j :: 0 <= j < |locs| && Related(g, locs[j])
    decreases |locs|
  {
    if locs == [] then false
    else if Related(g, locs[0]) then true
    else
      var rest := RelatedToAny(g, locs[1..]);
      assert forall j :: 1 <= j < |locs| ==> locs[j] == locs[1..][j - 1];
      rest
  }

  /** The scan of `matches_location` over the geography entries: an exact match of a lower-cased entry, or a partial one either way. */
  function GeoScan(geos: seq<string>, lowered: seq<string>): (r: bool)
    ensures r <==> exists i, j :: 0 <= i < |geos| && 0 <= j < |lowered| && Related(Lower(geos[i]), lowered[j])
    decreases |geos|
  {
    if geos == [] then false
    else
      var g := Lower(geos[0]);
      if g in lowered then
        ContainsSelf(g);
        var j :| 0 <= j < |lowered| && lowered[j] == g;
        assert Related(Lower(geos[0]), lowered[j]);
        true
      else if RelatedToAny(g, lowered) then true
      else
        var rest := GeoScan(geos[1..], lowered);
        assert forall i :: 1 <= i < |geos| ==> geos[i] == geos[1..][i - 1];
        rest
  }

  /** `any(g in loc or loc in g for g in gs for loc in locs)` over lower-cased entries. */
  function AnyRelated(gs: seq<string>, lowered: seq<string>): (r: bool)
    ensures r <==> exists i, j :: 0 <= i < |gs| && 0 <= j < |lowered| && Related(Lower(gs[i]), lowered[j])
    decreases |gs|
  {
    if gs == [] then false
    else if RelatedToAny(Lower(gs[0]), lowered) then true
    else
      var rest := AnyRelated(gs[1..], lowered);
      assert forall i :: 1 <= i < |gs| ==> gs[i] == gs[1..][i - 1];
      rest
  }

  /** `any(x.lower() in [y.lower() for y in ys] for x in xs)` */
  function AnyLowerIn(xs: seq<string>, ys: seq<string>): (r: bool)
    ensures r <==> exists i, j :: 0 <= i < |xs| && 0 <= j < |ys| && Lower(xs[i]) == Lower(ys[j])
    decreases |xs|
  {
    if xs == [] then false
    else if Lower(xs[0]) in Lowered(ys) then true
    else
      var rest := AnyLowerIn(xs[1..], ys);
      assert forall i :: 1 <= i < |xs| ==> xs[i] == xs[1..][i - 1];
      rest
  }

  /** `matches_location`: no geography or no locations imposes nothing; otherwise some entry and some location, compared without case, contain one another. */
  function MatchesLocation(s: SourceDefinition, locations: seq<string>): (r: bool)
    ensures r <==>
      || s.geographic == []
      || locations == []
      || exists i, j :: 0 <= i < |s.geographic| && 0 <= j < |locations| && Related(Lower(s.geographic[i]), Lower(locations[j]))
  {
    if s.geographic == [] then true
    else if locations == [] then true
    else
      var lowered := Lowered(locations);
      var r := GeoScan(s.geographic, lowered);
      assert forall j :: 0 <= j < |locations| ==> lowered[j] == Lower(locations[j]);
      r
  }

  /** `matches_time`: a truthy year is tested for containment, anything else for overlap. */
  function MatchesTime(s: SourceDefinition, year: Option<int>, start: Option<int>, end: Option<int>): bool
  {
    if IntTruthy(year) then ContainsYear(s.temporal, year.value) else Overlaps(s.temporal, start, end)
  }

  /** Asking with a year is asking with the one-year range, for years of four digits or fewer. */
  lemma MatchesTimeYearAsRange(s: SourceDefinition, year: int, start: Option<int>, end: Option<int>)
    requires 1 <= year <= 9999
    ensures MatchesTime(s, Some(year), start, end) == MatchesTime(s, None, Some(year), Some(year))
  {
    ContainsYearIsOverlap(s.temporal, year);
  }

  /** `matches_ethnicity`: no markers or no ethnicities imposes nothing; otherwise some marker equals some ethnicity, ignoring case. */
  function MatchesEthnicity(s: SourceDefinition, ethnicities: seq<string>): (r: bool)
    ensures r <==>
      || s.ethnicMarkers == []
      || ethnicities == []
      || exists i, j :: 0 <= i < |s.ethnicMarkers| && 0 <= j < |ethnicities| && Lower(s.ethnicMarkers[i]) == Lower(ethnicities[j])
  {
    if s.ethnicMarkers == [] then true
    else if ethnicities == [] then true
    else AnyLowerIn(s.ethnicMarkers, ethnicities)
  }

  // ---------------------------------------------------------------------------------------
  // Routing rules
  // ---------------------------------------------------------------------------------------

  /** A rule's `temporal` condition after its defaults: `start` 0 and `end` 9999 when absent. */
  datatype YearBounds = YearBounds(start: int, end: int)

  /** The condition keys a rule may carry; `None` for a key the rule does not have. */
  datatype Conditions = Conditions(
    geographic: Option<seq<string>>,
    temporal: Option<YearBounds>,
    ethnicMarkers: Option<seq<string>>,
    recordTypes: Option<seq<string>>)

  datatype RoutingRule = RoutingRule(name: string, conditions: Conditions, sources: seq<string>, priority: int)

  /** The research context a rule is matched against. */
  datatype RouteContext = RouteContext(locations: seq<string>, year: Option<int>, ethnicities: seq<string>, recordTypes: seq<string>)

  /** `RoutingRule.matches`: each condition the rule has asks for a non-empty context that meets it; the others impose nothing. */
  function RuleMatches(rule: RoutingRule, ctx: RouteContext): (r: bool)
    ensures r <==>
      && (rule.conditions.geographic.Some? ==>
            && ctx.locations != []
            && exists i, j :: 0 <= i < |rule.conditions.geographic.value| && 0 <= j < |ctx.locations|
                 && Related(Lower(rule.conditions.geographic.value[i]), Lower(ctx.locations[j])))
      && (rule.conditions.temporal.Some? ==>
            && ctx.year.Some?
            && rule.conditions.temporal.value.start <= ctx.year.value <= rule.conditions.temporal.value.end)
      && (rule.conditions.ethnicMarkers.Some? ==>
            && ctx.ethnicities != []
            && exists i, j :: 0 <= i < |rule.conditions.ethnicMarkers.value| && 0 <= j < |ctx.ethnicities|
                 && Lower(rule.conditions.ethnicMarkers.value[i]) == Lower(ctx.ethnicities[j]))
      && (rule.conditions.recordTypes.Some? ==>
            && ctx.recordTypes != []
            && exists i, j :: 0 <= i < |rule.conditions.recordTypes.value| && 0 <= j < |ctx.recordTypes|
                 && Lower(rule.conditions.recordTypes.value[i]) == Lower(ctx.recordTypes[j]))
  {
    var c := rule.conditions;
    var lowered := Lowered(ctx.locations);
    assert forall j :: 0 <= j < |ctx.locations| ==> lowered[j] == Lower(ctx.locations[j]);
    if c.geographic.Some? && (ctx.locations == [] || !AnyRelated(c.geographic.value, lowered)) then false
    else if c.temporal.Some? && (ctx.year.None? || !(c.temporal.value.start <= ctx.year.value <= c.temporal.value.end)) then false
    else if c.ethnicMarkers.Some? && (ctx.ethnicities == [] || !AnyLowerIn(c.ethnicMarkers.value, ctx.ethnicities)) then false
    else if c.recordTypes.Some? && (ctx.recordTypes == [] || !AnyLowerIn(c.recordTypes.value, ctx.recordTypes)) then false
    else true
  }

  /** The matching rules, in order. */
  function MatchingRules(rules: seq<RoutingRule>, ctx: RouteContext): (r: seq<RoutingRule>)
    ensures forall x :: x in r <==> x in rules && RuleMatches(x, ctx)
    decreases |rules|
  {
    if rules == [] then []
    else
      var init := rules[..|rules| - 1];
      var last := rules[|rules| - 1];
      assert rules == init + [last];
      MatchingRules(init, ctx) + (if RuleMatches(last, ctx) then [last] else [])
  }

  /** Keeping the matching rules keeps them ordered by priority. */
  lemma {:induction false} MatchingRulesSorted(rules: seq<RoutingRule>, ctx: RouteContext)
    requires Sorted(rules, PriorityLe)
    ensures Sorted(MatchingRules(rules, ctx), PriorityLe)
    decreases |rules|
  {
    if rules != [] {
      var init := rules[..|rules| - 1];
      var last := rules[|rules| - 1];
      MatchingRulesSorted(init, ctx);
      var m := MatchingRules(init, ctx);
      forall x | x in m ensures PriorityLe(x, last) {
        var i :| 0 <= i < |init| && init[i] == x;
        assert rules[i] == x;
      }
    }
  }

  /** `key=lambda r: r.priority`, lower numbers first. */
  predicate PriorityLe(a: RoutingRule, b: RoutingRule)
  {
    a.priority <= b.priority
  }

  lemma PriorityOrder()
    ensures TotalPreorder(PriorityLe)
  {
  }

  /** `self._rules.sort(key=lambda r: r.priority)`: ordered by priority and a permutation. */
  lemma RulesSorted(rules: seq<RoutingRule>)
    ensures Sorted(SortBy(rules, PriorityLe), PriorityLe)
    ensures multiset(SortBy(rules, PriorityLe)) == multiset(rules)
  {
    PriorityOrder();
    SortBySorted(rules, PriorityLe);
    SortByPermutes(rules, PriorityLe);
  }

  /** The sort is stable: the rules of any one priority keep their file order. */
  lemma RulesSortStable(rules: seq<RoutingRule>, p: int)
    ensures Filter(SortBy(rules, PriorityLe), (x: RoutingRule) => x.priority == p) == Filter(rules, (x: RoutingRule) => x.priority == p)
  {
    PriorityOrder();
    var e := RoutingRule("", Conditions(None, None, None, None), [], p);
    SortByStable(rules, PriorityLe, e, (x: RoutingRule) => x.priority == p);
  }

  // ---------------------------------------------------------------------------------------
  // Sources from rules
  // ---------------------------------------------------------------------------------------

  /** The source ids the rules name, rule after rule. */
  function SourceIds(rules: seq<RoutingRule>): seq<string>
    decreases |rules|
  {
    if rules == [] then [] else SourceIds(rules[..|rules| - 1]) + rules[|rules| - 1].sources
  }

  /** Reference definition of the `seen_ids` loop: each id at its first occurrence. */
  function Dedup(xs: seq<string>): seq<string>
    decreases |xs|
  {
    if xs == [] then []
    else
      var init := xs[..|xs| - 1];
      Dedup(init) + (if xs[|xs| - 1] in init then [] else [xs[|xs| - 1]])
  }

  /** Where `x` first occurs. */
  function FirstIndex(xs: seq<string>, x: string): (k: nat)
    requires x in xs
    ensures k < |xs| && xs[k] == x && x !in xs[..k]
  {
    if xs[0] == x then 0
    else
      var k := 1 + FirstIndex(xs[1..], x);
      assert xs[..k] == [xs[0]] + xs[1..][..k - 1];
      k
  }

  /** Any position without an earlier occurrence is the first one. */
  lemma FirstIndexUnique(xs: seq<string>, x: string, k: nat)
    requires k < |xs| && xs[k] == x && x !in xs[..k]
    ensures FirstIndex(xs, x) == k
  {
    var f := FirstIndex(xs, x);
    assert forall i :: 0 <= i < k ==> xs[..k][i] == xs[i];
    assert forall i :: 0 <= i < f ==> xs[..f][i] == xs[i];
  }

  /** The first ids are kept: no id twice, every id once, and in the order of their first occurrences. */
  lemma {:induction false} DedupShape(xs: seq<string>)
    ensures forall i, j :: 0 <= i < j < |Dedup(xs)| ==> Dedup(xs)[i] != Dedup(xs)[j]
    ensures forall x :: x in Dedup(xs) <==> x in xs
    ensures forall i, j :: 0 <= i < j < |Dedup(xs)| ==> FirstIndex(xs, Dedup(xs)[i]) < FirstIndex(xs, Dedup(xs)[j])
    decreases |xs|
  {
    if xs != [] {
      var init := xs[..|xs| - 1];
      var last := xs[|xs| - 1];
      var d := Dedup(init);
      DedupShape(init);
      assert xs == init + [last];
      forall y | y in init ensures FirstIndex(xs, y) == FirstIndex(init, y) {
        var k := FirstIndex(init, y);
        assert xs[..k] == init[..k];
        FirstIndexUnique(xs, y, k);
      }
      if last !in init {
        FirstIndexUnique(xs, last, |init|);
        var r := d + [last];
        forall i, j | 0 <= i < j < |r| ensures FirstIndex(xs, r[i]) < FirstIndex(xs, r[j]) {
          assert r[i] == d[i];
          if j < |d| {
            assert r[j] == d[j];
          }
        }
      }
    }
  }

  /** `get_sources`: the known ids' sources, in the order asked. */
  function KnownSources(ids: seq<string>, m: map<string, SourceDefinition>): (r: seq<SourceDefinition>)
    ensures |r| <= |ids|
    decreases |ids|
  {
    if ids == [] then []
    else
      var init := ids[..|ids| - 1];
      var k := ids[|ids| - 1];
      KnownSources(init, m) + (if k in m then [m[k]] else [])
  }

  /** A filter of ids keeps any relation that holds between every earlier and later element. */
  lemma {:induction false} FilterKeepsOrder(s: seq<string>, p: string -> bool, before: (string, string) -> bool)
    requires forall i, j :: 0 <= i < j < |s| ==> before(s[i], s[j])
    ensures forall i, j :: 0 <= i < j < |Filter(s, p)| ==> before(Filter(s, p)[i], Filter(s, p)[j])
    decreases |s|
  {
    if s != [] {
      var init := s[..|s| - 1];
      var f := Filter(init, p);
      var r := Filter(s, p);
      FilterKeepsOrder(init, p, before);
      FilterMembers(init, p);
      assert r == f + (if p(s[|s| - 1]) then [s[|s| - 1]] else []);
      forall i, j | 0 <= i < j < |r| ensures before(r[i], r[j]) {
        assert i < |f| && r[i] == f[i];
        if j < |f| {
          assert r[j] == f[j];
        } else {
          assert r[j] == s[|s| - 1];
          assert f[i] in init;
          var a :| 0 <= a < |init| && init[a] == f[i];
          assert s[a] == init[a];
        }
      }
    }
  }

  /** The requested ids that are registered, in the order asked. */
  function KnownIds(ids: seq<string>, m: map<string, SourceDefinition>): seq<string>
  {
    Filter(ids, Registered(m))
  }

  /** Whether an id is registered. */
  function Registered(m: map<string, SourceDefinition>): string -> bool
  {
    (k: string) => k in m
  }

  /** `get_sources` drops the unknown ids and keeps the order of the others: the result is the source of each
      registered id, in the order asked. */
  lemma {:induction false} KnownSourcesOrder(ids: seq<string>, m: map<string, SourceDefinition>)
    ensures |KnownSources(ids, m)| == |KnownIds(ids, m)|
    ensures forall i :: 0 <= i < |KnownSources(ids, m)| ==>
      KnownIds(ids, m)[i] in m && KnownSources(ids, m)[i] == m[KnownIds(ids, m)[i]]
    ensures Keyed(m) ==> IdsOf(KnownSources(ids, m)) == KnownIds(ids, m)
    decreases |ids|
  {
    if ids != [] {
      var init := ids[..|ids| - 1];
      KnownSourcesOrder(init, m);
      FilterMembers(ids, Registered(m));
      var r := KnownSources(ids, m);
      var a := KnownSources(init, m);
      var f := KnownIds(ids, m);
      var g := KnownIds(init, m);
      forall i | 0 <= i < |r| ensures f[i] in m && r[i] == m[f[i]] {
        if i < |a| {
          assert r[i] == a[i] && f[i] == g[i];
        }
      }
    }
  }

  /** The ids of some sources, in order. */
  function IdsOf(ss: seq<SourceDefinition>): (r: seq<string>)
    ensures |r| == |ss|
    ensures forall i :: 0 <= i < |ss| ==> r[i] == ss[i].id
  {
    seq(|ss|, i requires 0 <= i < |ss| => ss[i].id)
  }

  /** Each source is filed under its id. */
  ghost predicate Keyed(m: map<string, SourceDefinition>)
  {
    forall k :: k in m ==> m[k].id == k
  }

  /** Reading ids one after another reads the parts one after another. */
  lemma {:induction false} KnownSourcesAppend(a: seq<string>, b: seq<string>, m: map<string, SourceDefinition>)
    ensures KnownSources(a + b, m) == KnownSources(a, m) + KnownSources(b, m)
    decreases |b|
  {
    if b == [] {
      assert a + b == a;
    } else {
      var init := b[..|b| - 1];
      assert (a + b)[..|a + b| - 1] == a + init;
      KnownSourcesAppend(a, init, m);
    }
  }

  /** Unknown ids are dropped and known ones read in order: the ids read back are the known ids asked for, without repeats when none were asked twice. */
  lemma {:induction false} KnownSourcesIds(ids: seq<string>, m: map<string, SourceDefinition>)
    requires Keyed(m)
    ensures forall x :: x in IdsOf(KnownSources(ids, m)) <==> x in ids && x in m
    ensures (forall i, j :: 0 <= i < j < |ids| ==> ids[i] != ids[j]) ==>
      forall i, j :: 0 <= i < j < |KnownSources(ids, m)| ==> KnownSources(ids, m)[i].id != KnownSources(ids, m)[j].id
    decreases |ids|
  {
    if ids != [] {
      var init := ids[..|ids| - 1];
      var k := ids[|ids| - 1];
      KnownSourcesIds(init, m);
      var a := KnownSources(init, m);
      var r := KnownSources(ids, m);
      assert ids == init + [k];
      forall x ensures x in IdsOf(r) <==> x in ids && x in m {
        if x in IdsOf(r) {
          var i :| 0 <= i < |r| && r[i].id == x;
          if i < |a| {
            assert IdsOf(a)[i] == x;
          }
        }
        if x in ids && x in m {
          if x in init {
            var i :| 0 <= i < |a| && IdsOf(a)[i] == x;
            assert r[i] == a[i];
          } else {
            assert r[|r| - 1] == m[k];
          }
        }
      }
      if forall i, j :: 0 <= i < j < |ids| ==> ids[i] != ids[j] {
        assert k !in init;
        forall i, j | 0 <= i < j < |r| ensures r[i].id != r[j].id {
          if j >= |a| {
            assert r[j] == m[k];
            assert IdsOf(a)[i] == r[i].id;
          } else {
            assert r[i] == a[i] && r[j] == a[j];
          }
        }
      }
    }
  }

  // ---------------------------------------------------------------------------------------
  // Finding sources by criteria
  // ---------------------------------------------------------------------------------------

  /** The arguments of `find_sources`. */
  datatype SourceQuery = SourceQuery(
    locations: seq<string>,
    year: Option<int>,
    startYear: Option<int>,
    endYear: Option<int>,
    ethnicities: seq<string>,
    recordTypes: seq<string>,
    level: Option<SourceLevel>)

  /** Every filter of `find_sources` that is given lets the source through. */
  predicate Passes(s: SourceDefinition, q: SourceQuery)
  {
    && (q.locations != [] ==> MatchesLocation(s, q.locations))
    && (IntTruthy(q.year) ==> MatchesTime(s, q.year, None, None))
    && (IntTruthy(q.startYear) || IntTruthy(q.endYear) ==> MatchesTime(s, None, q.startYear, q.endYear))
    && (q.ethnicities != [] ==> MatchesEthnicity(s, q.ethnicities))
    && (q.recordTypes != [] ==> AnyLowerIn(q.recordTypes, s.recordTypes))
    && (q.level.Some? ==> s.level == q.level.value)
  }

  /** The sources that pass, in order. */
  function Passing(ss: seq<SourceDefinition>, q: SourceQuery): (r: seq<SourceDefinition>)
    decreases |ss|
  {
    if ss == [] then []
    else
      var init := ss[..|ss| - 1];
      var last := ss[|ss| - 1];
      Passing(init, q) + (if Passes(last, q) then [last] else [])
  }

  lemma {:induction false} PassingMembers(ss: seq<SourceDefinition>, q: SourceQuery)
    ensures forall x :: x in Passing(ss, q) <==> x in ss && Passes(x, q)
    decreases |ss|
  {
    if ss != [] {
      PassingMembers(ss[..|ss| - 1], q);
      assert ss == ss[..|ss| - 1] + [ss[|ss| - 1]];
    }
  }

  /** `level_order`: primary 0, secondary 1, tertiary 2. */
  function LevelRank(l: SourceLevel): nat
  {
    match l
    case Primary => 0
    case Secondary => 1
    case Tertiary => 2
  }

  predicate LevelLe(a: SourceDefinition, b: SourceDefinition)
  {
    LevelRank(a.level) <= LevelRank(b.level)
  }

  lemma LevelOrder()
    ensures TotalPreorder(LevelLe)
  {
  }

  /** Reference definition of `find_sources`: the passing sources, sorted by level. */
  function Found(ss: seq<SourceDefinition>, q: SourceQuery): seq<SourceDefinition>
  {
    SortBy(Passing(ss, q), LevelLe)
  }

  /**
   * `find_sources` returns exactly the sources passing every filter, each as often as listed,
   * primary before secondary before tertiary, and only the asked level when one is asked.
   */
  lemma FoundShape(ss: seq<SourceDefinition>, q: SourceQuery)
    ensures forall x :: x in Found(ss, q) <==> x in ss && Passes(x, q)
    ensures multiset(Found(ss, q)) == multiset(Passing(ss, q))
    ensures Sorted(Found(ss, q), LevelLe)
    ensures q.level.Some? ==> forall i :: 0 <= i < |Found(ss, q)| ==> Found(ss, q)[i].level == q.level.value
  {
    var p := Passing(ss, q);
    PassingMembers(ss, q);
    LevelOrder();
    SortBySorted(p, LevelLe);
    SortByPermutes(p, LevelLe);
    forall x ensures x in Found(ss, q) <==> x in p {
      assert x in Found(ss, q) <==> x in multiset(Found(ss, q));
    }
    if q.level.Some? {
      forall i | 0 <= i < |Found(ss, q)| ensures Found(ss, q)[i].level == q.level.value {
        assert Found(ss, q)[i] in Found(ss, q);
      }
    }
  }

  /** The sort by level is stable: the sources of any one level keep their registry order. */
  lemma FoundStable(ss: seq<SourceDefinition>, q: SourceQuery, l: SourceLevel)
    ensures Filter(Found(ss, q), (x: SourceDefinition) => x.level == l) == Filter(Passing(ss, q), (x: SourceDefinition) => x.level == l)
  {
    LevelOrder();
    var e := SourceDefinition("", "", None, None, None, None, l, [], TemporalCoverage(None, None), [], [], None);
    SortByStable(Passing(ss, q), LevelLe, e, (x: SourceDefinition) => x.level == l);
  }

  // ---------------------------------------------------------------------------------------
  // The registry
  // ---------------------------------------------------------------------------------------

  /** The sources filed one after another under their ids, as `_load` fills `_sources`. */
  function Filed(defs: seq<SourceDefinition>): (r: OMap<SourceDefinition>)
    ensures r.Valid() && Keyed(r.m)
    decreases |defs|
  {
    if defs == [] then Empty()
    else
      var last := defs[|defs| - 1];
      Filed(defs[..|defs| - 1]).Put(last.id, last)
  }

  /** Sources with distinct ids are filed in file order, so `all_sources` lists them as the file does. */
  lemma {:induction false} FiledInOrder(defs: seq<SourceDefinition>)
    requires forall i, j :: 0 <= i < j < |defs| ==> defs[i].id != defs[j].id
    ensures Filed(defs).keys == IdsOf(defs)
    decreases |defs|
  {
    if defs != [] {
      var init := defs[..|defs| - 1];
      var last := defs[|defs| - 1];
      FiledInOrder(init);
      var ids := IdsOf(init);
      var f := Filed(init);
      assert f.keys == ids;
      assert last.id !in ids by {
        forall i | 0 <= i < |init| ensures ids[i] != last.id {
          assert init[i] == defs[i];
        }
      }
      assert Filed(defs) == f.Put(last.id, last);
      IdsOfSnoc(init, last);
      LastSplit(defs);
    }
  }

  /** One more source adds its id at the end. */
  lemma IdsOfSnoc(ss: seq<SourceDefinition>, x: SourceDefinition)
    ensures IdsOf(ss + [x]) == IdsOf(ss) + [x.id]
  {
    assert forall i :: 0 <= i < |ss| ==> (ss + [x])[i] == ss[i];
  }

  /** Each source with an id of its own is filed under that id. */
  lemma {:induction false} FiledUnderId(defs: seq<SourceDefinition>)
    requires forall i, j :: 0 <= i < j < |defs| ==> defs[i].id != defs[j].id
    ensures forall i :: 0 <= i < |defs| ==> defs[i].id in Filed(defs).m && Filed(defs).m[defs[i].id] == defs[i]
    decreases |defs|
  {
    if defs != [] {
      var init := defs[..|defs| - 1];
      var last := defs[|defs| - 1];
      FiledUnderId(init);
      forall i | 0 <= i < |defs| ensures defs[i].id in Filed(defs).m && Filed(defs).m[defs[i].id] == defs[i] {
        if i < |init| {
          assert init[i] == defs[i] && defs[i].id != last.id;
        }
      }
    }
  }

  class SourceRegistry {
    var sources: OMap<SourceDefinition>
    var rules: seq<RoutingRule>

    /** Sources are filed under their ids, each once, and the rules are in priority order. */
    ghost predicate Valid()
      reads this
    {
      sources.Valid() && Keyed(sources.m) && Sorted(rules, PriorityLe)
    }

    /** `__init__` and `_load`, given the sources and routing rules the file lists, in file order. */
    constructor(defs: seq<SourceDefinition>, ruleList: seq<RoutingRule>)
      ensures Valid()
      ensures sources == Filed(defs)
      ensures rules == SortBy(ruleList, PriorityLe)
    {
      var filed := Empty<SourceDefinition>();
      for i := 0 to |defs|
        invariant filed == Filed(defs[..i])
      {
        assert defs[..i + 1][..i] == defs[..i];
        filed := filed.Put(defs[i].id, defs[i]);
      }
      assert defs[..|defs|] == defs;
      sources := filed;
      rules := SortBy(ruleList, PriorityLe);
      RulesSorted(ruleList);
    }

    /** `get_source` */
    function GetSource(id: string): (r: Option<SourceDefinition>)
      reads this
      requires Valid()
      ensures r.Some? <==> id in sources.m
      ensures r.Some? ==> r.value == sources.m[id] && r.value.id == id
    {
      sources.Get(id)
    }

    /** `get_sources` */
    function GetSources(ids: seq<string>): (r: seq<SourceDefinition>)
      reads this
      requires Valid()
      ensures forall x :: x in IdsOf(r) <==> x in ids && x in sources.m
      ensures IdsOf(r) == KnownIds(ids, sources.m)
    {
      KnownSourcesIds(ids, sources.m);
      KnownSourcesOrder(ids, sources.m);
      KnownSources(ids, sources.m)
    }

    /** `find_sources`: the loop with its `continue` filters, then the sort by level. */
    method FindSources(q: SourceQuery) returns (r: seq<SourceDefinition>)
      requires Valid()
      ensures r == Found(sources.Values(), q)
    {
      var vals := sources.Values();
      var results: seq<SourceDefinition> := [];
      for i := 0 to |vals|
        invariant results == Passing(vals[..i], q)
      {
        var source := vals[i];
        assert vals[..i + 1][..i] == vals[..i];
        if q.locations != [] && !MatchesLocation(source, q.locations) {
        } else if IntTruthy(q.year) && !MatchesTime(source, q.year, None, None) {
        } else if (IntTruthy(q.startYear) || IntTruthy(q.endYear)) && !MatchesTime(source, None, q.startYear, q.endYear) {
        } else if q.ethnicities != [] && !MatchesEthnicity(source, q.ethnicities) {
        } else if q.recordTypes != [] && !AnyLowerIn(q.recordTypes, source.recordTypes) {
        } else if q.level.Some? && source.level != q.level.value {
        } else {
          results := results + [source];
        }
      }
      assert vals[..|vals|] == vals;
      r := SortBy(results, LevelLe);
    }

    /** `get_matching_rules`: the matching rules, in priority order. */
    function GetMatchingRules(ctx: RouteContext): (r: seq<RoutingRule>)
      reads this
      requires Valid()
      ensures forall x :: x in r <==> x in rules && RuleMatches(x, ctx)
      ensures Sorted(r, PriorityLe)
    {
      MatchingRulesSorted(rules, ctx);
      MatchingRules(rules, ctx)
    }

    /** Reference definition of `get_sources_by_rules`. */
    function RuleSources(ctx: RouteContext): (r: seq<SourceDefinition>)
      reads this
      requires Valid()
      ensures forall i :: 0 <= i < |r| ==> r[i].id in sources.m && sources.m[r[i].id] == r[i]
    {
      var ids := Dedup(SourceIds(MatchingRules(rules, ctx)));
      KnownSourcesOrder(ids, sources.m);
      KnownSources(ids, sources.m)
    }

    /** `get_sources_by_rules`: the ids of the matching rules collected once each with a `seen_ids` set, then read as sources. */
    method GetSourcesByRules(ctx: RouteContext) returns (r: seq<SourceDefinition>)
      requires Valid()
      ensures r == RuleSources(ctx)
      ensures IdsOf(r) == KnownIds(Dedup(SourceIds(MatchingRules(rules, ctx))), sources.m)
    {
      var matching := GetMatchingRules(ctx);
      var seen: set<string> := {};
      var ordered: seq<string> := [];
      for i := 0 to |matching|
        invariant ordered == Dedup(SourceIds(matching[..i]))
        invariant forall x :: x in seen <==> x in SourceIds(matching[..i])
      {
        var rule := matching[i];
        assert matching[..i + 1][..i] == matching[..i];
        ordered, seen := AddFirstOccurrences(ordered, seen, SourceIds(matching[..i]), rule.sources);
      }
      assert matching[..|matching|] == matching;
      r := GetSources(ordered);
      RuleSourcesShape(this, ctx);
    }
  }

  /** The inner loop of `get_sources_by_rules`: one rule's ids, each added unless already seen. */
  method AddFirstOccurrences(ordered: seq<string>, seen: set<string>, ghost before: seq<string>, ids: seq<string>)
    returns (ordered': seq<string>, seen': set<string>)
    requires ordered == Dedup(before)
    requires forall x :: x in seen <==> x in before
    ensures ordered' == Dedup(before + ids)
    ensures forall x :: x in seen' <==> x in before + ids
  {
    ordered', seen' := ordered, seen;
    assert before + ids[..0] == before;
    for j := 0 to |ids|
      invariant ordered' == Dedup(before + ids[..j])
      invariant forall x :: x in seen' <==> x in before + ids[..j]
    {
      var id := ids[j];
      ghost var xs := before + ids[..j + 1];
      assert xs[..|xs| - 1] == before + ids[..j];
      if id !in seen' {
        seen' := seen' + {id};
        ordered' := ordered' + [id];
      }
    }
    assert ids[..|ids|] == ids;
  }

  /** `get_sources_by_rules` names each source at most once, only sources the registry knows, and every known source some
      matching rule names; the ids are the first occurrences in rule order with the unknown ones dropped, so the sources
      come in the order their ids first occur. */
  lemma RuleSourcesShape(reg: SourceRegistry, ctx: RouteContext)
    requires reg.Valid()
    ensures forall i, j :: 0 <= i < j < |reg.RuleSources(ctx)| ==> reg.RuleSources(ctx)[i].id != reg.RuleSources(ctx)[j].id
    ensures forall x :: x in IdsOf(reg.RuleSources(ctx)) <==> x in reg.sources.m && x in SourceIds(MatchingRules(reg.rules, ctx))
    ensures IdsOf(reg.RuleSources(ctx)) == KnownIds(Dedup(SourceIds(MatchingRules(reg.rules, ctx))), reg.sources.m)
    ensures forall i, j :: 0 <= i < j < |reg.RuleSources(ctx)| ==>
      var ids := SourceIds(MatchingRules(reg.rules, ctx));
      reg.RuleSources(ctx)[i].id in ids && reg.RuleSources(ctx)[j].id in ids &&
      FirstIndex(ids, reg.RuleSources(ctx)[i].id) < FirstIndex(ids, reg.RuleSources(ctx)[j].id)
  {
    var ids := SourceIds(MatchingRules(reg.rules, ctx));
    var d := Dedup(ids);
    var r := reg.RuleSources(ctx);
    DedupShape(ids);
    KnownSourcesIds(d, reg.sources.m);
    KnownSourcesOrder(d, reg.sources.m);
    var before := (a: string, b: string) => a in ids && b in ids && FirstIndex(ids, a) < FirstIndex(ids, b);
    FilterKeepsOrder(d, Registered(reg.sources.m), before);
    forall i, j | 0 <= i < j < |r|
      ensures r[i].id in ids && r[j].id in ids && FirstIndex(ids, r[i].id) < FirstIndex(ids, r[j].id)
    {
      assert IdsOf(r)[i] == r[i].id && IdsOf(r)[j] == r[j].id;
      assert before(KnownIds(d, reg.sources.m)[i], KnownIds(d, reg.sources.m)[j]);
    }
  }
}
