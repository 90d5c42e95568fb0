/**
 * The proof-standard engine: validators for people, families and sources, the exhaustive-search
 * check over a research log, evidence correlation and its confidence rating, conflict
 * resolution, proof summaries and research plans.
 */
module Gps {
  import opened Wrappers
  import opened Text
  import opened OrderedMap
  import opened Sorting
  import opened Models
  import opened Grouping

  /** Outcome of a validator. */
  datatype ValidationResult = ValidationResult(isValid: bool, errors: seq<string>, warnings: seq<string>, suggestions: seq<string>)

  /** A confidence level's enumeration name. */
  function ConfidenceName(c: ConfidenceLevel): string
  {
    match c
    case Speculative => "SPECULATIVE"
    case Weak => "WEAK"
    case Reasonable => "REASONABLE"
    case Strong => "STRONG"
    case GpsComplete => "GPS_COMPLETE"
  }

  // ---------------------------------------------------------------------------------------
  // People, families and sources
  // ---------------------------------------------------------------------------------------

  const NoNameError := "Person has no name"
  const LivingDeathError := "Person marked as living but has death record"
  const UnsourcedWarning := "Person has no sourced facts - add citations"
  const NoMembersError := "Family has no members"
  const NoParentsWarning := "Family has children but no identified parents"
  const MarriageUncitedWarning := "Marriage event has no source citation"
  const NoTitleError := "Source must have a title"
  const DerivativePrimaryWarning := "Primary source marked as derivative - verify classification"
  const TertiarySuggestion := "Tertiary source - must be corroborated with primary/secondary"
  const ImageSuggestion := "Consider obtaining original image if available"

  /** A birth or death event with citations, or citations on the person. */
  predicate SourcedFact(p: Person)
    reads p
  {
    (p.birth.Some? && p.birth.value.citations != [])
    || (p.death.Some? && p.death.value.citations != [])
    || p.citations != []
  }

  /** Both years are known (and non-zero) only for a lifespan of 0 to 120 years. */
  predicate Plausible(birthYear: Option<int>, deathYear: Option<int>)
  {
    IntTruthy(birthYear) && IntTruthy(deathYear) ==> 0 <= deathYear.value - birthYear.value <= 120
  }

  /** `_validate_person_dates`: at most one complaint, and one exactly when the lifespan is implausible. */
  function DateIssues(birthYear: Option<int>, deathYear: Option<int>): (r: seq<string>)
    ensures |r| <= 1
    ensures r == [] <==> Plausible(birthYear, deathYear)
  {
    if IntTruthy(birthYear) && IntTruthy(deathYear) then
      var age := deathYear.value - birthYear.value;
      if age < 0 then ["Death (" + IntToString(deathYear.value) + ") before birth (" + IntToString(birthYear.value) + ")"]
      else if age > 120 then ["Implausible age at death: " + IntToString(age) + " years"]
      else []
    else []
  }

  /** `validate_person` */
  function ValidatePerson(p: Person): (r: ValidationResult)
    reads p
    ensures r.isValid <==> r.errors == []
    ensures r.isValid <==>
      && p.names != []
      && Plausible(p.BirthYear(), p.DeathYear())
      && (p.confidence.Value() >= Strong.Value() ==> SourcedFact(p))
      && !(p.isLiving && p.death.Some?)
    ensures |r.errors| == Count(p.names == []) + Count(!Plausible(p.BirthYear(), p.DeathYear()))
      + Count(p.confidence.Value() >= Strong.Value() && !SourcedFact(p)) + Count(p.isLiving && p.death.Some?)
    ensures r.warnings == [] <==> SourcedFact(p)
    ensures |r.warnings| <= 1 && r.suggestions == []
  {
    var sourced := SourcedFact(p);
    var errors :=
      (if p.names == [] then [NoNameError] else [])
      + DateIssues(p.BirthYear(), p.DeathYear())
      + (if p.confidence.Value() >= Strong.Value() && !sourced
         then ["Confidence level " + ConfidenceName(p.confidence) + " requires sourced evidence"] else [])
      + (if p.isLiving && p.death.Some? then [LivingDeathError] else []);
    var warnings := if !sourced then [UnsourcedWarning] else [];
    ValidationResult(errors == [], errors, warnings, [])
  }

  /** `validate_family` */
  function ValidateFamily(f: Family): (r: ValidationResult)
    ensures r.isValid <==> r.errors == []
    ensures r.isValid <==> HasMember(f)
    ensures |r.errors| <= 1
    ensures |r.warnings| == Count(!StrTruthy(f.husbandId) && !StrTruthy(f.wifeId) && f.childrenIds != [])
      + Count(f.marriage.Some? && f.marriage.value.citations == [])
    ensures r.suggestions == []
  {
    var noPartner := !StrTruthy(f.husbandId) && !StrTruthy(f.wifeId);
    var errors := if noPartner && f.childrenIds == [] then [NoMembersError] else [];
    var warnings :=
      (if noPartner && f.childrenIds != [] then [NoParentsWarning] else [])
      + (if f.marriage.Some? && f.marriage.value.citations == [] then [MarriageUncitedWarning] else []);
    ValidationResult(errors == [], errors, warnings, [])
  }

  /** A family that could be constructed at all always passes `validate_family`, and one that could not always fails it. */
  lemma ValidFamilyConstructible(f: Family)
    ensures ValidateFamily(f).isValid <==> NewFamily(f).Success?
  {
  }

  /** `validate_source` */
  function ValidateSource(s: Source): (r: ValidationResult)
    ensures r.isValid <==> r.errors == []
    ensures r.isValid <==> s.title != ""
    ensures |r.errors| <= 1
    ensures r.warnings != [] <==> s.level == Primary && !s.isOriginal
    ensures |r.suggestions| == Count(s.level == Tertiary) + Count(!s.isImage)
  {
    var errors := if s.title == "" then [NoTitleError] else [];
    var warnings := if s.level == Primary && !s.isOriginal then [DerivativePrimaryWarning] else [];
    var suggestions :=
      (if s.level == Tertiary then [TertiarySuggestion] else [])
      + (if !s.isImage then [ImageSuggestion] else []);
    ValidationResult(errors == [], errors, warnings, suggestions)
  }

  /** A sanity-check alert. */
  datatype ConflictAlert = ConflictAlert(conflictType: string, severity: string, description: string, affectedRecords: seq<string>)

  /** Both years are known (and non-zero) and death comes before birth. */
  predicate DeathBeforeBirth(p: Person)
    reads p
  {
    p.birth.Some? && p.death.Some? && IntTruthy(p.BirthYear()) && IntTruthy(p.DeathYear())
    && p.DeathYear().value < p.BirthYear().value
  }

  /** Both years are known (and non-zero) and more than 120 years apart. */
  predicate OverLongLife(p: Person)
    reads p
  {
    p.birth.Some? && p.death.Some? && IntTruthy(p.BirthYear()) && IntTruthy(p.DeathYear())
    && p.DeathYear().value - p.BirthYear().value > 120
  }

  /** STRONG or higher confidence with neither person citations nor birth citations. */
  predicate UnsourcedConfidence(p: Person)
    reads p
  {
    p.confidence.Value() >= Strong.Value() && p.citations == [] && !(p.birth.Some? && p.birth.value.citations != [])
  }

  /** `detect_conflicts`: one alert per failed check, the death-before-birth one first and as the only error. */
  function DetectConflicts(p: Person): (r: seq<ConflictAlert>)
    reads p
    ensures |r| == Count(DeathBeforeBirth(p)) + Count(OverLongLife(p)) + Count(UnsourcedConfidence(p))
    ensures forall i :: 0 <= i < |r| ==> r[i].affectedRecords == [p.id]
    ensures (r != [] && r[0].severity == "error") <==> DeathBeforeBirth(p)
    ensures (r != [] && r[|r| - 1].conflictType == "unsourced_ethnicity") <==> UnsourcedConfidence(p)
  {
    var b, d := p.BirthYear().UnwrapOr(0), p.DeathYear().UnwrapOr(0);
    (if DeathBeforeBirth(p) then
       [ConflictAlert("impossible_date", "error", "Death year (" + IntToString(d) + ") before birth year (" + IntToString(b) + ")", [p.id])]
     else [])
    + (if OverLongLife(p) then
         [ConflictAlert("impossible_date", "warning", "Implausible lifespan: " + IntToString(d - b) + " years", [p.id])]
       else [])
    + (if UnsourcedConfidence(p) then
         [ConflictAlert("unsourced_ethnicity", "warning", "High confidence without source citations", [p.id])]
       else [])
  }

  // ---------------------------------------------------------------------------------------
  // Confidence from evidence
  // ---------------------------------------------------------------------------------------

  /** `_calculate_confidence` */
  function CalculateConfidence(supporting: seq<Citation>, conflicting: seq<Citation>): (c: ConfidenceLevel)
    ensures c == Speculative <==> supporting == []
    ensures supporting != [] && conflicting != [] ==> c == Reasonable
    ensures c.Value() >= Strong.Value() <==> conflicting == [] && |supporting| >= 3
    ensures c != GpsComplete
    ensures conflicting == [] && |supporting| == 2 ==> c == Reasonable
    ensures conflicting == [] && |supporting| == 1 ==> c == Weak
  {
    if supporting == [] then Speculative
    else if conflicting != [] then Reasonable
    else if |supporting| >= 3 then Strong
    else if |supporting| >= 2 then Reasonable
    else Weak
  }

  /** Without conflicts, more supporting evidence never lowers the confidence. */
  lemma ConfidenceMonotone(a: seq<Citation>, b: seq<Citation>)
    requires |a| <= |b|
    ensures CalculateConfidence(a, []).Value() <= CalculateConfidence(b, []).Value()
  {
  }

  /** Conflicting evidence caps the confidence at REASONABLE, and lifts a single supporting citation from WEAK to it. */
  lemma ConflictsCap(supporting: seq<Citation>, conflicting: seq<Citation>)
    requires conflicting != []
    ensures CalculateConfidence(supporting, conflicting).Value() <= Reasonable.Value()
    ensures |supporting| == 1 ==> CalculateConfidence(supporting, []) == Weak && CalculateConfidence(supporting, conflicting) == Reasonable
  {
  }

  // ---------------------------------------------------------------------------------------
  // Correlating evidence
  // ---------------------------------------------------------------------------------------

  /** The result of correlating citations for one fact. */
  datatype EvidenceCorrelation = EvidenceCorrelation(
    fact: string,
    supporting: seq<Citation>,
    conflicting: seq<Citation>,
    confidence: ConfidenceLevel,
    notes: Option<string>)

  /** What a citation says, compared case-insensitively and without surrounding white space. */
  function FactKey(c: Citation): string
  {
    Strip(Lower(c.factProven))
  }

  /** `correlate_evidence`; the empty input is the `ValueError` that `max` raises on an empty dictionary. */
  function Correlation(cs: seq<Citation>, fact: string): (r: Result<EvidenceCorrelation>)
    ensures r.Success? <==> cs != []
  {
    if cs == [] then Failure("max() arg is an empty sequence")
    else
      var g := Grouped(cs, FactKey);
      var best := Leading(cs, FactKey);
      var supporting := if |g.keys| == 1 then cs else g.m[best];
      var conflicting := if |g.keys| == 1 then [] else Others(g.keys, g.m, best);
      Success(EvidenceCorrelation(fact, supporting, conflicting, CalculateConfidence(supporting, conflicting), None))
  }

  /** Supporting and conflicting citations together are a permutation of the input. */
  lemma CorrelationPermutes(cs: seq<Citation>, fact: string)
    requires cs != []
    ensures var e := Correlation(cs, fact).value;
      multiset(e.supporting) + multiset(e.conflicting) == multiset(cs)
  {
    var g := Grouped(cs, FactKey);
    if |g.keys| != 1 {
      GroupAndOthers(cs, FactKey, Leading(cs, FactKey));
    }
  }

  /** The supporting citations are exactly those saying the leading fact, in input order; no conflicting one says it. */
  lemma CorrelationSupporting(cs: seq<Citation>, fact: string)
    requires cs != []
    ensures var e := Correlation(cs, fact).value;
      && e.supporting == Filter(cs, SameKey(FactKey, Leading(cs, FactKey)))
      && (forall y <- e.conflicting :: FactKey(y) != Leading(cs, FactKey))
      && e.confidence == CalculateConfidence(e.supporting, e.conflicting)
  {
    var g := Grouped(cs, FactKey);
    var e := Correlation(cs, fact).value;
    var best := Leading(cs, FactKey);
    if |g.keys| == 1 {
      SingleGroup(cs, FactKey);
    } else {
      GroupedFilter(cs, FactKey, best);
      forall y | y in e.conflicting ensures FactKey(y) != best {
        OthersKeyDiffers(cs, FactKey, best, y);
      }
    }
  }

  /** No fact is said by more citations than the supporting ones, and a fact said as often was first said no earlier. */
  lemma CorrelationLargest(cs: seq<Citation>, fact: string, i: nat)
    requires i < |cs|
    ensures var e := Correlation(cs, fact).value;
      var n := |Filter(cs, SameKey(FactKey, FactKey(cs[i])))|;
      && n <= |e.supporting|
      && (n == |e.supporting| ==> exists j :: 0 <= j <= i && FactKey(cs[j]) == Leading(cs, FactKey))
  {
    var g := Grouped(cs, FactKey);
    var e := Correlation(cs, fact).value;
    var k := FactKey(cs[i]);
    var b := BestIndex(g.keys, g.m);
    CorrelationSupporting(cs, fact);
    GroupedFilter(cs, FactKey, k);
    FilterMembers(cs, SameKey(FactKey, k));
    assert cs[i] in cs;
    assert k in g.keys;
    var a :| 0 <= a < |g.keys| && g.keys[a] == k;
    GroupedFilter(cs, FactKey, g.keys[b]);
    if |Filter(cs, SameKey(FactKey, k))| == |e.supporting| && a != b {
      assert a > b;
      EarlierKeysFirst(cs, FactKey, i, a, b);
    }
  }

  // ---------------------------------------------------------------------------------------
  // Exhaustive research
  // ---------------------------------------------------------------------------------------

  /** `repositories_searched`: the lower-cased record types of the log entries. */
  function Searched(entries: seq<ResearchLogEntry>): (r: set<string>)
    ensures forall x :: x in r <==> exists i :: 0 <= i < |entries| && Lower(entries[i].recordType) == x
    decreases |entries|
  {
    if entries == [] then {}
    else
      var init := entries[..|entries| - 1];
      var r := Searched(init);
      assert forall i :: 0 <= i < |init| ==> entries[i] == init[i];
      r + {Lower(entries[|entries| - 1].recordType)}
  }

  /** Some searched record type contains the required search, ignoring case. */
  predicate Covered(req: string, repos: set<string>)
  {
    exists repo :: repo in repos && Contains(repo, Lower(req))
  }

  /** The required searches no searched record type covers, in order. */
  function Missing(required: seq<string>, repos: set<string>): (r: seq<string>)
    ensures forall x :: x in r <==> x in required && !Covered(x, repos)
    decreases |required|
  {
    if required == [] then []
    else
      var init, last := required[..|required| - 1], required[|required| - 1];
      assert required == init + [last];
      Missing(init, repos) + (if Covered(last, repos) then [] else [last])
  }

  /** A log entry without an explanation of the absence. */
  function Unexplained(): ResearchLogEntry -> bool
  {
    (e: ResearchLogEntry) => !StrTruthy(e.absenceExplanation)
  }

  /** The suggestion for a missing search. */
  function SearchSuggestion(m: string): string
  {
    "Search " + m + " records"
  }

  /** One suggestion per missing search, in order. */
  function Suggestions(missing: seq<string>): (r: seq<string>)
    ensures |r| == |missing|
    ensures forall i :: 0 <= i < |missing| ==> r[i] == SearchSuggestion(missing[i])
    decreases |missing|
  {
    if missing == [] then []
    else Suggestions(missing[..|missing| - 1]) + [SearchSuggestion(missing[|missing| - 1])]
  }

  /** `check_exhaustive_research` for the given required searches. */
  function Exhaustive(required: seq<string>, entries: seq<ResearchLogEntry>): (r: ValidationResult)
  {
    var missing := Missing(required, Searched(entries));
    var unanalyzed := Filter(WithResult(entries, NegativeResult), Unexplained());
    var missingWarning := if missing != [] then ["Missing searches for exhaustive research: " + Join(", ", missing)] else [];
    var negativeWarning := if unanalyzed != [] then [IntToString(|unanalyzed|) + " negative search results not analyzed"] else [];
    ValidationResult(missing == [] && unanalyzed == [], [], missingWarning + negativeWarning, Suggestions(missing))
  }

  /** Research is exhaustive exactly when every required search is covered and every negative entry is explained. */
  lemma ExhaustiveValid(required: seq<string>, entries: seq<ResearchLogEntry>)
    ensures var r := Exhaustive(required, entries);
      && (r.isValid <==>
            (forall req <- required :: Covered(req, Searched(entries)))
            && (forall e <- entries :: e.result == NegativeResult ==> StrTruthy(e.absenceExplanation)))
      && r.errors == []
      && |r.suggestions| == |Missing(required, Searched(entries))|
  {
    var negatives := WithResult(entries, NegativeResult);
    FilterMembers(negatives, Unexplained());
    var missing := Missing(required, Searched(entries));
    if missing != [] {
      assert missing[0] in missing;
    }
    var unanalyzed := Filter(negatives, Unexplained());
    if unanalyzed != [] {
      assert unanalyzed[0] in unanalyzed;
    }
  }

  /** A research type with no required searches is exhaustive exactly when every negative entry is explained. */
  lemma NoRequiredSearches(entries: seq<ResearchLogEntry>)
    ensures Exhaustive([], entries).isValid <==> forall e <- entries :: e.result == NegativeResult ==> StrTruthy(e.absenceExplanation)
  {
    ExhaustiveValid([], entries);
  }

  // ---------------------------------------------------------------------------------------
  // Conflict resolution and proof summaries
  // ---------------------------------------------------------------------------------------

  /** The note recording one conflicting citation. */
  function ConflictNote(c: Citation): string
  {
    "Citation " + c.id + ": " + c.factProven
  }

  /** One note per conflicting citation, in order. */
  function ConflictNotes(cs: seq<Citation>): (r: seq<string>)
    ensures |r| == |cs|
    ensures forall i :: 0 <= i < |cs| ==> r[i] == ConflictNote(cs[i])
    decreases |cs|
  {
    if cs == [] then []
    else ConflictNotes(cs[..|cs| - 1]) + [ConflictNote(cs[|cs| - 1])]
  }

  /** `resolve_conflicts` */
  function Resolution(c: EvidenceCorrelation, reasoning: string): (r: ProofSummary)
  {
    var conflicts := ConflictNotes(c.conflicting);
    ProofSummary(
      "What is the correct value for: " + c.fact, c.supporting, [], [], [], conflicts,
      if conflicts != [] then Some(reasoning) else None,
      c.fact, if c.confidence.Value() >= Strong.Value() then Proven else Likely, c.confidence,
      reasoning, false, {}, false, None)
  }

  /** A resolution records every conflict and the reasoning exactly when there are conflicts, and proves the fact exactly at STRONG or above. */
  lemma ResolutionShape(c: EvidenceCorrelation, reasoning: string)
    ensures var r := Resolution(c, reasoning);
      && (r.conflictResolution.Some? <==> c.conflicting != [])
      && (r.conflictResolution.Some? ==> r.conflictResolution.value == reasoning)
      && |r.conflictsIdentified| == |c.conflicting|
      && (r.conclusionStatus == Proven <==> c.confidence.Value() >= Strong.Value())
      && (r.conclusionStatus != Proven ==> r.conclusionStatus == Likely)
      && r.primaryEvidence == c.supporting && r.conclusion == c.fact && r.confidence == c.confidence
  {
  }

  /** Whether a citation has the given evidence type. */
  function OfType(t: EvidenceType): Citation -> bool
  {
    (c: Citation) => c.evidenceType == t
  }

  const AiDescription := "AI-assisted hypothesis generation was used. Conclusions rely solely on documented sources."

  /** `create_proof_summary`, with the outcome of the exhaustive-search check passed in. */
  function Summary(question: string, entries: seq<ResearchLogEntry>, cs: seq<Citation>, exhaustive: bool,
                   conclusion: string, reasoning: string, aiAssisted: bool): (r: ProofSummary)
  {
    var primary := Filter(cs, OfType(Direct));
    var secondary := Filter(cs, OfType(Indirect));
    var negative := Filter(cs, OfType(Negative));
    var confidence, status :=
      if primary != [] && exhaustive then GpsComplete
      else if primary != [] then Strong
      else if secondary != [] then Reasonable
      else Weak,
      if primary != [] && exhaustive then Proven
      else if primary != [] then Likely
      else if secondary != [] then Proposed
      else Unsubstantiated;
    ProofSummary(question, primary, secondary, [], negative, [], None, conclusion, status, confidence, reasoning,
      exhaustive, set e <- entries :: e.repository, aiAssisted, if aiAssisted then Some(AiDescription) else None)
  }

  /** Every citation lands in exactly one of the primary, secondary and negative lists. */
  lemma {:induction false} EvidencePartition(cs: seq<Citation>)
    ensures multiset(Filter(cs, OfType(Direct))) + multiset(Filter(cs, OfType(Indirect))) + multiset(Filter(cs, OfType(Negative)))
      == multiset(cs)
    decreases |cs|
  {
    if cs != [] {
      EvidencePartition(cs[..|cs| - 1]);
      LastSplit(cs);
    }
  }

  /** The rating of a proof summary: GPS-complete and proven needs direct evidence and exhaustive research. */
  lemma SummaryRating(question: string, entries: seq<ResearchLogEntry>, cs: seq<Citation>, exhaustive: bool,
                      conclusion: string, reasoning: string, aiAssisted: bool)
    ensures var r := Summary(question, entries, cs, exhaustive, conclusion, reasoning, aiAssisted);
      && (r.confidence == GpsComplete <==> r.conclusionStatus == Proven)
      && (r.conclusionStatus == Proven <==> exhaustive && exists c <- cs :: c.evidenceType == Direct)
      && (r.conclusionStatus == Likely <==> !exhaustive && exists c <- cs :: c.evidenceType == Direct)
      && (r.conclusionStatus == Proposed <==>
            (forall c <- cs :: c.evidenceType != Direct) && exists c <- cs :: c.evidenceType == Indirect)
      && (r.conclusionStatus == Unsubstantiated <==> forall c <- cs :: c.evidenceType == Negative)
  {
    FilterMembers(cs, OfType(Direct));
    FilterMembers(cs, OfType(Indirect));
    var primary := Filter(cs, OfType(Direct));
    var secondary := Filter(cs, OfType(Indirect));
    if primary != [] {
      assert primary[0] in primary;
    }
    if secondary != [] {
      assert secondary[0] in secondary;
    }
  }

  /** A proof summary files every citation once, under its evidence type, and lists the repositories the log searched. */
  lemma SummaryEvidence(question: string, entries: seq<ResearchLogEntry>, cs: seq<Citation>, exhaustive: bool,
                        conclusion: string, reasoning: string, aiAssisted: bool)
    ensures var r := Summary(question, entries, cs, exhaustive, conclusion, reasoning, aiAssisted);
      && r.tertiaryEvidence == []
      && multiset(r.primaryEvidence) + multiset(r.secondaryEvidence) + multiset(r.negativeEvidence) == multiset(cs)
      && (forall c <- r.primaryEvidence :: c.evidenceType == Direct)
      && (forall c <- r.secondaryEvidence :: c.evidenceType == Indirect)
      && (forall c <- r.negativeEvidence :: c.evidenceType == Negative)
      && (forall repo :: repo in r.repositoriesSearched <==> exists e <- entries :: e.repository == repo)
      && (r.aiAssistanceDescription.Some? <==> aiAssisted)
  {
    EvidencePartition(cs);
    FilterMembers(cs, OfType(Direct));
    FilterMembers(cs, OfType(Indirect));
    FilterMembers(cs, OfType(Negative));
  }

  // ---------------------------------------------------------------------------------------
  // Research plans
  // ---------------------------------------------------------------------------------------

  const BelgianPre1796 := ["parish registers"]
  const BelgianPost1796 := ["burgerlijke stand / \U{e9}tat civil"]
  const BelgianPopulation := ["bevolkingsregister / registre de population"]
  const CherokeeRolls := [
    "Baker Roll", "Dawes Rolls (Final + Applications)", "Guion Miller Roll",
    "Old Settler Rolls", "Henderson Roll (1835)", "Drennan Roll (1851)"]
  const StandardSteps := [
    "Check for name spelling variants", "Search for associated persons (FAN club)", "Document all negative searches"]

  const BirthSearches := ["civil birth register", "church baptism register", "census (age validation)"]
  const DeathSearches := ["civil death register", "cemetery records", "obituaries", "probate records"]
  const MarriageSearches := ["civil marriage register", "church marriage register", "marriage license/bond"]
  const ImmigrationSearches := ["passenger manifest", "naturalization records", "border crossing records"]
  const IdentitySearches := ["census records (multiple years)", "vital records", "land records", "tax records"]

  /** `REQUIRED_SEARCHES` as the class defines it. */
  function DefaultSearches(): (r: OMap<seq<string>>)
    ensures r.Valid()
    ensures r.keys == ["birth", "death", "marriage", "immigration", "identity"]
  {
    var keys := ["birth", "death", "marriage", "immigration", "identity"];
    assert keys[0][0] == 'b' && keys[1][0] == 'd' && keys[2][0] == 'm' && keys[3][0] == 'i' && keys[4][0] == 'i';
    assert keys[3][1] == 'm' && keys[4][1] == 'd';
    OMap(keys, map["birth" := BirthSearches, "death" := DeathSearches, "marriage" := MarriageSearches,
                   "immigration" := ImmigrationSearches, "identity" := IdentitySearches])
  }

  /** `REQUIRED_SEARCHES.get(research_type, [])` */
  function RequiredFor(searches: OMap<seq<string>>, researchType: string): seq<string>
  {
    if researchType in searches.m then searches.m[researchType] else []
  }

  /** The region-specific searches a plan adds; a Belgian plan dates a person without a (non-zero) birth year to 1850. */
  function RegionSearches(region: Option<string>, birthYear: Option<int>): (r: seq<string>)
    ensures region == Some("belgium") ==> |r| == 2 && r[1] == BelgianPopulation[0]
    ensures region == Some("cherokee") ==> r == CherokeeRolls
    ensures region != Some("belgium") && region != Some("cherokee") ==> r == []
  {
    if region == Some("belgium") then
      var year := if IntTruthy(birthYear) then birthYear.value else 1850;
      (if year < 1796 then BelgianPre1796 else BelgianPost1796) + BelgianPopulation
    else if region == Some("cherokee") then CherokeeRolls
    else []
  }

  /** The shared table after a plan extends the list of a known research type in place. */
  function Extended(searches: OMap<seq<string>>, researchType: string, extra: seq<string>): (r: OMap<seq<string>>)
    ensures searches.Valid() ==> r.Valid()
  {
    if researchType in searches.m then searches.Put(researchType, searches.m[researchType] + extra) else searches
  }

  /** A plan grows the shared list of a known type by the region's searches and leaves every other entry alone; an unknown type leaves the table as it was. */
  lemma ExtendedGrows(searches: OMap<seq<string>>, researchType: string, extra: seq<string>, other: string)
    requires searches.Valid()
    ensures var r := Extended(searches, researchType, extra);
      && r.keys == searches.keys
      && RequiredFor(r, researchType) == RequiredFor(searches, researchType) + (if researchType in searches.m then extra else [])
      && (other != researchType ==> RequiredFor(r, other) == RequiredFor(searches, other))
  {
  }

  /** "Search ..." for each required search, in order. */
  function SearchSteps(required: seq<string>): (r: seq<string>)
    ensures |r| == |required|
    ensures forall i :: 0 <= i < |required| ==> r[i] == "Search " + required[i]
    decreases |required|
  {
    if required == [] then []
    else SearchSteps(required[..|required| - 1]) + ["Search " + required[|required| - 1]]
  }

  /** `generate_research_plan`'s result for the searches it ends up requiring. */
  function Plan(required: seq<string>): seq<string>
  {
    SearchSteps(required) + StandardSteps
  }

  /** A plan has one step per required search, in order, and always ends with the same three standard steps. */
  lemma PlanShape(required: seq<string>)
    ensures var p := Plan(required);
      |p| == |required| + 3 && p[|required|..] == StandardSteps && p[..|required|] == SearchSteps(required)
  {
  }

  // ---------------------------------------------------------------------------------------
  // The engine
  // ---------------------------------------------------------------------------------------

  /** The loop collecting `repositories_searched`. */
  method SearchedTypes(entries: seq<ResearchLogEntry>) returns (repos: set<string>)
    ensures repos == Searched(entries)
  {
    repos := {};
    for i := 0 to |entries|
      invariant repos == Searched(entries[..i])
    {
      PrefixPrefix(entries, i);
      repos := repos + {Lower(entries[i].recordType)};
    }
    PrefixAll(entries);
  }

  /** The loop collecting the missing required searches. */
  method MissingSearches(required: seq<string>, repos: set<string>) returns (missing: seq<string>)
    ensures missing == Missing(required, repos)
  {
    missing := [];
    for j := 0 to |required|
      invariant missing == Missing(required[..j], repos)
    {
      PrefixPrefix(required, j);
      var found := exists repo | repo in repos :: Contains(repo, Lower(required[j]));
      if !found {
        missing := missing + [required[j]];
      }
    }
    PrefixAll(required);
  }

  /** The loop suggesting a search per missing one. */
  method SuggestSearches(missing: seq<string>) returns (suggestions: seq<string>)
    ensures suggestions == Suggestions(missing)
  {
    suggestions := [];
    for k := 0 to |missing|
      invariant suggestions == Suggestions(missing[..k])
    {
      PrefixPrefix(missing, k);
      suggestions := suggestions + [SearchSuggestion(missing[k])];
    }
    PrefixAll(missing);
  }

  /** The loop filling `fact_values`. */
  method GroupByFact(cs: seq<Citation>) returns (groups: OMap<seq<Citation>>)
    ensures groups == Grouped(cs, FactKey)
  {
    groups := Empty();
    for i := 0 to |cs|
      invariant groups == Grouped(cs[..i], FactKey)
    {
      PrefixPrefix(cs, i);
      var k := FactKey(cs[i]);
      if k in groups.m {
        groups := groups.Put(k, groups.m[k] + [cs[i]]);
      } else {
        groups := groups.Put(k, [cs[i]]);
      }
    }
    PrefixAll(cs);
  }

  /** The loop extending the conflicting citations with every group but the most supported one. */
  method OtherGroups(groups: OMap<seq<Citation>>, best: string) returns (conflicting: seq<Citation>)
    requires groups.Valid()
    ensures conflicting == Others(groups.keys, groups.m, best)
  {
    conflicting := [];
    for j := 0 to |groups.keys|
      invariant conflicting == Others(groups.keys[..j], groups.m, best)
    {
      PrefixPrefix(groups.keys, j);
      var key := groups.keys[j];
      if key != best {
        conflicting := conflicting + groups.m[key];
      }
    }
    PrefixAll(groups.keys);
  }

  /** The loop listing a "Search ..." step per required search. */
  method SearchPlan(required: seq<string>) returns (plan: seq<string>)
    ensures plan == SearchSteps(required)
  {
    plan := [];
    for i := 0 to |required|
      invariant plan == SearchSteps(required[..i])
    {
      PrefixPrefix(required, i);
      plan := plan + ["Search " + required[i]];
    }
    PrefixAll(required);
  }

  /** The checks of `check_exhaustive_research` once the required list is looked up: the missing searches, then the unexplained negative results. */
  method ExhaustiveCheck(required: seq<string>, entries: seq<ResearchLogEntry>) returns (r: ValidationResult)
    ensures r == Exhaustive(required, entries)
  {
    var repos := SearchedTypes(entries);
    var missing := MissingSearches(required, repos);
    var warnings: seq<string> := [];
    var suggestions: seq<string> := [];
    if missing != [] {
      warnings := warnings + ["Missing searches for exhaustive research: " + Join(", ", missing)];
      suggestions := SuggestSearches(missing);
    }
    var unanalyzed := Filter(WithResult(entries, NegativeResult), Unexplained());
    ghost var missingWarning := warnings;
    if unanalyzed != [] {
      warnings := warnings + [IntToString(|unanalyzed|) + " negative search results not analyzed"];
    } else {
      assert warnings == missingWarning + [];
    }
    assert missingWarning == if missing != [] then ["Missing searches for exhaustive research: " + Join(", ", missing)] else [];
    r := ValidationResult(missing == [] && unanalyzed == [], [], warnings, suggestions);
  }

  /**
   * `REQUIRED_SEARCHES`: a class attribute, so one table serves every engine, and a list
   * extended through one engine is extended for all of them.
   */
  class SearchTable {
    var searches: OMap<seq<string>>

    constructor()
      ensures searches == DefaultSearches()
    {
      searches := DefaultSearches();
    }
  }

  /** The proof-standard engine, reading and growing the shared table of required searches. */
  class ProofStandard {
    const table: SearchTable

    ghost predicate Valid()
      reads this, table
    {
      table.searches.Valid()
    }

    constructor(table: SearchTable)
      requires table.searches.Valid()
      ensures Valid() && this.table == table
    {
      this.table := table;
    }

    /** `check_exhaustive_research` */
    method CheckExhaustiveResearch(log: ResearchLog, researchType: string) returns (r: ValidationResult)
      ensures r == Exhaustive(RequiredFor(table.searches, researchType), log.entries)
    {
      var required := if researchType in table.searches.m then table.searches.m[researchType] else [];
      r := ExhaustiveCheck(required, log.entries);
    }

    /** `correlate_evidence` */
    method CorrelateEvidence(cs: seq<Citation>, fact: string) returns (r: Result<EvidenceCorrelation>)
      ensures r == Correlation(cs, fact)
    {
      var groups := GroupByFact(cs);
      var supporting, conflicting;
      if |groups.keys| == 1 {
        supporting, conflicting := cs, [];
      } else if groups.keys == [] {
        return Failure("max() arg is an empty sequence");
      } else {
        var best := groups.keys[BestIndex(groups.keys, groups.m)];
        supporting := groups.m[best];
        conflicting := OtherGroups(groups, best);
      }
      r := Success(EvidenceCorrelation(fact, supporting, conflicting, CalculateConfidence(supporting, conflicting), None));
    }

    /** `resolve_conflicts` */
    method ResolveConflicts(c: EvidenceCorrelation, reasoning: string) returns (r: ProofSummary)
      ensures r == Resolution(c, reasoning)
    {
      var conflicts: seq<string> := [];
      for i := 0 to |c.conflicting|
        invariant conflicts == ConflictNotes(c.conflicting[..i])
      {
        PrefixSnoc(c.conflicting, i);
        conflicts := conflicts + [ConflictNote(c.conflicting[i])];
      }
      assert c.conflicting[..|c.conflicting|] == c.conflicting;
      r := ProofSummary(
        "What is the correct value for: " + c.fact, c.supporting, [], [], [], conflicts,
        if conflicts != [] then Some(reasoning) else None,
        c.fact, if c.confidence.Value() >= Strong.Value() then Proven else Likely, c.confidence,
        reasoning, false, {}, false, None);
    }

    /** `create_proof_summary`, checking the log against the `identity` searches */
    method CreateProofSummary(question: string, log: ResearchLog, cs: seq<Citation>, conclusion: string,
                              reasoning: string, aiAssisted: bool) returns (r: ProofSummary)
      ensures r == Summary(question, log.entries, cs, Exhaustive(RequiredFor(table.searches, "identity"), log.entries).isValid,
                           conclusion, reasoning, aiAssisted)
    {
      var primary, secondary, negative: seq<Citation> := [], [], [];
      for i := 0 to |cs|
        invariant primary == Filter(cs[..i], OfType(Direct))
        invariant secondary == Filter(cs[..i], OfType(Indirect))
        invariant negative == Filter(cs[..i], OfType(Negative))
      {
        PrefixSnoc(cs, i);
        var c := cs[i];
        if c.evidenceType == Negative {
          negative := negative + [c];
        } else if c.evidenceType == Direct {
          primary := primary + [c];
        } else {
          secondary := secondary + [c];
        }
      }
      assert cs[..|cs|] == cs;
      var exhaustive := CheckExhaustiveResearch(log, "identity");
      var confidence, status;
      if primary != [] && exhaustive.isValid {
        confidence, status := GpsComplete, Proven;
      } else if primary != [] {
        confidence, status := Strong, Likely;
      } else if secondary != [] {
        confidence, status := Reasonable, Proposed;
      } else {
        confidence, status := Weak, Unsubstantiated;
      }
      var repositories := set e <- log.entries :: e.repository;
      r := ProofSummary(question, primary, secondary, [], negative, [], None, conclusion, status, confidence, reasoning,
        exhaustive.isValid, repositories, aiAssisted, if aiAssisted then Some(AiDescription) else None);
    }

    /** `generate_research_plan`; the region's searches extend the shared list of a known research type in place. */
    method GenerateResearchPlan(person: Person, researchType: string, region: Option<string>) returns (plan: seq<string>)
      requires Valid()
      modifies table
      ensures Valid()
      ensures table.searches == Extended(old(table.searches), researchType, RegionSearches(region, person.BirthYear()))
      ensures plan == Plan(RequiredFor(old(table.searches), researchType) + RegionSearches(region, person.BirthYear()))
    {
      var known := researchType in table.searches.m;
      var required := RequiredFor(table.searches, researchType) + RegionSearches(region, person.BirthYear());
      if known {
        table.searches := table.searches.Put(researchType, required);
      }
      plan := SearchPlan(required);
      plan := plan + StandardSteps;
    }
  }
}
