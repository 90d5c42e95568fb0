/**
 * The GPS validation plugin: `validate_proof` checks the five elements of the
 * Genealogical Proof Standard against the caller's answers and writes a pass line or an
 * issue line for each, then the overall verdict.
 */
module GpsValidationPlugin {
  import opened Text
  import opened Sorting

  /** The outcome of one element: a line for the passed list, or one for the issues. */
  datatype Check = Pass(line: string) | Issue(line: string)

  /** An element's line: its number, a full stop and a space, then the text. */
  function Element(n: char, text: string): (r: string)
    ensures |r| == |text| + 3 && r[0] == n && r[3..] == text
  {
    [n] + ". " + text
  }

  const ResearchPass := Element('1', "Reasonably exhaustive research: PASS")
  const ResearchFail := Element('1', "Reasonably exhaustive research: FAIL - Search not marked as exhaustive")
  const CitationsPass := Element('2', "Complete source citations with primary sources: PASS")
  const PartialCitations := Element('2', "Source citations: PARTIAL - No primary sources included")
  const CitationsFail := Element('2', "Source citations: FAIL - No evidence cited")
  const AnalysisPass := Element('3', "Analysis and correlation of evidence: PASS")
  const AnalysisFail := Element('3', "Evidence analysis: FAIL - Need multiple pieces of evidence to correlate")
  const NoConflicts := Element('4', "Conflict resolution: PASS - No conflicts to resolve")
  const ConflictsResolved := Element('4', "Conflict resolution: PASS - All conflicts resolved")
  const ConflictsFail := Element('4', "Conflict resolution: FAIL - Unresolved conflicts remain")
  const ConclusionPass := Element('5', "Written conclusion: PASS")
  const ConclusionFail := Element('5', "Written conclusion: FAIL - No conclusion provided")

  /** Element 1: reasonably exhaustive research. */
  function ResearchCheck(exhaustiveSearch: bool): (c: Check)
    ensures c.Pass? <==> exhaustiveSearch
  {
    if exhaustiveSearch then Pass(ResearchPass) else Issue(ResearchFail)
  }

  /** Element 2: complete citations; evidence without primary sources is only partial, and still an issue. */
  function CitationCheck(evidenceCount: int, hasPrimarySources: bool): (c: Check)
    ensures c.Pass? <==> evidenceCount > 0 && hasPrimarySources
    ensures evidenceCount > 0 && !hasPrimarySources ==> c == Issue(PartialCitations)
  {
    if evidenceCount > 0 && hasPrimarySources then Pass(CitationsPass)
    else if evidenceCount > 0 then Issue(PartialCitations)
    else Issue(CitationsFail)
  }

  /** Element 3: analysis and correlation, which needs at least two pieces of evidence. */
  function AnalysisCheck(evidenceCount: int): (c: Check)
    ensures c.Pass? <==> evidenceCount >= 2
  {
    if evidenceCount >= 2 then Pass(AnalysisPass) else Issue(AnalysisFail)
  }

  /** Element 4: conflict resolution, passed when there are no conflicts or they are resolved. */
  function ConflictCheck(hasConflicts: bool, conflictsResolved: bool): (c: Check)
    ensures c.Pass? <==> !hasConflicts || conflictsResolved
  {
    if !hasConflicts then Pass(NoConflicts)
    else if conflictsResolved then Pass(ConflictsResolved)
    else Issue(ConflictsFail)
  }

  /** Element 5: a written conclusion, which must not be empty. */
  function ConclusionCheck(conclusion: string): (c: Check)
    ensures c.Pass? <==> conclusion != ""
  {
    if conclusion != "" then Pass(ConclusionPass) else Issue(ConclusionFail)
  }

  /** The element's line when it passed. */
  function PassOf(c: Check): (r: seq<string>)
    ensures |r| == if c.Pass? then 1 else 0
  {
    if c.Pass? then [c.line] else []
  }

  /** The element's line when it failed. */
  function IssueOf(c: Check): (r: seq<string>)
    ensures |r| == if c.Issue? then 1 else 0
  {
    if c.Issue? then [c.line] else []
  }

  /** The `passed` and `issues` lists. */
  datatype Outcome = Outcome(passed: seq<string>, issues: seq<string>)

  /** A line that starts with an element number, `1` to `5`. */
  predicate Numbered(line: string)
  {
    line != [] && '1' <= line[0] <= '5'
  }

  /** Five checks in order, each line appended to `passed` or to `issues`. */
  function Combine(c1: Check, c2: Check, c3: Check, c4: Check, c5: Check): (o: Outcome)
    ensures |o.passed| + |o.issues| == 5
    ensures o.issues == [] <==> c1.Pass? && c2.Pass? && c3.Pass? && c4.Pass? && c5.Pass?
    ensures c2.Issue? ==> c2.line in o.issues
    ensures Numbered(c1.line) && Numbered(c2.line) && Numbered(c3.line) && Numbered(c4.line) && Numbered(c5.line) ==>
      forall x <- o.passed :: Numbered(x)
  {
    var passed := PassOf(c1) + PassOf(c2) + PassOf(c3) + PassOf(c4) + PassOf(c5);
    var issues := IssueOf(c1) + IssueOf(c2) + IssueOf(c3) + IssueOf(c4) + IssueOf(c5);
    assert c2.Issue? ==> issues[|IssueOf(c1)|] == c2.line;
    Outcome(passed, issues)
  }

  /**
   * The five elements checked in order. There are no issues exactly when every element
   * passes, and evidence without primary sources is always reported as partial.
   */
  function Assess(conclusion: string, evidenceCount: int, hasPrimarySources: bool, hasConflicts: bool,
                  conflictsResolved: bool, exhaustiveSearch: bool): (o: Outcome)
    ensures |o.passed| + |o.issues| == 5
    ensures o.issues == [] <==>
      exhaustiveSearch && evidenceCount >= 2 && hasPrimarySources && (!hasConflicts || conflictsResolved) && conclusion != ""
    ensures evidenceCount > 0 && !hasPrimarySources ==> PartialCitations in o.issues
    ensures forall x <- o.passed :: Numbered(x)
  {
    LeadingDigits(exhaustiveSearch, evidenceCount, hasPrimarySources, hasConflicts, conflictsResolved, conclusion);
    Combine(ResearchCheck(exhaustiveSearch), CitationCheck(evidenceCount, hasPrimarySources), AnalysisCheck(evidenceCount),
            ConflictCheck(hasConflicts, conflictsResolved), ConclusionCheck(conclusion))
  }

  /** Every pass line starts with its element's number. */
  lemma LeadingDigits(exhaustiveSearch: bool, evidenceCount: int, hasPrimarySources: bool, hasConflicts: bool,
                      conflictsResolved: bool, conclusion: string)
    ensures ResearchCheck(exhaustiveSearch).line[0] == '1'
    ensures CitationCheck(evidenceCount, hasPrimarySources).line[0] == '2'
    ensures AnalysisCheck(evidenceCount).line[0] == '3'
    ensures ConflictCheck(hasConflicts, conflictsResolved).line[0] == '4'
    ensures ConclusionCheck(conclusion).line[0] == '5'
  {
  }

  /** The overall verdict line. */
  function Verdict(compliant: bool): (r: string)
    ensures r == CompliantVerdict <==> compliant
  {
    if compliant then CompliantVerdict
    else
      assert |NotCompliantVerdict| != |CompliantVerdict|;
      NotCompliantVerdict
  }

  const CompliantVerdict := "\nOVERALL: GPS COMPLIANT"
  const NotCompliantVerdict := "\nOVERALL: NOT GPS COMPLIANT"
  const ReportHeader := "GPS Compliance Check:\n"
  const IssuesHeader := "\nISSUES:"

  /** The report lines: the heading, the passed elements, the issues under their heading when there are any, and the verdict. */
  function ReportLines(o: Outcome): (r: seq<string>)
    ensures |r| == 2 + |o.passed| + (if o.issues == [] then 0 else 1 + |o.issues|)
    ensures r[0] == ReportHeader && r[1..1 + |o.passed|] == o.passed
    ensures r[|r| - 1] == Verdict(o.issues == [])
  {
    [ReportHeader] + o.passed + (if o.issues != [] then [IssuesHeader] + o.issues else [])
    + [Verdict(o.issues == [])]
  }

  /** `validate_proof` */
  function ValidateProof(conclusion: string, evidenceCount: int, hasPrimarySources: bool, hasConflicts: bool,
                         conflictsResolved: bool, exhaustiveSearch: bool): (r: string)
    ensures IsSuffix(Verdict(exhaustiveSearch && evidenceCount >= 2 && hasPrimarySources && (!hasConflicts || conflictsResolved)
                             && conclusion != ""), r)
  {
    var lines := ReportLines(Assess(conclusion, evidenceCount, hasPrimarySources, hasConflicts, conflictsResolved, exhaustiveSearch));
    JoinLast("\n", lines);
    Join("\n", lines)
  }

  /** The report ends with the verdict, which reads `GPS COMPLIANT` exactly when all five elements pass. */
  lemma VerdictIff(conclusion: string, evidenceCount: int, hasPrimarySources: bool, hasConflicts: bool,
                   conflictsResolved: bool, exhaustiveSearch: bool)
    ensures var lines := ReportLines(Assess(conclusion, evidenceCount, hasPrimarySources, hasConflicts, conflictsResolved, exhaustiveSearch));
      (lines[|lines| - 1] == CompliantVerdict <==>
        exhaustiveSearch && evidenceCount >= 2 && hasPrimarySources && (!hasConflicts || conflictsResolved) && conclusion != "")
      && IsSuffix(lines[|lines| - 1], ValidateProof(conclusion, evidenceCount, hasPrimarySources, hasConflicts, conflictsResolved, exhaustiveSearch))
  {
    var lines := ReportLines(Assess(conclusion, evidenceCount, hasPrimarySources, hasConflicts, conflictsResolved, exhaustiveSearch));
    assert NotCompliantVerdict != CompliantVerdict by {
      assert |NotCompliantVerdict| != |CompliantVerdict|;
    }
    JoinLast("\n", lines);
  }

  /** The `ISSUES:` heading appears exactly when some element fails, and then the issues follow it in element order. */
  lemma IssuesHeading(o: Outcome)
    requires forall x <- o.passed :: Numbered(x)
    ensures IssuesHeader in ReportLines(o) <==> o.issues != []
    ensures o.issues != [] ==> ReportLines(o)[1 + |o.passed|..|ReportLines(o)| - 1] == [IssuesHeader] + o.issues
  {
    var lines := ReportLines(o);
    if o.issues == [] {
      assert IssuesHeader !in o.passed by {
        assert IssuesHeader[0] == '\n';
      }
      assert IssuesHeader != ReportHeader by {
        assert ReportHeader[0] == 'G';
      }
      assert IssuesHeader != CompliantVerdict by {
        assert |IssuesHeader| != |CompliantVerdict|;
      }
    } else {
      assert lines[1 + |o.passed|] == IssuesHeader;
    }
  }
}
