/**
 * The proof-summary plugin: the markdown proof summary of a research question, one research
 * log entry, and the evidence analysis table. Lists arrive as `;`-separated strings and table
 * cells as `|`-separated ones.
 */
module ProofSummaryPlugin {
  import opened Wrappers
  import opened Text
  import opened Sorting
  import opened Models

  // ---------------------------------------------------------------------------------------
  // Semicolon-separated lists
  // ---------------------------------------------------------------------------------------

  /** A piece is kept when something is left after stripping. */
  predicate Kept(p: string)
  {
    |p| > 0
  }

  /** `[p.strip() for p in s.split(sep) if p.strip()]` */
  function Pieces(s: string, sep: char): (r: seq<string>)
    ensures |r| <= |Split(s, sep)|
  {
    Filter(MapSeq(Split(s, sep), Strip), Kept)
  }

  /** The pieces are exactly the non-empty ones among the stripped parts between separators. */
  lemma PiecesMembers(s: string, sep: char)
    ensures forall x :: x in Pieces(s, sep) <==> |x| > 0 && x in MapSeq(Split(s, sep), Strip)
  {
    KeptMembers(MapSeq(Split(s, sep), Strip), Pieces(s, sep));
  }

  /** The kept parts are exactly the non-empty ones. */
  lemma KeptMembers(parts: seq<string>, kept: seq<string>)
    requires kept == Filter(parts, Kept)
    ensures forall x :: x in kept <==> |x| > 0 && x in parts
  {
    FilterMembers(parts, Kept);
  }

  /** A string with no whitespace at either end: what stripping leaves, and what it leaves alone. */
  predicate Trimmed(x: string)
  {
    x == [] || (!IsSpace(x[0]) && !IsSpace(x[|x| - 1]))
  }

  /** Items a list can hold: non-empty, stripped and free of the separator. */
  predicate Listable(items: seq<string>, sep: char)
  {
    forall k :: 0 <= k < |items| ==> items[k] != "" && Trimmed(items[k]) && sep !in items[k]
  }

  /** Listable items are read back from their joined text. */
  lemma PiecesOfJoin(items: seq<string>, sep: char)
    requires Listable(items, sep)
    ensures Pieces(Join([sep], items), sep) == items
  {
    if items == [] {
      NoPiecesOfEmpty(sep);
    } else {
      PiecesOfJoined(items, sep, Join([sep], items));
    }
  }

  lemma PiecesOfJoined(items: seq<string>, sep: char, s: string)
    requires items != [] && s == Join([sep], items) && Listable(items, sep)
    ensures Pieces(s, sep) == items
  {
    SplitOfJoin(items, sep);
    StrippedKept(items);
  }

  lemma NoPiecesOfEmpty(sep: char)
    ensures Pieces("", sep) == []
  {
    assert Split("", sep) == [""];
    assert MapSeq([""], Strip) == [""];
    FilterSingle("", Kept);
  }

  lemma StrippedKept(items: seq<string>)
    requires forall k :: 0 <= k < |items| ==> items[k] != "" && Trimmed(items[k])
    ensures Filter(MapSeq(items, Strip), Kept) == items
  {
    forall k | 0 <= k < |items|
      ensures Strip(items[k]) == items[k]
    {
      StripIdentity(items[k]);
    }
    assert MapSeq(items, Strip) == items;
    FilterKeepsAll(items, Kept);
  }

  /** An optional list: its pieces when the text is given, otherwise none. */
  function OptionalPieces(o: Option<string>): (r: seq<string>)
    ensures r != [] ==> StrTruthy(o)
  {
    if StrTruthy(o) then Pieces(o.value, ';') else []
  }

  // ---------------------------------------------------------------------------------------
  // Proof summary
  // ---------------------------------------------------------------------------------------

  /** The name of a confidence level in the summary. */
  function LevelName(l: ConfidenceLevel): string
  {
    match l
    case Speculative => "Speculative"
    case Weak => "Weak"
    case Reasonable => "Reasonable"
    case Strong => "Strong"
    case GpsComplete => "GPS Complete"
  }

  const UnknownConfidence := "Unknown"

  /** `confidence_labels.get(confidence, 'Unknown')` */
  function ConfidenceLabel(confidence: int): (r: string)
    ensures r == UnknownConfidence <==> !(1 <= confidence <= 5)
  {
    match ConfidenceOf(confidence)
    case Some(l) => LevelName(l)
    case None => UnknownConfidence
  }

  /** Each level's value is labelled with its name, and different values get different labels. */
  lemma ConfidenceLabels(l: ConfidenceLevel, m: ConfidenceLevel)
    ensures ConfidenceLabel(l.Value()) == LevelName(l)
    ensures ConfidenceLabel(l.Value()) == ConfidenceLabel(m.Value()) ==> l == m
  {
    ConfidenceOfValue(l);
    ConfidenceOfValue(m);
    assert |LevelName(l)| == |LevelName(m)| ==> l == m;
  }

  const SummaryTitle := "# Proof Summary"
  const QuestionHeading := "## Research Question"
  const ConclusionHeading := "## Conclusion"
  const EvidenceHeading := "## Evidence"
  const ConflictsHeading := "## Conflicts and Resolution"
  const ChecklistHeading := "## GPS Compliance Checklist"
  const StepsHeading := "## Recommended Next Steps"
  const Disclaimer := "*AI-assisted analysis. Conclusions rely solely on documented sources.*"
  const Tick := "\U{2713}"

  /** `**Confidence Level:** n/5 (label)` */
  function ConfidenceLine(confidence: int): string
  {
    "**Confidence Level:** " + IntToString(confidence) + "/5 (" + ConfidenceLabel(confidence) + ")"
  }

  /** The lines before the evidence items. */
  function Head(question: string, conclusion: string, confidence: int): (r: seq<string>)
    ensures |r| == 11 && r[3] == question && r[6] == conclusion && r[8] == ConfidenceLine(confidence) && r[10] == EvidenceHeading
  {
    [SummaryTitle, "", QuestionHeading, question, "", ConclusionHeading, conclusion, "", ConfidenceLine(confidence), "", EvidenceHeading]
  }

  /** `f"{i}. {ev}"` */
  function ItemLine(n: int, ev: string): string
  {
    IntToString(n) + ". " + ev
  }

  /** The evidence items numbered from 1. */
  function EvidenceLines(evs: seq<string>): (r: seq<string>)
    ensures |r| == |evs| && forall i :: 0 <= i < |evs| ==> r[i] == ItemLine(i + 1, evs[i])
  {
    seq(|evs|, i requires 0 <= i < |evs| => ItemLine(i + 1, evs[i]))
  }

  lemma EvidenceSnoc(evs: seq<string>, i: nat)
    requires i < |evs|
    ensures EvidenceLines(evs[..i + 1]) == EvidenceLines(evs[..i]) + [ItemLine(i + 1, evs[i])]
  {
    var a, b := EvidenceLines(evs[..i + 1]), EvidenceLines(evs[..i]) + [ItemLine(i + 1, evs[i])];
    forall k | 0 <= k < |a|
      ensures a[k] == b[k]
    {
      assert evs[..i + 1][k] == evs[k];
    }
  }

  /** `f"- {item}"` */
  function Bullet(item: string): string
  {
    "- " + item
  }

  /** A section: a blank line, the heading and one bullet per item, or nothing when there are no items. */
  function Section(heading: string, items: seq<string>): (r: seq<string>)
    ensures |r| == if items == [] then 0 else 2 + |items|
    ensures items != [] ==> r[1] == heading && r[2..] == MapSeq(items, Bullet)
  {
    if items == [] then [] else ["", heading] + MapSeq(items, Bullet)
  }

  /** An unticked checklist box; the mark, if any, follows the final space. */
  function Box(text: string): string
  {
    "- [ ] " + text + " "
  }

  function Mark(b: bool): string
  {
    if b then Tick else ""
  }

  /** A checklist line that ends with the tick. */
  predicate Ticked(line: string)
  {
    line != [] && line[|line| - 1] == '\U{2713}'
  }

  lemma TickedBox(text: string, b: bool)
    ensures Ticked(Box(text) + Mark(b)) <==> b
  {
    var x := Box(text);
    assert x[|x| - 1] == ' ';
    if b {
      assert (x + Mark(b))[|x|] == '\U{2713}';
    }
  }

  const ExhaustiveText := "Reasonably exhaustive research"
  const CitationsLine := "- [ ] Complete and accurate source citations"
  const AnalysisText := "Analysis and correlation of evidence"
  const ConflictText := "Resolution of conflicting evidence"
  const ConclusionLine := "- [x] Written conclusion"

  /** The checklist: research ticked from confidence 4, analysis from two items of evidence. */
  function Checklist(confidence: int, evidenceCount: int, conflictsTicked: bool): (r: seq<string>)
    ensures |r| == 7 && r[1] == ChecklistHeading
  {
    ["", ChecklistHeading, Box(ExhaustiveText) + Mark(confidence >= 4), CitationsLine,
     Box(AnalysisText) + Mark(evidenceCount >= 2), Box(ConflictText) + Mark(conflictsTicked), ConclusionLine]
  }

  const Footer := ["", "---", Disclaimer]

  /** The summary down to the conflicts: the head, the numbered evidence and the conflicts section. */
  function Opening(question: string, conclusion: string, evs: seq<string>, confidence: int, cs: seq<string>): (r: seq<string>)
    ensures |r| == 11 + |evs| + |Section(ConflictsHeading, cs)|
  {
    Head(question, conclusion, confidence) + EvidenceLines(evs) + Section(ConflictsHeading, cs)
  }

  /** The summary from the checklist on: the checklist, the next-steps section and the footer. */
  function Closing(confidence: int, evidenceCount: int, conflictsTicked: bool, ss: seq<string>): (r: seq<string>)
    ensures |r| == 10 + |Section(StepsHeading, ss)|
  {
    Checklist(confidence, evidenceCount, conflictsTicked) + Section(StepsHeading, ss) + Footer
  }

  /** The summary's lines, the evidence and lists already split. */
  function SummaryLines(question: string, conclusion: string, evs: seq<string>, confidence: int, cs: seq<string>,
                        conflictsTicked: bool, ss: seq<string>): seq<string>
  {
    Opening(question, conclusion, evs, confidence, cs) + Closing(confidence, |evs|, conflictsTicked, ss)
  }

  /** The conflict-resolution box is ticked when there are no conflicts or conflicts text was given. */
  function ConflictsTicked(conflicts: Option<string>): bool
  {
    OptionalPieces(conflicts) == [] || StrTruthy(conflicts)
  }

  /** `generate_proof_summary` */
  function ProofSummary(question: string, conclusion: string, evidence: string, confidence: int,
                        conflicts: Option<string>, nextSteps: Option<string>): (r: string)
    ensures IsPrefix(SummaryTitle, r) && IsSuffix(Disclaimer, r)
    ensures Contains(r, question) && Contains(r, conclusion)
    ensures forall i :: 0 <= i < |Pieces(evidence, ';')| ==> Contains(r, ItemLine(i + 1, Pieces(evidence, ';')[i]))
  {
    var evs, cs, ss := Pieces(evidence, ';'), OptionalPieces(conflicts), OptionalPieces(nextSteps);
    var lines := SummaryLines(question, conclusion, evs, confidence, cs, ConflictsTicked(conflicts), ss);
    SummaryFront(question, conclusion, evs, confidence, cs, ConflictsTicked(conflicts), ss);
    SummaryLast(question, conclusion, evs, confidence, cs, ConflictsTicked(conflicts), ss);
    JoinHead("\n", lines);
    JoinLast("\n", lines);
    JoinShowsLines("\n", lines);
    Join("\n", lines)
  }

  /** The summary opens with its title, has the question and conclusion in the head, and closes with the disclaimer. */
  lemma SummaryLast(question: string, conclusion: string, evs: seq<string>, confidence: int, cs: seq<string>,
                    conflictsTicked: bool, ss: seq<string>)
    ensures var lines := SummaryLines(question, conclusion, evs, confidence, cs, conflictsTicked, ss);
      |lines| > 11 && lines[0] == SummaryTitle && lines[3] == question && lines[6] == conclusion
      && lines[|lines| - 1] == Disclaimer
  {
    var o, z := Opening(question, conclusion, evs, confidence, cs), Closing(confidence, |evs|, conflictsTicked, ss);
    var h := Head(question, conclusion, confidence);
    assert o[..11] == h;
    assert (o + z)[..11] == o[..11];
    assert z[|z| - 1] == Footer[2];
  }

  /** Every line appears in the joined text. */
  lemma JoinShowsLines(sep: string, lines: seq<string>)
    ensures forall i :: 0 <= i < |lines| ==> Contains(Join(sep, lines), lines[i])
  {
    forall i | 0 <= i < |lines| ensures Contains(Join(sep, lines), lines[i]) {
      JoinContains(sep, lines, i);
    }
  }

  /** The evidence items follow the head, numbered from 1, and then the conflicts section when there are conflicts. */
  lemma OpeningLayout(question: string, conclusion: string, evs: seq<string>, confidence: int, cs: seq<string>)
    ensures var o := Opening(question, conclusion, evs, confidence, cs);
      && (forall i :: 0 <= i < |evs| ==> o[11 + i] == ItemLine(i + 1, evs[i]))
      && (cs != [] ==> o[12 + |evs|] == ConflictsHeading && forall i :: 0 <= i < |cs| ==> o[13 + |evs| + i] == Bullet(cs[i]))
  {
    EvidenceAfterHead(Head(question, conclusion, confidence), EvidenceLines(evs), Section(ConflictsHeading, cs));
    ConflictsAfterEvidence(Head(question, conclusion, confidence) + EvidenceLines(evs), evs, cs);
  }

  /** The conflicts section, when there are conflicts, follows the head and the evidence. */
  lemma ConflictsAfterEvidence(he: seq<string>, evs: seq<string>, cs: seq<string>)
    requires |he| == 11 + |evs|
    ensures cs != [] ==> (he + Section(ConflictsHeading, cs))[12 + |evs|] == ConflictsHeading
    ensures cs != [] ==> forall i :: 0 <= i < |cs| ==> (he + Section(ConflictsHeading, cs))[13 + |evs| + i] == Bullet(cs[i])
  {
    if cs != [] {
      HeadingAfter(he, ConflictsHeading, cs);
      BulletsAfter(he, cs, 13 + |evs|);
    }
  }

  /** A section's heading follows its blank line. */
  lemma HeadingAfter(before: seq<string>, heading: string, items: seq<string>)
    requires items != []
    ensures (before + Section(heading, items))[|before| + 1] == heading
  {
    AppendAt(before, Section(heading, items), 1);
  }

  /** A section's bullets follow its blank line and heading. */
  lemma BulletsAfter(before: seq<string>, items: seq<string>, n: int)
    requires items != [] && n == |before| + 2
    ensures forall i :: 0 <= i < |items| ==> (before + Section(ConflictsHeading, items))[n + i] == Bullet(items[i])
  {
    var c := Section(ConflictsHeading, items);
    forall i | 0 <= i < |items|
      ensures (before + c)[n + i] == Bullet(items[i])
    {
      AppendAt(before, c, 2 + i);
    }
  }

  /** The evidence lines follow the head's eleven lines. */
  lemma EvidenceAfterHead(h: seq<string>, e: seq<string>, c: seq<string>)
    requires |h| == 11
    ensures forall i :: 0 <= i < |e| ==> (h + e + c)[11 + i] == e[i]
  {
    forall i | 0 <= i < |e|
      ensures (h + e + c)[11 + i] == e[i]
    {
      AppendAt(h, e, i);
      Prefixed(h + e, c, 11 + i);
    }
  }

  /**
   * The checklist comes first, with research ticked exactly from confidence 4, analysis
   * exactly from two items of evidence and conflict resolution exactly as asked; then the
   * next-steps section when there are steps, and the disclaimer last.
   */
  lemma ClosingLayout(confidence: int, evidenceCount: int, conflictsTicked: bool, ss: seq<string>)
    ensures var z := Closing(confidence, evidenceCount, conflictsTicked, ss);
      && z[1] == ChecklistHeading
      && (Ticked(z[2]) <==> confidence >= 4)
      && z[3] == CitationsLine
      && (Ticked(z[4]) <==> evidenceCount >= 2)
      && (Ticked(z[5]) <==> conflictsTicked)
      && z[6] == ConclusionLine
      && (ss != [] ==> z[8] == StepsHeading && forall i :: 0 <= i < |ss| ==> z[9 + i] == Bullet(ss[i]))
      && z[|z| - 1] == Disclaimer
  {
    var l, s := Checklist(confidence, evidenceCount, conflictsTicked), Section(StepsHeading, ss);
    ChecklistFirst(l, s);
    ChecklistTicks(confidence, evidenceCount, conflictsTicked);
    if ss != [] {
      StepsHeadingAt(l, ss);
      StepBulletsAt(l, ss);
    }
    AppendAt(l + s, Footer, 2);
  }

  /** The next-steps heading is the second line after the checklist. */
  lemma StepsHeadingAt(l: seq<string>, ss: seq<string>)
    requires |l| == 7 && ss != []
    ensures (l + Section(StepsHeading, ss) + Footer)[8] == StepsHeading
  {
    var s := Section(StepsHeading, ss);
    AppendAt(l, s, 1);
    Prefixed(l + s, Footer, 8);
  }

  /** The next-steps bullets follow the heading. */
  lemma StepBulletsAt(l: seq<string>, ss: seq<string>)
    requires |l| == 7 && ss != []
    ensures forall i :: 0 <= i < |ss| ==> (l + Section(StepsHeading, ss) + Footer)[9 + i] == Bullet(ss[i])
  {
    var s := Section(StepsHeading, ss);
    StepsAfterChecklist(l, s);
    forall i | 0 <= i < |ss|
      ensures (l + s + Footer)[9 + i] == Bullet(ss[i])
    {
      assert s[2..][i] == s[2 + i];
    }
  }

  /** The checklist's seven lines open the closing part. */
  lemma ChecklistFirst(l: seq<string>, s: seq<string>)
    requires |l| == 7
    ensures forall j :: 0 <= j < 7 ==> (l + s + Footer)[j] == l[j]
  {
    forall j | 0 <= j < 7
      ensures (l + s + Footer)[j] == l[j]
    {
      Prefixed(l, s, j);
      Prefixed(l + s, Footer, j);
    }
  }

  /** The next-steps section follows the checklist's seven lines. */
  lemma StepsAfterChecklist(l: seq<string>, s: seq<string>)
    requires |l| == 7
    ensures forall i :: 0 <= i < |s| ==> (l + s + Footer)[7 + i] == s[i]
  {
    forall i | 0 <= i < |s|
      ensures (l + s + Footer)[7 + i] == s[i]
    {
      AppendAt(l, s, i);
      Prefixed(l + s, Footer, 7 + i);
    }
  }

  /** The checklist's boxes: each of the three conditional ones is ticked exactly when its condition holds. */
  lemma ChecklistTicks(confidence: int, evidenceCount: int, conflictsTicked: bool)
    ensures var l := Checklist(confidence, evidenceCount, conflictsTicked);
      && (Ticked(l[2]) <==> confidence >= 4)
      && l[3] == CitationsLine
      && (Ticked(l[4]) <==> evidenceCount >= 2)
      && (Ticked(l[5]) <==> conflictsTicked)
      && l[6] == ConclusionLine
  {
    TickedBox(ExhaustiveText, confidence >= 4);
    TickedBox(AnalysisText, evidenceCount >= 2);
    TickedBox(ConflictText, conflictsTicked);
  }

  /** An element past the front of a concatenation is the back's. */
  lemma AppendAt<T>(a: seq<T>, b: seq<T>, i: nat)
    requires i < |b|
    ensures (a + b)[|a| + i] == b[i]
  {
  }

  /** An element within the front of a concatenation is the front's. */
  lemma Prefixed<T>(a: seq<T>, b: seq<T>, i: nat)
    requires i < |a|
    ensures (a + b)[i] == a[i]
  {
  }

  /**
   * The layout: evidence numbered from 1 after the heading, the conflicts section only when
   * there are conflicts, then the checklist, the next-steps section only when there are
   * steps, and the footer last.
   */
  lemma SummaryLayout(question: string, conclusion: string, evs: seq<string>, confidence: int, cs: seq<string>,
                      conflictsTicked: bool, ss: seq<string>)
    ensures var lines := SummaryLines(question, conclusion, evs, confidence, cs, conflictsTicked, ss);
      var k := 11 + |evs| + |Section(ConflictsHeading, cs)|;
      && |lines| == k + 7 + |Section(StepsHeading, ss)| + 3
      && (forall i :: 0 <= i < |evs| ==> lines[11 + i] == ItemLine(i + 1, evs[i]))
      && (cs != [] ==> lines[12 + |evs|] == ConflictsHeading && forall i :: 0 <= i < |cs| ==> lines[13 + |evs| + i] == Bullet(cs[i]))
      && lines[k + 1] == ChecklistHeading
      && (ss != [] ==> lines[k + 8] == StepsHeading && forall i :: 0 <= i < |ss| ==> lines[k + 9 + i] == Bullet(ss[i]))
      && lines[|lines| - 1] == Disclaimer
  {
    SummaryFront(question, conclusion, evs, confidence, cs, conflictsTicked, ss);
    SummaryBack(question, conclusion, evs, confidence, cs, conflictsTicked, ss);
  }

  /** The summary's lines up to the checklist are the opening part's. */
  lemma SummaryFront(question: string, conclusion: string, evs: seq<string>, confidence: int, cs: seq<string>,
                     conflictsTicked: bool, ss: seq<string>)
    ensures var lines := SummaryLines(question, conclusion, evs, confidence, cs, conflictsTicked, ss);
      && (forall i :: 0 <= i < |evs| ==> lines[11 + i] == ItemLine(i + 1, evs[i]))
      && (cs != [] ==> lines[12 + |evs|] == ConflictsHeading && forall i :: 0 <= i < |cs| ==> lines[13 + |evs| + i] == Bullet(cs[i]))
  {
    var o, z := Opening(question, conclusion, evs, confidence, cs), Closing(confidence, |evs|, conflictsTicked, ss);
    OpeningLayout(question, conclusion, evs, confidence, cs);
    forall i | 0 <= i < |o|
      ensures (o + z)[i] == o[i]
    {
      Prefixed(o, z, i);
    }
  }

  /** The summary's lines from the checklist on are the closing part's. */
  lemma SummaryBack(question: string, conclusion: string, evs: seq<string>, confidence: int, cs: seq<string>,
                    conflictsTicked: bool, ss: seq<string>)
    ensures var lines := SummaryLines(question, conclusion, evs, confidence, cs, conflictsTicked, ss);
      var k := 11 + |evs| + |Section(ConflictsHeading, cs)|;
      && |lines| == k + 7 + |Section(StepsHeading, ss)| + 3
      && lines[k + 1] == ChecklistHeading
      && (ss != [] ==> lines[k + 8] == StepsHeading && forall i :: 0 <= i < |ss| ==> lines[k + 9 + i] == Bullet(ss[i]))
      && lines[|lines| - 1] == Disclaimer
  {
    var o, z := Opening(question, conclusion, evs, confidence, cs), Closing(confidence, |evs|, conflictsTicked, ss);
    ClosingLayout(confidence, |evs|, conflictsTicked, ss);
    forall j | 0 <= j < |z|
      ensures (o + z)[|o| + j] == z[j]
    {
      AppendAt(o, z, j);
    }
  }

  /**
   * The checklist marks in the summary: research is ticked exactly from confidence 4 and
   * analysis exactly from two items of evidence; conflict resolution is always ticked,
   * because conflicts are listed only when their text was given.
   */
  lemma ChecklistMarks(question: string, conclusion: string, evs: seq<string>, confidence: int, conflicts: Option<string>,
                       ss: seq<string>)
    ensures var cs := OptionalPieces(conflicts);
      var lines := SummaryLines(question, conclusion, evs, confidence, cs, ConflictsTicked(conflicts), ss);
      var k := 11 + |evs| + |Section(ConflictsHeading, cs)|;
      |lines| > k + 6
      && (Ticked(lines[k + 2]) <==> confidence >= 4)
      && lines[k + 3] == CitationsLine
      && (Ticked(lines[k + 4]) <==> |evs| >= 2)
      && Ticked(lines[k + 5])
      && lines[k + 6] == ConclusionLine
  {
    var cs := OptionalPieces(conflicts);
    var o, z := Opening(question, conclusion, evs, confidence, cs), Closing(confidence, |evs|, ConflictsTicked(conflicts), ss);
    assert ConflictsTicked(conflicts);
    ClosingLayout(confidence, |evs|, ConflictsTicked(conflicts), ss);
    forall j | 0 <= j < 7
      ensures (o + z)[|o| + j] == z[j]
    {
      AppendAt(o, z, j);
    }
  }

  /** Appends the numbered evidence items, one per loop step. */
  method AppendEvidence(lines: seq<string>, evs: seq<string>) returns (out: seq<string>)
    ensures out == lines + EvidenceLines(evs)
  {
    out := lines;
    for i := 0 to |evs|
      invariant out == lines + EvidenceLines(evs[..i])
    {
      EvidenceSnoc(evs, i);
      out := out + [ItemLine(i + 1, evs[i])];
    }
    assert evs[..|evs|] == evs;
  }

  /** Appends one bullet per item, one per loop step. */
  method AppendBullets(lines: seq<string>, items: seq<string>) returns (out: seq<string>)
    ensures out == lines + MapSeq(items, Bullet)
  {
    out := lines;
    for i := 0 to |items|
      invariant out == lines + MapSeq(items[..i], Bullet)
    {
      MapSnoc(items, Bullet, i);
      out := out + [Bullet(items[i])];
    }
    assert items[..|items|] == items;
  }

  /** Appends a section when it has items: the blank line, the heading, then the bullets. */
  method AppendSection(lines: seq<string>, heading: string, items: seq<string>) returns (out: seq<string>)
    ensures out == lines + Section(heading, items)
  {
    out := lines;
    if items != [] {
      out := AppendBullets(lines + ["", heading], items);
      AppendAssoc(lines, ["", heading], MapSeq(items, Bullet));
    }
  }

  /** `generate_proof_summary`, building its lines step by step. */
  method GenerateProofSummary(question: string, conclusion: string, evidence: string, confidence: int,
                              conflicts: Option<string>, nextSteps: Option<string>) returns (r: string)
    ensures r == ProofSummary(question, conclusion, evidence, confidence, conflicts, nextSteps)
  {
    var evs := Pieces(evidence, ';');
    var cs := OptionalPieces(conflicts);
    var ss := OptionalPieces(nextSteps);
    var lines := AppendEvidence(Head(question, conclusion, confidence), evs);
    lines := AppendSection(lines, ConflictsHeading, cs);
    ghost var opening := lines;
    var checklist := Checklist(confidence, |evs|, cs == [] || StrTruthy(conflicts));
    lines := lines + checklist;
    lines := AppendSection(lines, StepsHeading, ss);
    lines := lines + Footer;
    ClosingAppended(opening, checklist, Section(StepsHeading, ss));
    r := Join("\n", lines);
  }

  /** Appending the closing parts one after another appends the closing part. */
  lemma ClosingAppended(opening: seq<string>, checklist: seq<string>, steps: seq<string>)
    ensures opening + checklist + steps + Footer == opening + (checklist + steps + Footer)
  {
    AppendAssoc(opening, checklist, steps);
    AppendAssoc(opening, checklist + steps, Footer);
  }

  // ---------------------------------------------------------------------------------------
  // Research log entry
  // ---------------------------------------------------------------------------------------

  const Cross := "\U{2717}"
  const Unsure := "?"
  const NegativeNote := "*" + "Note: Negative result documented per GPS requirements." + "*"

  /** `result_emoji.get(result, '?')` */
  function ResultSymbol(result: string): (r: string)
    ensures r == Tick <==> result == "positive"
    ensures r == Cross <==> result == "negative"
    ensures r == Unsure <==> result != "positive" && result != "negative"
  {
    if result == "positive" then Tick else if result == "negative" then Cross else Unsure
  }

  /** The entry's lines: the repository heading, the search, the result, the details and the level, then a blank line and, for a negative result, the note. */
  function EntryLines(repository: string, searchDescription: string, result: string, resultDescription: string,
                      sourceLevel: string): (r: seq<string>)
    ensures |r| == 6 + Count(result == "negative")
    ensures IsSuffix(Upper(result), r[2]) && IsSuffix(Upper(sourceLevel), r[4])
    ensures r[|r| - 1] == NegativeNote <==> result == "negative"
  {
    assert NegativeNote[0] == '*';
    ["### " + repository, "**Search:** " + searchDescription, "**Result:** " + ResultSymbol(result) + " " + Upper(result),
     "**Details:** " + resultDescription, "**Source Level:** " + Upper(sourceLevel), ""]
    + (if result == "negative" then [NegativeNote] else [])
  }

  /** `format_research_log_entry` */
  function ResearchLogEntry(repository: string, searchDescription: string, result: string, resultDescription: string,
                            sourceLevel: string): (r: string)
    ensures result == "negative" <==> IsSuffix(NegativeNote, r) && !IsSuffix("\n", r)
  {
    var lines := EntryLines(repository, searchDescription, result, resultDescription, sourceLevel);
    JoinLast("\n", lines);
    assert NegativeNote[|NegativeNote| - 1] == '*';
    if result != "negative" then
      assert lines[|lines| - 1] == "";
      JoinTrailing(lines);
      Join("\n", lines)
    else
      Join("\n", lines)
  }

  /** A joined text whose last part is empty ends with the separator. */
  lemma JoinTrailing(lines: seq<string>)
    requires |lines| >= 2 && lines[|lines| - 1] == ""
    ensures IsSuffix("\n", Join("\n", lines))
  {
    var init := lines[..|lines| - 1];
    JoinSnoc("\n", init, "");
    assert init + [""] == lines;
  }

  // ---------------------------------------------------------------------------------------
  // Evidence table
  // ---------------------------------------------------------------------------------------

  const TableHeading := ["## Evidence Analysis", "", "| Source | Information | Classification | Quality |",
                         "|--------|-------------|----------------|---------|"]

  /** `[p.strip() for p in row.split("|")]` */
  function Cells(row: string): (r: seq<string>)
    ensures |r| == |Split(row, '|')| && forall k :: 0 <= k < |r| ==> r[k] == Strip(Split(row, '|')[k])
  {
    MapSeq(Split(row, '|'), Strip)
  }

  /** A cell between its bars, with one space on either side. */
  function Pad(x: string): string
  {
    " " + x + " "
  }

  /** `f"| {a} | {b} | {c} | {d} |"`: the padded cells between bars. */
  function TableRow(a: string, b: string, c: string, d: string): string
  {
    Join("|", Padded(a, b, c, d))
  }

  /** The parts of a table line between its bars: empty ones outside, the padded cells inside. */
  function Padded(a: string, b: string, c: string, d: string): seq<string>
  {
    ["", Pad(a), Pad(b), Pad(c), Pad(d), ""]
  }

  /** A row's table line: its first four cells, a `-` for a missing fourth, nothing for fewer than three. */
  function RowLine(row: string): (r: Option<string>)
    ensures r.Some? <==> |Cells(row)| >= 3
  {
    var p := Cells(row);
    if |p| >= 4 then Some(TableRow(p[0], p[1], p[2], p[3]))
    else if |p| == 3 then Some(TableRow(p[0], p[1], p[2], "-"))
    else None
  }

  /** The table lines of the rows, in order. */
  function TableBody(rows: seq<string>): (r: seq<string>)
    ensures |r| <= |rows|
  {
    if rows == [] then []
    else
      var last := RowLine(rows[|rows| - 1]);
      TableBody(rows[..|rows| - 1]) + (if last.Some? then [last.value] else [])
  }

  /** A row with at least three cells gets a line. */
  predicate Wide(row: string)
  {
    |Cells(row)| >= 3
  }

  /** One line per row with at least three cells, and none for the others. */
  lemma {:induction false} TableBodyCount(rows: seq<string>)
    ensures |TableBody(rows)| == |Filter(rows, Wide)|
    decreases |rows|
  {
    if rows != [] {
      TableBodyCount(rows[..|rows| - 1]);
    }
  }

  /** The body's k-th line is the table line of the k-th row with at least three cells: wide rows keep their order and
      every other row is skipped. */
  lemma {:induction false} TableBodyRows(rows: seq<string>)
    ensures |TableBody(rows)| == |Filter(rows, Wide)|
    ensures forall k :: 0 <= k < |TableBody(rows)| ==>
      RowLine(Filter(rows, Wide)[k]).Some? && TableBody(rows)[k] == RowLine(Filter(rows, Wide)[k]).value
    decreases |rows|
  {
    TableBodyCount(rows);
    if rows != [] {
      var init := rows[..|rows| - 1];
      TableBodyRows(init);
      TableBodyCount(init);
      var b := TableBody(rows);
      var w := Filter(rows, Wide);
      forall k | 0 <= k < |b| ensures RowLine(w[k]).Some? && b[k] == RowLine(w[k]).value {
        if k < |TableBody(init)| {
          assert b[k] == TableBody(init)[k] && w[k] == Filter(init, Wide)[k];
        }
      }
    }
  }

  /** The body lines are the table lines of the rows with at least three cells, in order. */
  ghost predicate WideLines(rows: seq<string>, body: seq<string>)
  {
    && |body| == |Filter(rows, Wide)|
    && forall k :: 0 <= k < |body| ==> RowLine(Filter(rows, Wide)[k]).Some? && body[k] == RowLine(Filter(rows, Wide)[k]).value
  }

  /** `generate_evidence_table` */
  function EvidenceTable(evidenceRows: string): (r: string)
    ensures exists body :: r == Join("\n", TableHeading + body) && WideLines(Pieces(evidenceRows, ';'), body)
  {
    var rows := Pieces(evidenceRows, ';');
    TableBodyRows(rows);
    assert WideLines(rows, TableBody(rows));
    Join("\n", TableHeading + TableBody(rows))
  }

  /** `generate_evidence_table`, one row per loop step. */
  method GenerateEvidenceTable(evidenceRows: string) returns (r: string)
    ensures r == EvidenceTable(evidenceRows)
  {
    var rows := Pieces(evidenceRows, ';');
    var lines := TableLines(rows);
    r := Join("\n", lines);
  }

  /** The table's lines: the heading, then one line per wide row, appended one row per loop step. */
  method TableLines(rows: seq<string>) returns (lines: seq<string>)
    ensures lines == TableHeading + TableBody(rows)
  {
    lines := TableHeading;
    AppendNothing(TableHeading, rows);
    for i := 0 to |rows|
      invariant lines == TableHeading + TableBody(rows[..i])
    {
      TableBodySnoc(rows, i);
      var line := RowLine(rows[i]);
      if line.Some? {
        AppendAssoc(TableHeading, TableBody(rows[..i]), [line.value]);
        lines := lines + [line.value];
      }
    }
    PrefixAll(rows);
  }

  /** Before the first row the table is its heading. */
  lemma AppendNothing(heading: seq<string>, rows: seq<string>)
    ensures heading + TableBody(rows[..0]) == heading
  {
    assert rows[..0] == [];
  }

  /** One more row adds its line, if it has one, to the end of the table body. */
  lemma TableBodySnoc(rows: seq<string>, i: nat)
    requires i < |rows|
    ensures var line := RowLine(rows[i]);
      TableBody(rows[..i + 1]) == TableBody(rows[..i]) + (if line.Some? then [line.value] else [])
  {
    PrefixPrefix(rows, i);
  }

  /** A string without whitespace at its ends is what stripping it between two spaces gives back. */
  lemma PaddedStrip(a: string)
    requires Trimmed(a)
    ensures Strip(Pad(a)) == a
  {
    LStripPad(a);
    if a != [] {
      RStripSpace(a);
    }
  }

  /** Left-stripping a padded string drops the leading space, and the trailing one too when nothing is between. */
  lemma LStripPad(a: string)
    requires a == [] || !IsSpace(a[0])
    ensures LStrip(Pad(a)) == if a == [] then [] else a + " "
  {
    SpaceIsSpace();
    var x := Pad(a);
    assert x[0] == ' ' && x[1..] == a + " ";
    assert LStrip(x) == LStrip(a + " ");
    if a == [] {
      LStripSpace();
    } else {
      LStripWord(a);
    }
  }

  /** A lone space strips to nothing. */
  lemma LStripSpace()
    ensures LStrip(" ") == []
  {
    SpaceIsSpace();
    var y := " ";
    assert y[1..] == [];
  }

  /** A string starting with a non-space is left alone by left-stripping. */
  lemma LStripWord(a: string)
    requires a != [] && !IsSpace(a[0])
    ensures LStrip(a + " ") == a + " "
  {
    assert (a + " ")[0] == a[0];
  }

  /** Right-stripping a string that ends in a non-space after one added space gives the string. */
  lemma RStripSpace(a: string)
    requires a != [] && !IsSpace(a[|a| - 1])
    ensures RStrip(a + " ") == a
  {
    SpaceIsSpace();
    var x := a + " ";
    assert x[..|x| - 1] == a;
  }

  /** Stripping keeps a character out when it was not there. */
  lemma StripWithout(s: string, c: char)
    requires c !in s
    ensures c !in Strip(s)
  {
    var l := LStrip(s);
    assert l == s[|s| - |l|..];
    assert RStrip(l) == l[..|RStrip(l)|];
  }

  /** A cell as a table holds it: stripped, so with no whitespace at either end, and free of bars. */
  predicate Clean(x: string)
  {
    Trimmed(x) && '|' !in x
  }

  /** A bar-free cell stays bar-free when padded. */
  lemma PadKeepsBars(x: string)
    requires '|' !in x
    ensures '|' !in Pad(x)
  {
  }

  /** Reading a table line's cells back gives the four cells between empty outer ones. */
  lemma TableRowCells(a: string, b: string, c: string, d: string)
    requires Clean(a) && Clean(b) && Clean(c) && Clean(d)
    ensures Cells(TableRow(a, b, c, d)) == ["", a, b, c, d, ""]
  {
    PaddedBarFree(a, b, c, d);
    CellsOfJoin(Padded(a, b, c, d));
    StrippedPadded(a, b, c, d);
  }

  /** No part of a table line holds a bar when no cell does. */
  lemma PaddedBarFree(a: string, b: string, c: string, d: string)
    requires '|' !in a && '|' !in b && '|' !in c && '|' !in d
    ensures forall k :: 0 <= k < |Padded(a, b, c, d)| ==> '|' !in Padded(a, b, c, d)[k]
  {
    var padded := Padded(a, b, c, d);
    forall k | 0 <= k < |padded|
      ensures '|' !in padded[k]
    {
      if k == 1 {
        PadKeepsBars(a);
      } else if k == 2 {
        PadKeepsBars(b);
      } else if k == 3 {
        PadKeepsBars(c);
      } else if k == 4 {
        PadKeepsBars(d);
      }
    }
  }

  /** Stripping the parts of a table line gives back its cells. */
  lemma StrippedPadded(a: string, b: string, c: string, d: string)
    requires Clean(a) && Clean(b) && Clean(c) && Clean(d)
    ensures MapSeq(Padded(a, b, c, d), Strip) == ["", a, b, c, d, ""]
  {
    PaddedStrip(a);
    PaddedStrip(b);
    PaddedStrip(c);
    PaddedStrip(d);
    StripIdentity("");
    MapSix(Strip, "", Pad(a), Pad(b), Pad(c), Pad(d), "", "", a, b, c, d, "");
  }

  /** The cells of bar-free parts joined by bars are the stripped parts. */
  lemma CellsOfJoin(parts: seq<string>)
    requires |parts| >= 1 && forall k :: 0 <= k < |parts| ==> '|' !in parts[k]
    ensures Cells(Join("|", parts)) == MapSeq(parts, Strip)
  {
    SplitOfJoin(parts, '|');
  }

  /** Mapping a six-element display maps each element. */
  lemma MapSix<S, T>(f: S -> T, x0: S, x1: S, x2: S, x3: S, x4: S, x5: S, y0: T, y1: T, y2: T, y3: T, y4: T, y5: T)
    requires f(x0) == y0 && f(x1) == y1 && f(x2) == y2 && f(x3) == y3 && f(x4) == y4 && f(x5) == y5
    ensures MapSeq([x0, x1, x2, x3, x4, x5], f) == [y0, y1, y2, y3, y4, y5]
  {
    var r := MapSeq([x0, x1, x2, x3, x4, x5], f);
    assert r[0] == y0 && r[1] == y1 && r[2] == y2 && r[3] == y3 && r[4] == y4 && r[5] == y5;
  }

  /** A part of a split row is clean once stripped. */
  lemma CellClean(part: string)
    requires '|' !in part
    ensures Clean(Strip(part))
  {
    StripWithout(part, '|');
  }

  /** A table line reads back as the row's first three cells and its fourth cell or `-`. */
  lemma RowLineReadBack(row: string)
    requires Wide(row)
    ensures var p := Cells(row);
      Cells(RowLine(row).value) == ["", p[0], p[1], p[2], if |p| >= 4 then p[3] else "-", ""]
  {
    var p := Cells(row);
    CellsClean(row);
    if |p| >= 4 {
      TableRowCells(p[0], p[1], p[2], p[3]);
    } else {
      DashClean();
      TableRowCells(p[0], p[1], p[2], "-");
    }
  }

  /** Every cell of a row is clean. */
  lemma CellsClean(row: string)
    ensures forall k :: 0 <= k < |Cells(row)| ==> Clean(Cells(row)[k])
  {
    forall k | 0 <= k < |Cells(row)|
      ensures Clean(Cells(row)[k])
    {
      CellClean(Split(row, '|')[k]);
    }
  }

  /** The filler for a missing fourth cell is clean. */
  lemma DashClean()
    ensures Clean("-")
  {
    PrintableNotSpace('-');
  }
}
