/**
 * The citations plugin: Evidence Explained style citations for vital records and online
 * databases, bibliography entries, and the keyword classification of a source as primary,
 * secondary or tertiary.
 */
module CitationsPlugin {
  import opened Wrappers
  import opened Text
  import opened Models

  // ---------------------------------------------------------------------------------------
  // Vital records
  // ---------------------------------------------------------------------------------------

  const CitationHeading := "**Citation:**\n"
  const AccessedVia := "; accessed via "

  /** The citation up to the repository: jurisdiction, register, date, person and repository. */
  function VitalBase(recordType: string, jurisdiction: string, date: string, personName: string, repository: string): string
  {
    jurisdiction + ", " + Title(recordType) + " Register, " + date + ", entry for " + personName + "; " + repository
  }

  /** The access clause, written only when access information is given (a non-empty string). */
  function AccessClause(accessInfo: Option<string>): string
  {
    if StrTruthy(accessInfo) then AccessedVia + accessInfo.value else ""
  }

  /** `format_vital_record_citation`: the heading, then the citation, which always ends with a full stop. */
  function VitalRecordCitation(recordType: string, jurisdiction: string, date: string, personName: string,
                               repository: string, accessInfo: Option<string>): (r: string)
    ensures IsPrefix(CitationHeading + jurisdiction + ", ", r)
    ensures |r| > 0 && r[|r| - 1] == '.'
  {
    CitationHeading + VitalBase(recordType, jurisdiction, date, personName, repository) + AccessClause(accessInfo) + "."
  }

  /**
   * The access clause is the only difference access information makes: an empty string counts
   * as none, and a non-empty one inserts `; accessed via` and the text just before the final
   * full stop of the citation without it.
   */
  lemma VitalAccessClause(recordType: string, jurisdiction: string, date: string, personName: string,
                          repository: string, access: string)
    ensures VitalRecordCitation(recordType, jurisdiction, date, personName, repository, Some(""))
         == VitalRecordCitation(recordType, jurisdiction, date, personName, repository, None)
    ensures access != "" ==>
      var without := VitalRecordCitation(recordType, jurisdiction, date, personName, repository, None);
      VitalRecordCitation(recordType, jurisdiction, date, personName, repository, Some(access))
        == without[..|without| - 1] + AccessedVia + access + "."
  {
    var base := CitationHeading + VitalBase(recordType, jurisdiction, date, personName, repository);
    var without := VitalRecordCitation(recordType, jurisdiction, date, personName, repository, None);
    assert without == base + ".";
    assert without[..|without| - 1] == base;
  }

  /** The register name is title-cased, so the case in which the record type is given does not matter. */
  lemma VitalRecordTypeCase(recordType: string, jurisdiction: string, date: string, personName: string,
                            repository: string, accessInfo: Option<string>)
    ensures VitalRecordCitation(Lower(recordType), jurisdiction, date, personName, repository, accessInfo)
         == VitalRecordCitation(recordType, jurisdiction, date, personName, repository, accessInfo)
  {
    TitleOfLower(recordType);
  }

  // ---------------------------------------------------------------------------------------
  // Online databases
  // ---------------------------------------------------------------------------------------

  const LabelOpen := "**Citation ("
  const LabelClose := "):**\n"
  const TertiaryLabel := "TERTIARY"
  const CitingPrimaryLabel := "SECONDARY (citing primary)"
  const Citing := "; citing "

  /** The labelled heading `**Citation (label):**`. */
  function LabelledHeading(name: string): (r: string)
    ensures IsPrefix(LabelOpen, r) && |r| == |LabelOpen| + |name| + |LabelClose|
    ensures name != [] ==> r[|LabelOpen|] == name[0]
  {
    LabelOpen + name + LabelClose
  }

  /** The online citation's label: tertiary unless it cites an original source. */
  function OnlineLabel(originalSource: Option<string>): string
  {
    if StrTruthy(originalSource) then CitingPrimaryLabel else TertiaryLabel
  }

  /** The quoted record title, the database, the URL and the access date. */
  function OnlineBase(databaseName: string, recordTitle: string, url: string, accessDate: string): string
  {
    "\"" + recordTitle + ",\" " + databaseName + ", " + url + ", accessed " + accessDate
  }

  function CitingClause(originalSource: Option<string>): string
  {
    if StrTruthy(originalSource) then Citing + originalSource.value else ""
  }

  /** `format_online_database_citation`: the labelled heading, then the citation ending with a full stop. */
  function OnlineDatabaseCitation(databaseName: string, recordTitle: string, url: string, accessDate: string,
                                  originalSource: Option<string>): (r: string)
    ensures IsPrefix(LabelledHeading(OnlineLabel(originalSource)), r)
    ensures |r| > 0 && r[|r| - 1] == '.'
  {
    LabelledHeading(OnlineLabel(originalSource)) + OnlineBase(databaseName, recordTitle, url, accessDate)
      + CitingClause(originalSource) + "."
  }

  /** The citation is labelled TERTIARY exactly when no original source is given. */
  lemma TertiaryIffNoOriginal(databaseName: string, recordTitle: string, url: string, accessDate: string,
                              originalSource: Option<string>)
    ensures IsPrefix(LabelledHeading(TertiaryLabel), OnlineDatabaseCitation(databaseName, recordTitle, url, accessDate, originalSource))
        <==> !StrTruthy(originalSource)
  {
    var r := OnlineDatabaseCitation(databaseName, recordTitle, url, accessDate, originalSource);
    if StrTruthy(originalSource) {
      var t := LabelledHeading(TertiaryLabel);
      assert r[|LabelOpen|] == CitingPrimaryLabel[0] == 'S';
      assert t[|LabelOpen|] == TertiaryLabel[0] == 'T';
      assert r[..|t|][|LabelOpen|] == 'S';
    }
  }

  /**
   * An original source changes the label and adds `; citing` and the source just before the
   * final full stop; an empty original source counts as none.
   */
  lemma OnlineCitingClause(databaseName: string, recordTitle: string, url: string, accessDate: string, source: string)
    ensures OnlineDatabaseCitation(databaseName, recordTitle, url, accessDate, Some(""))
         == OnlineDatabaseCitation(databaseName, recordTitle, url, accessDate, None)
    ensures source != "" ==>
      var without := OnlineDatabaseCitation(databaseName, recordTitle, url, accessDate, None);
      OnlineDatabaseCitation(databaseName, recordTitle, url, accessDate, Some(source))
        == LabelledHeading(CitingPrimaryLabel) + without[|LabelledHeading(TertiaryLabel)|..|without| - 1] + Citing + source + "."
  {
    var head := LabelledHeading(TertiaryLabel);
    var base := OnlineBase(databaseName, recordTitle, url, accessDate);
    var without := OnlineDatabaseCitation(databaseName, recordTitle, url, accessDate, None);
    assert without == head + base + ".";
    assert without[|head|..|without| - 1] == base;
  }

  // ---------------------------------------------------------------------------------------
  // Bibliography entries
  // ---------------------------------------------------------------------------------------

  const BibliographyHeading := "**Bibliography Entry:**\n"

  /** `(accessed date).`, the part that follows the URL. */
  function AccessedPart(accessDate: string): string
  {
    "(accessed " + accessDate + ")."
  }

  /** The entry's parts: author, title, publication details, URL and access date, each only when given. */
  function BibliographyParts(author: Option<string>, title: string, publicationInfo: Option<string>,
                             url: Option<string>, accessDate: Option<string>): (parts: seq<string>)
    ensures |parts| == Count(StrTruthy(author)) + Count(title != "") + Count(StrTruthy(publicationInfo))
                       + Count(StrTruthy(url)) + Count(StrTruthy(url) && StrTruthy(accessDate))
    ensures StrTruthy(url) && StrTruthy(accessDate) ==> parts[|parts| - 1] == AccessedPart(accessDate.value)
    ensures StrTruthy(url) && !StrTruthy(accessDate) ==> parts[|parts| - 1] == "<" + url.value + ">"
  {
    (if StrTruthy(author) then [author.value + "."] else [])
    + (if title != "" then ["*" + title + "*."] else [])
    + (if StrTruthy(publicationInfo) then [publicationInfo.value + "."] else [])
    + (if StrTruthy(url) then ["<" + url.value + ">"] + (if StrTruthy(accessDate) then [AccessedPart(accessDate.value)] else [])
       else [])
  }

  /** `generate_bibliography_entry`: the heading, then the parts separated by single spaces. */
  function BibliographyEntry(author: Option<string>, title: string, publicationInfo: Option<string>,
                             url: Option<string>, accessDate: Option<string>): (r: string)
    ensures IsPrefix(BibliographyHeading, r)
  {
    BibliographyHeading + Join(" ", BibliographyParts(author, title, publicationInfo, url, accessDate))
  }

  /**
   * The access date is printed only together with a URL: without one it is ignored, and with
   * one it closes the entry.
   */
  lemma AccessDateNeedsUrl(author: Option<string>, title: string, publicationInfo: Option<string>,
                           url: Option<string>, accessDate: Option<string>)
    ensures !StrTruthy(url) ==>
      BibliographyEntry(author, title, publicationInfo, url, accessDate) == BibliographyEntry(author, title, publicationInfo, None, None)
    ensures StrTruthy(url) && StrTruthy(accessDate) ==>
      IsSuffix(AccessedPart(accessDate.value), BibliographyEntry(author, title, publicationInfo, url, accessDate))
    ensures StrTruthy(url) && !StrTruthy(accessDate) ==>
      IsSuffix("<" + url.value + ">", BibliographyEntry(author, title, publicationInfo, url, accessDate))
  {
    var parts := BibliographyParts(author, title, publicationInfo, url, accessDate);
    if StrTruthy(url) {
      JoinLast(" ", parts);
    } else {
      assert parts == BibliographyParts(author, title, publicationInfo, None, None);
    }
  }

  // ---------------------------------------------------------------------------------------
  // Source classification
  // ---------------------------------------------------------------------------------------

  const PrimaryKeywords: seq<string> := [
    "civil registration", "birth certificate", "marriage certificate",
    "death certificate", "parish register", "baptism", "burial",
    "census", "original", "military record", "naturalization",
    "passenger list", "will", "probate", "deed", "court record"]

  const SecondaryKeywords: seq<string> := [
    "transcription", "abstract", "published genealogy", "county history",
    "compiled", "derivative", "extract", "translation"]

  const TertiaryKeywords: seq<string> := [
    "ancestry tree", "familysearch tree", "user tree", "findagrave",
    "wikipedia", "geni", "myheritage tree", "index", "database",
    "geneanet tree", "hint", "suggestion"]

  /** The index of the first keyword at or after `i` that occurs in the text. */
  function FirstFrom(keys: seq<string>, text: string, i: nat): (r: Option<nat>)
    requires i <= |keys|
    ensures r.Some? ==> i <= r.value < |keys| && Contains(text, keys[r.value])
                        && forall j :: i <= j < r.value ==> !Contains(text, keys[j])
    ensures r.None? <==> forall j :: i <= j < |keys| ==> !Contains(text, keys[j])
    decreases |keys| - i
  {
    if i == |keys| then None
    else if Contains(text, keys[i]) then Some(i)
    else FirstFrom(keys, text, i + 1)
  }

  /** Some keyword of the list occurs in the text. */
  predicate Mentions(keys: seq<string>, text: string)
  {
    exists j :: 0 <= j < |keys| && Contains(text, keys[j])
  }

  /** A classification: the level and the keyword that decided it, or none. */
  datatype Classification = Classified(level: SourceLevel, keyword: string) | Unclassified

  /** The first hit among the keywords, if any, as a classification at the given level. */
  function Hit(keys: seq<string>, text: string, level: SourceLevel): Classification
  {
    match FirstFrom(keys, text, 0)
    case Some(i) => Classified(level, keys[i])
    case None => Unclassified
  }

  /**
   * The classification of a description, matched case-insensitively: primary keywords first,
   * then secondary, then tertiary; within a list the first keyword that occurs wins.
   */
  function Classify(description: string): (c: Classification)
    ensures c.Classified? ==> Contains(Lower(description), c.keyword) && c.keyword in KeywordsOf(c.level)
  {
    var low := Lower(description);
    var p := Hit(PrimaryKeywords, low, Primary);
    if p.Classified? then p
    else
      var s := Hit(SecondaryKeywords, low, Secondary);
      if s.Classified? then s else Hit(TertiaryKeywords, low, Tertiary)
  }

  /** The level is decided by the first list with a keyword in the description; with none, it is unclassified. */
  lemma ClassifyLevels(description: string)
    ensures var low, c := Lower(description), Classify(description);
      && (c == Unclassified <==>
            !Mentions(PrimaryKeywords, low) && !Mentions(SecondaryKeywords, low) && !Mentions(TertiaryKeywords, low))
      && (c.Classified? && c.level == Primary <==> Mentions(PrimaryKeywords, low))
      && (c.Classified? && c.level == Secondary <==> !Mentions(PrimaryKeywords, low) && Mentions(SecondaryKeywords, low))
      && (c.Classified? && c.level == Tertiary <==>
            !Mentions(PrimaryKeywords, low) && !Mentions(SecondaryKeywords, low) && Mentions(TertiaryKeywords, low))
  {
    var low := Lower(description);
    HitMentions(PrimaryKeywords, low, Primary);
    HitMentions(SecondaryKeywords, low, Secondary);
    HitMentions(TertiaryKeywords, low, Tertiary);
  }

  lemma HitMentions(keys: seq<string>, text: string, level: SourceLevel)
    ensures Hit(keys, text, level).Classified? <==> Mentions(keys, text)
    ensures Hit(keys, text, level).Classified? ==> Hit(keys, text, level).level == level
  {
    if Mentions(keys, text) {
      var j :| 0 <= j < |keys| && Contains(text, keys[j]);
      assert FirstFrom(keys, text, 0).Some?;
    }
  }

  /** The keyword reported occurs in the description and is the first of its list that does. */
  lemma ClassifiedKeyword(description: string)
    requires Classify(description).Classified?
    ensures var c := Classify(description); var keys := KeywordsOf(c.level);
      Contains(Lower(description), c.keyword)
      && exists i :: 0 <= i < |keys| && keys[i] == c.keyword && forall j :: 0 <= j < i ==> !Contains(Lower(description), keys[j])
  {
    var low, c := Lower(description), Classify(description);
    var keys := KeywordsOf(c.level);
    HitMentions(PrimaryKeywords, low, Primary);
    HitMentions(SecondaryKeywords, low, Secondary);
    assert Hit(keys, low, c.level) == c;
    var i := FirstFrom(keys, low, 0).value;
    assert keys[i] == c.keyword;
  }

  /** The keyword list of a level. */
  function KeywordsOf(level: SourceLevel): seq<string>
  {
    match level
    case Primary => PrimaryKeywords
    case Secondary => SecondaryKeywords
    case Tertiary => TertiaryKeywords
  }

  /** A census is primary even when the description also names an index, a tertiary keyword. */
  lemma CensusIsPrimary(description: string)
    requires Contains(Lower(description), "census")
    ensures Classify(description).Classified? && Classify(description).level == Primary
  {
    assert PrimaryKeywords[7] == "census";
    ClassifyLevels(description);
  }

  /** The first keyword of the list that occurs in the text, by a scan that stops at the first hit. */
  method FindKeyword(keys: seq<string>, text: string) returns (r: Option<nat>)
    ensures r == FirstFrom(keys, text, 0)
  {
    var i := 0;
    while i < |keys|
      invariant i <= |keys|
      invariant FirstFrom(keys, text, i) == FirstFrom(keys, text, 0)
    {
      if Contains(text, keys[i]) {
        return Some(i);
      }
      i := i + 1;
    }
    return None;
  }

  // The explanation texts.
  const ClassificationOpen := "**Classification: "
  const SourceLine := "\n\nSource: "
  const ReasonOpen := "\n\nReason: This appears to be a "
  const PrimaryLabel := "PRIMARY"
  const SecondaryLabel := "SECONDARY"
  const UnknownLabel := "UNKNOWN"
  const PrimaryNote :=
    "Primary sources were created at or near the time of the event by someone\nwith direct knowledge.\n\n"
    + "Note: Verify you have the original or a faithful image, not just an index."
  const SecondaryNote :=
    "Secondary sources are derived from primary sources and may contain\ntranscription errors or interpretations.\n\n"
    + "Note: Attempt to locate the original primary source for verification."
  const TertiaryNote :=
    "Tertiary sources include indexes, databases, and user-submitted trees.\n\n"
    + "WARNING: NEVER rely solely on tertiary sources. They must be verified\n"
    + "against primary sources. User trees are particularly unreliable."
  const UnknownNote :=
    "\n\nUnable to automatically classify this source.\n\nTo classify manually, consider:\n"
    + "- When was it created relative to the event?\n- Who created it? (Eyewitness, recorder, compiler?)\n"
    + "- Is it original or derived?\n\nGenerally:\n- PRIMARY: Created at/near event time by knowledgeable party\n"
    + "- SECONDARY: Compiled from or interpreting primary sources\n- TERTIARY: Indexes, databases, user trees"

  /** The label in the heading of a classification. */
  function LabelOf(c: Classification): (r: string)
    ensures r != []
  {
    match c
    case Classified(Primary, _) => PrimaryLabel
    case Classified(Secondary, _) => SecondaryLabel
    case Classified(Tertiary, _) => TertiaryLabel
    case Unclassified => UnknownLabel
  }

  function Heading(name: string): (r: string)
    ensures IsPrefix(ClassificationOpen, r) && |r| == |ClassificationOpen| + |name| + 2
    ensures name != [] ==> r[|ClassificationOpen|] == name[0]
  {
    ClassificationOpen + name + "**"
  }

  function NoteOf(level: SourceLevel): string
  {
    match level
    case Primary => PrimaryNote
    case Secondary => SecondaryNote
    case Tertiary => TertiaryNote
  }

  /** What follows the heading: the source, then the reason and its note, or the guidance for classifying by hand. */
  function Body(description: string, c: Classification): string
  {
    match c
    case Classified(level, keyword) =>
      SourceLine + description + ReasonOpen + level.Value() + " source ('" + keyword + "' detected).\n" + NoteOf(level)
    case Unclassified => SourceLine + description + UnknownNote
  }

  /** The explanation of a classification: the heading, the source, and the reason or the guidance. */
  function Explanation(description: string, c: Classification): (r: string)
    ensures IsPrefix(Heading(LabelOf(c)), r)
  {
    Heading(LabelOf(c)) + Body(description, c)
  }

  /** Headings whose labels start differently are not prefixes of each other's texts. */
  lemma HeadingsDiffer(a: string, b: string, rest: string)
    requires a != [] && b != [] && a[0] != b[0]
    ensures !IsPrefix(Heading(a), Heading(b) + rest)
  {
    var k := |ClassificationOpen|;
    assert (Heading(b) + rest)[k] == b[0];
    assert Heading(a)[k] == a[0];
  }

  /** The heading names the classification: no other label's heading begins the explanation. */
  lemma HeadingNamesClass(description: string, c: Classification, other: Classification)
    requires LabelOf(other) != LabelOf(c)
    ensures !IsPrefix(Heading(LabelOf(other)), Explanation(description, c))
  {
    assert PrimaryLabel[0] == 'P' && SecondaryLabel[0] == 'S' && TertiaryLabel[0] == 'T' && UnknownLabel[0] == 'U';
    HeadingsDiffer(LabelOf(other), LabelOf(c), Body(description, c));
  }

  /** One keyword list's loop: the classification at the first keyword found, if any. */
  method Scan(keys: seq<string>, text: string, level: SourceLevel) returns (c: Classification)
    ensures c == Hit(keys, text, level)
  {
    var i := FindKeyword(keys, text);
    c := if i.Some? then Classified(level, keys[i.value]) else Unclassified;
  }

  /** `classify_source`: the explanation of the description's classification. */
  method ClassifySource(description: string) returns (r: string)
    ensures r == Explanation(description, Classify(description))
  {
    var low := Lower(description);
    var c := Scan(PrimaryKeywords, low, Primary);
    if c.Unclassified? {
      c := Scan(SecondaryKeywords, low, Secondary);
      if c.Unclassified? {
        c := Scan(TertiaryKeywords, low, Tertiary);
      }
    }
    r := Explanation(description, c);
  }
}
