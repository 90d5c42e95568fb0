/**
 * Citation formatting for genealogical sources: Evidence Explained, Chicago and simple
 * styles, bibliography entries, placement of a source in the primary/secondary/tertiary
 * hierarchy, the GPS checks on a citation, and the bibliography of a source list grouped
 * by level.
 *
 * Formatting is pure, so the formatter (whose only field is its style) becomes a style
 * parameter. A formatter that raises in the original (an attribute `Source` lacks, a
 * `GenealogyDate` joined into a string) gives a `Failure` holding the exception message.
 */
module Citations {
  import opened Wrappers
  import opened Text
  import opened Sorting
  import opened Models

  datatype CitationStyle = EvidenceExplained | Chicago | Simple

  /** The value, as the only piece, when it is set and not empty. */
  function Field(o: Option<string>): (ps: seq<string>)
    ensures |ps| == Count(StrTruthy(o))
    ensures StrTruthy(o) ==> ps == [o.value]
  {
    if StrTruthy(o) then [o.value] else []
  }

  /** `f"{pre}{value}{post}"` as the only piece, when the value is set and not empty. */
  function Wrapped(o: Option<string>, pre: string, post: string): (ps: seq<string>)
    ensures |ps| == Count(StrTruthy(o))
    ensures StrTruthy(o) ==> ps == [pre + o.value + post]
  {
    if StrTruthy(o) then [pre + o.value + post] else []
  }

  /** The title in double quotes when there is one. */
  function QuotedTitle(s: Source): seq<string>
  {
    if s.title != "" then ["\"" + s.title + "\""] else []
  }

  predicate NonEmptyPieces(ps: seq<string>)
  {
    forall i :: 0 <= i < |ps| ==> ps[i] != ""
  }

  function NonEmptyText(x: string): bool { x != "" }

  const MissingChurchName := "'Source' object has no attribute 'church_name'"
  const MissingArticleTitle := "'Source' object has no attribute 'article_title'"

  /** The `TypeError` of `", ".join` when item `k` is a `GenealogyDate`. */
  function DateJoinError(k: nat): string
  {
    "sequence item " + IntToString(k) + ": expected str instance, GenealogyDate found"
  }

  // ---------------------------------------------------------------------------------------
  // Evidence Explained
  // ---------------------------------------------------------------------------------------

  /** `_format_vital_record_ee`: jurisdiction, quoted title, date range in parentheses, entry, repository with its call number, FHL film. */
  function VitalParts(s: Source): (ps: seq<string>)
    ensures NonEmptyPieces(ps)
    ensures |ps| == Count(StrTruthy(s.jurisdiction)) + Count(s.title != "") + Count(StrTruthy(s.dateRange))
      + Count(StrTruthy(s.entryInfo)) + Count(StrTruthy(s.repository)) + Count(StrTruthy(s.filmNumber))
    ensures StrTruthy(s.jurisdiction) ==> ps[0] == s.jurisdiction.value
    ensures StrTruthy(s.filmNumber) ==> ps[|ps| - 1] == "FHL microfilm " + s.filmNumber.value
  {
    var repo := if StrTruthy(s.repository)
      then [s.repository.value + (if StrTruthy(s.callNumber) then ", " + s.callNumber.value else "")]
      else [];
    Field(s.jurisdiction) + QuotedTitle(s) + Wrapped(s.dateRange, "(", ")") + Field(s.entryInfo)
      + repo + Wrapped(s.filmNumber, "FHL microfilm ", "")
  }

  /** A piece with a follow-up piece that only appears after it: the NARA roll after the series, the access date after the access route. */
  function Nested(o: Option<string>, pre: string, inner: Option<string>, innerPre: string, innerPost: string): (ps: seq<string>)
    ensures NonEmptyPieces(ps)
    ensures |ps| == Count(StrTruthy(o)) + Count(StrTruthy(o) && StrTruthy(inner))
    ensures StrTruthy(o) ==> ps[0] == pre + o.value
  {
    if StrTruthy(o) then [pre + o.value] + Wrapped(inner, innerPre, innerPost) else []
  }

  /** `_format_census_ee`: census year, jurisdiction, entry, NARA series with its roll, access route with its date. */
  function CensusParts(s: Source): (ps: seq<string>)
    ensures NonEmptyPieces(ps)
    ensures |ps| == Count(StrTruthy(s.dateRange)) + Count(StrTruthy(s.jurisdiction)) + Count(StrTruthy(s.entryInfo))
      + Count(StrTruthy(s.naraSeries)) + Count(StrTruthy(s.naraSeries) && StrTruthy(s.naraRoll))
      + Count(StrTruthy(s.accessedVia)) + Count(StrTruthy(s.accessedVia) && StrTruthy(s.accessDate))
    ensures StrTruthy(s.dateRange) ==> ps[0] == s.dateRange.value + " U.S. census"
  {
    var front := Wrapped(s.dateRange, "", " U.S. census") + Field(s.jurisdiction) + Field(s.entryInfo);
    var nara := Nested(s.naraSeries, "NARA microfilm publication ", s.naraRoll, "roll ", "");
    var via := Nested(s.accessedVia, "accessed via ", s.accessDate, "(", ")");
    front + nara + via
  }

  /** `_format_book_ee`: author, italic title, and the publication facts in parentheses; a set publication date raises when joined. */
  function BookParts(s: Source): (r: Result<seq<string>>)
    ensures r.Failure? <==> s.publicationDate.Some?
    ensures r.Success? ==> NonEmptyPieces(r.value)
  {
    var front := Field(s.author) + (if s.title != "" then ["*" + s.title + "*"] else []);
    var pub := Field(s.publicationPlace) + Field(s.publisher);
    if s.publicationDate.Some? then Failure(DateJoinError(|pub|))
    else Success(front + (if pub != [] then ["(" + Join(", ", pub) + ")"] else []))
  }

  /** `_format_online_database_ee`: quoted database title, italic provider, URL in parentheses, access date, and the original source cited. */
  function OnlineParts(s: Source): (ps: seq<string>)
    ensures NonEmptyPieces(ps)
    ensures |ps| == Count(s.title != "") + Count(StrTruthy(s.provider)) + Count(StrTruthy(s.url))
      + Count(StrTruthy(s.accessDate)) + Count(StrTruthy(s.originalSource))
    ensures StrTruthy(s.originalSource) ==> ps[|ps| - 1] == "citing " + s.originalSource.value
  {
    QuotedTitle(s) + Wrapped(s.provider, "*", "*") + Wrapped(s.url, "(", ")")
      + Wrapped(s.accessDate, ": accessed ", "") + Wrapped(s.originalSource, "citing ", "")
  }

  /** `_format_generic_ee`: author, quoted title, publisher, repository, URL. */
  function GenericParts(s: Source): (ps: seq<string>)
    ensures NonEmptyPieces(ps)
    ensures |ps| == Count(StrTruthy(s.author)) + Count(s.title != "") + Count(StrTruthy(s.publisher))
      + Count(StrTruthy(s.repository)) + Count(StrTruthy(s.url))
  {
    Field(s.author) + QuotedTitle(s) + Field(s.publisher) + Field(s.repository) + Field(s.url)
  }

  /** The source types whose Evidence Explained formatter raises whatever the source holds. */
  predicate BrokenType(t: string)
  {
    t == "church_record" || t == "newspaper"
  }

  /** The pieces `_format_ee` collects for the source's type. */
  function EEParts(s: Source): (r: Result<seq<string>>)
    ensures r.Failure? <==> BrokenType(s.sourceType) || (s.sourceType == "book" && s.publicationDate.Some?)
    ensures r.Success? ==> NonEmptyPieces(r.value)
  {
    match s.sourceType
    case "vital_record" => Success(VitalParts(s))
    case "census" => Success(CensusParts(s))
    case "church_record" => Failure(MissingChurchName)
    case "newspaper" => Failure(MissingArticleTitle)
    case "book" => BookParts(s)
    case "online_database" => Success(OnlineParts(s))
    case _ => Success(GenericParts(s))
  }

  /** `_format_ee`: the non-empty pieces joined by `", "`, then a full stop. */
  function FormatEE(s: Source): (r: Result<string>)
    ensures r.Failure? <==> EEParts(s).Failure?
    ensures r.Success? ==> r.value == Join(", ", EEParts(s).value) + "."
    ensures r.Success? ==> IsSuffix(".", r.value)
  {
    match EEParts(s)
    case Failure(e) => Failure(e)
    case Success(ps) =>
      var kept := Filter(ps, NonEmptyText);
      FilterKeepsAll(ps, NonEmptyText);
      var t := Join(", ", kept) + ".";
      assert t[|t| - 1..] == ".";
      Success(t)
  }

  /** Every piece collected for a source appears in its Evidence Explained citation. */
  lemma EEShowsParts(s: Source, i: nat)
    requires EEParts(s).Success? && i < |EEParts(s).value|
    ensures Contains(FormatEE(s).value, EEParts(s).value[i])
  {
    var ps := EEParts(s).value;
    JoinContains(", ", ps, i);
    ContainsInPrefix(Join(", ", ps), ".", ps[i]);
  }

  /** A vital record's citation names its jurisdiction and its FHL film; an online database's names the original source it cites. */
  lemma EENamesRecord(s: Source)
    ensures s.sourceType == "vital_record" && StrTruthy(s.jurisdiction) ==> Contains(FormatEE(s).value, s.jurisdiction.value)
    ensures s.sourceType == "vital_record" && StrTruthy(s.filmNumber) ==> Contains(FormatEE(s).value, "FHL microfilm " + s.filmNumber.value)
    ensures s.sourceType == "online_database" && StrTruthy(s.originalSource) ==> Contains(FormatEE(s).value, "citing " + s.originalSource.value)
  {
    if s.sourceType == "vital_record" {
      if StrTruthy(s.jurisdiction) {
        EEShowsParts(s, 0);
      }
      if StrTruthy(s.filmNumber) {
        EEShowsParts(s, |VitalParts(s)| - 1);
      }
    }
    if s.sourceType == "online_database" && StrTruthy(s.originalSource) {
      EEShowsParts(s, |OnlineParts(s)| - 1);
    }
  }

  // ---------------------------------------------------------------------------------------
  // Chicago and simple styles
  // ---------------------------------------------------------------------------------------

  /** `_format_chicago`: `Author.`, `*Title*.`, the publication facts with a full stop, and the URL, joined by spaces; a set publication date raises when joined. */
  function FormatChicago(s: Source): (r: Result<string>)
    ensures r.Failure? <==> s.publicationDate.Some?
    ensures r.Success? && StrTruthy(s.author) ==> IsPrefix(s.author.value + ".", r.value)
  {
    var front := Wrapped(s.author, "", ".") + (if s.title != "" then ["*" + s.title + "*."] else []);
    var pub := Field(s.publicationPlace) + Field(s.publisher);
    if s.publicationDate.Some? then Failure(DateJoinError(|pub|))
    else
      var ps := front + (if pub != [] then [Join(", ", pub) + "."] else []) + Field(s.url);
      if StrTruthy(s.author) then
        assert ps[0] == s.author.value + ".";
        JoinHeadPrefix(" ", ps);
        Success(Join(" ", ps))
      else Success(Join(" ", ps))
  }

  /** A joined string begins with its first part. */
  lemma JoinHeadPrefix(sep: string, ps: seq<string>)
    requires ps != []
    ensures IsPrefix(ps[0], Join(sep, ps))
  {
    if |ps| > 1 {
      assert Join(sep, ps) == ps[0] + (sep + Join(sep, ps[1..]));
    }
  }

  /** `_format_simple`: title, `by` author, `at` repository, URL in brackets, joined by `", "`. */
  function FormatSimple(s: Source): (t: string)
    ensures t == "" <==> s.title == "" && !StrTruthy(s.author) && !StrTruthy(s.repository) && !StrTruthy(s.url)
    ensures s.title != "" ==> IsPrefix(s.title, t)
  {
    var ps := (if s.title != "" then [s.title] else []) + Wrapped(s.author, "by ", "") + Wrapped(s.repository, "at ", "")
      + Wrapped(s.url, "[", "]");
    assert NonEmptyPieces(ps);
    if ps == [] then "" else
      JoinHeadPrefix(", ", ps);
      assert ps[0] != "";
      Join(", ", ps)
  }

  /** `format_source`: the style's formatter. */
  function FormatSource(style: CitationStyle, s: Source): (r: Result<string>)
    ensures style == EvidenceExplained ==> r == FormatEE(s)
    ensures style == Chicago ==> r == FormatChicago(s)
    ensures style == Simple ==> r == Success(FormatSimple(s))
  {
    match style
    case EvidenceExplained => FormatEE(s)
    case Chicago => FormatChicago(s)
    case Simple => Success(FormatSimple(s))
  }

  /** `format_citation`: the source's citation, then `, p. <page>` when a page is set, then `; <detail>` when a detail is set. */
  function FormatCitation(style: CitationStyle, c: Citation, s: Source): (r: Result<string>)
    ensures r.Failure? <==> FormatSource(style, s).Failure?
    ensures r.Success? ==> IsPrefix(FormatSource(style, s).value, r.value)
    ensures r.Success? && StrTruthy(c.detail) ==> IsSuffix("; " + c.detail.value, r.value)
    ensures r.Success? && StrTruthy(c.page) && !StrTruthy(c.detail) ==> IsSuffix(", p. " + c.page.value, r.value)
    ensures r.Success? && !StrTruthy(c.page) && !StrTruthy(c.detail) ==> r.value == FormatSource(style, s).value
  {
    match FormatSource(style, s)
    case Failure(e) => Failure(e)
    case Success(base) =>
      var page := if StrTruthy(c.page) then ", p. " + c.page.value else "";
      var detail := if StrTruthy(c.detail) then "; " + c.detail.value else "";
      var t := base + page + detail;
      assert t[..|base|] == base;
      assert t[|t| - |detail|..] == detail;
      assert detail == "" ==> t[|t| - |page|..] == page;
      Success(t)
  }

  /** `format_footnote`: the note number, a full stop and a space, then the citation. */
  function FormatFootnote(style: CitationStyle, c: Citation, s: Source, n: int): (r: Result<string>)
    ensures r.Failure? <==> FormatCitation(style, c, s).Failure?
    ensures r.Success? ==> IsPrefix(IntToString(n) + ". ", r.value)
    ensures r.Success? ==> r.value[|IntToString(n) + ". "|..] == FormatCitation(style, c, s).value
  {
    match FormatCitation(style, c, s)
    case Failure(e) => Failure(e)
    case Success(t) =>
      var head := IntToString(n) + ". ";
      assert (head + t)[..|head|] == head && (head + t)[|head|..] == t;
      Success(head + t)
  }

  // ---------------------------------------------------------------------------------------
  // Bibliography
  // ---------------------------------------------------------------------------------------

  /** The last position of `c` in `s` (`rsplit(c, 1)` splits there). */
  function LastIndex(s: string, c: char): (r: Option<nat>)
    ensures r.None? <==> c !in s
    ensures r.Some? ==> r.value < |s| && s[r.value] == c && c !in s[r.value + 1..]
    decreases |s|
  {
    if s == [] then None
    else if s[|s| - 1] == c then
      assert s[|s|..] == [];
      Some(|s| - 1)
    else
      var r := LastIndex(s[..|s| - 1], c);
      LastSplit(s);
      if r.Some? then
        assert s[r.value + 1..] == s[..|s| - 1][r.value + 1..] + [s[|s| - 1]];
        r
      else r
  }

  /** The bibliography author: `First Last` becomes `Last, First`, split at the last space, when the name has a space and no comma. */
  function BibliographyAuthor(a: string): string
  {
    if ' ' in a && ',' !in a then
      var i := LastIndex(a, ' ').value;
      a[i + 1..] + ", " + a[..i]
    else a
  }

  /** A name with a space and no comma is turned round at its last space; any other name is kept. */
  lemma BibliographyAuthorSwaps(first: string, last: string)
    requires ' ' !in last && ',' !in first && ',' !in last
    ensures BibliographyAuthor(first + " " + last) == last + ", " + first
  {
    var a := first + " " + last;
    var n := |first|;
    AppendAssoc(first, " ", last);
    assert a[..n] == first && a[n + 1..] == last;
    assert a[n] == ' ';
    assert ' ' in a && ',' !in a by {
      forall k | 0 <= k < |a| ensures a[k] != ',' {
        if k < n {
          assert a[k] == first[k];
        } else if k > n {
          assert a[k] == a[n + 1..][k - n - 1];
        }
      }
    }
    var i := LastIndex(a, ' ').value;
    forall k | i < k < |a| ensures a[k] != ' ' {
      assert a[k] == a[i + 1..][k - i - 1];
    }
    forall k | n < k < |a| ensures a[k] != ' ' {
      assert a[k] == last[k - n - 1];
    }
    assert i == n;
    assert BibliographyAuthor(a) == a[i + 1..] + ", " + a[..i];
  }

  lemma BibliographyAuthorKept(a: string)
    requires ' ' !in a || ',' in a
    ensures BibliographyAuthor(a) == a
  {
  }

  /** `_format_bibliography_ee`: `Last, First.`, `*Title*.` and the publication facts with a full stop, joined by spaces; a set publication date raises when joined. */
  function BibliographyEE(s: Source): (r: Result<string>)
    ensures r.Failure? <==> s.publicationDate.Some?
    ensures r.Success? && StrTruthy(s.author) ==> IsPrefix(BibliographyAuthor(s.author.value) + ".", r.value)
    ensures r.Success? && !StrTruthy(s.author) && s.title != "" ==> IsPrefix("*" + s.title + "*.", r.value)
  {
    var front := (if StrTruthy(s.author) then [BibliographyAuthor(s.author.value) + "."] else [])
      + (if s.title != "" then ["*" + s.title + "*."] else []);
    var pub := Field(s.publicationPlace) + Field(s.publisher);
    if s.publicationDate.Some? then Failure(DateJoinError(|pub|))
    else
      var ps := front + (if pub != [] then [Join(", ", pub) + "."] else []);
      if ps == [] then Success("")
      else
        JoinHeadPrefix(" ", ps);
        Success(Join(" ", ps))
  }

  /** `format_bibliography_entry`: the Evidence Explained bibliography form, or the style's citation. */
  function BibliographyEntry(style: CitationStyle, s: Source): (r: Result<string>)
    ensures style == EvidenceExplained ==> r == BibliographyEE(s)
    ensures style == Chicago ==> r == FormatChicago(s)
    ensures style == Simple ==> r == Success(FormatSimple(s))
  {
    if style == EvidenceExplained then BibliographyEE(s) else FormatSource(style, s)
  }

  // ---------------------------------------------------------------------------------------
  // Source hierarchy and citation checks
  // ---------------------------------------------------------------------------------------

  const PrimaryTypes: seq<string> := [
    "vital_record", "civil_registration", "parish_register", "census", "military_record",
    "naturalization", "probate", "land_deed", "tax_record"]

  const SecondaryTypes: seq<string> := [
    "published_genealogy", "county_history", "biography", "compiled_record", "transcription", "abstract"]

  const TertiaryTypes: seq<string> := [
    "online_tree", "index", "database_entry", "message_board", "findagrave", "ancestry_tree"]

  const OnlineProviders: seq<string> := ["ancestry", "familysearch", "myheritage", "findmypast"]

  /** The provider is one of the known online databases, matched case-insensitively as a substring. */
  predicate OnlineProvider(s: Source)
  {
    StrTruthy(s.provider) && exists i :: 0 <= i < |OnlineProviders| && Contains(Lower(s.provider.value), OnlineProviders[i])
  }

  /** A user tree on a known online database. */
  predicate OnlineTree(s: Source)
  {
    OnlineProvider(s) && !StrTruthy(s.originalSource) && Contains(Lower(s.sourceType), "tree")
  }

  /** `categorize_source_level`: the listed type names first, then online-database indicators, SECONDARY otherwise. */
  function CategorizeSourceLevel(s: Source): (l: SourceLevel)
    ensures l == Primary <==> s.sourceType in PrimaryTypes
    ensures l == Tertiary <==> (s.sourceType !in PrimaryTypes && s.sourceType !in SecondaryTypes
      && (s.sourceType in TertiaryTypes || OnlineTree(s)))
  {
    var t := s.sourceType;
    if t in PrimaryTypes then Primary
    else if t in SecondaryTypes then Secondary
    else if t in TertiaryTypes then Tertiary
    else if OnlineProvider(s) && StrTruthy(s.originalSource) then Secondary
    else if OnlineProvider(s) && Contains(Lower(t), "tree") then Tertiary
    else Secondary
  }

  /** Each listed type name gets its own list's level; an unlisted type on an online database is SECONDARY when it cites an original. */
  lemma ListedLevels(s: Source)
    ensures s.sourceType in PrimaryTypes ==> CategorizeSourceLevel(s) == Primary
    ensures s.sourceType in SecondaryTypes ==> CategorizeSourceLevel(s) == Secondary
    ensures s.sourceType in TertiaryTypes ==> CategorizeSourceLevel(s) == Tertiary
    ensures (s.sourceType !in PrimaryTypes && s.sourceType !in SecondaryTypes && s.sourceType !in TertiaryTypes
      && !OnlineProvider(s)) ==> CategorizeSourceLevel(s) == Secondary
  {
    var t := s.sourceType;
    if t in SecondaryTypes {
      assert t !in PrimaryTypes by { TypeListsDisjoint(t); }
    }
    if t in TertiaryTypes {
      TypeListsDisjoint(t);
    }
  }

  /** No type name is in two of the lists. */
  lemma TypeListsDisjoint(t: string)
    ensures t in SecondaryTypes ==> t !in PrimaryTypes
    ensures t in TertiaryTypes ==> t !in PrimaryTypes && t !in SecondaryTypes
  {
  }

  const NoSourceIssue := "Citation must reference a source"
  const NoTitleIssue := "Source should have a title"
  const NoLocationIssue := "Source should specify repository or access location"
  const NoDateIssue := "Source should specify a date or date range"
  const NoAccessDateIssue := "Online sources should include access date"
  const NoOriginalIssue := "Tertiary sources should cite the original source"

  predicate LacksLocation(s: Source) { !StrTruthy(s.repository) && !StrTruthy(s.url) }
  predicate LacksDate(s: Source) { !StrTruthy(s.dateRange) && s.publicationDate.None? }
  predicate LacksAccessDate(s: Source) { StrTruthy(s.url) && !StrTruthy(s.accessDate) }
  predicate LacksOriginal(s: Source) { CategorizeSourceLevel(s) == Tertiary && !StrTruthy(s.originalSource) }

  /** `validate_citation`: one issue per GPS shortcoming of the source, in a fixed order; a missing source is the only issue. */
  function ValidateCitation(c: Citation, source: Option<Source>): (issues: seq<string>)
    ensures source.None? ==> issues == [NoSourceIssue]
    ensures source.Some? ==>
      var s := source.value;
      && (issues == [] <==> s.title != "" && !LacksLocation(s) && !LacksDate(s) && !LacksAccessDate(s) && !LacksOriginal(s))
      && |issues| == Count(s.title == "") + Count(LacksLocation(s)) + Count(LacksDate(s)) + Count(LacksAccessDate(s)) + Count(LacksOriginal(s))
  {
    match source
    case None => [NoSourceIssue]
    case Some(s) =>
      (if s.title == "" then [NoTitleIssue] else [])
      + (if LacksLocation(s) then [NoLocationIssue] else [])
      + (if LacksDate(s) then [NoDateIssue] else [])
      + (if LacksAccessDate(s) then [NoAccessDateIssue] else [])
      + (if LacksOriginal(s) then [NoOriginalIssue] else [])
  }

  /** Each issue is reported exactly when its shortcoming holds; the messages are distinct, so each appears at most once. */
  lemma ValidateCitationIssues(c: Citation, s: Source)
    ensures var issues := ValidateCitation(c, Some(s));
      && (NoTitleIssue in issues <==> s.title == "")
      && (NoLocationIssue in issues <==> LacksLocation(s))
      && (NoDateIssue in issues <==> LacksDate(s))
      && (NoAccessDateIssue in issues <==> LacksAccessDate(s))
      && (NoOriginalIssue in issues <==> LacksOriginal(s))
      && NoSourceIssue !in issues
  {
    assert |NoSourceIssue| == 32 && |NoTitleIssue| == 26 && |NoLocationIssue| == 51;
    assert |NoDateIssue| == 42 && |NoAccessDateIssue| == 41 && |NoOriginalIssue| == 48;
    var a, b, d, t, o := s.title == "", LacksLocation(s), LacksDate(s), LacksAccessDate(s), LacksOriginal(s);
    InOptionals(a, NoTitleIssue, b, NoLocationIssue, d, NoDateIssue, t, NoAccessDateIssue, o, NoOriginalIssue, NoSourceIssue);
    InOptionals(a, NoTitleIssue, b, NoLocationIssue, d, NoDateIssue, t, NoAccessDateIssue, o, NoOriginalIssue, NoTitleIssue);
    InOptionals(a, NoTitleIssue, b, NoLocationIssue, d, NoDateIssue, t, NoAccessDateIssue, o, NoOriginalIssue, NoLocationIssue);
    InOptionals(a, NoTitleIssue, b, NoLocationIssue, d, NoDateIssue, t, NoAccessDateIssue, o, NoOriginalIssue, NoDateIssue);
    InOptionals(a, NoTitleIssue, b, NoLocationIssue, d, NoDateIssue, t, NoAccessDateIssue, o, NoOriginalIssue, NoAccessDateIssue);
    InOptionals(a, NoTitleIssue, b, NoLocationIssue, d, NoDateIssue, t, NoAccessDateIssue, o, NoOriginalIssue, NoOriginalIssue);
  }

  // ---------------------------------------------------------------------------------------
  // Source list
  // ---------------------------------------------------------------------------------------

  /** The sort key `(level.value, entry)`, compared as a tuple. */
  predicate EntryLe(a: (SourceLevel, string), b: (SourceLevel, string))
  {
    Less(a.0.Value(), b.0.Value()) || (a.0 == b.0 && LessEq(a.1, b.1))
  }

  /** The levels' values are distinct strings ordered `primary < secondary < tertiary`. */
  function Rank(l: SourceLevel): nat
  {
    match l
    case Primary => 0
    case Secondary => 1
    case Tertiary => 2
  }

  lemma LevelValueOrder(a: SourceLevel, b: SourceLevel)
    ensures Less(a.Value(), b.Value()) <==> Rank(a) < Rank(b)
  {
    if a == b {
      LessIrreflexive(a.Value());
    } else {
      assert "primary"[0] == 'p' && "secondary"[0] == 's' && "tertiary"[0] == 't';
      LessByFirst(a.Value(), b.Value());
    }
  }

  lemma EntryOrder()
    ensures TotalPreorder(EntryLe)
  {
    forall a: (SourceLevel, string), b: (SourceLevel, string) ensures EntryLe(a, b) || EntryLe(b, a) {
      LevelValueOrder(a.0, b.0);
      LevelValueOrder(b.0, a.0);
      LessEqTotal(a.1, b.1);
    }
    forall a: (SourceLevel, string), b: (SourceLevel, string), c: (SourceLevel, string) | EntryLe(a, b) && EntryLe(b, c)
      ensures EntryLe(a, c)
    {
      LevelValueOrder(a.0, b.0);
      LevelValueOrder(b.0, c.0);
      LevelValueOrder(a.0, c.0);
      if a.0 == b.0 && b.0 == c.0 {
        LessEqTransitive(a.1, b.1, c.1);
      }
    }
  }

  /** The results of `f` on each element in order; the first element whose result raises makes the whole loop raise. */
  function Collect<S, V>(xs: seq<S>, f: S -> Result<V>): (r: Result<seq<V>>)
    ensures r.Success? ==> |r.value| == |xs|
    decreases |xs|
  {
    if xs == [] then Success([])
    else
      var r := Collect(xs[..|xs| - 1], f);
      if r.Failure? then r
      else match f(xs[|xs| - 1])
        case Failure(e) => Failure(e)
        case Success(v) => Success(r.value + [v])
  }

  /** Each collected value is the result of `f` on the element at its position. */
  lemma {:induction false} CollectAt<S, V>(xs: seq<S>, f: S -> Result<V>, i: nat)
    requires Collect(xs, f).Success? && i < |xs|
    ensures f(xs[i]) == Success(Collect(xs, f).value[i])
    decreases |xs|
  {
    var n := |xs| - 1;
    if i < n {
      PrefixPrefix(xs, n);
      CollectAt(xs[..n], f, i);
    }
  }

  /** The loop raises exactly when `f` raises on some element. */
  lemma {:induction false} CollectFails<S, V>(xs: seq<S>, f: S -> Result<V>)
    ensures Collect(xs, f).Failure? <==> exists i :: 0 <= i < |xs| && f(xs[i]).Failure?
    decreases |xs|
  {
    if xs != [] {
      var n := |xs| - 1;
      var init := xs[..n];
      CollectFails(init, f);
      assert forall i :: 0 <= i < n ==> xs[i] == init[i];
    }
  }

  /** Once a prefix raises, so does the whole loop, with the same message. */
  lemma {:induction false} CollectPrefixFails<S, V>(xs: seq<S>, f: S -> Result<V>, i: nat)
    requires 0 < i <= |xs|
    requires Collect(xs[..i], f).Failure?
    ensures Collect(xs, f) == Collect(xs[..i], f)
    decreases |xs| - i
  {
    if i < |xs| {
      PrefixPrefix(xs, i);
      CollectPrefixFails(xs, f, i + 1);
    } else {
      PrefixAll(xs);
    }
  }

  /** The loop of `format_source_list` that collects entries, stopping at the first that raises. */
  method CollectAll<S, V>(xs: seq<S>, f: S -> Result<V>) returns (r: Result<seq<V>>)
    ensures r == Collect(xs, f)
  {
    var vs: seq<V> := [];
    for i := 0 to |xs|
      invariant Collect(xs[..i], f) == Success(vs)
    {
      PrefixPrefix(xs, i);
      var v := f(xs[i]);
      if v.Failure? {
        CollectPrefixFails(xs, f, i + 1);
        return Failure(v.error);
      }
      vs := vs + [v.value];
    }
    PrefixAll(xs);
    r := Success(vs);
  }

  /** One source's `(level, entry)` pair, its entry first (as the loop computes it). */
  function EntryOf(style: CitationStyle, s: Source): (r: Result<(SourceLevel, string)>)
    ensures r.Failure? <==> BibliographyEntry(style, s).Failure?
    ensures r.Success? ==> r.value == (CategorizeSourceLevel(s), BibliographyEntry(style, s).value)
  {
    match BibliographyEntry(style, s)
    case Failure(e) => Failure(e)
    case Success(entry) => Success((CategorizeSourceLevel(s), entry))
  }

  function EntryFn(style: CitationStyle): Source -> Result<(SourceLevel, string)>
  {
    s => EntryOf(style, s)
  }

  /** The `(level, entry)` pairs of the sources in order. */
  function Entries(sources: seq<Source>, style: CitationStyle): Result<seq<(SourceLevel, string)>>
  {
    Collect(sources, EntryFn(style))
  }

  /** The list raises exactly when some source's entry raises, and otherwise pairs each source's level with its entry. */
  lemma EntriesShape(sources: seq<Source>, style: CitationStyle)
    ensures Entries(sources, style).Failure? <==> exists i :: 0 <= i < |sources| && BibliographyEntry(style, sources[i]).Failure?
    ensures Entries(sources, style).Success? ==> forall i :: 0 <= i < |sources| ==>
      Entries(sources, style).value[i] == (CategorizeSourceLevel(sources[i]), BibliographyEntry(style, sources[i]).value)
  {
    CollectFails(sources, EntryFn(style));
    if Entries(sources, style).Success? {
      forall i | 0 <= i < |sources|
        ensures Entries(sources, style).value[i] == (CategorizeSourceLevel(sources[i]), BibliographyEntry(style, sources[i]).value)
      {
        CollectAt(sources, EntryFn(style), i);
      }
    }
    forall i | 0 <= i < |sources| ensures EntryFn(style)(sources[i]).Failure? <==> BibliographyEntry(style, sources[i]).Failure? {
    }
  }

  function HeaderLine(l: SourceLevel): string
  {
    "## " + l.Value() + " Sources"
  }

  /** Whether entry `i` opens a new group (its key differs from the previous entry's). */
  predicate OpensGroup<L(==)>(es: seq<(L, string)>, i: nat)
    requires i < |es|
  {
    i == 0 || es[i - 1].0 != es[i].0
  }

  /** The lines after the title: a header and a blank line before each new group, then `- <entry>` per entry. */
  function ListBody<L(==)>(es: seq<(L, string)>, header: L -> string): seq<string>
    decreases |es|
  {
    if es == [] then []
    else
      var n := |es| - 1;
      ListBody(es[..n], header) + GroupStep(OpensGroup(es, n), header(es[n].0), es[n].1)
  }

  /** The lines one entry adds: its group's header and a blank line when it opens a group, then `- <entry>`. */
  function GroupStep(opens: bool, h: string, e: string): seq<string>
  {
    if opens then [h, "", "- " + e] else ["- " + e]
  }

  /** The keys whose header is emitted, in order. */
  function Leaders<L(==)>(es: seq<(L, string)>): seq<L>
    decreases |es|
  {
    if es == [] then []
    else
      var n := |es| - 1;
      Leaders(es[..n]) + (if OpensGroup(es, n) then [es[n].0] else [])
  }

  /** `format_source_list`: entries sorted by level value then text, under `# Sources`, each level group under its header. */
  function SourceList(sources: seq<Source>, style: CitationStyle): (r: Result<string>)
    ensures r.Failure? <==> exists i :: 0 <= i < |sources| && BibliographyEntry(style, sources[i]).Failure?
    ensures r.Success? ==> IsPrefix("# Sources", r.value)
  {
    EntriesShape(sources, style);
    match Entries(sources, style)
    case Failure(e) => Failure(e)
    case Success(es) =>
      var lines := ["# Sources", ""] + ListBody(SortBy(es, EntryLe), HeaderLine);
      JoinHead("\n", lines);
      Success(Join("\n", lines))
  }

  function IsHeader(line: string): bool { |line| >= 3 && line[..3] == "## " }
  function IsEntryLine(line: string): bool { |line| >= 2 && line[..2] == "- " }

  /** One header line per key, in order. */
  function HeaderLines<L>(ls: seq<L>, header: L -> string): (r: seq<string>)
    ensures |r| == |ls|
  {
    if ls == [] then [] else HeaderLines(ls[..|ls| - 1], header) + [header(ls[|ls| - 1])]
  }

  /** One `- <entry>` line per entry, in order. */
  function EntryLines<L>(es: seq<(L, string)>): (r: seq<string>)
    ensures |r| == |es|
  {
    if es == [] then [] else EntryLines(es[..|es| - 1]) + ["- " + es[|es| - 1].1]
  }

  /** A level's header line is a header and not an entry line. */
  lemma HeaderLineKind(l: SourceLevel)
    ensures IsHeader(HeaderLine(l)) && !IsEntryLine(HeaderLine(l))
  {
    var hl := HeaderLine(l);
    assert hl[..3] == "## " && hl[0] == '#';
  }

  /** What the lines added for one entry contribute to the headers and to the entry lines. */
  lemma StepLines(opens: bool, hl: string, e: string)
    requires IsHeader(hl) && !IsEntryLine(hl)
    ensures Filter(GroupStep(opens, hl, e), IsHeader) == (if opens then [hl] else [])
    ensures Filter(GroupStep(opens, hl, e), IsEntryLine) == ["- " + e]
  {
    var el := "- " + e;
    assert el[..2] == "- " && el[0] == '-';
    assert !IsHeader(el) && IsEntryLine(el);
    assert !IsHeader("") && !IsEntryLine("");
    if opens {
      FilterThree(hl, "", el, IsHeader);
      FilterThree(hl, "", el, IsEntryLine);
    } else {
      FilterSingle(el, IsHeader);
      FilterSingle(el, IsEntryLine);
    }
  }

  /** The header lines of the body are one per emitted key, in order. */
  lemma {:induction false} ListBodyHeaders<L>(es: seq<(L, string)>, header: L -> string)
    requires forall l :: IsHeader(header(l)) && !IsEntryLine(header(l))
    ensures Filter(ListBody(es, header), IsHeader) == HeaderLines(Leaders(es), header)
    decreases |es|
  {
    if es != [] {
      var n := |es| - 1;
      var init := es[..n];
      ListBodyHeaders(init, header);
      var step := GroupStep(OpensGroup(es, n), header(es[n].0), es[n].1);
      assert ListBody(es, header) == ListBody(init, header) + step;
      FilterAppend(ListBody(init, header), step, IsHeader);
      StepLines(OpensGroup(es, n), header(es[n].0), es[n].1);
      var ls := Leaders(es);
      if OpensGroup(es, n) {
        assert ls == Leaders(init) + [es[n].0];
        assert ls[..|ls| - 1] == Leaders(init) && ls[|ls| - 1] == es[n].0;
        assert HeaderLines(ls, header) == HeaderLines(Leaders(init), header) + [header(es[n].0)];
      } else {
        assert ls == Leaders(init);
      }
    }
  }

  /** The entry lines of the body are the entries, in order. */
  lemma {:induction false} ListBodyEntries<L>(es: seq<(L, string)>, header: L -> string)
    requires forall l :: IsHeader(header(l)) && !IsEntryLine(header(l))
    ensures Filter(ListBody(es, header), IsEntryLine) == EntryLines(es)
    decreases |es|
  {
    if es != [] {
      var n := |es| - 1;
      var init := es[..n];
      ListBodyEntries(init, header);
      var step := GroupStep(OpensGroup(es, n), header(es[n].0), es[n].1);
      assert ListBody(es, header) == ListBody(init, header) + step;
      FilterAppend(ListBody(init, header), step, IsEntryLine);
      StepLines(OpensGroup(es, n), header(es[n].0), es[n].1);
    }
  }

  predicate HasKey<L(==)>(es: seq<(L, string)>, l: L)
  {
    exists i :: 0 <= i < |es| && es[i].0 == l
  }

  /** Every key of an entry has its header emitted, and only those keys. */
  lemma {:induction false} LeadersPresent<L>(es: seq<(L, string)>)
    ensures forall l :: l in Leaders(es) <==> HasKey(es, l)
    decreases |es|
  {
    if es != [] {
      var n := |es| - 1;
      var init := es[..n];
      LeadersPresent(init);
      assert forall i :: 0 <= i < n ==> es[i] == init[i];
      if !OpensGroup(es, n) {
        assert es[n].0 == init[n - 1].0;
      }
    }
  }

  /** In sorted entries the emitted levels are distinct, each no later than the last entry's. */
  lemma {:induction false} LeadersDistinct(es: seq<(SourceLevel, string)>)
    requires Sorted(es, EntryLe)
    ensures forall i, j :: 0 <= i < j < |Leaders(es)| ==> Leaders(es)[i] != Leaders(es)[j]
    ensures es != [] ==> forall l <- Leaders(es) :: Rank(l) <= Rank(es[|es| - 1].0)
    decreases |es|
  {
    if es != [] {
      var n := |es| - 1;
      var init := es[..n];
      assert Sorted(init, EntryLe) by {
        forall i, j | 0 <= i < j < |init| ensures EntryLe(init[i], init[j]) {
          assert init[i] == es[i] && init[j] == es[j];
        }
      }
      LeadersDistinct(init);
      var li := Leaders(init);
      if OpensGroup(es, n) && n > 0 {
        assert EntryLe(es[n - 1], es[n]);
        LevelValueOrder(es[n - 1].0, es[n].0);
        assert init[n - 1] == es[n - 1];
        LeaderAppended(li, es[n].0, es[n - 1].0);
      } else if OpensGroup(es, n) {
        assert li == [];
      } else {
        assert es[n - 1].0 == es[n].0 && init[n - 1] == es[n - 1];
        assert li + [] == li;
      }
    }
  }

  /** A level ranked after every level so far keeps the levels distinct and bounded by it. */
  lemma LeaderAppended(li: seq<SourceLevel>, l: SourceLevel, prev: SourceLevel)
    requires forall i, j :: 0 <= i < j < |li| ==> li[i] != li[j]
    requires forall x <- li :: Rank(x) <= Rank(prev)
    requires Rank(prev) < Rank(l)
    ensures forall i, j :: 0 <= i < j < |li + [l]| ==> (li + [l])[i] != (li + [l])[j]
    ensures forall x <- li + [l] :: Rank(x) <= Rank(l)
  {
    forall i, j | 0 <= i < j < |li + [l]| ensures (li + [l])[i] != (li + [l])[j] {
      if j == |li| {
        assert li[i] in li;
      }
    }
  }

  /** Sorting keeps the keys present. */
  lemma SortedKeys<L>(raw: seq<(L, string)>, le: ((L, string), (L, string)) -> bool, l: L)
    ensures HasKey(SortBy(raw, le), l) <==> HasKey(raw, l)
  {
    var es := SortBy(raw, le);
    SortByPermutes(raw, le);
    if HasKey(es, l) {
      var i :| 0 <= i < |es| && es[i].0 == l;
      assert es[i] in multiset(raw);
      var k :| 0 <= k < |raw| && raw[k] == es[i];
    }
    if HasKey(raw, l) {
      var i :| 0 <= i < |raw| && raw[i].0 == l;
      assert raw[i] in multiset(es);
      var k :| 0 <= k < |es| && es[k] == raw[i];
    }
  }

  /** The levels of the entries are the levels of the sources. */
  lemma EntryLevels(sources: seq<Source>, style: CitationStyle, l: SourceLevel)
    requires Entries(sources, style).Success?
    ensures HasKey(Entries(sources, style).value, l) <==> exists i :: 0 <= i < |sources| && CategorizeSourceLevel(sources[i]) == l
  {
    var raw := Entries(sources, style).value;
    EntriesShape(sources, style);
    if exists i :: 0 <= i < |sources| && CategorizeSourceLevel(sources[i]) == l {
      var i :| 0 <= i < |sources| && CategorizeSourceLevel(sources[i]) == l;
      assert raw[i].0 == l;
    }
  }

  /** `format_source_list` lists the entries sorted by level value then text, a permutation of the sources' entries, and emits exactly one header for each level some source has and no other. */
  lemma SourceListShape(sources: seq<Source>, style: CitationStyle, l: SourceLevel)
    requires Entries(sources, style).Success?
    ensures var es := SortBy(Entries(sources, style).value, EntryLe);
      && Sorted(es, EntryLe)
      && multiset(es) == multiset(Entries(sources, style).value)
      && (l in Leaders(es) <==> exists i :: 0 <= i < |sources| && CategorizeSourceLevel(sources[i]) == l)
      && (forall i, j :: 0 <= i < j < |Leaders(es)| ==> Leaders(es)[i] != Leaders(es)[j])
      && Filter(ListBody(es, HeaderLine), IsHeader) == HeaderLines(Leaders(es), HeaderLine)
      && Filter(ListBody(es, HeaderLine), IsEntryLine) == EntryLines(es)
  {
    var raw := Entries(sources, style).value;
    var es := SortBy(raw, EntryLe);
    EntryOrder();
    SortBySorted(raw, EntryLe);
    SortByPermutes(raw, EntryLe);
    LeadersPresent(es);
    LeadersDistinct(es);
    forall k: SourceLevel ensures IsHeader(HeaderLine(k)) && !IsEntryLine(HeaderLine(k)) {
      HeaderLineKind(k);
    }
    ListBodyHeaders(es, HeaderLine);
    ListBodyEntries(es, HeaderLine);
    SortedKeys(raw, EntryLe, l);
    EntryLevels(sources, style, l);
  }

  /** The line loop of `format_source_list`, tracking the current level. */
  method ListLines<L(==)>(es: seq<(L, string)>, header: L -> string) returns (lines: seq<string>)
    ensures lines == ["# Sources", ""] + ListBody(es, header)
  {
    lines := ["# Sources", ""];
    var current: Option<L> := None;
    for i := 0 to |es|
      invariant lines == ["# Sources", ""] + ListBody(es[..i], header)
      invariant current == if i == 0 then None else Some(es[i - 1].0)
    {
      PrefixPrefix(es, i);
      var (level, entry) := es[i];
      ghost var before := lines;
      if current != Some(level) {
        lines := lines + [header(level), ""];
        current := Some(level);
      }
      lines := lines + ["- " + entry];
      assert lines == before + GroupStep(OpensGroup(es, i), header(level), entry);
    }
    PrefixAll(es);
  }

  /** `format_source_list` */
  method FormatSourceList(sources: seq<Source>, style: CitationStyle) returns (r: Result<string>)
    ensures r == SourceList(sources, style)
  {
    var entries := CollectAll(sources, EntryFn(style));
    if entries.Failure? {
      return Failure(entries.error);
    }
    var sorted := SortBy(entries.value, EntryLe);
    var lines := ListLines(sorted, HeaderLine);
    r := Success(Join("\n", lines));
  }
}
