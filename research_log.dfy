/**
 * The research-log report: truncation and CSV escaping of cells, the summary statistics
 * block, and the CSV rendering of a log. The CSV rendering is paired with a reader of
 * RFC 4180 records (section 2 of RFC 4180: comma-separated cells, double-quoted cells
 * with `""` for a quote, records separated by line breaks), and reading the rendered
 * document gives back the header and every entry's cells.
 *
 * The report only reads the log, so its loops are methods that return values and
 * change nothing.
 */
module ResearchLogReport {
  import opened Wrappers
  import opened Text
  import opened Sorting
  import opened Models

  // ---------------------------------------------------------------------------------------
  // Truncation
  // ---------------------------------------------------------------------------------------

  /** Python's `s[:n]`: a negative bound counts from the end, a bound past the end stops there. */
  function PyPrefix(s: string, n: int): (r: string)
    ensures n >= 0 ==> |r| == if n <= |s| then n else |s|
    ensures n < 0 ==> |r| == if |s| + n >= 0 then |s| + n else 0
    ensures r == s[..|r|]
  {
    if n >= |s| then s
    else if n >= 0 then s[..n]
    else if |s| + n >= 0 then s[..|s| + n]
    else []
  }

  const Ellipsis := "..."

  /** `_truncate(text, length)`: the text when it fits, otherwise a prefix of it followed by `...`. */
  function Truncate(text: string, length: int): (r: string)
    ensures |text| <= length ==> r == text
    ensures |text| > length ==> |r| >= 3 && |r| - 3 <= |text| && r[|r| - 3..] == Ellipsis && r[..|r| - 3] == text[..|r| - 3]
    ensures |text| > length && length >= 3 ==> |r| == length
  {
    if |text| <= length then text else PyPrefix(text, length - 3) + Ellipsis
  }

  /** Truncating twice to the same length of 3 or more truncates once. */
  lemma TruncateIdempotent(text: string, length: int)
    requires length >= 3
    ensures Truncate(Truncate(text, length), length) == Truncate(text, length)
  {
  }

  /** Below a length of 3 the negative slice bound counts from the end, so the result outgrows the length. */
  lemma TruncateBelowThree()
    ensures Truncate("abcdef", 2) == "abcde..."
    ensures |Truncate("abcdef", 2)| > 2
  {
    assert PyPrefix("abcdef", -1) == "abcde";
  }

  // ---------------------------------------------------------------------------------------
  // CSV cells
  // ---------------------------------------------------------------------------------------

  /** A cell that must be quoted: it holds a comma, a double quote or a line break. */
  predicate NeedsQuotes(t: string)
  {
    ',' in t || '"' in t || '\n' in t
  }

  /** `_csv_escape(text)`: quoted, with inner quotes doubled, exactly when it must be. */
  function CsvEscape(t: string): (r: string)
    ensures !NeedsQuotes(t) ==> r == t
    ensures NeedsQuotes(t) ==> |r| >= 2 && r[0] == '"' && r[|r| - 1] == '"'
  {
    if NeedsQuotes(t) then "\"" + ReplaceAll(t, "\"", "\"\"") + "\"" else t
  }

  /** Each double quote written twice, character by character. */
  function Doubled(t: string): (r: string)
    ensures |r| >= |t|
    decreases |t|
  {
    if t == [] then []
    else (if t[0] == '"' then "\"\"" else [t[0]]) + Doubled(t[1..])
  }

  /** `replace('"', '""')` doubles every quote. */
  lemma {:induction false} ReplaceQuotes(t: string)
    ensures ReplaceAll(t, "\"", "\"\"") == Doubled(t)
    decreases |t|
  {
    if t != [] {
      ReplaceQuotes(t[1..]);
      assert t[..1] == [t[0]];
    }
  }

  /** A cell ends at the end of the document, at a comma or at a line break. */
  predicate Ends(rest: string)
  {
    rest == [] || rest[0] == ',' || rest[0] == '\n'
  }

  /** Reading a quoted cell after its opening quote: its content with `""` read as `"`, and what follows the closing quote. */
  function QuotedCell(s: string): (p: (string, string))
    ensures |p.1| <= |s|
    decreases |s|
  {
    if s == [] then ("", "")
    else if s[0] == '"' then
      if |s| > 1 && s[1] == '"' then
        var q := QuotedCell(s[2..]);
        ("\"" + q.0, q.1)
      else ("", s[1..])
    else
      var q := QuotedCell(s[1..]);
      ([s[0]] + q.0, q.1)
  }

  /** Reading an unquoted cell: up to the next comma or line break. */
  function PlainCell(s: string): (p: (string, string))
    ensures |p.1| <= |s|
    decreases |s|
  {
    if s == [] || s[0] == ',' || s[0] == '\n' then ("", s)
    else
      var q := PlainCell(s[1..]);
      ([s[0]] + q.0, q.1)
  }

  /** Reading one cell, quoted when it opens with a double quote. */
  function Cell(s: string): (p: (string, string))
    ensures |p.1| <= |s|
  {
    if s != [] && s[0] == '"' then QuotedCell(s[1..]) else PlainCell(s)
  }

  /** Reading the cells of one record, up to a line break or the end. */
  function Cells(s: string): (p: (seq<string>, string))
    ensures |p.0| >= 1 && |p.1| <= |s|
    decreases |s|
  {
    var c := Cell(s);
    if c.1 != [] && c.1[0] == ',' then
      var q := Cells(c.1[1..]);
      ([c.0] + q.0, q.1)
    else ([c.0], c.1)
  }

  /** Reading a document: its records, in order, each a sequence of cells. */
  function Records(s: string): (rs: seq<seq<string>>)
    ensures |rs| >= 1
    decreases |s|
  {
    var c := Cells(s);
    if c.1 != [] && c.1[0] == '\n' then [c.0] + Records(c.1[1..]) else [c.0]
  }

  /** A doubled cell content and its closing quote read back as the content. */
  lemma {:induction false} QuotedOfDoubled(t: string, rest: string)
    requires rest == [] || rest[0] != '"'
    ensures QuotedCell(Doubled(t) + "\"" + rest) == (t, rest)
    decreases |t|
  {
    var s := Doubled(t) + "\"" + rest;
    if t == [] {
      assert s == "\"" + rest;
      assert s[1..] == rest;
    } else if t[0] == '"' {
      QuotedOfDoubled(t[1..], rest);
      assert s == "\"\"" + (Doubled(t[1..]) + "\"" + rest);
      assert s[2..] == Doubled(t[1..]) + "\"" + rest;
      assert "\"" + t[1..] == t;
    } else {
      QuotedOfDoubled(t[1..], rest);
      assert s == [t[0]] + (Doubled(t[1..]) + "\"" + rest);
      assert s[1..] == Doubled(t[1..]) + "\"" + rest;
      assert [t[0]] + t[1..] == t;
    }
  }

  /** A cell free of commas and line breaks reads back as itself. */
  lemma {:induction false} PlainOfPlain(t: string, rest: string)
    requires ',' !in t && '\n' !in t && Ends(rest)
    ensures PlainCell(t + rest) == (t, rest)
    decreases |t|
  {
    if t == [] {
      assert t + rest == rest;
    } else {
      assert (t + rest)[1..] == t[1..] + rest;
      PlainOfPlain(t[1..], rest);
      assert [t[0]] + t[1..] == t;
    }
  }

  /** An escaped cell reads back as the text it escapes. */
  lemma CellOfEscape(t: string, rest: string)
    requires Ends(rest)
    ensures Cell(CsvEscape(t) + rest) == (t, rest)
  {
    if NeedsQuotes(t) {
      ReplaceQuotes(t);
      QuotedEscape(t, rest, CsvEscape(t) + rest);
    } else {
      PlainEscape(t, rest);
    }
  }

  /** A quoted escape reads back through its opening quote. */
  lemma QuotedEscape(t: string, rest: string, s: string)
    requires Ends(rest) && s == "\"" + Doubled(t) + "\"" + rest
    ensures Cell(s) == (t, rest)
  {
    assert s == "\"" + (Doubled(t) + "\"" + rest);
    assert s[1..] == Doubled(t) + "\"" + rest;
    QuotedOfDoubled(t, rest);
  }

  /** A cell that needs no quotes reads back unquoted. */
  lemma PlainEscape(t: string, rest: string)
    requires Ends(rest) && !NeedsQuotes(t)
    ensures Cell(t + rest) == (t, rest)
  {
    PlainOfPlain(t, rest);
    assert t != [] ==> t[0] != '"' by {
      if t != [] {
        assert t[0] in t;
      }
    }
  }

  /** Every cell escaped. */
  function EscapeAll(ts: seq<string>): (r: seq<string>)
    ensures |r| == |ts|
  {
    MapSeq(ts, CsvEscape)
  }

  /** A CSV record written from its cells. */
  function Record(ts: seq<string>): string
  {
    Join(",", EscapeAll(ts))
  }

  /** A written record reads back as its cells. */
  lemma {:induction false} CellsOfRecord(ts: seq<string>, rest: string)
    requires |ts| >= 1 && (rest == [] || rest[0] == '\n')
    ensures Cells(Record(ts) + rest) == (ts, rest)
    decreases |ts|
  {
    if |ts| == 1 {
      assert Record(ts) == CsvEscape(ts[0]);
      CellOfEscape(ts[0], rest);
      assert [ts[0]] == ts;
    } else {
      var more := ts[1..];
      assert EscapeAll(ts)[1..] == EscapeAll(more);
      JoinCons(",", EscapeAll(ts));
      var tail := Record(more) + rest;
      assert Record(ts) + rest == CsvEscape(ts[0]) + ("," + tail);
      CellOfEscape(ts[0], "," + tail);
      assert ("," + tail)[1..] == tail;
      CellsOfRecord(more, rest);
      assert [ts[0]] + more == ts;
    }
  }

  /** Every record written. */
  function RecordsText(rows: seq<seq<string>>): (r: seq<string>)
    ensures |r| == |rows|
  {
    MapSeq(rows, Record)
  }

  /** A document written from records, one per line, reads back as those records. */
  lemma {:induction false} RecordsOfDocument(rows: seq<seq<string>>)
    requires |rows| >= 1 && forall r <- rows :: |r| >= 1
    ensures Records(Join("\n", RecordsText(rows))) == rows
    decreases |rows|
  {
    var texts := RecordsText(rows);
    if |rows| == 1 {
      CellsOfRecord(rows[0], "");
      assert Record(rows[0]) + "" == Join("\n", texts);
    } else {
      var more := rows[1..];
      assert texts[1..] == RecordsText(more);
      JoinCons("\n", texts);
      var tail := Join("\n", RecordsText(more));
      assert Join("\n", texts) == Record(rows[0]) + ("\n" + tail);
      CellsOfRecord(rows[0], "\n" + tail);
      assert ("\n" + tail)[1..] == tail;
      assert rows[0] in rows;
      RecordsOfDocument(more);
      assert [rows[0]] + more == rows;
    }
  }

  // ---------------------------------------------------------------------------------------
  // CSV report
  // ---------------------------------------------------------------------------------------

  const HeaderCells: seq<string> := ["Date", "Repository", "Search Description", "Result", "Source Level", "Negative Result", "Notes"]
  /** The header line, `Date,Repository,Search Description,Result,Source Level,Negative Result,Notes`. */
  const CsvHeader := Join(",", HeaderCells)

  /** A text made of letters and spaces needs no quoting. */
  lemma LettersPlain(t: string)
    requires forall i :: 0 <= i < |t| ==> IsLetter(t[i]) || t[i] == ' '
    ensures !NeedsQuotes(t)
  {
  }

  /** The header line is the header cells written as a record. */
  lemma HeaderIsRecord()
    ensures Record(HeaderCells) == CsvHeader
  {
    var hs := HeaderCells;
    LettersPlain(hs[0]);
    LettersPlain(hs[1]);
    LettersPlain(hs[2]);
    LettersPlain(hs[3]);
    LettersPlain(hs[4]);
    LettersPlain(hs[5]);
    LettersPlain(hs[6]);
    assert EscapeAll(hs) == hs;
  }

  /** The source level's value, or nothing. */
  function LevelCell(l: Option<SourceLevel>): string
  {
    if l.Some? then l.value.Value() else ""
  }

  /** Whether the legacy `negative_result` flag is set and true, as `if entry.negative_result` reads it. */
  predicate Flagged(e: ResearchLogEntry)
  {
    e.negativeResult == Some(true)
  }

  /** An absent optional text as `""`: `x or ""`. */
  function OrEmpty(o: Option<string>): string
  {
    if o.Some? then o.value else ""
  }

  /** The cells of an entry's row, before escaping. */
  function EntryCells(e: ResearchLogEntry): (r: seq<string>)
    ensures |r| == |HeaderCells|
  {
    [e.date, e.repository, OrEmpty(e.searchDescription), e.resultDescription, LevelCell(e.sourceLevel),
     if Flagged(e) then "Yes" else "No", OrEmpty(e.notes)]
  }

  /** The cells of an entry's row as `_generate_csv` writes them: the date, the level and the flag as they are, the free texts escaped. */
  function WrittenCells(e: ResearchLogEntry): seq<string>
  {
    [e.date, CsvEscape(e.repository), CsvEscape(OrEmpty(e.searchDescription)), CsvEscape(e.resultDescription),
     LevelCell(e.sourceLevel), if Flagged(e) then "Yes" else "No", CsvEscape(OrEmpty(e.notes))]
  }

  /** An entry's row: its seven written cells separated by commas. */
  function Row(e: ResearchLogEntry): string
  {
    Join(",", WrittenCells(e))
  }

  /** The rows of a log, in log order. */
  function Rows(es: seq<ResearchLogEntry>): (r: seq<string>)
    ensures |r| == |es|
  {
    MapSeq(es, Row)
  }

  /** The CSV document: the header line, then one row per entry, joined by line breaks. */
  function Csv(es: seq<ResearchLogEntry>): string
  {
    Join("\n", [CsvHeader] + Rows(es))
  }

  /** `_generate_csv` */
  method GenerateCsv(log: ResearchLog) returns (r: string)
    ensures r == Csv(log.entries)
  {
    var entries := log.entries;
    var lines := [CsvHeader];
    for i := 0 to |entries|
      invariant lines == [CsvHeader] + MapSeq(entries[..i], Row)
    {
      MapSnoc(entries, Row, i);
      lines := lines + [Row(entries[i])];
    }
    assert entries[..|entries|] == entries;
    r := Join("\n", lines);
  }

  /** A date cell as `strftime("%Y-%m-%d")` writes it needs no quoting. */
  predicate PlainDates(es: seq<ResearchLogEntry>)
  {
    forall e <- es :: !NeedsQuotes(e.date)
  }

  /** With plain dates, an entry's row is its cells written as a record. */
  lemma RowIsRecord(e: ResearchLogEntry)
    requires !NeedsQuotes(e.date)
    ensures Row(e) == Record(EntryCells(e))
  {
    var cs, ws := EntryCells(e), WrittenCells(e);
    var es := EscapeAll(cs);
    LettersPlain(LevelCell(e.sourceLevel));
    LettersPlain(if Flagged(e) then "Yes" else "No");
    assert es[0] == ws[0] && es[1] == ws[1] && es[2] == ws[2] && es[3] == ws[3];
    assert es[4] == ws[4] && es[5] == ws[5] && es[6] == ws[6];
    assert es == ws;
  }

  /** The cells of every entry, in log order. */
  function AllCells(es: seq<ResearchLogEntry>): (r: seq<seq<string>>)
    ensures |r| == |es|
  {
    MapSeq(es, EntryCells)
  }

  /**
   * Reading the CSV document back gives one header record followed by one record per
   * entry, in log order, each holding exactly the entry's cells, even where a cell
   * holds a comma, a quote or a line break.
   */
  lemma CsvRecords(es: seq<ResearchLogEntry>)
    requires PlainDates(es)
    ensures Records(Csv(es)) == [HeaderCells] + AllCells(es)
    ensures |Records(Csv(es))| == |es| + 1
  {
    LinesAreRecords(es);
    RecordsOfDocument([HeaderCells] + AllCells(es));
  }

  /** With plain dates, the header and the rows are the header cells and the entries' cells written as records. */
  lemma LinesAreRecords(es: seq<ResearchLogEntry>)
    requires PlainDates(es)
    ensures [CsvHeader] + Rows(es) == RecordsText([HeaderCells] + AllCells(es))
  {
    var cells := AllCells(es);
    HeaderIsRecord();
    forall i | 0 <= i < |es|
      ensures Rows(es)[i] == MapSeq(cells, Record)[i]
    {
      assert es[i] in es;
      RowIsRecord(es[i]);
    }
    assert Rows(es) == MapSeq(cells, Record);
    MapCons(HeaderCells, cells, Record);
  }

  // ---------------------------------------------------------------------------------------
  // Summary statistics
  // ---------------------------------------------------------------------------------------

  /** The repository an entry is counted under: `entry.repository or "Unknown"`. */
  function RepositoryName(e: ResearchLogEntry): string
  {
    if e.repository != "" then e.repository else "Unknown"
  }

  /** The keys of the `repos` dictionary after the given entries. */
  function RepositoryNames(es: seq<ResearchLogEntry>): (r: set<string>)
    decreases |es|
  {
    if es == [] then {} else RepositoryNames(es[..|es| - 1]) + {RepositoryName(es[|es| - 1])}
  }

  /** A repository is counted exactly when some entry is filed under it. */
  lemma {:induction false} RepositoryNamesMembers(es: seq<ResearchLogEntry>, x: string)
    ensures x in RepositoryNames(es) <==> exists i :: 0 <= i < |es| && RepositoryName(es[i]) == x
    decreases |es|
  {
    if es != [] {
      var init := es[..|es| - 1];
      RepositoryNamesMembers(init, x);
      assert forall i :: 0 <= i < |init| ==> init[i] == es[i];
    }
  }

  /** There are never more repositories than entries, and at least one when there is an entry. */
  lemma {:induction false} RepositoryCountBounds(es: seq<ResearchLogEntry>)
    ensures |RepositoryNames(es)| <= |es|
    ensures es != [] ==> |RepositoryNames(es)| >= 1
    decreases |es|
  {
    if es != [] {
      RepositoryCountBounds(es[..|es| - 1]);
    }
  }

  /** An entry without a repository is counted under `Unknown`, together with any entry naming it. */
  lemma UnknownRepository(a: ResearchLogEntry, b: ResearchLogEntry)
    requires a.repository == "" && b.repository == "Unknown"
    ensures RepositoryNames([a, b]) == {"Unknown"}
  {
    assert [a, b][..1] == [a];
    assert [a][..0] == [];
    assert RepositoryNames([a]) == {"Unknown"};
  }

  /** The entries carrying the given source level. */
  function LevelCount(es: seq<ResearchLogEntry>, l: SourceLevel): (n: nat)
    ensures n <= |es|
    decreases |es|
  {
    if es == [] then 0 else LevelCount(es[..|es| - 1], l) + Count(es[|es| - 1].sourceLevel == Some(l))
  }

  /** The entries carrying any source level. */
  function LeveledCount(es: seq<ResearchLogEntry>): (n: nat)
    decreases |es|
  {
    if es == [] then 0 else LeveledCount(es[..|es| - 1]) + Count(es[|es| - 1].sourceLevel.Some?)
  }

  /** The three level counts together count every entry that has a level, once. */
  lemma {:induction false} LevelCountsSum(es: seq<ResearchLogEntry>)
    ensures LevelCount(es, Primary) + LevelCount(es, Secondary) + LevelCount(es, Tertiary) == LeveledCount(es)
    decreases |es|
  {
    if es != [] {
      LevelCountsSum(es[..|es| - 1]);
      var l := es[|es| - 1].sourceLevel;
      assert l.None? || l.value.Primary? || l.value.Secondary? || l.value.Tertiary?;
    }
  }

  /** The entries flagged by the legacy `negative_result` field. */
  function NegativeCount(es: seq<ResearchLogEntry>): (n: nat)
    ensures n <= |es|
    decreases |es|
  {
    if es == [] then 0 else NegativeCount(es[..|es| - 1]) + Count(Flagged(es[|es| - 1]))
  }

  /** The entries not flagged negative. */
  function UnflaggedCount(es: seq<ResearchLogEntry>): (n: nat)
    decreases |es|
  {
    if es == [] then 0 else UnflaggedCount(es[..|es| - 1]) + Count(!Flagged(es[|es| - 1]))
  }

  /** `len(entries) - negative_count` is the number of entries not flagged negative. */
  lemma {:induction false} PositiveIsUnflagged(es: seq<ResearchLogEntry>)
    ensures |es| - NegativeCount(es) == UnflaggedCount(es)
    decreases |es|
  {
    if es != [] {
      PositiveIsUnflagged(es[..|es| - 1]);
    }
  }

  /**
   * The summary reads the legacy flag, not `result`: an entry recorded as negative
   * through `result` alone counts as positive.
   */
  lemma ResultAloneCountsPositive(e: ResearchLogEntry)
    requires e.result == NegativeResult && e.negativeResult.None?
    ensures NegativeCount([e]) == 0 && UnflaggedCount([e]) == 1
  {
    assert [e][..0] == [];
  }

  /** A flagged entry built through the entry constructor has result `negative`. */
  lemma FlaggedIsNegative(e: ResearchLogEntry)
    requires Flagged(NewEntry(e))
    ensures NewEntry(e).result == NegativeResult
  {
  }

  const RepositoriesLabel := "- **Repositories searched:** "
  const LevelsLabel := "- **Sources by level:**"
  const PositiveLabel := "- **Positive results:** "
  const NegativeLabel := "- **Negative results:** "

  /** The line for one level when some entry has it. */
  function LevelLine(es: seq<ResearchLogEntry>, l: SourceLevel): seq<string>
  {
    if LevelCount(es, l) > 0 then ["  - " + l.Value() + ": " + NatToString(LevelCount(es, l))] else []
  }

  /** The `Sources by level` block: present when some entry has a level, one line per level present, in key order. */
  function LevelLines(es: seq<ResearchLogEntry>): seq<string>
  {
    if LevelCount(es, Primary) > 0 || LevelCount(es, Secondary) > 0 || LevelCount(es, Tertiary) > 0 then
      [LevelsLabel] + LevelLine(es, Primary) + LevelLine(es, Secondary) + LevelLine(es, Tertiary)
    else []
  }

  /** The dictionary keys in the order `sorted` gives them. */
  lemma LevelKeysAscending()
    ensures Less(Primary.Value(), Secondary.Value()) && Less(Secondary.Value(), Tertiary.Value())
  {
    assert Primary.Value()[0] == 'p' && Secondary.Value()[0] == 's';
    assert Secondary.Value()[..1] == Tertiary.Value()[..0] + ['s'];
  }

  /** The summary lines: repositories, levels present, positive and negative counts. */
  function SummaryLines(es: seq<ResearchLogEntry>): seq<string>
  {
    [RepositoriesLabel + NatToString(|RepositoryNames(es)|)] + LevelLines(es)
    + [PositiveLabel + NatToString(|es| - NegativeCount(es)), NegativeLabel + NatToString(NegativeCount(es))]
  }

  /** The printed positive and negative counts always add up to the number of entries. */
  lemma SummaryTotals(es: seq<ResearchLogEntry>)
    ensures var s := SummaryLines(es);
      |s| >= 3
      && s[|s| - 2] == PositiveLabel + NatToString(UnflaggedCount(es))
      && s[|s| - 1] == NegativeLabel + NatToString(NegativeCount(es))
      && UnflaggedCount(es) + NegativeCount(es) == |es|
  {
    PositiveIsUnflagged(es);
  }

  /** How the `levels` dictionary stands for the counts of the entries scanned so far. */
  predicate LevelsAgree(levels: map<string, nat>, es: seq<ResearchLogEntry>)
  {
    levels.Keys <= {"primary", "secondary", "tertiary"}
    && (Primary.Value() in levels <==> LevelCount(es, Primary) > 0)
    && (Secondary.Value() in levels <==> LevelCount(es, Secondary) > 0)
    && (Tertiary.Value() in levels <==> LevelCount(es, Tertiary) > 0)
    && (Primary.Value() in levels ==> levels[Primary.Value()] == LevelCount(es, Primary))
    && (Secondary.Value() in levels ==> levels[Secondary.Value()] == LevelCount(es, Secondary))
    && (Tertiary.Value() in levels ==> levels[Tertiary.Value()] == LevelCount(es, Tertiary))
  }

  /** The first loop of `_generate_summary`: the `repos` dictionary, entry counts by repository. */
  method CountRepositories(entries: seq<ResearchLogEntry>) returns (repos: map<string, nat>)
    ensures repos.Keys == RepositoryNames(entries)
  {
    repos := map[];
    for i := 0 to |entries|
      invariant repos.Keys == RepositoryNames(entries[..i])
    {
      PrefixPrefix(entries, i);
      var repo := RepositoryName(entries[i]);
      repos := repos[repo := (if repo in repos then repos[repo] else 0) + 1];
    }
    assert entries[..|entries|] == entries;
  }

  /** The second loop of `_generate_summary`: the `levels` dictionary, entry counts by source level. */
  method CountLevels(entries: seq<ResearchLogEntry>) returns (levels: map<string, nat>)
    ensures LevelsAgree(levels, entries)
  {
    levels := map[];
    for i := 0 to |entries|
      invariant LevelsAgree(levels, entries[..i])
    {
      PrefixPrefix(entries, i);
      var e := entries[i];
      if e.sourceLevel.Some? {
        var level := e.sourceLevel.value.Value();
        levels := levels[level := (if level in levels then levels[level] else 0) + 1];
      }
    }
    assert entries[..|entries|] == entries;
  }

  /** `for level, count in sorted(levels.items())`: one line per level present, in key order. */
  method LevelBlock(entries: seq<ResearchLogEntry>, levels: map<string, nat>) returns (lines: seq<string>)
    requires LevelsAgree(levels, entries) && levels != map[]
    ensures lines == LevelLines(entries)
  {
    assert levels.Keys != {};
    lines := [LevelsLabel];
    var order := [Primary, Secondary, Tertiary];
    for j := 0 to 3
      invariant lines == [LevelsLabel]
        + (if j > 0 then LevelLine(entries, Primary) else [])
        + (if j > 1 then LevelLine(entries, Secondary) else [])
        + (if j > 2 then LevelLine(entries, Tertiary) else [])
    {
      var level := order[j].Value();
      if level in levels {
        lines := lines + ["  - " + level + ": " + NatToString(levels[level])];
      }
    }
  }

  /** `sum(1 for e in entries if e.negative_result)` */
  method CountNegatives(entries: seq<ResearchLogEntry>) returns (negatives: nat)
    ensures negatives == NegativeCount(entries)
  {
    negatives := 0;
    for i := 0 to |entries|
      invariant negatives == NegativeCount(entries[..i])
    {
      PrefixPrefix(entries, i);
      negatives := negatives + Count(Flagged(entries[i]));
    }
    assert entries[..|entries|] == entries;
  }

  /** `_generate_summary`: counts repositories, levels and negative flags over the log, then writes the lines. */
  method GenerateSummary(log: ResearchLog) returns (lines: seq<string>)
    ensures lines == SummaryLines(log.entries)
  {
    var entries := log.entries;
    var repos := CountRepositories(entries);
    lines := [RepositoriesLabel + NatToString(|repos|)];
    var levels := CountLevels(entries);
    if levels != map[] {
      var block := LevelBlock(entries, levels);
      lines := lines + block;
    } else {
      assert LevelLines(entries) == [];
    }
    var negatives := CountNegatives(entries);
    var positives := |entries| - negatives;
    lines := lines + [PositiveLabel + NatToString(positives), NegativeLabel + NatToString(negatives)];
  }
}
