# Genealogy assistant core, modelled in Dafny

This project models the deterministic core of a genealogy research assistant. The assistant keeps its research in GEDCOM files and judges it by the Genealogical Proof Standard (GPS). It routes searches to genealogical databases and writes citations and reports. The model covers:

- **Data model** (`models.dfy`). It covers:
  - confidence and source levels;
  - GEDCOM dates, with their text codec (`to_gedcom` and `from_gedcom`) and their string parser;
  - places and names, including parsing a name from a string;
  - sources with their quality score, citations and events;
  - people and families, with their construction rules;
  - research logs with their legacy entry fields;
  - proof summaries.
- **GEDCOM files** (`gedcom_line.dfy`, `gedcom_record.dfy`, `gedcom_date_format.dfy`, `gedcom_build.dfy`, `gedcom_manager.dfy`). It covers:
  - reading and writing a single line;
  - path lookups in a record;
  - the date pattern used by validation;
  - the lines written for new people, families and sources;
  - the `GedcomManager` class. It:
    - loads a file into records, a header, a trailer, four typed indexes and identifier counters;
    - validates identifiers, cross-references and dates;
    - adds people, families and sources, keeping family links two-way;
    - searches by name and generates name variants;
    - saves the file.
- **GPS engine** (`gps.dfy`, `grouping.dfy`). It covers:
  - the person, family and source validators and conflict detection;
  - the exhaustive-research check over a research log;
  - evidence correlation with its confidence rating;
  - conflict resolution and proof summaries;
  - research plans, including the required-searches table. That table is shared by every engine, and research plans grow it.
- **Search router and source registry** (`router.dfy`, `registry.dfy`). It covers:
  - database coverage by place, time and ethnic marker;
  - routing rules sorted by priority;
  - rule-based recommendations with their reasons and search parameters, plus the general fallback;
  - the cache key of a research context;
  - the merge of extra recommendations.
- **Search layer base** (`search_base.dfy`, `surname_variants.dfy`). It covers:
  - the surnames a query covers;
  - the citation line of a result;
  - the shortcut queries;
  - the base surname-variant generator.
- **Reports** (`citations.dfy`, `research_log.dfy`). It covers:
  - Evidence Explained, Chicago and simple citation styles, and bibliographies grouped by source level;
  - placing a source in the source hierarchy and the citation checks;
  - the research-log summary block;
  - CSV output. It is proved to read back using the record format of RFC 4180, section 2.
- **Plugins** (`validation_plugin.dfy`, `citations_plugin.dfy`, `proof_summary_plugin.dfy`). It covers:
  - the five-element GPS compliance report;
  - vital-record and online-database citations, bibliography entries, and keyword classification of sources;
  - the markdown proof summary, the research-log entry and the evidence table.

Helper modules hold the Python semantics the core relies on:

- `wrappers.dfy`: `Option` and `Result`. `None` and exceptions become these.
- `text.dfy`: string operations, namely `strip`, `split`, `join`, `lower`, `upper`, `title`, substring `in`, `replace`, integer printing and string order.
- `ordered_map.dfy`: an insertion-ordered `dict`.
- `sorting.dfy`: a stable `sorted`.

Code that changes state in place stays imperative:

- `GedcomManager` and its mutable `GedcomRecord` objects are classes. Records are shared between the record store and the typed indexes, and `add_family` appends to them.
- The research log is a class.
- The shared search table is a class.
- `SourceRegistry` and `SmartRouter` are classes.
- Each loop of the source is a method with its invariants. It is proved to compute a specification function, and the properties of that function are proved as lemmas.

## Model

| member | source | states |
|---|---|---|
| Models.ConfidenceLevel.Value | src/genealogy_assistant/core/models.py:22-36 | every confidence level has an integer value from 1 to 5 |
| Models.ConfidenceOf | src/genealogy_assistant/core/models.py:22-36 | `ConfidenceLevel(v)` succeeds exactly for 1..5, and the level found has value `v` |
| Models.ConfidenceOfValue | src/genealogy_assistant/core/models.py:22-36 | each level is recovered from its own integer value |
| Models.ModifierOf | src/genealogy_assistant/core/models.py:152-154 | a recognised leading keyword is a modifier other than EXACT whose text is that keyword |
| Models.ModifierOfText | src/genealogy_assistant/core/models.py:62-70 | every modifier except EXACT is recognised from its keyword |
| Models.NewDate | src/genealogy_assistant/core/models.py:80-102 | a date is constructed exactly when month is in 1..12, day in 1..31 and a day has a month, and then unchanged |
| Models.MonthName | src/genealogy_assistant/core/models.py:106-107 | `months[m - 1]` exists exactly for -11..12 (negative indexing), and is the m-th abbreviation for 1..12 |
| Models.MonthNumber | src/genealogy_assistant/core/models.py:141-144 | a recognised month token names month 1..12 whose abbreviation it is |
| Models.MonthNumberOfName | src/genealogy_assistant/core/models.py:106-107 | the month tables of `to_gedcom` and `from_gedcom` agree: each abbreviation maps back to its month |
| Models.ToGedcom | src/genealogy_assistant/core/models.py:104-128 | `to_gedcom` fails (IndexError) exactly when a written month number, or a written end month, lies outside -11..12 |
| Models.ValidDateRenders | src/genealogy_assistant/core/models.py:104-128 | a validly constructed date without an end date always renders |
| Models.FirstAnd | src/genealogy_assistant/core/models.py:157-169 | the main-date scan stops at the first "AND" at or after its start, or at the end |
| Models.FromGedcom | src/genealogy_assistant/core/models.py:139-190 | a parsed date keeps the original text and satisfies the field constraints |
| Models.FromTokens | src/genealogy_assistant/core/models.py:146-190 | the same, once the text is upper-cased and split |
| Models.ParseGedcomDate | src/genealogy_assistant/core/models.py:139-190 | the loop form of `from_gedcom` (its two `while` loops) computes `FromGedcom` |
| Models.ParseDateTokens | src/genealogy_assistant/core/models.py:146-190 | the loop form over the tokens computes `FromTokens` |
| Models.ScanLoop | src/genealogy_assistant/core/models.py:157-183 | each scanning loop stops at the first "AND" for the main date, at the end for the end date, and yields the fields of the scanned tokens |
| Models.ScanSnoc | src/genealogy_assistant/core/models.py:157-169 | scanning one more token applies one step of the loop body |
| Models.DecimalToken | src/genealogy_assistant/core/models.py:157-169 | a decimal token is no month, no modifier keyword and not "AND" |
| Models.NumberToken | src/genealogy_assistant/core/models.py:113-118 | `str(n)` is a decimal token whose value is `n`, and no keyword |
| Models.MonthsNotKeywords | src/genealogy_assistant/core/models.py:106-107 | no month abbreviation is a modifier keyword or "AND" |
| Models.MonthToken | src/genealogy_assistant/core/models.py:106-107 | each month abbreviation reads back as its month and is no other kind of token |
| Models.StepNumber | src/genealogy_assistant/core/models.py:160-168 | a number above 31 is taken as the year, any other as the day |
| Models.StepMonth | src/genealogy_assistant/core/models.py:158-159 | a month abbreviation sets the month |
| Models.ScanDmy | src/genealogy_assistant/core/models.py:157-169 | scanning the day, month and year tokens written for a date with a year above 31 recovers those fields |
| Models.DmyNoAnd | src/genealogy_assistant/core/models.py:109-118 | no day, month or year token is "AND", and the first is no modifier keyword |
| Models.DmyWords | src/genealogy_assistant/core/models.py:109-118 | the day, month and year tokens are upper-case words |
| Models.MainTokensOfRoundTrip | src/genealogy_assistant/core/models.py:109-118 | the main tokens of a writable date: its modifier keyword, then day, month and year |
| Models.EndTokensOfRoundTrip | src/genealogy_assistant/core/models.py:120-126 | the end tokens of a BET date: "AND", then end day, end month and end year |
| Models.TokensOfRoundTrip | src/genealogy_assistant/core/models.py:104-128 | the tokens `to_gedcom` joins for a writable date |
| Models.SplitRoundTripTokens | src/genealogy_assistant/core/models.py:128-146 | upper-casing and splitting the joined text gives those tokens back |
| Models.ReadRoundTripTokens | src/genealogy_assistant/core/models.py:146-190 | reading those tokens recovers year, month, day, modifier and, when written, the end fields |
| Models.FirstAndOfShape | src/genealogy_assistant/core/models.py:157-169 | in written tokens the first "AND" is just after the main date |
| Models.ParseOfShape | src/genealogy_assistant/core/models.py:146-190 | the date read from modifier, main tokens, "AND" and end tokens is built from the scans of the two parts |
| Models.FromGedcomToGedcom | src/genealogy_assistant/core/models.py:104-190 | round trip: `from_gedcom(to_gedcom(d))` recovers year, month, day, modifier and the written end fields of a date with years above 31 |
| Models.ParseMainOnly | src/genealogy_assistant/core/models.py:146-190 | tokens without a modifier and without "AND" are one main date with modifier EXACT |
| Models.DayYearTokensRejected | src/genealogy_assistant/core/models.py:99-102 | a day followed by a year, with no month, is rejected |
| Models.DayWithoutMonthRejected | src/genealogy_assistant/core/models.py:99-102 | a text such as "15 1895" does not construct a date: a day needs a month |
| Models.StripAll | src/genealogy_assistant/core/models.py:216 | the parts of a place text, each stripped |
| Models.PlaceFromString | src/genealogy_assistant/core/models.py:208-240 | `Place.from_string` keeps the whole text as the name |
| Models.PlaceFromParts | src/genealogy_assistant/core/models.py:208-240 | two parts are city and country, three are city, state and country, and other counts fill city, county, state and country in order |
| Models.GedcomNameReadBack | src/genealogy_assistant/core/models.py:453-455 | `Given /Surname/` reads back at its slashes: with no slash in either part, the surname is the text between the slashes |
| Models.FullNameWords | src/genealogy_assistant/core/models.py:436-451 | splitting `full_name` at whitespace gives back the given name, the quoted nickname, prefix, surname and suffix, each only when set |
| Models.FullNamePlain | src/genealogy_assistant/core/models.py:436-451 | without optional parts the full name is given, a space, and surname |
| Models.QualityScore | src/genealogy_assistant/core/models.py:324-341 | the score is the level points plus 3, 2 and 1 for an original, an image and a repository, and lies in 0..10 |
| Models.QualityScoreByLevel | src/genealogy_assistant/core/models.py:324-341 | all else equal, primary scores above secondary, which scores above tertiary |
| Models.FirstBirth | src/genealogy_assistant/core/models.py:512-514 | the first birth-type name at or after a position, with no birth-type name before it |
| Models.PrimaryIndex | src/genealogy_assistant/core/models.py:510-515 | the primary name is absent exactly for no names; it is the first birth-type name, else the first name |
| Models.WithVariantEffect | src/genealogy_assistant/core/models.py:517-520 | adding a variant changes only the primary name, only by adding the variant to its list |
| Models.FirstBirthSameTypes | src/genealogy_assistant/core/models.py:512-514 | the first birth-type name depends only on the name types |
| Models.PrimaryIndexSameTypes | src/genealogy_assistant/core/models.py:510-515 | the primary name's position depends only on the name types |
| Models.WithVariantIdempotent | src/genealogy_assistant/core/models.py:517-520 | `add_name_variant` is idempotent |
| Models.Person.PrimaryName | src/genealogy_assistant/core/models.py:510-515 | `primary_name` is None exactly for no names; with a birth-type name it is the first birth-type name, otherwise the first name |
| Models.Person.AddNameVariant | src/genealogy_assistant/core/models.py:517-520 | the names become `WithVariant(old names, v)` |
| Models.Person.BirthYear | src/genealogy_assistant/core/models.py:522-526 | the year of the birth date exactly when the birth event has a date, else None |
| Models.Person.DeathYear | src/genealogy_assistant/core/models.py:528-532 | the year of the death date exactly when the death event has a date, else None |
| Models.NewFamily | src/genealogy_assistant/core/models.py:600-604 | a family is constructed exactly when it has a husband, a wife or a child, and then unchanged |
| Models.NewEntry | src/genealogy_assistant/core/models.py:655-659 | a legacy `negative_result` flag sets the result to negative or positive; nothing else changes |
| Models.WithResult | src/genealogy_assistant/core/models.py:708-714 | the entries with a result are exactly the log's entries with that result |
| Models.ResultCounts | src/genealogy_assistant/core/models.py:708-714 | positive, negative and inconclusive entries together number the whole log |
| Models.ResearchQuestionOf | src/genealogy_assistant/core/models.py:694-701 | the research question, else the legacy subject, else the legacy objective, else empty |
| Models.ResearchLog.constructor | src/genealogy_assistant/core/models.py:667-701 | a new log has the research question from its legacy fields and no entries |
| Models.ResearchLog.AddEntry | src/genealogy_assistant/core/models.py:703-706 | the entry is appended and `updated_at` is the clock reading given |
| Models.ResearchLog.PositiveResults | src/genealogy_assistant/core/models.py:708-710 | exactly the positive entries |
| Models.ResearchLog.NegativeResults | src/genealogy_assistant/core/models.py:712-714 | exactly the negative entries |
| Models.WithResultSnoc | src/genealogy_assistant/core/models.py:708-714 | selection keeps log order: it distributes over appending one entry |
| GedcomLine.TagValue | src/genealogy_assistant/core/gedcom.py:60 | the tag group `(\S+)` is a non-empty run of non-space characters, and the value is a suffix of the line with no leading whitespace |
| GedcomLine.XrefEnd | src/genealogy_assistant/core/gedcom.py:60 | the optional group `(@[^@]+@)\s+` ends at whitespace after an identifier of the form @...@ |
| GedcomLine.Parse | src/genealogy_assistant/core/gedcom.py:47-71 | `parse` of a blank line is None |
| GedcomLine.Fields | src/genealogy_assistant/core/gedcom.py:59-71 | the fields read after the level keep that level |
| GedcomLine.WithXref | src/genealogy_assistant/core/gedcom.py:59-71 | reading the identifier branch yields a line with that level and an identifier |
| GedcomLine.ParseShape | src/genealogy_assistant/core/gedcom.py:47-71 | a parsed line has a non-empty tag without whitespace, an identifier of the form @...@ when present, and a value that is a suffix of the stripped line |
| GedcomLine.ParseLevel | src/genealogy_assistant/core/gedcom.py:60-66 | the level of a parsed line is the decimal value of its leading digits, which whitespace follows |
| GedcomLine.ParseUnstripped | src/genealogy_assistant/core/gedcom.py:49 | stripping an already stripped line changes nothing |
| GedcomLine.StrippedToString | src/genealogy_assistant/core/gedcom.py:73-81 | `to_string` of a well-formed line has no whitespace at either end and parses back |
| GedcomLine.ParseToString | src/genealogy_assistant/core/gedcom.py:47-81 | round trip: `parse(to_string(l)) == l` for every well-formed line |
| GedcomLine.XrefRecordLineText | src/genealogy_assistant/core/gedcom.py:73-81 | the record line with identifier @I1@ and tag INDI is written `0 @I1@ INDI` |
| GedcomLine.ParseXrefRecordLine | src/genealogy_assistant/core/gedcom.py:59-71 | `0 @I1@ INDI` parses to level 0, identifier @I1@, tag INDI and an empty value |
| GedcomRecord.Subordinates | src/genealogy_assistant/core/gedcom.py:96 | `lines[1:]`: everything after the level-0 line |
| GedcomRecord.ScopeScanStep | src/genealogy_assistant/core/gedcom.py:116-123 | one step of the `get_all_values` loop: the contribution of one line under the scope flag it opens |
| GedcomRecord.TagValues | src/genealogy_assistant/core/gedcom.py:122-123 | no more values than lines |
| GedcomRecord.PathScanSound | src/genealogy_assistant/core/gedcom.py:96-109 | a value found by the path scan is the value of a line at the path's depth carrying the path's last tag |
| GedcomRecord.ValueAtSound | src/genealogy_assistant/core/gedcom.py:91-109 | `get_value` returns only the value of a subordinate line at the path's depth with the path's last tag |
| GedcomRecord.ClosedScopeNeverResumes | src/genealogy_assistant/core/gedcom.py:97-107 | once the match flag is cleared at level 0 it is never set again, so nothing is found |
| GedcomRecord.SingleTagSeesFirstLine | src/genealogy_assistant/core/gedcom.py:91-109 | for a one-tag path only the first subordinate line can match: any other first line hides every later one |
| GedcomRecord.BirthDateHiddenBehindName | src/genealogy_assistant/core/gedcom.py:91-109 | BIRT/DATE is found right after the record line, but a NAME line before BIRT hides it |
| GedcomRecord.ScopeScanUnscoped | src/genealogy_assistant/core/gedcom.py:111-125 | without a parent tag the scan collects every line with the tag |
| GedcomRecord.AllValuesUnscoped | src/genealogy_assistant/core/gedcom.py:111-125 | `get_all_values(tag)` is the values of all subordinate lines with that tag |
| GedcomRecord.ScopeScanClosed | src/genealogy_assistant/core/gedcom.py:114-120 | an empty parent tag is falsy yet `in_parent` starts false, so nothing is ever collected |
| GedcomRecord.AllValuesEmptyParent | src/genealogy_assistant/core/gedcom.py:111-125 | `get_all_values(tag, "")` is always empty |
| GedcomRecord.InScopeStep | src/genealogy_assistant/core/gedcom.py:117-120 | a line is in the parent's scope exactly when it is the parent line, or it is not level 1 and the previous line is in scope |
| GedcomRecord.ScopeScanScoped | src/genealogy_assistant/core/gedcom.py:116-123 | with a parent tag the scan collects the lines with the tag that lie in its scope |
| GedcomRecord.AllValuesScoped | src/genealogy_assistant/core/gedcom.py:111-125 | `get_all_values(tag, parent)` is the tag's values within the parent's scopes |
| GedcomRecord.Record.constructor | src/genealogy_assistant/core/gedcom.py:85-89 | a record holds the identifier, tag and lines given |
| GedcomRecord.Record.GetValue | src/genealogy_assistant/core/gedcom.py:91-109 | the loop of `get_value` computes `ValueAt` |
| GedcomRecord.Record.GetAllValues | src/genealogy_assistant/core/gedcom.py:111-125 | the loop of `get_all_values` computes `AllValues` |
| GedcomRecord.ScanScope | src/genealogy_assistant/core/gedcom.py:113-125 | the scan loop over a line list computes `ScopeScan` |
| GedcomDateFormat.AboutYearConforms | src/genealogy_assistant/core/gedcom.py:365-372 | `ABT 1895` matches the date pattern |
| GedcomDateFormat.DayMonthYearConforms | src/genealogy_assistant/core/gedcom.py:365-372 | `15 jan 1862` matches, in any letter case |
| GedcomDateFormat.RangeConforms | src/genealogy_assistant/core/gedcom.py:365-372 | `BET 1890 AND 1900` matches |
| GedcomDateFormat.NoKeywordRejected | src/genealogy_assistant/core/gedcom.py:365-377 | a value that opens with a character that is neither whitespace nor a digit, and with no keyword, does not match and draws a warning |
| GedcomDateFormat.FreeTextRejected | src/genealogy_assistant/core/gedcom.py:365-377 | `sometime last spring` does not match |
| GedcomBuild.DateLines | src/genealogy_assistant/core/gedcom.py:532-536 | no date writes no line; a date writes one DATE line with its `to_gedcom` text, and fails exactly when `to_gedcom` does |
| GedcomBuild.EventLines | src/genealogy_assistant/core/gedcom.py:530-541 | no event writes nothing; an event's lines fail exactly when its date's rendering does |
| GedcomBuild.PersonLines | src/genealogy_assistant/core/gedcom.py:508-555 | a person's lines are written exactly when the birth and the death render |
| GedcomBuild.MarriageLines | src/genealogy_assistant/core/gedcom.py:596-607 | the marriage lines fail exactly when a marriage date is given that does not render |
| GedcomBuild.ChildLines | src/genealogy_assistant/core/gedcom.py:610-612 | one CHIL line per child, in order |
| GedcomBuild.FamilyLines | src/genealogy_assistant/core/gedcom.py:577-612 | a family's lines are written exactly when its marriage lines are |
| GedcomBuild.ChildLinksCount | src/genealogy_assistant/core/gedcom.py:610-614 | a child listed n times gets n FAMC lines, each naming the family |
| GedcomBuild.SourceLines | src/genealogy_assistant/core/gedcom.py:638-641 | a source record opens with its SOUR line and its TITL line |
| GedcomBuild.StampAll | src/genealogy_assistant/core/gedcom.py:412-416 | every header line stamped, in order |
| GedcomBuild.StampAllShape | src/genealogy_assistant/core/gedcom.py:412-416 | stamping keeps every level, identifier and tag, changes only DATE and TIME values, and is idempotent |
| GedcomBuild.TagValuesAppend | src/genealogy_assistant/core/gedcom.py:116-123 | collecting a tag's values distributes over concatenated lines |
| GedcomBuild.EventLinesTags | src/genealogy_assistant/core/gedcom.py:530-541 | an event writes only its own tag, DATE and PLAC |
| GedcomBuild.ChildLinesValues | src/genealogy_assistant/core/gedcom.py:610-612 | the CHIL lines read back as exactly the children, in order, and as nothing under other tags |
| GedcomBuild.ReadParts | src/genealogy_assistant/core/gedcom.py:111-125 | a record whose subordinate lines fall into four parts reads back part by part |
| GedcomBuild.MarriageLinesTags | src/genealogy_assistant/core/gedcom.py:596-607 | the marriage writes only MARR, DATE and PLAC lines |
| GedcomBuild.PartnerLinesValues | src/genealogy_assistant/core/gedcom.py:584-593 | a HUSB or WIFE line reads back as the partner given, and only under its own tag |
| GedcomBuild.FamilyPartsRead | src/genealogy_assistant/core/gedcom.py:577-612 | a family whose lines fall into partners, marriage and children reads back CHIL, HUSB and WIFE as given |
| GedcomBuild.FamilyLinesRead | src/genealogy_assistant/core/gedcom.py:563-620 | a family written by `add_family` reads back its children, husband and wife through `get_all_values` |
| GedcomBuild.NameLinesValues | src/genealogy_assistant/core/gedcom.py:515-524 | the name lines read back under NAME as `gedcom_name()` of the primary name, and under no unrelated tag |
| GedcomBuild.PersonPartsRead | src/genealogy_assistant/core/gedcom.py:508-555 | a person's lines read back SEX, NAME and no family links |
| GedcomBuild.PersonLinesRead | src/genealogy_assistant/core/gedcom.py:502-561 | a person written by `add_person` reads back its sex, its primary name and no FAMS or FAMC links |
| GedcomBuild.SourceLinesRead | src/genealogy_assistant/core/gedcom.py:634-657 | a source written by `add_source` reads back its title |
| GedcomBuild.RecordText | src/genealogy_assistant/core/gedcom.py:418-421 | one text line per GEDCOM line, in order |
| GedcomBuild.RecordTextParses | src/genealogy_assistant/core/gedcom.py:418-421 | every written line of a well-formed record parses back to its line |
| GedcomManager.IdNumberOfIdText | src/genealogy_assistant/core/gedcom.py:225-246 | the number read back by `@I(\d+)@` from an identifier written by `get_next_*_id` is the counter it was written from |
| GedcomManager.IdTextInjective | src/genealogy_assistant/core/gedcom.py:244-266 | distinct counter values give distinct identifiers |
| GedcomManager.RaiseCounterBounds | src/genealogy_assistant/core/gedcom.py:222-242 | `_update_id_counters` never lowers a counter, leaves it above every number in a matching key, and moves it only to one past such a number |
| GedcomManager.RaiseCounterIgnores | src/genealogy_assistant/core/gedcom.py:222-242 | keys that do not match the identifier pattern leave the counter unchanged |
| GedcomManager.RaiseLoop | src/genealogy_assistant/core/gedcom.py:224-227 | the counter loop computes `RaiseCounter` |
| GedcomManager.ParsedLines | src/genealogy_assistant/core/gedcom.py:179-184 | blank and malformed lines are skipped, so no more lines than the file has |
| GedcomManager.PutAllContents | src/genealogy_assistant/core/gedcom.py:189 | filing records keeps the last record under each key, and keys already filed and not re-filed keep theirs |
| GedcomManager.AssembledShape | src/genealogy_assistant/core/gedcom.py:186-204 | every assembled record opens with its level-0 line |
| GedcomManager.LoadedIndividualHasNoType | src/genealogy_assistant/core/gedcom.py:191-195 | a loaded `0 @I1@ INDI` record gets the line's empty value as its tag, not INDI |
| GedcomManager.FileAllAgrees | src/genealogy_assistant/core/gedcom.py:186-208 | the records filed while loading are the assembled records by key; header and trailer are the last HEAD and TRLR records |
| GedcomManager.IndexIntoKeys | src/genealogy_assistant/core/gedcom.py:210-220 | after indexing, an index holds exactly its old keys plus the records of its type |
| GedcomManager.IndexIntoValues | src/genealogy_assistant/core/gedcom.py:210-220 | an indexed key holds its record, and any other key keeps its old entry |
| GedcomManager.IndexIntoContents | src/genealogy_assistant/core/gedcom.py:210-220 | an index after indexing: exactly its old keys plus the records of its type, each holding its record |
| GedcomManager.IndexIntoKeyed | src/genealogy_assistant/core/gedcom.py:210-220 | indexing keeps every record under its own key |
| GedcomManager.IndexIntoSkips | src/genealogy_assistant/core/gedcom.py:210-220 | records of no index's type leave it unchanged |
| GedcomManager.IndexLoop | src/genealogy_assistant/core/gedcom.py:212-220 | the `_build_indexes` loop files each record in the index of its type |
| GedcomManager.IdsOfMembers | src/genealogy_assistant/core/gedcom.py:289-300 | the seen identifiers are exactly those of the records so far that have one |
| GedcomManager.IdErrorsEmpty | src/genealogy_assistant/core/gedcom.py:287-300 | `_validate_ids` reports nothing exactly when the identifiers are distinct |
| GedcomManager.KeyedIdsDistinct | src/genealogy_assistant/core/gedcom.py:287-300 | records filed under their own key never draw a duplicate-ID error |
| GedcomManager.DanglingMembers | src/genealogy_assistant/core/gedcom.py:307-314 | an error is reported exactly for each reference to a missing target |
| GedcomManager.UnlistedMembers | src/genealogy_assistant/core/gedcom.py:315-325 | a warning is reported exactly for each FAMC family that does not list the person as CHIL |
| GedcomManager.DateIssuesMembers | src/genealogy_assistant/core/gedcom.py:374-383 | a warning is reported exactly for each non-empty DATE value that does not match the pattern |
| GedcomManager.OneDateLine | src/genealogy_assistant/core/gedcom.py:376-383 | a single DATE line warns exactly when its value is non-empty and non-conforming |
| GedcomManager.DanglingLoop | src/genealogy_assistant/core/gedcom.py:307-314 | the reference loop computes `Dangling` |
| GedcomManager.FamcLoop | src/genealogy_assistant/core/gedcom.py:306-325 | the FAMC loop computes the missing-family errors and the unlisted-child warnings |
| GedcomManager.DateLoop | src/genealogy_assistant/core/gedcom.py:375-383 | the DATE loop of one record computes `DateIssues` |
| GedcomManager.ValidateIds | src/genealogy_assistant/core/gedcom.py:287-300 | the `_validate_ids` loop computes `IdErrors` |
| GedcomManager.FamcPass | src/genealogy_assistant/core/gedcom.py:305-325 | the first pass of `_validate_links` computes the FAMC errors and warnings |
| GedcomManager.FamsPass | src/genealogy_assistant/core/gedcom.py:328-337 | the second pass computes the FAMS errors |
| GedcomManager.FamilyPass | src/genealogy_assistant/core/gedcom.py:340-361 | the third pass computes the spouse and child errors |
| GedcomManager.ValidateLinks | src/genealogy_assistant/core/gedcom.py:302-361 | `_validate_links` computes `LinkErrors` and `LinkWarnings` |
| GedcomManager.ValidateDates | src/genealogy_assistant/core/gedcom.py:363-383 | `_validate_dates` computes `DateWarnings` |
| GedcomManager.ValidateStores | src/genealogy_assistant/core/gedcom.py:278-285 | the three checks together; the ID pass never adds an error for keyed stores |
| GedcomManager.PersonId | src/genealogy_assistant/core/gedcom.py:508 | the identifier of an added person is never empty |
| GedcomManager.MatchingMembers | src/genealogy_assistant/core/gedcom.py:679-688 | `find_person_by_name` finds exactly the individuals with a matching NAME, each once |
| GedcomManager.AnyMatch | src/genealogy_assistant/core/gedcom.py:681-686 | the name loop stops at the first matching name |
| GedcomManager.FindByName | src/genealogy_assistant/core/gedcom.py:677-688 | the individuals loop computes `Matching` |
| GedcomManager.ApplyDoublesMembers | src/genealogy_assistant/core/gedcom.py:715-721 | the double-letter loop adds exactly the double-letter variants, keeping them distinct |
| GedcomManager.GrownVariantsMembers | src/genealogy_assistant/core/gedcom.py:696-721 | the variant set holds exactly the surname and its substitution and double-letter variants, each once |
| GedcomManager.NameVariantsShape | src/genealogy_assistant/core/gedcom.py:690-723 | `generate_name_variants` is sorted, holds the title-cased surname, and holds exactly the title-cased variants |
| GedcomManager.SubstitutionsNonEmpty | src/genealogy_assistant/core/gedcom.py:699-706 | no substitution pattern is empty |
| GedcomManager.KeptMembers | src/genealogy_assistant/core/gedcom.py:398-400 | `save` writes exactly the stored records that are neither the header nor the trailer |
| GedcomManager.SaveTextShape | src/genealogy_assistant/core/gedcom.py:385-403 | the saved text ends in `0 TRLR`, starts with the header's lines when there is one, and has the lines of every written record |
| GedcomManager.TextsCount | src/genealogy_assistant/core/gedcom.py:418-421 | the written text has one line per GEDCOM line |
| GedcomManager.WriteRecord | src/genealogy_assistant/core/gedcom.py:418-421 | `_write_record` writes `RecordText` |
| GedcomManager.WriteRecords | src/genealogy_assistant/core/gedcom.py:398-400 | the loop of `save` writes the kept records' text in store order |
| GedcomManager.GrowByDoubles | src/genealogy_assistant/core/gedcom.py:715-721 | the double-letter loop computes `ApplyDoubles` |
| GedcomManager.FamilyLinkedAt | src/genealogy_assistant/core/gedcom.py:584-614 | linking a family appends to each individual exactly its FAMS and FAMC lines, and nothing else |
| GedcomManager.Manager.constructor | src/genealogy_assistant/core/gedcom.py:145-164 | a new manager is empty, with every counter at 1 |
| GedcomManager.Manager.ParseFile | src/genealogy_assistant/core/gedcom.py:174-208 | `_parse` leaves records, header and trailer as `LoadFile` describes |
| GedcomManager.Manager.Load | src/genealogy_assistant/core/gedcom.py:166-172 | `load`: records, header and trailer as `LoadFile` describes, then the indexes and the counters raised |
| GedcomManager.Manager.GetNextIndividualId | src/genealogy_assistant/core/gedcom.py:244-248 | returns `@I<n>@` and increments the counter |
| GedcomManager.Manager.GetNextFamilyId | src/genealogy_assistant/core/gedcom.py:250-254 | returns `@F<n>@` and increments the counter |
| GedcomManager.Manager.GetNextSourceId | src/genealogy_assistant/core/gedcom.py:256-260 | returns `@S<n>@` and increments the counter |
| GedcomManager.Manager.GetNextRepoId | src/genealogy_assistant/core/gedcom.py:262-266 | returns `@R<n>@` and increments the counter |
| GedcomManager.Manager.UpdateIdCounters | src/genealogy_assistant/core/gedcom.py:222-242 | each counter raised by `RaiseCounter` over its own index |
| GedcomManager.Manager.BuildIndexes | src/genealogy_assistant/core/gedcom.py:210-220 | each index extended by `IndexInto` over the records in order |
| GedcomManager.Manager.Validate | src/genealogy_assistant/core/gedcom.py:268-285 | `validate` resets and recomputes errors and warnings, never reports a duplicate ID for keyed records, and returns errors then warnings |
| GedcomManager.Manager.AddFamsLink | src/genealogy_assistant/core/gedcom.py:622-626 | appends a FAMS line to a known individual only |
| GedcomManager.Manager.AddFamcLink | src/genealogy_assistant/core/gedcom.py:628-632 | appends a FAMC line to a known individual only |
| GedcomManager.Manager.AddPerson | src/genealogy_assistant/core/gedcom.py:502-561 | files the person's record under its identifier in records and individuals; an ID is drawn only when the person has none |
| GedcomManager.Manager.LinkChildren | src/genealogy_assistant/core/gedcom.py:610-614 | one CHIL line per child, and one FAMC line appended per listing to each known child |
| GedcomManager.Manager.LinkMembers | src/genealogy_assistant/core/gedcom.py:584-614 | partners get FAMS lines, children FAMC lines, only for known individuals |
| GedcomManager.Manager.AddFamily | src/genealogy_assistant/core/gedcom.py:563-620 | files the family under a fresh `@F<n>@` with its lines, linking partners and children |
| GedcomManager.Manager.AddSource | src/genealogy_assistant/core/gedcom.py:634-657 | files the source under a fresh `@S<n>@` in records and sources |
| GedcomManager.Manager.GetStatistics | src/genealogy_assistant/core/gedcom.py:659-669 | each count is the size of its store |
| GedcomManager.Manager.FindPersonByName | src/genealogy_assistant/core/gedcom.py:671-688 | the individuals with a matching NAME, in index order, each once |
| GedcomManager.Manager.GenerateNameVariants | src/genealogy_assistant/core/gedcom.py:690-723 | the sorted, title-cased variant set |
| GedcomManager.Manager.UpdateHeader | src/genealogy_assistant/core/gedcom.py:405-416 | every DATE and TIME line of the header gets the clock reading, nothing else changes |
| GedcomManager.Manager.WriteAll | src/genealogy_assistant/core/gedcom.py:392-403 | the saved text is `SaveText` of header, trailer and records |
| GedcomManager.Manager.Save | src/genealogy_assistant/core/gedcom.py:385-403 | `save` optionally stamps the header, then writes `SaveText` |
| GedcomManager.GrownTitlesShape | src/genealogy_assistant/core/gedcom.py:696-723 | the sorted title-cased variants: sorted, holding the title-cased surname and exactly the title-cased grown variants |
| GedcomManager.PartnerLinkedAt | src/genealogy_assistant/core/gedcom.py:584-593 | linking partners keeps every individual and appends to each exactly its FAMS lines |
| GedcomManager.ChildLinkedAt | src/genealogy_assistant/core/gedcom.py:610-614 | linking children keeps every individual and appends to each exactly its FAMC lines |
| GedcomManager.FileInto | src/genealogy_assistant/core/gedcom.py:557-559 | a new record filed under its key in both the records store and its type's index |
| GedcomManager.FileBuilt | src/genealogy_assistant/core/gedcom.py:502-561 | filing succeeds exactly when the lines could be built; on failure neither store changes |
| GedcomManager.Manager.File | src/genealogy_assistant/core/gedcom.py:188-189 | a record is filed under its identifier or else its tag, replacing any earlier one |
| GedcomManager.Manager.MarkEnds | src/genealogy_assistant/core/gedcom.py:197-201 | a HEAD record becomes the header, a TRLR record the trailer, and the store is untouched |
| GedcomManager.Manager.FileRecord | src/genealogy_assistant/core/gedcom.py:186-201 | filing the previous record and marking header and trailer follows `FileValue` |
| GedcomManager.Manager.FileLast | src/genealogy_assistant/core/gedcom.py:206-208 | the last record is filed after the loop, as `FileAll` describes |
| GedcomManager.Manager.Reindex | src/genealogy_assistant/core/gedcom.py:170-172 | `load` rebuilds the indexes and raises the counters from them |
| GedcomManager.Manager.FileFamily | src/genealogy_assistant/core/gedcom.py:616-618 | the family record filed under its identifier in records and families, no individual's lines touched |
| Gps.DateIssues | src/genealogy_assistant/core/gps.py:169-193 | at most one date error, and none exactly when the life span is from 0 to 120 years or a year is missing |
| Gps.ValidatePerson | src/genealogy_assistant/core/gps.py:118-167 | valid exactly when there are no errors, exactly when the person has a name, a plausible span, sources for a strong rating and no death while living; one error per failed rule; a warning exactly when nothing is sourced |
| Gps.ValidateFamily | src/genealogy_assistant/core/gps.py:195-220 | valid exactly when the family has a member; a warning for children without parents and one for an unsourced marriage |
| Gps.ValidFamilyConstructible | src/genealogy_assistant/core/gps.py:201-206 | the check of `validate_family` agrees with the family model's own member rule |
| Gps.ValidateSource | src/genealogy_assistant/core/gps.py:222-253 | valid exactly when the title is non-empty; a warning exactly for a derivative primary source; one suggestion each for a tertiary source and for a transcript |
| Gps.DetectConflicts | src/genealogy_assistant/core/gps.py:477-525 | one alert per rule that fires, in rule order, each naming the person; the first is the death-before-birth error exactly when that rule fires |
| Gps.CalculateConfidence | src/genealogy_assistant/core/gps.py:352-372 | speculative exactly when unsupported; reasonable with any conflict; without conflicts weak for one citation, reasonable for two and strong from three; never GPS complete |
| Gps.ConfidenceMonotone | src/genealogy_assistant/core/gps.py:352-372 | more unconflicted supporting citations never lower the rating |
| Gps.ConflictsCap | src/genealogy_assistant/core/gps.py:361-363 | any conflict caps the rating at reasonable, even for a single citation |
| Gps.Correlation | src/genealogy_assistant/core/gps.py:308-350 | correlation fails exactly on an empty citation list, where `max` of an empty dictionary raises |
| Gps.CorrelationPermutes | src/genealogy_assistant/core/gps.py:331-340 | supporting and conflicting citations together are exactly the input citations |
| Gps.CorrelationSupporting | src/genealogy_assistant/core/gps.py:331-343 | the supporting citations are those with the leading key, every conflicting one has another key, and the rating is computed from the two lists |
| Gps.CorrelationLargest | src/genealogy_assistant/core/gps.py:334-336 | no group is larger than the supporting one, and an equally large group is never earlier than it |
| Gps.Searched | src/genealogy_assistant/core/gps.py:271-274 | the searched set holds exactly the lower-cased record types of the entries |
| Gps.Missing | src/genealogy_assistant/core/gps.py:277-281 | a required search is missing exactly when no searched type contains it, lower-cased |
| Gps.Suggestions | src/genealogy_assistant/core/gps.py:287-288 | one `Search <m> records` suggestion per missing search, in order |
| Gps.ExhaustiveValid | src/genealogy_assistant/core/gps.py:255-306 | valid exactly when every required search is covered and every negative result is explained; errors are always empty |
| Gps.NoRequiredSearches | src/genealogy_assistant/core/gps.py:270 | an unknown research type requires nothing, so only the negative results decide |
| Gps.ConflictNotes | src/genealogy_assistant/core/gps.py:385-389 | one `Citation <id>: <fact>` note per conflicting citation, in order |
| Gps.ResolutionShape | src/genealogy_assistant/core/gps.py:374-404 | a resolution is recorded exactly when there are conflicts; one note per conflict; proven exactly when the rating is at least strong |
| Gps.EvidencePartition | src/genealogy_assistant/core/gps.py:426-434 | negative, direct and other citations together are exactly the citations |
| Gps.SummaryRating | src/genealogy_assistant/core/gps.py:436-451 | GPS complete exactly when proven, exactly when there is direct evidence and the search was exhaustive, and the other ratings by the remaining evidence |
| Gps.SummaryEvidence | src/genealogy_assistant/core/gps.py:420-475 | no tertiary evidence, the three evidence lists partition the citations, and an AI note exactly when AI assisted |
| Gps.DefaultSearches | src/genealogy_assistant/core/gps.py:68-96 | the required searches are keyed by the five research types in order |
| Gps.RegionSearches | src/genealogy_assistant/core/gps.py:543-553 | Belgium adds a parish or civil register by birth year and then the population register; Cherokee adds the rolls; any other region nothing |
| Gps.Extended | src/genealogy_assistant/core/gps.py:547-553 | extending the table keeps it well formed |
| Gps.ExtendedGrows | src/genealogy_assistant/core/gps.py:541-553 | `extend` on the shared list grows only the requested type's entry, and only when it exists |
| Gps.SearchSteps | src/genealogy_assistant/core/gps.py:556-557 | one `Search <req>` step per required search, in order |
| Gps.PlanShape | src/genealogy_assistant/core/gps.py:555-564 | the plan is the search steps followed by the three standard steps |
| Gps.SearchedTypes | src/genealogy_assistant/core/gps.py:271-274 | the entries loop computes `Searched` |
| Gps.MissingSearches | src/genealogy_assistant/core/gps.py:277-281 | the required-search loop computes `Missing` |
| Gps.SuggestSearches | src/genealogy_assistant/core/gps.py:287-288 | the suggestion loop computes `Suggestions` |
| Gps.GroupByFact | src/genealogy_assistant/core/gps.py:321-328 | the grouping loop computes `Grouped` by lower-cased, stripped fact |
| Gps.OtherGroups | src/genealogy_assistant/core/gps.py:338-340 | the other groups' citations, in group order, are the conflicting ones |
| Gps.SearchPlan | src/genealogy_assistant/core/gps.py:556-557 | the plan loop computes `SearchSteps` |
| Gps.ExhaustiveCheck | src/genealogy_assistant/core/gps.py:255-306 | `check_exhaustive_research` computes `Exhaustive` |
| Gps.SearchTable.constructor | src/genealogy_assistant/core/gps.py:68-96 | the shared table starts as the required searches |
| Gps.ProofStandard.constructor | src/genealogy_assistant/core/gps.py:115-116 | an engine over the shared table |
| Gps.ProofStandard.CheckExhaustiveResearch | src/genealogy_assistant/core/gps.py:255-306 | `Exhaustive` over the table's current entry for the type |
| Gps.ProofStandard.CorrelateEvidence | src/genealogy_assistant/core/gps.py:308-350 | `Correlation` of the citations |
| Gps.ProofStandard.ResolveConflicts | src/genealogy_assistant/core/gps.py:374-404 | `Resolution` of the correlation |
| Gps.ProofStandard.CreateProofSummary | src/genealogy_assistant/core/gps.py:406-475 | `Summary`, with exhaustiveness checked for the identity type on the current table |
| Gps.ProofStandard.GenerateResearchPlan | src/genealogy_assistant/core/gps.py:527-564 | the plan from the old entry plus the region searches, and the shared table left extended by them |
| Grouping.Grouped | src/genealogy_assistant/core/gps.py:322-328 | the grouping is well formed and non-empty for non-empty input |
| Grouping.GroupedFilter | src/genealogy_assistant/core/gps.py:324-328 | each group holds exactly the citations with its key, in order, and is non-empty |
| Grouping.GroupedPermutes | src/genealogy_assistant/core/gps.py:324-328 | the groups together are exactly the citations |
| Grouping.OthersAndBest | src/genealogy_assistant/core/gps.py:336-340 | the leading group and the others together are all the grouped citations |
| Grouping.BestIndex | src/genealogy_assistant/core/gps.py:335 | `max` picks the first largest group |
| Grouping.GroupedSaid | src/genealogy_assistant/core/gps.py:324-328 | every group key is the key of some citation |
| Grouping.EarlierKeysFirst | src/genealogy_assistant/core/gps.py:324-327 | groups appear in the order their keys first occur |
| Grouping.OthersKeyDiffers | src/genealogy_assistant/core/gps.py:338-340 | no conflicting citation has the leading key |
| Grouping.SingleGroup | src/genealogy_assistant/core/gps.py:331-332 | with one group, its citations are all the citations |
| Grouping.GroupAndOthers | src/genealogy_assistant/core/gps.py:331-340 | the leading group and the others together are exactly the citations |
| SearchBase.AllSurnameVariants | src/genealogy_assistant/search/base.py:106-112 | the surname, when set, and the listed variants, and nothing else |
| SearchBase.SetOfSeqSize | src/genealogy_assistant/search/base.py:112 | turning the variants into a set never makes more of them |
| SearchBase.CitationTextShape | src/genealogy_assistant/search/base.py:167-176 | the citation starts with the collection name or title, contains the film part when there is a film, ends in the record part when there is a record id, and is the head alone otherwise |
| SearchBase.PersonQuery | src/genealogy_assistant/search/base.py:244-258 | `search_person` sets the surname, given name and birth criteria and restricts no record type |
| SearchBase.PersonQueryUnrestricted | src/genealogy_assistant/search/base.py:244-275 | a person search is the birth search without its record-type restriction |
| SearchBase.BirthQuery | src/genealogy_assistant/search/base.py:260-275 | `search_birth` sets the birth criteria and restricts to birth records; every other field keeps its default |
| SearchBase.DeathQuery | src/genealogy_assistant/search/base.py:277-292 | `search_death` sets the death criteria and restricts to death records; every other field keeps its default |
| SearchBase.MarriageQuery | src/genealogy_assistant/search/base.py:294-309 | `search_marriage` sets the spouse and event criteria and restricts to marriage records; every other field keeps its default |
| SearchBase.ShortcutQueriesDiffer | src/genealogy_assistant/search/base.py:260-309 | the three shortcuts never build the same query, and a query covers exactly the surname it was given |
| SearchBase.PairTitlesShape | src/genealogy_assistant/search/base.py:317-338 | with any non-empty substitution pairs, the result is sorted and holds exactly the title-cased base and pair variants |
| SearchBase.SurnameVariantsShape | src/genealogy_assistant/search/base.py:311-338 | `generate_surname_variants` is sorted, holds the title-cased surname, and holds exactly the title-cased variants the substitutions produce |
| SearchBase.GenerateSurnameVariants | src/genealogy_assistant/search/base.py:311-338 | the substitution loop and sort compute `SortedTitles(ProviderVariants(surname))` |
| SurnameVariants.AddVariant | src/genealogy_assistant/search/base.py:334-336 | adding to the variant set keeps it duplicate-free and adds exactly the new variant |
| SurnameVariants.PairStepMembers | src/genealogy_assistant/search/base.py:333-336 | one substitution pair adds exactly the forward and backward replacements that apply |
| SurnameVariants.ApplyPairsMembers | src/genealogy_assistant/search/base.py:332-336 | all pairs add exactly the variants some pair produces, without duplicates |
| SurnameVariants.Titles | src/genealogy_assistant/search/base.py:338 | one title-cased string per variant, in order |
| SurnameVariants.StringOrder | src/genealogy_assistant/search/base.py:338 | string order is a total preorder |
| SurnameVariants.SortedTitlesShape | src/genealogy_assistant/search/base.py:338 | `sorted(v.title() ...)` is sorted, a permutation of the title-cased variants, and holds each of them |
| SurnameVariants.GrowByPairs | src/genealogy_assistant/search/base.py:332-336 | the substitution loop computes `ApplyPairs` |
| Router.ExtractCountries | src/genealogy_assistant/router/smart_router.py:133-165 | the country loop computes `Countries` |
| Router.CountriesCanonical | src/genealogy_assistant/router/smart_router.py:150-164 | only canonical country names are ever returned |
| Router.CountriesFound | src/genealogy_assistant/router/smart_router.py:148-164 | every known name in the lower-cased place yields its canonical country |
| Router.FromSourceDefinition | src/genealogy_assistant/router/smart_router.py:34-53 | copies the source's id, name, level, url, provider and record types; not AI-generated; empty parameters when none or empty are given |
| Router.BuildSearchParams | src/genealogy_assistant/router/smart_router.py:371-387 | `surname` exactly when the surname is truthy, `year_range` exactly when the year is truthy, and no other key |
| Router.YearRangeReadsBack | src/genealogy_assistant/router/smart_router.py:383-385 | the year range splits at its dash into the two years five either side |
| Router.FirstTwo | src/genealogy_assistant/router/smart_router.py:353 | at most two, the leading matches |
| Router.GeoMatches | src/genealogy_assistant/router/smart_router.py:351 | exactly the source's regions related to some location |
| Router.MarkerMatches | src/genealogy_assistant/router/smart_router.py:359 | exactly the markers occurring in some ethnicity |
| Router.GeoReason | src/genealogy_assistant/router/smart_router.py:350-353 | at most one specific reason |
| Router.YearsReason | src/genealogy_assistant/router/smart_router.py:355-356 | at most one specific reason |
| Router.MarkerReason | src/genealogy_assistant/router/smart_router.py:358-361 | at most one specific reason |
| Router.Reasons | src/genealogy_assistant/router/smart_router.py:348-364 | all reasons are specific, and a primary source's last is `primary source` |
| Router.GenerateReason | src/genealogy_assistant/router/smart_router.py:340-369 | the reason is never empty |
| Router.GenerateReasonShape | src/genealogy_assistant/router/smart_router.py:340-369 | a primary source's reason ends in `primary source`; the general fallback is used exactly when no specific reason applies |
| Router.Recommend | src/genealogy_assistant/router/smart_router.py:304-315 | one recommendation per source, in order, numbered from 1 |
| Router.Numbered | src/genealogy_assistant/router/smart_router.py:304 | `enumerate` from 1 applied to every element |
| Router.RecommendOne | src/genealogy_assistant/router/smart_router.py:305-314 | the recommendation carries its priority and source, a non-empty reason, and is not AI-generated |
| Router.RecommendShape | src/genealogy_assistant/router/smart_router.py:304-336 | the priorities are 1..n in order, each for its source, with a non-empty reason |
| Router.FirstTen | src/genealogy_assistant/router/smart_router.py:325 | `[:10]`: the first ten at most, and all of a list of ten or fewer |
| Router.RoutedShape | src/genealogy_assistant/router/smart_router.py:287-338 | rule sources are used whenever there are any; otherwise the first ten general sources; priorities 1..n |
| Router.NotAlready | src/genealogy_assistant/router/smart_router.py:281-283 | exactly the AI recommendations whose source is not already recommended |
| Router.SourceIdSet | src/genealogy_assistant/router/smart_router.py:280 | exactly the source ids of the existing recommendations |
| Router.CacheKeySplits | src/genealogy_assistant/router/smart_router.py:424-432 | a key of colon-free parts splits back into its four parts |
| Router.CacheKeyDetermines | src/genealogy_assistant/router/smart_router.py:424-432 | equal keys of colon-free contexts have equal parts |
| Router.SmartRouter.constructor | src/genealogy_assistant/router/smart_router.py:179-193 | the router keeps its registry and fallback flag |
| Router.SmartRouter.RecommendAll | src/genealogy_assistant/router/smart_router.py:304-315 | the recommendation loop computes `Recommend` |
| Router.SmartRouter.RouteByRules | src/genealogy_assistant/router/smart_router.py:287-338 | `_route_by_rules` computes `Routed` from the matching rules' sources and the general search |
| Router.SmartRouter.MergeAiRecommendations | src/genealogy_assistant/router/smart_router.py:276-285 | with fewer than three, the fallback on and a context, the new AI recommendations are appended; otherwise nothing changes |
| Router.MergeShape | src/genealogy_assistant/router/smart_router.py:279-283 | the merge keeps the rule recommendations first and appends no duplicate source |
| Registry.ContainsYear | src/genealogy_assistant/router/registry.py:24-30 | false exactly when a set start is after the year or a set end before it |
| Registry.Overlaps | src/genealogy_assistant/router/registry.py:32-37 | an open query or open coverage always overlaps |
| Registry.OverlapsCommonYear | src/genealogy_assistant/router/registry.py:39-44 | otherwise overlapping means sharing a year, with missing ends as 0 and 9999 |
| Registry.ContainsYearIsOverlap | src/genealogy_assistant/router/registry.py:24-44 | containing a year is overlapping the one-year range |
| Registry.Lowered | src/genealogy_assistant/router/registry.py:107 | the lower-cased locations, in order |
| Registry.RelatedToAny | src/genealogy_assistant/router/registry.py:112-114 | some location is related to the region by substring either way |
| Registry.GeoScan | src/genealogy_assistant/router/registry.py:108-115 | the region loop finds exactly a related pair |
| Registry.AnyRelated | src/genealogy_assistant/router/registry.py:170-172 | exactly when some condition and location are related |
| Registry.AnyLowerIn | src/genealogy_assistant/router/registry.py:189-191 | exactly when some lower-cased pair is equal |
| Registry.MatchesLocation | src/genealogy_assistant/router/registry.py:100-115 | true for no geography or no location, else exactly when a region and a location are related case-insensitively |
| Registry.MatchesTimeYearAsRange | src/genealogy_assistant/router/registry.py:117-121 | a year query agrees with the one-year range query |
| Registry.MatchesEthnicity | src/genealogy_assistant/router/registry.py:123-134 | true when either list is empty, else exactly when a marker equals an ethnicity case-insensitively |
| Registry.RuleMatches | src/genealogy_assistant/router/registry.py:156-203 | each present condition needs its context part non-empty and matching, with the year inside the rule's range |
| Registry.MatchingRules | src/genealogy_assistant/router/registry.py:300-312 | exactly the rules that match, in order |
| Registry.MatchingRulesSorted | src/genealogy_assistant/router/registry.py:308-312 | filtering keeps rules sorted by priority |
| Registry.PriorityOrder | src/genealogy_assistant/router/registry.py:239 | priority order is a total preorder |
| Registry.RulesSorted | src/genealogy_assistant/router/registry.py:238-239 | the loaded rules are sorted by priority and a permutation of the file's |
| Registry.RulesSortStable | src/genealogy_assistant/router/registry.py:239 | `list.sort` is stable: rules of one priority keep their file order |
| Registry.FirstIndex | src/genealogy_assistant/router/registry.py:325-332 | the first position of an element |
| Registry.FirstIndexUnique | src/genealogy_assistant/router/registry.py:325-332 | a position before which the element does not occur is its first |
| Registry.DedupShape | src/genealogy_assistant/router/registry.py:324-332 | the ordered ids are distinct, are exactly the collected ids, and keep first-occurrence order |
| Registry.KnownSourcesOrder | src/genealogy_assistant/router/registry.py:245-247 | the source of each registered requested id, in the order asked, with the unknown ids dropped; with sources filed under their ids, the result's ids are the registered ids in order |
| Registry.IdsOf | src/genealogy_assistant/router/registry.py:245-247 | the ids of the sources, in order |
| Registry.KnownSourcesAppend | src/genealogy_assistant/router/registry.py:247 | `get_sources` of a concatenation is the concatenation |
| Registry.KnownSourcesIds | src/genealogy_assistant/router/registry.py:245-247 | exactly the requested ids that are registered, and distinct ids give distinct sources |
| Registry.PassingMembers | src/genealogy_assistant/router/registry.py:264-292 | exactly the sources passing every given filter |
| Registry.LevelOrder | src/genealogy_assistant/router/registry.py:295-296 | the level order is a total preorder |
| Registry.FoundShape | src/genealogy_assistant/router/registry.py:253-298 | exactly the passing sources, a permutation of them, sorted primary first, and all of the requested level |
| Registry.FoundStable | src/genealogy_assistant/router/registry.py:296 | sources of one level keep their registration order |
| Registry.Filed | src/genealogy_assistant/router/registry.py:229-231 | the sources are stored each under its own id |
| Registry.FiledInOrder | src/genealogy_assistant/router/registry.py:229-231 | with distinct ids, the keys are the ids in file order |
| Registry.FiledUnderId | src/genealogy_assistant/router/registry.py:229-231 | with distinct ids, each source is stored under its id |
| Registry.SourceRegistry.constructor | src/genealogy_assistant/router/registry.py:209-239 | sources filed under their ids, rules sorted by priority |
| Registry.SourceRegistry.GetSource | src/genealogy_assistant/router/registry.py:241-243 | found exactly for a registered id, and then the source with that id |
| Registry.SourceRegistry.GetSources | src/genealogy_assistant/router/registry.py:245-247 | exactly the registered ones among the requested ids, in the order asked |
| Registry.SourceRegistry.FindSources | src/genealogy_assistant/router/registry.py:253-298 | the filter loop and level sort compute `Found` |
| Registry.SourceRegistry.GetMatchingRules | src/genealogy_assistant/router/registry.py:300-312 | exactly the matching rules, in priority order |
| Registry.SourceRegistry.RuleSources | src/genealogy_assistant/router/registry.py:314-334 | every source found by the rules is the registered source under its own id |
| Registry.SourceRegistry.GetSourcesByRules | src/genealogy_assistant/router/registry.py:314-334 | the collection loop computes `RuleSources`, whose ids are the first occurrences of the matching rules' ids, unknown ones dropped, in order |
| Registry.AddFirstOccurrences | src/genealogy_assistant/router/registry.py:329-332 | one rule's ids extend the ordered list by first occurrences and the seen set by all |
| Registry.RuleSourcesShape | src/genealogy_assistant/router/registry.py:314-334 | the rule sources are distinct and exactly the registered sources some matching rule names; their ids are the deduplicated rule ids with unknown ones dropped, in the order the ids first occur |
| Citations.Field | src/genealogy_assistant/reports/citations.py:80-81 | a field contributes exactly one part, itself, when it is truthy |
| Citations.Wrapped | src/genealogy_assistant/reports/citations.py:84-89 | a decorated field contributes exactly one part, wrapped, when it is truthy |
| Citations.VitalParts | src/genealogy_assistant/reports/citations.py:75-106 | no empty part, one part per present field, jurisdiction first and the microfilm last |
| Citations.Nested | src/genealogy_assistant/reports/citations.py:125-128 | the outer part when truthy, and the inner part only along with it |
| Citations.CensusParts | src/genealogy_assistant/reports/citations.py:108-136 | no empty part, one per present field with nested parts only under their parent, the census year first |
| Citations.BookParts | src/genealogy_assistant/reports/citations.py:196-219 | fails exactly when a publication date is read, which a source does not have; otherwise no empty part |
| Citations.OnlineParts | src/genealogy_assistant/reports/citations.py:221-245 | no empty part, one per present field, the original source last |
| Citations.GenericParts | src/genealogy_assistant/reports/citations.py:247-262 | no empty part, one per present field |
| Citations.EEParts | src/genealogy_assistant/reports/citations.py:53-71 | fails exactly for a type whose formatter reads a field a source lacks, or a book with a publication date; otherwise no empty part |
| Citations.FormatEE | src/genealogy_assistant/reports/citations.py:53-73 | the parts joined by commas and ending in a full stop, with the same failures |
| Citations.EEShowsParts | src/genealogy_assistant/reports/citations.py:73 | every part appears in the formatted citation |
| Citations.EENamesRecord | src/genealogy_assistant/reports/citations.py:75-106 | a vital record names its jurisdiction and microfilm, an online database what it cites |
| Citations.FormatChicago | src/genealogy_assistant/reports/citations.py:264-287 | fails exactly when a publication date is read; otherwise starts with the author and a full stop |
| Citations.JoinHeadPrefix | src/genealogy_assistant/reports/citations.py:287 | a join starts with its first part |
| Citations.FormatSimple | src/genealogy_assistant/reports/citations.py:289-302 | empty exactly when title, author, repository and url are all missing; starts with the title |
| Citations.FormatCitation | src/genealogy_assistant/reports/citations.py:42-51 | the source text, then `, p. <page>` and `; <detail>` when present, failing exactly when the source text fails |
| Citations.FormatSource | src/genealogy_assistant/reports/citations.py:33-40 | the Evidence Explained, Chicago or simple formatter, by style; only the first two can fail |
| Citations.FormatFootnote | src/genealogy_assistant/reports/citations.py:304-307 | `<n>. ` followed by the citation |
| Citations.LastIndex | src/genealogy_assistant/reports/citations.py:326 | the last position of the separator, or none exactly when absent |
| Citations.BibliographyAuthorSwaps | src/genealogy_assistant/reports/citations.py:322-328 | `First Last` becomes `Last, First` at the last space |
| Citations.BibliographyAuthorKept | src/genealogy_assistant/reports/citations.py:325 | an author without a space, or with a comma, is kept |
| Citations.BibliographyEE | src/genealogy_assistant/reports/citations.py:317-346 | fails exactly when a publication date is read; starts with the swapped author, or else the title |
| Citations.BibliographyEntry | src/genealogy_assistant/reports/citations.py:309-315 | the Evidence Explained bibliography form for that style, and the style's citation for the others |
| Citations.CategorizeSourceLevel | src/genealogy_assistant/reports/citations.py:348-394 | primary exactly for the primary types; tertiary exactly for the tertiary types or a tree on an online provider |
| Citations.ListedLevels | src/genealogy_assistant/reports/citations.py:357-394 | each listed type gets its list's level; anything else not from an online provider is secondary |
| Citations.TypeListsDisjoint | src/genealogy_assistant/reports/citations.py:357-377 | the three type lists share nothing |
| Citations.ValidateCitation | src/genealogy_assistant/reports/citations.py:396-430 | a missing source gives exactly the one issue; otherwise no issues exactly when no rule fails, one per failed rule |
| Citations.ValidateCitationIssues | src/genealogy_assistant/reports/citations.py:409-428 | each issue is reported exactly when its rule fails |
| Citations.LevelValueOrder | src/genealogy_assistant/reports/citations.py:444 | sorting on the level's text puts primary before secondary before tertiary |
| Citations.EntryOrder | src/genealogy_assistant/reports/citations.py:444 | the level-then-text order is a total preorder |
| Citations.Collect | src/genealogy_assistant/reports/citations.py:438-441 | one entry per source |
| Citations.CollectAt | src/genealogy_assistant/reports/citations.py:438-441 | each entry is the formatted source |
| Citations.CollectFails | src/genealogy_assistant/reports/citations.py:438-441 | formatting the list fails exactly when one source fails |
| Citations.CollectPrefixFails | src/genealogy_assistant/reports/citations.py:438-441 | the first failure ends the loop |
| Citations.CollectAll | src/genealogy_assistant/reports/citations.py:437-441 | the entry loop computes `Collect` |
| Citations.EntryOf | src/genealogy_assistant/reports/citations.py:439-441 | an entry pairs the source's level with its bibliography text |
| Citations.EntriesShape | src/genealogy_assistant/reports/citations.py:437-441 | failing exactly when some source fails, else one level and text entry per source |
| Citations.HeaderLines | src/genealogy_assistant/reports/citations.py:450-452 | one heading per level |
| Citations.EntryLines | src/genealogy_assistant/reports/citations.py:454 | one line per entry |
| Citations.HeaderLineKind | src/genealogy_assistant/reports/citations.py:451 | a heading is never taken for an entry line |
| Citations.StepLines | src/genealogy_assistant/reports/citations.py:449-454 | one step adds a heading only when the level changes, and always the entry line |
| Citations.ListBodyHeaders | src/genealogy_assistant/reports/citations.py:448-454 | the headings are the levels as they first appear |
| Citations.ListBodyEntries | src/genealogy_assistant/reports/citations.py:448-454 | the entry lines are all the entries, in sorted order |
| Citations.LeadersPresent | src/genealogy_assistant/reports/citations.py:448-453 | a level has a heading exactly when some entry has it |
| Citations.LeadersDistinct | src/genealogy_assistant/reports/citations.py:448-453 | over sorted entries each level gets one heading |
| Citations.SortedKeys | src/genealogy_assistant/reports/citations.py:444 | sorting keeps every level present |
| Citations.EntryLevels | src/genealogy_assistant/reports/citations.py:437-441 | a level appears exactly when some source has it |
| Citations.SourceListShape | src/genealogy_assistant/reports/citations.py:433-456 | the sorted entries are a sorted permutation; one heading per level present, and each entry listed |
| Citations.ListLines | src/genealogy_assistant/reports/citations.py:446-454 | the listing loop produces the title lines followed by the body |
| Citations.FormatSourceList | src/genealogy_assistant/reports/citations.py:433-456 | `format_source_list` computes `SourceList` |
| Citations.SourceList | src/genealogy_assistant/reports/citations.py:433-456 | fails exactly when some source's bibliography entry fails; otherwise opens with `# Sources` |
| ResearchLogReport.PyPrefix | src/genealogy_assistant/reports/research_log.py:243 | Python's `text[:n]`, with a negative bound counting from the end, is a prefix of the length that rule gives |
| ResearchLogReport.Truncate | src/genealogy_assistant/reports/research_log.py:239-243 | text within the length is kept; longer text is a prefix of it followed by `...`, exactly the length when that is at least three |
| ResearchLogReport.TruncateIdempotent | src/genealogy_assistant/reports/research_log.py:239-243 | truncating twice to at least three is truncating once |
| ResearchLogReport.TruncateBelowThree | src/genealogy_assistant/reports/research_log.py:243 | below three the negative slice makes the result longer than asked |
| ResearchLogReport.CsvEscape | src/genealogy_assistant/reports/research_log.py:245-249 | text without comma, quote or newline is kept; otherwise it is quoted |
| ResearchLogReport.ReplaceQuotes | src/genealogy_assistant/reports/research_log.py:248 | `replace('"', '""')` doubles every quote |
| ResearchLogReport.CellOfEscape | src/genealogy_assistant/reports/research_log.py:245-249 | a CSV reader reads an escaped cell back as the original text |
| ResearchLogReport.QuotedOfDoubled | src/genealogy_assistant/reports/research_log.py:248 | a quoted cell's doubled quotes read back as the text |
| ResearchLogReport.PlainOfPlain | src/genealogy_assistant/reports/research_log.py:249 | an unquoted cell reads back as itself |
| ResearchLogReport.CellsOfRecord | src/genealogy_assistant/reports/research_log.py:222 | a row of escaped cells reads back as its cells |
| ResearchLogReport.RecordsOfDocument | src/genealogy_assistant/reports/research_log.py:224 | the joined rows read back as the rows |
| ResearchLogReport.LettersPlain | src/genealogy_assistant/reports/research_log.py:211 | the header's cells need no quoting |
| ResearchLogReport.HeaderIsRecord | src/genealogy_assistant/reports/research_log.py:211 | the header line is the record of its seven cells |
| ResearchLogReport.EntryCells | src/genealogy_assistant/reports/research_log.py:214-220 | seven cells per entry, matching the header |
| ResearchLogReport.Rows | src/genealogy_assistant/reports/research_log.py:213-222 | one line per entry |
| ResearchLogReport.RowIsRecord | src/genealogy_assistant/reports/research_log.py:222 | an entry's line is the record of its cells when its date needs no quoting |
| ResearchLogReport.CsvRecords | src/genealogy_assistant/reports/research_log.py:209-224 | a CSV reader reads the report back as the header and one seven-cell record per entry |
| ResearchLogReport.LinesAreRecords | src/genealogy_assistant/reports/research_log.py:211-224 | the report's lines are the records of the header and entry cells |
| ResearchLogReport.GenerateCsv | src/genealogy_assistant/reports/research_log.py:209-224 | `_generate_csv` computes `Csv` |
| ResearchLogReport.RepositoryNamesMembers | src/genealogy_assistant/reports/research_log.py:118-121 | the counted repositories are exactly the entries' repositories, an empty one as `Unknown` |
| ResearchLogReport.RepositoryCountBounds | src/genealogy_assistant/reports/research_log.py:123 | no more repositories than entries, and at least one when there are entries |
| ResearchLogReport.UnknownRepository | src/genealogy_assistant/reports/research_log.py:120 | an empty repository and an `Unknown` one count as one |
| ResearchLogReport.LevelCount | src/genealogy_assistant/reports/research_log.py:126-130 | a level is counted at most once per entry |
| ResearchLogReport.LevelCountsSum | src/genealogy_assistant/reports/research_log.py:126-130 | the level counts add up to the entries with a level |
| ResearchLogReport.NegativeCount | src/genealogy_assistant/reports/research_log.py:138 | no more negatives than entries |
| ResearchLogReport.PositiveIsUnflagged | src/genealogy_assistant/reports/research_log.py:138-139 | the positive count is the number of entries not flagged negative |
| ResearchLogReport.ResultAloneCountsPositive | src/genealogy_assistant/reports/research_log.py:138 | an entry with a negative result but no flag counts as positive |
| ResearchLogReport.FlaggedIsNegative | src/genealogy_assistant/core/models.py:655-659 | an entry created with a negative flag has a negative result |
| ResearchLogReport.LevelKeysAscending | src/genealogy_assistant/reports/research_log.py:134 | `sorted(levels.items())` lists primary, secondary, tertiary |
| ResearchLogReport.SummaryTotals | src/genealogy_assistant/reports/research_log.py:113-144 | the summary ends in the positive and negative counts, which add up to the entries |
| ResearchLogReport.CountRepositories | src/genealogy_assistant/reports/research_log.py:118-121 | the repository loop counts exactly the repository names |
| ResearchLogReport.CountLevels | src/genealogy_assistant/reports/research_log.py:126-130 | the level loop's counts agree with `LevelCount` |
| ResearchLogReport.LevelBlock | src/genealogy_assistant/reports/research_log.py:132-135 | the level lines are the counts in level order |
| ResearchLogReport.CountNegatives | src/genealogy_assistant/reports/research_log.py:138 | the negative loop computes `NegativeCount` |
| ResearchLogReport.GenerateSummary | src/genealogy_assistant/reports/research_log.py:113-144 | `_generate_summary` computes `SummaryLines` |
| GpsValidationPlugin.Element | src/genealogy_assistant/plugins/gps/validation_plugin.py:52-82 | each element line starts with its number and a full stop and space |
| GpsValidationPlugin.ResearchCheck | src/genealogy_assistant/plugins/gps/validation_plugin.py:50-54 | element 1 passes exactly when the search was exhaustive |
| GpsValidationPlugin.CitationCheck | src/genealogy_assistant/plugins/gps/validation_plugin.py:56-62 | element 2 passes exactly with evidence and primary sources; evidence without primary sources is the PARTIAL issue |
| GpsValidationPlugin.AnalysisCheck | src/genealogy_assistant/plugins/gps/validation_plugin.py:64-68 | element 3 passes exactly with at least two pieces of evidence |
| GpsValidationPlugin.ConflictCheck | src/genealogy_assistant/plugins/gps/validation_plugin.py:70-76 | element 4 passes exactly with no conflicts or resolved ones |
| GpsValidationPlugin.ConclusionCheck | src/genealogy_assistant/plugins/gps/validation_plugin.py:78-82 | element 5 passes exactly with a non-empty conclusion |
| GpsValidationPlugin.PassOf | src/genealogy_assistant/plugins/gps/validation_plugin.py:51-82 | a passing element adds one line to the passed list |
| GpsValidationPlugin.IssueOf | src/genealogy_assistant/plugins/gps/validation_plugin.py:51-82 | a failing element adds one line to the issues |
| GpsValidationPlugin.Combine | src/genealogy_assistant/plugins/gps/validation_plugin.py:47-82 | five lines in all; no issues exactly when every element passes |
| GpsValidationPlugin.Assess | src/genealogy_assistant/plugins/gps/validation_plugin.py:47-85 | no issues exactly when all five conditions hold; a PARTIAL issue for evidence without primary sources; every passed line numbered |
| GpsValidationPlugin.LeadingDigits | src/genealogy_assistant/plugins/gps/validation_plugin.py:52-82 | the elements are numbered 1 to 5 in order |
| GpsValidationPlugin.VerdictIff | src/genealogy_assistant/plugins/gps/validation_plugin.py:85-95 | the report ends in `GPS COMPLIANT` exactly when all five conditions hold |
| GpsValidationPlugin.Verdict | src/genealogy_assistant/plugins/gps/validation_plugin.py:93 | the verdict line is the compliant one exactly when no issue was found |
| GpsValidationPlugin.ReportLines | src/genealogy_assistant/plugins/gps/validation_plugin.py:87-93 | the heading, then the passed lines, the issues heading and issues only when there are issues, and the verdict last |
| GpsValidationPlugin.ValidateProof | src/genealogy_assistant/plugins/gps/validation_plugin.py:28-95 | `validate_proof` ends with the compliant verdict exactly when the search was exhaustive, there are two or more pieces of evidence, primary sources, no unresolved conflict and a conclusion |
| GpsValidationPlugin.IssuesHeading | src/genealogy_assistant/plugins/gps/validation_plugin.py:87-93 | the `ISSUES:` heading appears exactly when there are issues, followed by them in element order |
| CitationsPlugin.VitalRecordCitation | src/genealogy_assistant/plugins/reports/citations_plugin.py:21-42 | starts with the heading and the jurisdiction, and the citation ends with a full stop |
| CitationsPlugin.VitalAccessClause | src/genealogy_assistant/plugins/reports/citations_plugin.py:37-40 | an empty access is like none; otherwise the access clause is inserted before the full stop |
| CitationsPlugin.VitalRecordTypeCase | src/genealogy_assistant/plugins/reports/citations_plugin.py:35 | the record type is title-cased, so its case does not matter |
| CitationsPlugin.LabelledHeading | src/genealogy_assistant/plugins/reports/citations_plugin.py:98 | the classification heading holds the label |
| CitationsPlugin.OnlineDatabaseCitation | src/genealogy_assistant/plugins/reports/citations_plugin.py:76-98 | starts with the heading for its classification and ends with a full stop |
| CitationsPlugin.TertiaryIffNoOriginal | src/genealogy_assistant/plugins/reports/citations_plugin.py:96 | labelled TERTIARY exactly when no original source is given |
| CitationsPlugin.OnlineCitingClause | src/genealogy_assistant/plugins/reports/citations_plugin.py:91-94 | an empty original source is like none; otherwise the citing clause is inserted before the full stop |
| CitationsPlugin.BibliographyParts | src/genealogy_assistant/plugins/reports/citations_plugin.py:233-247 | one part per truthy field, the access part only with a URL, the access or URL last |
| CitationsPlugin.BibliographyEntry | src/genealogy_assistant/plugins/reports/citations_plugin.py:220-251 | the entry starts with its heading |
| CitationsPlugin.AccessDateNeedsUrl | src/genealogy_assistant/plugins/reports/citations_plugin.py:244-247 | without a URL the access date is ignored; with one the entry ends in the access part or the URL |
| CitationsPlugin.FirstFrom | src/genealogy_assistant/plugins/reports/citations_plugin.py:164-198 | the first keyword from a position that occurs, or none exactly when none does |
| CitationsPlugin.ClassifyLevels | src/genealogy_assistant/plugins/reports/citations_plugin.py:141-214 | unclassified exactly when no keyword occurs; primary checked before secondary before tertiary |
| CitationsPlugin.Classify | src/genealogy_assistant/plugins/reports/citations_plugin.py:141-214 | a classification names a keyword of its own level that occurs in the lower-cased description |
| CitationsPlugin.HitMentions | src/genealogy_assistant/plugins/reports/citations_plugin.py:164-198 | a level is hit exactly when one of its keywords occurs |
| CitationsPlugin.ClassifiedKeyword | src/genealogy_assistant/plugins/reports/citations_plugin.py:164-198 | the reported keyword occurs and is the first one of its list that does |
| CitationsPlugin.CensusIsPrimary | src/genealogy_assistant/plugins/reports/citations_plugin.py:147 | anything mentioning census, such as a census index, is primary |
| CitationsPlugin.FindKeyword | src/genealogy_assistant/plugins/reports/citations_plugin.py:164-165 | the keyword loop computes `FirstFrom` |
| CitationsPlugin.LabelOf | src/genealogy_assistant/plugins/reports/citations_plugin.py:166-200 | every classification has a label |
| CitationsPlugin.Heading | src/genealogy_assistant/plugins/reports/citations_plugin.py:166-200 | the heading holds the label |
| CitationsPlugin.Explanation | src/genealogy_assistant/plugins/reports/citations_plugin.py:166-214 | the explanation starts with its classification's heading |
| CitationsPlugin.HeadingsDiffer | src/genealogy_assistant/plugins/reports/citations_plugin.py:166-200 | different labels give headings neither of which starts the other |
| CitationsPlugin.HeadingNamesClass | src/genealogy_assistant/plugins/reports/citations_plugin.py:166-214 | an explanation never starts with another class's heading |
| CitationsPlugin.Scan | src/genealogy_assistant/plugins/reports/citations_plugin.py:164-198 | one keyword loop computes `Hit` |
| CitationsPlugin.ClassifySource | src/genealogy_assistant/plugins/reports/citations_plugin.py:132-214 | `classify_source` explains `Classify` of the description |
| ProofSummaryPlugin.Pieces | src/genealogy_assistant/plugins/reports/proof_summary_plugin.py:36 | no more pieces than the split has |
| ProofSummaryPlugin.PiecesMembers | src/genealogy_assistant/plugins/reports/proof_summary_plugin.py:36 | exactly the non-empty stripped pieces |
| ProofSummaryPlugin.KeptMembers | src/genealogy_assistant/plugins/reports/proof_summary_plugin.py:36 | the kept pieces are exactly the non-empty ones |
| ProofSummaryPlugin.PiecesOfJoin | src/genealogy_assistant/plugins/reports/proof_summary_plugin.py:36 | joining trimmed, separator-free items and splitting again gives them back |
| ProofSummaryPlugin.NoPiecesOfEmpty | src/genealogy_assistant/plugins/reports/proof_summary_plugin.py:36 | empty evidence gives no items |
| ProofSummaryPlugin.OptionalPieces | src/genealogy_assistant/plugins/reports/proof_summary_plugin.py:39-46 | a missing or empty list gives no items |
| ProofSummaryPlugin.ConfidenceLabel | src/genealogy_assistant/plugins/reports/proof_summary_plugin.py:49-55 | `Unknown` exactly outside 1 to 5 |
| ProofSummaryPlugin.ConfidenceLabels | src/genealogy_assistant/plugins/reports/proof_summary_plugin.py:49-55 | each level's label is its name, and different levels have different labels |
| ProofSummaryPlugin.Head | src/genealogy_assistant/plugins/reports/proof_summary_plugin.py:57-69 | eleven lines with the question, the conclusion, the confidence line and the evidence heading in place |
| ProofSummaryPlugin.EvidenceLines | src/genealogy_assistant/plugins/reports/proof_summary_plugin.py:71-72 | the evidence numbered 1..n in order |
| ProofSummaryPlugin.Section | src/genealogy_assistant/plugins/reports/proof_summary_plugin.py:74-80 | no lines for an empty list; otherwise a blank line, the heading and one bullet per item |
| ProofSummaryPlugin.TickedBox | src/genealogy_assistant/plugins/reports/proof_summary_plugin.py:85-88 | a checklist line is ticked exactly when its condition holds |
| ProofSummaryPlugin.Checklist | src/genealogy_assistant/plugins/reports/proof_summary_plugin.py:82-90 | seven lines under the checklist heading |
| ProofSummaryPlugin.OpeningLayout | src/genealogy_assistant/plugins/reports/proof_summary_plugin.py:57-80 | the evidence follows the head; conflicts follow exactly when there are some |
| ProofSummaryPlugin.ClosingLayout | src/genealogy_assistant/plugins/reports/proof_summary_plugin.py:82-104 | the checklist ticks by confidence, evidence count and conflicts; the steps section appears only with steps |
| ProofSummaryPlugin.ChecklistTicks | src/genealogy_assistant/plugins/reports/proof_summary_plugin.py:85-89 | exhaustive research ticked exactly at confidence 4 or more, analysis exactly with two items, conclusion always checked |
| ProofSummaryPlugin.SummaryLayout | src/genealogy_assistant/plugins/reports/proof_summary_plugin.py:57-106 | the whole layout: head, evidence, conflicts, checklist, steps, footer, with their lengths |
| ProofSummaryPlugin.SummaryFront | src/genealogy_assistant/plugins/reports/proof_summary_plugin.py:57-80 | evidence lines and conflict bullets at their positions |
| ProofSummaryPlugin.SummaryBack | src/genealogy_assistant/plugins/reports/proof_summary_plugin.py:82-104 | checklist, step bullets and footer at their positions |
| ProofSummaryPlugin.ChecklistMarks | src/genealogy_assistant/plugins/reports/proof_summary_plugin.py:88 | conflict resolution is ticked when there is no conflict list or any conflicts text |
| ProofSummaryPlugin.AppendEvidence | src/genealogy_assistant/plugins/reports/proof_summary_plugin.py:71-72 | the evidence loop appends `EvidenceLines` |
| ProofSummaryPlugin.AppendBullets | src/genealogy_assistant/plugins/reports/proof_summary_plugin.py:79-80 | the bullet loop appends one bullet per item |
| ProofSummaryPlugin.AppendSection | src/genealogy_assistant/plugins/reports/proof_summary_plugin.py:74-80 | a section appended only with items |
| ProofSummaryPlugin.GenerateProofSummary | src/genealogy_assistant/plugins/reports/proof_summary_plugin.py:21-106 | `generate_proof_summary` computes `ProofSummary` |
| ProofSummaryPlugin.ProofSummary | src/genealogy_assistant/plugins/reports/proof_summary_plugin.py:21-106 | the summary opens with the title and closes with the disclaimer, and shows the question, the conclusion and every evidence item numbered from 1 |
| ProofSummaryPlugin.SummaryLast | src/genealogy_assistant/plugins/reports/proof_summary_plugin.py:57-104 | the summary's first line is the title, its fourth and seventh the question and conclusion, and its last the disclaimer |
| ProofSummaryPlugin.ResultSymbol | src/genealogy_assistant/plugins/reports/proof_summary_plugin.py:125-134 | ✓ exactly for positive, ✗ exactly for negative, ? for anything else |
| ProofSummaryPlugin.EntryLines | src/genealogy_assistant/plugins/reports/proof_summary_plugin.py:131-141 | six lines plus the note exactly for a negative result, with the result and level upper-cased |
| ProofSummaryPlugin.ResearchLogEntry | src/genealogy_assistant/plugins/reports/proof_summary_plugin.py:112-143 | the entry ends in the negative note exactly when the result is negative |
| ProofSummaryPlugin.Cells | src/genealogy_assistant/plugins/reports/proof_summary_plugin.py:169 | one stripped cell per `|` piece |
| ProofSummaryPlugin.RowLine | src/genealogy_assistant/plugins/reports/proof_summary_plugin.py:170-173 | a row is kept exactly when it has three or more cells |
| ProofSummaryPlugin.TableBodyRows | src/genealogy_assistant/plugins/reports/proof_summary_plugin.py:168-173 | the k-th body line is the table line of the k-th row with three or more cells, so wide rows keep their order and other rows are skipped |
| ProofSummaryPlugin.TableBodyCount | src/genealogy_assistant/plugins/reports/proof_summary_plugin.py:168-173 | exactly one line per row with three or more cells |
| ProofSummaryPlugin.GenerateEvidenceTable | src/genealogy_assistant/plugins/reports/proof_summary_plugin.py:149-175 | `generate_evidence_table` computes `EvidenceTable` |
| ProofSummaryPlugin.EvidenceTable | src/genealogy_assistant/plugins/reports/proof_summary_plugin.py:149-175 | the heading lines, then exactly one line per row with three or more cells, in row order, each that row's table line, joined by newlines |
| ProofSummaryPlugin.TableLines | src/genealogy_assistant/plugins/reports/proof_summary_plugin.py:161-173 | the table loop appends `TableBody` to the heading |
| ProofSummaryPlugin.TableRowCells | src/genealogy_assistant/plugins/reports/proof_summary_plugin.py:171-173 | a table row of clean cells reads back as those cells |
| ProofSummaryPlugin.RowLineReadBack | src/genealogy_assistant/plugins/reports/proof_summary_plugin.py:170-173 | a kept row reads back as its first four cells, with `-` for a missing fourth |

## Left out

- Text.LowerChar, Text.UpperChar, Text.Lower, Text.Upper, Text.Title: case mapping covers ASCII letters only. Python maps all of Unicode, where `"MÜLLER".lower()` is `"müller"` and `"straße".upper()` is `"STRASSE"`. On non-ASCII names the members below can give other results than the original. Unicode case tables are not available to the model.
- GedcomManager.Manager.FindPersonByName: matches names after ASCII-only lower-casing, so `MÜLLER` and `müller` do not match here.
- GedcomManager.Manager.GenerateNameVariants: lower-cases and title-cases in ASCII only.
- SearchBase.GenerateSurnameVariants: lower-cases and title-cases in ASCII only.
- Gps.Searched: lower-cases record types in ASCII only.
- Gps.ProofStandard.CheckExhaustiveResearch: compares lower-cased searches in ASCII only.
- Registry.MatchesLocation: compares places lower-cased in ASCII only.
- Registry.MatchesEthnicity: compares markers lower-cased in ASCII only.
- CitationsPlugin.ClassifySource: lower-cases the description in ASCII only before the keyword scan.
- Text.IsDigit, Models.IsDecimal, GedcomDateFormat.Conforms: `\d`, `str.isdigit` and `re.IGNORECASE` are ASCII-only here. Python also accepts other Unicode digits and case-folds non-ASCII letters.
- GedcomManager.Manager.Load: takes the file's lines, already decoded. Opening the file and decoding it are I/O and are not modelled. The decoding is strict UTF-8 with the byte-order mark dropped. An invalid byte raises UnicodeDecodeError part-way through `_parse`: the records read so far stay filed, and the indexes and counters are never rebuilt. That path is not modelled either.
- GedcomManager.Manager.Save: returns the lines it would write. Writing the file and its encoding are I/O. The date and time for the header stamp are parameters.
- GedcomManager.Manager.UpdateHeader: takes the date and time as strings in place of reading the clock.
- Models.ResearchLog.AddEntry: takes the timestamp `now` as a parameter in place of `datetime.now()`.
- Registry.SourceRegistry.constructor: takes the source definitions and routing rules as arguments. Reading and parsing the YAML file (`_load` with `from_dict`, and the missing-file error) is I/O and is not modelled. The rule sort of `_load` is modelled.
- Gps.Searched: `list(set(...))` has no fixed order in Python, so the searched repositories are a set.
- SearchBase.AllSurnameVariants: `list(set(...))` has no fixed order in Python, so the variants are a set.
- Models.Source: `repository` is modelled as `str | None` only. A `Repository` object there is not modelled. With one, `_format_ee` raises for the vital-record and generic formats, and `_format_simple` prints the object's field dump. `quality_score` and `validate_citation` would also count a `Repository` with an empty name as present.
- ResearchLogReport.GenerateCsv: a log entry's `datetime` and a source's `access_date` (a `str` or a `date`) are strings here. The entry's date cell is that string, so `strftime("%Y-%m-%d")` formatting is not modelled.
- Router.SmartRouter.MergeAiRecommendations: the AI recommendations arrive as the `aiRecs` parameter. Asking the language model (`_get_ai_recommendations`), its prompt, parsing its reply and the `_ai_cache` are a network call into code outside the core.
- Router: `route`, `route_async` apart from its merge step, and `PersonContext.from_person` are not modelled. `from_person` builds its location list from a set, which has no fixed order.
- GedcomManager: `get_person` is not modelled. It calls `GenealogyDate.from_string`, which `GenealogyDate` does not define (it has `from_gedcom`), so it raises whenever a birth or death has a DATE line.
- GedcomManager.Manager.ParseFile: the record being assembled is held as a value. It becomes a `GedcomRecord` object only when it is filed, and header and trailer are assigned then. The final state equals the source's: records, header and trailer reach the same values, and nothing else refers to the record while it is being assembled.
- Models: pydantic parsing and coercion (`from_dict`, UUID fields) are not modelled. Identifiers are strings, and `uuid4` defaults become caller-supplied identifiers.
- Models, SearchBase: floating-point fields are not modelled. These are `Place.latitude`/`longitude`, `relevance_score`, `search_time_ms` and `GenealogyDate.to_datetime`.
- SearchBase: the abstract provider operations `search`, `get_record`, `connect`, `close` and the async context manager are network I/O done by subclasses. Of `search_person`, `search_birth`, `search_death` and `search_marriage` only the query each builds is modelled.
- Registry: lists that the source accepts as `list | None` are sequences, with `[]` standing for `None`. Every use tests them only for truthiness.
- Registry, Citations: `list.sort` in place becomes a stable sort that returns a new sequence (`Sorting.SortBy`). Nothing else holds the sorted list, so the results agree.
- Citations: a formatter that raises is modelled as a `Failure`. This covers reading an attribute `Source` lacks (`church_name`, `article_title`) and joining a `GenealogyDate` into a string. The exception's traceback is not modelled.
- Citations.FormatEE: `_format_church_record_ee` and `_format_newspaper_ee` are modelled only up to the attribute each first reads that `Source` does not define (`church_name` and `article_title`).
- ResearchLogReport: the markdown, HTML and by-repository renderings, `_get_date_range`, `generate` and `save` are not modelled. They are text templates and file I/O.
- ResearchLogReport.GenerateSummary: `sorted(levels.items())` is the fixed order primary, secondary, tertiary. This is proved by LevelKeysAscending.
- CitationsPlugin: `format_census_citation` and `format_parish_register_citation` are not modelled.
- GpsValidationPlugin: of the plugin, only `validate_proof` is modelled. `assess_confidence`, `correlate_evidence`, `get_required_searches` and `explain_gps` are not.
- GpsValidationPlugin, CitationsPlugin, ProofSummaryPlugin: the Semantic Kernel decorators, argument annotations and plugin registration are host glue and are not modelled.
- The `reports/proof.py` templates, the command-line and web front ends, the agents, the host adapters and the GEDCOM plugin wrapper are outside the core.
