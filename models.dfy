/**
 * The value types of the genealogy model: confidence and source levels, GEDCOM dates with
 * their text codec, places, names, sources with their quality score, citations, events,
 * people, families, research logs and proof summaries.
 *
 * Identifiers that the original types as `UUID | str` are strings here.
 */
module Models {
  import opened Wrappers
  import opened Text

  // ---------------------------------------------------------------------------------------
  // Enumerations
  // ---------------------------------------------------------------------------------------

  /** Confidence in a conclusion, an integer enumeration from 1 to 5. */
  datatype ConfidenceLevel = Speculative | Weak | Reasonable | Strong | GpsComplete
  {
    function Value(): (v: int)
      ensures 1 <= v <= 5
    {
      match this
      case Speculative => 1
      case Weak => 2
      case Reasonable => 3
      case Strong => 4
      case GpsComplete => 5
    }
  }

  /** `ConfidenceLevel(v)`: `None` where the enumeration raises `ValueError`. */
  function ConfidenceOf(v: int): (r: Option<ConfidenceLevel>)
    ensures r.Some? <==> 1 <= v <= 5
    ensures r.Some? ==> r.value.Value() == v
  {
    if v == 1 then Some(Speculative)
    else if v == 2 then Some(Weak)
    else if v == 3 then Some(Reasonable)
    else if v == 4 then Some(Strong)
    else if v == 5 then Some(GpsComplete)
    else None
  }

  /** Each level is recovered from its integer value. */
  lemma ConfidenceOfValue(c: ConfidenceLevel)
    ensures ConfidenceOf(c.Value()) == Some(c)
  {
  }

  datatype SourceLevel = Primary | Secondary | Tertiary
  {
    /** The enumeration's string value. */
    function Value(): string
    {
      match this
      case Primary => "primary"
      case Secondary => "secondary"
      case Tertiary => "tertiary"
    }
  }

  datatype EvidenceType = Direct | Indirect | Negative

  datatype ConclusionStatus = Proven | Likely | Proposed | Disproven | Unsubstantiated

  datatype DateModifier = Exact | About | Before | After | Between | Calculated | Estimated
  {
    /** The enumeration's string value; the GEDCOM keyword for every modifier but EXACT. */
    function Text(): string
    {
      match this
      case Exact => "exact"
      case About => "ABT"
      case Before => "BEF"
      case After => "AFT"
      case Between => "BET"
      case Calculated => "CAL"
      case Estimated => "EST"
    }
  }

  /** The leading keyword test of `from_gedcom`: one of ABT, BEF, AFT, BET, CAL or EST. */
  function ModifierOf(tok: string): (r: Option<DateModifier>)
    ensures r.Some? ==> r.value != Exact && r.value.Text() == tok
  {
    // every keyword is three upper-case letters, so nothing else needs comparing
    if |tok| != 3 || !IsUpper(tok[0]) then None
    else if tok == "ABT" then Some(About)
    else if tok == "BEF" then Some(Before)
    else if tok == "AFT" then Some(After)
    else if tok == "BET" then Some(Between)
    else if tok == "CAL" then Some(Calculated)
    else if tok == "EST" then Some(Estimated)
    else None
  }

  /** Every modifier except EXACT is recognised from its keyword. */
  lemma ModifierOfText(m: DateModifier)
    requires m != Exact
    ensures ModifierOf(m.Text()) == Some(m)
  {
  }

  /** Python truthiness of an optional integer: present and non-zero. */
  predicate IntTruthy(o: Option<int>)
  {
    o.Some? && o.value != 0
  }

  /** Python truthiness of an optional string: present and non-empty. */
  predicate StrTruthy(o: Option<string>)
  {
    o.Some? && o.value != ""
  }

  /** `sum(1 for ... if b)` for one item: 1 when the condition holds, otherwise 0. */
  function Count(b: bool): nat { if b then 1 else 0 }

  // ---------------------------------------------------------------------------------------
  // Dates
  // ---------------------------------------------------------------------------------------

  datatype GenealogyDate = GenealogyDate(
    year: Option<int>,
    month: Option<int>,
    day: Option<int>,
    modifier: DateModifier,
    endYear: Option<int>,
    endMonth: Option<int>,
    endDay: Option<int>,
    originalText: Option<string>)

  /**
   * The constraints checked when a date is constructed: a month lies in 1..12, a day in 1..31,
   * and a day needs a month. The end fields carry no constraint.
   */
  predicate FieldsValid(d: GenealogyDate)
  {
    (d.month.None? || 1 <= d.month.value <= 12)
    && (d.day.None? || 1 <= d.day.value <= 31)
    && (d.day.Some? ==> d.month.Some?)
  }

  /** Constructing a date: the field constraints and `validate_day`, or a validation error. */
  function NewDate(d: GenealogyDate): (r: Result<GenealogyDate>)
    ensures r.Success? <==> FieldsValid(d)
    ensures r.Success? ==> r.value == d
  {
    if d.month.Some? && !(1 <= d.month.value <= 12) then Failure("month: value out of range")
    else if d.day.Some? && !(1 <= d.day.value <= 31) then Failure("day: value out of range")
    else if d.day.Some? && d.month.None? then Failure("Cannot specify day without month")
    else Success(d)
  }

  const MonthNames: seq<string> :=
    ["JAN", "FEB", "MAR", "APR", "MAY", "JUN", "JUL", "AUG", "SEP", "OCT", "NOV", "DEC"]

  /** `months[m - 1]` in `to_gedcom`, with Python's negative indexing; `None` for `IndexError`. */
  function MonthName(m: int): (r: Option<string>)
    ensures r.Some? <==> -11 <= m <= 12
    ensures 1 <= m <= 12 ==> r == Some(MonthNames[m - 1])
  {
    PyIndex(MonthNames, m - 1)
  }

  /** The month table of `from_gedcom`. */
  function MonthNumber(tok: string): (r: Option<int>)
    ensures r.Some? ==> 1 <= r.value <= 12 && MonthNames[r.value - 1] == tok
  {
    // every abbreviation is three upper-case letters, so nothing else needs comparing
    if |tok| != 3 || !IsUpper(tok[0]) then None
    else if tok == "JAN" then Some(1)
    else if tok == "FEB" then Some(2)
    else if tok == "MAR" then Some(3)
    else if tok == "APR" then Some(4)
    else if tok == "MAY" then Some(5)
    else if tok == "JUN" then Some(6)
    else if tok == "JUL" then Some(7)
    else if tok == "AUG" then Some(8)
    else if tok == "SEP" then Some(9)
    else if tok == "OCT" then Some(10)
    else if tok == "NOV" then Some(11)
    else if tok == "DEC" then Some(12)
    else None
  }

  /** The two month tables agree: each abbreviation maps back to its month. */
  lemma MonthNumberOfName(m: int)
    requires 1 <= m <= 12
    ensures MonthNumber(MonthNames[m - 1]) == Some(m)
  {
  }

  /** A number part of `to_gedcom`: written only when truthy. */
  function NumberPart(o: Option<int>): seq<string>
  {
    if IntTruthy(o) then [IntToString(o.value)] else []
  }

  /** A month part of `to_gedcom`: written only when truthy, `None` when the lookup raises. */
  function MonthPart(o: Option<int>): Option<seq<string>>
  {
    if !IntTruthy(o) then Some([])
    else match MonthName(o.value)
      case Some(n) => Some([n])
      case None => None
  }

  /** Whether `to_gedcom` writes an end date: BET with a truthy end year. */
  predicate HasEnd(d: GenealogyDate)
  {
    d.modifier == Between && IntTruthy(d.endYear)
  }

  /** The modifier keyword and the main date `to_gedcom` writes; `None` when the month lookup raises. */
  function MainTokens(d: GenealogyDate): Option<seq<string>>
  {
    var modPart := if d.modifier == Exact then [] else [d.modifier.Text()];
    match MonthPart(d.month)
    case None => None
    case Some(m) => Some(modPart + NumberPart(d.day) + m + NumberPart(d.year))
  }

  /** The "AND" end date `to_gedcom` writes for BET; `None` when the end month lookup raises. */
  function EndTokens(d: GenealogyDate): Option<seq<string>>
  {
    if !HasEnd(d) then Some([])
    else match MonthPart(d.endMonth)
      case None => None
      case Some(em) => Some(["AND"] + NumberPart(d.endDay) + em + [IntToString(d.endYear.value)])
  }

  /** The tokens `to_gedcom` joins with single spaces. */
  function DateTokens(d: GenealogyDate): Option<seq<string>>
  {
    match (MainTokens(d), EndTokens(d))
    case (Some(main), Some(end)) => Some(main + end)
    case _ => None
  }

  /**
   * `to_gedcom`. `None` stands for the `IndexError` raised when a written month number lies
   * outside -11..12; an end month is only looked up when an end date is written.
   */
  function ToGedcom(d: GenealogyDate): (r: Option<string>)
    ensures r.None? <==>
      (IntTruthy(d.month) && !(-11 <= d.month.value <= 12))
      || (HasEnd(d) && IntTruthy(d.endMonth) && !(-11 <= d.endMonth.value <= 12))
  {
    match DateTokens(d)
    case None => None
    case Some(ts) => Some(Join(" ", ts))
  }

  /** A constructed date without an end date always renders. */
  lemma ValidDateRenders(d: GenealogyDate)
    requires FieldsValid(d) && !HasEnd(d)
    ensures ToGedcom(d).Some?
  {
  }

  /** The date fields one scanning loop of `from_gedcom` fills in. */
  datatype DateFields = DateFields(year: Option<int>, month: Option<int>, day: Option<int>)

  const NoFields := DateFields(None, None, None)

  /** `tok.isdigit()` for ASCII digits. */
  predicate IsDecimal(tok: string)
  {
    tok != [] && AllDigits(tok)
  }

  /**
   * One iteration of either scanning loop: a month abbreviation sets the month, a number
   * above 31 the year and any other number the day; other tokens are skipped.
   */
  function Step(tok: string, f: DateFields): DateFields
  {
    match MonthNumber(tok)
    case Some(m) => f.(month := Some(m))
    case None =>
      if IsDecimal(tok) then
        var n := DigitsValue(tok);
        if n > 31 then f.(year := Some(n)) else f.(day := Some(n))
      else f
  }

  /** The fields after scanning `ts` from left to right. */
  function Scan(ts: seq<string>): DateFields
    decreases |ts|
  {
    if ts == [] then NoFields else Step(ts[|ts| - 1], Scan(ts[..|ts| - 1]))
  }

  /** The index of the first "AND" at or after `i`, or the end of `ts`. */
  function FirstAnd(ts: seq<string>, i: nat): (j: nat)
    requires i <= |ts|
    ensures i <= j <= |ts|
    ensures j < |ts| ==> ts[j] == "AND"
    ensures forall k :: i <= k < j ==> ts[k] != "AND"
    decreases |ts| - i
  {
    if i == |ts| || ts[i] == "AND" then i else FirstAnd(ts, i + 1)
  }

  /**
   * `from_gedcom`: upper-case and split the text, take a leading modifier keyword, scan the
   * main date up to "AND", scan the end date only for BET, and construct the date. A
   * `Failure` is the validation error the construction raises.
   */
  function FromGedcom(s: string): (r: Result<GenealogyDate>)
    ensures r.Success? ==> r.value.originalText == Some(s) && FieldsValid(r.value)
  {
    FromTokens(SplitWs(Upper(s)), s)
  }

  /** `from_gedcom` once the text `s` is split into the upper-cased tokens `parts`. */
  function FromTokens(parts: seq<string>, s: string): (r: Result<GenealogyDate>)
    ensures r.Success? ==> r.value.originalText == Some(s) && FieldsValid(r.value)
  {
    var lead := if parts != [] then ModifierOf(parts[0]) else None;
    var modifier := lead.UnwrapOr(Exact);
    var start := if lead.Some? then 1 else 0;
    var stop := FirstAnd(parts, start);
    var main := Scan(parts[start..stop]);
    var end := if modifier == Between && stop < |parts| then Scan(parts[stop + 1..]) else NoFields;
    NewDate(GenealogyDate(main.year, main.month, main.day, modifier, end.year, end.month, end.day, Some(s)))
  }

  /** `from_gedcom` as the original writes it, with its two `while` loops over the tokens. */
  method ParseGedcomDate(s: string) returns (r: Result<GenealogyDate>)
    ensures r == FromGedcom(s)
  {
    var parts := SplitWs(Upper(s));
    r := ParseDateTokens(parts, s);
  }

  /** `from_gedcom` over the upper-cased tokens `parts` of `s`. */
  method ParseDateTokens(parts: seq<string>, s: string) returns (r: Result<GenealogyDate>)
    ensures r == FromTokens(parts, s)
  {
    var modifier := Exact;
    var idx := 0;
    if |parts| > 0 && ModifierOf(parts[0]).Some? {
      modifier := ModifierOf(parts[0]).value;
      idx := 1;
    }
    var year, month, day, stop := ScanLoop(parts, idx, true);
    var endYear: Option<int>, endMonth: Option<int>, endDay: Option<int> := None, None, None;
    if modifier == Between && stop < |parts| && parts[stop] == "AND" {
      var last;
      endYear, endMonth, endDay, last := ScanLoop(parts, stop + 1, false);
      assert parts[stop + 1..last] == parts[stop + 1..];
    }
    r := NewDate(GenealogyDate(year, month, day, modifier, endYear, endMonth, endDay, Some(s)));
  }

  /**
   * One scanning loop of `from_gedcom`, from token `i` up to the first "AND" (the main date)
   * or up to the end (the end date after "AND").
   */
  method ScanLoop(parts: seq<string>, i: nat, stopAtAnd: bool) returns (year: Option<int>, month: Option<int>, day: Option<int>, idx: nat)
    requires i <= |parts|
    ensures idx == (if stopAtAnd then FirstAnd(parts, i) else |parts|)
    ensures DateFields(year, month, day) == Scan(parts[i..idx])
  {
    year, month, day := None, None, None;
    idx := i;
    while idx < |parts| && !(stopAtAnd && parts[idx] == "AND")
      invariant i <= idx <= (if stopAtAnd then FirstAnd(parts, i) else |parts|)
      invariant DateFields(year, month, day) == Scan(parts[i..idx])
      decreases |parts| - idx
    {
      var tok := parts[idx];
      ghost var before := DateFields(year, month, day);
      if MonthNumber(tok).Some? {
        month := MonthNumber(tok);
      } else if IsDecimal(tok) {
        var num := DigitsValue(tok);
        if num > 31 {
          year := Some(num);
        } else {
          day := Some(num);
        }
      }
      assert DateFields(year, month, day) == Step(tok, before);
      assert parts[i..idx + 1] == parts[i..idx] + [tok];
      ScanSnoc(parts[i..idx], tok);
      idx := idx + 1;
    }
  }

  // Round trip: lemmas about single tokens and token lists

  lemma ScanSnoc(ts: seq<string>, t: string)
    ensures Scan(ts + [t]) == Step(t, Scan(ts))
  {
    assert (ts + [t])[..|ts|] == ts;
  }

  /** A decimal token is neither a month, a modifier keyword nor "AND". */
  lemma DecimalToken(t: string)
    requires IsDecimal(t)
    ensures MonthNumber(t).None? && ModifierOf(t).None? && t != "AND" && NoLower(t) && NoSpace(t)
  {
    assert IsDigit(t[0]);
    forall i | 0 <= i < |t| ensures !IsSpace(t[i]) {
      DigitNotSpace(t[i]);
    }
  }

  /** A number token is neither a month, a modifier keyword nor "AND". */
  lemma NumberToken(n: nat)
    ensures var t := NatToString(n);
      IsDecimal(t) && DigitsValue(t) == n && MonthNumber(t).None? && ModifierOf(t).None? && t != "AND"
      && NoLower(t) && NoSpace(t)
  {
    DigitsValueOfNatToString(n);
    DecimalToken(NatToString(n));
  }

  /** No month abbreviation is a modifier keyword or "AND". */
  lemma MonthsNotKeywords()
    ensures ModifierOf("JAN").None? && "JAN" != "AND"
    ensures ModifierOf("FEB").None? && "FEB" != "AND"
    ensures ModifierOf("MAR").None? && "MAR" != "AND"
    ensures ModifierOf("APR").None? && "APR" != "AND"
    ensures ModifierOf("MAY").None? && "MAY" != "AND"
    ensures ModifierOf("JUN").None? && "JUN" != "AND"
    ensures ModifierOf("JUL").None? && "JUL" != "AND"
    ensures ModifierOf("AUG").None? && "AUG" != "AND"
    ensures ModifierOf("SEP").None? && "SEP" != "AND"
    ensures ModifierOf("OCT").None? && "OCT" != "AND"
    ensures ModifierOf("NOV").None? && "NOV" != "AND"
    ensures ModifierOf("DEC").None? && "DEC" != "AND"
  {
  }

  /** A month abbreviation is not a modifier keyword nor "AND", and is an upper-case word. */
  lemma MonthToken(m: int)
    requires 1 <= m <= 12
    ensures var t := MonthNames[m - 1];
      MonthNumber(t) == Some(m) && ModifierOf(t).None? && t != "AND" && !IsDecimal(t)
      && t != [] && NoLower(t) && NoSpace(t)
  {
    var t := MonthNames[m - 1];
    MonthNumberOfName(m);
    MonthsNotKeywords();
    if m == 1 {
      assert t == "JAN";
    } else if m == 2 {
      assert t == "FEB";
    } else if m == 3 {
      assert t == "MAR";
    } else if m == 4 {
      assert t == "APR";
    } else if m == 5 {
      assert t == "MAY";
    } else if m == 6 {
      assert t == "JUN";
    } else if m == 7 {
      assert t == "JUL";
    } else if m == 8 {
      assert t == "AUG";
    } else if m == 9 {
      assert t == "SEP";
    } else if m == 10 {
      assert t == "OCT";
    } else if m == 11 {
      assert t == "NOV";
    } else if m == 12 {
      assert t == "DEC";
    }
    MonthWord(t);
  }

  lemma MonthWord(t: string)
    requires |t| == 3 && IsUpper(t[0]) && IsUpper(t[1]) && IsUpper(t[2])
    ensures !IsDecimal(t) && NoLower(t) && NoSpace(t)
  {
    PrintableNotSpace(t[0]);
    PrintableNotSpace(t[1]);
    PrintableNotSpace(t[2]);
  }

  lemma KeywordToken(t: string)
    requires t == "AND" || ModifierOf(t).Some?
    ensures t != [] && NoLower(t) && NoSpace(t)
  {
    assert |t| == 3 && IsUpper(t[0]) && IsUpper(t[1]) && IsUpper(t[2]);
    MonthWord(t);
  }

  /** The conditions under which `from_gedcom(to_gedcom(d))` recovers `d`. */
  predicate RoundTrips(d: GenealogyDate)
  {
    FieldsValid(d) && d.year.Some? && d.year.value > 31
    && (HasEnd(d) ==>
          d.endYear.value > 31
          && (d.endMonth.None? || 1 <= d.endMonth.value <= 12)
          && (d.endDay.None? || 1 <= d.endDay.value <= 31))
  }

  /** The tokens of a day, month and year with the day and month optional. */
  function DmyTokens(year: nat, month: Option<int>, day: Option<int>): seq<string>
    requires month.None? || 1 <= month.value <= 12
  {
    (if day.Some? && day.value >= 1 then [NatToString(day.value)] else [])
    + (if month.Some? then [MonthNames[month.value - 1]] else [])
    + [NatToString(year)]
  }

  lemma StepNumber(n: nat, f: DateFields)
    ensures Step(NatToString(n), f) == if n > 31 then f.(year := Some(n)) else f.(day := Some(n))
  {
    NumberToken(n);
  }

  lemma StepMonth(m: int, f: DateFields)
    requires 1 <= m <= 12
    ensures Step(MonthNames[m - 1], f) == f.(month := Some(m))
  {
    MonthToken(m);
  }

  /** Scanning a day, month and year part recovers its fields. */
  lemma ScanDmy(year: nat, month: Option<int>, day: Option<int>)
    requires year > 31
    requires month.None? || 1 <= month.value <= 12
    requires day.None? || 1 <= day.value <= 31
    ensures Scan(DmyTokens(year, month, day)) == DateFields(Some(year), month, day)
  {
    var dp := if day.Some? then [NatToString(day.value)] else [];
    var mp := if month.Some? then [MonthNames[month.value - 1]] else [];
    var yt := NatToString(year);
    assert DmyTokens(year, month, day) == (dp + mp) + [yt];
    ScanSnoc(dp + mp, yt);
    StepNumber(year, DateFields(None, month, day));
    if day.Some? {
      assert dp == [] + [NatToString(day.value)];
      ScanSnoc([], NatToString(day.value));
      StepNumber(day.value, NoFields);
    }
    var afterDay := DateFields(None, None, day);
    assert Scan(dp) == afterDay;
    if month.Some? {
      ScanSnoc(dp, MonthNames[month.value - 1]);
      StepMonth(month.value, afterDay);
    } else {
      assert dp + mp == dp;
    }
    assert Scan(dp + mp) == DateFields(None, month, day);
  }

  /** No day, month or year token is "AND", and the first is not a modifier keyword. */
  lemma DmyNoAnd(year: nat, month: Option<int>, day: Option<int>)
    requires month.None? || 1 <= month.value <= 12
    ensures forall k :: 0 <= k < |DmyTokens(year, month, day)| ==> DmyTokens(year, month, day)[k] != "AND"
    ensures ModifierOf(DmyTokens(year, month, day)[0]).None?
  {
    NumberToken(year);
    if day.Some? && day.value >= 1 {
      NumberToken(day.value);
    }
    if month.Some? {
      MonthToken(month.value);
    }
  }

  /** The day, month and year tokens are upper-case words. */
  lemma DmyWords(year: nat, month: Option<int>, day: Option<int>)
    requires month.None? || 1 <= month.value <= 12
    ensures Words(DmyTokens(year, month, day))
    ensures forall k :: 0 <= k < |DmyTokens(year, month, day)| ==> NoLower(DmyTokens(year, month, day)[k])
    ensures !IsDecimal(DmyTokens(year, month, day)[0]) ==>
      month.Some? && DmyTokens(year, month, day)[0] == MonthNames[month.value - 1]
  {
    NumberToken(year);
    if day.Some? && day.value >= 1 {
      NumberToken(day.value);
    }
    if month.Some? {
      MonthToken(month.value);
    }
  }

  lemma MainTokensOfRoundTrip(d: GenealogyDate)
    requires RoundTrips(d)
    ensures MainTokens(d) == Some((if d.modifier == Exact then [] else [d.modifier.Text()]) + DmyTokens(d.year.value, d.month, d.day))
  {
    var modPart := if d.modifier == Exact then [] else [d.modifier.Text()];
    var mm := if d.month.Some? then [MonthNames[d.month.value - 1]] else [];
    assert MonthPart(d.month) == Some(mm);
    assert NumberPart(d.day) == (if d.day.Some? && d.day.value >= 1 then [NatToString(d.day.value)] else []);
    assert NumberPart(d.year) == [NatToString(d.year.value)];
    assert modPart + NumberPart(d.day) + mm + NumberPart(d.year) == modPart + DmyTokens(d.year.value, d.month, d.day);
  }

  lemma EndTokensOfRoundTrip(d: GenealogyDate)
    requires RoundTrips(d) && HasEnd(d)
    ensures EndTokens(d) == Some(["AND"] + DmyTokens(d.endYear.value, d.endMonth, d.endDay))
  {
    var em := if d.endMonth.Some? then [MonthNames[d.endMonth.value - 1]] else [];
    assert MonthPart(d.endMonth) == Some(em);
    assert NumberPart(d.endDay) == (if d.endDay.Some? && d.endDay.value >= 1 then [NatToString(d.endDay.value)] else []);
    assert ["AND"] + NumberPart(d.endDay) + em + [IntToString(d.endYear.value)] == ["AND"] + DmyTokens(d.endYear.value, d.endMonth, d.endDay);
  }

  /** The tokens `to_gedcom` writes for a date that round-trips. */
  function RoundTripTokens(d: GenealogyDate): seq<string>
    requires RoundTrips(d)
  {
    (if d.modifier == Exact then [] else [d.modifier.Text()])
    + DmyTokens(d.year.value, d.month, d.day)
    + (if HasEnd(d) then ["AND"] + DmyTokens(d.endYear.value, d.endMonth, d.endDay) else [])
  }

  lemma TokensOfRoundTrip(d: GenealogyDate)
    requires RoundTrips(d)
    ensures DateTokens(d) == Some(RoundTripTokens(d))
  {
    MainTokensOfRoundTrip(d);
    if HasEnd(d) {
      EndTokensOfRoundTrip(d);
    }
  }

  /** Those tokens are upper-case words, so splitting their upper-cased join gives them back. */
  lemma SplitRoundTripTokens(d: GenealogyDate)
    requires RoundTrips(d)
    ensures SplitWs(Upper(Join(" ", RoundTripTokens(d)))) == RoundTripTokens(d)
  {
    var ts := RoundTripTokens(d);
    DmyWords(d.year.value, d.month, d.day);
    if HasEnd(d) {
      DmyWords(d.endYear.value, d.endMonth, d.endDay);
      KeywordToken("AND");
    }
    if d.modifier != Exact {
      ModifierOfText(d.modifier);
      KeywordToken(d.modifier.Text());
    }
    assert Words(ts) && forall k :: 0 <= k < |ts| ==> NoLower(ts[k]);
    JoinNoLower(" ", ts);
    UpperNoLower(Join(" ", ts));
    SplitWsJoin(ts);
  }

  /** Reading those tokens back recovers the date's fields. */
  lemma ReadRoundTripTokens(d: GenealogyDate, s: string)
    requires RoundTrips(d)
    ensures var r := FromTokens(RoundTripTokens(d), s);
      r.Success? && r.value.year == d.year && r.value.month == d.month && r.value.day == d.day
      && r.value.modifier == d.modifier
      && (HasEnd(d) ==> r.value.endYear == d.endYear && r.value.endMonth == d.endMonth && r.value.endDay == d.endDay)
      && (!HasEnd(d) ==> r.value.endYear.None? && r.value.endMonth.None? && r.value.endDay.None?)
  {
    var modPart := if d.modifier == Exact then [] else [d.modifier.Text()];
    var main := DmyTokens(d.year.value, d.month, d.day);
    var end := if HasEnd(d) then DmyTokens(d.endYear.value, d.endMonth, d.endDay) else [];
    ScanDmy(d.year.value, d.month, d.day);
    DmyNoAnd(d.year.value, d.month, d.day);
    if HasEnd(d) {
      ScanDmy(d.endYear.value, d.endMonth, d.endDay);
    }
    assert RoundTripTokens(d) == modPart + main + (if end == [] then [] else ["AND"] + end);
    ParseOfShape(RoundTripTokens(d), s, modPart, main, end, d.modifier);
  }

  /** The index of the first "AND" in a token list shaped like the output of `to_gedcom`. */
  lemma FirstAndOfShape(parts: seq<string>, start: nat, main: seq<string>, tail: seq<string>)
    requires start <= |parts| && parts[start..] == main + tail
    requires forall k :: 0 <= k < |main| ==> main[k] != "AND"
    requires tail == [] || tail[0] == "AND"
    ensures FirstAnd(parts, start) == start + |main|
  {
    var j := FirstAnd(parts, start);
    var stop := start + |main|;
    assert forall k :: start <= k < stop ==> parts[k] == parts[start..][k - start] == main[k - start];
    if tail != [] {
      assert parts[stop] == parts[start..][|main|] == tail[0];
    }
  }

  /** The date `from_gedcom` reads from a token list shaped like the output of `to_gedcom`. */
  lemma {:induction false} ParseOfShape(parts: seq<string>, s: string, modPart: seq<string>, main: seq<string>, end: seq<string>, m: DateModifier)
    requires parts == modPart + main + (if end == [] then [] else ["AND"] + end)
    requires modPart == (if m == Exact then [] else [m.Text()])
    requires main != [] && (forall k :: 0 <= k < |main| ==> main[k] != "AND")
    requires ModifierOf(main[0]).None?
    requires end != [] ==> m == Between
    ensures var f := Scan(main);
      var e := if end == [] then NoFields else Scan(end);
      FromTokens(parts, s) == NewDate(GenealogyDate(f.year, f.month, f.day, m, e.year, e.month, e.day, Some(s)))
  {
    var start := |modPart|;
    if m != Exact {
      ModifierOfText(m);
      assert parts[0] == m.Text();
    } else {
      assert parts[0] == main[0];
    }
    var lead := ModifierOf(parts[0]);
    assert lead.UnwrapOr(Exact) == m;
    assert (if lead.Some? then 1 else 0) == start;
    var tail := if end == [] then [] else ["AND"] + end;
    assert parts[start..] == main + tail;
    FirstAndOfShape(parts, start, main, tail);
    var stop := start + |main|;
    assert parts[start..stop] == main;
    if end != [] {
      assert parts[stop + 1..] == end;
    }
  }

  /**
   * `from_gedcom(to_gedcom(d))` recovers the year, month, day and modifier of a date with a
   * year above 31, and the end fields when an end date with a year above 31 is written;
   * when no end date is written, the parsed end fields are absent.
   */
  lemma FromGedcomToGedcom(d: GenealogyDate)
    requires RoundTrips(d)
    ensures ToGedcom(d).Some?
    ensures var r := FromGedcom(ToGedcom(d).value);
      r.Success? && r.value.year == d.year && r.value.month == d.month && r.value.day == d.day
      && r.value.modifier == d.modifier
      && (HasEnd(d) ==> r.value.endYear == d.endYear && r.value.endMonth == d.endMonth && r.value.endDay == d.endDay)
      && (!HasEnd(d) ==> r.value.endYear.None? && r.value.endMonth.None? && r.value.endDay.None?)
  {
    var ts := RoundTripTokens(d);
    TokensOfRoundTrip(d);
    var s := Join(" ", ts);
    assert ToGedcom(d) == Some(s);
    SplitRoundTripTokens(d);
    assert FromGedcom(s) == FromTokens(ts, s);
    ReadRoundTripTokens(d, s);
  }

  /** Tokens without a modifier keyword and without "AND" are scanned as one main date. */
  lemma ParseMainOnly(parts: seq<string>, s: string)
    requires parts != [] && ModifierOf(parts[0]).None?
    requires forall k :: 0 <= k < |parts| ==> parts[k] != "AND"
    ensures var f := Scan(parts);
      FromTokens(parts, s) == NewDate(GenealogyDate(f.year, f.month, f.day, Exact, None, None, None, Some(s)))
  {
    assert FirstAnd(parts, 0) == |parts|;
    assert parts[0..|parts|] == parts;
  }

  lemma DayYearTokensRejected(s: string, dt: string, yt: string)
    requires IsDecimal(dt) && IsDecimal(yt) && DigitsValue(dt) <= 31 < DigitsValue(yt)
    ensures FromTokens([dt, yt], s).Failure?
  {
    var ts := [dt, yt];
    DecimalToken(dt);
    DecimalToken(yt);
    ParseMainOnly(ts, s);
    assert ts == [dt] + [yt];
    ScanSnoc([dt], yt);
    assert [dt] == [] + [dt];
    ScanSnoc([], dt);
    assert Scan(ts).month.None? && Scan(ts).day.Some?;
  }

  /** A day without a month is rejected: a text such as "15 1895" does not construct a date. */
  lemma DayWithoutMonthRejected(day: nat, year: nat)
    requires day <= 31 < year
    ensures FromGedcom(NatToString(day) + " " + NatToString(year)).Failure?
  {
    var dt, yt := NatToString(day), NatToString(year);
    var ts := [dt, yt];
    var s := dt + " " + yt;
    NumberToken(day);
    NumberToken(year);
    assert Join(" ", ts) == s;
    JoinNoLower(" ", ts);
    UpperNoLower(s);
    SplitWsJoin(ts);
    DigitsValueOfNatToString(day);
    DigitsValueOfNatToString(year);
    DayYearTokensRejected(s, dt, yt);
  }

  // ---------------------------------------------------------------------------------------
  // Places
  // ---------------------------------------------------------------------------------------

  datatype Place = Place(name: string, city: Option<string>, county: Option<string>, state: Option<string>, country: Option<string>)
  {
    /** `to_gedcom`: the full place text. */
    function ToGedcom(): string
    {
      name
    }
  }

  /** The stripped comma-separated parts of a place text. */
  function StripAll(parts: seq<string>): (r: seq<string>)
    ensures |r| == |parts|
    ensures forall i :: 0 <= i < |parts| ==> r[i] == Strip(parts[i])
  {
    seq(|parts|, i requires 0 <= i < |parts| => Strip(parts[i]))
  }

  function PartAt(parts: seq<string>, i: nat): Option<string>
  {
    if i < |parts| then Some(parts[i]) else None
  }

  /** `Place.from_string` */
  function PlaceFromString(s: string): (p: Place)
    ensures p.name == s
  {
    var parts := StripAll(Split(s, ','));
    if |parts| == 2 then Place(s, Some(parts[0]), None, None, Some(parts[1]))
    else if |parts| == 3 then Place(s, Some(parts[0]), None, Some(parts[1]), Some(parts[2]))
    else Place(s, PartAt(parts, 0), PartAt(parts, 1), PartAt(parts, 2), PartAt(parts, 3))
  }

  /**
   * A place written as comma-separated parts: two parts are city and country, three are city,
   * state and country, and any other count fills city, county, state and country in order;
   * every part is stripped and the whole text is kept as the name.
   */
  lemma PlaceFromParts(parts: seq<string>)
    requires |parts| >= 1
    requires forall k :: 0 <= k < |parts| ==> ',' !in parts[k]
    ensures var s := Join(",", parts); var p := PlaceFromString(s); var q := StripAll(parts);
      p.name == s
      && (|parts| == 2 ==> p == Place(s, Some(q[0]), None, None, Some(q[1])))
      && (|parts| == 3 ==> p == Place(s, Some(q[0]), None, Some(q[1]), Some(q[2])))
      && (|parts| != 2 && |parts| != 3 ==>
            p == Place(s, Some(q[0]), PartAt(q, 1), PartAt(q, 2), PartAt(q, 3)))
  {
    SplitOfJoin(parts, ',');
  }

  // ---------------------------------------------------------------------------------------
  // Names
  // ---------------------------------------------------------------------------------------

  datatype NameType = BirthName | MarriedName | AdoptedName | AliasName | ImmigrantName

  datatype Name = Name(
    given: string,
    surname: string,
    suffix: Option<string>,
    prefix: Option<string>,
    nickname: Option<string>,
    maidenName: Option<string>,
    nameType: NameType,
    variants: seq<string>)
  {
    /** The parts of `full_name`, in order: given, "nickname", prefix, surname, suffix. */
    function FullNameParts(): seq<string>
    {
      [given]
      + (if StrTruthy(nickname) then ["\"" + nickname.value + "\""] else [])
      + (if StrTruthy(prefix) then [prefix.value] else [])
      + [surname]
      + (if StrTruthy(suffix) then [suffix.value] else [])
    }

    /** `full_name`: the parts joined by single spaces. */
    function FullName(): string
    {
      Join(" ", FullNameParts())
    }

    /** `gedcom_name`: `Given /Surname/`. */
    function GedcomName(): string
    {
      given + " /" + surname + "/"
    }
  }

  /**
   * A GEDCOM name reads back at its slashes: with no slash in the given name or the surname,
   * the text before the first slash is the given name and a space, the text between the two
   * slashes is the surname, and nothing follows the closing slash.
   */
  lemma GedcomNameReadBack(n: Name)
    requires '/' !in n.given && '/' !in n.surname
    ensures Split(n.GedcomName(), '/') == [n.given + " ", n.surname, ""]
    ensures Split(n.GedcomName(), '/')[1] == n.surname
  {
    var parts := [n.given + " ", n.surname, ""];
    var g := n.given + " ";
    forall i | 0 <= i < |g| ensures g[i] != '/' {
      if i < |n.given| {
        assert g[i] == n.given[i] && n.given[i] in n.given;
      }
    }
    assert Join("/", parts) == n.GedcomName() by {
      assert parts[1..] == [n.surname, ""] && parts[1..][1..] == [""];
      assert Join("/", [n.surname, ""]) == n.surname + "/" + "";
      assert n.surname + "/" + "" == n.surname + "/";
      assert n.given + " " + "/" + (n.surname + "/") == n.given + " /" + n.surname + "/";
    }
    assert "/" == ['/'];
    SplitOfJoin(parts, '/');
  }

  /** `Name(given=..., surname=...)` with every other field at its default. */
  function PlainName(given: string, surname: string): Name
  {
    Name(given, surname, None, None, None, None, BirthName, [])
  }

  /**
   * When every part is a single word, splitting `full_name` at whitespace gives back the given
   * name, the quoted nickname, the prefix, the surname and the suffix, each only when set.
   */
  lemma FullNameWords(n: Name)
    requires Words(n.FullNameParts())
    ensures SplitWs(n.FullName()) == n.FullNameParts()
    ensures SplitWs(n.FullName())[0] == n.given
  {
    SplitWsJoin(n.FullNameParts());
  }

  /** Without optional parts the full name is `given + " " + surname`. */
  lemma FullNamePlain(given: string, surname: string)
    ensures PlainName(given, surname).FullName() == given + " " + surname
  {
    var parts := PlainName(given, surname).FullNameParts();
    assert parts == [given, surname];
    assert PlainName(given, surname).FullName() == Join(" ", parts);
    assert parts[1..] == [surname];
    assert Join(" ", parts[1..]) == surname;
    assert Join(" ", parts) == parts[0] + " " + Join(" ", parts[1..]);
  }

  // ---------------------------------------------------------------------------------------
  // Sources, citations and events
  // ---------------------------------------------------------------------------------------

  /** A `Repository` object in the `repository` field is represented by its name. */
  datatype Source = Source(
    id: string,
    title: string,
    author: Option<string>,
    publisher: Option<string>,
    publicationDate: Option<GenealogyDate>,
    repository: Option<string>,
    callNumber: Option<string>,
    url: Option<string>,
    level: SourceLevel,
    sourceType: string,
    filmNumber: Option<string>,
    itemNumber: Option<string>,
    page: Option<string>,
    isOriginal: bool,
    isImage: bool,
    notes: Option<string>,
    accessDate: Option<string>,
    jurisdiction: Option<string>,
    dateRange: Option<string>,
    provider: Option<string>,
    originalSource: Option<string>,
    naraSeries: Option<string>,
    naraRoll: Option<string>,
    publicationPlace: Option<string>,
    entryInfo: Option<string>,
    accessedVia: Option<string>)

  /** The points for the source level in `quality_score`. */
  function LevelPoints(l: SourceLevel): int
  {
    match l
    case Primary => 4
    case Secondary => 2
    case Tertiary => 0
  }

  /**
   * `quality_score`: level points, 3 for an original, 2 for an image and 1 for a repository,
   * capped at 10 — a cap the sum never reaches beyond.
   */
  function QualityScore(s: Source): (score: int)
    ensures 0 <= score <= 10
    ensures score == LevelPoints(s.level) + (if s.isOriginal then 3 else 0)
      + (if s.isImage then 2 else 0) + (if StrTruthy(s.repository) then 1 else 0)
  {
    var score := LevelPoints(s.level)
      + (if s.isOriginal then 3 else 0)
      + (if s.isImage then 2 else 0)
      + (if StrTruthy(s.repository) then 1 else 0);
    if score < 10 then score else 10
  }

  /** With everything else equal, a primary source scores above a secondary, which scores above a tertiary one. */
  lemma QualityScoreByLevel(s: Source)
    ensures QualityScore(s.(level := Primary)) > QualityScore(s.(level := Secondary)) > QualityScore(s.(level := Tertiary))
  {
  }

  datatype Citation = Citation(
    id: string,
    sourceId: string,
    page: Option<string>,
    entryNumber: Option<string>,
    itemOfInterest: Option<string>,
    evidenceType: EvidenceType,
    factProven: string,
    detail: Option<string>)

  datatype Event = Event(
    eventType: string,
    date: Option<GenealogyDate>,
    place: Option<Place>,
    citations: seq<Citation>,
    confidence: ConfidenceLevel)

  // ---------------------------------------------------------------------------------------
  // People
  // ---------------------------------------------------------------------------------------

  /** The index of the first birth-type name at or after `i`. */
  function FirstBirth(names: seq<Name>, i: nat): (r: Option<nat>)
    requires i <= |names|
    ensures r.Some? ==> i <= r.value < |names| && names[r.value].nameType == BirthName
    ensures forall k :: i <= k < (if r.Some? then r.value else |names|) ==> names[k].nameType != BirthName
    decreases |names| - i
  {
    if i == |names| then None
    else if names[i].nameType == BirthName then Some(i)
    else FirstBirth(names, i + 1)
  }

  /** The position of `primary_name`: the first birth-type name, else the first name. */
  function PrimaryIndex(names: seq<Name>): (r: Option<nat>)
    ensures r.None? <==> names == []
    ensures r.Some? ==> r.value < |names|
    ensures r.Some? && names[r.value].nameType == BirthName ==>
      forall k :: 0 <= k < r.value ==> names[k].nameType != BirthName
    ensures r.Some? && names[r.value].nameType != BirthName ==>
      r.value == 0 && forall k :: 0 <= k < |names| ==> names[k].nameType != BirthName
  {
    match FirstBirth(names, 0)
    case Some(i) => Some(i)
    case None => if names == [] then None else Some(0)
  }

  /** The names after `add_name_variant(v)`: `v` joins the primary name's variants unless already there. */
  function WithVariant(names: seq<Name>, v: string): seq<Name>
  {
    match PrimaryIndex(names)
    case None => names
    case Some(i) =>
      if v in names[i].variants then names
      else names[i := names[i].(variants := names[i].variants + [v])]
  }

  /** Adding a variant changes only the primary name's variants, and only by appending it once. */
  lemma WithVariantEffect(names: seq<Name>, v: string)
    ensures |WithVariant(names, v)| == |names|
    ensures PrimaryIndex(WithVariant(names, v)) == PrimaryIndex(names)
    ensures PrimaryIndex(names).Some? ==> v in WithVariant(names, v)[PrimaryIndex(names).value].variants
    ensures forall k :: 0 <= k < |names| && Some(k) != PrimaryIndex(names) ==> WithVariant(names, v)[k] == names[k]
  {
    var r := WithVariant(names, v);
    if PrimaryIndex(names).Some? {
      var i := PrimaryIndex(names).value;
      assert forall k :: 0 <= k < |names| ==> r[k].nameType == names[k].nameType;
      PrimaryIndexSameTypes(names, r);
    }
  }

  lemma {:induction false} FirstBirthSameTypes(a: seq<Name>, b: seq<Name>, i: nat)
    requires |a| == |b| && i <= |a|
    requires forall k :: 0 <= k < |a| ==> a[k].nameType == b[k].nameType
    ensures FirstBirth(a, i) == FirstBirth(b, i)
    decreases |a| - i
  {
    if i < |a| {
      FirstBirthSameTypes(a, b, i + 1);
    }
  }

  lemma PrimaryIndexSameTypes(a: seq<Name>, b: seq<Name>)
    requires |a| == |b|
    requires forall k :: 0 <= k < |a| ==> a[k].nameType == b[k].nameType
    ensures PrimaryIndex(a) == PrimaryIndex(b)
  {
    FirstBirthSameTypes(a, b, 0);
  }

  /** `add_name_variant` is idempotent. */
  lemma WithVariantIdempotent(names: seq<Name>, v: string)
    ensures WithVariant(WithVariant(names, v), v) == WithVariant(names, v)
  {
    WithVariantEffect(names, v);
  }

  /** `Literal["M", "F", "U"]`: male, female or unknown. */
  type SexCode = s: string | s == "M" || s == "F" || s == "U" witness "U"

  class Person {
    var id: string
    var gedcomId: Option<string>
    var names: seq<Name>
    var sex: SexCode
    var birth: Option<Event>
    var death: Option<Event>
    var events: seq<Event>
    var parentFamilyIds: seq<string>
    var spouseFamilyIds: seq<string>
    var citations: seq<Citation>
    var confidence: ConfidenceLevel
    var isLiving: bool

    constructor(id: string, gedcomId: Option<string>, names: seq<Name>, sex: SexCode,
                birth: Option<Event>, death: Option<Event>, events: seq<Event>,
                parentFamilyIds: seq<string>, spouseFamilyIds: seq<string>,
                citations: seq<Citation>, confidence: ConfidenceLevel, isLiving: bool)
      ensures this.id == id && this.gedcomId == gedcomId && this.names == names && this.sex == sex
      ensures this.birth == birth && this.death == death && this.events == events
      ensures this.parentFamilyIds == parentFamilyIds && this.spouseFamilyIds == spouseFamilyIds
      ensures this.citations == citations && this.confidence == confidence && this.isLiving == isLiving
    {
      this.id := id;
      this.gedcomId := gedcomId;
      this.names := names;
      this.sex := sex;
      this.birth := birth;
      this.death := death;
      this.events := events;
      this.parentFamilyIds := parentFamilyIds;
      this.spouseFamilyIds := spouseFamilyIds;
      this.citations := citations;
      this.confidence := confidence;
      this.isLiving := isLiving;
    }

    /** `primary_name`: the first birth-type name, else the first name, else `None`. */
    function PrimaryName(): (r: Option<Name>)
      reads this
      ensures r.None? <==> names == []
      ensures r.Some? ==> r.value in names
      ensures r.Some? && r.value.nameType != BirthName ==>
        r.value == names[0] && forall k :: 0 <= k < |names| ==> names[k].nameType != BirthName
      ensures r.Some? && r.value.nameType == BirthName ==>
        exists i :: 0 <= i < |names| && names[i] == r.value && forall k :: 0 <= k < i ==> names[k].nameType != BirthName
    {
      match PrimaryIndex(names)
      case None => None
      case Some(i) => Some(names[i])
    }

    /** `add_name_variant` */
    method AddNameVariant(v: string)
      modifies this`names
      ensures names == WithVariant(old(names), v)
    {
      match PrimaryIndex(names)
      case None =>
      case Some(i) =>
        if v !in names[i].variants {
          names := names[i := names[i].(variants := names[i].variants + [v])];
        }
    }

    /** `birth_year`: the birth date's year, when there is a birth event with a date. */
    function BirthYear(): (r: Option<int>)
      reads this
      ensures r.Some? ==> birth.Some? && birth.value.date.Some? && r == birth.value.date.value.year
      ensures birth.Some? && birth.value.date.Some? ==> r == birth.value.date.value.year
    {
      if birth.Some? && birth.value.date.Some? then birth.value.date.value.year else None
    }

    /** `death_year`: the death date's year, when there is a death event with a date. */
    function DeathYear(): (r: Option<int>)
      reads this
      ensures r.Some? ==> death.Some? && death.value.date.Some? && r == death.value.date.value.year
      ensures death.Some? && death.value.date.Some? ==> r == death.value.date.value.year
    {
      if death.Some? && death.value.date.Some? then death.value.date.value.year else None
    }
  }

  // ---------------------------------------------------------------------------------------
  // Families
  // ---------------------------------------------------------------------------------------

  datatype Family = Family(
    id: string,
    gedcomId: Option<string>,
    husbandId: Option<string>,
    wifeId: Option<string>,
    marriage: Option<Event>,
    childrenIds: seq<string>,
    citations: seq<Citation>,
    confidence: ConfidenceLevel)

  /** A family has a husband, a wife or at least one child. */
  predicate HasMember(f: Family)
  {
    StrTruthy(f.husbandId) || StrTruthy(f.wifeId) || f.childrenIds != []
  }

  /** Constructing a family: `validate_family` rejects one without any member. */
  function NewFamily(f: Family): (r: Result<Family>)
    ensures r.Success? <==> HasMember(f)
    ensures r.Success? ==> r.value == f
  {
    if !StrTruthy(f.husbandId) && !StrTruthy(f.wifeId) && f.childrenIds == [] then
      Failure("Family must have at least one member")
    else Success(f)
  }

  // ---------------------------------------------------------------------------------------
  // Research logs and proof summaries
  // ---------------------------------------------------------------------------------------

  datatype SearchResultKind = PositiveResult | NegativeResult | InconclusiveResult
  {
    function Value(): string
    {
      match this
      case PositiveResult => "positive"
      case NegativeResult => "negative"
      case InconclusiveResult => "inconclusive"
    }
  }

  /** The clock reading `date` and `created_at` default to is the caller's `now` string. */
  datatype ResearchLogEntry = ResearchLogEntry(
    date: string,
    personSearched: string,
    repository: string,
    collection: string,
    recordType: string,
    result: SearchResultKind,
    resultDescription: string,
    sourceLevel: Option<SourceLevel>,
    absenceExplanation: Option<string>,
    searchDescription: Option<string>,
    negativeResult: Option<bool>,
    notes: Option<string>)

  /** Constructing a log entry: a legacy `negative_result` flag overrides `result`. */
  function NewEntry(e: ResearchLogEntry): (r: ResearchLogEntry)
    ensures e.negativeResult.Some? ==> r.result == (if e.negativeResult.value then NegativeResult else PositiveResult)
    ensures e.negativeResult.None? ==> r == e
    ensures r.(result := e.result) == e
  {
    if e.negativeResult.Some? then e.(result := if e.negativeResult.value then NegativeResult else PositiveResult)
    else e
  }

  /** The entries with the given result, in log order. */
  function WithResult(entries: seq<ResearchLogEntry>, k: SearchResultKind): (r: seq<ResearchLogEntry>)
    ensures |r| <= |entries|
    ensures forall e <- r :: e in entries && e.result == k
    ensures forall e <- entries :: e.result == k ==> e in r
    decreases |entries|
  {
    if entries == [] then []
    else
      var init := WithResult(entries[..|entries| - 1], k);
      var last := entries[|entries| - 1];
      assert entries == entries[..|entries| - 1] + [last];
      if last.result == k then init + [last] else init
  }

  /** Every entry is positive, negative or inconclusive, so the three selections sum to the log length. */
  lemma {:induction false} ResultCounts(entries: seq<ResearchLogEntry>)
    ensures |WithResult(entries, PositiveResult)| + |WithResult(entries, NegativeResult)|
      + |WithResult(entries, InconclusiveResult)| == |entries|
    decreases |entries|
  {
    if entries != [] {
      ResultCounts(entries[..|entries| - 1]);
    }
  }

  /** The research question a log takes from its legacy `subject` or `objective` fields. */
  function ResearchQuestionOf(question: string, subject: Option<string>, objective: Option<string>): (r: string)
    ensures question != "" ==> r == question
    ensures question == "" && StrTruthy(subject) ==> r == subject.value
    ensures question == "" && !StrTruthy(subject) && StrTruthy(objective) ==> r == objective.value
    ensures question == "" && !StrTruthy(subject) && !StrTruthy(objective) ==> r == ""
  {
    if question != "" then question
    else if StrTruthy(subject) then subject.value
    else if StrTruthy(objective) then objective.value
    else question
  }

  class ResearchLog {
    var researchQuestion: string
    var targetPerson: Option<string>
    var entries: seq<ResearchLogEntry>
    var updatedAt: string

    constructor(question: string, subject: Option<string>, objective: Option<string>, targetPerson: Option<string>, now: string)
      ensures researchQuestion == ResearchQuestionOf(question, subject, objective)
      ensures this.targetPerson == targetPerson && entries == [] && updatedAt == now
    {
      researchQuestion := ResearchQuestionOf(question, subject, objective);
      this.targetPerson := targetPerson;
      entries := [];
      updatedAt := now;
    }

    /** `add_entry`, with the clock reading passed in as `now`. */
    method AddEntry(e: ResearchLogEntry, now: string)
      modifies this`entries, this`updatedAt
      ensures entries == old(entries) + [e]
      ensures updatedAt == now
    {
      entries := entries + [e];
      updatedAt := now;
    }

    /** `positive_results` */
    function PositiveResults(): (r: seq<ResearchLogEntry>)
      reads this
      ensures forall e <- r :: e in entries && e.result == PositiveResult
      ensures forall e <- entries :: e.result == PositiveResult ==> e in r
    {
      WithResult(entries, PositiveResult)
    }

    /** `negative_results` */
    function NegativeResults(): (r: seq<ResearchLogEntry>)
      reads this
      ensures forall e <- r :: e in entries && e.result == NegativeResult
      ensures forall e <- entries :: e.result == NegativeResult ==> e in r
    {
      WithResult(entries, NegativeResult)
    }
  }

  /** `WithResult` keeps log order: filtering distributes over appending one entry. */
  lemma WithResultSnoc(entries: seq<ResearchLogEntry>, e: ResearchLogEntry, k: SearchResultKind)
    ensures WithResult(entries + [e], k) == WithResult(entries, k) + (if e.result == k then [e] else [])
  {
    assert (entries + [e])[..|entries|] == entries;
  }

  datatype ProofSummary = ProofSummary(
    researchQuestion: string,
    primaryEvidence: seq<Citation>,
    secondaryEvidence: seq<Citation>,
    tertiaryEvidence: seq<Citation>,
    negativeEvidence: seq<Citation>,
    conflictsIdentified: seq<string>,
    conflictResolution: Option<string>,
    conclusion: string,
    conclusionStatus: ConclusionStatus,
    confidence: ConfidenceLevel,
    reasoning: string,
    exhaustiveSearchCompleted: bool,
    repositoriesSearched: set<string>,
    aiAssisted: bool,
    aiAssistanceDescription: Option<string>)
}
