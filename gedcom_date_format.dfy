/**
 * The date pattern `_validate_dates` checks DATE values against:
 *
 *   ^(ABT|BEF|AFT|BET|CAL|EST)? \s* (\d{1,2})? \s* (JAN|...|DEC)? \s* (\d{4})? (\s+AND\s+.*)? $
 *
 * matched case-insensitively with `re.match`. Every construct is optional, so a backtracking
 * matcher accepts exactly when some choice of the optional parts and some split of each
 * whitespace run succeeds; each predicate below tries every such choice. `$` matches at the
 * end or before a final line feed, `.` does not match a line feed, and `\s` includes it.
 * In the closing group the first `\s+` must run to the word `AND`, and the second may be
 * taken as long as possible without losing a match, so both are taken whole.
 */
module GedcomDateFormat {
  import opened Text

  const Modifiers: seq<string> := ["ABT", "BEF", "AFT", "BET", "CAL", "EST"]
  const Months: seq<string> := ["JAN", "FEB", "MAR", "APR", "MAY", "JUN", "JUL", "AUG", "SEP", "OCT", "NOV", "DEC"]

  /** One of `words`, ignoring case, at position `p`. */
  predicate KeywordAt(v: string, p: nat, words: seq<string>)
  {
    p + 3 <= |v| && Upper(v[p..p + 3]) in words
  }

  /** `date_pattern.match(v)` succeeds. */
  predicate Conforms(v: string)
  {
    (KeywordAt(v, 0, Modifiers) && AfterModifier(v, 3)) || AfterModifier(v, 0)
  }

  predicate AfterModifier(v: string, p: nat)
    requires p <= |v|
  {
    exists q :: p <= q <= SpanSpace(v, p) && DayAt(v, q)
  }

  predicate DayAt(v: string, p: nat)
    requires p <= |v|
  {
    (p + 1 <= |v| && IsDigit(v[p]) && AfterDay(v, p + 1))
    || (p + 2 <= |v| && IsDigit(v[p]) && IsDigit(v[p + 1]) && AfterDay(v, p + 2))
    || AfterDay(v, p)
  }

  predicate AfterDay(v: string, p: nat)
    requires p <= |v|
  {
    exists q :: p <= q <= SpanSpace(v, p) && MonthAt(v, q)
  }

  predicate MonthAt(v: string, p: nat)
    requires p <= |v|
  {
    (KeywordAt(v, p, Months) && AfterMonth(v, p + 3)) || AfterMonth(v, p)
  }

  predicate AfterMonth(v: string, p: nat)
    requires p <= |v|
  {
    exists q :: p <= q <= SpanSpace(v, p) && YearAt(v, q)
  }

  predicate YearAt(v: string, p: nat)
    requires p <= |v|
  {
    (p + 4 <= |v| && AllDigits(v[p..p + 4]) && Tail(v, p + 4)) || Tail(v, p)
  }

  predicate Tail(v: string, p: nat)
    requires p <= |v|
  {
    AtEnd(v, p) || AndClause(v, p)
  }

  /** Where `$` matches: the end, or just before a final line feed. */
  predicate AtEnd(v: string, p: nat)
  {
    p == |v| || (p + 1 == |v| && v[p] == '\n')
  }

  /** `\s+AND\s+.*$` at position `p`. */
  predicate AndClause(v: string, p: nat)
    requires p <= |v|
  {
    var q := SpanSpace(v, p);
    q > p && q + 3 <= |v| && Upper(v[q..q + 3]) == "AND"
    && var r := SpanSpace(v, q + 3);
    r > q + 3 && RestOfLine(v, r)
  }

  /** `.*$` at position `r`: no line feed except possibly a final one. */
  predicate RestOfLine(v: string, r: nat)
  {
    forall i :: r <= i < |v| - 1 ==> v[i] != '\n'
  }

  /** A modifier followed by a four-digit year conforms: `ABT 1895` passes without a warning. */
  lemma AboutYearConforms()
    ensures Conforms("ABT 1895")
  {
    var v := "ABT 1895";
    SpaceIsSpace();
    PrintableNotSpace('1');
    assert Upper(v[0..3]) == "ABT";
    assert SpanSpace(v, 4) == 4;
    assert AtEnd(v, 8);
    assert v[4..8] == "1895";
    assert YearAt(v, 4);
    assert MonthAt(v, 4);
    assert DayAt(v, 4);
    assert SpanSpace(v, 3) == 4;
  }

  /** Day, month and year, in any letter case: `15 jan 1862` conforms. */
  lemma DayMonthYearConforms()
    ensures Conforms("15 jan 1862")
  {
    var v := "15 jan 1862";
    SpaceIsSpace();
    PrintableNotSpace('1');
    PrintableNotSpace('j');
    assert !KeywordAt(v, 0, Modifiers) by { assert Upper(v[0..3]) == "15 "; }
    assert v[7..11] == "1862";
    assert AtEnd(v, 11);
    assert SpanSpace(v, 7) == 7;
    assert YearAt(v, 7);
    assert SpanSpace(v, 6) == 7;
    assert AfterMonth(v, 6);
    assert Upper(v[3..6]) == "JAN";
    assert SpanSpace(v, 3) == 3;
    assert MonthAt(v, 3);
    assert SpanSpace(v, 2) == 3;
    assert AfterDay(v, 2);
    assert DayAt(v, 0);
    assert SpanSpace(v, 0) == 0;
  }

  /** A range conforms whatever follows `AND`: `BET 1890 AND 1900`. */
  lemma RangeConforms()
    ensures Conforms("BET 1890 AND 1900")
  {
    var v := "BET 1890 AND 1900";
    assert v[3] == ' ' && v[4] == '1';
    SpaceIsSpace();
    PrintableNotSpace('1');
    SpanOneSpace(v, 3);
    SpanAtWord(v, 4);
    assert Upper(v[0..3]) == "BET";
    RangeYear(v);
    assert MonthAt(v, 4);
    assert DayAt(v, 4);
  }

  /** A value opening with a character that is neither whitespace nor a digit, and with no keyword, does not conform. */
  lemma {:induction false} NoKeywordRejected(v: string)
    requires |v| >= 4 && !IsDigit(v[0]) && !IsSpace(v[0]) && !AllDigits(v[0..4])
    requires !KeywordAt(v, 0, Modifiers) && !KeywordAt(v, 0, Months)
    ensures !Conforms(v)
  {
    assert SpanSpace(v, 0) == 0;
    assert !YearAt(v, 0);
    assert !AfterMonth(v, 0);
    assert !MonthAt(v, 0);
    assert !AfterDay(v, 0);
    assert !DayAt(v, 0);
  }

  /** `1890` and the closing group of `BET 1890 AND 1900` match from the first digit. */
  lemma RangeYear(v: string)
    requires v == "BET 1890 AND 1900"
    ensures YearAt(v, 4)
  {
    RangeAndClause(v);
    assert v[4..8] == "1890";
  }

  /** The closing group of `BET 1890 AND 1900` starts after the first year. */
  lemma RangeAndClause(v: string)
    requires v == "BET 1890 AND 1900"
    ensures AndClause(v, 8)
  {
    SpaceIsSpace();
    PrintableNotSpace('A');
    PrintableNotSpace('1');
    assert Upper(v[9..12]) == "AND";
    assert v[8] == ' ' && v[9] == 'A' && v[12] == ' ' && v[13] == '1';
    SpanOneSpace(v, 8);
    SpanOneSpace(v, 12);
    assert RestOfLine(v, 13) by {
      assert forall i :: 13 <= i < |v| - 1 ==> v[i] in "190";
    }
  }

  /** Free text does not conform: `sometime last spring` draws a warning. */
  lemma FreeTextRejected()
    ensures !Conforms("sometime last spring")
  {
    var v := "sometime last spring";
    PrintableNotSpace('s');
    assert Upper(v[0..3]) == "SOM";
    assert !AllDigits(v[0..4]) by { assert !IsDigit(v[0..4][0]); }
    NoKeywordRejected(v);
  }

}
