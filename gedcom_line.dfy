/**
 * One line of a GEDCOM file, `LEVEL [@XREF@] TAG [VALUE]`, as `GedcomLine` reads and writes
 * it: a simplified form of the line grammar of chapter 1 of GEDCOM 5.5.1, with no CONT/CONC
 * continuation and no escapes.
 */
module GedcomLine {
  import opened Wrappers
  import opened Text
  import opened Sorting

  /** Levels are non-negative in every line the program reads or builds. */
  datatype Line = Line(level: nat, xref: Option<string>, tag: string, value: string)

  /** A token of the form `@...@` with at least one character and no `@` between the delimiters. */
  predicate IsXref(x: string)
  {
    |x| >= 3 && x[0] == '@' && x[|x| - 1] == '@' && '@' !in x[1..|x| - 1]
  }

  /**
   * The tag and value found at position `k` of a stripped line: the tag is the run of
   * non-whitespace at `k`, the value is what follows the whitespace after it. The value
   * pattern `.*` cannot cross a line feed, so a value holding one does not match.
   */
  function TagValue(t: string, k: nat): (r: Option<(string, string)>)
    requires k < |t| && !IsSpace(t[k]) && !IsSpace(t[|t| - 1])
    ensures r.Some? ==> |r.value.0| > 0 && NoSpace(r.value.0)
    ensures r.Some? ==> ValueShape(r.value.1) && IsSuffix(r.value.1, t)
  {
    var m := SpanNonSpace(t, k);
    var tag := t[k..m];
    assert NoSpace(tag);
    if m == |t| then Some((tag, ""))
    else
      var n := SpanSpace(t, m);
      var v := t[n..];
      if '\n' in v then None else Some((tag, v))
  }

  /** Empty, or free of line feeds and of leading and trailing whitespace. */
  predicate ValueShape(v: string)
  {
    v == "" || (!IsSpace(v[0]) && !IsSpace(v[|v| - 1]) && '\n' !in v)
  }

  /** The end of an xref token starting at `i` when that token is followed by whitespace. */
  function XrefEnd(t: string, i: nat): (r: Option<nat>)
    requires i < |t|
    ensures r.Some? ==> i + 2 < r.value < |t| && IsSpace(t[r.value]) && IsXref(t[i..r.value])
  {
    if t[i] != '@' then None
    else match FindChar(t, '@', i + 1)
      case None => None
      case Some(j) =>
        if j >= i + 2 && j + 1 < |t| && IsSpace(t[j + 1]) then
          SliceOfSlice(t, i, j + 1, 1, j - i);
          Some(j + 1)
        else None
  }

  /**
   * `GedcomLine.parse`: strips the line, then matches
   * `^(\d+)\s+(?:(@[^@]+@)\s+)?(\S+)(?:\s+(.*))?$`, trying the xref alternative first.
   */
  function Parse(raw: string): (r: Option<Line>)
    ensures Strip(raw) == [] ==> r == None
  {
    var t := Strip(raw);
    if t == [] then None else ParseStripped(t)
  }

  /** The match on a non-empty line with no surrounding whitespace. */
  function ParseStripped(t: string): (r: Option<Line>)
    requires t != [] && !IsSpace(t[|t| - 1])
  {
      var d := SpanDigits(t, 0);
      if d == 0 || d == |t| || !IsSpace(t[d]) then None
      else
        var i := SpanSpace(t, d);
        assert i < |t|;
        Fields(t, DigitsValue(t[..d]), i)
  }

  /** The xref, tag and value at position `i` of a stripped line, once the level has been read. */
  function Fields(t: string, level: nat, i: nat): (r: Option<Line>)
    requires i < |t| && !IsSpace(t[i]) && !IsSpace(t[|t| - 1])
    ensures r.Some? ==> r.value.level == level
  {
    var withXref := WithXref(t, level, i);
    if withXref.Some? then withXref
    else match TagValue(t, i)
      case None => None
      case Some(tv) => Some(Line(level, None, tv.0, tv.1))
  }

  /** The match with the xref alternative taken, if that alternative succeeds. */
  function WithXref(t: string, level: nat, i: nat): (r: Option<Line>)
    requires i < |t| && !IsSpace(t[|t| - 1])
    ensures r.Some? ==> r.value.level == level && r.value.xref.Some?
  {
    match XrefEnd(t, i)
      case None => None
      case Some(e) =>
        var k := SpanSpace(t, e);
        assert k < |t|;
        match TagValue(t, k)
          case None => None
          case Some(tv) => Some(Line(level, Some(t[i..e]), tv.0, tv.1))
  }

  predicate IsSuffix(p: string, s: string)
  {
    |p| <= |s| && s[|s| - |p|..] == p
  }

  /** `GedcomLine.to_string`: level, the xref when non-empty, the tag, and the value when non-empty, separated by single spaces. */
  function ToString(l: Line): string
  {
    NatToString(l.level)
    + (if l.xref.Some? && l.xref.value != "" then " " + l.xref.value else "")
    + " " + l.tag
    + ValueText(l.value)
  }

  /** The lines `ToString` writes in a form that `Parse` reads back unchanged. */
  predicate WellFormed(l: Line)
  {
    && |l.tag| > 0 && NoSpace(l.tag) && l.tag[0] != '@'
    && (l.xref.None? || IsXref(l.xref.value))
    && ValueShape(l.value)
  }

  /** What `Parse` returns: a tag without whitespace, a well-formed xref, and a value that is the stripped line's tail. */
  lemma ParseShape(raw: string)
    requires Parse(raw).Some?
    ensures var l := Parse(raw).value;
      && |l.tag| > 0 && NoSpace(l.tag)
      && (l.xref.None? || IsXref(l.xref.value))
      && ValueShape(l.value)
      && IsSuffix(l.value, Strip(raw))
  {
    ShapeOfStripped(Strip(raw), Parse(raw).value);
  }

  /** The shape of a line parsed from its stripped text. */
  lemma ShapeOfStripped(t: string, l: Line)
    requires t != [] && !IsSpace(t[|t| - 1]) && ParseStripped(t) == Some(l)
    ensures && |l.tag| > 0 && NoSpace(l.tag)
      && (l.xref.None? || IsXref(l.xref.value))
      && ValueShape(l.value)
      && IsSuffix(l.value, t)
  {
    StrippedShape(t);
  }

  /** `ParseShape` for a line already stripped. */
  lemma StrippedShape(t: string)
    requires t != [] && !IsSpace(t[|t| - 1]) && ParseStripped(t).Some?
    ensures var l := ParseStripped(t).value;
      && |l.tag| > 0 && NoSpace(l.tag)
      && (l.xref.None? || IsXref(l.xref.value))
      && ValueShape(l.value)
      && IsSuffix(l.value, t)
  {
    var d := SpanDigits(t, 0);
    var i := SpanSpace(t, d);
    FieldsShape(t, DigitsValue(t[..d]), i);
  }

  /** The shape of what `Fields` finds: as `ParseShape` states, relative to the stripped line. */
  lemma FieldsShape(t: string, level: nat, i: nat)
    requires i < |t| && !IsSpace(t[i]) && !IsSpace(t[|t| - 1]) && Fields(t, level, i).Some?
    ensures var l := Fields(t, level, i).value;
      && |l.tag| > 0 && NoSpace(l.tag)
      && (l.xref.None? || IsXref(l.xref.value))
      && ValueShape(l.value)
      && IsSuffix(l.value, t)
  {
    if WithXref(t, level, i).Some? {
      var e := XrefEnd(t, i).value;
      var k := SpanSpace(t, e);
      var tv := TagValue(t, k).value;
      assert WithXref(t, level, i) == Some(Line(level, Some(t[i..e]), tv.0, tv.1));
    }
  }

  /** The level is the integer value of the leading digits of the stripped line. */
  lemma ParseLevel(raw: string)
    requires Parse(raw).Some?
    ensures var t := Strip(raw); var d := SpanDigits(t, 0);
      0 < d < |t| && IsSpace(t[d]) && Parse(raw).value.level == DigitsValue(t[..d])
  {
  }

  lemma TagValueAt(s: string, k: nat, tag: string, value: string)
    requires k <= |s| && s[k..] == tag + ValueText(value)
    requires |tag| > 0 && NoSpace(tag) && ValueShape(value)
    ensures k < |s| && !IsSpace(s[k]) && !IsSpace(s[|s| - 1])
    ensures TagValue(s, k) == Some((tag, value))
  {
    TagRun(s, k, tag, value);
    if value == "" {
      TagAlone(s, k, tag);
    } else {
      TagThenValue(s, k, tag, value);
    }
  }

  /** The tag's characters sit at `k` and on, and the line ends in a non-space. */
  lemma TagRun(s: string, k: nat, tag: string, value: string)
    requires k <= |s| && s[k..] == tag + ValueText(value)
    requires |tag| > 0 && NoSpace(tag) && ValueShape(value)
    ensures k + |tag| <= |s| && !IsSpace(s[|s| - 1])
    ensures forall j :: k <= j < k + |tag| ==> !IsSpace(s[j])
  {
    assert s[|s| - 1] == s[k..][|s[k..]| - 1];
    forall j | k <= j < k + |tag|
      ensures !IsSpace(s[j])
    {
      assert s[j] == s[k..][j - k] == tag[j - k];
    }
  }

  /** A tag with nothing after it is the whole tail, with an empty value. */
  lemma TagAlone(s: string, k: nat, tag: string)
    requires k <= |s| && s[k..] == tag + ValueText("") && |tag| > 0
    requires k + |tag| <= |s| && !IsSpace(s[|s| - 1])
    requires forall j :: k <= j < k + |tag| ==> !IsSpace(s[j])
    ensures TagValue(s, k) == Some((tag, ""))
  {
    assert s[k..] == tag;
    var m := SpanNonSpace(s, k);
    assert m == |s|;
    assert s[k..m] == tag;
  }

  /** A tag, one space and a value: the tag is the run of non-space, the value what follows the space. */
  lemma TagThenValue(s: string, k: nat, tag: string, value: string)
    requires k <= |s| && s[k..] == tag + " " + value && |tag| > 0 && value != [] && !IsSpace(value[0])
    requires k + |tag| <= |s| && !IsSpace(s[|s| - 1]) && '\n' !in value
    requires forall j :: k <= j < k + |tag| ==> !IsSpace(s[j])
    ensures TagValue(s, k) == Some((tag, value))
  {
    SpaceIsSpace();
    assert s[k + |tag|] == s[k..][|tag|] == ' ';
    var m := SpanNonSpace(s, k);
    assert m == k + |tag|;
    assert s[k..m] == s[k..][..|tag|] == tag;
    assert s[m + 1] == s[k..][|tag| + 1] == value[0];
    var n := SpanSpace(s, m);
    assert n == m + 1;
    assert s[n..] == s[k..][|tag| + 1..] == value;
  }

  lemma ParseUnstripped(s: string)
    requires s != [] && !IsSpace(s[0]) && !IsSpace(s[|s| - 1])
    ensures Parse(s) == ParseStripped(s)
  {
    StripIdentity(s);
  }

  lemma {:induction false} LeadingLevel(s: string, n: nat, rest: string)
    requires s == NatToString(n) + " " + rest && rest != [] && !IsSpace(rest[0])
    ensures var d := |NatToString(n)|;
      SpanDigits(s, 0) == d && d < |s| && IsSpace(s[d]) && DigitsValue(s[..d]) == n && SpanSpace(s, d) == d + 1
  {
    var D := NatToString(n);
    forall j | 0 <= j < |D| ensures IsDigit(s[j]) {
      assert s[j] == D[j];
    }
    assert s[|D|] == ' ';
    assert s[|D| + 1] == rest[0];
    assert s[..|D|] == D;
    DigitsValueOfNatToString(n);
  }

  lemma {:induction false} XrefAt(s: string, i: nat, x: string, body: string)
    requires i <= |s| && s[i..] == x + " " + body && IsXref(x) && body != [] && !IsSpace(body[0])
    ensures XrefEnd(s, i) == Some(i + |x|) && s[i..i + |x|] == x
    ensures SpanSpace(s, i + |x|) == i + |x| + 1 && s[i + |x| + 1..] == body
  {
    var j := i + |x| - 1;
    assert s[i] == x[0];
    forall q | i + 1 <= q < j ensures s[q] != '@' {
      assert s[q] == s[i..][q - i] == x[q - i] == x[1..|x| - 1][q - i - 1];
    }
    assert s[j] == s[i..][|x| - 1] == '@';
    assert FindChar(s, '@', i + 1) == Some(j);
    assert s[j + 1] == s[i..][|x|] == ' ';
    assert s[j + 2] == s[i..][|x| + 1] == body[0];
    assert s[i..j + 1] == s[i..][..|x|] == x;
    assert s[j + 2..] == s[i..][|x| + 1..] == body;
  }

  /** `WithXref` once its three scans are known. */
  lemma WithXrefOf(t: string, level: nat, i: nat, e: nat, tag: string, value: string)
    requires i < |t| && !IsSpace(t[|t| - 1])
    requires XrefEnd(t, i) == Some(e) && SpanSpace(t, e) == e + 1 && e + 1 < |t| && !IsSpace(t[e + 1])
    requires TagValue(t, e + 1) == Some((tag, value))
    ensures WithXref(t, level, i) == Some(Line(level, Some(t[i..e]), tag, value))
  {
  }

  lemma {:induction false} XrefLine(s: string, i: nat, level: nat, x: string, tag: string, value: string)
    requires i <= |s| && s[i..] == x + " " + (tag + ValueText(value)) && IsXref(x)
    requires |tag| > 0 && NoSpace(tag) && ValueShape(value)
    ensures i < |s| && !IsSpace(s[|s| - 1])
    ensures WithXref(s, level, i) == Some(Line(level, Some(x), tag, value))
  {
    var body := tag + ValueText(value);
    var e := i + |x|;
    assert body[0] == tag[0];
    XrefAt(s, i, x, body);
    assert s[i..e] == x && s[e + 1..] == body;
    TagValueAt(s, e + 1, tag, value);
    WithXrefOf(s, level, i, e, tag, value);
    LineOfXref(WithXref(s, level, i), level, s[i..e], x, tag, value);
  }

  lemma LineOfXref(r: Option<Line>, level: nat, found: string, x: string, tag: string, value: string)
    requires r == Some(Line(level, Some(found), tag, value)) && found == x
    ensures r == Some(Line(level, Some(x), tag, value))
  {
  }

  /** The text `ToString` writes after the tag. */
  function ValueText(v: string): string
  {
    if v != "" then " " + v else ""
  }

  lemma {:induction false} PlainFields(s: string, i: nat, l: Line)
    requires WellFormed(l) && l.xref.None? && i <= |s| && s[i..] == l.tag + ValueText(l.value)
    ensures i < |s| && !IsSpace(s[i]) && !IsSpace(s[|s| - 1])
    ensures Fields(s, l.level, i) == Some(l)
  {
    TagValueAt(s, i, l.tag, l.value);
    assert s[i] == s[i..][0] == l.tag[0];
  }

  lemma {:induction false} XrefFields(s: string, i: nat, l: Line)
    requires WellFormed(l) && l.xref.Some? && i <= |s| && s[i..] == l.xref.value + " " + (l.tag + ValueText(l.value))
    ensures i < |s| && !IsSpace(s[i]) && !IsSpace(s[|s| - 1])
    ensures Fields(s, l.level, i) == Some(l)
  {
    var x := l.xref.value;
    XrefLine(s, i, l.level, x, l.tag, l.value);
    assert s[i] == s[i..][0] == x[0];
    PrintableNotSpace('@');
  }

  lemma StrippedOf(s: string, d: nat, i: nat, l: Line)
    requires s != [] && !IsSpace(s[|s| - 1])
    requires SpanDigits(s, 0) == d && 0 < d < |s| && IsSpace(s[d]) && DigitsValue(s[..d]) == l.level
    requires SpanSpace(s, d) == i && i < |s| && !IsSpace(s[i]) && Fields(s, l.level, i) == Some(l)
    ensures ParseStripped(s) == Some(l)
  {
  }

  /** What `ToString` writes after the level and its separating space. */
  function AfterLevel(l: Line): string
  {
    var body := l.tag + ValueText(l.value);
    if l.xref.Some? && l.xref.value != "" then l.xref.value + " " + body else body
  }

  lemma {:induction false} RestFields(s: string, i: nat, l: Line)
    requires WellFormed(l) && i <= |s| && s[i..] == AfterLevel(l)
    ensures i < |s| && !IsSpace(s[i]) && !IsSpace(s[|s| - 1]) && Fields(s, l.level, i) == Some(l)
  {
    if l.xref.Some? {
      XrefFields(s, i, l);
    } else {
      PlainFields(s, i, l);
    }
  }

  lemma {:induction false} LevelThenFields(s: string, l: Line)
    requires s == NatToString(l.level) + " " + AfterLevel(l)
    requires |NatToString(l.level)| + 1 < |s| && !IsSpace(s[|NatToString(l.level)| + 1]) && !IsSpace(s[|s| - 1])
    requires Fields(s, l.level, |NatToString(l.level)| + 1) == Some(l)
    ensures !IsSpace(s[0]) && ParseStripped(s) == Some(l)
  {
    var D := NatToString(l.level);
    var d, rest := |D|, AfterLevel(l);
    assert SpanDigits(s, 0) == d && d < |s| && IsSpace(s[d]) && DigitsValue(s[..d]) == l.level && SpanSpace(s, d) == d + 1 by {
      assert rest[0] == s[d + 1];
      LeadingLevel(s, l.level, rest);
    }
    assert !IsSpace(s[0]) && d > 0 by {
      assert s[0] == D[0];
      DigitNotSpace(D[0]);
    }
    StrippedOf(s, d, d + 1, l);
  }

  lemma {:induction false} StrippedToString(l: Line)
    requires WellFormed(l)
    ensures var s := ToString(l); s != [] && !IsSpace(s[0]) && !IsSpace(s[|s| - 1]) && ParseStripped(s) == Some(l)
  {
    var D := NatToString(l.level);
    var s := D + " " + AfterLevel(l);
    assert ToString(l) == s;
    assert s[|D| + 1..] == AfterLevel(l);
    RestFields(s, |D| + 1, l);
    LevelThenFields(s, l);
  }

  /** `parse(to_string(l)) == l` for every well-formed line. */
  lemma ParseToString(l: Line)
    requires WellFormed(l)
    ensures Parse(ToString(l)) == Some(l)
  {
    StrippedToString(l);
    ParseUnstripped(ToString(l));
  }

  lemma XrefRecordLineText()
    ensures ToString(Line(0, Some("@I1@"), "INDI", "")) == "0 @I1@ INDI"
  {
    assert NatToString(0) == "0";
    assert ValueText("") == "";
  }

  /** A loaded `0 @I1@ INDI` line carries its record type in the tag and an empty value. */
  lemma ParseXrefRecordLine()
    ensures Parse("0 @I1@ INDI") == Some(Line(0, Some("@I1@"), "INDI", ""))
  {
    AsciiSpaces();
    ParseToString(Line(0, Some("@I1@"), "INDI", ""));
    XrefRecordLineText();
  }
}
