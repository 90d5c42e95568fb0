/**
 * The GEDCOM lines `GedcomManager` writes for new people, families and sources, the links
 * `add_family` appends to the records of its members, the header stamp of `_update_header`
 * and the text `_write_record` produces.
 */
module GedcomBuild {
  import opened Wrappers
  import opened Text
  import opened GedcomLine
  import opened GedcomRecord
  import Models

  /** `GedcomLine(level=..., tag=..., value=...)`, with no xref. */
  function Sub(level: nat, tag: string, value: string): Line
  {
    Line(level, None, tag, value)
  }

  /** A date written as a DATE line at `level`; `None` when `to_gedcom` raises. */
  function DateLines(level: nat, d: Option<Models.GenealogyDate>): (r: Option<seq<Line>>)
    ensures d.None? ==> r == Some([])
    ensures d.Some? ==> (r.Some? <==> Models.ToGedcom(d.value).Some?)
    ensures d.Some? && r.Some? ==> r.value == [Sub(level, "DATE", Models.ToGedcom(d.value).value)]
  {
    if d.None? then Some([])
    else match Models.ToGedcom(d.value)
      case None => None
      case Some(t) => Some([Sub(level, "DATE", t)])
  }

  /** A place written as a PLAC line at `level`. */
  function PlaceLines(level: nat, p: Option<Models.Place>): seq<Line>
  {
    if p.Some? then [Sub(level, "PLAC", p.value.ToGedcom())] else []
  }

  /** A birth or death as `add_person` writes it: the event line, then its date and place. */
  function EventLines(tag: string, e: Option<Models.Event>): (r: Option<seq<Line>>)
    ensures e.None? ==> r == Some([])
    ensures e.Some? ==> (r.Some? <==> DateLines(2, e.value.date).Some?)
  {
    if e.None? then Some([])
    else match DateLines(2, e.value.date)
      case None => None
      case Some(dl) => Some([Sub(1, tag, "")] + dl + PlaceLines(2, e.value.place))
  }

  /** The NAME line and its GIVN, SURN and NICK parts, when there is a primary name. */
  function NameLines(n: Option<Models.Name>): seq<Line>
  {
    if n.None? then []
    else
      var name := n.value;
      [Sub(1, "NAME", name.GedcomName()), Sub(2, "GIVN", name.given), Sub(2, "SURN", name.surname)]
      + (if Models.StrTruthy(name.nickname) then [Sub(2, "NICK", name.nickname.value)] else [])
  }

  /** The lines of `add_person`'s record; `None` when a birth or death date cannot be written. */
  function PersonLines(id: string, name: Option<Models.Name>, sex: string, birth: Option<Models.Event>, death: Option<Models.Event>): (r: Option<seq<Line>>)
    ensures r.Some? <==> EventLines("BIRT", birth).Some? && EventLines("DEAT", death).Some?
  {
    match (EventLines("BIRT", birth), EventLines("DEAT", death))
    case (Some(b), Some(d)) => Some([Line(0, Some(id), "INDI", "")] + NameLines(name) + [Sub(1, "SEX", sex)] + b + d)
    case _ => None
  }

  /** The HUSB or WIFE line of a family, when that partner is given. */
  function PartnerLines(tag: string, who: Option<string>): seq<Line>
  {
    if Models.StrTruthy(who) then [Sub(1, tag, who.value)] else []
  }

  /** The MARR line and its date and place, when either is given; `None` when the date cannot be written. */
  function MarriageLines(date: Option<Models.GenealogyDate>, place: Option<Models.Place>): (r: Option<seq<Line>>)
    ensures r.None? <==> date.Some? && Models.ToGedcom(date.value).None?
  {
    if date.None? && place.None? then Some([])
    else match DateLines(2, date)
      case None => None
      case Some(dl) => Some([Sub(1, "MARR", "")] + dl + PlaceLines(2, place))
  }

  /** One CHIL line per child, in order. */
  function ChildLines(kids: seq<string>): (r: seq<Line>)
    ensures |r| == |kids|
    ensures forall i :: 0 <= i < |kids| ==> r[i] == Sub(1, "CHIL", kids[i])
    decreases |kids|
  {
    if kids == [] then [] else ChildLines(kids[..|kids| - 1]) + [Sub(1, "CHIL", kids[|kids| - 1])]
  }

  /** The lines of `add_family`'s record, in the order FAM, HUSB, WIFE, MARR with its date and place, CHIL. */
  function FamilyLines(id: string, husb: Option<string>, wife: Option<string>, date: Option<Models.GenealogyDate>, place: Option<Models.Place>, kids: seq<string>): (r: Option<seq<Line>>)
    ensures r.Some? <==> MarriageLines(date, place).Some?
  {
    match MarriageLines(date, place)
    case None => None
    case Some(ml) => Some([Line(0, Some(id), "FAM", "")] + PartnerLines("HUSB", husb) + PartnerLines("WIFE", wife) + ml + ChildLines(kids))
  }

  /** The FAMS lines `add_family` appends to the record filed under `k`: one for each partner slot naming `k`. */
  function SpouseLinks(k: string, husb: Option<string>, wife: Option<string>, fam: string): seq<Line>
  {
    (if Models.StrTruthy(husb) && husb.value == k then [Sub(1, "FAMS", fam)] else [])
    + (if Models.StrTruthy(wife) && wife.value == k then [Sub(1, "FAMS", fam)] else [])
  }

  /** The FAMC lines `add_family` appends to the record filed under `k`: one for each time `k` is listed as a child. */
  function ChildLinks(k: string, kids: seq<string>, fam: string): seq<Line>
    decreases |kids|
  {
    if kids == [] then []
    else ChildLinks(k, kids[..|kids| - 1], fam) + (if kids[|kids| - 1] == k then [Sub(1, "FAMC", fam)] else [])
  }

  /** Each child listed once gets exactly one FAMC line; someone not listed gets none. */
  lemma {:induction false} ChildLinksCount(k: string, kids: seq<string>, fam: string)
    ensures |ChildLinks(k, kids, fam)| == multiset(kids)[k]
    ensures forall l :: l in ChildLinks(k, kids, fam) ==> l == Sub(1, "FAMC", fam)
    decreases |kids|
  {
    if kids != [] {
      var init := kids[..|kids| - 1];
      ChildLinksCount(k, init, fam);
      assert kids == init + [kids[|kids| - 1]];
    }
  }

  /** The lines of `add_source`'s record: always SOUR and TITL, then AUTH, PUBL and NOTE when set. */
  function SourceLines(id: string, s: Models.Source): (r: seq<Line>)
    ensures |r| >= 2 && r[0] == Line(0, Some(id), "SOUR", "") && r[1] == Sub(1, "TITL", s.title)
  {
    [Line(0, Some(id), "SOUR", ""), Sub(1, "TITL", s.title)]
    + (if Models.StrTruthy(s.author) then [Sub(1, "AUTH", s.author.value)] else [])
    + (if Models.StrTruthy(s.publisher) then [Sub(1, "PUBL", s.publisher.value)] else [])
    + (if Models.StrTruthy(s.notes) then [Sub(1, "NOTE", s.notes.value)] else [])
  }

  /** `_update_header` on one line: a DATE line takes the date, a TIME line the time. */
  function Stamp(l: Line, date: string, time: string): Line
  {
    if l.tag == "DATE" then l.(value := date)
    else if l.tag == "TIME" then l.(value := time)
    else l
  }

  /** `_update_header` on all the lines of the header. */
  function StampAll(ls: seq<Line>, date: string, time: string): (r: seq<Line>)
    ensures |r| == |ls|
    ensures forall i :: 0 <= i < |ls| ==> r[i] == Stamp(ls[i], date, time)
  {
    seq(|ls|, i requires 0 <= i < |ls| => Stamp(ls[i], date, time))
  }

  /** Stamping the next line in place extends the stamped prefix by one line. */
  lemma StampStep(before: seq<Line>, lines: seq<Line>, i: nat, date: string, time: string)
    requires i < |before| && lines == StampAll(before[..i], date, time) + before[i..]
    ensures lines[i := Stamp(lines[i], date, time)] == StampAll(before[..i + 1], date, time) + before[i + 1..]
  {
    var n, m := lines[i := Stamp(lines[i], date, time)], StampAll(before[..i + 1], date, time) + before[i + 1..];
    forall k | 0 <= k < |n|
      ensures n[k] == m[k]
    {
      if k < i {
        assert before[..i][k] == before[..i + 1][k];
      } else if k > i {
        assert before[i..][k - i] == before[i + 1..][k - i - 1];
      }
    }
  }

  /** Stamping changes only the values of DATE and TIME lines, and stamping twice with the same clock changes nothing more. */
  lemma StampAllShape(ls: seq<Line>, date: string, time: string)
    ensures forall i :: 0 <= i < |ls| ==>
      var l, s := ls[i], StampAll(ls, date, time)[i];
      s.level == l.level && s.xref == l.xref && s.tag == l.tag
      && (l.tag != "DATE" && l.tag != "TIME" ==> s.value == l.value)
    ensures StampAll(StampAll(ls, date, time), date, time) == StampAll(ls, date, time)
  {
  }

  /** The values a reader of `tag` finds in a concatenation are those of each part, in order. */
  lemma {:induction false} TagValuesAppend(a: seq<Line>, b: seq<Line>, tag: string)
    ensures TagValues(a + b, tag) == TagValues(a, tag) + TagValues(b, tag)
    decreases |a|
  {
    if a == [] {
      assert a + b == b;
    } else {
      assert (a + b)[1..] == a[1..] + b;
      TagValuesAppend(a[1..], b, tag);
    }
  }

  /** No line carries `tag`, so a reader of `tag` finds nothing. */
  lemma {:induction false} TagValuesAbsent(ls: seq<Line>, tag: string)
    requires forall i :: 0 <= i < |ls| ==> ls[i].tag != tag
    ensures TagValues(ls, tag) == []
    decreases |ls|
  {
    if ls != [] {
      TagValuesAbsent(ls[1..], tag);
    }
  }

  /** The tags of a birth or death: the event tag, DATE and PLAC. */
  lemma EventLinesTags(tag: string, e: Option<Models.Event>)
    requires EventLines(tag, e).Some?
    ensures forall i :: 0 <= i < |EventLines(tag, e).value| ==> EventLines(tag, e).value[i].tag in {tag, "DATE", "PLAC"}
  {
  }

  /** The CHIL lines hold exactly the children, in order, and nothing under any other tag. */
  lemma {:induction false} ChildLinesValues(kids: seq<string>, tag: string)
    ensures TagValues(ChildLines(kids), tag) == if tag == "CHIL" then kids else []
    decreases |kids|
  {
    if kids != [] {
      var init := kids[..|kids| - 1];
      ChildLinesValues(init, tag);
      TagValuesAppend(ChildLines(init), [Sub(1, "CHIL", kids[|kids| - 1])], tag);
      assert init + [kids[|kids| - 1]] == kids;
    }
  }

  /** The value of a partner slot as a reader of its tag finds it. */
  function PartnerValues(who: Option<string>): seq<string>
  {
    if Models.StrTruthy(who) then [who.value] else []
  }

  /** A record whose subordinate lines fall into four parts reads back part by part. */
  lemma ReadParts(ls: seq<Line>, a: seq<Line>, b: seq<Line>, c: seq<Line>, d: seq<Line>, tag: string)
    requires Subordinates(ls) == a + b + c + d
    ensures AllValues(ls, tag, None) == TagValues(a, tag) + TagValues(b, tag) + TagValues(c, tag) + TagValues(d, tag)
  {
    AllValuesUnscoped(ls, tag);
    TagValuesAppend(a + b + c, d, tag);
    TagValuesAppend(a + b, c, tag);
    TagValuesAppend(a, b, tag);
  }

  /** The tags of a marriage: MARR, DATE and PLAC. */
  lemma MarriageLinesTags(date: Option<Models.GenealogyDate>, place: Option<Models.Place>)
    requires MarriageLines(date, place).Some?
    ensures forall i :: 0 <= i < |MarriageLines(date, place).value| ==> MarriageLines(date, place).value[i].tag in {"MARR", "DATE", "PLAC"}
  {
  }

  /** A partner slot reads back under its own tag and not under another. */
  lemma PartnerLinesValues(tag: string, who: Option<string>, t: string)
    ensures TagValues(PartnerLines(tag, who), t) == if t == tag then PartnerValues(who) else []
  {
    if Models.StrTruthy(who) {
      assert PartnerLines(tag, who)[1..] == [];
    }
  }

  /** What a reader of each family tag finds in a family written by `add_family`: the children, husband and wife given. */
  function FamilyRead(t: string, husb: Option<string>, wife: Option<string>, kids: seq<string>): seq<string>
  {
    if t == "CHIL" then kids else if t == "HUSB" then PartnerValues(husb) else if t == "WIFE" then PartnerValues(wife) else []
  }

  /** The family read-back, part by part. */
  lemma FamilyPartsRead(ls: seq<Line>, husb: Option<string>, wife: Option<string>, ml: seq<Line>, kids: seq<string>, t: string)
    requires Subordinates(ls) == PartnerLines("HUSB", husb) + PartnerLines("WIFE", wife) + ml + ChildLines(kids)
    requires forall i :: 0 <= i < |ml| ==> ml[i].tag != t
    requires t == "CHIL" || t == "HUSB" || t == "WIFE"
    ensures AllValues(ls, t, None) == FamilyRead(t, husb, wife, kids)
  {
    ReadParts(ls, PartnerLines("HUSB", husb), PartnerLines("WIFE", wife), ml, ChildLines(kids), t);
    PartnerLinesValues("HUSB", husb, t);
    PartnerLinesValues("WIFE", wife, t);
    TagValuesAbsent(ml, t);
    ChildLinesValues(kids, t);
    FamilySum(t, husb, wife, kids, TagValues(PartnerLines("HUSB", husb), t), TagValues(PartnerLines("WIFE", wife), t), TagValues(ml, t), TagValues(ChildLines(kids), t));
  }

  /** The four parts' values together are what a reader of `t` finds in the family. */
  lemma FamilySum(t: string, husb: Option<string>, wife: Option<string>, kids: seq<string>, a: seq<string>, b: seq<string>, c: seq<string>, d: seq<string>)
    requires t == "CHIL" || t == "HUSB" || t == "WIFE"
    requires a == (if t == "HUSB" then PartnerValues(husb) else [])
    requires b == (if t == "WIFE" then PartnerValues(wife) else [])
    requires c == [] && d == (if t == "CHIL" then kids else [])
    ensures a + b + c + d == FamilyRead(t, husb, wife, kids)
  {
    FamilyTagsDistinct();
    if t == "CHIL" {
      assert a + b + c + d == kids;
    } else if t == "HUSB" {
      assert a + b + c + d == a;
    } else {
      assert a + b + c + d == b;
    }
  }

  /** The three family link tags are distinct. */
  lemma FamilyTagsDistinct()
    ensures "CHIL" != "HUSB" && "CHIL" != "WIFE" && "HUSB" != "WIFE"
  {
    assert "CHIL"[0] != "HUSB"[0] && "CHIL"[0] != "WIFE"[0] && "HUSB"[0] != "WIFE"[0];
  }

  /** A family written by `add_family` reads back through `get_all_values` as it was given. */
  lemma FamilyLinesRead(id: string, husb: Option<string>, wife: Option<string>, date: Option<Models.GenealogyDate>, place: Option<Models.Place>, kids: seq<string>, t: string)
    requires FamilyLines(id, husb, wife, date, place, kids).Some?
    requires t == "CHIL" || t == "HUSB" || t == "WIFE"
    ensures AllValues(FamilyLines(id, husb, wife, date, place, kids).value, t, None) == FamilyRead(t, husb, wife, kids)
  {
    var ml := MarriageLines(date, place).value;
    MarriageLinesTags(date, place);
    FamilyPartsRead(FamilyLines(id, husb, wife, date, place, kids).value, husb, wife, ml, kids, t);
  }

  /** The tags of a name: NAME, GIVN, SURN and NICK, with the NAME line first. */
  lemma NameLinesValues(n: Option<Models.Name>, t: string)
    requires t != "GIVN" && t != "SURN" && t != "NICK"
    ensures TagValues(NameLines(n), t) == if n.Some? && t == "NAME" then [n.value.GedcomName()] else []
  {
    if n.Some? {
      var ls := NameLines(n);
      TagValuesAbsent(ls[1..], t);
    }
  }

  /** What a reader of each tag finds in a person written by `add_person`: the sex, the primary name, and no family links. */
  function PersonRead(t: string, name: Option<Models.Name>, sex: string): seq<string>
  {
    if t == "SEX" then [sex] else if t == "NAME" && name.Some? then [name.value.GedcomName()] else []
  }

  /** The person read-back, part by part. */
  lemma PersonPartsRead(ls: seq<Line>, name: Option<Models.Name>, sex: string, bl: seq<Line>, dl: seq<Line>, t: string)
    requires Subordinates(ls) == NameLines(name) + [Sub(1, "SEX", sex)] + bl + dl
    requires forall i :: 0 <= i < |bl| ==> bl[i].tag != t
    requires forall i :: 0 <= i < |dl| ==> dl[i].tag != t
    requires t == "SEX" || t == "NAME" || t == "FAMS" || t == "FAMC"
    ensures AllValues(ls, t, None) == PersonRead(t, name, sex)
  {
    var sl := [Sub(1, "SEX", sex)];
    ReadParts(ls, NameLines(name), sl, bl, dl, t);
    assert sl[1..] == [];
    TagValuesAbsent(bl, t);
    TagValuesAbsent(dl, t);
    NameLinesValues(name, t);
  }

  /** A person written by `add_person` reads back through `get_all_values` as they were given. */
  lemma PersonLinesRead(id: string, name: Option<Models.Name>, sex: string, birth: Option<Models.Event>, death: Option<Models.Event>, t: string)
    requires PersonLines(id, name, sex, birth, death).Some?
    requires t == "SEX" || t == "NAME" || t == "FAMS" || t == "FAMC"
    ensures AllValues(PersonLines(id, name, sex, birth, death).value, t, None) == PersonRead(t, name, sex)
  {
    EventLinesTags("BIRT", birth);
    EventLinesTags("DEAT", death);
    PersonPartsRead(PersonLines(id, name, sex, birth, death).value, name, sex, EventLines("BIRT", birth).value, EventLines("DEAT", death).value, t);
  }

  /** A source written by `add_source` reads back its title. */
  lemma SourceLinesRead(id: string, s: Models.Source)
    ensures AllValues(SourceLines(id, s), "TITL", None) == [s.title]
  {
    var ls := SourceLines(id, s);
    AllValuesUnscoped(ls, "TITL");
    var al := if Models.StrTruthy(s.author) then [Sub(1, "AUTH", s.author.value)] else [];
    var pl := if Models.StrTruthy(s.publisher) then [Sub(1, "PUBL", s.publisher.value)] else [];
    var nl := if Models.StrTruthy(s.notes) then [Sub(1, "NOTE", s.notes.value)] else [];
    assert Subordinates(ls) == [Sub(1, "TITL", s.title)] + al + pl + nl;
    TagValuesAppend([Sub(1, "TITL", s.title)] + al + pl, nl, "TITL");
    TagValuesAppend([Sub(1, "TITL", s.title)] + al, pl, "TITL");
    TagValuesAppend([Sub(1, "TITL", s.title)], al, "TITL");
  }

  /** `_write_record`: each line as its text, in order. */
  function RecordText(ls: seq<Line>): (r: seq<string>)
    ensures |r| == |ls|
    ensures forall i :: 0 <= i < |ls| ==> r[i] == ToString(ls[i])
  {
    seq(|ls|, i requires 0 <= i < |ls| => ToString(ls[i]))
  }

  /** Written records read back line for line: each output line parses to the line it came from. */
  lemma RecordTextParses(ls: seq<Line>)
    requires forall i :: 0 <= i < |ls| ==> WellFormed(ls[i])
    ensures forall i :: 0 <= i < |ls| ==> Parse(RecordText(ls)[i]) == Some(ls[i])
  {
    forall i | 0 <= i < |ls| ensures Parse(RecordText(ls)[i]) == Some(ls[i]) {
      ParseToString(ls[i]);
    }
  }
}
