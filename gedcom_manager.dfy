/**
 * `GedcomManager`: the record store behind GEDCOM import and export. It assembles parsed
 * lines into records, files them by type, hands out per-type identifiers, validates links
 * and dates, adds people, families and sources (patching the back-links into records already
 * stored), and writes the records back out in order.
 *
 * Records are objects: the same `Record` sits in `records` and in a typed index, so a line
 * `add_family` appends to a person is seen through both. Reading a file becomes a sequence
 * of raw lines and writing one a sequence of output lines; the clock is a parameter.
 */
module GedcomManager {
  import opened Wrappers
  import opened Text
  import opened GedcomLine
  import opened GedcomRecord
  import opened OrderedMap
  import opened SurnameVariants
  import opened Sorting
  import Models
  import GedcomDateFormat
  import opened GedcomBuild

  /** `GedcomValidationError`. Every issue the modelled code raises has `line_number=None`, so no line number is kept. */
  datatype Issue = Issue(severity: string, recordId: Option<string>, message: string)

  /** The plain value of a record: Python's `==` on `GedcomRecord` compares exactly these fields. */
  datatype RecordValue = RecordValue(id: Option<string>, tag: string, lines: seq<Line>)

  /** The key a record is filed under: `record.id or record.tag`. */
  function KeyOf(id: Option<string>, tag: string): string
  {
    if id.Some? && id.value != "" then id.value else tag
  }

  function ValueOf(r: Record): RecordValue
    reads r
  {
    RecordValue(r.id, r.tag, r.lines)
  }

  /** The values of the records of a store, under the same keys and in the same order. */
  function View(om: OMap<Record>): (v: OMap<RecordValue>)
    reads om.m.Values
    ensures v.keys == om.keys && v.m.Keys == om.m.Keys
  {
    OMap(om.keys, map k | k in om.m :: ValueOf(om.m[k]))
  }

  /** Every record is filed under its own key, so distinct keys hold distinct records. */
  ghost predicate Keyed(om: OMap<Record>)
  {
    om.Valid() && forall k :: k in om.m ==> KeyOf(om.m[k].id, om.m[k].tag) == k
  }

  // ---------------------------------------------------------------------------------------
  // Identifier allocation
  // ---------------------------------------------------------------------------------------

  /** The identifier `get_next_*_id` formats: `@I12@`, `@F3@`, `@S1@`, `@R7@`. */
  function IdText(letter: char, n: nat): string
  {
    "@" + [letter] + NatToString(n) + "@"
  }

  /** `re.match(r'@X(\d+)@', key)`: the number after `@X` when a run of digits and an `@` follow; anything may come after. */
  function IdNumber(key: string, letter: char): Option<nat>
  {
    if |key| >= 2 && key[0] == '@' && key[1] == letter then
      var j := SpanDigits(key, 2);
      if j > 2 && j < |key| && key[j] == '@' then Some(DigitsValue(key[2..j])) else None
    else None
  }

  /** The identifiers handed out are the ones `_update_id_counters` reads back: the number round-trips. */
  lemma IdNumberOfIdText(letter: char, n: nat)
    ensures IdNumber(IdText(letter, n), letter) == Some(n)
  {
    var s := IdText(letter, n);
    var d := NatToString(n);
    assert s == ['@', letter] + d + ['@'];
    assert forall k :: 2 <= k < 2 + |d| ==> s[k] == d[k - 2];
    assert s[2 + |d|] == '@';
    assert SpanDigits(s, 2) == 2 + |d| by { SpanDigitsOver(s, 2, 2 + |d|); }
    assert s[2..2 + |d|] == d;
    DigitsValueOfNatToString(n);
  }

  lemma {:induction false} SpanDigitsOver(s: string, i: nat, j: nat)
    requires i <= j < |s| && !IsDigit(s[j])
    requires forall k :: i <= k < j ==> IsDigit(s[k])
    ensures SpanDigits(s, i) == j
    decreases j - i
  {
    if i < j {
      SpanDigitsOver(s, i + 1, j);
    }
  }

  /** Distinct counter values give distinct identifiers. */
  lemma IdTextInjective(letter: char, n: nat, m: nat)
    requires IdText(letter, n) == IdText(letter, m)
    ensures n == m
  {
    IdNumberOfIdText(letter, n);
    IdNumberOfIdText(letter, m);
  }

  /** One `_update_id_counters` loop: `counter = max(counter, int(suffix) + 1)` for every key that matches. */
  function RaiseCounter(c: nat, keys: seq<string>, letter: char): nat
    decreases |keys|
  {
    if keys == [] then c
    else
      var n := IdNumber(keys[0], letter);
      RaiseCounter(if n.Some? && n.value + 1 > c then n.value + 1 else c, keys[1..], letter)
  }

  /** The counter never drops, ends above every number found, and is either unchanged or one past a number found. */
  lemma {:induction false} RaiseCounterBounds(c: nat, keys: seq<string>, letter: char)
    ensures RaiseCounter(c, keys, letter) >= c
    ensures forall i :: 0 <= i < |keys| && IdNumber(keys[i], letter).Some? ==> RaiseCounter(c, keys, letter) > IdNumber(keys[i], letter).value
    ensures RaiseCounter(c, keys, letter) == c
         || exists i :: 0 <= i < |keys| && IdNumber(keys[i], letter).Some? && RaiseCounter(c, keys, letter) == IdNumber(keys[i], letter).value + 1
    decreases |keys|
  {
    if keys != [] {
      var n := IdNumber(keys[0], letter);
      var c' := if n.Some? && n.value + 1 > c then n.value + 1 else c;
      RaiseCounterBounds(c', keys[1..], letter);
      var r := RaiseCounter(c, keys, letter);
      assert r == RaiseCounter(c', keys[1..], letter);
      forall i | 0 <= i < |keys| && IdNumber(keys[i], letter).Some? ensures r > IdNumber(keys[i], letter).value {
        if i > 0 { assert keys[1..][i - 1] == keys[i]; }
      }
      if r != c {
        if r == c' {
          assert IdNumber(keys[0], letter).Some? && r == IdNumber(keys[0], letter).value + 1;
        } else {
          var i :| 0 <= i < |keys[1..]| && IdNumber(keys[1..][i], letter).Some? && r == IdNumber(keys[1..][i], letter).value + 1;
          assert keys[1..][i] == keys[i + 1];
        }
      }
    }
  }

  /** Keys that do not have the `@X<digits>@` shape leave the counter alone. */
  lemma {:induction false} RaiseCounterIgnores(c: nat, keys: seq<string>, letter: char)
    requires forall i :: 0 <= i < |keys| ==> IdNumber(keys[i], letter).None?
    ensures RaiseCounter(c, keys, letter) == c
    decreases |keys|
  {
    if keys != [] {
      assert forall i :: 0 <= i < |keys[1..]| ==> keys[1..][i] == keys[i + 1];
      RaiseCounterIgnores(c, keys[1..], letter);
    }
  }

  /** One `_update_id_counters` loop, on the keys of one typed index. */
  method RaiseLoop(c: nat, keys: seq<string>, letter: char) returns (r: nat)
    ensures r == RaiseCounter(c, keys, letter)
  {
    r := c;
    var i := 0;
    while i < |keys|
      invariant 0 <= i <= |keys|
      invariant RaiseCounter(r, keys[i..], letter) == RaiseCounter(c, keys, letter)
    {
      assert keys[i..][0] == keys[i] && keys[i..][1..] == keys[i + 1..];
      var n := IdNumber(keys[i], letter);
      if n.Some? && n.value + 1 > r {
        r := n.value + 1;
      }
      i := i + 1;
    }
  }

  // ---------------------------------------------------------------------------------------
  // Record assembly
  // ---------------------------------------------------------------------------------------

  /** The lines of a file that `GedcomLine.parse` accepts, in order; the others are skipped. */
  function ParsedLines(text: seq<string>): (ls: seq<Line>)
    ensures |ls| <= |text|
    decreases |text|
  {
    if text == [] then []
    else (if Parse(text[0]).Some? then [Parse(text[0]).value] else []) + ParsedLines(text[1..])
  }

  /** The type `_parse` gives the record a level-0 line opens: the line's value when it has an xref, else its tag. */
  function TypeOf(l: Line): string
  {
    if l.xref.Some? && l.xref.value != "" then l.value else l.tag
  }

  /** The record a level-0 line opens. */
  function Open(l: Line): RecordValue
  {
    RecordValue(l.xref, TypeOf(l), [l])
  }

  /**
   * `_parse` on the accepted lines, given the record being assembled: the records in the order
   * they are completed. A level-0 line completes the current record and opens a new one,
   * another line joins the current record, and lines before the first level-0 line are dropped.
   */
  function Assemble(ls: seq<Line>, current: Option<RecordValue>): seq<RecordValue>
    decreases |ls|
  {
    if ls == [] then (if current.Some? then [current.value] else [])
    else if ls[0].level == 0 then (if current.Some? then [current.value] else []) + Assemble(ls[1..], Some(Open(ls[0])))
    else if current.Some? then Assemble(ls[1..], Some(current.value.(lines := current.value.lines + [ls[0]])))
    else Assemble(ls[1..], None)
  }

  /** `records[record.id or record.tag] = record` for each completed record, in order: a later record with the same key replaces the earlier one. */
  function PutAll(om: OMap<RecordValue>, rs: seq<RecordValue>): OMap<RecordValue>
    decreases |rs|
  {
    if rs == [] then om else PutAll(om.Put(KeyOf(rs[0].id, rs[0].tag), rs[0]), rs[1..])
  }

  /** The record's first line carries `tag`. */
  predicate OpenedBy(r: RecordValue, tag: string)
  {
    |r.lines| > 0 && r.lines[0].tag == tag
  }

  /** The last record opened by a `tag` line, or `dflt` when there is none: what `header` (for HEAD) and `trailer` (for TRLR) end up holding. */
  function LastOpenedBy(rs: seq<RecordValue>, tag: string, dflt: Option<RecordValue>): Option<RecordValue>
    decreases |rs|
  {
    if rs == [] then dflt else LastOpenedBy(rs[1..], tag, if OpenedBy(rs[0], tag) then Some(rs[0]) else dflt)
  }

  /** The last completed record filed under key `k`, if any. */
  function LastWithKey(rs: seq<RecordValue>, k: string): Option<RecordValue>
    decreases |rs|
  {
    if rs == [] then None
    else
      var later := LastWithKey(rs[1..], k);
      if later.Some? then later else if KeyOf(rs[0].id, rs[0].tag) == k then Some(rs[0]) else None
  }

  /** The store after `_parse`: keys stay unique, a key present before or assembled now is present, and the last record assembled under a key wins. */
  lemma {:induction false} PutAllContents(om: OMap<RecordValue>, rs: seq<RecordValue>, k: string)
    requires om.Valid()
    ensures PutAll(om, rs).Valid()
    ensures k in PutAll(om, rs).m <==> k in om.m || LastWithKey(rs, k).Some?
    ensures LastWithKey(rs, k).Some? ==> PutAll(om, rs).m[k] == LastWithKey(rs, k).value
    ensures LastWithKey(rs, k).None? && k in om.m ==> PutAll(om, rs).m[k] == om.m[k]
    decreases |rs|
  {
    if rs != [] {
      PutAllContents(om.Put(KeyOf(rs[0].id, rs[0].tag), rs[0]), rs[1..], k);
    }
  }

  /** A record that starts with a level-0 line and takes its id from that line's xref and its type from `TypeOf`. */
  predicate OpenedShape(r: RecordValue)
  {
    |r.lines| > 0 && r.lines[0].level == 0 && r.id == r.lines[0].xref && r.tag == TypeOf(r.lines[0])
  }

  /** Every assembled record has that shape. */
  lemma {:induction false} AssembledShape(ls: seq<Line>, current: Option<RecordValue>)
    requires current.Some? ==> OpenedShape(current.value)
    ensures forall r :: r in Assemble(ls, current) ==> OpenedShape(r)
    decreases |ls|
  {
    if ls != [] {
      if ls[0].level == 0 {
        AssembledShape(ls[1..], Some(Open(ls[0])));
      } else if current.Some? {
        var c := current.value.(lines := current.value.lines + [ls[0]]);
        assert c.lines[0] == current.value.lines[0];
        AssembledShape(ls[1..], Some(c));
      } else {
        AssembledShape(ls[1..], None);
      }
    }
  }

  /** The quirk: `0 @I1@ INDI` opens a record of type `""`, because with an xref the type is read from the empty value. */
  lemma LoadedIndividualHasNoType()
    ensures Assemble(ParsedLines(["0 @I1@ INDI"]), None) == [RecordValue(Some("@I1@"), "", [Line(0, Some("@I1@"), "INDI", "")])]
  {
    ParseXrefRecordLine();
    assert ParsedLines(["0 @I1@ INDI"]) == [Line(0, Some("@I1@"), "INDI", "")];
  }

  lemma ParsedLinesStep(text: seq<string>, k: nat)
    requires k < |text|
    ensures ParsedLines(text[k..]) == (if Parse(text[k]).Some? then [Parse(text[k]).value] else []) + ParsedLines(text[k + 1..])
  {
    assert text[k..][0] == text[k] && text[k..][1..] == text[k + 1..];
  }

  lemma AssembleCons(l: Line, rest: seq<Line>, current: Option<RecordValue>)
    ensures Assemble([l] + rest, current)
         == if l.level == 0 then (if current.Some? then [current.value] else []) + Assemble(rest, Some(Open(l)))
            else if current.Some? then Assemble(rest, Some(current.value.(lines := current.value.lines + [l])))
            else Assemble(rest, None)
  {
    assert ([l] + rest)[0] == l && ([l] + rest)[1..] == rest;
  }

  /** What `_parse` leaves behind, as values: the store, the header and the trailer. */
  datatype Loaded = Loaded(store: OMap<RecordValue>, header: Option<RecordValue>, trailer: Option<RecordValue>)

  /** Filing one completed record: it goes into the store, and becomes the header (trailer) when a HEAD (TRLR) line opened it. */
  function FileValue(f: Loaded, r: RecordValue): Loaded
  {
    Loaded(f.store.Put(KeyOf(r.id, r.tag), r),
           if OpenedBy(r, "HEAD") then Some(r) else f.header,
           if OpenedBy(r, "TRLR") then Some(r) else f.trailer)
  }

  /** Filing the completed records in order. */
  function FileAll(f: Loaded, rs: seq<RecordValue>): Loaded
    decreases |rs|
  {
    if rs == [] then f else FileAll(FileValue(f, rs[0]), rs[1..])
  }

  /** `_parse` on a file's lines, starting from `f`. */
  function LoadFile(f: Loaded, text: seq<string>): Loaded
  {
    FileAll(f, Assemble(ParsedLines(text), None))
  }

  lemma FileAllCons(f: Loaded, r: RecordValue, rest: seq<RecordValue>)
    ensures FileAll(f, [r] + rest) == FileAll(FileValue(f, r), rest)
  {
    assert ([r] + rest)[0] == r && ([r] + rest)[1..] == rest;
  }

  /** Filing the records in order leaves the store `PutAll` describes, and the last record opened by HEAD (TRLR) as header (trailer). */
  lemma {:induction false} FileAllAgrees(f: Loaded, rs: seq<RecordValue>)
    ensures FileAll(f, rs).store == PutAll(f.store, rs)
    ensures FileAll(f, rs).header == LastOpenedBy(rs, "HEAD", f.header)
    ensures FileAll(f, rs).trailer == LastOpenedBy(rs, "TRLR", f.trailer)
    decreases |rs|
  {
    if rs != [] {
      FileAllAgrees(FileValue(f, rs[0]), rs[1..]);
    }
  }

  /** One line of the `_parse` loop on values: the record filed (if any) and the record being assembled next. */
  function LineStep(current: Option<RecordValue>, parsed: Option<Line>): (Option<RecordValue>, Option<RecordValue>)
  {
    match parsed
    case None => (None, current)
    case Some(l) =>
      if l.level == 0 then (current, Some(Open(l)))
      else if current.Some? then (None, Some(current.value.(lines := current.value.lines + [l])))
      else (None, None)
  }

  /** The loop of `_parse` reaches the reference definition one line at a time. */
  lemma LineStepAgrees(done: Loaded, current: Option<RecordValue>, parsed: Option<Line>, rest: seq<Line>)
    ensures var (filed, next) := LineStep(current, parsed);
            FileAll(done, Assemble((if parsed.Some? then [parsed.value] else []) + rest, current))
            == FileAll(if filed.Some? then FileValue(done, filed.value) else done, Assemble(rest, next))
  {
    match parsed
    case None =>
      assert [] + rest == rest;
    case Some(l) =>
      AssembleCons(l, rest, current);
      if l.level == 0 {
        var after := Assemble(rest, Some(Open(l)));
        if current.Some? {
          assert Assemble([l] + rest, current) == [current.value] + after;
          FileAllCons(done, current.value, after);
        } else {
          assert Assemble([l] + rest, current) == after;
        }
      }
  }

  /** The record an optional reference holds, as a set. */
  function Held(o: Option<Record>): set<Record>
  {
    if o.Some? then {o.value} else {}
  }

  function ViewOpt(o: Option<Record>): Option<RecordValue>
    reads Held(o)
  {
    if o.Some? then Some(ValueOf(o.value)) else None
  }

  // ---------------------------------------------------------------------------------------
  // Indexes by record type
  // ---------------------------------------------------------------------------------------

  /** `_build_indexes` for one type: every record of `m` listed in `keys` whose type is `tag`, filed under its key, in order. */
  function IndexInto(om: OMap<Record>, keys: seq<string>, m: map<string, Record>, tag: string): OMap<Record>
    requires forall i :: 0 <= i < |keys| ==> keys[i] in m
    decreases |keys|
  {
    if keys == [] then om
    else
      var r := m[keys[0]];
      IndexInto(if r.tag == tag then om.Put(keys[0], r) else om, keys[1..], m, tag)
  }

  lemma IndexIntoStep(om: OMap<Record>, keys: seq<string>, i: nat, m: map<string, Record>, tag: string)
    requires i < |keys| && forall j :: 0 <= j < |keys| ==> keys[j] in m
    ensures IndexInto(om, keys[i..], m, tag)
         == IndexInto(if m[keys[i]].tag == tag then om.Put(keys[i], m[keys[i]]) else om, keys[i + 1..], m, tag)
  {
    assert keys[i..][0] == keys[i] && keys[i..][1..] == keys[i + 1..];
  }

  /** Filing a record and then viewing the store is viewing and then filing the record's value. */
  lemma ViewPut(om: OMap<Record>, k: string, r: Record)
    ensures View(om.Put(k, r)) == View(om).Put(k, ValueOf(r))
  {
  }

  /** Filing a record under its own key keeps an index keyed. */
  lemma PutKeyed(om: OMap<Record>, k: string, r: Record)
    requires Keyed(om) && KeyOf(r.id, r.tag) == k
    ensures Keyed(om.Put(k, r))
  {
  }

  /** An index built from a keyed store is keyed. */
  lemma {:induction false} IndexIntoKeyed(om: OMap<Record>, keys: seq<string>, m: map<string, Record>, tag: string)
    requires forall i :: 0 <= i < |keys| ==> keys[i] in m
    requires Keyed(om) && forall k :: k in m ==> KeyOf(m[k].id, m[k].tag) == k
    ensures Keyed(IndexInto(om, keys, m, tag))
    decreases |keys|
  {
    if keys != [] {
      var r := m[keys[0]];
      var om' := if r.tag == tag then om.Put(keys[0], r) else om;
      if r.tag == tag { PutKeyed(om, keys[0], r); }
      assert forall i :: 0 <= i < |keys[1..]| ==> keys[1..][i] == keys[i + 1];
      IndexIntoKeyed(om', keys[1..], m, tag);
    }
  }

  /** The index gains exactly the keys of the records of the type, and keeps every key it had. */
  lemma {:induction false} IndexIntoKeys(om: OMap<Record>, keys: seq<string>, m: map<string, Record>, tag: string)
    requires forall i :: 0 <= i < |keys| ==> keys[i] in m
    requires om.Valid()
    ensures IndexInto(om, keys, m, tag).Valid()
    ensures forall k :: k in IndexInto(om, keys, m, tag).m <==> k in om.m || (k in keys && m[k].tag == tag)
    decreases |keys|
  {
    if keys != [] {
      var k0, rest := keys[0], keys[1..];
      var r := m[k0];
      var om' := if r.tag == tag then om.Put(k0, r) else om;
      assert forall i :: 0 <= i < |rest| ==> rest[i] == keys[i + 1];
      IndexIntoKeys(om', rest, m, tag);
      forall k ensures k in keys <==> k == k0 || k in rest {
        assert keys == [k0] + rest;
      }
    }
  }

  /** Each record of the type is filed under its key, and every other entry is kept. */
  lemma {:induction false} IndexIntoValues(om: OMap<Record>, keys: seq<string>, m: map<string, Record>, tag: string)
    requires forall i :: 0 <= i < |keys| ==> keys[i] in m
    ensures forall k :: k in keys && m[k].tag == tag ==> k in IndexInto(om, keys, m, tag).m && IndexInto(om, keys, m, tag).m[k] == m[k]
    ensures forall k :: k in om.m && !(k in keys && m[k].tag == tag) ==> k in IndexInto(om, keys, m, tag).m && IndexInto(om, keys, m, tag).m[k] == om.m[k]
    decreases |keys|
  {
    if keys != [] {
      var k0, rest := keys[0], keys[1..];
      var r := m[k0];
      var om' := if r.tag == tag then om.Put(k0, r) else om;
      assert forall i :: 0 <= i < |rest| ==> rest[i] == keys[i + 1];
      IndexIntoValues(om', rest, m, tag);
      forall k ensures k in keys <==> k == k0 || k in rest {
        assert keys == [k0] + rest;
      }
    }
  }

  /** The index gains exactly the records of the type, each under its key, and keeps everything it had. */
  lemma IndexIntoContents(om: OMap<Record>, keys: seq<string>, m: map<string, Record>, tag: string)
    requires forall i :: 0 <= i < |keys| ==> keys[i] in m
    requires om.Valid()
    ensures IndexInto(om, keys, m, tag).Valid()
    ensures forall k :: k in IndexInto(om, keys, m, tag).m <==> k in om.m || (k in keys && m[k].tag == tag)
    ensures forall k :: k in keys && m[k].tag == tag ==> IndexInto(om, keys, m, tag).m[k] == m[k]
    ensures forall k :: k in om.m && !(k in keys && m[k].tag == tag) ==> IndexInto(om, keys, m, tag).m[k] == om.m[k]
  {
    IndexIntoKeys(om, keys, m, tag);
    IndexIntoValues(om, keys, m, tag);
  }

  /** Records of another type are never filed: a record whose type is `""`, as every loaded xref record's is, lands in no index. */
  lemma {:induction false} IndexIntoSkips(om: OMap<Record>, keys: seq<string>, m: map<string, Record>, tag: string)
    requires forall i :: 0 <= i < |keys| ==> keys[i] in m && m[keys[i]].tag != tag
    ensures IndexInto(om, keys, m, tag) == om
    decreases |keys|
  {
    if keys != [] {
      assert forall i :: 0 <= i < |keys[1..]| ==> keys[1..][i] == keys[i + 1];
      IndexIntoSkips(om, keys[1..], m, tag);
    }
  }

  /** The loop of `_build_indexes`, over the keys of `records` in order. */
  method IndexLoop(keys: seq<string>, m: map<string, Record>, ind0: OMap<Record>, fam0: OMap<Record>, sou0: OMap<Record>, rep0: OMap<Record>)
    returns (ind: OMap<Record>, fam: OMap<Record>, sou: OMap<Record>, rep: OMap<Record>)
    requires forall i :: 0 <= i < |keys| ==> keys[i] in m
    ensures ind == IndexInto(ind0, keys, m, "INDI") && fam == IndexInto(fam0, keys, m, "FAM")
    ensures sou == IndexInto(sou0, keys, m, "SOUR") && rep == IndexInto(rep0, keys, m, "REPO")
  {
    ind, fam, sou, rep := ind0, fam0, sou0, rep0;
    var i := 0;
    while i < |keys|
      invariant 0 <= i <= |keys|
      invariant IndexInto(ind, keys[i..], m, "INDI") == IndexInto(ind0, keys, m, "INDI")
      invariant IndexInto(fam, keys[i..], m, "FAM") == IndexInto(fam0, keys, m, "FAM")
      invariant IndexInto(sou, keys[i..], m, "SOUR") == IndexInto(sou0, keys, m, "SOUR")
      invariant IndexInto(rep, keys[i..], m, "REPO") == IndexInto(rep0, keys, m, "REPO")
    {
      var key := keys[i];
      var r := m[key];
      IndexIntoStep(ind, keys, i, m, "INDI");
      IndexIntoStep(fam, keys, i, m, "FAM");
      IndexIntoStep(sou, keys, i, m, "SOUR");
      IndexIntoStep(rep, keys, i, m, "REPO");
      if r.tag == "INDI" {
        ind := ind.Put(key, r);
      } else if r.tag == "FAM" {
        fam := fam.Put(key, r);
      } else if r.tag == "SOUR" {
        sou := sou.Put(key, r);
      } else if r.tag == "REPO" {
        rep := rep.Put(key, r);
      }
      i := i + 1;
    }
    assert keys[i..] == [];
  }

  // ---------------------------------------------------------------------------------------
  // Validation
  // ---------------------------------------------------------------------------------------
  //
  // Each issue list is defined from the back: the issues of a sequence are those of all but
  // its last entry followed by those of the last one, which is the order the loops of
  // `validate` append them in.

  /** `if record.id:` */
  predicate HasId(r: RecordValue)
  {
    r.id.Some? && r.id.value != ""
  }

  /** The ids that `_validate_ids` has seen once it has gone through `rs`. */
  function IdsOf(rs: seq<RecordValue>): set<string>
    decreases |rs|
  {
    if rs == [] then {}
    else
      var r := rs[|rs| - 1];
      IdsOf(rs[..|rs| - 1]) + (if HasId(r) then {r.id.value} else {})
  }

  lemma {:induction false} IdsOfMembers(rs: seq<RecordValue>, x: string)
    ensures x in IdsOf(rs) <==> exists i :: 0 <= i < |rs| && HasId(rs[i]) && rs[i].id.value == x
    decreases |rs|
  {
    if rs != [] {
      var init := rs[..|rs| - 1];
      IdsOfMembers(init, x);
      assert forall i :: 0 <= i < |init| ==> init[i] == rs[i];
    }
  }

  /** `_validate_ids`: one error for each record whose id an earlier record already carried, in record order. */
  function IdErrors(rs: seq<RecordValue>): seq<Issue>
    decreases |rs|
  {
    if rs == [] then []
    else
      var init, r := rs[..|rs| - 1], rs[|rs| - 1];
      IdErrors(init) + (if HasId(r) && r.id.value in IdsOf(init) then [Issue("error", r.id, "Duplicate ID: " + r.id.value)] else [])
  }

  /** One more record for the ID check: its error, if its id was seen, and its id. */
  lemma IdStep(rs: seq<RecordValue>, i: nat)
    requires i < |rs|
    ensures IdErrors(rs[..i + 1]) == IdErrors(rs[..i]) + (if HasId(rs[i]) && rs[i].id.value in IdsOf(rs[..i]) then [Issue("error", rs[i].id, "Duplicate ID: " + rs[i].id.value)] else [])
    ensures IdsOf(rs[..i + 1]) == IdsOf(rs[..i]) + (if HasId(rs[i]) then {rs[i].id.value} else {})
  {
    assert rs[..i + 1][..i] == rs[..i];
  }

  /** No two records carry the same id. */
  ghost predicate IdsDistinct(rs: seq<RecordValue>)
  {
    forall i, j :: 0 <= i < j < |rs| && HasId(rs[i]) && HasId(rs[j]) ==> rs[i].id != rs[j].id
  }

  /** `_validate_ids` reports nothing exactly when the ids are distinct. */
  lemma {:induction false} IdErrorsEmpty(rs: seq<RecordValue>)
    ensures IdErrors(rs) == [] <==> IdsDistinct(rs)
    decreases |rs|
  {
    if rs != [] {
      var init, r := rs[..|rs| - 1], rs[|rs| - 1];
      IdErrorsEmpty(init);
      assert forall i :: 0 <= i < |init| ==> init[i] == rs[i];
      if HasId(r) {
        IdsOfMembers(init, r.id.value);
      }
      if IdsDistinct(rs) {
        assert IdsDistinct(init);
      }
      if HasId(r) && r.id.value in IdsOf(init) {
        var i :| 0 <= i < |init| && HasId(init[i]) && init[i].id.value == r.id.value;
        assert rs[i].id == rs[|rs| - 1].id;
      }
      if IdErrors(rs) == [] {
        forall i, j | 0 <= i < j < |rs| && HasId(rs[i]) && HasId(rs[j]) ensures rs[i].id != rs[j].id {
          if j < |init| {
            assert init[i].id != init[j].id;
          } else {
            assert init[i].id.value != r.id.value;
          }
        }
      }
    }
  }

  /** A value store whose every record sits under its own key. */
  ghost predicate KeyedValues(v: OMap<RecordValue>)
  {
    v.Valid() && forall k :: k in v.m ==> KeyOf(v.m[k].id, v.m[k].tag) == k
  }

  lemma KeyedView(om: OMap<Record>)
    requires Keyed(om)
    ensures KeyedValues(View(om))
  {
  }

  /** The duplicate-ID check cannot fire on a store whose records sit under their own keys, as every store `_parse` and the mutators build does. */
  lemma KeyedIdsDistinct(v: OMap<RecordValue>)
    requires KeyedValues(v)
    ensures IdErrors(v.Values()) == []
  {
    var rs := v.Values();
    forall i, j | 0 <= i < j < |rs| && HasId(rs[i]) && HasId(rs[j])
      ensures rs[i].id != rs[j].id
    {
      assert KeyOf(rs[i].id, rs[i].tag) == v.keys[i];
      assert KeyOf(rs[j].id, rs[j].tag) == v.keys[j];
    }
    IdErrorsEmpty(rs);
  }

  /** The values of the `tag` lines among a record's subordinate lines: `record.get_all_values(tag)`. */
  function Refs(r: RecordValue, tag: string): seq<string>
  {
    AllValues(r.lines, tag, None)
  }

  /** `get_all_values(tag)` of every record, by key. */
  function RefLists(rs: map<string, RecordValue>, tag: string): (lists: map<string, seq<string>>)
    ensures lists.Keys == rs.Keys
  {
    map k | k in rs :: Refs(rs[k], tag)
  }

  const FamcMissing := "FAMC references non-existent family: "
  const FamsMissing := "FAMS references non-existent family: "
  const SpouseMissing := "Spouse references non-existent individual: "
  const ChildMissing := "CHIL references non-existent individual: "

  /** One error, filed against `owner`, for each reference that names no key of `targets`, in order. */
  function Dangling(owner: string, refs: seq<string>, targets: set<string>, prefix: string): seq<Issue>
    decreases |refs|
  {
    if refs == [] then []
    else
      var ref := refs[|refs| - 1];
      Dangling(owner, refs[..|refs| - 1], targets, prefix) + (if ref in targets then [] else [Issue("error", Some(owner), prefix + ref)])
  }

  /** An error is raised for a reference exactly when it names nothing. */
  lemma {:induction false} DanglingMembers(owner: string, refs: seq<string>, targets: set<string>, prefix: string, e: Issue)
    ensures e in Dangling(owner, refs, targets, prefix)
        <==> exists i :: 0 <= i < |refs| && refs[i] !in targets && e == Issue("error", Some(owner), prefix + refs[i])
    decreases |refs|
  {
    if refs != [] {
      var init, n := refs[..|refs| - 1], |refs| - 1;
      DanglingMembers(owner, init, targets, prefix, e);
      var tail := if refs[n] in targets then [] else [Issue("error", Some(owner), prefix + refs[n])];
      assert Dangling(owner, refs, targets, prefix) == Dangling(owner, init, targets, prefix) + tail;
      if e in Dangling(owner, refs, targets, prefix) {
        if e in Dangling(owner, init, targets, prefix) {
          var i :| 0 <= i < |init| && init[i] !in targets && e == Issue("error", Some(owner), prefix + init[i]);
          assert refs[i] == init[i];
        } else {
          assert e in tail;
        }
      }
      if exists i :: 0 <= i < |refs| && refs[i] !in targets && e == Issue("error", Some(owner), prefix + refs[i]) {
        var i :| 0 <= i < |refs| && refs[i] !in targets && e == Issue("error", Some(owner), prefix + refs[i]);
        if i < n {
          assert init[i] == refs[i];
        } else {
          assert e in tail;
        }
      }
    }
  }

  /** The warning a FAMC reference draws when the family exists but lists no such child. */
  function UnlistedChild(owner: string, ref: string): Issue
  {
    Issue("warning", Some(owner), "FAMC " + ref + " does not list this person as CHIL")
  }

  /** One warning for each reference naming a family, listed in `kids` with its children, that does not list `owner`. */
  function Unlisted(owner: string, refs: seq<string>, kids: map<string, seq<string>>): seq<Issue>
    decreases |refs|
  {
    if refs == [] then []
    else
      var ref := refs[|refs| - 1];
      Unlisted(owner, refs[..|refs| - 1], kids) + (if ref in kids && owner !in kids[ref] then [UnlistedChild(owner, ref)] else [])
  }

  /** A reference draws a warning exactly when its family exists and does not list the person; a dangling one draws none. */
  lemma {:induction false} UnlistedMembers(owner: string, refs: seq<string>, kids: map<string, seq<string>>, w: Issue)
    ensures w in Unlisted(owner, refs, kids)
        <==> exists i :: 0 <= i < |refs| && refs[i] in kids && owner !in kids[refs[i]] && w == UnlistedChild(owner, refs[i])
    decreases |refs|
  {
    if refs != [] {
      var init := refs[..|refs| - 1];
      UnlistedMembers(owner, init, kids, w);
      assert forall i :: 0 <= i < |init| ==> init[i] == refs[i];
    }
  }

  /** For each owner listed in `keys`, in order, the errors its references draw against `targets`. */
  function RefErrors(keys: seq<string>, lists: map<string, seq<string>>, targets: set<string>, prefix: string): seq<Issue>
    requires forall i :: 0 <= i < |keys| ==> keys[i] in lists
    decreases |keys|
  {
    if keys == [] then []
    else
      var k := keys[|keys| - 1];
      RefErrors(keys[..|keys| - 1], lists, targets, prefix) + Dangling(k, lists[k], targets, prefix)
  }

  /** For each individual listed in `keys`, in order, the warnings its FAMC references draw. */
  function FamcWarnings(keys: seq<string>, famcs: map<string, seq<string>>, kids: map<string, seq<string>>): seq<Issue>
    requires forall i :: 0 <= i < |keys| ==> keys[i] in famcs
    decreases |keys|
  {
    if keys == [] then []
    else
      var k := keys[|keys| - 1];
      FamcWarnings(keys[..|keys| - 1], famcs, kids) + Unlisted(k, famcs[k], kids)
  }

  /** For each family listed in `keys`, in order, the errors its HUSB and WIFE references draw, then those its CHIL references draw. */
  function FamiliesErrors(keys: seq<string>, husbs: map<string, seq<string>>, wives: map<string, seq<string>>, kids: map<string, seq<string>>, inds: set<string>): seq<Issue>
    requires forall i :: 0 <= i < |keys| ==> keys[i] in husbs && keys[i] in wives && keys[i] in kids
    decreases |keys|
  {
    if keys == [] then []
    else
      var k := keys[|keys| - 1];
      FamiliesErrors(keys[..|keys| - 1], husbs, wives, kids, inds)
      + (Dangling(k, husbs[k] + wives[k], inds, SpouseMissing) + Dangling(k, kids[k], inds, ChildMissing))
  }

  /** One more owner: its errors come last. */
  lemma RefErrorsStep(keys: seq<string>, i: nat, lists: map<string, seq<string>>, targets: set<string>, prefix: string)
    requires i < |keys| && forall j :: 0 <= j < |keys| ==> keys[j] in lists
    ensures RefErrors(keys[..i + 1], lists, targets, prefix) == RefErrors(keys[..i], lists, targets, prefix) + Dangling(keys[i], lists[keys[i]], targets, prefix)
  {
    assert keys[..i + 1][..i] == keys[..i];
  }

  /** One more individual for the FAMC pass: its errors and warnings come last. */
  lemma FamcStep(keys: seq<string>, i: nat, famcs: map<string, seq<string>>, kids: map<string, seq<string>>, targets: set<string>)
    requires i < |keys| && forall j :: 0 <= j < |keys| ==> keys[j] in famcs
    ensures RefErrors(keys[..i + 1], famcs, targets, FamcMissing) == RefErrors(keys[..i], famcs, targets, FamcMissing) + Dangling(keys[i], famcs[keys[i]], targets, FamcMissing)
    ensures FamcWarnings(keys[..i + 1], famcs, kids) == FamcWarnings(keys[..i], famcs, kids) + Unlisted(keys[i], famcs[keys[i]], kids)
  {
    assert keys[..i + 1][..i] == keys[..i];
  }

  /** The errors of the first loop of `_validate_links`: FAMC references to missing families. */
  function FamcErrors(inds: OMap<RecordValue>, fams: OMap<RecordValue>): seq<Issue>
    requires inds.Listed()
  {
    RefErrors(inds.keys, RefLists(inds.m, "FAMC"), fams.m.Keys, FamcMissing)
  }

  /** The errors of the second loop of `_validate_links`: FAMS references to missing families. */
  function FamsErrors(inds: OMap<RecordValue>, fams: OMap<RecordValue>): seq<Issue>
    requires inds.Listed()
  {
    RefErrors(inds.keys, RefLists(inds.m, "FAMS"), fams.m.Keys, FamsMissing)
  }

  /** The errors of the third loop of `_validate_links`: spouses and children of families that are missing. */
  function MemberErrors(inds: OMap<RecordValue>, fams: OMap<RecordValue>): seq<Issue>
    requires fams.Listed()
  {
    FamiliesErrors(fams.keys, RefLists(fams.m, "HUSB"), RefLists(fams.m, "WIFE"), RefLists(fams.m, "CHIL"), inds.m.Keys)
  }

  /** `_validate_links`' errors: those of its three loops, in order. */
  function LinkErrors(inds: OMap<RecordValue>, fams: OMap<RecordValue>): seq<Issue>
    requires inds.Listed() && fams.Listed()
  {
    FamcErrors(inds, fams) + FamsErrors(inds, fams) + MemberErrors(inds, fams)
  }

  /** `_validate_links`' warnings, all from its first loop: FAMC references to families that do not list the person. */
  function LinkWarnings(inds: OMap<RecordValue>, fams: OMap<RecordValue>): seq<Issue>
    requires inds.Listed()
  {
    FamcWarnings(inds.keys, RefLists(inds.m, "FAMC"), RefLists(fams.m, "CHIL"))
  }

  /** A DATE line with a value that the date pattern does not accept. */
  predicate OddDate(l: Line)
  {
    l.tag == "DATE" && l.value != "" && !GedcomDateFormat.Conforms(l.value)
  }

  function DateWarning(key: string, l: Line): Issue
  {
    Issue("warning", Some(key), "Non-standard date format: " + l.value)
  }

  /** One warning, filed under the record's key, for each odd DATE line of the record, in order. */
  function DateIssues(key: string, ls: seq<Line>): seq<Issue>
    decreases |ls|
  {
    if ls == [] then []
    else
      var l := ls[|ls| - 1];
      DateIssues(key, ls[..|ls| - 1]) + (if OddDate(l) then [DateWarning(key, l)] else [])
  }

  /** The date warnings of every record listed in `keys`, in order. */
  function RecordDateWarnings(keys: seq<string>, m: map<string, RecordValue>): seq<Issue>
    requires forall i :: 0 <= i < |keys| ==> keys[i] in m
    decreases |keys|
  {
    if keys == [] then []
    else
      var k := keys[|keys| - 1];
      RecordDateWarnings(keys[..|keys| - 1], m) + DateIssues(k, m[k].lines)
  }

  /** `_validate_dates`: the warnings of every record of the store, in key order. */
  function DateWarnings(recs: OMap<RecordValue>): seq<Issue>
    requires recs.Listed()
  {
    RecordDateWarnings(recs.keys, recs.m)
  }

  /** A warning is raised for a line exactly when it is an odd DATE line. */
  lemma {:induction false} DateIssuesMembers(key: string, ls: seq<Line>, w: Issue)
    ensures w in DateIssues(key, ls) <==> exists i :: 0 <= i < |ls| && OddDate(ls[i]) && w == DateWarning(key, ls[i])
    decreases |ls|
  {
    if ls != [] {
      var init := ls[..|ls| - 1];
      DateIssuesMembers(key, init, w);
      assert forall i :: 0 <= i < |init| ==> init[i] == ls[i];
    }
  }

  /**
   * A record holding one DATE line below its level-0 line draws a warning exactly when the
   * pattern rejects the value: with `GedcomDateFormat.AboutYearConforms` and
   * `GedcomDateFormat.FreeTextRejected`, `ABT 1895` passes and `sometime last spring` is warned.
   */
  lemma OneDateLine(key: string, v: string)
    ensures DateIssues(key, [Line(0, Some(key), "INDI", ""), Line(2, None, "DATE", v)])
         == if v != "" && !GedcomDateFormat.Conforms(v) then [Issue("warning", Some(key), "Non-standard date format: " + v)] else []
  {
    var ls := [Line(0, Some(key), "INDI", ""), Line(2, None, "DATE", v)];
    assert ls[..1] == [ls[0]] && ls[..1][..0] == [];
    assert DateIssues(key, ls[..1]) == [];
  }

  /** The inner loop over one record's references: an error for each that names nothing. */
  method DanglingLoop(owner: string, refs: seq<string>, targets: set<string>, prefix: string) returns (found: seq<Issue>)
    ensures found == Dangling(owner, refs, targets, prefix)
  {
    found := [];
    var j := 0;
    while j < |refs|
      invariant 0 <= j <= |refs|
      invariant found == Dangling(owner, refs[..j], targets, prefix)
    {
      var ref := refs[j];
      assert refs[..j + 1][..j] == refs[..j];
      if ref !in targets {
        found := found + [Issue("error", Some(owner), prefix + ref)];
      }
      j := j + 1;
    }
    assert refs[..j] == refs;
  }

  /** The inner loop of the FAMC pass: an error for each family that does not exist, a warning for each that does not list the person. */
  method FamcLoop(owner: string, refs: seq<string>, fams: OMap<RecordValue>) returns (errs: seq<Issue>, warns: seq<Issue>)
    ensures errs == Dangling(owner, refs, fams.m.Keys, FamcMissing)
    ensures warns == Unlisted(owner, refs, RefLists(fams.m, "CHIL"))
  {
    ghost var kids := RefLists(fams.m, "CHIL");
    errs, warns := [], [];
    var j := 0;
    while j < |refs|
      invariant 0 <= j <= |refs|
      invariant errs == Dangling(owner, refs[..j], fams.m.Keys, FamcMissing)
      invariant warns == Unlisted(owner, refs[..j], kids)
    {
      var ref := refs[j];
      assert refs[..j + 1][..j] == refs[..j];
      if ref !in fams.m {
        errs := errs + [Issue("error", Some(owner), FamcMissing + ref)];
      } else {
        var children := Refs(fams.m[ref], "CHIL");
        if owner !in children {
          warns := warns + [UnlistedChild(owner, ref)];
        }
      }
      j := j + 1;
    }
    assert refs[..j] == refs;
  }

  /** The inner loop of `_validate_dates` over one record's lines. */
  method DateLoop(key: string, ls: seq<Line>) returns (found: seq<Issue>)
    ensures found == DateIssues(key, ls)
  {
    found := [];
    var j := 0;
    while j < |ls|
      invariant 0 <= j <= |ls|
      invariant found == DateIssues(key, ls[..j])
    {
      var l := ls[j];
      assert ls[..j + 1][..j] == ls[..j];
      if OddDate(l) {
        found := found + [DateWarning(key, l)];
      }
      j := j + 1;
    }
    assert ls[..j] == ls;
  }

  /** `_validate_ids`, over the records of a store in key order: the errors it appends. */
  method ValidateIds(records: OMap<RecordValue>) returns (found: seq<Issue>)
    requires records.Valid()
    ensures found == IdErrors(records.Values())
  {
    ghost var rs := records.Values();
    found := [];
    var seen: set<string> := {};
    for i := 0 to |records.keys|
      invariant found == IdErrors(rs[..i]) && seen == IdsOf(rs[..i])
    {
      var r := records.m[records.keys[i]];
      IdStep(rs, i);
      if r.id.Some? && r.id.value != "" {
        if r.id.value in seen {
          found := found + [Issue("error", r.id, "Duplicate ID: " + r.id.value)];
        } else {
          assert found + [] == found;
        }
        seen := seen + {r.id.value};
      } else {
        assert found + [] == found && seen + {} == seen;
      }
    }
    assert rs[..|records.keys|] == rs;
  }

  /** The first loop of `_validate_links`, over the individuals' FAMC references: the errors and warnings it appends. */
  method FamcPass(individuals: OMap<RecordValue>, families: OMap<RecordValue>) returns (errs: seq<Issue>, warns: seq<Issue>)
    requires individuals.Listed()
    ensures errs == FamcErrors(individuals, families)
    ensures warns == LinkWarnings(individuals, families)
  {
    var inds := individuals.keys;
    ghost var famcs := RefLists(individuals.m, "FAMC");
    ghost var kids := RefLists(families.m, "CHIL");
    errs, warns := [], [];
    for i := 0 to |inds|
      invariant errs == RefErrors(inds[..i], famcs, families.m.Keys, FamcMissing)
      invariant warns == FamcWarnings(inds[..i], famcs, kids)
    {
      var key := inds[i];
      FamcStep(inds, i, famcs, kids, families.m.Keys);
      var refs := Refs(individuals.m[key], "FAMC");
      var e, w := FamcLoop(key, refs, families);
      errs := errs + e;
      warns := warns + w;
    }
    assert inds[..|inds|] == inds;
  }

  /** The second loop of `_validate_links`, over the individuals' FAMS references: the errors it appends. */
  method FamsPass(individuals: OMap<RecordValue>, families: OMap<RecordValue>) returns (errs: seq<Issue>)
    requires individuals.Listed()
    ensures errs == FamsErrors(individuals, families)
  {
    var inds := individuals.keys;
    ghost var famss := RefLists(individuals.m, "FAMS");
    errs := [];
    for i := 0 to |inds|
      invariant errs == RefErrors(inds[..i], famss, families.m.Keys, FamsMissing)
    {
      var key := inds[i];
      RefErrorsStep(inds, i, famss, families.m.Keys, FamsMissing);
      var e := DanglingLoop(key, Refs(individuals.m[key], "FAMS"), families.m.Keys, FamsMissing);
      errs := errs + e;
    }
    assert inds[..|inds|] == inds;
  }

  lemma FamiliesErrorsStep(keys: seq<string>, i: nat, husbs: map<string, seq<string>>, wives: map<string, seq<string>>, kids: map<string, seq<string>>, inds: set<string>)
    requires forall j :: 0 <= j < |keys| ==> keys[j] in husbs && keys[j] in wives && keys[j] in kids
    requires i < |keys|
    ensures var k := keys[i];
      FamiliesErrors(keys[..i + 1], husbs, wives, kids, inds)
      == FamiliesErrors(keys[..i], husbs, wives, kids, inds) + (Dangling(k, husbs[k] + wives[k], inds, SpouseMissing) + Dangling(k, kids[k], inds, ChildMissing))
  {
    assert keys[..i + 1][..i] == keys[..i];
  }

  /** The third loop of `_validate_links`, over the families' HUSB, WIFE and CHIL references: the errors it appends. */
  method FamilyPass(individuals: OMap<RecordValue>, families: OMap<RecordValue>) returns (errs: seq<Issue>)
    requires families.Listed()
    ensures errs == MemberErrors(individuals, families)
  {
    var fks, inds := families.keys, individuals.m.Keys;
    ghost var husbs, wives, kids := RefLists(families.m, "HUSB"), RefLists(families.m, "WIFE"), RefLists(families.m, "CHIL");
    errs := [];
    for i := 0 to |fks|
      invariant errs == FamiliesErrors(fks[..i], husbs, wives, kids, inds)
    {
      var key := fks[i];
      FamiliesErrorsStep(fks, i, husbs, wives, kids, inds);
      var fam := families.m[key];
      assert husbs[key] == Refs(fam, "HUSB") && wives[key] == Refs(fam, "WIFE") && kids[key] == Refs(fam, "CHIL");
      var spouseErrs := DanglingLoop(key, Refs(fam, "HUSB") + Refs(fam, "WIFE"), inds, SpouseMissing);
      var childErrs := DanglingLoop(key, Refs(fam, "CHIL"), inds, ChildMissing);
      errs := errs + (spouseErrs + childErrs);
    }
    assert fks[..|fks|] == fks;
  }

  /** `_validate_links`: its three loops in order; the errors and the warnings it appends. */
  method ValidateLinks(individuals: OMap<RecordValue>, families: OMap<RecordValue>) returns (errs: seq<Issue>, warns: seq<Issue>)
    requires individuals.Listed() && families.Listed()
    ensures errs == LinkErrors(individuals, families)
    ensures warns == LinkWarnings(individuals, families)
  {
    var famcErrs, famcWarns := FamcPass(individuals, families);
    var famsErrs := FamsPass(individuals, families);
    var memberErrs := FamilyPass(individuals, families);
    errs, warns := famcErrs + famsErrs + memberErrs, famcWarns;
  }

  /** `_validate_dates`: one warning for each odd DATE line, record by record in key order. */
  method ValidateDates(records: OMap<RecordValue>) returns (found: seq<Issue>)
    requires records.Listed()
    ensures found == DateWarnings(records)
  {
    var keys := records.keys;
    found := [];
    var i := 0;
    while i < |keys|
      invariant 0 <= i <= |keys|
      invariant found == RecordDateWarnings(keys[..i], records.m)
    {
      var key := keys[i];
      assert keys[..i + 1][..i] == keys[..i];
      var lineIssues := DateLoop(key, records.m[key].lines);
      found := found + lineIssues;
      i := i + 1;
    }
    assert keys[..i] == keys;
  }

  // ---------------------------------------------------------------------------------------
  // Adding records, searching and name variants
  // ---------------------------------------------------------------------------------------

  /** The identifier `add_person` files a person under: their own when set, else the next individual identifier. */
  function PersonId(own: Option<string>, next: nat): (id: string)
    ensures |id| > 0
  {
    if Models.StrTruthy(own) then own.value else IdText('I', next)
  }

  /** The exception `to_gedcom` raises on a date it cannot write. */
  const DateError := "IndexError"

  /** The name test of `find_person_by_name`: each part asked for occurs, ignoring case, in the NAME value. */
  predicate NameMatches(name: string, given: Option<string>, surname: Option<string>)
  {
    (given.None? || Contains(Lower(name), Lower(given.value)))
    && (surname.None? || Contains(Lower(name), Lower(surname.value)))
  }

  predicate AnyNameMatches(names: seq<string>, given: Option<string>, surname: Option<string>)
  {
    exists i :: 0 <= i < |names| && NameMatches(names[i], given, surname)
  }

  /** The NAME values of a record, as `get_all_values("NAME")` reads them. */
  function Names(r: RecordValue): seq<string>
  {
    AllValues(r.lines, "NAME", None)
  }

  /** Reference definition of `find_person_by_name`: the keys, in order, whose record has a matching NAME value. */
  function Matching(keys: seq<string>, m: map<string, RecordValue>, given: Option<string>, surname: Option<string>): seq<string>
    requires forall i :: 0 <= i < |keys| ==> keys[i] in m
    decreases |keys|
  {
    if keys == [] then []
    else
      var k := keys[|keys| - 1];
      Matching(keys[..|keys| - 1], m, given, surname) + (if AnyNameMatches(Names(m[k]), given, surname) then [k] else [])
  }

  /** A key is found exactly when it is listed and one of its record's names matches; each is found at most once when the keys are distinct. */
  lemma {:induction false} MatchingMembers(keys: seq<string>, m: map<string, RecordValue>, given: Option<string>, surname: Option<string>)
    requires forall i :: 0 <= i < |keys| ==> keys[i] in m
    ensures forall k :: k in Matching(keys, m, given, surname) <==> k in keys && AnyNameMatches(Names(m[k]), given, surname)
    ensures (forall i, j :: 0 <= i < j < |keys| ==> keys[i] != keys[j]) ==> Distinct(Matching(keys, m, given, surname))
    decreases |keys|
  {
    if keys != [] {
      var init := keys[..|keys| - 1];
      MatchingMembers(init, m, given, surname);
      assert keys == init + [keys[|keys| - 1]];
    }
  }

  lemma MatchingStep(keys: seq<string>, m: map<string, RecordValue>, given: Option<string>, surname: Option<string>, i: nat)
    requires forall j :: 0 <= j < |keys| ==> keys[j] in m
    requires i < |keys|
    ensures Matching(keys[..i + 1], m, given, surname)
      == Matching(keys[..i], m, given, surname) + (if AnyNameMatches(Names(m[keys[i]]), given, surname) then [keys[i]] else [])
  {
    assert keys[..i + 1][..i] == keys[..i];
  }

  /** The inner loop of `find_person_by_name`: the names in order, stopping at the first that matches. */
  method AnyMatch(names: seq<string>, given: Option<string>, surname: Option<string>) returns (hit: bool)
    ensures hit == AnyNameMatches(names, given, surname)
  {
    hit := false;
    var j := 0;
    while j < |names| && !hit
      invariant 0 <= j <= |names|
      invariant hit ==> AnyNameMatches(names, given, surname)
      invariant !hit ==> forall n :: 0 <= n < j ==> !NameMatches(names[n], given, surname)
    {
      if NameMatches(names[j], given, surname) {
        hit := true;
      }
      j := j + 1;
    }
  }

  /** `find_person_by_name` over the individuals' values: the keys whose record has a matching name, in order. */
  method FindByName(individuals: OMap<RecordValue>, given: Option<string>, surname: Option<string>) returns (results: seq<string>)
    requires individuals.Listed()
    ensures results == Matching(individuals.keys, individuals.m, given, surname)
  {
    var keys, m := individuals.keys, individuals.m;
    results := [];
    for i := 0 to |keys|
      invariant results == Matching(keys[..i], m, given, surname)
    {
      var key := keys[i];
      MatchingStep(keys, m, given, surname, i);
      var hit := AnyMatch(Names(m[key]), given, surname);
      if hit {
        results := results + [key];
      } else {
        assert results + [] == results;
      }
    }
    assert keys[..|keys|] == keys;
  }

  /** The substitution pairs of `generate_name_variants`. */
  const Substitutions: seq<(string, string)> := [
    ("ck", "k"), ("ck", "c"), ("x", "cks"), ("x", "ks"), ("ae", "a"), ("oe", "o"), ("ue", "u"),
    ("y", "ij"), ("ij", "y"), ("dt", "t"), ("dt", "d"), ("sch", "sh")]

  /** The letters whose doubling `generate_name_variants` tries. */
  const Doubled := "bcdfglmnprst"

  /** What one letter adds: a doubled letter made single, or a single letter doubled once when it never occurs doubled. */
  function DoubleStep(vs: seq<string>, base: string, c: char): seq<string>
  {
    var withSingle := if Contains(base, [c, c]) then AddVariant(vs, ReplaceAll(base, [c, c], [c])) else vs;
    if Contains(base, [c]) && !Contains(base, [c, c]) then AddVariant(withSingle, ReplaceFirst(base, [c], [c, c])) else withSingle
  }

  predicate DoubleProduces(v: string, base: string, c: char)
  {
    (Contains(base, [c, c]) && v == ReplaceAll(base, [c, c], [c]))
    || (Contains(base, [c]) && !Contains(base, [c, c]) && v == ReplaceFirst(base, [c], [c, c]))
  }

  /** The double-letter loop over `cs`, one letter after another. */
  function ApplyDoubles(vs: seq<string>, base: string, cs: string): seq<string>
    decreases |cs|
  {
    if cs == [] then vs else DoubleStep(ApplyDoubles(vs, base, cs[..|cs| - 1]), base, cs[|cs| - 1])
  }

  /** Reference definition: `v` is what some letter of `cs` produces from `base`. */
  predicate DoubleVariant(v: string, base: string, cs: string)
  {
    exists i :: 0 <= i < |cs| && DoubleProduces(v, base, cs[i])
  }

  /** The double-letter loop keeps the set free of repetitions and adds exactly what the letters produce. */
  lemma {:induction false} ApplyDoublesMembers(vs: seq<string>, base: string, cs: string)
    ensures Distinct(vs) ==> Distinct(ApplyDoubles(vs, base, cs))
    ensures forall x :: x in ApplyDoubles(vs, base, cs) <==> x in vs || DoubleVariant(x, base, cs)
    decreases |cs|
  {
    if cs != [] {
      var init := cs[..|cs| - 1];
      ApplyDoublesMembers(vs, base, init);
      forall x ensures DoubleVariant(x, base, cs) <==> DoubleVariant(x, base, init) || DoubleProduces(x, base, cs[|cs| - 1]) {
        if DoubleVariant(x, base, cs) {
          var i :| 0 <= i < |cs| && DoubleProduces(x, base, cs[i]);
          if i < |cs| - 1 {
            assert init[i] == cs[i];
          }
        }
        if DoubleVariant(x, base, init) {
          var i :| 0 <= i < |init| && DoubleProduces(x, base, init[i]);
          assert cs[i] == init[i];
        }
      }
    }
  }

  /** The variants before title-casing: the surname as given, then what the pairs and the letters produce from its lower-cased form. */
  function Variants(surname: string): seq<string>
  {
    GrownVariants(surname, Substitutions, Doubled)
  }

  function GrownVariants(surname: string, pairs: seq<(string, string)>, cs: string): seq<string>
    requires NonEmptyPairs(pairs)
  {
    var base := Lower(surname);
    ApplyDoubles(ApplyPairs([surname], base, pairs), base, cs)
  }

  /** A variant of `surname`: itself, or something a pair or a letter produces from its lower-cased form. */
  predicate IsVariant(v: string, surname: string)
  {
    GrownFrom(v, surname, Substitutions, Doubled)
  }

  predicate GrownFrom(v: string, surname: string, pairs: seq<(string, string)>, cs: string)
    requires NonEmptyPairs(pairs)
  {
    v == surname || PairVariant(v, Lower(surname), pairs) || DoubleVariant(v, Lower(surname), cs)
  }

  /** The grown variants are free of repetitions and are exactly the strings grown from the surname. */
  lemma GrownVariantsMembers(surname: string, pairs: seq<(string, string)>, cs: string)
    requires NonEmptyPairs(pairs)
    ensures Distinct(GrownVariants(surname, pairs, cs))
    ensures forall v :: v in GrownVariants(surname, pairs, cs) <==> GrownFrom(v, surname, pairs, cs)
  {
    var base := Lower(surname);
    ApplyPairsMembers([surname], base, pairs);
    ApplyDoublesMembers(ApplyPairs([surname], base, pairs), base, cs);
  }

  /** Growing by any pairs and letters, then sorting the title-cased forms, gives exactly the title-cased grown strings, in order. */
  lemma GrownTitlesShape(surname: string, pairs: seq<(string, string)>, cs: string)
    requires NonEmptyPairs(pairs)
    ensures Sorted(SortedTitles(GrownVariants(surname, pairs, cs)), LessEq)
    ensures forall v :: GrownFrom(v, surname, pairs, cs) ==> Title(v) in SortedTitles(GrownVariants(surname, pairs, cs))
    ensures forall x :: x in SortedTitles(GrownVariants(surname, pairs, cs)) ==> exists v :: GrownFrom(v, surname, pairs, cs) && x == Title(v)
    ensures Title(surname) in SortedTitles(GrownVariants(surname, pairs, cs))
  {
    var vs := GrownVariants(surname, pairs, cs);
    GrownVariantsMembers(surname, pairs, cs);
    SortedTitlesShape(vs);
    forall x | x in SortedTitles(vs) ensures exists v :: GrownFrom(v, surname, pairs, cs) && x == Title(v) {
      assert x in multiset(Titles(vs));
      var i :| 0 <= i < |vs| && Titles(vs)[i] == x;
      assert GrownFrom(vs[i], surname, pairs, cs);
    }
  }

  /** `generate_name_variants`: sorted, and exactly the title-cased variants, the surname's own among them. */
  lemma NameVariantsShape(surname: string)
    ensures Sorted(SortedTitles(Variants(surname)), LessEq)
    ensures forall v :: IsVariant(v, surname) ==> Title(v) in SortedTitles(Variants(surname))
    ensures forall x :: x in SortedTitles(Variants(surname)) ==> exists v :: IsVariant(v, surname) && x == Title(v)
    ensures Title(surname) in SortedTitles(Variants(surname))
  {
    SubstitutionsNonEmpty();
    GrownTitlesShape(surname, Substitutions, Doubled);
  }

  lemma SubstitutionsNonEmpty()
    ensures NonEmptyPairs(Substitutions)
  {
  }

  // ---------------------------------------------------------------------------------------
  // Writing out
  // ---------------------------------------------------------------------------------------

  /** The records `save` writes between header and trailer: in key order, those whose value differs from both (a missing one differs from every record). */
  function Kept(keys: seq<string>, m: map<string, RecordValue>, header: Option<RecordValue>, trailer: Option<RecordValue>): seq<RecordValue>
    requires forall i :: 0 <= i < |keys| ==> keys[i] in m
    decreases |keys|
  {
    if keys == [] then []
    else
      var r := m[keys[|keys| - 1]];
      Kept(keys[..|keys| - 1], m, header, trailer) + (if Some(r) != header && Some(r) != trailer then [r] else [])
  }

  /** A record is written in the body exactly when it is stored and equals neither the header nor the trailer. */
  lemma {:induction false} KeptMembers(keys: seq<string>, m: map<string, RecordValue>, header: Option<RecordValue>, trailer: Option<RecordValue>, r: RecordValue)
    requires forall i :: 0 <= i < |keys| ==> keys[i] in m
    ensures r in Kept(keys, m, header, trailer)
      <==> (exists i :: 0 <= i < |keys| && m[keys[i]] == r) && Some(r) != header && Some(r) != trailer
    decreases |keys|
  {
    if keys != [] {
      var init := keys[..|keys| - 1];
      KeptMembers(init, m, header, trailer, r);
      if exists i :: 0 <= i < |keys| && m[keys[i]] == r {
        var i :| 0 <= i < |keys| && m[keys[i]] == r;
        if i < |init| {
          assert init[i] == keys[i];
        }
      }
      if exists i :: 0 <= i < |init| && m[init[i]] == r {
        var i :| 0 <= i < |init| && m[init[i]] == r;
        assert keys[i] == init[i];
      }
    }
  }

  /** The output lines of a sequence of records, one record after another. */
  function Texts(rs: seq<RecordValue>): seq<string>
    decreases |rs|
  {
    if rs == [] then [] else Texts(rs[..|rs| - 1]) + RecordText(rs[|rs| - 1].lines)
  }

  /** What `save` writes: the header's lines, the other records, and a closing `0 TRLR`, one output line per GEDCOM line. */
  function SaveText(header: Option<RecordValue>, trailer: Option<RecordValue>, store: OMap<RecordValue>): seq<string>
    requires store.Listed()
  {
    (if header.Some? then RecordText(header.value.lines) else [])
    + Texts(Kept(store.keys, store.m, header, trailer))
    + ["0 TRLR"]
  }

  /** The file opens with the header, closes with exactly one trailer line, and holds as many lines as the records it writes. */
  lemma {:induction false} SaveTextShape(header: Option<RecordValue>, trailer: Option<RecordValue>, store: OMap<RecordValue>)
    requires store.Listed()
    ensures var out := SaveText(header, trailer, store);
      && out[|out| - 1] == "0 TRLR"
      && (header.Some? ==> out[..|header.value.lines|] == RecordText(header.value.lines))
      && |out| == (if header.Some? then |header.value.lines| else 0) + LineCount(Kept(store.keys, store.m, header, trailer)) + 1
  {
    TextsCount(Kept(store.keys, store.m, header, trailer));
  }

  function LineCount(rs: seq<RecordValue>): nat
    decreases |rs|
  {
    if rs == [] then 0 else LineCount(rs[..|rs| - 1]) + |rs[|rs| - 1].lines|
  }

  lemma {:induction false} TextsCount(rs: seq<RecordValue>)
    ensures |Texts(rs)| == LineCount(rs)
    decreases |rs|
  {
    if rs != [] {
      TextsCount(rs[..|rs| - 1]);
    }
  }

  /** `_write_record`: one output line per GEDCOM line, in order. */
  method WriteRecord(ls: seq<Line>) returns (out: seq<string>)
    ensures out == RecordText(ls)
  {
    out := [];
    var i := 0;
    while i < |ls|
      invariant 0 <= i <= |ls|
      invariant out == RecordText(ls[..i])
    {
      out := out + [ToString(ls[i])];
      i := i + 1;
    }
    assert ls[..i] == ls;
  }

  /** One more key adds its record to the body unless it equals the header or the trailer. */
  lemma KeptStep(keys: seq<string>, m: map<string, RecordValue>, header: Option<RecordValue>, trailer: Option<RecordValue>, i: nat)
    requires forall j :: 0 <= j < |keys| ==> keys[j] in m
    requires i < |keys|
    ensures var r := m[keys[i]];
      Kept(keys[..i + 1], m, header, trailer) == Kept(keys[..i], m, header, trailer) + (if Some(r) != header && Some(r) != trailer then [r] else [])
  {
    assert keys[..i + 1][..i] == keys[..i];
  }

  lemma TextsSnoc(rs: seq<RecordValue>, r: RecordValue)
    ensures Texts(rs + [r]) == Texts(rs) + RecordText(r.lines)
  {
    assert (rs + [r])[..|rs|] == rs;
  }

  /** The text of the kept records grows by the next record's text, or not at all when it is skipped. */
  lemma TextsStep(keys: seq<string>, m: map<string, RecordValue>, header: Option<RecordValue>, trailer: Option<RecordValue>, i: nat)
    requires forall j :: 0 <= j < |keys| ==> keys[j] in m
    requires i < |keys|
    ensures var r := m[keys[i]];
      Texts(Kept(keys[..i + 1], m, header, trailer)) == Texts(Kept(keys[..i], m, header, trailer)) + (if Some(r) != header && Some(r) != trailer then RecordText(r.lines) else [])
  {
    var r := m[keys[i]];
    var kept := Kept(keys[..i], m, header, trailer);
    KeptStep(keys, m, header, trailer, i);
    if Some(r) != header && Some(r) != trailer {
      TextsSnoc(kept, r);
    } else {
      assert kept + [] == kept;
    }
  }

  /** The loop of `save` over the stored records, skipping those equal to the header or the trailer. */
  method WriteRecords(store: OMap<RecordValue>, header: Option<RecordValue>, trailer: Option<RecordValue>) returns (out: seq<string>)
    requires store.Listed()
    ensures out == Texts(Kept(store.keys, store.m, header, trailer))
  {
    var keys, m := store.keys, store.m;
    out := [];
    for i := 0 to |keys|
      invariant out == Texts(Kept(keys[..i], m, header, trailer))
    {
      var r := m[keys[i]];
      TextsStep(keys, m, header, trailer, i);
      if Some(r) != header && Some(r) != trailer {
        var text := WriteRecord(r.lines);
        out := out + text;
      } else {
        assert out + [] == out;
      }
    }
    assert keys[..|keys|] == keys;
  }

  /** The double-letter loop of `generate_name_variants`, one letter after another. */
  method GrowByDoubles(vs: seq<string>, base: string, cs: string) returns (r: seq<string>)
    ensures r == ApplyDoubles(vs, base, cs)
  {
    r := vs;
    var i := 0;
    while i < |cs|
      invariant 0 <= i <= |cs|
      invariant r == ApplyDoubles(vs, base, cs[..i])
    {
      var c := cs[i];
      assert cs[..i + 1][..i] == cs[..i];
      if Contains(base, [c, c]) {
        r := AddVariant(r, ReplaceAll(base, [c, c], [c]));
      }
      if Contains(base, [c]) && !Contains(base, [c, c]) {
        r := AddVariant(r, ReplaceFirst(base, [c], [c, c]));
      }
      i := i + 1;
    }
    assert cs[..i] == cs;
  }

  /** The lines of every record of an index, by key. */
  function LinesOf(om: OMap<Record>): (ls: map<string, seq<Line>>)
    reads om.m.Values
    ensures ls.Keys == om.m.Keys
  {
    map k | k in om.m :: om.m[k].lines
  }

  /** The lines of an index whose records are untouched are what they were. */
  twostate lemma LinesKept(om: OMap<Record>)
    requires unchanged(om.m.Values)
    ensures LinesOf(om) == old(LinesOf(om))
  {
  }

  /** One line appended to the lines filed under `k`, when `k` is filed; nothing else changes. */
  function AppendLine(m: map<string, seq<Line>>, k: string, l: Line): map<string, seq<Line>>
  {
    if k in m then m[k := m[k] + [l]] else m
  }

  /** The FAMS links of `add_family`: the husband's, then the wife's. */
  function PartnerLinked(m: map<string, seq<Line>>, husb: Option<string>, wife: Option<string>, fam: string): map<string, seq<Line>>
  {
    var afterHusb := if Models.StrTruthy(husb) then AppendLine(m, husb.value, Sub(1, "FAMS", fam)) else m;
    if Models.StrTruthy(wife) then AppendLine(afterHusb, wife.value, Sub(1, "FAMS", fam)) else afterHusb
  }

  /** The FAMC links of `add_family`'s child loop, child after child. */
  function ChildLinked(m: map<string, seq<Line>>, kids: seq<string>, fam: string): map<string, seq<Line>>
    decreases |kids|
  {
    if kids == [] then m else AppendLine(ChildLinked(m, kids[..|kids| - 1], fam), kids[|kids| - 1], Sub(1, "FAMC", fam))
  }

  /** Linking adds no key, and each filed record gains one FAMS line per partner slot naming it. */
  lemma PartnerLinkedAt(m: map<string, seq<Line>>, husb: Option<string>, wife: Option<string>, fam: string)
    ensures PartnerLinked(m, husb, wife, fam).Keys == m.Keys
    ensures forall k :: k in m ==> PartnerLinked(m, husb, wife, fam)[k] == m[k] + SpouseLinks(k, husb, wife, fam)
  {
  }

  /** Linking adds no key, and each filed record gains one FAMC line per time it is listed as a child. */
  lemma {:induction false} ChildLinkedAt(m: map<string, seq<Line>>, kids: seq<string>, fam: string)
    ensures ChildLinked(m, kids, fam).Keys == m.Keys
    ensures forall k :: k in m ==> ChildLinked(m, kids, fam)[k] == m[k] + ChildLinks(k, kids, fam)
    decreases |kids|
  {
    if kids != [] {
      ChildLinkedAt(m, kids[..|kids| - 1], fam);
    }
  }

  /** After `add_family`, every filed individual carries its old lines, then its FAMS links, then one FAMC link per time it is listed as a child. */
  lemma FamilyLinkedAt(m: map<string, seq<Line>>, husb: Option<string>, wife: Option<string>, kids: seq<string>, fam: string)
    ensures ChildLinked(PartnerLinked(m, husb, wife, fam), kids, fam).Keys == m.Keys
    ensures forall k :: k in m ==>
      ChildLinked(PartnerLinked(m, husb, wife, fam), kids, fam)[k] == m[k] + SpouseLinks(k, husb, wife, fam) + ChildLinks(k, kids, fam)
  {
    PartnerLinkedAt(m, husb, wife, fam);
    ChildLinkedAt(PartnerLinked(m, husb, wife, fam), kids, fam);
  }

  /** The counts `get_statistics` reports. */
  datatype Statistics = Statistics(individuals: nat, families: nat, sources: nat, repositories: nat, totalRecords: nat, errors: nat, warnings: nat)

  /** Every store and index filing each record under its own key. */
  ghost predicate AllKeyed(records: OMap<Record>, individuals: OMap<Record>, families: OMap<Record>, sources: OMap<Record>, repositories: OMap<Record>)
  {
    Keyed(records) && Keyed(individuals) && Keyed(families) && Keyed(sources) && Keyed(repositories)
  }

  /** The values of a store whose records are untouched are what they were. */
  twostate lemma ViewKept(om: OMap<Record>)
    requires unchanged(om.m.Values)
    ensures View(om) == old(View(om))
  {
  }

  /** The value of a held record that is untouched is what it was. */
  twostate lemma HeldKept(o: Option<Record>)
    requires unchanged(Held(o))
    ensures ViewOpt(o) == old(ViewOpt(o))
  {
  }

  /** A new record holding `v` filed under `id` in a store and in one of its typed indexes. */
  method FileInto(store: OMap<Record>, index: OMap<Record>, id: string, v: RecordValue) returns (store': OMap<Record>, index': OMap<Record>, rec: Record)
    requires Keyed(store) && Keyed(index) && KeyOf(v.id, v.tag) == id
    ensures Keyed(store') && Keyed(index') && fresh(rec) && ValueOf(rec) == v
    ensures store' == store.Put(id, rec) && index' == index.Put(id, rec)
  {
    rec := new Record(v.id, v.tag, v.lines);
    PutKeyed(store, id, rec);
    PutKeyed(index, id, rec);
    store', index' := store.Put(id, rec), index.Put(id, rec);
  }

  /** A record built from `ls` filed under `id` as `FileInto` does, or the date error and nothing filed when the lines could not be built. */
  method FileBuilt(store: OMap<Record>, index: OMap<Record>, id: string, tag: string, ls: Option<seq<Line>>) returns (store': OMap<Record>, index': OMap<Record>, r: Result<string>)
    requires Keyed(store) && Keyed(index) && |id| > 0
    ensures Keyed(store') && Keyed(index')
    ensures r.Success? <==> ls.Some?
    ensures r.Failure? ==> r.error == DateError && store' == store && index' == index
    ensures r.Success? ==>
      && r.value == id && id in store'.m && fresh(store'.m[id])
      && ValueOf(store'.m[id]) == RecordValue(Some(id), tag, ls.value)
      && store' == store.Put(id, store'.m[id]) && index' == index.Put(id, store'.m[id])
  {
    if ls.None? {
      return store, index, Failure(DateError);
    }
    var rec;
    store', index', rec := FileInto(store, index, id, RecordValue(Some(id), tag, ls.value));
    r := Success(id);
  }

  /** The three checks of `validate` over the stores' values: the ID errors and link errors, then the link warnings and date warnings. */
  method ValidateStores(recs: OMap<RecordValue>, inds: OMap<RecordValue>, fams: OMap<RecordValue>) returns (errs: seq<Issue>, warns: seq<Issue>)
    requires KeyedValues(recs) && KeyedValues(inds) && KeyedValues(fams)
    ensures errs == IdErrors(recs.Values()) + LinkErrors(inds, fams)
    ensures errs == LinkErrors(inds, fams)
    ensures warns == LinkWarnings(inds, fams) + DateWarnings(recs)
  {
    assert recs.Listed() && inds.Listed() && fams.Listed();
    var idErrs := ValidateIds(recs);
    var linkErrs, linkWarns := ValidateLinks(inds, fams);
    var dateWarns := ValidateDates(recs);
    KeyedIdsDistinct(recs);
    errs, warns := idErrs + linkErrs, linkWarns + dateWarns;
  }

  // ---------------------------------------------------------------------------------------
  // The manager
  // ---------------------------------------------------------------------------------------

  class Manager {
    var records: OMap<Record>
    var header: Option<Record>
    var trailer: Option<Record>
    var individuals: OMap<Record>
    var families: OMap<Record>
    var sources: OMap<Record>
    var repositories: OMap<Record>
    var errors: seq<Issue>
    var warnings: seq<Issue>
    var nextIndi: nat
    var nextFam: nat
    var nextSour: nat
    var nextRepo: nat

    /** Every store and index is a well-formed ordered map filing each record under its own key. */
    ghost predicate Valid()
      reads this`records, this`individuals, this`families, this`sources, this`repositories
    {
      AllKeyed(records, individuals, families, sources, repositories)
    }

    constructor ()
      ensures Valid()
      ensures records == Empty() && individuals == Empty() && families == Empty()
      ensures sources == Empty() && repositories == Empty()
      ensures header.None? && trailer.None? && errors == [] && warnings == []
      ensures nextIndi == 1 && nextFam == 1 && nextSour == 1 && nextRepo == 1
    {
      records := Empty();
      header := None;
      trailer := None;
      individuals := Empty();
      families := Empty();
      sources := Empty();
      repositories := Empty();
      errors := [];
      warnings := [];
      nextIndi := 1;
      nextFam := 1;
      nextSour := 1;
      nextRepo := 1;
    }

    /** The store, header and trailer as values. */
    ghost function LoadedOf(): Loaded
      reads this`records, this`header, this`trailer, records.m.Values, Held(header), Held(trailer)
    {
      Loaded(View(records), ViewOpt(header), ViewOpt(trailer))
    }

    /** `self.records[record.id or record.tag] = record` for a new record holding `v`. */
    method File(v: RecordValue) returns (r: Record)
      requires Valid()
      modifies this`records
      ensures Valid() && fresh(r) && ValueOf(r) == v
      ensures records == old(records).Put(KeyOf(v.id, v.tag), r)
    {
      r := new Record(v.id, v.tag, v.lines);
      PutKeyed(records, KeyOf(v.id, v.tag), r);
      records := records.Put(KeyOf(v.id, v.tag), r);
    }

    /** `header` or `trailer` pointed at a record a HEAD or TRLR line opened. */
    method MarkEnds(r: Record)
      modifies this`header, this`trailer
      ensures ViewOpt(header) == if OpenedBy(ValueOf(r), "HEAD") then Some(ValueOf(r)) else old(ViewOpt(header))
      ensures ViewOpt(trailer) == if !OpenedBy(ValueOf(r), "HEAD") && OpenedBy(ValueOf(r), "TRLR") then Some(ValueOf(r)) else old(ViewOpt(trailer))
      ensures View(records) == old(View(records))
    {
      if OpenedBy(ValueOf(r), "HEAD") {
        header := Some(r);
      } else if OpenedBy(ValueOf(r), "TRLR") {
        trailer := Some(r);
      }
      ViewKept(records);
    }

    /**
     * Filing a completed record: `self.records[record.id or record.tag] = record`, with
     * `header` or `trailer` pointing at the record when a HEAD or TRLR line opened it.
     */
    method FileRecord(v: RecordValue)
      requires Valid()
      modifies this`records, this`header, this`trailer
      ensures Valid()
      ensures LoadedOf() == FileValue(old(LoadedOf()), v)
    {
      ghost var before := LoadedOf();
      ghost var store := records;
      var r := File(v);
      ViewKept(store);
      ViewPut(store, KeyOf(v.id, v.tag), r);
      HeldKept(header);
      HeldKept(trailer);
      MarkEnds(r);
      assert LoadedOf() == Loaded(View(records), ViewOpt(header), ViewOpt(trailer));
    }

    /**
     * `_parse`: the accepted lines of the file assembled into records, each filed under its
     * key in assembly order; `header` and `trailer` end up as the last records opened by a
     * HEAD or TRLR line.
     */
    method ParseFile(text: seq<string>)
      requires Valid()
      modifies this`records, this`header, this`trailer
      ensures Valid()
      ensures View(records) == LoadFile(old(LoadedOf()), text).store
      ensures ViewOpt(header) == LoadFile(old(LoadedOf()), text).header
      ensures ViewOpt(trailer) == LoadFile(old(LoadedOf()), text).trailer
    {
      ghost var start := LoadedOf();
      ghost var final := FileAll(start, Assemble(ParsedLines(text), None));
      ghost var done := start;
      var current: Option<RecordValue> := None;
      var k := 0;
      assert text[k..] == text;
      while k < |text|
        invariant 0 <= k <= |text|
        invariant Valid()
        invariant LoadedOf() == done
        invariant FileAll(done, Assemble(ParsedLines(text[k..]), current)) == final
      {
        var parsed := Parse(text[k]);
        ParsedLinesStep(text, k);
        LineStepAgrees(done, current, parsed, ParsedLines(text[k + 1..]));
        var (filed, next) := LineStep(current, parsed);
        if filed.Some? {
          FileRecord(filed.value);
          done := FileValue(done, filed.value);
        }
        current := next;
        k := k + 1;
      }
      assert text[k..] == [];
      FileLast(current);
      assert LoadedOf() == final;
    }

    /** After the loop of `_parse`: the last record is filed too. */
    method FileLast(current: Option<RecordValue>)
      requires Valid()
      modifies this`records, this`header, this`trailer
      ensures Valid()
      ensures LoadedOf() == FileAll(old(LoadedOf()), Assemble(ParsedLines([]), current))
    {
      ghost var before := LoadedOf();
      if current.Some? {
        assert Assemble(ParsedLines([]), current) == [current.value] + [];
        FileAllCons(before, current.value, []);
        FileRecord(current.value);
      }
    }

    /** `load`: the file's lines parsed into records, then indexed by type, then the identifier counters raised past the identifiers in use. */
    method Load(text: seq<string>)
      requires Valid()
      modifies this`records, this`header, this`trailer, this`individuals, this`families, this`sources, this`repositories
      modifies this`nextIndi, this`nextFam, this`nextSour, this`nextRepo
      ensures Valid()
      ensures View(records) == LoadFile(old(LoadedOf()), text).store
      ensures ViewOpt(header) == LoadFile(old(LoadedOf()), text).header
      ensures ViewOpt(trailer) == LoadFile(old(LoadedOf()), text).trailer
      ensures individuals == IndexInto(old(individuals), records.keys, records.m, "INDI")
      ensures families == IndexInto(old(families), records.keys, records.m, "FAM")
      ensures sources == IndexInto(old(sources), records.keys, records.m, "SOUR")
      ensures repositories == IndexInto(old(repositories), records.keys, records.m, "REPO")
      ensures nextIndi == RaiseCounter(old(nextIndi), individuals.keys, 'I')
      ensures nextFam == RaiseCounter(old(nextFam), families.keys, 'F')
      ensures nextSour == RaiseCounter(old(nextSour), sources.keys, 'S')
      ensures nextRepo == RaiseCounter(old(nextRepo), repositories.keys, 'R')
    {
      ParseFile(text);
      ghost var store, head, trail := View(records), ViewOpt(header), ViewOpt(trailer);
      Reindex();
      assert View(records) == store;
      assert ViewOpt(header) == head && ViewOpt(trailer) == trail;
    }

    /** The two index passes that `load` runs once the records are filed. */
    method Reindex()
      requires Valid()
      modifies this`individuals, this`families, this`sources, this`repositories
      modifies this`nextIndi, this`nextFam, this`nextSour, this`nextRepo
      ensures Valid()
      ensures individuals == IndexInto(old(individuals), records.keys, records.m, "INDI")
      ensures families == IndexInto(old(families), records.keys, records.m, "FAM")
      ensures sources == IndexInto(old(sources), records.keys, records.m, "SOUR")
      ensures repositories == IndexInto(old(repositories), records.keys, records.m, "REPO")
      ensures nextIndi == RaiseCounter(old(nextIndi), individuals.keys, 'I')
      ensures nextFam == RaiseCounter(old(nextFam), families.keys, 'F')
      ensures nextSour == RaiseCounter(old(nextSour), sources.keys, 'S')
      ensures nextRepo == RaiseCounter(old(nextRepo), repositories.keys, 'R')
    {
      BuildIndexes();
      UpdateIdCounters();
    }

    /** `get_next_individual_id` */
    method GetNextIndividualId() returns (id: string)
      modifies this`nextIndi
      ensures id == IdText('I', old(nextIndi)) && nextIndi == old(nextIndi) + 1
    {
      id := IdText('I', nextIndi);
      nextIndi := nextIndi + 1;
    }

    /** `get_next_family_id` */
    method GetNextFamilyId() returns (id: string)
      modifies this`nextFam
      ensures id == IdText('F', old(nextFam)) && nextFam == old(nextFam) + 1
    {
      id := IdText('F', nextFam);
      nextFam := nextFam + 1;
    }

    /** `get_next_source_id` */
    method GetNextSourceId() returns (id: string)
      modifies this`nextSour
      ensures id == IdText('S', old(nextSour)) && nextSour == old(nextSour) + 1
    {
      id := IdText('S', nextSour);
      nextSour := nextSour + 1;
    }

    /** `get_next_repo_id` */
    method GetNextRepoId() returns (id: string)
      modifies this`nextRepo
      ensures id == IdText('R', old(nextRepo)) && nextRepo == old(nextRepo) + 1
    {
      id := IdText('R', nextRepo);
      nextRepo := nextRepo + 1;
    }

    /** `_update_id_counters`: each counter is raised past the numbers of its own index's keys. */
    method UpdateIdCounters()
      modifies this`nextIndi, this`nextFam, this`nextSour, this`nextRepo
      ensures nextIndi == RaiseCounter(old(nextIndi), individuals.keys, 'I')
      ensures nextFam == RaiseCounter(old(nextFam), families.keys, 'F')
      ensures nextSour == RaiseCounter(old(nextSour), sources.keys, 'S')
      ensures nextRepo == RaiseCounter(old(nextRepo), repositories.keys, 'R')
    {
      nextIndi := RaiseLoop(nextIndi, individuals.keys, 'I');
      nextFam := RaiseLoop(nextFam, families.keys, 'F');
      nextSour := RaiseLoop(nextSour, sources.keys, 'S');
      nextRepo := RaiseLoop(nextRepo, repositories.keys, 'R');
    }

    /** `_build_indexes`: one pass over `records` in order, filing INDI, FAM, SOUR and REPO records; the indexes are not cleared first. */
    method BuildIndexes()
      requires Valid()
      modifies this`individuals, this`families, this`sources, this`repositories
      ensures Valid()
      ensures individuals == IndexInto(old(individuals), records.keys, records.m, "INDI")
      ensures families == IndexInto(old(families), records.keys, records.m, "FAM")
      ensures sources == IndexInto(old(sources), records.keys, records.m, "SOUR")
      ensures repositories == IndexInto(old(repositories), records.keys, records.m, "REPO")
    {
      assert forall i :: 0 <= i < |records.keys| ==> records.keys[i] in records.m;
      IndexIntoKeyed(individuals, records.keys, records.m, "INDI");
      IndexIntoKeyed(families, records.keys, records.m, "FAM");
      IndexIntoKeyed(sources, records.keys, records.m, "SOUR");
      IndexIntoKeyed(repositories, records.keys, records.m, "REPO");
      individuals, families, sources, repositories := IndexLoop(records.keys, records.m, individuals, families, sources, repositories);
    }

    /**
     * `validate`: both issue lists rebuilt from scratch, the ID check first, then the links,
     * then the dates, so the result depends on the stores alone (which it leaves as they are);
     * errors come before warnings. On the keyed stores the manager keeps, the ID check never fires.
     */
    method Validate() returns (issues: seq<Issue>)
      requires Valid()
      modifies this`errors, this`warnings
      ensures errors == IdErrors(old(View(records)).Values()) + LinkErrors(old(View(individuals)), old(View(families)))
      ensures errors == LinkErrors(old(View(individuals)), old(View(families)))
      ensures warnings == LinkWarnings(old(View(individuals)), old(View(families))) + DateWarnings(old(View(records)))
      ensures issues == errors + warnings
    {
      KeyedView(records);
      KeyedView(individuals);
      KeyedView(families);
      errors, warnings := ValidateStores(View(records), View(individuals), View(families));
      issues := errors + warnings;
    }
    /** `_add_fams_link`: a FAMS line for `fam` appended in place to the record filed under `indi`, when there is one. */
    method AddFamsLink(indi: string, fam: string)
      requires Keyed(individuals)
      modifies individuals.m.Values
      ensures LinesOf(individuals) == AppendLine(old(LinesOf(individuals)), indi, Sub(1, "FAMS", fam))
    {
      if indi in individuals.m {
        var r := individuals.m[indi];
        r.lines := r.lines + [Sub(1, "FAMS", fam)];
      }
    }

    /** `_add_famc_link`: a FAMC line for `fam` appended in place to the record filed under `indi`, when there is one. */
    method AddFamcLink(indi: string, fam: string)
      requires Keyed(individuals)
      modifies individuals.m.Values
      ensures LinesOf(individuals) == AppendLine(old(LinesOf(individuals)), indi, Sub(1, "FAMC", fam))
    {
      if indi in individuals.m {
        var r := individuals.m[indi];
        r.lines := r.lines + [Sub(1, "FAMC", fam)];
      }
    }

    /**
     * `add_person`: the person's record built and filed under their own identifier or, when
     * they have none, a freshly allocated one (allocated before the lines are built, so it is
     * used up even when writing a date raises); the same record goes into `records` and
     * `individuals`.
     */
    method AddPerson(person: Models.Person) returns (r: Result<string>)
      requires Valid()
      modifies this`records, this`individuals, this`nextIndi
      ensures Valid()
      ensures nextIndi == old(nextIndi) + (if Models.StrTruthy(person.gedcomId) then 0 else 1)
      ensures var id := PersonId(person.gedcomId, old(nextIndi));
        var ls := PersonLines(id, person.PrimaryName(), person.sex, person.birth, person.death);
        && (r.Success? <==> ls.Some?)
        && (r.Failure? ==> r.error == DateError && records == old(records) && individuals == old(individuals))
        && (r.Success? ==>
            && r.value == id && id in records.m && fresh(records.m[id])
            && ValueOf(records.m[id]) == RecordValue(Some(id), "INDI", ls.value)
            && records == old(records).Put(id, records.m[id])
            && individuals == old(individuals).Put(id, records.m[id]))
    {
      var id: string;
      if Models.StrTruthy(person.gedcomId) {
        id := person.gedcomId.value;
      } else {
        id := GetNextIndividualId();
      }
      records, individuals, r := FileBuilt(records, individuals, id, "INDI", PersonLines(id, person.PrimaryName(), person.sex, person.birth, person.death));
    }

    /** The child loop of `add_family`: a CHIL line per child, and a FAMC link on each child's record. */
    method LinkChildren(kids: seq<string>, fam: string) returns (chil: seq<Line>)
      requires Keyed(individuals)
      modifies individuals.m.Values
      ensures chil == ChildLines(kids)
      ensures LinesOf(individuals) == ChildLinked(old(LinesOf(individuals)), kids, fam)
    {
      chil := [];
      var j := 0;
      while j < |kids|
        invariant 0 <= j <= |kids|
        invariant chil == ChildLines(kids[..j])
        invariant LinesOf(individuals) == ChildLinked(old(LinesOf(individuals)), kids[..j], fam)
      {
        assert kids[..j + 1][..j] == kids[..j];
        chil := chil + [Sub(1, "CHIL", kids[j])];
        AddFamcLink(kids[j], fam);
        j := j + 1;
      }
      assert kids[..j] == kids;
    }

    /**
     * The links `add_family` patches in: a FAMS link on the husband's record, then on the
     * wife's, then, when the marriage could be written, the child loop's CHIL lines and FAMC links.
     */
    method LinkMembers(husb: Option<string>, wife: Option<string>, kids: seq<string>, fam: string, married: bool) returns (chil: seq<Line>)
      requires Keyed(individuals)
      modifies individuals.m.Values
      ensures chil == ChildLines(kids)
      ensures LinesOf(individuals) == (var linked := PartnerLinked(old(LinesOf(individuals)), husb, wife, fam);
                                       if married then ChildLinked(linked, kids, fam) else linked)
    {
      if Models.StrTruthy(husb) {
        AddFamsLink(husb.value, fam);
      }
      if Models.StrTruthy(wife) {
        AddFamsLink(wife.value, fam);
      }
      if married {
        chil := LinkChildren(kids, fam);
      } else {
        chil := ChildLines(kids);
      }
    }

    /** A new family record filed under `id` in `records` and `families`. */
    method FileFamily(id: string, lines: seq<Line>) returns (rec: Record)
      requires Valid() && |id| > 0
      modifies this`records, this`families
      ensures Valid() && fresh(rec) && ValueOf(rec) == RecordValue(Some(id), "FAM", lines)
      ensures records == old(records).Put(id, rec) && families == old(families).Put(id, rec)
      ensures LinesOf(individuals) == old(LinesOf(individuals))
    {
      records, families, rec := FileInto(records, families, id, RecordValue(Some(id), "FAM", lines));
      assert Valid();
      LinesKept(individuals);
    }

    /**
     * `add_family`: a fresh family identifier, the partners' FAMS links, the marriage, then
     * the children with their FAMC links, and the record filed in `records` and `families`.
     * Writing the marriage date can raise after the FAMS links are already in place; then
     * nothing is filed and no child is linked. The marriage lines are built first here, which
     * changes nothing, as building them touches no state.
     */
    method AddFamily(husb: Option<string>, wife: Option<string>, kids: seq<string>, date: Option<Models.GenealogyDate>, place: Option<Models.Place>) returns (r: Result<string>)
      requires Valid()
      modifies this`records, this`families, this`nextFam, individuals.m.Values
      ensures Valid() && nextFam == old(nextFam) + 1
      ensures var id := IdText('F', old(nextFam));
        var ls := FamilyLines(id, husb, wife, date, place, kids);
        && (r.Success? <==> ls.Some?)
        && (r.Failure? ==> r.error == DateError && records == old(records) && families == old(families))
        && (r.Success? ==>
            && r.value == id && id in records.m && fresh(records.m[id])
            && ValueOf(records.m[id]) == RecordValue(Some(id), "FAM", ls.value)
            && records == old(records).Put(id, records.m[id])
            && families == old(families).Put(id, records.m[id]))
        && LinesOf(individuals) == (var linked := PartnerLinked(old(LinesOf(individuals)), husb, wife, id);
                                    if r.Success? then ChildLinked(linked, kids, id) else linked)
    {
      var id := GetNextFamilyId();
      var ml := MarriageLines(date, place);
      ghost var stores := [records, individuals, families, sources, repositories];
      var chil := LinkMembers(husb, wife, kids, id, ml.Some?);
      assert [records, individuals, families, sources, repositories] == stores;
      if ml.None? {
        return Failure(DateError);
      }
      var rec := FileFamily(id, [Line(0, Some(id), "FAM", "")] + PartnerLines("HUSB", husb) + PartnerLines("WIFE", wife) + ml.value + chil);
      r := Success(id);
    }

    /** `add_source`: a fresh source identifier and the source's record, filed in `records` and `sources`; the repository is not written. */
    method AddSource(source: Models.Source) returns (id: string)
      requires Valid()
      modifies this`records, this`sources, this`nextSour
      ensures Valid() && nextSour == old(nextSour) + 1 && id == IdText('S', old(nextSour))
      ensures id in records.m && fresh(records.m[id])
      ensures ValueOf(records.m[id]) == RecordValue(Some(id), "SOUR", SourceLines(id, source))
      ensures records == old(records).Put(id, records.m[id]) && sources == old(sources).Put(id, records.m[id])
    {
      id := GetNextSourceId();
      var rec;
      records, sources, rec := FileInto(records, sources, id, RecordValue(Some(id), "SOUR", SourceLines(id, source)));
    }

    /** `get_statistics`: the number of distinct keys in each store and the number of issues of each kind. */
    method GetStatistics() returns (s: Statistics)
      requires Valid()
      ensures s.individuals == |individuals.m.Keys| && s.families == |families.m.Keys|
      ensures s.sources == |sources.m.Keys| && s.repositories == |repositories.m.Keys|
      ensures s.totalRecords == |records.m.Keys|
      ensures s.errors == |errors| && s.warnings == |warnings|
    {
      s := Statistics(individuals.Size(), families.Size(), sources.Size(), repositories.Size(), records.Size(), |errors|, |warnings|);
    }

    /** `find_person_by_name`: the individuals, in filing order, with a NAME value containing each part asked for, ignoring case; each at most once. */
    method FindPersonByName(given: Option<string>, surname: Option<string>) returns (results: seq<string>)
      requires Valid()
      ensures results == Matching(individuals.keys, View(individuals).m, given, surname)
      ensures Distinct(results)
      ensures forall k :: k in results <==> k in individuals.m && AnyNameMatches(Names(ValueOf(individuals.m[k])), given, surname)
    {
      var inds := View(individuals);
      KeyedView(individuals);
      results := FindByName(inds, given, surname);
      MatchingMembers(inds.keys, inds.m, given, surname);
    }

    /** `generate_name_variants`: the surname, the pair substitutions and the double-letter changes of its lower-cased form, title-cased and sorted. */
    method GenerateNameVariants(surname: string) returns (r: seq<string>)
      ensures r == SortedTitles(Variants(surname))
    {
      var base := Lower(surname);
      assert NonEmptyPairs(Substitutions);
      var vs := GrowByPairs([surname], base, Substitutions);
      vs := GrowByDoubles(vs, base, Doubled);
      r := SortedTitles(vs);
    }

    /** `_update_header`: with a header, its DATE lines take `date` and its TIME lines `time`, in place; the clock readings are parameters. */
    method UpdateHeader(date: string, time: string)
      modifies Held(header)
      ensures header.Some? ==> header.value.lines == StampAll(old(header.value.lines), date, time)
    {
      if header.Some? {
        var h := header.value;
        ghost var before := h.lines;
        var i := 0;
        while i < |h.lines|
          invariant 0 <= i <= |h.lines| == |before|
          invariant h.lines == StampAll(before[..i], date, time) + before[i..]
        {
          StampStep(before, h.lines, i, date, time);
          h.lines := h.lines[i := Stamp(h.lines[i], date, time)];
          i := i + 1;
        }
        assert before[..i] == before;
      }
    }

    /** The writing half of `save`, on the records as they stand. */
    method WriteAll() returns (out: seq<string>)
      requires Valid()
      ensures out == SaveText(ViewOpt(header), ViewOpt(trailer), View(records))
    {
      var h, t, recs := ViewOpt(header), ViewOpt(trailer), View(records);
      KeyedView(records);
      out := [];
      if h.Some? {
        out := WriteRecord(h.value.lines);
      }
      var body := WriteRecords(recs, h, t);
      out := out + body + ["0 TRLR"];
      ViewKept(records);
      HeldKept(header);
      HeldKept(trailer);
    }

    /** `save`: the header stamped first when asked, then the header, every other record and the trailer line written out. */
    method Save(updateHeader: bool, date: string, time: string) returns (out: seq<string>)
      requires Valid()
      modifies Held(header)
      ensures updateHeader && header.Some? ==> header.value.lines == StampAll(old(header.value.lines), date, time)
      ensures !updateHeader ==> unchanged(Held(header))
      ensures out == SaveText(ViewOpt(header), ViewOpt(trailer), View(records))
    {
      if updateHeader {
        UpdateHeader(date, time);
      }
      out := WriteAll();
    }
  }
}
