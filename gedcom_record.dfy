/**
 * A GEDCOM record (a level-0 line and its subordinate lines) and the two path queries
 * `get_value` and `get_all_values`, which scan the flat list of lines and track scope by
 * level instead of building a tree.
 */
module GedcomRecord {
  import opened Wrappers
  import opened GedcomLine
  import opened Sorting

  /** The lines after the level-0 line, Python's `lines[1:]`. */
  function Subordinates(ls: seq<Line>): (r: seq<Line>)
    ensures |ls| > 0 ==> r == ls[1..]
    ensures |ls| == 0 ==> r == []
  {
    if |ls| == 0 then [] else ls[1..]
  }

  /** `path[level - 1]` with Python's negative indexing: level 0 selects the last element. */
  function PathTag(path: seq<string>, level: nat): string
    requires level < |path|
  {
    if level == 0 then path[|path| - 1] else path[level - 1]
  }

  /**
   * The scan of `get_value`: `level` is `current_level` and `matching` is `current_match`.
   * A closed scope reopens at a line whose level is at most `level`; inside an open scope,
   * a line at depth `|path|` with the last tag answers, a shallower line with the tag its
   * level asks for deepens the scope, and any other line closes it.
   */
  function PathScan(ls: seq<Line>, path: seq<string>, level: nat, matching: bool): Option<string>
    requires |path| > 0
    decreases |ls|
  {
    if |ls| == 0 then None
    else
      var l := ls[0];
      var open := matching || l.level <= level;
      if !open then PathScan(ls[1..], path, level, false)
      else if l.level == |path| && l.tag == path[|path| - 1] then Some(l.value)
      else if l.level < |path| && l.tag == PathTag(path, l.level) then PathScan(ls[1..], path, l.level, true)
      else PathScan(ls[1..], path, level, false)
  }

  /** `GedcomRecord.get_value(*path)` on a record holding `ls`. */
  function ValueAt(ls: seq<Line>, path: seq<string>): Option<string>
    requires |path| > 0
  {
    PathScan(Subordinates(ls), path, 0, true)
  }

  /** Python's truthiness of the optional parent tag: `None` and `""` are both false. */
  predicate Given(parent: Option<string>)
  {
    parent.Some? && parent.value != ""
  }

  /**
   * The scan of `get_all_values`: a line tagged with the parent opens the scope, any other
   * level-1 line closes it, and a line carrying `tag` inside the scope contributes its value.
   */
  function ScopeScan(ls: seq<Line>, tag: string, parent: Option<string>, inParent: bool): seq<string>
    decreases |ls|
  {
    if |ls| == 0 then []
    else
      var open := Opens(ls[0], parent, inParent);
      Contribution(ls[0], tag, open) + ScopeScan(ls[1..], tag, parent, open)
  }

  /** Whether the scope is open after line `l`. */
  predicate Opens(l: Line, parent: Option<string>, inParent: bool)
  {
    if Given(parent) && l.tag == parent.value then true
    else if Given(parent) && l.level == 1 then false
    else inParent
  }

  /** What line `l` adds to the result. */
  function Contribution(l: Line, tag: string, open: bool): seq<string>
  {
    if open && l.tag == tag then [l.value] else []
  }

  lemma ScopeScanStep(ls: seq<Line>, k: nat, tag: string, parent: Option<string>, inParent: bool)
    requires k < |ls|
    ensures ScopeScan(ls[k..], tag, parent, inParent)
         == Contribution(ls[k], tag, Opens(ls[k], parent, inParent)) + ScopeScan(ls[k + 1..], tag, parent, Opens(ls[k], parent, inParent))
  {
    assert ls[k..][0] == ls[k];
    assert ls[k..][1..] == ls[k + 1..];
  }

  /** `GedcomRecord.get_all_values(tag, parent_tag)` on a record holding `ls`. */
  function AllValues(ls: seq<Line>, tag: string, parent: Option<string>): seq<string>
  {
    ScopeScan(Subordinates(ls), tag, parent, parent.None?)
  }

  /** Reference definition: the values of every line carrying `tag`, in order. */
  function TagValues(ls: seq<Line>, tag: string): (r: seq<string>)
    ensures |r| <= |ls|
  {
    if |ls| == 0 then []
    else (if ls[0].tag == tag then [ls[0].value] else []) + TagValues(ls[1..], tag)
  }

  /** Reference definition of the parent scope: line `k` lies after a line tagged `p` with no other level-1 line in between. */
  predicate InScope(ls: seq<Line>, k: int, p: string)
    requires -1 <= k < |ls|
  {
    exists j :: 0 <= j <= k && ls[j].tag == p && Unbroken(ls, j, k, p)
  }

  /** No line in `ls(j..k]` is a level-1 line with a tag other than `p`. */
  predicate Unbroken(ls: seq<Line>, j: int, k: int, p: string)
    requires 0 <= j <= k < |ls|
  {
    forall i :: j < i <= k ==> ls[i].level != 1 || ls[i].tag == p
  }

  /** Reference definition: the values of lines `k..` carrying `tag` that lie in the scope of `p`. */
  function ScopedValues(ls: seq<Line>, tag: string, p: string, k: nat): seq<string>
    requires k <= |ls|
    decreases |ls| - k
  {
    if k == |ls| then []
    else (if ls[k].tag == tag && InScope(ls, k, p) then [ls[k].value] else []) + ScopedValues(ls, tag, p, k + 1)
  }

  lemma {:induction false} PathScanSound(ls: seq<Line>, path: seq<string>, level: nat, matching: bool, v: string)
    requires |path| > 0
    requires PathScan(ls, path, level, matching) == Some(v)
    ensures exists k :: 0 <= k < |ls| && ls[k].level == |path| && ls[k].tag == path[|path| - 1] && ls[k].value == v
    decreases |ls|
  {
    var l := ls[0];
    var open := matching || l.level <= level;
    if open && l.level == |path| && l.tag == path[|path| - 1] {
      assert ls[0].value == v;
    } else {
      var next := if open && l.level < |path| && l.tag == PathTag(path, l.level) then l.level else level;
      var m := open && l.level < |path| && l.tag == PathTag(path, l.level);
      assert PathScan(ls[1..], path, next, m) == Some(v);
      PathScanSound(ls[1..], path, next, m, v);
      var k :| 0 <= k < |ls[1..]| && ls[1..][k].level == |path| && ls[1..][k].tag == path[|path| - 1] && ls[1..][k].value == v;
      assert ls[k + 1] == ls[1..][k];
    }
  }

  /** A value `get_value(*path)` returns is the value of a subordinate line at depth `|path|` carrying the last tag of the path. */
  lemma ValueAtSound(ls: seq<Line>, path: seq<string>, v: string)
    requires |path| > 0
    requires ValueAt(ls, path) == Some(v)
    ensures exists k :: 1 <= k < |ls| && ls[k].level == |path| && ls[k].tag == path[|path| - 1] && ls[k].value == v
  {
    var sub := Subordinates(ls);
    PathScanSound(sub, path, 0, true, v);
    var k :| 0 <= k < |sub| && sub[k].level == |path| && sub[k].tag == path[|path| - 1] && sub[k].value == v;
    assert ls[k + 1] == sub[k];
  }

  /** The lines all sit below level 0, as the subordinate lines of every loaded record do. */
  predicate Nested(ls: seq<Line>)
  {
    forall i :: 0 <= i < |ls| ==> ls[i].level > 0
  }

  /** Once the scope closes while `current_level` is 0, no later subordinate line reopens it. */
  lemma {:induction false} ClosedScopeNeverResumes(ls: seq<Line>, path: seq<string>)
    requires |path| > 0 && Nested(ls)
    ensures PathScan(ls, path, 0, false) == None
    decreases |ls|
  {
    if |ls| > 0 {
      assert Nested(ls[1..]) by {
        forall i | 0 <= i < |ls[1..]| ensures ls[1..][i].level > 0 { assert ls[1..][i] == ls[i + 1]; }
      }
      ClosedScopeNeverResumes(ls[1..], path);
    }
  }

  /** A one-tag path finds only the first subordinate line, and only when that line is at level 1 with the tag. */
  lemma SingleTagSeesFirstLine(ls: seq<Line>, t: string)
    requires Nested(Subordinates(ls))
    ensures ValueAt(ls, [t]) == if |ls| > 1 && ls[1].level == 1 && ls[1].tag == t then Some(ls[1].value) else None
  {
    var sub := Subordinates(ls);
    if |sub| > 0 {
      var l := sub[0];
      if !(l.level == 1 && l.tag == t) {
        assert !(l.level < 1);
        assert Nested(sub[1..]) by {
          forall i | 0 <= i < |sub[1..]| ensures sub[1..][i].level > 0 { assert sub[1..][i] == sub[i + 1]; }
        }
        ClosedScopeNeverResumes(sub[1..], [t]);
      }
    }
  }

  /** The scope quirk on a concrete record: a `NAME` line ahead of `BIRT` hides the birth date from `get_value('BIRT', 'DATE')`. */
  lemma BirthDateHiddenBehindName(name: string, date: string)
    ensures ValueAt([Line(0, Some("@I1@"), "INDI", ""), Line(1, None, "BIRT", ""), Line(2, None, "DATE", date)], ["BIRT", "DATE"]) == Some(date)
    ensures ValueAt([Line(0, Some("@I1@"), "INDI", ""), Line(1, None, "NAME", name), Line(1, None, "BIRT", ""), Line(2, None, "DATE", date)], ["BIRT", "DATE"]) == None
  {
    var shown := [Line(0, Some("@I1@"), "INDI", ""), Line(1, None, "BIRT", ""), Line(2, None, "DATE", date)];
    assert Subordinates(shown)[1..] == [Line(2, None, "DATE", date)];
    assert PathScan([Line(2, None, "DATE", date)], ["BIRT", "DATE"], 1, true) == Some(date);
    var hidden := [Line(0, Some("@I1@"), "INDI", ""), Line(1, None, "NAME", name), Line(1, None, "BIRT", ""), Line(2, None, "DATE", date)];
    assert Subordinates(hidden)[1..] == [Line(1, None, "BIRT", ""), Line(2, None, "DATE", date)];
    ClosedScopeNeverResumes(Subordinates(hidden)[1..], ["BIRT", "DATE"]);
  }

  lemma {:induction false} ScopeScanUnscoped(ls: seq<Line>, tag: string)
    ensures ScopeScan(ls, tag, None, true) == TagValues(ls, tag)
    decreases |ls|
  {
    if |ls| > 0 {
      ScopeScanUnscoped(ls[1..], tag);
    }
  }

  /** Without a parent tag, `get_all_values(tag)` returns the values of all subordinate lines carrying `tag`, in order. */
  lemma AllValuesUnscoped(ls: seq<Line>, tag: string)
    ensures AllValues(ls, tag, None) == TagValues(Subordinates(ls), tag)
  {
    ScopeScanUnscoped(Subordinates(ls), tag);
  }

  lemma {:induction false} ScopeScanClosed(ls: seq<Line>, tag: string)
    ensures ScopeScan(ls, tag, Some(""), false) == []
    decreases |ls|
  {
    if |ls| > 0 {
      ScopeScanClosed(ls[1..], tag);
    }
  }

  /** An empty parent tag is falsy, so the scope starts closed and never opens: nothing is returned. */
  lemma AllValuesEmptyParent(ls: seq<Line>, tag: string)
    ensures AllValues(ls, tag, Some("")) == []
  {
    ScopeScanClosed(Subordinates(ls), tag);
  }

  /** One step of the scope: open at `k` exactly when line `k` carries `p`, or the scope was open at `k - 1` and line `k` is not level 1. */
  lemma InScopeStep(ls: seq<Line>, k: nat, p: string)
    requires k < |ls|
    ensures InScope(ls, k, p) <==> ls[k].tag == p || (ls[k].level != 1 && InScope(ls, k - 1, p))
  {
    if ls[k].tag == p {
      assert Unbroken(ls, k, k, p);
    } else if ls[k].level != 1 && InScope(ls, k - 1, p) {
      var j :| 0 <= j <= k - 1 && ls[j].tag == p && Unbroken(ls, j, k - 1, p);
      assert Unbroken(ls, j, k, p);
    }
    if InScope(ls, k, p) && ls[k].tag != p {
      var j :| 0 <= j <= k && ls[j].tag == p && Unbroken(ls, j, k, p);
      assert j < k;
      assert Unbroken(ls, j, k - 1, p);
    }
  }

  lemma {:induction false} ScopeScanScoped(ls: seq<Line>, tag: string, p: string, k: nat)
    requires p != "" && k <= |ls|
    ensures ScopeScan(ls[k..], tag, Some(p), InScope(ls, k as int - 1, p)) == ScopedValues(ls, tag, p, k)
    decreases |ls| - k
  {
    if k < |ls| {
      InScopeStep(ls, k, p);
      assert ls[k..][0] == ls[k];
      assert ls[k..][1..] == ls[k + 1..];
      ScopeScanScoped(ls, tag, p, k + 1);
    }
  }

  /** With a non-empty parent tag, `get_all_values` returns, in order, the values of the lines carrying `tag` that lie in the parent's scope. */
  lemma AllValuesScoped(ls: seq<Line>, tag: string, p: string)
    requires p != ""
    ensures AllValues(ls, tag, Some(p)) == ScopedValues(Subordinates(ls), tag, p, 0)
  {
    var sub := Subordinates(ls);
    ScopeScanScoped(sub, tag, p, 0);
    assert sub[0..] == sub;
    assert !InScope(sub, -1, p);
  }

  /** `GedcomRecord`: its id and type never change after construction; `add_family` appends to its lines in place. */
  class Record {
    const id: Option<string>
    const tag: string
    var lines: seq<Line>

    constructor (id: Option<string>, tag: string, lines: seq<Line>)
      ensures this.id == id && this.tag == tag && this.lines == lines
    {
      this.id := id;
      this.tag := tag;
      this.lines := lines;
    }

    /** `get_value(*path)`, scanning the subordinate lines once and stopping at the first answer. */
    method GetValue(path: seq<string>) returns (r: Option<string>)
      requires |path| > 0
      ensures r == ValueAt(lines, path)
    {
      var ls := Subordinates(lines);
      var level: nat := 0;
      var matching := true;
      var k := 0;
      while k < |ls|
        invariant 0 <= k <= |ls|
        invariant PathScan(ls[k..], path, level, matching) == ValueAt(lines, path)
      {
        var l := ls[k];
        assert ls[k..][0] == l;
        assert ls[k..][1..] == ls[k + 1..];
        if l.level <= level && !matching {
          matching := true;
        }
        if matching {
          if l.level == |path| && l.tag == path[|path| - 1] {
            return Some(l.value);
          }
          if l.level < |path| && l.tag == PathTag(path, l.level) {
            level := l.level;
          } else {
            matching := false;
          }
        }
        k := k + 1;
      }
      return None;
    }

    /** `get_all_values(tag, parent_tag)` */
    method GetAllValues(want: string, parent: Option<string>) returns (values: seq<string>)
      ensures values == AllValues(lines, want, parent)
    {
      values := ScanScope(Subordinates(lines), want, parent);
    }
  }

  /** The loop of `get_all_values`, collecting the values of `want` lines while the parent scope is open. */
  method ScanScope(ls: seq<Line>, want: string, parent: Option<string>) returns (values: seq<string>)
    ensures values == ScopeScan(ls, want, parent, parent.None?)
  {
    ghost var all := ScopeScan(ls, want, parent, parent.None?);
    values := [];
    var inParent := parent.None?;
    assert ls[0..] == ls;
    for k := 0 to |ls|
      invariant values + ScopeScan(ls[k..], want, parent, inParent) == all
    {
      var l := ls[k];
      ScopeScanStep(ls, k, want, parent, inParent);
      ghost var before := values;
      ghost var open := Opens(l, parent, inParent);
      if Given(parent) && l.tag == parent.value {
        inParent := true;
      } else if Given(parent) && l.level == 1 && l.tag != parent.value {
        inParent := false;
      }
      assert inParent == open;
      if inParent && l.tag == want {
        values := values + [l.value];
      }
      ghost var c := Contribution(l, want, open);
      ghost var rest := ScopeScan(ls[k + 1..], want, parent, open);
      assert values == before + c;
      AppendAssoc(before, c, rest);
    }
    assert ls[|ls|..] == [];
    assert values + [] == values;
  }
}
