/**
 * The parts of Python's `str` behaviour that the modelled code relies on: whitespace
 * classification, `strip`, `split`, `join`, `lower`/`upper`/`title`, the `in` substring test,
 * `replace`, decimal conversion of integers and lexicographic comparison.
 * Case mapping and digit classification cover ASCII only.
 */
module Text {
  import opened Wrappers

  /**
   * The characters Python's `str.isspace` (and the regex class `\s`) treats as whitespace,
   * listed in `Spaces`.
   */
  predicate IsSpace(c: char)
  {
    SpaceFrom(c, 0)
  }

  const Spaces: seq<char> := [
    ' ', '\t', '\n', '\r', '\U{0B}', '\U{0C}', '\U{1C}', '\U{1D}', '\U{1E}', '\U{1F}',
    '\U{85}', '\U{A0}', '\U{1680}', '\U{2000}', '\U{2001}', '\U{2002}', '\U{2003}', '\U{2004}',
    '\U{2005}', '\U{2006}', '\U{2007}', '\U{2008}', '\U{2009}', '\U{200A}', '\U{2028}', '\U{2029}',
    '\U{202F}', '\U{205F}', '\U{3000}']

  predicate SpaceFrom(c: char, i: nat)
    decreases |Spaces| - i
  {
    i < |Spaces| && (Spaces[i] == c || SpaceFrom(c, i + 1))
  }

  lemma {:induction false} NotListedNotSpace(c: char, i: nat)
    requires forall j :: i <= j < |Spaces| ==> Spaces[j] != c
    ensures !SpaceFrom(c, i)
    decreases |Spaces| - i
  {
    if i < |Spaces| {
      NotListedNotSpace(c, i + 1);
    }
  }

  /** Space, tab, line feed and carriage return are whitespace; no printable ASCII character is. */
  lemma AsciiSpaces()
    ensures IsSpace(' ') && IsSpace('\t') && IsSpace('\n') && IsSpace('\r')
    ensures forall c :: '!' <= c <= '~' ==> !IsSpace(c)
  {
    assert SpaceFrom('\r', 3);
    assert SpaceFrom('\n', 2);
    assert SpaceFrom('\t', 1);
    assert forall j :: 0 <= j < |Spaces| ==> Spaces[j] < '!' || Spaces[j] > '~';
    forall c | '!' <= c <= '~' ensures !IsSpace(c) {
      NotListedNotSpace(c, 0);
    }
  }


  predicate IsDigit(c: char) { '0' <= c <= '9' }
  predicate IsUpper(c: char) { 'A' <= c <= 'Z' }
  predicate IsLower(c: char) { 'a' <= c <= 'z' }
  predicate IsLetter(c: char) { IsUpper(c) || IsLower(c) }

  lemma DigitNotSpace(c: char)
    requires IsDigit(c)
    ensures !IsSpace(c)
  {
    AsciiSpaces();
  }

  lemma PrintableNotSpace(c: char)
    requires '!' <= c <= '~'
    ensures !IsSpace(c)
  {
    AsciiSpaces();
  }

  predicate AllDigits(s: string) { forall i :: 0 <= i < |s| ==> IsDigit(s[i]) }
  predicate NoSpace(s: string) { forall i :: 0 <= i < |s| ==> !IsSpace(s[i]) }

  function LowerChar(c: char): char
  {
    if IsUpper(c) then (c as int + 32) as char else c
  }

  function UpperChar(c: char): char
  {
    if IsLower(c) then (c as int - 32) as char else c
  }

  /** `s.lower()` */
  function Lower(s: string): (r: string)
    ensures |r| == |s|
    ensures forall i :: 0 <= i < |s| ==> r[i] == LowerChar(s[i])
  {
    seq(|s|, i requires 0 <= i < |s| => LowerChar(s[i]))
  }

  /** `s.upper()` */
  function Upper(s: string): (r: string)
    ensures |r| == |s|
    ensures forall i :: 0 <= i < |s| ==> r[i] == UpperChar(s[i])
  {
    seq(|s|, i requires 0 <= i < |s| => UpperChar(s[i]))
  }

  /** `s.title()`: a letter is upper-cased when the character before it is not a letter, otherwise lower-cased. */
  function Title(s: string): string
  {
    TitleFrom(s, false)
  }

  function TitleFrom(s: string, afterLetter: bool): (r: string)
    ensures |r| == |s|
    decreases |s|
  {
    if s == [] then []
    else [if afterLetter then LowerChar(s[0]) else UpperChar(s[0])] + TitleFrom(s[1..], IsLetter(s[0]))
  }

  /** Title-casing ignores the case the letters had: `s.lower().title() == s.title()`. */
  lemma TitleOfLower(s: string)
    ensures Title(Lower(s)) == Title(s)
  {
    TitleFromLower(s, false);
  }

  lemma {:induction false} TitleFromLower(s: string, afterLetter: bool)
    ensures TitleFrom(Lower(s), afterLetter) == TitleFrom(s, afterLetter)
    decreases |s|
  {
    if s != [] {
      assert Lower(s)[1..] == Lower(s[1..]);
      TitleFromLower(s[1..], IsLetter(s[0]));
    }
  }

  /** Removes leading whitespace (`lstrip`). */
  function LStrip(s: string): (r: string)
    ensures |r| <= |s| && r == s[|s| - |r|..]
    ensures r != [] ==> !IsSpace(r[0])
    ensures forall i :: 0 <= i < |s| - |r| ==> IsSpace(s[i])
  {
    if s != [] && IsSpace(s[0]) then LStrip(s[1..]) else s
  }

  /** Removes trailing whitespace (`rstrip`). */
  function RStrip(s: string): (r: string)
    ensures |r| <= |s| && r == s[..|r|]
    ensures r != [] ==> !IsSpace(r[|r| - 1])
    ensures forall i :: |r| <= i < |s| ==> IsSpace(s[i])
  {
    if s != [] && IsSpace(s[|s| - 1]) then RStrip(s[..|s| - 1]) else s
  }

  /** `s.strip()` */
  function Strip(s: string): (r: string)
    ensures r == [] || (!IsSpace(r[0]) && !IsSpace(r[|r| - 1]))
  {
    StripEnds(s);
    RStrip(LStrip(s))
  }

  lemma StripIdentity(s: string)
    requires s == [] || (!IsSpace(s[0]) && !IsSpace(s[|s| - 1]))
    ensures Strip(s) == s
  {
  }

  lemma StripEnds(s: string)
    ensures RStrip(LStrip(s)) == [] || (!IsSpace(RStrip(LStrip(s))[0]) && !IsSpace(RStrip(LStrip(s))[|RStrip(LStrip(s))| - 1]))
  {
    var l := LStrip(s);
    var r := RStrip(l);
    if r != [] {
      assert r == l[..|r|];
      assert r[0] == l[0];
    }
  }

  /** The end of the run of whitespace starting at `i`. */
  function SpanSpace(s: string, i: nat): (j: nat)
    requires i <= |s|
    ensures i <= j <= |s|
    ensures forall k :: i <= k < j ==> IsSpace(s[k])
    ensures j < |s| ==> !IsSpace(s[j])
    decreases |s| - i
  {
    if i < |s| && IsSpace(s[i]) then SpanSpace(s, i + 1) else i
  }

  /** No run of whitespace starts at a non-space character. */
  lemma SpanAtWord(s: string, i: nat)
    requires i < |s| && !IsSpace(s[i])
    ensures SpanSpace(s, i) == i
  {
  }

  /** A single space before a non-space character is a run of length one. */
  lemma SpanOneSpace(s: string, i: nat)
    requires i + 1 < |s| && IsSpace(s[i]) && !IsSpace(s[i + 1])
    ensures SpanSpace(s, i) == i + 1
  {
    SpanAtWord(s, i + 1);
  }

  /** The end of the run of non-whitespace starting at `i`. */
  function SpanNonSpace(s: string, i: nat): (j: nat)
    requires i <= |s|
    ensures i <= j <= |s|
    ensures forall k :: i <= k < j ==> !IsSpace(s[k])
    ensures j < |s| ==> IsSpace(s[j])
    decreases |s| - i
  {
    if i < |s| && !IsSpace(s[i]) then SpanNonSpace(s, i + 1) else i
  }

  /** The first position at or after `i` holding `c`, if any. */
  function FindChar(s: string, c: char, i: nat): (r: Option<nat>)
    requires i <= |s|
    ensures r.Some? ==> i <= r.value < |s| && s[r.value] == c
    ensures forall k :: i <= k < (if r.Some? then r.value else |s|) ==> s[k] != c
    decreases |s| - i
  {
    if i == |s| then None else if s[i] == c then Some(i) else FindChar(s, c, i + 1)
  }

  /** The end of the run of ASCII digits starting at `i`. */
  function SpanDigits(s: string, i: nat): (j: nat)
    requires i <= |s|
    ensures i <= j <= |s|
    ensures forall k :: i <= k < j ==> IsDigit(s[k])
    ensures j < |s| ==> !IsDigit(s[j])
    decreases |s| - i
  {
    if i < |s| && IsDigit(s[i]) then SpanDigits(s, i + 1) else i
  }

  /** `s.split()`: the maximal runs of non-whitespace, in order. */
  function SplitWs(s: string): (r: seq<string>)
    ensures forall w <- r :: w != [] && NoSpace(w)
    decreases |s|
  {
    var t := LStrip(s);
    if t == [] then []
    else
      var j := SpanNonSpace(t, 0);
      var word := t[..j];
      assert word != [] && NoSpace(word);
      [word] + SplitWs(t[j..])
  }

  /** `s.split(sep)` for a one-character separator: always at least one part, and `"".split(",") == [""]`. */
  function Split(s: string, sep: char): (r: seq<string>)
    ensures |r| >= 1
    ensures forall k :: 0 <= k < |r| ==> sep !in r[k]
    decreases |s|
  {
    if s == [] then [""]
    else
      var rest := Split(s[1..], sep);
      if s[0] == sep then [""] + rest else [[s[0]] + rest[0]] + rest[1..]
  }

  /** `sep.join(parts)` */
  function Join(sep: string, parts: seq<string>): string
  {
    if |parts| == 0 then ""
    else if |parts| == 1 then parts[0]
    else parts[0] + sep + Join(sep, parts[1..])
  }

  lemma {:induction false} SplitJoin(s: string, sep: char)
    ensures Join([sep], Split(s, sep)) == s
    decreases |s|
  {
    if s != [] {
      SplitJoin(s[1..], sep);
      var rest := Split(s[1..], sep);
      if s[0] != sep {
        if |rest| > 1 {
          assert [[s[0]] + rest[0]] + rest[1..] == [[s[0]] + rest[0]] + rest[1..];
          assert Join([sep], [[s[0]] + rest[0]] + rest[1..]) == [s[0]] + rest[0] + [sep] + Join([sep], rest[1..]);
        }
      }
    }
  }

  /** Python's `s[i]`, where a negative index counts from the end; `None` stands for `IndexError`. */
  function PyIndex<T>(s: seq<T>, i: int): (r: Option<T>)
    ensures r.Some? <==> -|s| <= i < |s|
    ensures 0 <= i < |s| ==> r == Some(s[i])
    ensures -|s| <= i < 0 ==> r == Some(s[|s| + i])
  {
    if 0 <= i < |s| then Some(s[i]) else if -|s| <= i < 0 then Some(s[|s| + i]) else None
  }

  predicate NoLower(s: string) { forall i :: 0 <= i < |s| ==> !IsLower(s[i]) }

  lemma UpperNoLower(s: string)
    requires NoLower(s)
    ensures Upper(s) == s
  {
  }

  lemma {:induction false} JoinNoLower(sep: string, parts: seq<string>)
    requires NoLower(sep) && forall k :: 0 <= k < |parts| ==> NoLower(parts[k])
    ensures NoLower(Join(sep, parts))
    decreases |parts|
  {
    if |parts| > 1 {
      JoinNoLower(sep, parts[1..]);
    }
  }

  /** The joined string starts with the first part. */
  lemma JoinHead(sep: string, parts: seq<string>)
    requires |parts| > 0
    ensures IsPrefix(parts[0], Join(sep, parts))
  {
  }

  lemma {:induction false} SpanNonSpaceAt(s: string, i: nat, j: nat)
    requires i <= j <= |s|
    requires forall k :: i <= k < j ==> !IsSpace(s[k])
    requires j < |s| ==> IsSpace(s[j])
    ensures SpanNonSpace(s, i) == j
    decreases j - i
  {
    if i < j {
      SpanNonSpaceAt(s, i + 1, j);
    }
  }

  lemma SpaceIsSpace()
    ensures IsSpace(' ')
  {
    assert Spaces[0] == ' ';
  }

  /** A string that starts with a non-space splits into its leading word and the split of the rest. */
  lemma SplitWsStep(s: string)
    requires s != [] && !IsSpace(s[0])
    ensures SplitWs(s) == [s[..SpanNonSpace(s, 0)]] + SplitWs(s[SpanNonSpace(s, 0)..])
  {
    assert LStrip(s) == s;
  }

  lemma SplitWsSkipsSpace(rest: string)
    requires rest != [] && !IsSpace(rest[0])
    ensures SplitWs(" " + rest) == SplitWs(rest)
  {
    SpaceIsSpace();
    assert (" " + rest)[1..] == rest;
    assert LStrip(" " + rest) == rest;
  }

  lemma SplitWsWord(w: string)
    requires w != [] && NoSpace(w)
    ensures SplitWs(w) == [w]
  {
    SpanNonSpaceAt(w, 0, |w|);
    assert w[..|w|] == w;
    assert w[|w|..] == [];
  }

  /** A word followed by a space: its run of non-whitespace is exactly the word. */
  lemma WordThenSpace(w: string, rest: string)
    requires w != [] && NoSpace(w)
    ensures !IsSpace((w + " " + rest)[0]) && SpanNonSpace(w + " " + rest, 0) == |w|
  {
    var s := w + " " + rest;
    SpaceIsSpace();
    assert forall k :: 0 <= k < |w| ==> s[k] == w[k];
    assert s[|w|] == ' ';
    SpanNonSpaceAt(s, 0, |w|);
  }

  lemma SplitWsCons(w: string, rest: string)
    requires w != [] && NoSpace(w)
    requires rest != [] && !IsSpace(rest[0])
    ensures SplitWs(w + " " + rest) == [w] + SplitWs(rest)
  {
    var s := w + " " + rest;
    assert s == w + (" " + rest);
    assert SplitWs(s) == [s[..|w|]] + SplitWs(s[|w|..]) by {
      WordThenSpace(w, rest);
      SplitWsStep(s);
    }
    assert s[..|w|] == w;
    assert SplitWs(s[|w|..]) == SplitWs(rest) by {
      assert s[|w|..] == " " + rest;
      SplitWsSkipsSpace(rest);
    }
  }

  /** Non-empty words free of whitespace, as `split()` produces them. */
  predicate Words(ws: seq<string>)
  {
    forall k :: 0 <= k < |ws| ==> ws[k] != [] && NoSpace(ws[k])
  }

  lemma JoinCons(sep: string, ws: seq<string>)
    requires |ws| > 1
    ensures Join(sep, ws) == ws[0] + sep + Join(sep, ws[1..])
  {
  }

  /** Joining one more part appends the separator and that part. */
  lemma {:induction false} JoinSnoc(sep: string, parts: seq<string>, x: string)
    requires |parts| > 0
    ensures Join(sep, parts + [x]) == Join(sep, parts) + sep + x
    decreases |parts|
  {
    if |parts| > 1 {
      JoinSnoc(sep, parts[1..], x);
      assert (parts + [x])[1..] == parts[1..] + [x];
    }
  }

  predicate IsSuffix(p: string, s: string)
  {
    |p| <= |s| && s[|s| - |p|..] == p
  }

  /** The joined string ends with the last part. */
  lemma JoinLast(sep: string, parts: seq<string>)
    requires |parts| > 0
    ensures IsSuffix(parts[|parts| - 1], Join(sep, parts))
  {
    if |parts| > 1 {
      var init := parts[..|parts| - 1];
      JoinSnoc(sep, init, parts[|parts| - 1]);
      assert init + [parts[|parts| - 1]] == parts;
    }
  }

  /** A string contains each of its suffixes. */
  lemma {:induction false} ContainsSuffix(p: string, s: string)
    requires IsSuffix(p, s)
    ensures Contains(s, p)
    decreases |s|
  {
    if |p| < |s| {
      assert s[1..][|s[1..]| - |p|..] == s[|s| - |p|..];
      ContainsSuffix(p, s[1..]);
    } else {
      assert s[..|p|] == s;
    }
  }

  /** `" ".join(ws).split() == ws` when every word is non-empty and free of whitespace. */
  lemma {:induction false} SplitWsJoin(ws: seq<string>)
    requires Words(ws)
    ensures SplitWs(Join(" ", ws)) == ws
    decreases |ws|
  {
    if |ws| == 1 {
      SplitWsWord(ws[0]);
    } else if |ws| > 1 {
      var tail := ws[1..];
      var rest := Join(" ", tail);
      assert SplitWs(Join(" ", ws)) == [ws[0]] + SplitWs(rest) by {
        JoinCons(" ", ws);
        JoinHead(" ", tail);
        assert rest[0] == tail[0][0];
        assert !IsSpace(rest[0]);
        SplitWsCons(ws[0], rest);
      }
      assert Words(tail) by {
        assert forall k :: 0 <= k < |tail| ==> tail[k] == ws[k + 1];
      }
      SplitWsJoin(tail);
      assert [ws[0]] + tail == ws;
    }
  }

  /** `sep.join(parts).split(sep) == parts` when no part contains the separator. */
  lemma {:induction false} SplitOfJoin(parts: seq<string>, sep: char)
    requires |parts| >= 1
    requires forall k :: 0 <= k < |parts| ==> sep !in parts[k]
    ensures Split(Join([sep], parts), sep) == parts
    decreases |parts|, |parts[0]|
  {
    var p := parts[0];
    if p == [] {
      if |parts| > 1 {
        var rest := Join([sep], parts[1..]);
        assert Join([sep], parts) == [sep] + rest;
        assert ([sep] + rest)[1..] == rest;
        SplitOfJoin(parts[1..], sep);
        assert [""] + parts[1..] == parts;
      }
    } else {
      var tail := [p[1..]] + parts[1..];
      assert tail[1..] == parts[1..];
      assert sep !in p[1..] by {
        assert forall k :: 0 <= k < |p[1..]| ==> p[1..][k] == p[k + 1];
      }
      assert forall k :: 0 <= k < |tail| ==> sep !in tail[k];
      SplitOfJoin(tail, sep);
      var j := Join([sep], parts);
      var jt := Join([sep], tail);
      if |parts| == 1 {
        assert j == p && jt == p[1..];
      } else {
        assert j == p + [sep] + Join([sep], parts[1..]);
        assert jt == p[1..] + [sep] + Join([sep], parts[1..]);
      }
      assert j == [p[0]] + jt;
      assert j[1..] == jt;
      assert j[0] == p[0] && p[0] != sep;
      assert [p[0]] + p[1..] == p;
      assert [[p[0]] + tail[0]] + tail[1..] == parts;
    }
  }

  predicate IsPrefix(p: string, s: string)
  {
    |p| <= |s| && s[..|p|] == p
  }

  /** `sub in s` (every string contains the empty string). */
  predicate Contains(s: string, sub: string)
    decreases |s|
  {
    IsPrefix(sub, s) || (|s| > 0 && Contains(s[1..], sub))
  }

  lemma ContainsSelf(s: string)
    ensures Contains(s, s)
  {
  }

  /** A string contains whatever a string it ends with contains. */
  lemma {:induction false} ContainsInSuffix(u: string, v: string, sub: string)
    requires Contains(v, sub)
    ensures Contains(u + v, sub)
    decreases |u|
  {
    if u != [] {
      assert (u + v)[1..] == u[1..] + v;
      ContainsInSuffix(u[1..], v, sub);
    } else {
      assert u + v == v;
    }
  }

  /** A string contains whatever a string it begins with contains. */
  lemma {:induction false} ContainsInPrefix(u: string, v: string, sub: string)
    requires Contains(u, sub)
    ensures Contains(u + v, sub)
    decreases |u|
  {
    if IsPrefix(sub, u) {
      assert (u + v)[..|sub|] == u[..|sub|];
    } else {
      assert (u + v)[1..] == u[1..] + v;
      ContainsInPrefix(u[1..], v, sub);
    }
  }

  /** A joined string contains each of its parts. */
  lemma {:induction false} JoinContains(sep: string, parts: seq<string>, i: nat)
    requires i < |parts|
    ensures Contains(Join(sep, parts), parts[i])
    decreases |parts|
  {
    if |parts| == 1 {
      ContainsSelf(parts[0]);
    } else if i == 0 {
      ContainsSelf(parts[0]);
      ContainsInPrefix(parts[0], sep + Join(sep, parts[1..]), parts[0]);
      assert parts[0] + (sep + Join(sep, parts[1..])) == Join(sep, parts);
    } else {
      assert parts[1..][i - 1] == parts[i];
      JoinContains(sep, parts[1..], i - 1);
      ContainsInSuffix(parts[0] + sep, Join(sep, parts[1..]), parts[i]);
    }
  }

  /** `s.replace(pat, rep)`: every non-overlapping occurrence, scanning left to right. */
  function ReplaceAll(s: string, pat: string, rep: string): string
    requires |pat| > 0
    decreases |s|
  {
    if |s| < |pat| then s
    else if s[..|pat|] == pat then rep + ReplaceAll(s[|pat|..], pat, rep)
    else [s[0]] + ReplaceAll(s[1..], pat, rep)
  }

  /** `s.replace(pat, rep, 1)`: the first occurrence only. */
  function ReplaceFirst(s: string, pat: string, rep: string): string
    requires |pat| > 0
    decreases |s|
  {
    if |s| < |pat| then s
    else if s[..|pat|] == pat then rep + s[|pat|..]
    else [s[0]] + ReplaceFirst(s[1..], pat, rep)
  }

  lemma {:induction false} ReplaceAllAbsent(s: string, pat: string, rep: string)
    requires |pat| > 0 && !Contains(s, pat)
    ensures ReplaceAll(s, pat, rep) == s
    decreases |s|
  {
    if |s| >= |pat| {
      ReplaceAllAbsent(s[1..], pat, rep);
    }
  }

  function DigitChar(d: nat): char
    requires d < 10
  {
    ('0' as int + d) as char
  }

  /** `str(n)` for a non-negative integer. */
  function NatToString(n: nat): (r: string)
    ensures r != [] && AllDigits(r)
    ensures |r| > 1 ==> r[0] != '0'
  {
    if n < 10 then [DigitChar(n)] else NatToString(n / 10) + [DigitChar(n % 10)]
  }

  /** `str(i)` for any integer. */
  function IntToString(i: int): string
  {
    if i < 0 then "-" + NatToString(-i) else NatToString(i)
  }

  /** `int(s)` for a string of ASCII digits. */
  function DigitsValue(s: string): nat
    requires AllDigits(s)
  {
    if s == [] then 0 else DigitsValue(s[..|s| - 1]) * 10 + (s[|s| - 1] as int - '0' as int)
  }

  lemma {:induction false} DigitsValueOfNatToString(n: nat)
    ensures DigitsValue(NatToString(n)) == n
  {
    if n >= 10 {
      DigitsValueOfNatToString(n / 10);
      var s := NatToString(n);
      assert s[..|s| - 1] == NatToString(n / 10);
    }
  }

  /** Python's `a < b` on strings: code-point lexicographic order. */
  predicate Less(a: string, b: string)
    decreases |a|
  {
    if a == [] then b != []
    else if b == [] then false
    else if a[0] != b[0] then a[0] < b[0]
    else Less(a[1..], b[1..])
  }

  /** `a <= b` on strings. */
  predicate LessEq(a: string, b: string)
  {
    a == b || Less(a, b)
  }

  /** Strings that differ in their first character are ordered by it. */
  lemma LessByFirst(a: string, b: string)
    requires a != [] && b != [] && a[0] != b[0]
    ensures Less(a, b) <==> a[0] < b[0]
  {
  }

  lemma {:induction false} LessIrreflexive(a: string)
    ensures !Less(a, a)
    decreases |a|
  {
    if a != [] {
      LessIrreflexive(a[1..]);
    }
  }

  lemma {:induction false} LessTrichotomy(a: string, b: string)
    ensures Less(a, b) || a == b || Less(b, a)
    decreases |a|
  {
    if a != [] && b != [] && a[0] == b[0] {
      LessTrichotomy(a[1..], b[1..]);
      if a[1..] == b[1..] {
        assert a == [a[0]] + a[1..] && b == [b[0]] + b[1..];
      }
    }
  }

  lemma {:induction false} LessTransitive(a: string, b: string, c: string)
    requires Less(a, b) && Less(b, c)
    ensures Less(a, c)
    decreases |a|
  {
    if a != [] && a[0] == b[0] && b[0] == c[0] {
      LessTransitive(a[1..], b[1..], c[1..]);
    }
  }

  lemma LessEqTotal(a: string, b: string)
    ensures LessEq(a, b) || LessEq(b, a)
  {
    LessTrichotomy(a, b);
  }

  lemma LessEqTransitive(a: string, b: string, c: string)
    requires LessEq(a, b) && LessEq(b, c)
    ensures LessEq(a, c)
  {
    if a != b && b != c {
      LessTransitive(a, b, c);
    }
  }
}
