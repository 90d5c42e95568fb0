/**
 * The spelling-variant machinery shared by `GedcomManager.generate_name_variants` and
 * `SearchProvider.generate_surname_variants`: a set of variants grown by applying
 * substitution pairs in both directions to the lower-cased surname, then returned as the
 * sorted list of their title-cased forms.
 */
module SurnameVariants {
  import opened Text
  import opened Sorting

  /** A Python `set` of strings, kept as a sequence without repetitions. */
  predicate Distinct(vs: seq<string>)
  {
    forall i, j :: 0 <= i < j < |vs| ==> vs[i] != vs[j]
  }

  /** `variants.add(v)` */
  function AddVariant(vs: seq<string>, v: string): (r: seq<string>)
    ensures Distinct(vs) ==> Distinct(r)
    ensures forall x :: x in r <==> x in vs || x == v
  {
    if v in vs then vs else vs + [v]
  }

  /** What one substitution pair `(old, new)` adds: `base` with `old` replaced when it occurs, and with `new` replaced back when that occurs. */
  function PairStep(vs: seq<string>, base: string, pair: (string, string)): seq<string>
    requires |pair.0| > 0 && |pair.1| > 0
  {
    var (o, n) := pair;
    var withOld := if Contains(base, o) then AddVariant(vs, ReplaceAll(base, o, n)) else vs;
    if Contains(base, n) then AddVariant(withOld, ReplaceAll(base, n, o)) else withOld
  }

  predicate NonEmptyPairs(pairs: seq<(string, string)>)
  {
    forall i :: 0 <= i < |pairs| ==> |pairs[i].0| > 0 && |pairs[i].1| > 0
  }

  /** The substitution loop over `pairs`, starting from the variants `vs`. */
  function ApplyPairs(vs: seq<string>, base: string, pairs: seq<(string, string)>): seq<string>
    requires NonEmptyPairs(pairs)
    decreases |pairs|
  {
    if pairs == [] then vs else ApplyPairs(PairStep(vs, base, pairs[0]), base, pairs[1..])
  }

  /** Reference definition: `v` is one of the strings some pair of `pairs` produces from `base`. */
  predicate PairVariant(v: string, base: string, pairs: seq<(string, string)>)
    requires NonEmptyPairs(pairs)
  {
    exists i :: 0 <= i < |pairs| && PairProduces(v, base, pairs[i])
  }

  predicate PairProduces(v: string, base: string, pair: (string, string))
    requires |pair.0| > 0 && |pair.1| > 0
  {
    (Contains(base, pair.0) && v == ReplaceAll(base, pair.0, pair.1))
    || (Contains(base, pair.1) && v == ReplaceAll(base, pair.1, pair.0))
  }

  lemma PairStepMembers(vs: seq<string>, base: string, pair: (string, string))
    requires |pair.0| > 0 && |pair.1| > 0
    ensures Distinct(vs) ==> Distinct(PairStep(vs, base, pair))
    ensures forall x :: x in PairStep(vs, base, pair) <==> x in vs || PairProduces(x, base, pair)
  {
  }

  /** The substitution loop keeps the set free of repetitions and adds exactly what the pairs produce. */
  lemma {:induction false} ApplyPairsMembers(vs: seq<string>, base: string, pairs: seq<(string, string)>)
    requires NonEmptyPairs(pairs)
    ensures Distinct(vs) ==> Distinct(ApplyPairs(vs, base, pairs))
    ensures forall x :: x in ApplyPairs(vs, base, pairs) <==> x in vs || PairVariant(x, base, pairs)
    decreases |pairs|
  {
    if pairs != [] {
      var next := PairStep(vs, base, pairs[0]);
      PairStepMembers(vs, base, pairs[0]);
      assert NonEmptyPairs(pairs[1..]) by {
        forall i | 0 <= i < |pairs[1..]| ensures |pairs[1..][i].0| > 0 && |pairs[1..][i].1| > 0 {
          assert pairs[1..][i] == pairs[i + 1];
        }
      }
      ApplyPairsMembers(next, base, pairs[1..]);
      forall x ensures PairVariant(x, base, pairs) <==> PairProduces(x, base, pairs[0]) || PairVariant(x, base, pairs[1..]) {
        if PairVariant(x, base, pairs) {
          var i :| 0 <= i < |pairs| && PairProduces(x, base, pairs[i]);
          if i > 0 {
            assert pairs[1..][i - 1] == pairs[i];
          }
        }
        if PairVariant(x, base, pairs[1..]) {
          var i :| 0 <= i < |pairs[1..]| && PairProduces(x, base, pairs[1..][i]);
          assert pairs[1..][i] == pairs[i + 1];
        }
      }
    }
  }

  /** `v.title() for v in variants` */
  function Titles(vs: seq<string>): (r: seq<string>)
    ensures |r| == |vs|
    ensures forall i :: 0 <= i < |vs| ==> r[i] == Title(vs[i])
  {
    seq(|vs|, i requires 0 <= i < |vs| => Title(vs[i]))
  }

  /** `<=` on strings is total and transitive, so `sorted` orders by it. */
  lemma StringOrder()
    ensures TotalPreorder(LessEq)
  {
    forall a, b ensures LessEq(a, b) || LessEq(b, a) {
      LessEqTotal(a, b);
    }
    forall a, b, c | LessEq(a, b) && LessEq(b, c) ensures LessEq(a, c) {
      LessEqTransitive(a, b, c);
    }
  }

  /** `sorted(v.title() for v in variants)` */
  function SortedTitles(vs: seq<string>): seq<string>
  {
    SortBy(Titles(vs), LessEq)
  }

  /** The result is sorted and holds the title-cased form of every variant, each as often as it arises. */
  lemma SortedTitlesShape(vs: seq<string>)
    ensures Sorted(SortedTitles(vs), LessEq)
    ensures multiset(SortedTitles(vs)) == multiset(Titles(vs))
    ensures forall v :: v in vs ==> Title(v) in SortedTitles(vs)
  {
    StringOrder();
    SortBySorted(Titles(vs), LessEq);
    SortByPermutes(Titles(vs), LessEq);
    forall v | v in vs ensures Title(v) in SortedTitles(vs) {
      var i :| 0 <= i < |vs| && vs[i] == v;
      assert Titles(vs)[i] == Title(v);
      assert Title(v) in multiset(Titles(vs));
    }
  }

  /** The substitution loop: each pair in both directions, in order. */
  method GrowByPairs(vs: seq<string>, base: string, pairs: seq<(string, string)>) returns (r: seq<string>)
    requires NonEmptyPairs(pairs)
    ensures r == ApplyPairs(vs, base, pairs)
  {
    r := vs;
    var i := 0;
    while i < |pairs|
      invariant 0 <= i <= |pairs|
      invariant NonEmptyPairs(pairs[i..])
      invariant ApplyPairs(r, base, pairs[i..]) == ApplyPairs(vs, base, pairs)
    {
      var (o, n) := pairs[i];
      assert pairs[i..][0] == pairs[i] && pairs[i..][1..] == pairs[i + 1..];
      if Contains(base, o) {
        r := AddVariant(r, ReplaceAll(base, o, n));
      }
      if Contains(base, n) {
        r := AddVariant(r, ReplaceAll(base, n, o));
      }
      i := i + 1;
    }
  }
}
