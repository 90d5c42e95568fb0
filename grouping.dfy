/**
 * Grouping a list into an insertion-ordered dictionary of lists by a string key, as
 * `d.setdefault(key(x), []).append(x)` or `if k not in d: d[k] = []; d[k].append(x)` does,
 * and picking the largest group as `max(d, key=lambda k: len(d[k]))` does.
 */
module Grouping {
  import opened OrderedMap
  import opened Sorting

  /** Whether an element's key is `k`. */
  function SameKey<T>(key: T -> string, k: string): T -> bool
  {
    x => key(x) == k
  }

  /** The elements grouped by key, groups in order of first appearance. */
  function Grouped<T>(xs: seq<T>, key: T -> string): (g: OMap<seq<T>>)
    ensures g.Valid()
    ensures xs != [] ==> g.keys != []
    decreases |xs|
  {
    if xs == [] then Empty()
    else
      var g := Grouped(xs[..|xs| - 1], key);
      var x := xs[|xs| - 1];
      var k := key(x);
      if k in g.m then g.Put(k, g.m[k] + [x]) else g.Put(k, [x])
  }

  /** Each group holds exactly the elements with its key, in input order; no other key has elements. */
  lemma {:induction false} GroupedFilter<T>(xs: seq<T>, key: T -> string, k: string)
    ensures k in Grouped(xs, key).m ==> Grouped(xs, key).m[k] == Filter(xs, SameKey(key, k)) && Grouped(xs, key).m[k] != []
    ensures k !in Grouped(xs, key).m ==> Filter(xs, SameKey(key, k)) == []
    decreases |xs|
  {
    if xs != [] {
      GroupedFilter(xs[..|xs| - 1], key, k);
    }
  }

  /** The groups one after another, in key order. */
  function Flatten<T>(keys: seq<string>, m: map<string, seq<T>>): seq<T>
    requires forall k <- keys :: k in m
  {
    if keys == [] then [] else Flatten(keys[..|keys| - 1], m) + m[keys[|keys| - 1]]
  }

  /** The groups other than `best`'s, in key order. */
  function Others<T>(keys: seq<string>, m: map<string, seq<T>>, best: string): seq<T>
    requires forall k <- keys :: k in m
  {
    if keys == [] then []
    else Others(keys[..|keys| - 1], m, best) + (if keys[|keys| - 1] != best then m[keys[|keys| - 1]] else [])
  }

  ghost predicate Distinct(keys: seq<string>)
  {
    forall i, j :: 0 <= i < j < |keys| ==> keys[i] != keys[j]
  }

  /** Flattening reads only the listed groups. */
  lemma {:induction false} FlattenSame<T>(keys: seq<string>, m: map<string, seq<T>>, m': map<string, seq<T>>)
    requires forall x <- keys :: x in m && x in m' && m[x] == m'[x]
    ensures Flatten(keys, m) == Flatten(keys, m')
    decreases |keys|
  {
    if keys != [] {
      FlattenSame(keys[..|keys| - 1], m, m');
    }
  }

  /** Adding an element to one listed group adds it once to the flattened groups. */
  lemma {:induction false} FlattenUpdate<T>(keys: seq<string>, m: map<string, seq<T>>, k: string, x: T)
    requires forall y <- keys :: y in m
    requires Distinct(keys) && k in keys
    ensures multiset(Flatten(keys, m[k := m[k] + [x]])) == multiset(Flatten(keys, m)) + multiset{x}
    decreases |keys|
  {
    var init, last := keys[..|keys| - 1], keys[|keys| - 1];
    var m' := m[k := m[k] + [x]];
    if last == k {
      assert k !in init;
      FlattenSame(init, m, m');
    } else {
      assert k in init by { assert k in keys; }
      FlattenUpdate(init, m, k, x);
    }
  }

  /** The groups together are a permutation of the input. */
  lemma {:induction false} GroupedPermutes<T>(xs: seq<T>, key: T -> string)
    ensures multiset(Flatten(Grouped(xs, key).keys, Grouped(xs, key).m)) == multiset(xs)
    decreases |xs|
  {
    if xs != [] {
      var init, x := xs[..|xs| - 1], xs[|xs| - 1];
      var g := Grouped(init, key);
      var k := key(x);
      var g' := Grouped(xs, key);
      GroupedPermutes(init, key);
      LastSplit(xs);
      if k in g.keys {
        assert k in g.m;
        assert g'.keys == g.keys && g'.m == g.m[k := g.m[k] + [x]];
        FlattenUpdate(g.keys, g.m, k, x);
      } else {
        assert k !in g.m;
        assert g'.keys == g.keys + [k] && g'.m == g.m[k := [x]];
        assert g'.keys[..|g'.keys| - 1] == g.keys;
        FlattenSame(g.keys, g.m, g'.m);
        assert Flatten(g'.keys, g'.m) == Flatten(g.keys, g.m) + [x];
      }
    }
  }

  /** With `best` not listed, the other groups are all the groups. */
  lemma {:induction false} OthersWithout<T>(keys: seq<string>, m: map<string, seq<T>>, best: string)
    requires forall x <- keys :: x in m
    requires best !in keys
    ensures Others(keys, m, best) == Flatten(keys, m)
    decreases |keys|
  {
    if keys != [] {
      OthersWithout(keys[..|keys| - 1], m, best);
    }
  }

  /** The groups other than `best`'s, with `best`'s, are all the groups. */
  lemma {:induction false} OthersAndBest<T>(keys: seq<string>, m: map<string, seq<T>>, best: string)
    requires forall x <- keys :: x in m
    requires Distinct(keys) && best in keys
    ensures multiset(Others(keys, m, best)) + multiset(m[best]) == multiset(Flatten(keys, m))
    decreases |keys|
  {
    var init, last := keys[..|keys| - 1], keys[|keys| - 1];
    if last == best {
      assert best !in init;
      OthersWithout(init, m, best);
    } else {
      assert best in init by { assert best in keys; }
      OthersAndBest(init, m, best);
    }
  }

  /** Every element among the other groups comes from a listed group that is not `best`'s. */
  lemma {:induction false} OthersFrom<T>(keys: seq<string>, m: map<string, seq<T>>, best: string, x: T)
    requires forall y <- keys :: y in m
    requires x in Others(keys, m, best)
    ensures exists i :: 0 <= i < |keys| && keys[i] != best && x in m[keys[i]]
    decreases |keys|
  {
    var init := keys[..|keys| - 1];
    if x in Others(init, m, best) {
      OthersFrom(init, m, best, x);
      var i :| 0 <= i < |init| && init[i] != best && x in m[init[i]];
      assert keys[i] == init[i];
    } else {
      assert keys[|keys| - 1] != best && x in m[keys[|keys| - 1]];
    }
  }

  /** `max(d, key=lambda k: len(d[k]))`: the first of the largest groups. */
  function BestIndex<T>(keys: seq<string>, m: map<string, seq<T>>): (b: nat)
    requires |keys| > 0 && forall k <- keys :: k in m
    ensures b < |keys|
    ensures forall j :: 0 <= j < |keys| ==> |m[keys[j]]| <= |m[keys[b]]|
    ensures forall j :: 0 <= j < b ==> |m[keys[j]]| < |m[keys[b]]|
    decreases |keys|
  {
    if |keys| == 1 then 0
    else
      var init := keys[..|keys| - 1];
      var b := BestIndex(init, m);
      assert forall j :: 0 <= j < |init| ==> keys[j] == init[j];
      if |m[keys[|keys| - 1]]| > |m[keys[b]]| then |keys| - 1 else b
  }

  /** The key of the largest group, the first of them on a tie. */
  function Leading<T>(xs: seq<T>, key: T -> string): string
    requires xs != []
  {
    var g := Grouped(xs, key);
    g.keys[BestIndex(g.keys, g.m)]
  }

  /** A grouped key is the key of some element. */
  lemma {:induction false} GroupedSaid<T>(xs: seq<T>, key: T -> string, k: string)
    requires k in Grouped(xs, key).m
    ensures exists j :: 0 <= j < |xs| && key(xs[j]) == k
    decreases |xs|
  {
    var n := |xs| - 1;
    if key(xs[n]) != k {
      var init := xs[..n];
      GroupedSaid(init, key, k);
      var j :| 0 <= j < |init| && key(init[j]) == k;
      assert xs[j] == init[j];
    }
  }

  /** Every key listed before the key of `xs[i]` is the key of an element at or before `i`. */
  lemma {:induction false} EarlierKeysFirst<T>(xs: seq<T>, key: T -> string, i: nat, a: nat, a': nat)
    requires i < |xs|
    requires a < |Grouped(xs, key).keys| && Grouped(xs, key).keys[a] == key(xs[i]) && a' < a
    ensures exists j :: 0 <= j <= i && key(xs[j]) == Grouped(xs, key).keys[a']
    decreases |xs|
  {
    var init := xs[..|xs| - 1];
    var g, g' := Grouped(init, key), Grouped(xs, key);
    var k := key(xs[|xs| - 1]);
    assert g'.keys == g.keys || g'.keys == g.keys + [k];
    assert forall y :: 0 <= y < |g.keys| ==> g'.keys[y] == g.keys[y];
    if i < |xs| - 1 {
      assert xs[i] == init[i];
      assert key(xs[i]) in g.m by {
        GroupedFilter(init, key, key(xs[i]));
        FilterMembers(init, SameKey(key, key(xs[i])));
        assert init[i] in init;
      }
      var b :| 0 <= b < |g.keys| && g.keys[b] == key(xs[i]);
      assert b == a;
      EarlierKeysFirst(init, key, i, a, a');
      var j :| 0 <= j <= i && key(init[j]) == g.keys[a'];
      assert xs[j] == init[j];
    } else {
      assert a' < |g.keys| && g'.keys[a'] == g.keys[a'];
      assert g.keys[a'] in g.m;
      GroupedSaid(init, key, g.keys[a']);
      var j :| 0 <= j < |init| && key(init[j]) == g.keys[a'];
      assert xs[j] == init[j];
    }
  }

  /** An element among the other groups does not have key `best`. */
  lemma OthersKeyDiffers<T>(xs: seq<T>, key: T -> string, best: string, y: T)
    requires y in Others(Grouped(xs, key).keys, Grouped(xs, key).m, best)
    ensures key(y) != best
  {
    var g := Grouped(xs, key);
    OthersFrom(g.keys, g.m, best, y);
    var i :| 0 <= i < |g.keys| && g.keys[i] != best && y in g.m[g.keys[i]];
    GroupedFilter(xs, key, g.keys[i]);
    FilterMembers(xs, SameKey(key, g.keys[i]));
  }

  /** With a single group, that group is the whole input. */
  lemma SingleGroup<T>(xs: seq<T>, key: T -> string)
    requires |Grouped(xs, key).keys| == 1
    ensures Grouped(xs, key).m[Grouped(xs, key).keys[0]] == xs
    ensures Filter(xs, SameKey(key, Grouped(xs, key).keys[0])) == xs
  {
    var g := Grouped(xs, key);
    GroupedFilter(xs, key, g.keys[0]);
    GroupedPermutes(xs, key);
    OnlyGroupLength(xs, g.keys, g.m);
    FilterFull(xs, SameKey(key, g.keys[0]));
  }

  /** When the only key's group permutes the input, it is as long as the input. */
  lemma OnlyGroupLength<T>(xs: seq<T>, keys: seq<string>, m: map<string, seq<T>>)
    requires |keys| == 1 && keys[0] in m
    requires multiset(Flatten(keys, m)) == multiset(xs)
    ensures |m[keys[0]]| == |xs|
  {
    assert Flatten(keys, m) == m[keys[0]] by { assert keys[..0] == []; }
    assert |multiset(m[keys[0]])| == |multiset(xs)|;
  }

  /** One group and the others together are a permutation of the input. */
  lemma GroupAndOthers<T>(xs: seq<T>, key: T -> string, best: string)
    requires best in Grouped(xs, key).m
    ensures var g := Grouped(xs, key);
      multiset(g.m[best]) + multiset(Others(g.keys, g.m, best)) == multiset(xs)
  {
    var g := Grouped(xs, key);
    GroupedPermutes(xs, key);
    OthersAndBest(g.keys, g.m, best);
  }
}
