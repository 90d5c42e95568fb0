/**
 * Python's `sorted`/`list.sort`: a stable sort under a total preorder, written as insertion
 * sort. Elements the preorder ranks equal keep their input order.
 */
module Sorting {
  ghost predicate TotalPreorder<T(!new)>(le: (T, T) -> bool)
  {
    (forall a, b :: le(a, b) || le(b, a))
    && (forall a, b, c :: le(a, b) && le(b, c) ==> le(a, c))
  }

  ghost predicate Sorted<T>(s: seq<T>, le: (T, T) -> bool)
  {
    forall i, j :: 0 <= i < j < |s| ==> le(s[i], s[j])
  }

  lemma AppendAssoc<T>(a: seq<T>, b: seq<T>, c: seq<T>)
    ensures (a + b) + c == a + (b + c)
  {
  }

  lemma SliceOfSlice<T>(s: seq<T>, a: nat, b: nat, c: nat, d: nat)
    requires a <= b <= |s| && c <= d <= b - a
    ensures s[a..b][c..d] == s[a + c..a + d]
  {
    var u := s[a..b];
    forall k | 0 <= k < d - c ensures u[c..d][k] == s[a + c..a + d][k] {
      assert u[c..d][k] == u[c + k] == s[a + c + k];
    }
  }

  /** A prefix one longer is the prefix and the next element. */
  lemma PrefixSnoc<T>(s: seq<T>, i: nat)
    requires i < |s|
    ensures s[..i + 1] == s[..i] + [s[i]]
  {
  }

  /** A prefix one longer ends with the next element after the shorter prefix. */
  lemma PrefixPrefix<T>(s: seq<T>, i: nat)
    requires i < |s|
    ensures s[..i + 1][..i] == s[..i] && s[..i + 1][i] == s[i] && |s[..i + 1]| == i + 1
  {
  }

  /** A sequence is its own longest prefix. */
  lemma PrefixAll<T>(s: seq<T>)
    ensures s[..|s|] == s
  {
  }

  /** A non-empty sequence is its front and its last element. */
  lemma LastSplit<T>(s: seq<T>)
    requires s != []
    ensures s == s[..|s| - 1] + [s[|s| - 1]]
  {
  }

  /** `[f(x) for x in s]` */
  function MapSeq<S, T>(s: seq<S>, f: S -> T): (r: seq<T>)
    ensures |r| == |s| && forall i :: 0 <= i < |s| ==> r[i] == f(s[i])
  {
    seq(|s|, i requires 0 <= i < |s| => f(s[i]))
  }

  /** Mapping a prefix one longer maps one more element. */
  lemma MapSnoc<S, T>(s: seq<S>, f: S -> T, i: nat)
    requires i < |s|
    ensures MapSeq(s[..i + 1], f) == MapSeq(s[..i], f) + [f(s[i])]
  {
  }

  /** Mapping a sequence with one more element in front maps that element first. */
  lemma MapCons<S, T>(x: S, s: seq<S>, f: S -> T)
    ensures MapSeq([x] + s, f) == [f(x)] + MapSeq(s, f)
  {
    var r, r' := MapSeq([x] + s, f), [f(x)] + MapSeq(s, f);
    forall i | 0 <= i < |r|
      ensures r[i] == r'[i]
    {
      if i > 0 {
        assert ([x] + s)[i] == s[i - 1];
      }
    }
  }

  /** The elements of `s` satisfying `p`, in order. */
  function Filter<T>(s: seq<T>, p: T -> bool): (r: seq<T>)
    ensures |r| <= |s|
  {
    if s == [] then []
    else Filter(s[..|s| - 1], p) + (if p(s[|s| - 1]) then [s[|s| - 1]] else [])
  }

  /** `Filter` keeps exactly the elements satisfying `p`. */
  lemma {:induction false} FilterMembers<T>(s: seq<T>, p: T -> bool)
    ensures forall x :: x in Filter(s, p) <==> x in s && p(x)
    decreases |s|
  {
    if s != [] {
      FilterMembers(s[..|s| - 1], p);
      assert s == s[..|s| - 1] + [s[|s| - 1]];
    }
  }

  /** A filter that drops nothing is the identity. */
  lemma {:induction false} FilterFull<T>(s: seq<T>, p: T -> bool)
    requires |Filter(s, p)| == |s|
    ensures Filter(s, p) == s
    decreases |s|
  {
    if s != [] {
      var init := s[..|s| - 1];
      assert |Filter(init, p)| <= |init|;
      FilterFull(init, p);
      LastSplit(s);
    }
  }

  /** A filter every element passes is the identity. */
  lemma {:induction false} FilterKeepsAll<T>(s: seq<T>, p: T -> bool)
    requires forall i :: 0 <= i < |s| ==> p(s[i])
    ensures Filter(s, p) == s
    decreases |s|
  {
    if s != [] {
      FilterKeepsAll(s[..|s| - 1], p);
      LastSplit(s);
    }
  }

  lemma {:induction false} FilterAppend<T>(a: seq<T>, b: seq<T>, p: T -> bool)
    ensures Filter(a + b, p) == Filter(a, p) + Filter(b, p)
    decreases |b|
  {
    if b != [] {
      assert (a + b)[..|a + b| - 1] == a + b[..|b| - 1];
      FilterAppend(a, b[..|b| - 1], p);
    } else {
      assert a + b == a;
    }
  }

  lemma FilterSingle<T>(x: T, p: T -> bool)
    ensures Filter([x], p) == if p(x) then [x] else []
  {
    assert [x][..0] == [];
  }

  /** Membership in a concatenation of optional singletons. */
  lemma InOptionals<T>(a: bool, x1: T, b: bool, x2: T, c: bool, x3: T, d: bool, x4: T, e: bool, x5: T, w: T)
    ensures w in (if a then [x1] else []) + (if b then [x2] else []) + (if c then [x3] else []) + (if d then [x4] else []) + (if e then [x5] else [])
      <==> (a && w == x1) || (b && w == x2) || (c && w == x3) || (d && w == x4) || (e && w == x5)
  {
  }

  /** Filtering three elements keeps those that satisfy `p`, in order. */
  lemma FilterThree<T>(x: T, y: T, z: T, p: T -> bool)
    ensures Filter([x, y, z], p) == (if p(x) then [x] else []) + (if p(y) then [y] else []) + (if p(z) then [z] else [])
  {
    assert [x, y, z] == [x] + [y] + [z];
    FilterAppend([x] + [y], [z], p);
    FilterAppend([x], [y], p);
    FilterSingle(x, p);
    FilterSingle(y, p);
    FilterSingle(z, p);
  }

  /** Places `x` after every element of `t` that `le` ranks at or below it. */
  function Insert<T>(t: seq<T>, x: T, le: (T, T) -> bool): (r: seq<T>)
    ensures |r| == |t| + 1
  {
    if t == [] then [x]
    else if le(t[|t| - 1], x) then t + [x]
    else Insert(t[..|t| - 1], x, le) + [t[|t| - 1]]
  }

  lemma {:induction false} InsertPermutes<T>(t: seq<T>, x: T, le: (T, T) -> bool)
    ensures multiset(Insert(t, x, le)) == multiset(t) + multiset{x}
    decreases |t|
  {
    if t != [] && !le(t[|t| - 1], x) {
      InsertPermutes(t[..|t| - 1], x, le);
      assert t == t[..|t| - 1] + [t[|t| - 1]];
    }
  }

  /** `sorted(s, key=...)`: insertion sort from the front of the input. */
  function SortBy<T>(s: seq<T>, le: (T, T) -> bool): (r: seq<T>)
    ensures |r| == |s|
  {
    if s == [] then [] else Insert(SortBy(s[..|s| - 1], le), s[|s| - 1], le)
  }

  /** The sort is a permutation of its input. */
  lemma {:induction false} SortByPermutes<T>(s: seq<T>, le: (T, T) -> bool)
    ensures multiset(SortBy(s, le)) == multiset(s)
    decreases |s|
  {
    if s != [] {
      SortByPermutes(s[..|s| - 1], le);
      InsertPermutes(SortBy(s[..|s| - 1], le), s[|s| - 1], le);
      assert s == s[..|s| - 1] + [s[|s| - 1]];
    }
  }

  lemma {:induction false} InsertSorted<T(!new)>(t: seq<T>, x: T, le: (T, T) -> bool)
    requires TotalPreorder(le) && Sorted(t, le)
    ensures Sorted(Insert(t, x, le), le)
    decreases |t|
  {
    if t != [] && !le(t[|t| - 1], x) {
      var init := t[..|t| - 1];
      var last := t[|t| - 1];
      InsertSorted(init, x, le);
      var u := Insert(init, x, le);
      InsertPermutes(init, x, le);
      forall y | y in u ensures le(y, last) {
        assert y in multiset(u);
        if y == x {
        } else {
          assert y in multiset(init);
          assert y in init;
          var i :| 0 <= i < |init| && init[i] == y;
          assert t[i] == y;
        }
      }
      SortedSnoc(u, last, le);
    }
  }

  /** Appending an element ranked after every element keeps a sequence sorted. */
  lemma SortedSnoc<T>(u: seq<T>, last: T, le: (T, T) -> bool)
    requires Sorted(u, le) && forall y <- u :: le(y, last)
    ensures Sorted(u + [last], le)
  {
    var r := u + [last];
    forall i, j | 0 <= i < j < |r| ensures le(r[i], r[j]) {
      if j == |r| - 1 {
        assert r[i] in u;
      } else {
        assert r[i] == u[i] && r[j] == u[j];
      }
    }
  }

  lemma {:induction false} SortBySorted<T(!new)>(s: seq<T>, le: (T, T) -> bool)
    requires TotalPreorder(le)
    ensures Sorted(SortBy(s, le), le)
    decreases |s|
  {
    if s != [] {
      SortBySorted(s[..|s| - 1], le);
      InsertSorted(SortBy(s[..|s| - 1], le), s[|s| - 1], le);
    }
  }

  /** The preorder ranks `x` and `y` equal. */
  ghost predicate Equiv<T>(le: (T, T) -> bool, x: T, y: T)
  {
    le(x, y) && le(y, x)
  }

  /** An element ranked after something equivalent to `e` is not itself equivalent to `e`. */
  lemma EquivBlocks<T(!new)>(le: (T, T) -> bool, e: T, x: T, y: T)
    requires TotalPreorder(le) && Equiv(le, e, x) && !le(y, x)
    ensures !Equiv(le, e, y)
  {
  }

  /** Inserting `x` keeps the order of the elements `p` selects, when `p` selects nothing that `x` must stay before. */
  lemma {:induction false} InsertStable<T>(t: seq<T>, x: T, le: (T, T) -> bool, p: T -> bool)
    requires p(x) ==> forall y :: !le(y, x) ==> !p(y)
    ensures Filter(Insert(t, x, le), p) == Filter(t, p) + (if p(x) then [x] else [])
    decreases |t|
  {
    FilterSingle(x, p);
    if t == [] {
    } else if le(t[|t| - 1], x) {
      FilterAppend(t, [x], p);
    } else {
      InsertStable(t[..|t| - 1], x, le, p);
      InsertPastLast(t, x, le, p);
    }
  }

  /** The step of `InsertStable` where `x` goes before the last element. */
  lemma InsertPastLast<T>(t: seq<T>, x: T, le: (T, T) -> bool, p: T -> bool)
    requires t != [] && !le(t[|t| - 1], x)
    requires p(x) ==> forall y :: !le(y, x) ==> !p(y)
    requires Filter(Insert(t[..|t| - 1], x, le), p) == Filter(t[..|t| - 1], p) + (if p(x) then [x] else [])
    ensures Filter(Insert(t, x, le), p) == Filter(t, p) + (if p(x) then [x] else [])
  {
    var init, last := t[..|t| - 1], t[|t| - 1];
    var px, pl := Filter([x], p), Filter([last], p);
    FilterSingle(x, p);
    FilterSingle(last, p);
    assert Filter(Insert(t, x, le), p) == Filter(init, p) + px + pl by {
      FilterAppend(Insert(init, x, le), [last], p);
    }
    assert Filter(t, p) == Filter(init, p) + pl by {
      LastSplit(t);
      FilterAppend(init, [last], p);
    }
    SwapEmpty(Filter(init, p), px, pl);
  }

  /** Two pieces of which one is empty can be appended in either order. */
  lemma SwapEmpty<T>(a: seq<T>, b: seq<T>, c: seq<T>)
    requires b == [] || c == []
    ensures a + b + c == a + c + b
  {
    if b == [] {
      assert a + b == a && a + c + b == a + c;
    } else {
      assert a + b + c == a + b && a + c == a;
    }
  }

  /**
   * Stability: for every element `e`, the elements the preorder ranks equal to `e`
   * appear in the output in the same order as in the input.
   */
  lemma {:induction false} SortByStable<T(!new)>(s: seq<T>, le: (T, T) -> bool, e: T, p: T -> bool)
    requires TotalPreorder(le)
    requires forall y :: p(y) == Equiv(le, e, y)
    ensures Filter(SortBy(s, le), p) == Filter(s, p)
    decreases |s|
  {
    if s != [] {
      var init := s[..|s| - 1];
      var x := s[|s| - 1];
      SortByStable(init, le, e, p);
      forall y | p(x) && !le(y, x) ensures !p(y) {
        EquivBlocks(le, e, x, y);
      }
      InsertStable(SortBy(init, le), x, le, p);
    }
  }
}
