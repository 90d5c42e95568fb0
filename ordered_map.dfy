/** Python's insertion-ordered `dict` with string keys: assigning an existing key keeps its position. */
module OrderedMap {
  import opened Wrappers

  datatype OMap<V> = OMap(keys: seq<string>, m: map<string, V>)
  {
    /** Exactly the keys of the mapping are listed, each once. */
    ghost predicate Valid()
    {
      (forall i, j :: 0 <= i < j < |keys| ==> keys[i] != keys[j]) && forall k :: k in m <==> k in keys
    }

    /** Every listed key is mapped. */
    ghost predicate Listed()
    {
      forall i :: 0 <= i < |keys| ==> keys[i] in m
    }

    /** `d[k] = v` */
    function Put(k: string, v: V): (r: OMap<V>)
      ensures Valid() ==> r.Valid()
      ensures r.m == m[k := v]
      ensures k in keys ==> r.keys == keys
      ensures k !in keys ==> r.keys == keys + [k]
    {
      if k in keys then OMap(keys, m[k := v])
      else OMap(keys + [k], m[k := v])
    }

    /** `d.get(k)` */
    function Get(k: string): (r: Option<V>)
      ensures r.Some? <==> k in m
      ensures r.Some? ==> r.value == m[k]
    {
      if k in m then Some(m[k]) else None
    }

    /** `list(d.values())`, in key order. */
    function Values(): (r: seq<V>)
      requires Valid()
      ensures |r| == |keys|
      ensures forall i :: 0 <= i < |keys| ==> r[i] == m[keys[i]]
    {
      seq(|keys|, i requires 0 <= i < |keys| && Valid() => m[keys[i]])
    }

    /** `len(d)` */
    function Size(): (n: nat)
      requires Valid()
      ensures n == |m.Keys|
    {
      DistinctUnique(keys);
      UniqueCard(keys, m.Keys);
      |keys|
    }
  }

  function Empty<V>(): (r: OMap<V>)
    ensures r.Valid() && r.keys == [] && r.m == map[]
  {
    OMap([], map[])
  }

  /** No key is listed twice: the last one is not among the others, and so on down. */
  ghost predicate Unique(ks: seq<string>)
    decreases |ks|
  {
    |ks| == 0 || (ks[|ks| - 1] !in ks[..|ks| - 1] && Unique(ks[..|ks| - 1]))
  }

  /** Keys that are pairwise distinct are `Unique`. */
  lemma {:induction false} DistinctUnique(ks: seq<string>)
    requires forall i, j :: 0 <= i < j < |ks| ==> ks[i] != ks[j]
    ensures Unique(ks)
    decreases |ks|
  {
    if ks != [] {
      var init := ks[..|ks| - 1];
      DistinctUnique(init);
    }
  }

  /** A set listed by a sequence without repeats has as many elements as the sequence has entries. */
  lemma {:induction false} UniqueCard(ks: seq<string>, s: set<string>)
    requires Unique(ks)
    requires forall k :: k in s <==> k in ks
    ensures |s| == |ks|
    decreases |ks|
  {
    if ks != [] {
      var last := ks[|ks| - 1];
      var init := ks[..|ks| - 1];
      forall k ensures k in s - {last} <==> k in init {
        if k in ks && k != last {
          var i :| 0 <= i < |ks| && ks[i] == k;
          assert init[i] == k;
        }
      }
      UniqueCard(init, s - {last});
    }
  }
}
