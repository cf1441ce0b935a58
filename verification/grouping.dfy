/** The collection vocabulary of the route handlers: `filter`, grouping a list by a key
    into a dictionary whose entries appear in first-seen order, and counting. */
module Grouping {

  predicate NoDuplicates<K(==)>(s: seq<K>) {
    forall i, j :: 0 <= i < j < |s| ==> s[i] != s[j]
  }

  /** `s.filter(p)`: the elements of `s` that satisfy `p`, in their order. */
  function Filter<T(!new)>(s: seq<T>, p: T -> bool): (r: seq<T>)
    ensures |r| <= |s|
    ensures forall x :: x in r <==> x in s && p(x)
  {
    if s == [] then []
    else Filter(s[..|s| - 1], p) + (if p(s[|s| - 1]) then [s[|s| - 1]] else [])
  }

  /** Filtering distributes over concatenation, so it keeps the relative order of what it keeps. */
  lemma {:induction false} FilterAppend<T(!new)>(a: seq<T>, b: seq<T>, p: T -> bool)
    ensures Filter(a + b, p) == Filter(a, p) + Filter(b, p)
    decreases |b|
  {
    if b == [] {
      assert a + b == a;
    } else {
      var b' := b[..|b| - 1];
      assert (a + b)[..|a + b| - 1] == a + b';
      FilterAppend(a, b', p);
    }
  }

  /** Filtering a list without repeated elements gives a list without repeated elements. */
  lemma {:induction false} FilterNoDuplicates<T(!new)>(s: seq<T>, p: T -> bool)
    requires NoDuplicates(s)
    ensures NoDuplicates(Filter(s, p))
  {
    if s != [] {
      var init, last := s[..|s| - 1], s[|s| - 1];
      assert NoDuplicates(init);
      FilterNoDuplicates(init, p);
      assert last !in init;
    }
  }

  /** The list in the opposite order: a newest-first view of a list kept oldest first. */
  function Reverse<T>(s: seq<T>): (r: seq<T>)
    ensures |r| == |s| && forall i :: 0 <= i < |s| ==> r[i] == s[|s| - 1 - i]
  {
    seq(|s|, i requires 0 <= i < |s| => s[|s| - 1 - i])
  }

  /** Reversing keeps the elements. */
  lemma ReverseSameElements<T>(s: seq<T>)
    ensures forall x :: x in Reverse(s) <==> x in s
  {
    var r := Reverse(s);
    forall x | x in s ensures x in r {
      var i :| 0 <= i < |s| && s[i] == x;
      assert r[|s| - 1 - i] == x;
    }
  }

  /** `s.map(key)`: the key of every element. */
  function Keys<T, K>(s: seq<T>, key: T -> K): (r: seq<K>)
    ensures |r| == |s|
    ensures forall i :: 0 <= i < |s| ==> r[i] == key(s[i])
  {
    if s == [] then [] else Keys(s[..|s| - 1], key) + [key(s[|s| - 1])]
  }

  /** How many times `k` occurs in `ks`. */
  function CountOf<K(==)>(ks: seq<K>, k: K): (n: nat)
    ensures n <= |ks|
    ensures n == 0 <==> k !in ks
  {
    if ks == [] then 0
    else CountOf(ks[..|ks| - 1], k) + (if ks[|ks| - 1] == k then 1 else 0)
  }

  lemma CountOfSnoc<K>(ks: seq<K>, x: K, k: K)
    ensures CountOf(ks + [x], k) == CountOf(ks, k) + if x == k then 1 else 0
  {
    assert (ks + [x])[..|ks|] == ks;
  }

  /** A key occurs at most once in a list without duplicates. */
  lemma {:induction false} CountOfNoDuplicates<K>(ks: seq<K>, k: K)
    requires NoDuplicates(ks)
    ensures CountOf(ks, k) == if k in ks then 1 else 0
  {
    if ks != [] {
      var p := ks[..|ks| - 1];
      CountOfNoDuplicates(p, k);
      assert ks[|ks| - 1] == k ==> k !in p;
      assert k in ks <==> k in p || ks[|ks| - 1] == k;
    }
  }

  /** The elements of `s` whose key is `k`, in their order: one group of a grouping by `key`. */
  function Select<T(!new), K(==)>(s: seq<T>, key: T -> K, k: K): (r: seq<T>)
    ensures |r| == CountOf(Keys(s, key), k)
    ensures forall x :: x in r <==> x in s && key(x) == k
  {
    if s == [] then []
    else
      var p, x := s[..|s| - 1], s[|s| - 1];
      CountOfSnoc(Keys(p, key), key(x), k);
      assert s == p + [x];
      Select(p, key, k) + (if key(x) == k then [x] else [])
  }

  /** Growing a list by one element grows each of its groups by at most that element. */
  lemma SelectSnoc<T(!new), K>(s: seq<T>, x: T, key: T -> K, k: K)
    ensures Select(s + [x], key, k) == Select(s, key, k) + if key(x) == k then [x] else []
  {
    assert (s + [x])[..|s|] == s;
  }

  lemma FilterSnoc<T(!new)>(s: seq<T>, x: T, p: T -> bool)
    ensures Filter(s + [x], p) == Filter(s, p) + if p(x) then [x] else []
  {
    assert (s + [x])[..|s|] == s;
  }

  /** Filtering a group is grouping the filtered list: the two commute. */
  lemma {:induction false} FilterSelect<T(!new), K>(s: seq<T>, p: T -> bool, key: T -> K, k: K)
    ensures Filter(Select(s, key, k), p) == Select(Filter(s, p), key, k)
  {
    if s != [] {
      var q, x := s[..|s| - 1], s[|s| - 1];
      assert s == q + [x];
      FilterSelect(q, p, key, k);
      var group, kept := Select(q, key, k), Filter(q, p);
      SelectSnoc(q, x, key, k);
      FilterSnoc(q, x, p);
      if key(x) == k {
        assert Select(s, key, k) == group + [x];
        FilterSnoc(group, x, p);
      } else {
        assert Select(s, key, k) == group;
      }
      if p(x) {
        SelectSnoc(kept, x, key, k);
        assert Select(Filter(s, p), key, k) == Select(kept, key, k) + if key(x) == k then [x] else [];
      } else {
        assert Filter(s, p) == kept;
      }
    }
  }

  lemma PrefixSnoc<T>(s: seq<T>, k: nat)
    requires k < |s|
    ensures s[..k + 1] == s[..k] + [s[k]]
  {
  }

  lemma KeysSnoc<T, K>(s: seq<T>, x: T, key: T -> K)
    ensures Keys(s + [x], key) == Keys(s, key) + [key(x)]
  {
    assert (s + [x])[..|s|] == s;
  }

  /** The distinct keys of `ks`, in order of first appearance: the key order of a
      JavaScript object filled by walking `ks` (for keys that are not array indices). */
  function Distinct<K(==,!new)>(ks: seq<K>): (r: seq<K>)
    ensures forall k :: k in r <==> k in ks
    ensures NoDuplicates(r)
  {
    if ks == [] then []
    else
      var d := Distinct(ks[..|ks| - 1]);
      var k := ks[|ks| - 1];
      assert forall x :: x in ks <==> x in ks[..|ks| - 1] || x == k;
      if k in d then d else d + [k]
  }

  /** The key of an element is among the keys of a list holding it. */
  lemma KeyIn<T, K>(s: seq<T>, x: T, key: T -> K)
    requires x in s
    ensures key(x) in Keys(s, key)
  {
    var i :| 0 <= i < |s| && s[i] == x;
    assert Keys(s, key)[i] == key(x);
  }

  /** The first-appearance order after one more element, as a dictionary filled in a loop
      extends it: the element's key is appended unless it is already there. */
  lemma FirstSeenStep<T, K(!new)>(order: seq<K>, afterOrder: seq<K>, seen: seq<T>, x: T, key: T -> K)
    requires order == Distinct(Keys(seen, key))
    requires afterOrder == if key(x) in order then order else order + [key(x)]
    ensures afterOrder == Distinct(Keys(seen + [x], key))
    ensures forall k :: k in afterOrder <==> k in order || k == key(x)
  {
    KeysSnoc(seen, x, key);
    DistinctSnoc(Keys(seen, key), key(x));
  }

  /** Walking one more key adds it at the end, unless it was seen before. */
  lemma DistinctSnoc<K(!new)>(ks: seq<K>, x: K)
    ensures Distinct(ks + [x]) == if x in ks then Distinct(ks) else Distinct(ks) + [x]
  {
    assert (ks + [x])[..|ks|] == ks;
  }

  /** Sum over `keys` of the number of occurrences of each in `ks`: the sizes of the groups
      named by `keys`, added up. */
  function SumCounts<K(==)>(ks: seq<K>, keys: seq<K>): nat {
    if keys == [] then 0
    else SumCounts(ks, keys[..|keys| - 1]) + CountOf(ks, keys[|keys| - 1])
  }

  /** How many elements of `ks` are among `keys`. */
  function CountIn<K(==)>(ks: seq<K>, keys: seq<K>): (n: nat)
    ensures n <= |ks|
  {
    if ks == [] then 0
    else CountIn(ks[..|ks| - 1], keys) + (if ks[|ks| - 1] in keys then 1 else 0)
  }

  lemma {:induction false} SumCountsSnoc<K>(ks: seq<K>, x: K, keys: seq<K>)
    ensures SumCounts(ks + [x], keys) == SumCounts(ks, keys) + CountOf(keys, x)
  {
    assert (ks + [x])[..|ks + [x]| - 1] == ks;
    if keys != [] {
      SumCountsSnoc(ks, x, keys[..|keys| - 1]);
    }
  }

  /** The groups named by distinct `keys` hold exactly the elements whose key is among them. */
  lemma {:induction false} SumCountsIsCountIn<K>(ks: seq<K>, keys: seq<K>)
    requires NoDuplicates(keys)
    ensures SumCounts(ks, keys) == CountIn(ks, keys)
  {
    if ks == [] {
      SumCountsEmpty(keys);
    } else {
      var p, x := ks[..|ks| - 1], ks[|ks| - 1];
      assert ks == p + [x];
      SumCountsIsCountIn(p, keys);
      SumCountsSnoc(p, x, keys);
      CountOfNoDuplicates(keys, x);
    }
  }

  lemma {:induction false} SumCountsEmpty<K>(keys: seq<K>)
    ensures SumCounts([], keys) == 0
  {
    if keys != [] {
      SumCountsEmpty(keys[..|keys| - 1]);
    }
  }

  /** When every element's key is among `keys`, nothing is counted out. */
  lemma {:induction false} CountInAll<K>(ks: seq<K>, keys: seq<K>)
    requires forall k :: k in ks ==> k in keys
    ensures CountIn(ks, keys) == |ks|
  {
    if ks != [] {
      CountInAll(ks[..|ks| - 1], keys);
    }
  }

  /** Grouping by first appearance partitions the list: the group sizes add up to its length. */
  lemma SumCountsOfDistinct<K(!new)>(ks: seq<K>)
    ensures SumCounts(ks, Distinct(ks)) == |ks|
  {
    SumCountsIsCountIn(ks, Distinct(ks));
    CountInAll(ks, Distinct(ks));
  }
}
