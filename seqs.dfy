/** The three JavaScript array operations the service layer leans on:
    `filter`, `findIndex` and `sort` with a newest-first comparator. */
module Seqs {

  /** `s.filter(p)`: the elements of `s` that satisfy `p`, in their order. */
  function Filter<T(==,!new)>(s: seq<T>, p: T -> bool): (r: seq<T>)
    ensures |r| <= |s|
    decreases |s|
  {
    if s == [] then []
    else (if p(s[0]) then [s[0]] else []) + Filter(s[1..], p)
  }

  /** The elements kept are exactly those that pass. */
  lemma {:induction false} FilterMembers<T(!new)>(s: seq<T>, p: T -> bool)
    ensures forall x :: x in Filter(s, p) <==> x in s && p(x)
    decreases |s|
  {
    if s != [] {
      assert s == [s[0]] + s[1..];
      FilterMembers(s[1..], p);
    }
  }

  /** Each element that passes is kept as often as it occurs; the rest
      are dropped. */
  lemma {:induction false} FilterCounts<T(!new)>(s: seq<T>, p: T -> bool)
    ensures forall x :: multiset(Filter(s, p))[x] == if p(x) then multiset(s)[x] else 0
    decreases |s|
  {
    if s != [] {
      assert s == [s[0]] + s[1..];
      FilterCounts(s[1..], p);
    }
  }

  /** Two predicates that agree on every element of `s` filter it alike. */
  lemma {:induction false} FilterCongruent<T(!new)>(s: seq<T>, p: T -> bool, q: T -> bool)
    requires forall x :: x in s ==> p(x) == q(x)
    ensures Filter(s, p) == Filter(s, q)
    decreases |s|
  {
    if s != [] {
      FilterCongruent(s[1..], p, q);
    }
  }

  /** Filtering distributes over concatenation. */
  lemma {:induction false} FilterAppend<T(!new)>(a: seq<T>, b: seq<T>, p: T -> bool)
    ensures Filter(a + b, p) == Filter(a, p) + Filter(b, p)
    decreases |a|
  {
    if a != [] {
      assert (a + b)[1..] == a[1..] + b;
      FilterAppend(a[1..], b, p);
    } else {
      assert a + b == b;
    }
  }

  /** `s.findIndex(p)`: the first position whose element satisfies `p`, or -1. */
  function FindIndex<T>(s: seq<T>, p: T -> bool): (i: int)
    ensures -1 <= i < |s|
    ensures 0 <= i ==> p(s[i]) && forall k :: 0 <= k < i ==> !p(s[k])
    ensures i == -1 <==> forall k :: 0 <= k < |s| ==> !p(s[k])
    decreases |s|
  {
    if s == [] then -1
    else if p(s[0]) then 0
    else
      var j := FindIndex(s[1..], p);
      if j == -1 then -1 else j + 1
  }

  /** No element is newer (by `key`) than one placed before it. */
  predicate NewestFirst<T>(s: seq<T>, key: T -> int) {
    forall i, j :: 0 <= i < j < |s| ==> key(s[i]) >= key(s[j])
  }

  /** Places `x` before the first element of `s` that is not newer than it. */
  function Insert<T(==,!new)>(x: T, s: seq<T>, key: T -> int): (r: seq<T>)
    ensures multiset(r) == multiset(s) + multiset{x}
    ensures |r| == |s| + 1
    decreases |s|
  {
    if s == [] then [x]
    else if key(x) >= key(s[0]) then [x] + s
    else
      assert s == [s[0]] + s[1..];
      [s[0]] + Insert(x, s[1..], key)
  }

  /** An element no older than the head of a newest-first sequence can go
      in front of it. */
  lemma ConsKeepsOrder<T>(h: T, rest: seq<T>, key: T -> int)
    requires NewestFirst(rest, key)
    requires rest != [] ==> key(h) >= key(rest[0])
    ensures NewestFirst([h] + rest, key)
  {
    var r := [h] + rest;
    forall i, j | 0 <= i < j < |r| ensures key(r[i]) >= key(r[j]) {
      assert r[j] == rest[j - 1];
      if 0 < i {
        assert r[i] == rest[i - 1];
      }
    }
  }

  /** Inserting into a newest-first sequence keeps it newest-first; the
      new head is `x` or the old head. */
  lemma {:induction false} InsertKeepsOrder<T(!new)>(x: T, s: seq<T>, key: T -> int)
    requires NewestFirst(s, key)
    ensures NewestFirst(Insert(x, s, key), key)
    ensures Insert(x, s, key)[0] == x || (s != [] && Insert(x, s, key)[0] == s[0])
    decreases |s|
  {
    if s != [] && key(x) < key(s[0]) {
      InsertKeepsOrder(x, s[1..], key);
      ConsKeepsOrder(s[0], Insert(x, s[1..], key), key);
    }
  }

  /** `s.sort((a, b) => key(b) - key(a))`: the same elements, newest first.
      Insertion puts an element ahead of equal keys, which is meant to keep
      ties in their original order as JavaScript's stable sort does; only
      the order and the multiset are stated. */
  function SortNewestFirst<T(==,!new)>(s: seq<T>, key: T -> int): (r: seq<T>)
    ensures NewestFirst(r, key)
    ensures multiset(r) == multiset(s)
    decreases |s|
  {
    if s == [] then []
    else
      assert s == [s[0]] + s[1..];
      InsertKeepsOrder(s[0], SortNewestFirst(s[1..], key), key);
      Insert(s[0], SortNewestFirst(s[1..], key), key)
  }
}
