/**
 * The LINQ building blocks the recommendation strategies are made of:
 * `OrderByDescending(k1).ThenByDescending(k2)` as a stable insertion sort on the pair (k1, k2),
 * `Take`, `Where` and `Except`.
 */
module Ranking {
  import opened Sequences

  /** A sort key: the primary key, then the tie-breaking secondary key. */
  type Rank = (int, int)

  /** Lexicographic order on ranks. */
  predicate RankLe(a: Rank, b: Rank) {
    a.0 < b.0 || (a.0 == b.0 && a.1 <= b.1)
  }

  /** Non-increasing under `key`: what OrderByDescending/ThenByDescending produce. */
  predicate SortedDesc<T>(s: seq<T>, key: T -> Rank) {
    forall i, j :: 0 <= i < j < |s| ==> RankLe(key(s[j]), key(s[i]))
  }

  /** Places `x` in front of the first element that does not outrank it. */
  function Insert<T>(x: T, t: seq<T>, key: T -> Rank): (r: seq<T>)
    requires SortedDesc(t, key)
    ensures SortedDesc(r, key)
    ensures multiset(r) == multiset(t) + multiset{x}
    ensures |r| == |t| + 1
  {
    if t == [] then [x]
    else if RankLe(key(t[0]), key(x)) then [x] + t
    else
      var rest := Insert(x, t[1..], key);
      assert t == [t[0]] + t[1..];
      forall j | 0 <= j < |rest| ensures RankLe(key(rest[j]), key(t[0])) {
        var y := rest[j];
        assert y in multiset(rest);
        if y != x {
          assert y in t[1..];
          var i :| 1 <= i < |t| && t[i] == y;
        }
      }
      [t[0]] + rest
  }

  /**
   * A stable descending sort: each element is inserted ahead of every later element of equal
   * rank, as LINQ's OrderByDescending keeps equal keys in input order.
   */
  function SortByRank<T>(s: seq<T>, key: T -> Rank): (r: seq<T>)
    ensures SortedDesc(r, key)
    ensures multiset(r) == multiset(s)
    ensures |r| == |s|
  {
    if s == [] then []
    else
      assert s == [s[0]] + s[1..];
      Insert(s[0], SortByRank(s[1..], key), key)
  }

  /** The elements of `s` whose rank is exactly `k`, in order. */
  function WithRank<T>(s: seq<T>, key: T -> Rank, k: Rank): seq<T> {
    if s == [] then []
    else (if key(s[0]) == k then [s[0]] else []) + WithRank(s[1..], key, k)
  }

  lemma WithRankCons<T>(y: T, u: seq<T>, key: T -> Rank, k: Rank)
    ensures WithRank([y] + u, key, k) == (if key(y) == k then [y] else []) + WithRank(u, key, k)
  {
    assert ([y] + u)[1..] == u;
  }

  /** Inserting `x` adds it to its own rank group, ahead of the group's other members. */
  lemma {:induction false} InsertWithRank<T>(x: T, t: seq<T>, key: T -> Rank, k: Rank)
    requires SortedDesc(t, key)
    ensures WithRank(Insert(x, t, key), key, k)
         == (if key(x) == k then [x] else []) + WithRank(t, key, k)
    decreases |t|, 1
  {
    if t == [] {
      WithRankCons(x, [], key, k);
    } else if RankLe(key(t[0]), key(x)) {
      WithRankCons(x, t, key, k);
    } else {
      InsertBehindWithRank(x, t, key, k);
    }
  }

  /** The case where `x` goes behind the head of `t`, whose rank then differs from its own. */
  lemma {:induction false} InsertBehindWithRank<T>(x: T, t: seq<T>, key: T -> Rank, k: Rank)
    requires SortedDesc(t, key) && t != [] && !RankLe(key(t[0]), key(x))
    ensures WithRank(Insert(x, t, key), key, k)
         == (if key(x) == k then [x] else []) + WithRank(t, key, k)
    decreases |t|, 0
  {
    var rest := Insert(x, t[1..], key);
    assert Insert(x, t, key) == [t[0]] + rest;
    InsertWithRank(x, t[1..], key, k);
    WithRankCons(t[0], rest, key, k);
    assert t == [t[0]] + t[1..];
    WithRankCons(t[0], t[1..], key, k);
    if key(x) == k {
      assert key(t[0]) != k;
    } else {
      assert WithRank(rest, key, k) == WithRank(t[1..], key, k);
    }
  }

  /** Stability: the sort keeps every group of equally ranked elements in input order. */
  lemma {:induction false} SortByRankStable<T>(s: seq<T>, key: T -> Rank, k: Rank)
    ensures WithRank(SortByRank(s, key), key, k) == WithRank(s, key, k)
  {
    if s != [] {
      SortByRankStable(s[1..], key, k);
      InsertWithRank(s[0], SortByRank(s[1..], key), key, k);
    }
  }

  /** Sorting under two keys that agree on every element of the input gives the same sequence. */
  lemma {:induction false} SortByRankSameKey<T>(s: seq<T>, key1: T -> Rank, key2: T -> Rank)
    requires forall x | x in s :: key1(x) == key2(x)
    ensures SortByRank(s, key1) == SortByRank(s, key2)
  {
    if s != [] {
      SortByRankSameKey(s[1..], key1, key2);
      var t := SortByRank(s[1..], key1);
      forall y | y in t ensures key1(y) == key2(y) {
        assert y in multiset(s[1..]);
      }
      InsertSameKey(s[0], t, key1, key2);
    }
  }

  lemma {:induction false} InsertSameKey<T>(x: T, t: seq<T>, key1: T -> Rank, key2: T -> Rank)
    requires key1(x) == key2(x) && forall y | y in t :: key1(y) == key2(y)
    requires SortedDesc(t, key1)
    ensures SortedDesc(t, key2) && Insert(x, t, key1) == Insert(x, t, key2)
  {
    if t != [] {
      InsertSameKey(x, t[1..], key1, key2);
    }
  }

  function Min(a: int, b: int): int {
    if a <= b then a else b
  }

  /** `Take(n)`: the first `n` elements, all of them when there are fewer, none when `n <= 0`. */
  function Take<T>(s: seq<T>, n: int): (r: seq<T>)
    ensures |r| == if n <= 0 then 0 else Min(n, |s|)
    ensures r == s[..|r|]
  {
    if n <= 0 then [] else if n >= |s| then s else s[..n]
  }

  /** `Where(p)`. */
  function Filter<T>(s: seq<T>, p: T -> bool): (r: seq<T>)
    ensures forall x :: x in multiset(s) && p(x) ==> multiset(r)[x] == multiset(s)[x]
    ensures forall x :: x in multiset(r) ==> p(x)
    ensures multiset(r) <= multiset(s)
  {
    if s == [] then []
    else
      assert s == [s[0]] + s[1..];
      (if p(s[0]) then [s[0]] else []) + Filter(s[1..], p)
  }

  /** `Where` keeps the order of its input: filtering a concatenation filters each part in turn. */
  lemma {:induction false} FilterAppend<T>(a: seq<T>, b: seq<T>, p: T -> bool)
    ensures Filter(a + b, p) == Filter(a, p) + Filter(b, p)
  {
    if a == [] {
      assert a + b == b;
    } else {
      FilterAppend(a[1..], b, p);
      FilterUnfoldAppend(a, b, p);
      AppendAssoc(if p(a[0]) then [a[0]] else [], Filter(a[1..], p), Filter(b, p));
    }
  }

  /** Filtering `a + b` and `a` both start by deciding on the head of `a`. */
  lemma FilterUnfoldAppend<T>(a: seq<T>, b: seq<T>, p: T -> bool)
    requires a != []
    ensures Filter(a + b, p) == (if p(a[0]) then [a[0]] else []) + Filter(a[1..] + b, p)
    ensures Filter(a, p) == (if p(a[0]) then [a[0]] else []) + Filter(a[1..], p)
  {
    assert (a + b)[0] == a[0] && (a + b)[1..] == a[1..] + b;
  }

  /** `Where` on one element keeps it exactly when it satisfies the predicate. */
  lemma FilterSingle<T>(x: T, p: T -> bool)
    ensures Filter([x], p) == if p(x) then [x] else []
  {
    assert [x][1..] == [];
  }

  /** No element occurs twice. */
  predicate Distinct<T(==)>(s: seq<T>) {
    forall x | x in s :: multiset(s)[x] <= 1
  }

  /**
   * `Except(second)` with `seen` holding what has been excluded or already yielded: yields each
   * element of `s` not in `seen` once, at its first occurrence.
   */
  function ExceptFrom<T(==)>(s: seq<T>, seen: set<T>): (r: seq<T>)
    ensures forall x | x in r :: x in s && x !in seen
    ensures forall x | x in s && x !in seen :: x in r
    ensures Distinct(r)
  {
    if s == [] then []
    else if s[0] in seen then ExceptFrom(s[1..], seen)
    else [s[0]] + ExceptFrom(s[1..], seen + {s[0]})
  }

  /** `first.Except(second)`: the distinct elements of `first` absent from `second`, first occurrences in order. */
  function Except<T(==)>(first: seq<T>, second: seq<T>): (r: seq<T>)
    ensures forall x | x in r :: x in first && x !in second
    ensures forall x | x in first && x !in second :: x in r
    ensures Distinct(r)
  {
    ExceptFrom(first, set x | x in second)
  }

  /** The position of the first occurrence of `x` in `s`. */
  function FirstIndex<T(==)>(s: seq<T>, x: T): (i: nat)
    requires x in s
    ensures i < |s| && s[i] == x
    ensures forall j | 0 <= j < i :: s[j] != x
  {
    if s[0] == x then 0 else 1 + FirstIndex(s[1..], x)
  }

  /** Every element of `r` occurs in `s`, and `r` lists them in the order of their first occurrences there. */
  ghost predicate InOrderOf<T>(s: seq<T>, r: seq<T>) {
    && (forall x | x in r :: x in s)
    && forall i, j | 0 <= i < j < |r| :: FirstIndex(s, r[i]) < FirstIndex(s, r[j])
  }

  /** `ExceptFrom` yields its elements in the order of their first occurrences in `s`. */
  lemma {:induction false} ExceptFromInOrder<T>(s: seq<T>, seen: set<T>)
    ensures InOrderOf(s, ExceptFrom(s, seen))
  {
    if s != [] {
      if s[0] in seen {
        ExceptFromInOrder(s[1..], seen);
        ShiftedInOrder(s, ExceptFrom(s[1..], seen));
      } else {
        ExceptFromInOrder(s[1..], seen + {s[0]});
        ConsInOrder(s, ExceptFrom(s[1..], seen + {s[0]}));
      }
    }
  }

  /** An order of first occurrences in the tail of `s` stays one in `s` for elements other than its head. */
  lemma ShiftedInOrder<T>(s: seq<T>, r: seq<T>)
    requires s != [] && InOrderOf(s[1..], r) && forall x | x in r :: x != s[0]
    ensures InOrderOf(s, r)
  {
    FirstIndexShift(s, r);
  }

  /** Putting the head of `s` in front of such an order keeps it one. */
  lemma ConsInOrder<T>(s: seq<T>, r: seq<T>)
    requires s != [] && InOrderOf(s[1..], r) && forall x | x in r :: x != s[0]
    ensures InOrderOf(s, [s[0]] + r)
  {
    FirstIndexShift(s, r);
    var q := [s[0]] + r;
    forall i | 0 < i < |q| ensures q[i] == r[i - 1] {
    }
  }

  /** Elements found after the head of `s` sit one further along in `s` than in its tail. */
  lemma FirstIndexShift<T>(s: seq<T>, r: seq<T>)
    requires s != [] && forall x | x in r :: x in s[1..] && x != s[0]
    ensures forall i | 0 <= i < |r| :: r[i] in s && FirstIndex(s, r[i]) == 1 + FirstIndex(s[1..], r[i])
  {
    forall i | 0 <= i < |r| ensures r[i] in s && FirstIndex(s, r[i]) == 1 + FirstIndex(s[1..], r[i]) {
      var x := r[i];
      assert x in r;
      var k := FirstIndex(s[1..], x);
      assert s[k + 1] == x;
      assert s[0] != x;
    }
  }

  /** `Except` keeps the order of `first`: its elements appear in the order of their first occurrences there. */
  lemma ExceptInOrder<T>(first: seq<T>, second: seq<T>)
    ensures InOrderOf(first, Except(first, second))
  {
    var seen := set x | x in second;
    assert Except(first, second) == ExceptFrom(first, seen);
    ExceptFromInOrder(first, seen);
  }

  /** A prefix never holds more of any element than the whole. */
  lemma PrefixSubMultiset<T>(s: seq<T>, n: nat)
    requires n <= |s|
    ensures multiset(s[..n]) <= multiset(s)
  {
    assert s == s[..n] + s[n..];
  }

  /** Nothing a prefix of a non-increasing sequence leaves out outranks what the prefix keeps. */
  lemma PrefixIsTop<T>(sorted: seq<T>, key: T -> Rank, n: nat)
    requires SortedDesc(sorted, key) && n <= |sorted|
    ensures forall x, y | x in multiset(sorted) - multiset(sorted[..n]) && y in sorted[..n] :: RankLe(key(x), key(y))
  {
    var kept := sorted[..n];
    var rest := sorted[n..];
    assert sorted == kept + rest;
    forall x, y | x in multiset(sorted) - multiset(kept) && y in kept
      ensures RankLe(key(x), key(y))
    {
      assert x in multiset(rest);
      var j :| 0 <= j < |rest| && rest[j] == x;
      var i :| 0 <= i < n && kept[i] == y;
      assert sorted[n + j] == x && sorted[i] == y;
    }
  }

  /**
   * The top `limit` of a ranking: as many elements as `limit` allows, drawn from the input
   * without added copies, non-increasing, and no left-out element outranks a kept one.
   */
  lemma TopRanked<T>(s: seq<T>, key: T -> Rank, limit: int)
    ensures var r := Take(SortByRank(s, key), limit);
      && |r| == (if limit <= 0 then 0 else Min(limit, |s|))
      && multiset(r) <= multiset(s)
      && SortedDesc(r, key)
      && forall x, y | x in multiset(s) - multiset(r) && y in r :: RankLe(key(x), key(y))
  {
    var sorted := SortByRank(s, key);
    var r := Take(sorted, limit);
    PrefixIsTop(sorted, key, |r|);
    PrefixSubMultiset(sorted, |r|);
  }
}
