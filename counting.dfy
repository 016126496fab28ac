/**
  Group-by-count, ranking and sorted-distinct helpers shared by the
  dashboard's aggregations (app.py's `group_by(..).agg(pl.len())`,
  `.sort(.., descending=True)`, `.head(n)` and `sorted(.unique())`).
 */
module Counting {

  /** Number of occurrences of `k` in `s`. */
  function Count<K(==)>(s: seq<K>, k: K): (n: nat)
    ensures n <= |s|
    ensures n > 0 <==> k in s
  {
    if s == [] then 0
    else
      assert s == s[..|s| - 1] + [s[|s| - 1]];
      Count(s[..|s| - 1], k) + (if s[|s| - 1] == k then 1 else 0)
  }

  /** The key column of a grouped table. */
  function KeysOf<K, V>(g: seq<(K, V)>): (ks: seq<K>)
    ensures |ks| == |g|
    ensures forall i :: 0 <= i < |g| ==> ks[i] == g[i].0
  {
    if g == [] then [] else [g[0].0] + KeysOf(g[1..])
  }

  /** Sum of the count column of a grouped table. */
  function SumCounts<K>(g: seq<(K, nat)>): nat
  {
    if g == [] then 0 else g[0].1 + SumCounts(g[1..])
  }

  lemma {:induction false} SumCountsAppend<K>(g: seq<(K, nat)>, x: (K, nat))
    ensures SumCounts(g + [x]) == SumCounts(g) + x.1
  {
    if g != [] {
      assert (g + [x])[1..] == g[1..] + [x];
      SumCountsAppend(g[1..], x);
    }
  }

  lemma {:induction false} SumCountsConcat<K>(u: seq<(K, nat)>, v: seq<(K, nat)>)
    ensures SumCounts(u + v) == SumCounts(u) + SumCounts(v)
  {
    if u != [] {
      assert (u + v)[1..] == u[1..] + v;
      SumCountsConcat(u[1..], v);
    } else {
      assert u + v == v;
    }
  }

  /** The total of the count column does not depend on the order of the entries. */
  lemma {:induction false} SumCountsReordered<K>(a: seq<(K, nat)>, b: seq<(K, nat)>)
    requires multiset(a) == multiset(b)
    ensures SumCounts(a) == SumCounts(b)
    decreases |a|
  {
    if a == [] {
      assert |b| == |multiset(b)| == 0;
    } else {
      var x := a[0];
      assert x in multiset(b);
      var k :| 0 <= k < |b| && b[k] == x;
      var rest := Without(b, k);
      MultisetWithout(a, 0);
      MultisetWithout(b, k);
      assert Without(a, 0) == a[1..];
      SumCountsReordered(a[1..], rest);
      SumCountsWithout(b, k);
    }
  }

  /** `s` with its entry at `k` removed. */
  function Without<T>(s: seq<T>, k: nat): seq<T>
    requires k < |s|
  {
    s[..k] + s[k + 1..]
  }

  lemma MultisetWithout<T>(s: seq<T>, k: nat)
    requires k < |s|
    ensures multiset(Without(s, k)) == multiset(s) - multiset{s[k]}
  {
    assert s == s[..k] + [s[k]] + s[k + 1..];
  }

  lemma {:induction false} SumCountsWithout<K>(s: seq<(K, nat)>, k: nat)
    requires k < |s|
    ensures SumCounts(s) == SumCounts(Without(s, k)) + s[k].1
  {
    var front, back := s[..k], s[k + 1..];
    assert Without(s, k) == front + back;
    assert SumCounts(s) == SumCounts(front + [s[k]]) + SumCounts(back) by {
      assert s == (front + [s[k]]) + back;
      SumCountsConcat(front + [s[k]], back);
    }
    assert SumCounts(front + [s[k]]) == SumCounts(front) + s[k].1 by {
      SumCountsAppend(front, s[k]);
    }
    assert SumCounts(front + back) == SumCounts(front) + SumCounts(back) by {
      SumCountsConcat(front, back);
    }
  }

  ghost predicate DistinctKeys<K>(g: seq<(K, nat)>)
  {
    forall i, j :: 0 <= i < j < |g| ==> g[i].0 != g[j].0
  }

  /** `g` holds each distinct element of `s` exactly once, with its number of occurrences. */
  ghost predicate IsGrouping<K>(s: seq<K>, g: seq<(K, nat)>)
  {
    && DistinctKeys(g)
    && (forall i :: 0 <= i < |g| ==> g[i].0 in s && g[i].1 == Count(s, g[i].0))
    && (forall k :: k in s ==> k in KeysOf(g))
  }

  ghost predicate NonIncreasing<K>(g: seq<(K, nat)>)
  {
    forall i, j :: 0 <= i < j < |g| ==> g[i].1 >= g[j].1
  }

  /** A grouping of `s` listed by non-increasing count. */
  ghost predicate IsRanking<K>(s: seq<K>, r: seq<(K, nat)>)
  {
    IsGrouping(s, r) && NonIncreasing(r)
  }

  /**
    One more occurrence of `k` for the running groups `g`: the count of `k`
    goes up by one, or `k` is appended with count 1.
   */
  function Bump<K(==)>(g: seq<(K, nat)>, k: K): (r: seq<(K, nat)>)
    ensures KeysOf(r) == if k in KeysOf(g) then KeysOf(g) else KeysOf(g) + [k]
    ensures SumCounts(r) == SumCounts(g) + 1
  {
    if g == [] then [(k, 1)]
    else if g[0].0 == k then
      assert ([(k, g[0].1 + 1)] + g[1..])[1..] == g[1..];
      [(k, g[0].1 + 1)] + g[1..]
    else
      var rest := Bump(g[1..], k);
      assert ([g[0]] + rest)[1..] == rest;
      [g[0]] + rest
  }

  /** With distinct keys, `Bump` adds one to the count of `k` only, or gives a new `k` the count 1. */
  lemma {:induction false} BumpCountAt<K>(g: seq<(K, nat)>, k: K)
    requires DistinctKeys(g)
    ensures forall i :: 0 <= i < |g| ==> Bump(g, k)[i].1 == g[i].1 + (if g[i].0 == k then 1 else 0)
    ensures k !in KeysOf(g) ==> Bump(g, k)[|g|].1 == 1
  {
    var r := Bump(g, k);
    if g == [] {
    } else if g[0].0 == k {
      assert r == [(k, g[0].1 + 1)] + g[1..];
      forall i | 0 <= i < |g| ensures r[i].1 == g[i].1 + (if g[i].0 == k then 1 else 0) {
        if i > 0 {
          assert g[i].0 != g[0].0;
          assert r[i] == g[i];
        }
      }
      assert KeysOf(g)[0] == k;
    } else {
      var rest := g[1..];
      var t := Bump(rest, k);
      assert r == [g[0]] + t;
      assert DistinctKeys(rest) by {
        forall i, j | 0 <= i < j < |rest| ensures rest[i].0 != rest[j].0 {
          assert rest[i] == g[i + 1] && rest[j] == g[j + 1];
        }
      }
      BumpCountAt(rest, k);
      forall i | 0 <= i < |g| ensures r[i].1 == g[i].1 + (if g[i].0 == k then 1 else 0) {
        if i > 0 {
          assert g[i] == rest[i - 1] && r[i] == t[i - 1];
        }
      }
      if k !in KeysOf(g) {
        assert KeysOf(g) == [g[0].0] + KeysOf(rest);
        assert k !in KeysOf(rest);
        assert r[|g|] == t[|rest|];
      }
    }
  }

  lemma {:induction false} CountAppend<K>(s: seq<K>, k: K, x: K)
    ensures Count(s + [k], x) == Count(s, x) + (if x == k then 1 else 0)
  {
    assert (s + [k])[..|s|] == s;
  }

  /** One `Bump` extends a grouping of `s` to a grouping of `s + [k]`. */
  lemma {:induction false} BumpExtendsGrouping<K(!new)>(s: seq<K>, g: seq<(K, nat)>, k: K)
    requires IsGrouping(s, g) && SumCounts(g) == |s|
    ensures IsGrouping(s + [k], Bump(g, k))
    ensures SumCounts(Bump(g, k)) == |s + [k]|
  {
    BumpCounts(s, g, k);
    BumpDistinct(s, g, k);
    BumpCovers(s, g, k);
  }

  lemma {:induction false} BumpCounts<K>(s: seq<K>, g: seq<(K, nat)>, k: K)
    requires IsGrouping(s, g)
    ensures forall i :: 0 <= i < |Bump(g, k)| ==>
      Bump(g, k)[i].0 in s + [k] && Bump(g, k)[i].1 == Count(s + [k], Bump(g, k)[i].0)
  {
    var r := Bump(g, k);
    forall i | 0 <= i < |r| ensures r[i].0 in s + [k] && r[i].1 == Count(s + [k], r[i].0) {
      BumpEntry(s, g, k, i);
    }
  }

  /** Entry `i` of a bumped grouping is a key of `s + [k]` with its count there. */
  lemma {:induction false} BumpEntry<K>(s: seq<K>, g: seq<(K, nat)>, k: K, i: nat)
    requires IsGrouping(s, g) && i < |Bump(g, k)|
    ensures Bump(g, k)[i].0 in s + [k] && Bump(g, k)[i].1 == Count(s + [k], Bump(g, k)[i].0)
  {
    if i < |g| {
      BumpKeptKey(s, g, k, i);
    } else {
      assert |Bump(g, k)| == |KeysOf(Bump(g, k))|;
      BumpNewKey(s, g, k);
    }
  }

  /** A key already grouped keeps its place and gets its count in `s + [k]`. */
  lemma BumpKeptKey<K>(s: seq<K>, g: seq<(K, nat)>, k: K, i: nat)
    requires IsGrouping(s, g) && i < |g|
    ensures i < |Bump(g, k)| && Bump(g, k)[i].0 == g[i].0
    ensures Bump(g, k)[i].0 in s + [k] && Bump(g, k)[i].1 == Count(s + [k], Bump(g, k)[i].0)
  {
    var r := Bump(g, k);
    BumpCountAt(g, k);
    CountAppend(s, k, g[i].0);
    assert KeysOf(r)[i] == KeysOf(g)[i];
  }

  /** A key not yet grouped is appended with its count in `s + [k]`, which is 1. */
  lemma BumpNewKey<K>(s: seq<K>, g: seq<(K, nat)>, k: K)
    requires IsGrouping(s, g) && |Bump(g, k)| > |g|
    ensures |Bump(g, k)| == |g| + 1 && Bump(g, k)[|g|].0 == k
    ensures Bump(g, k)[|g|].0 in s + [k] && Bump(g, k)[|g|].1 == Count(s + [k], Bump(g, k)[|g|].0)
  {
    var r := Bump(g, k);
    assert |KeysOf(r)| > |KeysOf(g)|;
    assert k !in KeysOf(g);
    BumpCountAt(g, k);
    CountAppend(s, k, k);
    assert KeysOf(r)[|g|] == (KeysOf(g) + [k])[|g|];
    assert k !in s;
  }

  lemma {:induction false} BumpDistinct<K>(s: seq<K>, g: seq<(K, nat)>, k: K)
    requires DistinctKeys(g)
    ensures DistinctKeys(Bump(g, k))
  {
    var r := Bump(g, k);
    forall i, j | 0 <= i < j < |r| ensures r[i].0 != r[j].0 {
      assert r[i].0 == KeysOf(r)[i] && r[j].0 == KeysOf(r)[j];
      if j < |g| {
        assert KeysOf(r)[i] == g[i].0 && KeysOf(r)[j] == g[j].0;
      } else {
        assert KeysOf(r)[i] == KeysOf(g)[i];
      }
    }
  }

  lemma {:induction false} BumpCovers<K>(s: seq<K>, g: seq<(K, nat)>, k: K)
    requires DistinctKeys(g) && forall x :: x in s ==> x in KeysOf(g)
    ensures forall x :: x in s + [k] ==> x in KeysOf(Bump(g, k))
  {
    var r := Bump(g, k);
    assert forall x :: x in KeysOf(g) ==> x in KeysOf(r);
    assert k in KeysOf(r);
  }

  /** Group-by with a row count per group; groups come in order of first appearance. */
  function Group<K(==, !new)>(s: seq<K>): (g: seq<(K, nat)>)
    ensures IsGrouping(s, g)
    ensures SumCounts(g) == |s|
  {
    if s == [] then []
    else
      var s', k := s[..|s| - 1], s[|s| - 1];
      assert s == s' + [k];
      BumpExtendsGrouping(s', Group(s'), k);
      Bump(Group(s'), k)
  }

  /**
    Inserts `x` into the count-descending list `r`, after every entry whose
    count is at least `x`'s (so equal counts keep their arrival order).
   */
  function InsertByCount<K>(x: (K, nat), r: seq<(K, nat)>): (r': seq<(K, nat)>)
    ensures multiset(r') == multiset(r) + multiset{x}
  {
    if r == [] then [x]
    else if r[0].1 >= x.1 then
      assert r == [r[0]] + r[1..];
      [r[0]] + InsertByCount(x, r[1..])
    else [x] + r
  }

  lemma {:induction false} InsertByCountOrdered<K>(x: (K, nat), r: seq<(K, nat)>)
    requires NonIncreasing(r)
    ensures NonIncreasing(InsertByCount(x, r))
    ensures SumCounts(InsertByCount(x, r)) == SumCounts(r) + x.1
  {
    InsertByCountSum(x, r);
    if r == [] {
    } else if r[0].1 >= x.1 {
      var rest := r[1..];
      assert forall i :: 0 <= i < |rest| ==> rest[i].1 <= r[0].1;
      InsertByCountOrdered(x, rest);
      InsertByCountBounded(x, rest, r[0].1);
      ConsNonIncreasing(r[0], InsertByCount(x, rest));
    } else {
      ConsNonIncreasing(x, r);
    }
  }

  lemma {:induction false} InsertByCountSum<K>(x: (K, nat), r: seq<(K, nat)>)
    ensures SumCounts(InsertByCount(x, r)) == SumCounts(r) + x.1
  {
    if r == [] {
    } else if r[0].1 >= x.1 {
      InsertByCountSum(x, r[1..]);
      assert ([r[0]] + InsertByCount(x, r[1..]))[1..] == InsertByCount(x, r[1..]);
    } else {
      assert ([x] + r)[1..] == r;
    }
  }

  /** Inserting keeps every count under a bound that the entry and the list respect. */
  lemma InsertByCountBounded<K>(x: (K, nat), r: seq<(K, nat)>, bound: nat)
    requires x.1 <= bound && forall i :: 0 <= i < |r| ==> r[i].1 <= bound
    ensures forall i :: 0 <= i < |InsertByCount(x, r)| ==> InsertByCount(x, r)[i].1 <= bound
  {
    var t := InsertByCount(x, r);
    forall i | 0 <= i < |t| ensures t[i].1 <= bound {
      assert t[i] in multiset(t);
      if t[i] != x {
        assert t[i] in multiset(r);
        var j :| 0 <= j < |r| && r[j] == t[i];
      }
    }
  }

  /** Putting an entry at least as large as every count in front keeps the order. */
  lemma ConsNonIncreasing<K>(a: (K, nat), t: seq<(K, nat)>)
    requires NonIncreasing(t) && forall i :: 0 <= i < |t| ==> t[i].1 <= a.1
    ensures NonIncreasing([a] + t)
  {
    var u := [a] + t;
    forall i, j | 0 <= i < j < |u| ensures u[i].1 >= u[j].1 {
      assert u[j] == t[j - 1];
      if i > 0 {
        assert u[i] == t[i - 1];
      }
    }
  }

  lemma {:induction false} InsertByCountKeys<K>(x: (K, nat), r: seq<(K, nat)>)
    requires DistinctKeys(r) && x.0 !in KeysOf(r)
    ensures DistinctKeys(InsertByCount(x, r))
  {
    if r != [] && r[0].1 >= x.1 {
      InsertByCountKeys(x, r[1..]);
      var t := InsertByCount(x, r[1..]);
      forall i | 0 <= i < |t| ensures t[i].0 != r[0].0 {
        assert t[i] in multiset(t);
        if t[i] != x {
          var j :| 0 <= j < |r[1..]| && r[1..][j] == t[i];
          assert r[j + 1] == t[i];
        }
      }
    }
  }

  /** Stable sort by count, largest first. */
  function SortByCount<K>(g: seq<(K, nat)>): (r: seq<(K, nat)>)
    ensures multiset(r) == multiset(g)
  {
    if g == [] then []
    else
      assert g == g[..|g| - 1] + [g[|g| - 1]];
      InsertByCount(g[|g| - 1], SortByCount(g[..|g| - 1]))
  }

  lemma {:induction false} SortByCountOrdered<K>(g: seq<(K, nat)>)
    ensures NonIncreasing(SortByCount(g))
    ensures SumCounts(SortByCount(g)) == SumCounts(g)
  {
    if g != [] {
      var g', x := g[..|g| - 1], g[|g| - 1];
      assert g == g' + [x];
      SortByCountOrdered(g');
      SumCountsAppend(g', x);
      InsertByCountOrdered(x, SortByCount(g'));
    }
  }

  lemma {:induction false} SortByCountDistinct<K>(g: seq<(K, nat)>)
    requires DistinctKeys(g)
    ensures DistinctKeys(SortByCount(g))
  {
    if g != [] {
      var g', x := g[..|g| - 1], g[|g| - 1];
      assert g == g' + [x];
      SortByCountDistinct(g');
      var r' := SortByCount(g');
      forall i | 0 <= i < |r'| ensures KeysOf(r')[i] != x.0 {
        assert r'[i] in multiset(g');
        var j :| 0 <= j < |g'| && g'[j] == r'[i];
        assert g[j] == r'[i];
      }
      InsertByCountKeys(x, r');
    }
  }

  /** A reordering of a grouping that keeps its keys distinct is still a grouping. */
  lemma {:induction false} ReorderedGrouping<K>(s: seq<K>, g: seq<(K, nat)>, r: seq<(K, nat)>)
    requires IsGrouping(s, g) && multiset(r) == multiset(g) && DistinctKeys(r)
    ensures IsGrouping(s, r)
    ensures SumCounts(r) == SumCounts(g)
  {
    SumCountsReordered(r, g);
    forall i | 0 <= i < |r| ensures r[i].0 in s && r[i].1 == Count(s, r[i].0) {
      assert r[i] in multiset(g);
    }
    forall k | k in s ensures k in KeysOf(r) {
      var j :| 0 <= j < |g| && KeysOf(g)[j] == k;
      assert g[j] in multiset(r);
      var i :| 0 <= i < |r| && r[i] == g[j];
      assert KeysOf(r)[i] == k;
    }
  }

  /** Group-by-count followed by a descending sort on the count. */
  function Rank<K(==, !new)>(s: seq<K>): (r: seq<(K, nat)>)
    ensures IsRanking(s, r)
    ensures SumCounts(r) == |s|
  {
    var g := Group(s);
    SortByCountOrdered(g);
    SortByCountDistinct(g);
    ReorderedGrouping(s, g, SortByCount(g));
    SortByCount(g)
  }

  /** The first `n` entries of the ranking of `s`. */
  function Top<K(==, !new)>(s: seq<K>, n: nat): (t: seq<(K, nat)>)
    ensures |t| <= n
    ensures DistinctKeys(t) && NonIncreasing(t)
    ensures forall i :: 0 <= i < |t| ==> t[i].0 in s && t[i].1 == Count(s, t[i].0)
  {
    var r := Rank(s);
    PrefixOfRanking(s, r, n);
    if |r| <= n then r else r[..n]
  }

  /** A prefix of a ranking keeps its keys distinct, its order and its counts. */
  lemma PrefixOfRanking<K>(s: seq<K>, r: seq<(K, nat)>, n: nat)
    requires IsRanking(s, r)
    ensures var t := if |r| <= n then r else r[..n];
      && DistinctKeys(t) && NonIncreasing(t)
      && forall i :: 0 <= i < |t| ==> t[i].0 in s && t[i].1 == Count(s, t[i].0)
  {
    var t := if |r| <= n then r else r[..n];
    assert forall i :: 0 <= i < |t| ==> t[i] == r[i];
  }

  /**
    `Top` leaves a group out only when it is full, and no group left out has
    a larger count than the smallest one kept.
   */
  lemma {:induction false} TopKeepsLargest<K(!new)>(s: seq<K>, n: nat, k: K)
    requires k in s && k !in KeysOf(Top(s, n))
    ensures |Top(s, n)| == n
    ensures n > 0 ==> Count(s, k) <= Top(s, n)[n - 1].1
  {
    var r := Rank(s);
    var j := RankPosition(s, k);
    assert Top(s, n) == if |r| <= n then r else r[..n];
    PrefixLeavesOutSmaller(r, n, j);
  }

  /** Where `k` sits in the ranking of `s`. */
  lemma RankPosition<K(!new)>(s: seq<K>, k: K) returns (j: nat)
    requires k in s
    ensures j < |Rank(s)| && Rank(s)[j].0 == k && Rank(s)[j].1 == Count(s, k)
  {
    var r := Rank(s);
    j :| 0 <= j < |r| && KeysOf(r)[j] == k;
  }

  lemma {:induction false} PrefixLeavesOutSmaller<K>(r: seq<(K, nat)>, n: nat, j: nat)
    requires NonIncreasing(r) && j < |r|
    requires r[j].0 !in KeysOf(if |r| <= n then r else r[..n])
    ensures n < |r| && (n > 0 ==> r[j].1 <= r[n - 1].1)
  {
    var t := if |r| <= n then r else r[..n];
    forall i | 0 <= i < |t| ensures KeysOf(t)[i] == r[i].0 {
    }
    assert j >= |t|;
  }

  ghost predicate StrictlyAscending(xs: seq<int>)
  {
    forall i, j :: 0 <= i < j < |xs| ==> xs[i] < xs[j]
  }

  /** Adds `x` to the ascending duplicate-free list `xs`. */
  function InsertSorted(xs: seq<int>, x: int): (r: seq<int>)
    requires StrictlyAscending(xs)
    ensures StrictlyAscending(r)
    ensures forall y :: y in r <==> y == x || y in xs
  {
    if xs == [] then [x]
    else if x < xs[0] then
      ConsAscending(x, xs);
      [x] + xs
    else if x == xs[0] then xs
    else
      var tail := xs[1..];
      assert forall i :: 0 <= i < |tail| ==> tail[i] == xs[i + 1];
      assert xs == [xs[0]] + tail;
      var rest := InsertSorted(tail, x);
      assert forall i :: 0 <= i < |rest| ==> rest[i] > xs[0] by {
        forall i | 0 <= i < |rest| ensures rest[i] > xs[0] {
          assert rest[i] in rest;
          if rest[i] != x {
            var j :| 0 <= j < |tail| && tail[j] == rest[i];
          }
        }
      }
      ConsAscending(xs[0], rest);
      [xs[0]] + rest
  }

  lemma ConsAscending(a: int, xs: seq<int>)
    requires StrictlyAscending(xs) && forall i :: 0 <= i < |xs| ==> a < xs[i]
    ensures StrictlyAscending([a] + xs)
  {
    var u := [a] + xs;
    forall i, j | 0 <= i < j < |u| ensures u[i] < u[j] {
      assert u[j] == xs[j - 1];
      if i > 0 {
        assert u[i] == xs[i - 1];
      }
    }
  }

  /** `sorted(set(xs))`: the distinct values of `xs` in ascending order. */
  function SortedDistinct(xs: seq<int>): (r: seq<int>)
    ensures StrictlyAscending(r)
    ensures forall y :: y in r <==> y in xs
  {
    if xs == [] then []
    else
      assert xs == xs[..|xs| - 1] + [xs[|xs| - 1]];
      InsertSorted(SortedDistinct(xs[..|xs| - 1]), xs[|xs| - 1])
  }
}
