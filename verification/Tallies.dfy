/** Counters over a list, sums over their keys, and order statistics. */
module Tallies {
  import opened Common
  import opened Sorting

  function Get<K>(counter: map<K, nat>, k: K): nat {
    if k in counter then counter[k] else 0
  }

  function Bump<K>(counter: map<K, nat>, k: K): map<K, nat> {
    counter[k := Get(counter, k) + 1]
  }

  /** How many elements are filed under `k`; elements filed nowhere do not count. */
  function CountUnder<T, K(==)>(xs: seq<T>, file: T -> Option<K>, k: K): nat {
    if xs == [] then 0 else (if file(xs[0]) == Some(k) then 1 else 0) + CountUnder(xs[1..], file, k)
  }

  function CountFiled<T, K>(xs: seq<T>, file: T -> Option<K>): nat {
    if xs == [] then 0 else (if file(xs[0]).Some? then 1 else 0) + CountFiled(xs[1..], file)
  }

  /** The counter holds the number of elements under each key, and only keys in use. */
  ghost predicate Counts<T, K(!new)>(counter: map<K, nat>, xs: seq<T>, file: T -> Option<K>) {
    forall k :: Get(counter, k) == CountUnder(xs, file, k) && (k in counter ==> counter[k] > 0)
  }

  lemma {:induction false} CountUnderSnoc<T, K>(xs: seq<T>, x: T, file: T -> Option<K>, k: K)
    ensures CountUnder(xs + [x], file, k) == CountUnder(xs, file, k) + (if file(x) == Some(k) then 1 else 0)
  {
    if xs != [] {
      CountUnderSnoc(xs[1..], x, file, k);
      assert (xs + [x])[1..] == xs[1..] + [x];
    }
  }

  lemma BumpCounts<T, K(!new)>(counter: map<K, nat>, xs: seq<T>, x: T, file: T -> Option<K>)
    requires Counts(counter, xs, file)
    ensures file(x).Some? ==> Counts(Bump(counter, file(x).value), xs + [x], file)
    ensures file(x).None? ==> Counts(counter, xs + [x], file)
  {
    forall k ensures CountUnder(xs + [x], file, k) == CountUnder(xs, file, k) + (if file(x) == Some(k) then 1 else 0) {
      CountUnderSnoc(xs, x, file, k);
    }
  }

  ghost function Sum<K(!new)>(keys: set<K>, f: K -> nat): nat {
    if keys == {} then 0
    else
      var k :| k in keys;
      f(k) + Sum(keys - {k}, f)
  }

  /** Some key of a set that still has one. */
  method Pick<K(==)>(keys: set<K>) returns (k: K)
    requires keys != {}
    ensures k in keys
  {
    k :| k in keys;
  }

  lemma {:induction false} SumPick<K(!new)>(keys: set<K>, f: K -> nat, k: K)
    requires k in keys
    ensures Sum(keys, f) == f(k) + Sum(keys - {k}, f)
    decreases keys
  {
    var first :| first in keys && Sum(keys, f) == f(first) + Sum(keys - {first}, f);
    if first != k {
      SumPick(keys - {first}, f, k);
      SumPick(keys - {k}, f, first);
      assert keys - {first} - {k} == keys - {k} - {first};
    }
  }

  lemma {:induction false} SumSame<K(!new)>(keys: set<K>, f: K -> nat, g: K -> nat)
    requires forall k :: k in keys ==> f(k) == g(k)
    ensures Sum(keys, f) == Sum(keys, g)
    decreases keys
  {
    if keys != {} {
      var k :| k in keys;
      SumPick(keys, f, k);
      SumPick(keys, g, k);
      SumSame(keys - {k}, f, g);
    }
  }

  lemma {:induction false} SumConstant<K(!new)>(keys: set<K>, f: K -> nat, c: nat)
    requires forall k :: k in keys ==> f(k) == c
    ensures Sum(keys, f) == c * |keys|
    decreases keys
  {
    if keys != {} {
      var k :| k in keys;
      SumPick(keys, f, k);
      SumConstant(keys - {k}, f, c);
    }
  }

  /** Conservation: the numbers under all keys in use add up to the number of filed elements. */
  lemma {:induction false} CountsAddUp<T, K(!new)>(keys: set<K>, xs: seq<T>, file: T -> Option<K>)
    requires forall i :: 0 <= i < |xs| && file(xs[i]).Some? ==> file(xs[i]).value in keys
    ensures Sum(keys, k => CountUnder(xs, file, k)) == CountFiled(xs, file)
    decreases |xs|
  {
    var all := k => CountUnder(xs, file, k);
    if xs == [] {
      SumConstant(keys, all, 0);
    } else {
      var rest := k => CountUnder(xs[1..], file, k);
      assert forall i :: 0 <= i < |xs[1..]| ==> xs[1..][i] == xs[i + 1];
      CountsAddUp(keys, xs[1..], file);
      if file(xs[0]).Some? {
        var k := file(xs[0]).value;
        SumPick(keys, all, k);
        SumPick(keys, rest, k);
        SumSame(keys - {k}, all, rest);
      } else {
        SumSame(keys, all, rest);
      }
    }
  }

  lemma {:induction false} CountedIsInUse<T, K>(xs: seq<T>, file: T -> Option<K>, i: nat)
    requires i < |xs| && file(xs[i]).Some?
    ensures CountUnder(xs, file, file(xs[i]).value) > 0
  {
    if i > 0 {
      assert xs[1..][i - 1] == xs[i];
      CountedIsInUse(xs[1..], file, i - 1);
    }
  }

  /** A counter conserves what it counted. */
  lemma CounterIsConserved<T, K(!new)>(counter: map<K, nat>, xs: seq<T>, file: T -> Option<K>)
    requires Counts(counter, xs, file)
    ensures Sum(counter.Keys, k => Get(counter, k)) == CountFiled(xs, file)
  {
    forall i | 0 <= i < |xs| && file(xs[i]).Some? ensures file(xs[i]).value in counter.Keys {
      CountedIsInUse(xs, file, i);
      assert Get(counter, file(xs[i]).value) > 0;
    }
    CountsAddUp(counter.Keys, xs, file);
    SumSame(counter.Keys, k => Get(counter, k), k => CountUnder(xs, file, k));
  }

  function Upto(n: nat): set<int> {
    if n == 0 then {} else Upto(n - 1) + {n - 1}
  }

  lemma {:induction false} UptoIsARange(n: nat)
    ensures |Upto(n)| == n
    ensures forall i :: i in Upto(n) <==> 0 <= i < n
  {
    if n > 0 {
      UptoIsARange(n - 1);
    }
  }

  /** The order of integers. */
  predicate Less(a: int, b: int) {
    a < b
  }

  function SortInts(xs: seq<int>): seq<int> {
    Sort(Less, xs)
  }

  ghost predicate Ascending(xs: seq<int>) {
    forall i, j :: 0 <= i < j < |xs| ==> xs[i] <= xs[j]
  }

  /** How many values are at most `r`. */
  function AtMost(xs: seq<int>, r: int): nat {
    if xs == [] then 0 else (if xs[0] <= r then 1 else 0) + AtMost(xs[1..], r)
  }

  lemma {:induction false} InsertKeepsCounts(x: int, xs: seq<int>, r: int)
    requires Ascending(xs)
    ensures Ascending(Insert(Less, x, xs)) && |Insert(Less, x, xs)| == |xs| + 1
    ensures AtMost(Insert(Less, x, xs), r) == AtMost(xs, r) + (if x <= r then 1 else 0)
    ensures forall y :: y in Insert(Less, x, xs) <==> y == x || y in xs
  {
    if xs != [] && x >= xs[0] {
      InsertKeepsCounts(x, xs[1..], r);
      var rest := Insert(Less, x, xs[1..]);
      assert forall j :: 0 <= j < |rest| ==> rest[j] in rest;
    }
  }

  lemma {:induction false} SortKeepsCounts(xs: seq<int>, r: int)
    ensures Ascending(SortInts(xs)) && |SortInts(xs)| == |xs|
    ensures AtMost(SortInts(xs), r) == AtMost(xs, r)
    ensures forall y :: y in SortInts(xs) <==> y in xs
  {
    if xs != [] {
      SortKeepsCounts(xs[1..], r);
      InsertKeepsCounts(xs[0], SortInts(xs[1..]), r);
    }
  }

  lemma {:induction false} AtMostOfAscending(xs: seq<int>, r: int, k: nat)
    requires Ascending(xs) && k < |xs|
    ensures xs[k] <= r ==> AtMost(xs, r) >= k + 1
    ensures xs[k] > r ==> AtMost(xs, r) <= k
    decreases |xs|
  {
    if k > 0 {
      AtMostOfAscending(xs[1..], r, k - 1);
    } else if xs[0] > r {
      NoneAtMost(xs, r);
    }
  }

  lemma {:induction false} NoneAtMost(xs: seq<int>, r: int)
    requires forall i :: 0 <= i < |xs| ==> xs[i] > r
    ensures AtMost(xs, r) == 0
  {
    if xs != [] {
      NoneAtMost(xs[1..], r);
    }
  }

  /** The rank of a quantile: the fraction `num / den` of `n`, rounded up. */
  function Rank(num: nat, den: nat, n: nat): (rank: int)
    requires 0 < num <= den && n > 0
    ensures 1 <= rank <= n && (rank - 1) * den < num * n <= rank * den
  {
    RankBounds(num, den, n);
    (num * n + den - 1) / den
  }

  lemma RankBounds(num: nat, den: nat, n: nat)
    requires 0 < num <= den && n > 0
    ensures var rank := (num * n + den - 1) / den; 1 <= rank <= n && (rank - 1) * den < num * n <= rank * den
  {
    var rank := (num * n + den - 1) / den;
    var rest := (num * n + den - 1) % den;
    assert num * n + den - 1 == rank * den + rest;
    Scale(num, den, n);
    Scale(1, num, n);
    Scale(n + 1, rank, den);
    Scale(rank, 0, den);
    assert (n + 1) * den == n * den + den;
  }

  lemma Scale(a: nat, b: nat, den: nat)
    ensures a <= b ==> a * den <= b * den
  {
  }

  /** The nearest-rank order statistic: a value that at least the fraction of the values do not exceed,
    * while fewer than the fraction lie strictly below it.
    */
  ghost predicate NearestRank(values: seq<int>, num: nat, den: nat, r: int) {
    && r in values
    && AtMost(values, r) * den >= num * |values|
    && AtMost(values, r - 1) * den < num * |values|
  }

  datatype Quantiles = Quantiles(n: nat, p50: int, p95: int, p99: int)

  function OrderStatistic(ordered: seq<int>, num: nat, den: nat): int
    requires ordered != [] && 0 < num <= den
  {
    ordered[Rank(num, den, |ordered|) - 1]
  }

  lemma StatisticIsNearestRank(values: seq<int>, num: nat, den: nat)
    requires values != [] && 0 < num <= den
    ensures SortInts(values) != [] && NearestRank(values, num, den, OrderStatistic(SortInts(values), num, den))
  {
    SortKeepsCounts(values, 0);
    var ordered := SortInts(values);
    var k := Rank(num, den, |values|) - 1;
    var r := ordered[k];
    SortKeepsCounts(values, r);
    SortKeepsCounts(values, r - 1);
    AtMostOfAscending(ordered, r, k);
    AtMostOfAscending(ordered, r - 1, k);
    Scale(k + 1, AtMost(values, r), den);
    Scale(AtMost(values, r - 1), k, den);
  }

  ghost predicate IsSummaryOf(q: Quantiles, values: seq<int>) {
    && q.n == |values|
    && NearestRank(values, 1, 2, q.p50) && NearestRank(values, 19, 20, q.p95) && NearestRank(values, 99, 100, q.p99)
  }

  /** `quantiles`: nothing for no values, else the exact nearest-rank statistics. */
  method ComputeQuantiles(values: seq<int>) returns (r: Option<Quantiles>)
    ensures r.None? <==> values == []
    ensures r.Some? ==> IsSummaryOf(r.value, values)
  {
    if values == [] { return None; }
    var ordered := SortInts(values);
    StatisticIsNearestRank(values, 1, 2);
    StatisticIsNearestRank(values, 19, 20);
    StatisticIsNearestRank(values, 99, 100);
    return Some(Quantiles(|values|, OrderStatistic(ordered, 1, 2), OrderStatistic(ordered, 19, 20),
                          OrderStatistic(ordered, 99, 100)));
  }

  /** Nearest-rank statistics are unique. */
  lemma NearestRankIsUnique(values: seq<int>, num: nat, den: nat, a: int, b: int)
    requires den > 0 && NearestRank(values, num, den, a) && NearestRank(values, num, den, b)
    ensures a == b
  {
    if a < b {
      AtMostGrows(values, a, b - 1);
      Scale(AtMost(values, a), AtMost(values, b - 1), den);
    } else if b < a {
      AtMostGrows(values, b, a - 1);
      Scale(AtMost(values, b), AtMost(values, a - 1), den);
    }
  }

  lemma {:induction false} AtMostGrows(values: seq<int>, a: int, b: int)
    requires a <= b
    ensures AtMost(values, a) <= AtMost(values, b)
  {
    if values != [] {
      AtMostGrows(values[1..], a, b);
    }
  }
}
