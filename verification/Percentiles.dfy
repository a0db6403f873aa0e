/** The empirical percentiles of `src/benchmark.rs`. */
module Percentiles {
  import opened Common
  import opened Sorting

  /** Samples are sorted by their own value. */
  function Itself(x: nat): nat {
    x
  }

  /** What `sort_unstable` returns. */
  function Sort(s: seq<nat>): (r: seq<nat>)
    ensures Ascending(r, Itself) && multiset(r) == multiset(s)
  {
    if s == [] then []
    else
      assert s == [s[0]] + s[1..];
      InsertKeeps(Sort(s[1..]), s[0], Itself);
      Insert(Sort(s[1..]), s[0], Itself)
  }

  lemma SortedSize(s: seq<nat>)
    ensures |Sort(s)| == |s|
  {
    assert |multiset(Sort(s))| == |multiset(s)|;
  }

  lemma ShareBound(n: nat, percentile: nat)
    requires percentile <= 100
    ensures percentile * n <= 100 * n
  {
  }

  /** `product` hundredths of a sample, rounded up, and at least the first sample. */
  function RankOf(n: nat, product: nat): (r: nat)
    requires n > 0 && product <= 100 * n
    ensures 1 <= r <= n && 100 * r >= product
    ensures r > 1 ==> 100 * (r - 1) < product
  {
    Max(1, (product + 99) / 100)
  }

  function Rank(n: nat, percentile: nat): (r: nat)
    requires n > 0 && percentile <= 100
    ensures 1 <= r <= n
    ensures 100 * r >= percentile * n
    ensures r > 1 ==> 100 * (r - 1) < percentile * n
  {
    ShareBound(n, percentile);
    RankOf(n, percentile * n)
  }

  /** `nearest_rank` on sorted samples. */
  function NearestRank(sorted: seq<nat>, percentile: nat): nat
    requires sorted != [] && percentile <= 100
  {
    sorted[Rank(|sorted|, percentile) - 1]
  }

  /** How many samples are at most `v`. */
  function AtMost(s: seq<nat>, v: nat): nat
    decreases |s|
  {
    if s == [] then 0 else AtMost(s[..|s| - 1], v) + if s[|s| - 1] <= v then 1 else 0
  }

  lemma {:induction false} AtMostCounts(s: seq<nat>, v: nat)
    ensures AtMost(s, v) == |multiset(s)| - |Above(s, v)|
    decreases |s|
  {
    if s != [] {
      AtMostCounts(s[..|s| - 1], v);
      assert s == s[..|s| - 1] + [s[|s| - 1]];
    }
  }

  /** The samples above `v`. */
  function Above(s: seq<nat>, v: nat): multiset<nat>
    decreases |s|
  {
    if s == [] then multiset{}
    else Above(s[..|s| - 1], v) + if s[|s| - 1] > v then multiset{s[|s| - 1]} else multiset{}
  }

  lemma {:induction false} AboveHas(s: seq<nat>, v: nat, x: nat)
    ensures Above(s, v)[x] == if x > v then multiset(s)[x] else 0
    decreases |s|
  {
    if s != [] {
      AboveHas(s[..|s| - 1], v, x);
      assert s == s[..|s| - 1] + [s[|s| - 1]];
    }
  }

  /** Counting does not see the order. */
  lemma CountIgnoresOrder(a: seq<nat>, b: seq<nat>, v: nat)
    requires multiset(a) == multiset(b)
    ensures AtMost(a, v) == AtMost(b, v)
  {
    forall x
      ensures Above(a, v)[x] == Above(b, v)[x]
    {
      AboveHas(a, v, x);
      AboveHas(b, v, x);
    }
    assert Above(a, v) == Above(b, v);
    AtMostCounts(a, v);
    AtMostCounts(b, v);
  }

  /** In ascending order, everything up to position `k` is at most its sample. */
  lemma {:induction false} AtLeastSoMany(s: seq<nat>, k: nat)
    requires Ascending(s, Itself) && k < |s|
    ensures AtMost(s, s[k]) >= k + 1
    decreases |s|
  {
    if k < |s| - 1 {
      AtLeastSoMany(s[..|s| - 1], k);
    } else {
      AllAtMost(s, s[k]);
    }
  }

  lemma {:induction false} AllAtMost(s: seq<nat>, v: nat)
    requires forall i :: 0 <= i < |s| ==> s[i] <= v
    ensures AtMost(s, v) == |s|
    decreases |s|
  {
    if s != [] {
      AllAtMost(s[..|s| - 1], v);
    }
  }

  /** And a smaller sample has no more than `k` at most it. */
  lemma {:induction false} NoMoreThan(s: seq<nat>, k: nat, w: nat)
    requires Ascending(s, Itself) && k < |s| && w < s[k]
    ensures AtMost(s, w) <= k
    decreases |s|
  {
    var n := |s| - 1;
    if k < n {
      NoMoreThan(s[..n], k, w);
    } else {
      AtMostSize(s[..n], w);
    }
  }

  lemma {:induction false} AtMostSize(s: seq<nat>, v: nat)
    ensures AtMost(s, v) <= |s|
    decreases |s|
  {
    if s != [] {
      AtMostSize(s[..|s| - 1], v);
    }
  }

  predicate Reaches(s: seq<nat>, percentile: nat, v: nat) {
    100 * AtMost(s, v) >= percentile * |s|
  }

  /** The published percentile is the least sample that at least that share of the samples does not
      exceed. */
  lemma NearestRankIsLeast(values: seq<nat>, percentile: nat)
    requires values != [] && percentile <= 100
    ensures Sort(values) != []
    ensures var v := NearestRank(Sort(values), percentile);
            && v in values && Reaches(values, percentile, v)
            && forall w <- values :: Reaches(values, percentile, w) ==> v <= w
  {
    hide Sort;
    SortedSize(values);
    var s := Sort(values);
    var r := Rank(|s|, percentile);
    var v := s[r - 1];
    assert v in multiset(s);
    CountIgnoresOrder(values, s, v);
    AtLeastSoMany(s, r - 1);
    forall w <- values | w < v
      ensures !Reaches(values, percentile, w)
    {
      CountIgnoresOrder(values, s, w);
      NoMoreThan(s, r - 1, w);
      SomeAtMost(values, w);
    }
  }

  lemma {:induction false} SomeAtMost(s: seq<nat>, v: nat)
    requires v in s
    ensures AtMost(s, v) >= 1
    decreases |s|
  {
    var n := |s| - 1;
    if s[n] != v {
      assert s == s[..n] + [s[n]];
      SomeAtMost(s[..n], v);
    }
  }

  lemma HeadIsLeast(s: seq<nat>, x: nat)
    requires Ascending(s, Itself) && x in s
    ensures s[0] <= x
  {
    var i :| 0 <= i < |s| && s[i] == x;
    assert i > 0 ==> Itself(s[0]) <= Itself(s[i]);
  }

  lemma RestAscends(s: seq<nat>)
    requires Ascending(s, Itself) && s != []
    ensures Ascending(s[1..], Itself)
  {
  }

  lemma SameRest(a: seq<nat>, b: seq<nat>)
    requires a != [] && b != [] && a[0] == b[0] && multiset(a) == multiset(b)
    ensures multiset(a[1..]) == multiset(b[1..])
  {
    assert a == [a[0]] + a[1..] && b == [b[0]] + b[1..];
    assert multiset(a[1..]) == multiset(a) - multiset{a[0]};
    assert multiset(b[1..]) == multiset(b) - multiset{b[0]};
  }

  lemma SameHead(a: seq<nat>, b: seq<nat>)
    requires Ascending(a, Itself) && Ascending(b, Itself) && multiset(a) == multiset(b) && a != []
    ensures b != [] && a[0] == b[0]
  {
    hide Ascending;
    assert a[0] in multiset(b);
    assert b[0] in multiset(a);
    HeadIsLeast(a, b[0]);
    HeadIsLeast(b, a[0]);
  }

  /** Two sorted sequences of the same samples are the same sequence. */
  lemma {:induction false} SortedOnce(a: seq<nat>, b: seq<nat>)
    requires Ascending(a, Itself) && Ascending(b, Itself) && multiset(a) == multiset(b)
    ensures a == b
    decreases |a|
  {
    hide Ascending;
    if a == [] {
      assert |multiset(b)| == 0;
    } else {
      SameHead(a, b);
      SameRest(a, b);
      RestAscends(a);
      RestAscends(b);
      SortedOnce(a[1..], b[1..]);
      assert a == [a[0]] + a[1..];
    }
  }

  /** No published percentile depends on the order of the cohorts in the ring. */
  lemma PercentileIgnoresOrder(a: seq<nat>, b: seq<nat>)
    requires multiset(a) == multiset(b)
    ensures Sort(a) == Sort(b)
  {
    hide Sort;
    SortedOnce(Sort(a), Sort(b));
  }

  /** min <= P50 <= P95 <= P99 <= max, and min and max bound every sample. */
  lemma PercentilesAscend(values: seq<nat>)
    requires values != []
    ensures Sort(values) != []
    ensures var s := Sort(values);
            && s[0] <= NearestRank(s, 50) <= NearestRank(s, 95) <= NearestRank(s, 99) <= s[|s| - 1]
            && (forall x <- values :: s[0] <= x <= s[|s| - 1])
            && s[0] in values && s[|s| - 1] in values
  {
    hide Sort, Rank;
    SortedSize(values);
    var s := Sort(values);
    assert Rank(|s|, 50) <= Rank(|s|, 95) <= Rank(|s|, 99);
    forall x <- values
      ensures s[0] <= x <= s[|s| - 1]
    {
      assert x in multiset(values) && x in s;
    }
    assert s[0] in multiset(s) && s[|s| - 1] in multiset(s);
  }
}
