/** The nearest-rank percentile of a list of latency samples (internal/metrics/collector.go). */
module Percentile {
  import opened Sorting

  function Count<T>(s: seq<T>, p: T -> bool): nat {
    if s == [] then 0 else (if p(s[0]) then 1 else 0) + Count(s[1..], p)
  }

  /** How many samples are at most `r`. */
  function AtMost(s: seq<int>, r: int): nat {
    Count(s, (x: int) => x <= r)
  }

  /** How many samples are below `r`. */
  function Below(s: seq<int>, r: int): nat {
    Count(s, (x: int) => x < r)
  }

  /** The places of the samples that are at most `r`. */
  ghost function PlacesAtMost(s: seq<int>, r: int): set<nat> {
    set i: nat | i < |s| && s[i] <= r
  }

  /** The places of the samples below `r`. */
  ghost function PlacesBelow(s: seq<int>, r: int): set<nat> {
    set i: nat | i < |s| && s[i] < r
  }

  /** At least `pct` per cent of the samples are at most `r`, and fewer than that are below it. */
  ghost predicate NearestRank(s: seq<int>, pct: int, r: int) {
    r in s && 100 * |PlacesAtMost(s, r)| >= pct * |s| && 100 * |PlacesBelow(s, r)| < pct * |s|
  }

  lemma {:induction false} CountParts<T>(s: seq<T>, t: seq<T>, p: T -> bool)
    ensures Count(s + t, p) == Count(s, p) + Count(t, p)
  {
    if s == [] {
      assert s + t == t;
    } else {
      assert (s + t)[1..] == s[1..] + t;
      CountParts(s[1..], t, p);
    }
  }

  lemma {:induction false} CountLast<T>(s: seq<T>, p: T -> bool)
    requires s != []
    ensures Count(s, p) == Count(s[..|s| - 1], p) + (if p(s[|s| - 1]) then 1 else 0)
  {
    var last := s[|s| - 1];
    assert s == s[..|s| - 1] + [last] && [last][1..] == [];
    CountParts(s[..|s| - 1], [last], p);
  }

  lemma PlacesLast(s: seq<int>, r: int)
    requires s != []
    ensures
      var n := |s| - 1;
      && |PlacesAtMost(s, r)| == |PlacesAtMost(s[..n], r)| + (if s[n] <= r then 1 else 0)
      && |PlacesBelow(s, r)| == |PlacesBelow(s[..n], r)| + (if s[n] < r then 1 else 0)
  {
    var n: nat := |s| - 1;
    assert PlacesAtMost(s, r) == PlacesAtMost(s[..n], r) + if s[n] <= r then {n} else {};
    assert PlacesBelow(s, r) == PlacesBelow(s[..n], r) + if s[n] < r then {n} else {};
  }

  /** Counting samples is counting their places. */
  lemma {:induction false} AtMostPlaces(s: seq<int>, r: int)
    ensures AtMost(s, r) == |PlacesAtMost(s, r)|
    decreases |s|
  {
    if s != [] {
      var n := |s| - 1;
      AtMostPlaces(s[..n], r);
      CountLast(s, (x: int) => x <= r);
      hide Count, PlacesAtMost;
      PlacesLast(s, r);
    }
  }

  lemma {:induction false} BelowPlaces(s: seq<int>, r: int)
    ensures Below(s, r) == |PlacesBelow(s, r)|
    decreases |s|
  {
    if s != [] {
      var n := |s| - 1;
      BelowPlaces(s[..n], r);
      CountLast(s, (x: int) => x < r);
      hide Count, PlacesBelow;
      PlacesLast(s, r);
    }
  }

  lemma SameCounts(s: seq<int>, t: seq<int>, r: int)
    requires multiset(s) == multiset(t)
    ensures AtMost(s, r) == AtMost(t, r) && Below(s, r) == Below(t, r)
  {
    CountPermuted(s, t, (x: int) => x <= r);
    CountPermuted(s, t, (x: int) => x < r);
  }

  lemma RankCounts(s: seq<int>, pct: int, r: int)
    ensures NearestRank(s, pct, r) <==> r in s && 100 * AtMost(s, r) >= pct * |s| && 100 * Below(s, r) < pct * |s|
  {
    hide AtMost, Below, PlacesAtMost, PlacesBelow;
    AtMostPlaces(s, r);
    BelowPlaces(s, r);
  }

  lemma {:induction false} CountPermuted<T>(s: seq<T>, t: seq<T>, p: T -> bool)
    requires multiset(s) == multiset(t)
    ensures Count(s, p) == Count(t, p)
    decreases |s|
  {
    if s == [] {
      assert |multiset(t)| == 0;
    } else {
      var j := TakeOut(s, t);
      CountParts(t[..j], [s[0]] + t[j + 1..], p);
      CountParts([s[0]], t[j + 1..], p);
      CountParts(t[..j], t[j + 1..], p);
      CountPermuted(s[1..], t[..j] + t[j + 1..], p);
    }
  }

  lemma {:induction false} CountAll<T>(s: seq<T>, p: T -> bool)
    requires forall i | 0 <= i < |s| :: p(s[i])
    ensures Count(s, p) == |s|
  {
    if s != [] {
      CountAll(s[1..], p);
    }
  }

  lemma {:induction false} CountNone<T>(s: seq<T>, p: T -> bool)
    requires forall i | 0 <= i < |s| :: !p(s[i])
    ensures Count(s, p) == 0
  {
    if s != [] {
      CountNone(s[1..], p);
    }
  }

  lemma {:induction false} CountGrows<T>(s: seq<T>, p: T -> bool, q: T -> bool)
    requires forall i | 0 <= i < |s| && p(s[i]) :: q(s[i])
    ensures Count(s, p) <= Count(s, q) <= |s|
  {
    if s != [] {
      CountGrows(s[1..], p, q);
    }
  }

  /** In a sorted list, the entry at `i` has more than `i` entries at most it, and at most `i` below. */
  lemma RankOf(sorted: seq<int>, i: nat)
    requires Ordered((a: int, b: int) => a < b, sorted) && i < |sorted|
    ensures Below(sorted, sorted[i]) <= i < AtMost(sorted, sorted[i])
  {
    var r := sorted[i];
    AtMostFrom(sorted, i, r);
    BelowFrom(sorted, i, r);
  }

  lemma AtMostFrom(sorted: seq<int>, i: nat, r: int)
    requires Ordered((a: int, b: int) => a < b, sorted) && i < |sorted| && r == sorted[i]
    ensures i < AtMost(sorted, r)
  {
    var p := (x: int) => x <= r;
    var front := sorted[..i + 1];
    assert sorted == front + sorted[i + 1..];
    CountParts(front, sorted[i + 1..], p);
    CountAll(front, p);
  }

  lemma BelowFrom(sorted: seq<int>, i: nat, r: int)
    requires Ordered((a: int, b: int) => a < b, sorted) && i < |sorted| && r == sorted[i]
    ensures Below(sorted, r) <= i
  {
    var p := (x: int) => x < r;
    assert sorted == sorted[..i] + sorted[i..];
    CountParts(sorted[..i], sorted[i..], p);
    CountGrows(sorted[..i], p, p);
    CountNone(sorted[i..], p);
  }

  /** The two bounds leave one value: the percentile does not depend on how ties were sorted. */
  lemma NearestRankUnique(s: seq<int>, pct: int, q: int, r: int)
    requires NearestRank(s, pct, q) && NearestRank(s, pct, r)
    ensures q == r
  {
    RankCounts(s, pct, q);
    RankCounts(s, pct, r);
    if q < r {
      FewerThan(s, q, r);
    } else if r < q {
      FewerThan(s, r, q);
    }
  }

  lemma FewerThan(s: seq<int>, q: int, r: int)
    requires q < r
    ensures AtMost(s, q) <= Below(s, r)
  {
    CountGrows(s, (x: int) => x <= q, (x: int) => x < r);
  }

  /** No samples give zero.  A percentage up to zero gives a least sample and one above a hundred a
      greatest, because the rank is clamped; a quotient of a negative numerator is clamped to one
      whichever way it is rounded. */
  method Compute(values: array<int>, pct: int) returns (r: int)
    ensures values.Length == 0 ==> r == 0
    ensures values.Length > 0 && 1 <= pct <= 100 ==> NearestRank(values[..], pct, r)
    ensures values.Length > 0 ==> r in values[..]
    ensures values.Length > 0 && pct <= 0 ==> forall x | x in values[..] :: r <= x
    ensures values.Length > 0 && pct >= 100 ==> forall x | x in values[..] :: x <= r
  {
    if values.Length == 0 {
      return 0;
    }
    hide Count, NearestRank, AtMost, Below;
    var sorted := Sort(values[..], (a: int, b: int) => a < b);
    SameMembers(values[..], sorted);
    var n := |sorted|;
    var index := (n * pct + 99) / 100;
    if index <= 0 {
      index := 1;
    }
    if index > n {
      index := n;
    }
    r := sorted[index - 1];
    if 1 <= pct <= 100 {
      RankWithin(n, pct);
      RankOf(sorted, index - 1);
      SameCounts(values[..], sorted, r);
      RankCounts(values[..], pct, r);
    } else if pct <= 0 {
      RankLow(n, pct);
    } else {
      RankHigh(n, pct);
    }
  }

  lemma RankWithin(n: nat, pct: int)
    requires n > 0 && 1 <= pct <= 100
    ensures
      var index := (n * pct + 99) / 100;
      1 <= index <= n && 100 * index >= pct * n > 100 * (index - 1)
  {
    assert n * pct >= n && n * pct <= n * 100;
  }

  lemma RankLow(n: nat, pct: int)
    requires pct <= 0
    ensures (n * pct + 99) / 100 <= 0
  {
    assert n * pct <= 0;
  }

  lemma RankHigh(n: nat, pct: int)
    requires pct > 100
    ensures (n * pct + 99) / 100 >= n
  {
    assert n * pct >= n * 100;
  }
}
