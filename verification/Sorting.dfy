/** Sorting by a comparator.  Callers learn only that the result is some ordered permutation, which
    is all that the source's unstable library sort promises. */
module Sorting {

  ghost predicate StrictWeakOrder<T(!new)>(less: (T, T) -> bool) {
    && (forall a, b :: less(a, b) ==> !less(b, a))
    && (forall a, b, c :: !less(b, a) && !less(c, b) ==> !less(c, a))
  }

  ghost predicate Ordered<T>(less: (T, T) -> bool, s: seq<T>) {
    forall i, j | 0 <= i < j < |s| :: !less(s[j], s[i])
  }

  method Insert<T(!new)>(s: seq<T>, x: T, less: (T, T) -> bool) returns (r: seq<T>)
    requires StrictWeakOrder(less) && Ordered(less, s)
    ensures Ordered(less, r) && multiset(r) == multiset(s) + multiset{x} && |r| == |s| + 1
  {
    var k := |s|;
    while k > 0 && less(x, s[k - 1])
      invariant 0 <= k <= |s|
      invariant forall i | k <= i < |s| :: less(x, s[i])
    {
      k := k - 1;
    }
    r := s[..k] + [x] + s[k..];
    assert s == s[..k] + s[k..];
    InsertedOrder(s, k, x, less);
  }

  lemma InsertedOrder<T(!new)>(s: seq<T>, k: nat, x: T, less: (T, T) -> bool)
    requires StrictWeakOrder(less) && Ordered(less, s) && k <= |s|
    requires forall i | k <= i < |s| :: less(x, s[i])
    requires k > 0 ==> !less(x, s[k - 1])
    ensures Ordered(less, s[..k] + [x] + s[k..])
  {
    var r := s[..k] + [x] + s[k..];
    forall i, j | 0 <= i < j < |r| ensures !less(r[j], r[i]) {
      if j == k {
        if i < k - 1 {
          assert !less(s[k - 1], s[i]);
        }
      } else if i == k {
        assert less(x, s[j - 1]);
      }
    }
  }

  method Sort<T(!new)>(s: seq<T>, less: (T, T) -> bool) returns (r: seq<T>)
    requires StrictWeakOrder(less)
    ensures Ordered(less, r) && multiset(r) == multiset(s) && |r| == |s|
  {
    r := [];
    for i := 0 to |s|
      invariant Ordered(less, r) && multiset(r) == multiset(s[..i]) && |r| == i
    {
      assert s[..i + 1] == s[..i] + [s[i]];
      r := Insert(r, s[i], less);
    }
    assert s[..|s|] == s;
  }

  /** Taking the first member of a list out of a permutation of it leaves a permutation of the rest. */
  lemma TakeOut<T>(s: seq<T>, r: seq<T>) returns (j: nat)
    requires s != [] && multiset(s) == multiset(r)
    ensures j < |r| && r[j] == s[0] && r == r[..j] + ([s[0]] + r[j + 1..])
    ensures multiset(s[1..]) == multiset(r[..j] + r[j + 1..])
  {
    var x := s[0];
    assert s == [x] + s[1..];
    assert x in multiset(r);
    j :| 0 <= j < |r| && r[j] == x;
    assert r == r[..j] + ([x] + r[j + 1..]);
    assert multiset(s[1..]) == multiset(s) - multiset{x};
    assert multiset(r[..j] + r[j + 1..]) == multiset(r) - multiset{x};
  }

  ghost function Mapped<T, U>(s: seq<T>, f: T -> U): seq<U> {
    seq(|s|, i requires 0 <= i < |s| => f(s[i]))
  }

  lemma MappedParts<T, U>(s: seq<T>, r: seq<T>, f: T -> U)
    ensures Mapped(s + r, f) == Mapped(s, f) + Mapped(r, f)
  {
  }

  /** Permuting what is mapped permutes the results. */
  lemma {:induction false} MappedPermuted<T, U>(s: seq<T>, r: seq<T>, f: T -> U)
    requires multiset(s) == multiset(r)
    ensures multiset(Mapped(s, f)) == multiset(Mapped(r, f))
    decreases |s|
  {
    if s == [] {
      assert |multiset(r)| == 0;
    } else {
      var j := TakeOut(s, r);
      MappedPermuted(s[1..], r[..j] + r[j + 1..], f);
      assert s == [s[0]] + s[1..];
      MappedParts([s[0]], s[1..], f);
      MappedParts(r[..j], [s[0]] + r[j + 1..], f);
      MappedParts([s[0]], r[j + 1..], f);
      MappedParts(r[..j], r[j + 1..], f);
    }
  }

  /** A permutation has the same members. */
  lemma SameMembers<T>(s: seq<T>, r: seq<T>)
    requires multiset(s) == multiset(r)
    ensures forall x :: x in s <==> x in r
  {
    forall x ensures x in s <==> x in r {
      assert x in s <==> x in multiset(s);
      assert x in r <==> x in multiset(r);
    }
  }

  /** Two equal members of a permutation come from two places. */
  lemma NoTwice<T>(all: seq<T>, sorted: seq<T>, i: nat, j: nat)
    requires multiset(all) == multiset(sorted) && i < j < |sorted| && sorted[i] == sorted[j]
    ensures exists a, b :: 0 <= a < b < |all| && all[a] == all[b] == sorted[i]
  {
    var x := sorted[i];
    assert sorted == sorted[..i] + [x] + sorted[i + 1..j] + [x] + sorted[j + 1..];
    assert multiset(sorted)[x] >= 2;
    var a :| 0 <= a < |all| && all[a] == x;
    var rest := all[..a] + all[a + 1..];
    assert all == all[..a] + [x] + all[a + 1..];
    assert multiset(rest)[x] >= 1;
    assert x in rest;
    var b :| 0 <= b < |rest| && rest[b] == x;
    if b < a {
      assert all[b] == all[a] == x;
    } else {
      assert all[a] == all[b + 1] == x;
    }
  }
}
