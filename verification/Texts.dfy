/** The order of texts that the source's string comparison defines. */
module Texts {

  predicate TextBefore(a: string, b: string) {
    if b == [] then false
    else if a == [] then true
    else if a[0] != b[0] then a[0] < b[0]
    else TextBefore(a[1..], b[1..])
  }

  /** After a common front of `k` characters the first text ends or has the lesser character. */
  ghost predicate LesserAfter(a: string, b: string, k: nat) {
    k <= |a| && k < |b| && a[..k] == b[..k] && (k == |a| || a[k] < b[k])
  }

  ghost predicate Lesser(a: string, b: string) {
    exists k: nat :: LesserAfter(a, b, k)
  }

  lemma {:induction false} TextBeforeIff(a: string, b: string)
    ensures TextBefore(a, b) <==> Lesser(a, b)
  {
    if a == [] || b == [] || a[0] != b[0] {
      assert b != [] && (a == [] || a[0] < b[0]) ==> LesserAfter(a, b, 0);
      assert forall k: nat :: k > 0 && k <= |a| && k <= |b| && a[..k] == b[..k] ==> a[..k][0] == a[0] && b[..k][0] == b[0];
    } else {
      TextBeforeIff(a[1..], b[1..]);
      if k: nat :| LesserAfter(a[1..], b[1..], k) {
        assert a[..k + 1] == [a[0]] + a[1..][..k] && b[..k + 1] == [b[0]] + b[1..][..k];
        assert LesserAfter(a, b, k + 1);
      }
      if k: nat :| LesserAfter(a, b, k) {
        assert a[1..][..k - 1] == a[..k][1..] && b[1..][..k - 1] == b[..k][1..];
        assert LesserAfter(a[1..], b[1..], k - 1);
      }
    }
  }

  lemma {:induction false} TextTotal(a: string, b: string)
    ensures !(TextBefore(a, b) && TextBefore(b, a))
    ensures a == b <==> !TextBefore(a, b) && !TextBefore(b, a)
  {
    if a != [] && b != [] && a[0] == b[0] {
      TextTotal(a[1..], b[1..]);
      assert a == [a[0]] + a[1..] && b == [b[0]] + b[1..];
    }
  }

  lemma {:induction false} TextTransitive(a: string, b: string, c: string)
    requires TextBefore(a, b) && TextBefore(b, c)
    ensures TextBefore(a, c)
  {
    if a != [] && a[0] == b[0] == c[0] {
      TextTransitive(a[1..], b[1..], c[1..]);
    }
  }
}
