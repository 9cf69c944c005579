/** Amounts, prices and rates are exact reals.  Addition, subtraction and multiplication never
    fail; division goes through a function value, because the source's decimal quotient rounds. */
module Arithmetic {

  const BPS_SCALE: real := 10000.0

  function Min(a: real, b: real): real {
    if a <= b then a else b
  }

  function Max(a: real, b: real): real {
    if a >= b then a else b
  }

  function Abs(a: real): real {
    if a < 0.0 then -a else a
  }

  /** The quotient used wherever the source divides two decimals: any total function of the two
      operands.  Theorems that need it exact say so. */
  type Quotient = (real, real) -> real

  ghost predicate ExactAt(quo: Quotient, a: real, b: real) {
    b != 0.0 ==> quo(a, b) == a / b
  }

  /** Division without rounding. */
  ghost predicate Exact(quo: Quotient) {
    forall a: real, b: real :: ExactAt(quo, a, b)
  }

  lemma MulMonotone(a: real, b: real, c: real)
    requires a <= b && 0.0 <= c
    ensures a * c <= b * c
  {
    assert (b - a) * c >= 0.0;
  }

  lemma MulStrict(a: real, b: real, c: real)
    requires a < b && 0.0 < c
    ensures a * c < b * c
  {
    assert (b - a) * c > 0.0;
  }

  lemma Distribute(a: real, b: real, c: real)
    ensures (a + b) * c == a * c + b * c
  {
  }
}
