/**
 What the proofs need to know about the natural logarithm: it turns products into sums and lies below
 its tangent at 1. Everything else here follows from these two laws.
 */
module Logarithm {
  import opened RealArithmetic

  ghost predicate ProductLaw(ln: real -> real, x: real, y: real) {
    x > 0.0 && y > 0.0 ==> ln(x * y) == ln(x) + ln(y)
  }

  ghost predicate TangentLaw(ln: real -> real, x: real) {
    x > 0.0 ==> ln(x) <= x - 1.0
  }

  ghost predicate IsLn(ln: real -> real) {
    && (forall x, y :: ProductLaw(ln, x, y))
    && (forall x :: TangentLaw(ln, x))
  }

  lemma LnOne(ln: real -> real)
    requires IsLn(ln)
    ensures ln(1.0) == 0.0
  {
    assert ProductLaw(ln, 1.0, 1.0);
  }

  lemma LnProduct(ln: real -> real, x: real, y: real, z: real)
    requires IsLn(ln) && x > 0.0 && y > 0.0 && z == x * y
    ensures ln(z) == ln(x) + ln(y)
  {
    assert ProductLaw(ln, x, y);
  }

  lemma LnQuotient(ln: real -> real, x: real, y: real)
    requires IsLn(ln) && x > 0.0 && y > 0.0
    ensures ln(x / y) == ln(x) - ln(y)
  {
    Quotient(x, y);
    LnProduct(ln, x / y, y, x);
  }

  lemma LnIncreases(ln: real -> real, x: real, y: real)
    requires IsLn(ln) && 0.0 < x < y
    ensures ln(x) < ln(y)
  {
    LnQuotient(ln, x, y);
    Quotient(x, y);
    assert TangentLaw(ln, x / y);
  }

  lemma LnTwoIsPositive(ln: real -> real)
    requires IsLn(ln)
    ensures ln(2.0) > 0.0
  {
    LnOne(ln);
    LnIncreases(ln, 1.0, 2.0);
  }

  /** For every point, the law at the point itself bounds `ln` from below at any other point. */
  lemma LnBelow(ln: real -> real, a: real, z: real)
    requires IsLn(ln) && a > 0.0 && z > 0.0 && ln(a) == a - 1.0
    ensures ln(z) >= a - a / z
  {
    LnQuotient(ln, a, z);
    Quotient(a, z);
    assert TangentLaw(ln, a / z);
  }

  /** The tangent touches the logarithm at 1 and nowhere else. */
  lemma TangentIsStrict(ln: real -> real, a: real)
    requires IsLn(ln) && a > 0.0 && a != 1.0
    ensures ln(a) < a - 1.0
  {
    assert TangentLaw(ln, a);
    if ln(a) == a - 1.0 {
      var z := (1.0 + a) / 2.0;
      LnBelow(ln, a, z);
      assert TangentLaw(ln, z);
      Between(a, z);
    }
  }

  lemma Between(a: real, z: real)
    requires a > 0.0 && a != 1.0 && z == (1.0 + a) / 2.0
    ensures a - a / z > z - 1.0
  {
    var q := a / z;
    Quotient(a, z);
    assert q * (z - 1.0) == a - q;
    if a > 1.0 {
      Stretched(q, z - 1.0, a - q);
    } else {
      Shrunk(q, 1.0 - z, q - a);
    }
  }

  lemma LnSquare(ln: real -> real, x: real)
    requires IsLn(ln) && x > 0.0
    ensures ln(x * x) == 2.0 * ln(x)
  {
    assert ProductLaw(ln, x, x);
  }

  lemma LnPowersOfTwo(ln: real -> real)
    requires IsLn(ln)
    ensures ln(16.0) == 4.0 * ln(2.0)
    ensures ln(256.0) == 8.0 * ln(2.0)
    ensures ln(8192.0) == 13.0 * ln(2.0)
    ensures ln(32768.0) == 15.0 * ln(2.0)
  {
    LnSquare(ln, 2.0);
    LnSquare(ln, 4.0);
    LnSquare(ln, 16.0);
    assert ProductLaw(ln, 2.0, 16.0);
    assert ProductLaw(ln, 256.0, 32.0);
    assert ProductLaw(ln, 4.0, 32.0);
    assert ProductLaw(ln, 256.0, 128.0);
  }
}
