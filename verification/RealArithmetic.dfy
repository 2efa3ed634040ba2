/** The handful of facts about products and quotients of reals that the entropy proofs rest on. */
module RealArithmetic {

  lemma ProductSign(x: real, y: real)
    requires y > 0.0
    ensures x > 0.0 <==> x * y > 0.0
    ensures x == 0.0 <==> x * y == 0.0
  {
  }

  lemma ProductOrder(x: real, x': real, y: real)
    requires y > 0.0
    ensures x < x' <==> x * y < x' * y
    ensures x <= x' <==> x * y <= x' * y
  {
    ProductSign(x' - x, y);
    assert (x' - x) * y == x' * y - x * y;
  }

  lemma Quotient(x: real, y: real)
    requires y > 0.0
    ensures (x / y) * y == x
    ensures x / y > 0.0 <==> x > 0.0
    ensures x / y == 0.0 <==> x == 0.0
    ensures x / y < 1.0 <==> x < y
    ensures x / y == 1.0 <==> x == y
    ensures x / y > 1.0 <==> x > y
  {
    var q := x / y;
    assert q * y == x;
    ProductSign(q, y);
    ProductOrder(q, 1.0, y);
  }

  lemma Stretched(q: real, w: real, r: real)
    requires q > 1.0 && w > 0.0 && q * w == r
    ensures r > w
  {
    ProductOrder(1.0, q, w);
  }

  lemma Shrunk(q: real, w: real, r: real)
    requires q < 1.0 && w > 0.0 && q * w == r
    ensures r < w
  {
    ProductOrder(q, 1.0, w);
  }

  /** A quotient is determined by its product with the divisor. */
  lemma QuotientIs(x: real, y: real, q: real)
    requires y > 0.0 && q * y == x
    ensures x / y == q
  {
    Quotient(x, y);
    ProductSign(q - x / y, y);
    assert (q - x / y) * y == q * y - (x / y) * y;
  }

  lemma Regroup(x: real, y: real, z: real)
    ensures (x * y) * z == x * (y * z)
  {
  }

  lemma SumOfQuotients(x: real, y: real, z: real)
    requires z > 0.0
    ensures x / z + y / z == (x + y) / z
  {
    Quotient(x, z);
    Quotient(y, z);
    QuotientIs(x + y, z, x / z + y / z);
  }
}
