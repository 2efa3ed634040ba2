/** The classification of entropies, and which inputs can reach which level. */
module EntropyLevels {
  import opened Backups
  import opened Logarithm
  import opened RealArithmetic
  import opened Entropy

  datatype EntropyLevel = Low | Normal | High | VeryHigh {
    predicate IsSuspicious() {
      VeryHigh?
    }
  }

  function Classify(entropy: real): EntropyLevel {
    if entropy < 4.0 then Low
    else if entropy < 6.5 then Normal
    else if entropy < 7.5 then High
    else VeryHigh
  }

  function LevelOf(ln: real -> real, data: seq<byte>): EntropyLevel
    requires ln(2.0) != 0.0
  {
    Classify(ShannonEntropy(ln, data))
  }

  // ----- where the thresholds fall among the numbers of different bytes

  lemma LnOrder(ln: real -> real, x: real, y: real)
    requires IsLn(ln) && x > 0.0 && y > 0.0
    ensures ln(x) < ln(y) <==> x < y
  {
    if x < y { LnIncreases(ln, x, y); }
    if y < x { LnIncreases(ln, y, x); }
  }

  lemma QuotientBelow(x: real, y: real, t: real)
    requires y > 0.0
    ensures x / y < t <==> x < t * y
  {
    Quotient(x, y);
    ProductOrder(x / y, t, y);
  }

  lemma LnOfSquare(ln: real -> real, k: nat)
    requires IsLn(ln) && k > 0
    ensures ln((k * k) as real) == 2.0 * ln(k as real)
  {
    LnProduct(ln, k as real, k as real, (k * k) as real);
  }

  /** 15 < 2^4, 90^2 < 2^13 and 181^2 < 2^15, each by the smallest margin. */
  lemma Log2Thresholds(ln: real -> real, k: nat)
    requires IsLn(ln) && k > 0
    ensures ln(2.0) > 0.0
    ensures Log2(ln, k as real) < 4.0 <==> k <= 15
    ensures Log2(ln, k as real) < 6.5 <==> k <= 90
    ensures Log2(ln, k as real) < 7.5 <==> k <= 181
    ensures k <= BYTES ==> Log2(ln, k as real) <= 8.0
  {
    LnTwoIsPositive(ln);
    LnPowersOfTwo(ln);
    var l, l2 := ln(k as real), ln(2.0);
    QuotientBelow(l, l2, 4.0);
    QuotientBelow(l, l2, 6.5);
    QuotientBelow(l, l2, 7.5);
    Quotient(l, l2);
    ProductOrder(l / l2, 8.0, l2);
    LnOfSquare(ln, k);
    Squares(k);
    LnOrder(ln, k as real, 16.0);
    LnOrder(ln, (k * k) as real, 8192.0);
    LnOrder(ln, (k * k) as real, 32768.0);
    LnOrder(ln, 256.0, k as real);
  }

  lemma Squares(k: nat)
    ensures k > 0 ==> k * k > 0
    ensures k * k < 8192 <==> k <= 90
    ensures k * k < 32768 <==> k <= 181
  {
    if k <= 90 { assert k * k <= 90 * 90; } else { assert k * k >= 91 * 91; }
    if k <= 181 { assert k * k <= 181 * 181; } else { assert k * k >= 182 * 182; }
  }

  /** The number of different bytes caps the level. */
  lemma {:induction false} LevelOfFewBytes(ln: real -> real, data: seq<byte>)
    requires IsLn(ln)
    ensures ln(2.0) > 0.0
    ensures 0.0 <= ShannonEntropy(ln, data) <= 8.0
    ensures Distinct(data) <= 15 ==> LevelOf(ln, data).Low?
    ensures Distinct(data) <= 90 ==> LevelOf(ln, data).Low? || LevelOf(ln, data).Normal?
    ensures Distinct(data) <= 181 ==> !LevelOf(ln, data).IsSuspicious()
  {
    EntropyIsZeroIff(ln, data);
    if data != [] {
      EntropyAtMostLogDistinct(ln, data);
      DistinctIsSum(data);
      Log2Thresholds(ln, Distinct(data));
    }
  }

  // ----- the caps are sharp

  /** Each of the bytes below `k`, once. */
  function Ramp(k: nat): seq<byte>
    requires k <= BYTES
  {
    seq(k, i requires 0 <= i < k => i)
  }

  lemma {:induction false} RampCount(k: nat, b: byte)
    requires k <= BYTES
    ensures Count(Ramp(k), b) == if b < k then 1 else 0
  {
    if k > 0 {
      RampCount(k - 1, b);
      var last: byte := k - 1;
      assert Ramp(k) == Ramp(k - 1) + [last];
    }
  }

  lemma {:induction false} RampDistinct(k: nat, n: nat)
    requires k <= BYTES && n <= BYTES
    ensures DistinctBelow(Ramp(k), n) == if n < k then n else k
  {
    if n > 0 {
      RampDistinct(k, n - 1);
      RampCount(k, n - 1);
    }
  }

  lemma RampEntropy(ln: real -> real, k: nat)
    requires IsLn(ln) && 0 < k <= BYTES
    ensures ln(2.0) > 0.0 && Distinct(Ramp(k)) == k
    ensures ShannonEntropy(ln, Ramp(k)) == Log2(ln, k as real)
  {
    RampDistinct(k, BYTES);
    DistinctIsSum(Ramp(k));
    forall b: byte {
      RampCount(k, b);
    }
    assert Uniform(Ramp(k));
    EntropyAtMostLogDistinct(ln, Ramp(k));
  }

  /**
   The exact thresholds: data with `k` different bytes can be suspicious if and only if k > 181, can be
   above Normal if and only if k > 90, and above Low if and only if k > 15.
   */
  lemma {:induction false} ThresholdsAreSharp(ln: real -> real, k: nat)
    requires IsLn(ln) && 0 < k <= BYTES
    ensures ln(2.0) > 0.0
    ensures (forall data :: Distinct(data) == k ==> !LevelOf(ln, data).IsSuspicious()) <==> k <= 181
    ensures (forall data :: Distinct(data) == k ==> LevelOf(ln, data).Low? || LevelOf(ln, data).Normal?) <==> k <= 90
    ensures (forall data :: Distinct(data) == k ==> LevelOf(ln, data).Low?) <==> k <= 15
  {
    RampEntropy(ln, k);
    Log2Thresholds(ln, k);
    assert Distinct(Ramp(k)) == k && LevelOf(ln, Ramp(k)) == Classify(Log2(ln, k as real));
    forall data | Distinct(data) == k
      ensures k <= 15 ==> LevelOf(ln, data).Low?
      ensures k <= 90 ==> LevelOf(ln, data).Low? || LevelOf(ln, data).Normal?
      ensures k <= 181 ==> !LevelOf(ln, data).IsSuspicious()
    {
      LevelOfFewBytes(ln, data);
    }
  }
}
