/**
 The Shannon entropy of a byte string, over the reals: the calculator's two loops against a
 specification, and what that specification promises for data of any length.
 */
module Entropy {
  import opened Backups
  import opened Logarithm
  import opened RealArithmetic

  const BYTES := 256

  // ----- specification

  function Count(data: seq<byte>, b: byte): nat {
    multiset(data)[b]
  }

  /** The fraction of the data that is byte `b`. */
  function Share(data: seq<byte>, b: byte): real
    requires data != []
  {
    Count(data, b) as real / |data| as real
  }

  /** What byte `b` contributes, in bits: -p log2 p. A byte that does not occur contributes nothing. */
  function Bits(ln: real -> real, data: seq<byte>, b: byte): real
    requires data != [] && ln(2.0) != 0.0
  {
    if Count(data, b) > 0 then -(Share(data, b) * (ln(Share(data, b)) / ln(2.0))) else 0.0
  }

  function BitsBelow(ln: real -> real, data: seq<byte>, n: nat): real
    requires data != [] && ln(2.0) != 0.0 && n <= BYTES
  {
    if n == 0 then 0.0 else BitsBelow(ln, data, n - 1) + Bits(ln, data, n - 1)
  }

  /** The entropy of the data in bits per byte; of no data, zero. */
  function ShannonEntropy(ln: real -> real, data: seq<byte>): real
    requires ln(2.0) != 0.0
  {
    if data == [] then 0.0 else BitsBelow(ln, data, BYTES)
  }

  /** The calculator: a histogram loop, then a loop that sums the contributions. */
  method ComputeShannonEntropy(ln: real -> real, data: seq<byte>) returns (entropy: real)
    requires ln(2.0) != 0.0
    ensures entropy == ShannonEntropy(ln, data)
  {
    if |data| == 0 {
      return 0.0;
    }
    var freq := new nat[BYTES](_ => 0);
    for i := 0 to |data|
      invariant forall b: byte :: freq[b] == Count(data[..i], b)
    {
      assert data[..i + 1] == data[..i] + [data[i]];
      freq[data[i]] := freq[data[i]] + 1;
    }
    assert data[..|data|] == data;

    entropy := 0.0;
    var log2 := ln(2.0);
    for i := 0 to BYTES
      invariant entropy == BitsBelow(ln, data, i)
    {
      if freq[i] > 0 {
        var p := freq[i] as real / |data| as real;
        entropy := entropy - p * (ln(p) / log2);
      }
    }
  }

  // ----- counting

  function Present(data: seq<byte>): set<byte> {
    set b: byte | b in data
  }

  /** The number of different bytes in the data. */
  function Distinct(data: seq<byte>): nat {
    |Present(data)|
  }

  function CountBelow(data: seq<byte>, n: nat): nat
    requires n <= BYTES
  {
    if n == 0 then 0 else CountBelow(data, n - 1) + Count(data, n - 1)
  }

  function DistinctBelow(data: seq<byte>, n: nat): nat
    requires n <= BYTES
  {
    if n == 0 then 0 else DistinctBelow(data, n - 1) + if Count(data, n - 1) > 0 then 1 else 0
  }

  lemma {:induction false} CountBelowOfAppend(data: seq<byte>, x: byte, n: nat)
    requires n <= BYTES
    ensures CountBelow(data + [x], n) == CountBelow(data, n) + if x < n then 1 else 0
  {
    if n > 0 { CountBelowOfAppend(data, x, n - 1); }
  }

  lemma {:induction false} CountBelowOfNothing(n: nat)
    requires n <= BYTES
    ensures CountBelow([], n) == 0
  {
    if n > 0 { CountBelowOfNothing(n - 1); }
  }

  /** The histogram loses no byte: the counts add up to the length. */
  lemma {:induction false} CountsAddUp(data: seq<byte>)
    ensures CountBelow(data, BYTES) == |data|
  {
    if data == [] {
      CountBelowOfNothing(BYTES);
    } else {
      var n := |data| - 1;
      CountsAddUp(data[..n]);
      CountBelowOfAppend(data[..n], data[n], BYTES);
      assert data[..n] + [data[n]] == data;
    }
  }

  lemma {:induction false} DistinctBelowIsCardinality(data: seq<byte>, n: nat)
    requires n <= BYTES
    ensures DistinctBelow(data, n) == |set b: byte | b in data && b < n|
  {
    var s := set b: byte | b in data && b < n;
    if n == 0 {
      assert s == {};
    } else {
      DistinctBelowIsCardinality(data, n - 1);
      var s' := set b: byte | b in data && b < n - 1;
      var last: byte := n - 1;
      assert s == if last in data then s' + {last} else s';
      assert last in data <==> Count(data, last) > 0;
    }
  }

  lemma DistinctIsSum(data: seq<byte>)
    ensures DistinctBelow(data, BYTES) == Distinct(data)
    ensures data != [] ==> Distinct(data) > 0
    ensures Distinct(data) <= BYTES
  {
    DistinctBelowIsCardinality(data, BYTES);
    assert Present(data) == set b: byte | b in data && b < BYTES;
    if data != [] { assert data[0] in Present(data); }
    DistinctBelowIsBounded(data, BYTES);
  }

  lemma {:induction false} DistinctBelowIsBounded(data: seq<byte>, n: nat)
    requires n <= BYTES
    ensures DistinctBelow(data, n) <= n
  {
    if n > 0 { DistinctBelowIsBounded(data, n - 1); }
  }

  /** All bytes that occur at all occur equally often. */
  ghost predicate Uniform(data: seq<byte>) {
    forall b, c :: b in data && c in data ==> Count(data, b) == Count(data, c)
  }

  lemma {:induction false} UniformCountBelow(data: seq<byte>, c: nat, n: nat)
    requires n <= BYTES
    requires forall b: byte :: b in data ==> Count(data, b) == c
    ensures CountBelow(data, n) == c * DistinctBelow(data, n)
  {
    if n > 0 {
      UniformCountBelow(data, c, n - 1);
      var last: byte := n - 1;
      assert last in data <==> Count(data, last) > 0;
      assert c * (DistinctBelow(data, n - 1) + 1) == c * DistinctBelow(data, n - 1) + c;
    }
  }

  // ----- one byte's contribution

  /** In natural units. */
  function Nats(ln: real -> real, data: seq<byte>, b: byte): real
    requires data != []
  {
    if Count(data, b) > 0 then -(Share(data, b) * ln(Share(data, b))) else 0.0
  }

  function NatsBelow(ln: real -> real, data: seq<byte>, n: nat): real
    requires data != [] && n <= BYTES
  {
    if n == 0 then 0.0 else NatsBelow(ln, data, n - 1) + Nats(ln, data, n - 1)
  }

  lemma BitsAreNats(p: real, l: real, l2: real)
    requires l2 > 0.0
    ensures -(p * (l / l2)) * l2 == -(p * l)
  {
    Quotient(l, l2);
    Regroup(p, l / l2, l2);
  }

  lemma {:induction false} BitsBelowAreNats(ln: real -> real, data: seq<byte>, n: nat)
    requires data != [] && ln(2.0) > 0.0 && n <= BYTES
    ensures BitsBelow(ln, data, n) * ln(2.0) == NatsBelow(ln, data, n)
  {
    if n > 0 {
      BitsBelowAreNats(ln, data, n - 1);
      BitsAreNats(Share(data, n - 1), ln(Share(data, n - 1)), ln(2.0));
    }
  }

  /** A present byte has a share in (0, 1], and the whole of it only if it is alone. */
  lemma ShareRange(data: seq<byte>, b: byte)
    requires b in data
    ensures 0.0 < Share(data, b) <= 1.0
    ensures Share(data, b) == 1.0 <==> Distinct(data) == 1
  {
    Quotient(Count(data, b) as real, |data| as real);
    CountsOfTwo(data, b);
  }

  /** A byte makes up all of the data exactly if no other one occurs. */
  lemma {:induction false} CountsOfTwo(data: seq<byte>, b: byte)
    requires b in data
    ensures 0 < Count(data, b) <= |data|
    ensures Count(data, b) == |data| <==> Distinct(data) == 1
  {
    if c :| c in data && c != b {
      assert multiset{b, c} <= multiset(data);
      assert multiset(data) == multiset(data)[b := 0] + multiset{}[b := Count(data, b)];
      assert |multiset(data)| == |multiset(data)[b := 0]| + Count(data, b);
      assert c in multiset(data)[b := 0];
      assert {b, c} <= Present(data);
      assert |Present(data)| >= |{b, c}| by { SubsetSize({b, c}, Present(data)); }
    } else {
      assert Present(data) == {b};
      assert forall x :: x in multiset(data) ==> x in data;
      assert multiset(data)[b := 0] == multiset{};
      assert multiset(data) == multiset(data)[b := 0][b := Count(data, b)];
      assert |multiset(data)| == Count(data, b);
    }
  }

  lemma {:induction false} SubsetSize<T>(a: set<T>, b: set<T>)
    requires a <= b
    ensures |a| <= |b|
  {
    assert b == a + (b - a);
  }

  /** The tangent law at 1 / m, with the exact case. */
  lemma TangentAt(ln: real -> real, m: real)
    requires IsLn(ln) && m > 0.0
    ensures -ln(m) <= 1.0 / m - 1.0
    ensures -ln(m) == 1.0 / m - 1.0 <==> m == 1.0
  {
    LnQuotient(ln, 1.0, m);
    LnOne(ln);
    Quotient(1.0, m);
    assert TangentLaw(ln, 1.0 / m);
    if m != 1.0 { TangentIsStrict(ln, 1.0 / m); }
  }

  /** (1 / (p k) - 1) p == 1 / k - p */
  lemma Scaled(p: real, k: real, r: real)
    requires p > 0.0 && k > 0.0 && r * k == 1.0
    ensures p * k > 0.0
    ensures (1.0 / (p * k)) * p == r
    ensures p * k == 1.0 <==> p == r
  {
    ProductSign(p, k);
    var q := 1.0 / (p * k);
    Quotient(1.0, p * k);
    Regroup(q, p, k);
    SameProduct(q * p, r, k);
    SameProduct(p, r, k);
  }

  lemma SameProduct(x: real, y: real, z: real)
    requires z > 0.0
    ensures x * z == y * z <==> x == y
  {
    ProductOrder(x, y, z);
    ProductOrder(y, x, z);
  }

  /**
   One term of Gibbs' inequality, against `k` equally likely values: from the tangent of the logarithm
   at 1 / (p k).
   */
  lemma GibbsTerm(ln: real -> real, p: real, k: real, r: real)
    requires IsLn(ln) && p > 0.0 && k > 0.0 && r * k == 1.0
    ensures -(p * ln(p)) <= p * ln(k) + (r - p)
    ensures -(p * ln(p)) == p * ln(k) + (r - p) <==> p == r
  {
    Scaled(p, k, r);
    var m := p * k;
    LnProduct(ln, p, k, m);
    TangentAt(ln, m);
    GibbsGap(ln(p), ln(k), ln(m), p, 1.0 / m, r);
  }

  /** The gap between tangent and logarithm, weighted with the share. */
  lemma GibbsGap(lp: real, lk: real, lm: real, p: real, q: real, r: real)
    requires p > 0.0 && lm == lp + lk && q * p == r && -lm <= q - 1.0
    ensures -(p * lp) <= p * lk + (r - p)
    ensures -(p * lp) == p * lk + (r - p) <==> -lm == q - 1.0
  {
    var gap := q - 1.0 + lp + lk;
    GapTimes(gap, lp, lk, p, q);
    ProductSign(gap, p);
  }

  lemma GapTimes(gap: real, lp: real, lk: real, p: real, q: real)
    requires gap == q - 1.0 + lp + lk
    ensures gap * p == q * p - p + p * lp + p * lk
  {
  }

  // ----- sums

  function Sum(v: seq<real>): real {
    if v == [] then 0.0 else Sum(v[..|v| - 1]) + v[|v| - 1]
  }

  /** Sums keep a termwise order, and are equal only if all terms are. */
  lemma {:induction false} SumOrder(x: seq<real>, y: seq<real>)
    requires |x| == |y| && forall i :: 0 <= i < |x| ==> x[i] <= y[i]
    ensures Sum(x) <= Sum(y)
    ensures Sum(x) == Sum(y) <==> x == y
  {
    if x != [] {
      var n := |x| - 1;
      SumOrder(x[..n], y[..n]);
      assert x == x[..n] + [x[n]] && y == y[..n] + [y[n]];
    }
  }

  /** The sum of m l + (d r - m). */
  lemma {:induction false} SumAffine(a: seq<real>, m: seq<real>, d: seq<real>, l: real, r: real)
    requires |a| == |m| == |d|
    requires forall i :: 0 <= i < |a| ==> a[i] == m[i] * l + (d[i] * r - m[i])
    ensures Sum(a) == Sum(m) * l + (Sum(d) * r - Sum(m))
  {
    if a != [] {
      var n := |a| - 1;
      SumAffine(a[..n], m[..n], d[..n], l, r);
      AffineStep(Sum(m[..n]), m[n], Sum(d[..n]), d[n], l, r);
    }
  }

  lemma AffineStep(m: real, m': real, d: real, d': real, l: real, r: real)
    ensures (m * l + (d * r - m)) + (m' * l + (d' * r - m')) == (m + m') * l + ((d + d') * r - (m + m'))
  {
  }

  lemma {:induction false} SumQuotient(m: seq<real>, c: seq<real>, len: real)
    requires |m| == |c| && len > 0.0 && forall i :: 0 <= i < |m| ==> m[i] == c[i] / len
    ensures Sum(m) == Sum(c) / len
  {
    if m == [] {
      Quotient(0.0, len);
    } else {
      var n := |m| - 1;
      SumQuotient(m[..n], c[..n], len);
      SumOfQuotients(Sum(c[..n]), c[n], len);
    }
  }

  function NatsVector(ln: real -> real, data: seq<byte>, n: nat): (v: seq<real>)
    requires data != [] && n <= BYTES
    ensures |v| == n
  {
    seq(n, i requires 0 <= i < n => Nats(ln, data, i))
  }

  function ShareVector(data: seq<byte>): (v: seq<real>)
    requires data != []
    ensures |v| == BYTES
  {
    seq(BYTES, i requires 0 <= i < BYTES => Share(data, i))
  }

  function CountVector(data: seq<byte>, n: nat): (v: seq<real>)
    requires n <= BYTES
    ensures |v| == n
  {
    seq(n, i requires 0 <= i < n => Count(data, i) as real)
  }

  function PresenceVector(data: seq<byte>, n: nat): (v: seq<real>)
    requires n <= BYTES
    ensures |v| == n
  {
    seq(n, i requires 0 <= i < n => if Count(data, i) > 0 then 1.0 else 0.0)
  }

  lemma {:induction false} NatsAreSum(ln: real -> real, data: seq<byte>, n: nat)
    requires data != [] && n <= BYTES
    ensures NatsBelow(ln, data, n) == Sum(NatsVector(ln, data, n))
  {
    if n > 0 {
      NatsAreSum(ln, data, n - 1);
      assert NatsVector(ln, data, n)[..n - 1] == NatsVector(ln, data, n - 1);
    }
  }

  lemma {:induction false} CountsAreSum(data: seq<byte>, n: nat)
    requires n <= BYTES
    ensures CountBelow(data, n) as real == Sum(CountVector(data, n))
    ensures DistinctBelow(data, n) as real == Sum(PresenceVector(data, n))
  {
    if n > 0 {
      CountsAreSum(data, n - 1);
      assert CountVector(data, n)[..n - 1] == CountVector(data, n - 1);
      assert PresenceVector(data, n)[..n - 1] == PresenceVector(data, n - 1);
    }
  }

  /** The shares add up to one. */
  lemma SharesAddUp(data: seq<byte>)
    requires data != []
    ensures Sum(ShareVector(data)) == 1.0
  {
    SumQuotient(ShareVector(data), CountVector(data, BYTES), |data| as real);
    CountsAreSum(data, BYTES);
    CountsAddUp(data);
    Quotient(|data| as real, |data| as real);
  }

  // ----- Gibbs' inequality

  /** What the inequality allows byte `b` to contribute, against `k` equal shares `r`. */
  function Allowed(lnk: real, r: real, data: seq<byte>, b: byte): real
    requires data != []
  {
    Share(data, b) * lnk + ((if Count(data, b) > 0 then 1.0 else 0.0) * r - Share(data, b))
  }

  lemma ByteWithinAllowance(ln: real -> real, data: seq<byte>, k: real, r: real, b: byte)
    requires IsLn(ln) && data != [] && k > 0.0 && r * k == 1.0
    ensures Nats(ln, data, b) <= Allowed(ln(k), r, data, b)
    ensures Nats(ln, data, b) == Allowed(ln(k), r, data, b) <==> (b in data ==> Share(data, b) == r)
  {
    assert b in data <==> Count(data, b) > 0;
    if b in data {
      ShareRange(data, b);
      GibbsTerm(ln, Share(data, b), k, r);
    } else {
      Quotient(0.0, |data| as real);
    }
  }

  function AllowedVector(lnk: real, r: real, data: seq<byte>): (v: seq<real>)
    requires data != []
    ensures |v| == BYTES
  {
    seq(BYTES, i requires 0 <= i < BYTES => Allowed(lnk, r, data, i))
  }

  /** Over all bytes the allowance is ln k. */
  lemma {:induction false} AllowedInAll(lnk: real, r: real, data: seq<byte>)
    requires data != [] && r * Distinct(data) as real == 1.0
    ensures Sum(AllowedVector(lnk, r, data)) == lnk
  {
    SumAffine(AllowedVector(lnk, r, data), ShareVector(data), PresenceVector(data, BYTES), lnk, r);
    SharesAddUp(data);
    CountsAreSum(data, BYTES);
    DistinctIsSum(data);
  }

  /** In natural units, `k` different bytes contribute at most ln k, and exactly that iff all shares are 1 / k. */
  lemma {:induction false} NatsOfAll(ln: real -> real, data: seq<byte>, k: real, r: real)
    requires IsLn(ln) && data != [] && k == Distinct(data) as real && k > 0.0 && r * k == 1.0
    ensures NatsBelow(ln, data, BYTES) <= ln(k)
    ensures NatsBelow(ln, data, BYTES) == ln(k) <==> forall b :: b in data ==> Share(data, b) == r
  {
    NatsAreSum(ln, data, BYTES);
    AllowedInAll(ln(k), r, data);
    TermwiseWithin(ln, data, k, r);
    SumOrder(NatsVector(ln, data, BYTES), AllowedVector(ln(k), r, data));
  }

  lemma TermwiseWithin(ln: real -> real, data: seq<byte>, k: real, r: real)
    requires IsLn(ln) && data != [] && k > 0.0 && r * k == 1.0
    ensures var nats, allowed := NatsVector(ln, data, BYTES), AllowedVector(ln(k), r, data);
      && (forall i :: 0 <= i < BYTES ==> nats[i] <= allowed[i])
      && (nats == allowed <==> forall b :: b in data ==> Share(data, b) == r)
  {
    var nats, allowed := NatsVector(ln, data, BYTES), AllowedVector(ln(k), r, data);
    forall i: byte
      ensures nats[i] <= allowed[i]
      ensures nats[i] == allowed[i] <==> (i in data ==> Share(data, i) == r)
    {
      ByteWithinAllowance(ln, data, k, r, i);
    }
    AllShares(nats, allowed, data, r);
  }

  lemma AllShares(nats: seq<real>, allowed: seq<real>, data: seq<byte>, r: real)
    requires data != [] && |nats| == |allowed| == BYTES
    requires forall i: byte :: nats[i] == allowed[i] <==> (i in data ==> Share(data, i) == r)
    ensures nats == allowed <==> forall b :: b in data ==> Share(data, b) == r
  {
    if nats == allowed {
      forall b | b in data
        ensures Share(data, b) == r
      {
        assert nats[b] == allowed[b];
      }
    }
  }

  // ----- equal shares

  lemma ShareIs(data: seq<byte>, b: byte, k: nat, r: real)
    requires data != [] && k > 0 && r * k as real == 1.0
    ensures Share(data, b) == r <==> Count(data, b) * k == |data|
  {
    var p, len := Share(data, b), |data| as real;
    Quotient(Count(data, b) as real, len);
    ShareAlgebra(p, len, Count(data, b) as real, k as real, r);
  }

  lemma ShareAlgebra(p: real, len: real, c: real, k: real, r: real)
    requires p * len == c && r * k == 1.0 && len > 0.0 && k > 0.0
    ensures p == r <==> c * k == len
  {
    // c k = (p k) len
    Regroup(p, len, k);
    Regroup(p, k, len);
    assert c * k == (p * k) * len;
    ProductOrder(p * k, 1.0, len);
    ProductOrder(1.0, p * k, len);
    ProductOrder(p, r, k);
    ProductOrder(r, p, k);
  }

  lemma SameFactor(c: nat, c': nat, k: nat)
    requires k > 0
    ensures c * k == c' * k <==> c == c'
  {
    if c < c' { assert c * k < c' * k; }
    if c' < c { assert c' * k < c * k; }
  }

  /** All present bytes occur equally often exactly when each occurs |data| / k times. */
  lemma {:induction false} UniformIff(data: seq<byte>)
    requires data != []
    ensures Uniform(data) <==> forall b :: b in data ==> Count(data, b) * Distinct(data) == |data|
  {
    DistinctIsSum(data);
    if Uniform(data) {
      CountsAddUp(data);
      UniformCountBelow(data, Count(data, data[0]), BYTES);
    }
    if forall b :: b in data ==> Count(data, b) * Distinct(data) == |data| {
      forall b, c | b in data && c in data
        ensures Count(data, b) == Count(data, c)
      {
        SameFactor(Count(data, b), Count(data, c), Distinct(data));
      }
    }
  }

  lemma UniformShares(data: seq<byte>, k: nat, r: real)
    requires data != [] && k == Distinct(data) && k > 0 && r * k as real == 1.0
    ensures Uniform(data) <==> forall b :: b in data ==> Share(data, b) == r
  {
    UniformIff(data);
    forall b | b in data
      ensures Share(data, b) == r <==> Count(data, b) * k == |data|
    {
      ShareIs(data, b, k, r);
    }
  }

  // ----- what the entropy of a byte string tells

  function Log2(ln: real -> real, x: real): real
    requires ln(2.0) != 0.0
  {
    ln(x) / ln(2.0)
  }

  lemma EntropyInNats(ln: real -> real, data: seq<byte>)
    requires IsLn(ln) && data != []
    ensures ln(2.0) > 0.0
    ensures ShannonEntropy(ln, data) * ln(2.0) == NatsBelow(ln, data, BYTES)
  {
    LnTwoIsPositive(ln);
    BitsBelowAreNats(ln, data, BYTES);
  }

  /**
   The upper bound. The entropy of data with `k` different bytes is at most log2 k, and reaches it
   exactly when all of them occur equally often.
   */
  lemma {:induction false} EntropyAtMostLogDistinct(ln: real -> real, data: seq<byte>)
    requires IsLn(ln) && data != []
    ensures ln(2.0) > 0.0 && Distinct(data) > 0
    ensures ShannonEntropy(ln, data) <= Log2(ln, Distinct(data) as real)
    ensures ShannonEntropy(ln, data) == Log2(ln, Distinct(data) as real) <==> Uniform(data)
  {
    EntropyInNats(ln, data);
    DistinctIsSum(data);
    var k := Distinct(data);
    var r := 1.0 / k as real;
    Quotient(1.0, k as real);
    NatsOfAll(ln, data, k as real, r);
    UniformShares(data, k, r);
    CompareBits(ShannonEntropy(ln, data), NatsBelow(ln, data, BYTES), ln(k as real), ln(2.0));
  }

  lemma CompareBits(h: real, n: real, l: real, l2: real)
    requires l2 > 0.0 && h * l2 == n
    ensures n <= l <==> h <= l / l2
    ensures n == l <==> h == l / l2
  {
    Quotient(l, l2);
    ProductOrder(h, l / l2, l2);
    ProductOrder(l / l2, h, l2);
  }

  // ----- the lower end

  lemma NatsSign(ln: real -> real, data: seq<byte>, b: byte)
    requires IsLn(ln) && data != []
    ensures Nats(ln, data, b) >= 0.0
    ensures Nats(ln, data, b) == 0.0 <==> (b in data ==> Distinct(data) == 1)
  {
    assert b in data <==> Count(data, b) > 0;
    if b in data {
      ShareRange(data, b);
      SurpriseSign(ln, Share(data, b));
    }
  }

  lemma SurpriseSign(ln: real -> real, p: real)
    requires IsLn(ln) && 0.0 < p <= 1.0
    ensures -(p * ln(p)) >= 0.0
    ensures -(p * ln(p)) == 0.0 <==> p == 1.0
  {
    LnOne(ln);
    if p < 1.0 {
      LnIncreases(ln, p, 1.0);
      ProductSign(-ln(p), p);
      assert (-ln(p)) * p == -(p * ln(p));
    }
  }

  function Zeros(n: nat): seq<real> {
    seq(n, _ => 0.0)
  }

  lemma {:induction false} SumOfZeros(n: nat)
    ensures Sum(Zeros(n)) == 0.0
  {
    if n > 0 {
      SumOfZeros(n - 1);
      assert Zeros(n)[..n - 1] == Zeros(n - 1);
    }
  }

  /** The entropy is never negative, and zero exactly for data with at most one byte value. */
  lemma {:induction false} EntropyIsZeroIff(ln: real -> real, data: seq<byte>)
    requires IsLn(ln)
    ensures ln(2.0) > 0.0
    ensures ShannonEntropy(ln, data) >= 0.0
    ensures ShannonEntropy(ln, data) == 0.0 <==> Distinct(data) <= 1
  {
    LnTwoIsPositive(ln);
    if data == [] {
      assert Present(data) == {};
    } else {
      var nats := NatsVector(ln, data, BYTES);
      DistinctIsSum(data);
      forall i: byte
        ensures nats[i] >= 0.0
        ensures nats[i] == 0.0 <==> (i in data ==> Distinct(data) == 1)
      {
        NatsSign(ln, data, i);
      }
      AllZero(nats, data);
      SumOrder(Zeros(BYTES), nats);
      SumOfZeros(BYTES);
      NatsAreSum(ln, data, BYTES);
      EntropyInNats(ln, data);
      ProductSign(ShannonEntropy(ln, data), ln(2.0));
    }
  }

  lemma AllZero(nats: seq<real>, data: seq<byte>)
    requires data != [] && |nats| == BYTES
    requires forall i: byte :: nats[i] == 0.0 <==> (i in data ==> Distinct(data) == 1)
    ensures Zeros(BYTES) == nats <==> Distinct(data) == 1
  {
    if Zeros(BYTES) == nats { assert nats[data[0]] == Zeros(BYTES)[data[0]]; }
  }

  /** Entropy depends on proportions only: scaling every count leaves it as it is. */
  lemma {:induction false} EntropyOfScaled(ln: real -> real, data: seq<byte>, scaled: seq<byte>, q: nat, n: nat)
    requires ln(2.0) != 0.0 && data != [] && q > 0 && |scaled| == q * |data| && scaled != [] && n <= BYTES
    requires forall b: byte :: Count(scaled, b) == q * Count(data, b)
    ensures BitsBelow(ln, scaled, n) == BitsBelow(ln, data, n)
  {
    if n > 0 {
      EntropyOfScaled(ln, data, scaled, q, n - 1);
      ScaledShare(data, scaled, q, n - 1);
    }
  }

  lemma ScaledShare(data: seq<byte>, scaled: seq<byte>, q: nat, b: byte)
    requires data != [] && scaled != [] && q > 0
    requires |scaled| == q * |data| && Count(scaled, b) == q * Count(data, b)
    ensures Share(scaled, b) == Share(data, b)
    ensures Count(scaled, b) > 0 <==> Count(data, b) > 0
  {
    var c, len := Count(data, b), |data|;
    CastProduct(q, c);
    CastProduct(q, len);
    SameProportion(q as real, c as real, len as real);
    if c > 0 { assert q * c > 0; }
  }

  lemma CastProduct(x: nat, y: nat)
    ensures (x * y) as real == x as real * y as real
  {
  }

  lemma SameProportion(q: real, c: real, len: real)
    requires q > 0.0 && len > 0.0
    ensures q * len > 0.0
    ensures (q * c) / (q * len) == c / len
  {
    ProductSign(len, q);
    Quotient(c, len);
    Regroup(q, c / len, len);
    QuotientIs(q * c, q * len, c / len);
  }
}
