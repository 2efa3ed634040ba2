/** What the entropy analysis says about the synthetic data made from a source path. */
module SyntheticAnalysis {
  import opened Backups
  import opened SyntheticData
  import opened Logarithm
  import opened Entropy
  import opened EntropyLevels

  /** The path consists of ASCII characters only. */
  predicate IsAscii(path: seq<byte>) {
    forall b :: b in path ==> b < 128
  }

  lemma {:induction false} CycledBytes(path: seq<byte>, n: nat)
    ensures forall b :: b in Cycled(path, n) ==> b in path
    decreases n
  {
    if path != [] && n >= |path| { CycledBytes(path, n - |path|); }
  }

  /** No ASCII path is ever flagged, however many bytes of it are analysed. */
  lemma AsciiIsNeverSuspicious(ln: real -> real, path: seq<byte>, n: nat)
    requires IsLn(ln) && IsAscii(path)
    ensures ln(2.0) > 0.0
    ensures !LevelOf(ln, Cycled(path, n)).IsSuspicious()
  {
    var data := Cycled(path, n);
    CycledBytes(path, n);
    assert Present(data) == set b: byte | b in data && b < 128;
    DistinctBelowIsCardinality(data, 128);
    DistinctBelowIsBounded(data, 128);
    LevelOfFewBytes(ln, data);
  }

  // ----- the histogram of repeated data

  /** Position by position: the i-th byte is the path's byte at i modulo its length. */
  lemma {:induction false} CycledAt(path: seq<byte>, n: nat, i: nat)
    requires path != [] && i < n
    ensures Cycled(path, n)[i] == path[i % |path|]
    decreases n
  {
    if i < |path| {
      SmallMod(i, |path|);
    } else {
      CycledAt(path, n - |path|, i - |path|);
      ModStep(i - |path|, |path|);
    }
  }

  lemma SmallMod(i: nat, m: nat)
    requires i < m
    ensures i % m == i
  {
  }

  lemma ModStep(i: nat, m: nat)
    requires m > 0
    ensures (i + m) % m == i % m
  {
    var x := i + m;
    ZeroMultiple(x / m - i / m - 1, m, i % m - x % m);
  }

  lemma ZeroMultiple(d: int, m: int, x: int)
    requires m > 0 && d * m == x
    ensures -m < x < m ==> x == 0
  {
    if d >= 1 { assert d * m >= m; }
    if d <= -1 { assert (-d) * m >= m; }
  }

  /** q * m + x, by repeated addition. */
  function Climb(q: nat, m: nat, x: nat): nat {
    if q == 0 then x else m + Climb(q - 1, m, x)
  }

  lemma {:induction false} ClimbIs(q: nat, m: nat, x: nat)
    ensures Climb(q, m, x) == q * m + x
  {
    if q > 0 {
      ClimbIs(q - 1, m, x);
      assert q * m == (q - 1) * m + m;
    }
  }

  lemma CountOfCycle(path: seq<byte>, n: nat, b: byte)
    requires path != []
    ensures Count(Cycled(path, |path| + n), b) == Count(path, b) + Count(Cycled(path, n), b)
  {
  }

  lemma FirstCycle(path: seq<byte>, r: nat, b: byte)
    requires r < |path|
    ensures Count(Cycled(path, r), b) == Count(path[..r], b)
  {
  }

  lemma {:induction false} CountOfCycles(path: seq<byte>, q: nat, r: nat, b: byte)
    requires r < |path|
    ensures Count(Cycled(path, Climb(q, |path|, r)), b) == Climb(q, Count(path, b), Count(path[..r], b))
  {
    if q == 0 {
      FirstCycle(path, r, b);
    } else {
      var n := Climb(q - 1, |path|, r);
      CountOfCycles(path, q - 1, r, b);
      CountOfCycle(path, n, b);
      assert Climb(q, |path|, r) == |path| + n;
    }
  }

  /** The first q |path| + r bytes hold every byte q times as often as the path, plus its first r bytes. */
  lemma CycledCount(path: seq<byte>, q: nat, r: nat, b: byte)
    requires r < |path|
    ensures q * |path| + r >= 0
    ensures Count(Cycled(path, q * |path| + r), b) == q * Count(path, b) + Count(path[..r], b)
  {
    ClimbIs(q, |path|, r);
    ClimbIs(q, Count(path, b), Count(path[..r], b));
    CountOfCycles(path, q, r, b);
  }

  /** If the path fits a whole number of times, its repetition has the entropy of the path itself. */
  lemma {:induction false} WholeCyclesKeepEntropy(ln: real -> real, path: seq<byte>, q: nat)
    requires ln(2.0) != 0.0 && path != [] && q > 0
    ensures q * |path| > 0
    ensures ShannonEntropy(ln, Cycled(path, q * |path|)) == ShannonEntropy(ln, path)
  {
    assert q * |path| > 0;
    forall b: byte
      ensures Count(Cycled(path, q * |path|), b) == q * Count(path, b)
    {
      CycledCount(path, q, 0, b);
    }
    EntropyOfScaled(ln, path, Cycled(path, q * |path|), q, BYTES);
  }

  /** A path whose length divides 4096 is judged alike by the analyze endpoint and by the worker. */
  lemma SameVerdict(ln: real -> real, path: seq<byte>)
    requires ln(2.0) != 0.0 && path != [] && 4096 % |path| == 0
    ensures ShannonEntropy(ln, Cycled(path, 4096)) == ShannonEntropy(ln, path)
    ensures ShannonEntropy(ln, Cycled(path, 8192)) == ShannonEntropy(ln, path)
  {
    var q := 4096 / |path|;
    assert 4096 == q * |path|;
    assert 8192 == (2 * q) * |path|;
    WholeCyclesKeepEntropy(ln, path, q);
    WholeCyclesKeepEntropy(ln, path, 2 * q);
  }
}
