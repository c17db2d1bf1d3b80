/** The benchmark client's latency histogram: power-of-two nanosecond buckets and a quantile bound. */
module Histogram {
  import opened Common

  const BUCKETS: nat := 64
  const MAX_NS: nat := 0xFFFF_FFFF_FFFF_FFFF

  /** Position of the highest set bit. */
  function Log2(n: nat): (k: nat)
    requires n >= 1
    ensures Pow2(k) <= n < Pow2(k + 1)
  {
    if n == 1 then 0 else 1 + Log2(n / 2)
  }

  function Index(ns: nat): (i: nat)
    ensures i < BUCKETS
  {
    if ns == 0 then 0 else if Log2(ns) < BUCKETS then Log2(ns) else BUCKETS - 1
  }

  lemma LogMonotone(a: nat, b: nat)
    requires 1 <= a <= b
    ensures Log2(a) <= Log2(b)
  {
    if Log2(a) > Log2(b) { PowMonotone(Log2(b) + 1, Log2(a)); }
  }

  lemma IndexMonotone(a: nat, b: nat)
    requires a <= b
    ensures Index(a) <= Index(b)
  {
    if a >= 1 { LogMonotone(a, b); }
  }

  // ---- counting -----------------------------------------------------------------------------

  function InBucket(samples: seq<nat>, i: nat): nat {
    if samples == [] then 0 else InBucket(samples[..|samples| - 1], i) + if Index(samples[|samples| - 1]) == i then 1 else 0
  }

  predicate IsMax(samples: seq<nat>, m: nat) {
    && (forall i :: 0 <= i < |samples| ==> samples[i] <= m)
    && (if samples == [] then m == 0 else m in samples)
  }

  lemma MaxSnoc(samples: seq<nat>, m: nat, ns: nat)
    requires IsMax(samples, m)
    ensures IsMax(samples + [ns], if ns > m then ns else m)
  {
    assert (samples + [ns])[|samples|] == ns;
  }

  lemma BucketsSnoc(samples: seq<nat>, ns: nat)
    ensures forall i :: InBucket(samples + [ns], i) == InBucket(samples, i) + if Index(ns) == i then 1 else 0
  {
    assert (samples + [ns])[..|samples|] == samples;
  }

  /** Samples whose bucket is before `i`. */
  function Before(samples: seq<nat>, i: nat): nat {
    if samples == [] then 0 else Before(samples[..|samples| - 1], i) + if Index(samples[|samples| - 1]) < i then 1 else 0
  }

  function Below(samples: seq<nat>, q: nat): nat {
    if samples == [] then 0 else Below(samples[..|samples| - 1], q) + if samples[|samples| - 1] < q then 1 else 0
  }

  function AtMost(samples: seq<nat>, q: nat): nat { Below(samples, q + 1) }

  /** `q` is the k-th smallest sample. */
  predicate KthSmallest(samples: seq<nat>, k: nat, q: nat) { Below(samples, q) < k <= AtMost(samples, q) }

  lemma {:induction false} BeforeNext(samples: seq<nat>, i: nat)
    ensures Before(samples, i + 1) == Before(samples, i) + InBucket(samples, i)
    decreases |samples|
  {
    if samples != [] { BeforeNext(samples[..|samples| - 1], i); }
  }

  lemma {:induction false} BeforeEnds(samples: seq<nat>)
    ensures Before(samples, 0) == 0 && Before(samples, BUCKETS) == |samples|
    ensures forall i :: Before(samples, i) <= |samples|
    decreases |samples|
  {
    if samples != [] { BeforeEnds(samples[..|samples| - 1]); }
  }

  lemma {:induction false} BucketsVersusValue(samples: seq<nat>, i: nat, q: nat)
    ensures Index(q) >= i ==> Before(samples, i) <= Below(samples, q)
    ensures Index(q) < i ==> AtMost(samples, q) <= Before(samples, i)
    decreases |samples|
  {
    if samples != [] {
      var x := samples[|samples| - 1];
      BucketsVersusValue(samples[..|samples| - 1], i, q);
      if q <= x { IndexMonotone(q, x); } else { IndexMonotone(x, q); }
    }
  }

  /** The bucket that the cumulative count says holds the k-th sample does hold it. */
  lemma KthInBucket(samples: seq<nat>, k: nat, i: nat, q: nat)
    requires KthSmallest(samples, k, q) && Before(samples, i) < k <= Before(samples, i + 1)
    ensures Index(q) == i
  {
    BucketsVersusValue(samples, i, q);
    BucketsVersusValue(samples, i + 1, q);
  }

  lemma {:induction false} BelowMeansSmaller(samples: seq<nat>, q: nat)
    ensures Below(samples, q) <= AtMost(samples, q) <= |samples|
    ensures AtMost(samples, q) > Below(samples, q) ==> q in samples
    decreases |samples|
  {
    if samples != [] {
      BelowMeansSmaller(samples[..|samples| - 1], q);
      assert samples == samples[..|samples| - 1] + [samples[|samples| - 1]];
    }
  }

  lemma {:induction false} NothingBelowZero(samples: seq<nat>)
    ensures Below(samples, 0) == 0
    decreases |samples|
  {
    if samples != [] { NothingBelowZero(samples[..|samples| - 1]); }
  }

  lemma {:induction false} AllAtMost(samples: seq<nat>, m: nat)
    requires forall i :: 0 <= i < |samples| ==> samples[i] <= m
    ensures AtMost(samples, m) == |samples|
    decreases |samples|
  {
    if samples != [] { AllAtMost(samples[..|samples| - 1], m); }
  }

  /** There is a k-th smallest sample, below any bound that k samples respect. */
  lemma {:induction false} KthBelow(samples: seq<nat>, k: nat, m: nat) returns (q: nat)
    requires 1 <= k <= AtMost(samples, m)
    ensures q in samples && KthSmallest(samples, k, q)
    decreases m
  {
    if Below(samples, m) < k {
      q := m;
      BelowMeansSmaller(samples, q);
    } else {
      if m == 0 { NothingBelowZero(samples); }
      q := KthBelow(samples, k, m - 1);
    }
  }

  function Ceil(x: real): int { -((-x).Floor) }

  /** The rank a quantile asks for; a negative product saturates at zero. */
  function Rank(total: nat, p: real): nat { if Ceil(total as real * p) >= 0 then Ceil(total as real * p) else 0 }

  function BucketTopUpTo(i: nat, top: nat): nat { Pow2(if i + 1 <= top then i + 1 else top) }

  function BucketTop(i: nat): nat { BucketTopUpTo(i, BUCKETS - 1) }

  /** Bucket `i` is the first at which the cumulative count reaches rank `k`. */
  predicate Holds(samples: seq<nat>, k: nat, i: int) {
    0 <= i < BUCKETS && k <= Before(samples, i + 1) && (i > 0 ==> Before(samples, i) < k)
  }

  /** What the returned value says about the sample it stands for. */
  predicate BoundsUpTo(q: nat, r: nat, top: nat) {
    if q >= Pow2(top) then r == Pow2(top) else q < r <= 2 * q || (q == 0 && r == 2)
  }

  predicate Bounds(q: nat, r: nat) { BoundsUpTo(q, r, BUCKETS - 1) }

  class LatencyHistogram {
    const buckets: array<nat>
    var maxNs: nat
    ghost var samples: seq<nat>

    ghost predicate Valid()
      reads this, buckets
    {
      && buckets.Length == BUCKETS
      && (forall i :: 0 <= i < BUCKETS ==> buckets[i] == InBucket(samples, i))
      && maxNs <= MAX_NS && IsMax(samples, maxNs)
    }

    constructor ()
      ensures Valid() && samples == [] && fresh(buckets)
    {
      buckets := new nat[BUCKETS](_ => 0);
      maxNs, samples := 0, [];
    }

    method Record(dur: nat)
      requires Valid()
      modifies this, buckets
      ensures Valid() && samples == old(samples) + [if dur <= MAX_NS then dur else MAX_NS]
    {
      var ns := if dur <= MAX_NS then dur else MAX_NS;
      MaxSnoc(samples, maxNs, ns);
      CountIn(ns);
      if ns > maxNs { maxNs := ns; }
      samples := samples + [ns];
    }

    method CountIn(ns: nat)
      requires buckets.Length == BUCKETS && forall i :: 0 <= i < BUCKETS ==> buckets[i] == InBucket(samples, i)
      modifies buckets
      ensures forall i :: 0 <= i < BUCKETS ==> buckets[i] == InBucket(samples + [ns], i)
    {
      BucketsSnoc(samples, ns);
      var idx := Index(ns);
      buckets[idx] := buckets[idx] + 1;
    }

    method Total() returns (n: nat)
      requires Valid()
      ensures n == |samples|
    {
      n := 0;
      var i := 0;
      BeforeEnds(samples);
      while i < BUCKETS
        invariant i <= BUCKETS && n == Before(samples, i)
      {
        BeforeNext(samples, i);
        n, i := n + buckets[i], i + 1;
      }
    }

    /** Walks the buckets until the cumulative count reaches the rank. */
    method Percentile(p: real) returns (r: nat)
      requires Valid()
      ensures samples == [] ==> r == 0
      ensures samples != [] ==>
        var k := Rank(|samples|, p);
        if k > |samples| then r == maxNs
        else exists i :: Holds(samples, k, i) && r == BucketTop(i)
      ensures samples != [] && 0.0 < p <= 1.0 ==>
        && (exists q :: q in samples && KthSmallest(samples, Rank(|samples|, p), q))
        && (forall q :: KthSmallest(samples, Rank(|samples|, p), q) ==> Bounds(q, r))
    {
      var total := Total();
      if total == 0 { return 0; }
      var target := Rank(total, p);
      var cum, i := 0, 0;
      BeforeEnds(samples);
      while i < BUCKETS
        invariant i <= BUCKETS && cum == Before(samples, i) && (i > 0 ==> cum < target)
      {
        BeforeNext(samples, i);
        cum := cum + buckets[i];
        if cum >= target {
          assert Holds(samples, target, i);
          if 0.0 < p <= 1.0 {
            RankInRange(total, p);
            AllAtMost(samples, maxNs);
            var _ := KthBelow(samples, target, maxNs);
            forall q | KthSmallest(samples, target, q) ensures Bounds(q, BucketTop(i)) { QuantileBound(samples, p, q, i); }
          }
          return BucketTop(i);
        }
        i := i + 1;
      }
      if 0.0 < p <= 1.0 { RankInRange(total, p); }
      return maxNs;
    }
  }

  /** Where a value stands between powers of two. */
  lemma AmongPowers(q: nat, top: nat)
    requires q >= 1
    ensures q >= Pow2(top) <==> Log2(q) >= top
    ensures q < Pow2(Log2(q) + 1) <= 2 * q
  {
    if Log2(q) >= top { PowMonotone(top, Log2(q)); } else { PowMonotone(Log2(q) + 1, top); }
  }

  lemma TopOfBucket(q: nat, i: nat, top: nat)
    requires top >= 1 && if q == 0 then i == 0 else i == if Log2(q) <= top then Log2(q) else top
    ensures BoundsUpTo(q, BucketTopUpTo(i, top), top)
  {
    if q >= 1 {
      AmongPowers(q, top);
    } else {
      PowMonotone(1, top);
      assert Pow2(1) == 2;
    }
  }

  /**
   The quantile bound: for 0 < p <= 1 the sample of rank ceil(p x n) lies in [r/2, r) for the value r
   that `Percentile` returns (or is 0 with r = 2), unless it is 2^63 ns or more, where r stays 2^63.
   */
  lemma QuantileBound(samples: seq<nat>, p: real, q: nat, i: nat)
    requires samples != [] && 0.0 < p <= 1.0 && Holds(samples, Rank(|samples|, p), i)
    requires KthSmallest(samples, Rank(|samples|, p), q)
    ensures Bounds(q, BucketTop(i))
  {
    RankInRange(|samples|, p);
    BeforeEnds(samples);
    KthInBucket(samples, Rank(|samples|, p), i, q);
    TopOfBucket(q, i, BUCKETS - 1);
  }

  lemma RankInRange(n: nat, p: real)
    requires n >= 1 && 0.0 < p <= 1.0
    ensures 1 <= Rank(n, p) <= n
    ensures (Rank(n, p) - 1) as real < n as real * p <= Rank(n, p) as real
  {
    assert 0.0 < n as real * p <= n as real;
  }
}
