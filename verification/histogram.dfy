/**
 The latency histogram and its percentiles (core/src/pipeline/metrics.cpp).
 */
module HistogramSpec {

  const BOUNDS_US: seq<nat> := [
    50, 100, 200, 500, 1000, 2000, 5000, 10000, 20000,
    50000, 100000, 200000, 500000, 1000000, 2000000, 5000000, 10000000]

  const BINS := 18

  /** `std::lower_bound`: the first bucket from `i` on whose bound is at least `us`. */
  function LowerBound(us: nat, i: nat): (b: nat)
    requires i <= |BOUNDS_US|
    ensures i <= b <= |BOUNDS_US|
    ensures b < |BOUNDS_US| ==> us <= BOUNDS_US[b]
    ensures forall k :: i <= k < b ==> BOUNDS_US[k] < us
    decreases |BOUNDS_US| - i
  {
    if i == |BOUNDS_US| || us <= BOUNDS_US[i] then i else LowerBound(us, i + 1)
  }

  function Microseconds(ns: nat): nat {
    ns / 1000
  }

  function Bucket(us: nat): nat {
    LowerBound(us, 0)
  }

  function Sum(bins: seq<nat>): nat {
    if bins == [] then 0 else Sum(bins[..|bins| - 1]) + bins[|bins| - 1]
  }

  function Ceil(x: real): int {
    -((-x).Floor)
  }

  /** The rank that a percentile asks for. */
  function Rank(p: real, count: nat): int {
    Ceil(p * count as real)
  }

  /** The first bucket, from `i` on, at which the running count reaches the target. */
  function Reaching(bins: seq<nat>, target: int, i: nat): (b: nat)
    requires i <= |bins|
    ensures i <= b <= |bins|
    decreases |bins| - i
  {
    if i == |bins| || Sum(bins[..i + 1]) >= target then i else Reaching(bins, target, i + 1)
  }

  /** The upper bound of a bucket in milliseconds; past the last bound it is the true maximum. */
  function BoundMs(b: nat, maxNs: nat): real {
    if b < |BOUNDS_US| then BOUNDS_US[b] as real / 1000.0 else maxNs as real / 1000000.0
  }

  function PercentileMs(bins: seq<nat>, p: real, count: nat, maxNs: nat): real {
    if count == 0 then 0.0 else BoundMs(Reaching(bins, Rank(p, count), 0), maxNs)
  }

  // Histories of observed durations

  ghost function CountIn(samples: seq<nat>, b: nat): nat {
    if samples == [] then 0
    else CountIn(samples[..|samples| - 1], b) + if Bucket(Microseconds(samples[|samples| - 1])) == b then 1 else 0
  }

  ghost function Maximum(samples: seq<nat>): nat {
    if samples == [] then 0
    else
      var m := Maximum(samples[..|samples| - 1]);
      if samples[|samples| - 1] >= m then samples[|samples| - 1] else m
  }

  /** `std::numeric_limits<uint64_t>::max()`. */
  const NO_MINIMUM := 0xFFFF_FFFF_FFFF_FFFF

  ghost function Minimum(samples: seq<nat>): nat {
    if samples == [] then NO_MINIMUM
    else
      var m := Minimum(samples[..|samples| - 1]);
      if samples[|samples| - 1] < m then samples[|samples| - 1] else m
  }

  ghost predicate Records(bins: seq<nat>, samples: seq<nat>) {
    |bins| == BINS && forall b :: 0 <= b < BINS ==> bins[b] == CountIn(samples, b)
  }
}

module Histogram {
  import opened HistogramSpec

  datatype Snapshot = Snapshot(count: nat, errors: nat, avgMs: real, minMs: real, maxMs: real, p50Ms: real, p95Ms: real,
                               p99Ms: real)

  class StageAccumulator {
    var count: nat
    var errors: nat
    var sumNs: nat
    var minNs: nat
    var maxNs: nat
    const bins: array<nat>

    /** The accumulator holds what was observed so far. */
    ghost predicate Holds(samples: seq<nat>)
      reads this, bins
    {
      && Records(bins[..], samples) && count == |samples| && sumNs == Sum(samples)
      && minNs == Minimum(samples) && maxNs == Maximum(samples)
    }

    constructor ()
      ensures Holds([]) && errors == 0 && fresh(bins)
    {
      count, errors, sumNs, maxNs := 0, 0, 0, 0;
      minNs := NO_MINIMUM;
      bins := new nat[BINS](_ => 0);
    }

    method Observe(durationNs: nat, ok: bool, ghost samples: seq<nat>)
      requires Holds(samples)
      modifies this, bins
      ensures Holds(samples + [durationNs])
      ensures errors == old(errors) + if ok then 0 else 1
    {
      count := count + 1;
      if !ok {
        errors := errors + 1;
      }
      sumNs := sumNs + durationNs;
      minNs := if durationNs < minNs then durationNs else minNs;
      maxNs := if durationNs > maxNs then durationNs else maxNs;
      var b := Bucket(Microseconds(durationNs));
      bins[b] := bins[b] + 1;
      assert (samples + [durationNs])[..|samples|] == samples;
    }

    method PercentileMs(p: real) returns (ms: real)
      requires bins.Length == BINS
      ensures ms == HistogramSpec.PercentileMs(bins[..], p, count, maxNs)
    {
      if count == 0 { return 0.0; }
      var target := Rank(p, count);
      var seen := 0;
      for i := 0 to bins.Length
        invariant seen == Sum(bins[..i]) && Reaching(bins[..], target, 0) == Reaching(bins[..], target, i)
      {
        assert bins[..i + 1][..i] == bins[..i] && bins[..][..i + 1] == bins[..i + 1];
        seen := seen + bins[i];
        if seen >= target {
          return BoundMs(i, maxNs);
        }
      }
      return maxNs as real / 1000000.0;
    }

    method TakeSnapshot() returns (s: Snapshot)
      requires bins.Length == BINS
      ensures s.p50Ms == HistogramSpec.PercentileMs(bins[..], 0.50, count, maxNs)
      ensures s.p95Ms == HistogramSpec.PercentileMs(bins[..], 0.95, count, maxNs)
      ensures s.p99Ms == HistogramSpec.PercentileMs(bins[..], 0.99, count, maxNs)
      ensures count > 0 ==>
        && s.avgMs == sumNs as real / count as real / 1000000.0
        && s.minMs == minNs as real / 1000000.0 && s.maxMs == maxNs as real / 1000000.0
      ensures s.count == count && s.errors == errors
    {
      if count == 0 {
        return Snapshot(count, errors, 0.0, 0.0, 0.0, 0.0, 0.0, 0.0);
      }
      var p50 := PercentileMs(0.50);
      var p95 := PercentileMs(0.95);
      var p99 := PercentileMs(0.99);
      var avg := sumNs as real / count as real / 1000000.0;
      return Snapshot(count, errors, avg, minNs as real / 1000000.0, maxNs as real / 1000000.0, p50, p95, p99);
    }
  }
}

module HistogramTheorems {
  import opened HistogramSpec

  // Counting

  /** How many observed durations satisfy a condition on their microseconds. */
  ghost function CountWhere(samples: seq<nat>, p: nat -> bool): nat {
    if samples == [] then 0
    else CountWhere(samples[..|samples| - 1], p) + if p(Microseconds(samples[|samples| - 1])) then 1 else 0
  }

  lemma {:induction false} CountMonotone(samples: seq<nat>, p: nat -> bool, q: nat -> bool)
    requires forall x :: p(x) ==> q(x)
    ensures CountWhere(samples, p) <= CountWhere(samples, q) <= |samples|
    decreases |samples|
  {
    if samples != [] {
      CountMonotone(samples[..|samples| - 1], p, q);
    }
  }

  ghost function BucketBelow(b: int): nat -> bool {
    (us: nat) => Bucket(us) < b
  }

  lemma {:induction false} CountNextBucket(samples: seq<nat>, b: nat)
    ensures CountWhere(samples, BucketBelow(b + 1)) == CountWhere(samples, BucketBelow(b)) + CountIn(samples, b)
    decreases |samples|
  {
    if samples != [] {
      CountNextBucket(samples[..|samples| - 1], b);
    }
  }

  /** The running count over the first buckets is the number of samples in them. */
  lemma {:induction false} PrefixCounts(bins: seq<nat>, samples: seq<nat>, n: nat)
    requires Records(bins, samples) && n <= BINS
    ensures Sum(bins[..n]) == CountWhere(samples, BucketBelow(n))
    decreases n
  {
    if n == 0 {
      CountNone(samples);
    } else {
      PrefixCounts(bins, samples, n - 1);
      CountNextBucket(samples, n - 1);
      assert bins[..n][..n - 1] == bins[..n - 1];
    }
  }

  lemma {:induction false} CountNone(samples: seq<nat>)
    ensures CountWhere(samples, BucketBelow(0)) == 0
    decreases |samples|
  {
    if samples != [] {
      CountNone(samples[..|samples| - 1]);
    }
  }

  lemma {:induction false} CountAll(samples: seq<nat>)
    ensures CountWhere(samples, BucketBelow(BINS)) == |samples|
    decreases |samples|
  {
    if samples != [] {
      CountAll(samples[..|samples| - 1]);
    }
  }

  /** The bins add up to the number of observations. */
  lemma BinsSumToCount(bins: seq<nat>, samples: seq<nat>)
    requires Records(bins, samples)
    ensures Sum(bins) == |samples|
  {
    PrefixCounts(bins, samples, BINS);
    CountAll(samples);
    assert bins[..BINS] == bins;
  }

  // Order statistics

  /** `v` is the k-th smallest observation in microseconds. */
  ghost predicate IsKthSmallest(samples: seq<nat>, k: int, v: nat) {
    CountWhere(samples, (us: nat) => us < v) < k <= CountWhere(samples, (us: nat) => us <= v)
  }

  /** The buckets before `b` hold fewer than `k` observations, and with `b` they hold at least `k`. */
  ghost predicate HoldsRank(samples: seq<nat>, b: nat, k: int) {
    CountWhere(samples, BucketBelow(b)) < k <= CountWhere(samples, BucketBelow(b + 1))
  }

  lemma BucketMonotone(x: nat, y: nat)
    requires x <= y
    ensures Bucket(x) <= Bucket(y)
  {
    if Bucket(y) < |BOUNDS_US| {
      assert x <= BOUNDS_US[Bucket(y)];
    }
  }

  /** The k-th smallest observation is in that bucket. */
  lemma KthIsInReachingBucket(samples: seq<nat>, k: int, v: nat, b: nat)
    requires IsKthSmallest(samples, k, v)
    requires HoldsRank(samples, b, k)
    ensures Bucket(v) == b
  {
    if Bucket(v) < b {
      forall x: nat | x <= v ensures Bucket(x) < b {
        BucketMonotone(x, v);
      }
      CountMonotone(samples, (us: nat) => us <= v, BucketBelow(b));
    } else if Bucket(v) > b {
      forall x: nat | Bucket(x) < b + 1 ensures x < v {
        if v <= x {
          BucketMonotone(v, x);
        }
      }
      CountMonotone(samples, BucketBelow(b + 1), (us: nat) => us < v);
    }
  }

  lemma {:induction false} ReachingReaches(bins: seq<nat>, target: int, i: nat)
    requires i <= |bins| && (i > 0 ==> Sum(bins[..i]) < target) && Sum(bins) >= target
    ensures var b := Reaching(bins, target, i);
            && (b > 0 ==> Sum(bins[..b]) < target || b == i)
            && (b < |bins| ==> Sum(bins[..b + 1]) >= target)
            && (b == |bins| ==> i == |bins|)
    decreases |bins| - i
  {
    assert bins[..|bins|] == bins;
    if i < |bins| && Sum(bins[..i + 1]) < target {
      ReachingReaches(bins, target, i + 1);
    }
  }

  lemma CeilBounds(p: real, count: nat)
    requires 0.0 < p <= 1.0 && count > 0
    ensures 1 <= Rank(p, count) <= count
  {
    var c := count as real;
    Scale(p, c);
  }

  lemma Scale(p: real, c: real)
    requires 0.0 < p <= 1.0 && c > 0.0
    ensures 0.0 < p * c <= c
  {
    assert (1.0 - p) * c >= 0.0;
  }

  /** The bucket at which the scan stops is the one that holds the observation of rank ceil(p * count). */
  lemma PercentileBucket(bins: seq<nat>, samples: seq<nat>, p: real)
    requires Records(bins, samples) && samples != [] && 0.0 < p <= 1.0
    ensures var k := Rank(p, |samples|);
            var b := Reaching(bins, k, 0);
            b < BINS && HoldsRank(samples, b, k)
  {
    var k := Rank(p, |samples|);
    CeilBounds(p, |samples|);
    BinsSumToCount(bins, samples);
    ReachingReaches(bins, k, 0);
    var b := Reaching(bins, k, 0);
    PrefixCounts(bins, samples, b);
    PrefixCounts(bins, samples, b + 1);
  }

  lemma PercentileOfKth(bins: seq<nat>, samples: seq<nat>, p: real, v: nat)
    requires Records(bins, samples) && samples != [] && 0.0 < p <= 1.0
    requires IsKthSmallest(samples, Rank(p, |samples|), v)
    ensures PercentileMs(bins, p, |samples|, Maximum(samples)) == BoundMs(Bucket(v), Maximum(samples))
  {
    var k := Rank(p, |samples|);
    PercentileBucket(bins, samples, p);
    KthIsInReachingBucket(samples, k, v, Reaching(bins, k, 0));
  }

  /** How many durations satisfy a condition. */
  ghost function CountDurations(samples: seq<nat>, p: nat -> bool): nat {
    if samples == [] then 0
    else CountDurations(samples[..|samples| - 1], p) + if p(samples[|samples| - 1]) then 1 else 0
  }

  /** `d` is the k-th smallest duration. */
  ghost predicate IsKthDuration(samples: seq<nat>, k: int, d: nat) {
    CountDurations(samples, (ns: nat) => ns < d) < k <= CountDurations(samples, (ns: nat) => ns <= d)
  }

  lemma {:induction false} FewerShort(samples: seq<nat>, p: nat -> bool, q: nat -> bool)
    requires forall x: nat :: p(Microseconds(x)) ==> q(x)
    ensures CountWhere(samples, p) <= CountDurations(samples, q)
    decreases |samples|
  {
    if samples != [] {
      FewerShort(samples[..|samples| - 1], p, q);
    }
  }

  lemma {:induction false} MoreShort(samples: seq<nat>, p: nat -> bool, q: nat -> bool)
    requires forall x: nat :: q(x) ==> p(Microseconds(x))
    ensures CountDurations(samples, q) <= CountWhere(samples, p)
    decreases |samples|
  {
    if samples != [] {
      MoreShort(samples[..|samples| - 1], p, q);
    }
  }

  lemma KthInMicroseconds(samples: seq<nat>, k: int, d: nat)
    requires IsKthDuration(samples, k, d)
    ensures IsKthSmallest(samples, k, d / 1000)
  {
    FewerShort(samples, (us: nat) => us < d / 1000, (ns: nat) => ns < d);
    MoreShort(samples, (us: nat) => us <= d / 1000, (ns: nat) => ns <= d);
  }

  ghost predicate RoundedUp(k: int, p: real, count: nat) {
    p * count as real <= k as real < p * count as real + 1.0
  }

  /** `ms` is the smallest bound that `us` does not exceed, or the true maximum if `us` exceeds all bounds. */
  ghost predicate IsUpperBound(ms: real, us: nat, maxNs: nat) {
    if us <= BOUNDS_US[|BOUNDS_US| - 1] then exists b: nat :: IsBoundAt(ms, us, b)
    else ms * 1000000.0 == maxNs as real
  }

  ghost predicate IsBoundAt(ms: real, us: nat, b: nat) {
    b < |BOUNDS_US| && ms * 1000.0 == BOUNDS_US[b] as real && us <= BOUNDS_US[b] && (b > 0 ==> BOUNDS_US[b - 1] < us)
  }

  /**
   The reported percentile belongs to the k-th smallest duration, where `k` is the percentage of the count rounded up: it
   is the smallest bound, in milliseconds, that its whole microseconds do not exceed, or the true maximum if there is none.
   */
  lemma PercentileIsOrderStatistic(bins: seq<nat>, samples: seq<nat>, p: real, k: int, d: nat)
    requires Records(bins, samples) && samples != [] && 0.0 < p <= 1.0
    requires RoundedUp(k, p, |samples|) && IsKthDuration(samples, k, d)
    ensures IsUpperBound(PercentileMs(bins, p, |samples|, Maximum(samples)), d / 1000, Maximum(samples))
  {
    RankIs(p, |samples|, k);
    KthInMicroseconds(samples, k, d);
    PercentileOfKth(bins, samples, p, d / 1000);
    BoundOf(d / 1000, Maximum(samples));
  }

  lemma RankIs(p: real, count: nat, k: int)
    requires RoundedUp(k, p, count)
    ensures k == Rank(p, count)
  {
  }

  lemma BoundInMs(b: nat, maxNs: nat)
    requires b < |BOUNDS_US|
    ensures BoundMs(b, maxNs) * 1000.0 == BOUNDS_US[b] as real
  {
  }

  lemma BoundOf(us: nat, maxNs: nat)
    ensures IsUpperBound(BoundMs(Bucket(us), maxNs), us, maxNs)
  {
    var b := Bucket(us);
    if b < |BOUNDS_US| {
      BoundsAscend(b, |BOUNDS_US| - 1);
      BoundInMs(b, maxNs);
      assert IsBoundAt(BoundMs(b, maxNs), us, b);
    }
  }

  // Every rank has its observation

  lemma {:induction false} CountAboveAll(samples: seq<nat>, v: nat)
    requires forall i :: 0 <= i < |samples| ==> samples[i] <= v
    ensures CountDurations(samples, (ns: nat) => ns <= v) == |samples|
    decreases |samples|
  {
    if samples != [] {
      CountAboveAll(samples[..|samples| - 1], v);
    }
  }

  lemma {:induction false} MaximumIsMaximum(samples: seq<nat>)
    ensures forall x :: x in samples ==> x <= Maximum(samples)
    ensures samples != [] ==> Maximum(samples) in samples
    decreases |samples|
  {
    if samples != [] {
      var n := |samples| - 1;
      MaximumIsMaximum(samples[..n]);
      assert forall i :: 0 <= i < n ==> samples[..n][i] == samples[i];
      forall i | 0 <= i <= n
        ensures samples[i] <= Maximum(samples)
      {
        assert i < n ==> samples[i] in samples[..n];
      }
    }
  }

  lemma {:induction false} CountShift(samples: seq<nat>, v: nat)
    ensures CountDurations(samples, (ns: nat) => ns < v + 1) == CountDurations(samples, (ns: nat) => ns <= v)
    decreases |samples|
  {
    if samples != [] {
      CountShift(samples[..|samples| - 1], v);
    }
  }

  /** Searching upwards from a value that still has fewer than `k` observations below it. */
  lemma {:induction false} FindKth(samples: seq<nat>, k: int, v: nat, limit: nat)
    requires CountDurations(samples, (ns: nat) => ns < v) < k
    requires v <= limit && k <= CountDurations(samples, (ns: nat) => ns <= limit)
    ensures exists x :: IsKthDuration(samples, k, x)
    decreases limit - v
  {
    if k <= CountDurations(samples, (ns: nat) => ns <= v) {
      assert IsKthDuration(samples, k, v);
    } else {
      CountShift(samples, v);
      FindKth(samples, k, v + 1, limit);
    }
  }

  lemma {:induction false} CountBelowZero(samples: seq<nat>)
    ensures CountDurations(samples, (ns: nat) => ns < 0) == 0
    decreases |samples|
  {
    if samples != [] {
      CountBelowZero(samples[..|samples| - 1]);
    }
  }

  lemma KthExists(samples: seq<nat>, k: int)
    requires 1 <= k <= |samples|
    ensures exists v :: IsKthDuration(samples, k, v)
  {
    var limit := Maximum(samples);
    MaximumIsMaximum(samples);
    assert forall i :: 0 <= i < |samples| ==> samples[i] in samples;
    CountAboveAll(samples, limit);
    CountBelowZero(samples);
    FindKth(samples, k, 0, limit);
  }

  // Percentiles are ordered

  lemma {:induction false} ReachingMonotone(bins: seq<nat>, s: int, t: int, i: nat)
    requires i <= |bins| && s <= t
    ensures Reaching(bins, s, i) <= Reaching(bins, t, i)
    decreases |bins| - i
  {
    if i < |bins| && Sum(bins[..i + 1]) < s {
      ReachingMonotone(bins, s, t, i + 1);
    }
  }

  lemma BoundsAscend(a: nat, b: nat)
    requires a <= b < |BOUNDS_US|
    ensures BOUNDS_US[a] <= BOUNDS_US[b]
  {
  }

  /** If the last bucket holds an observation, the maximum lies above all bounds. */
  lemma OverflowIsLarge(samples: seq<nat>, b: nat, k: int)
    requires HoldsRank(samples, b, k) && k <= |samples|
    ensures b == BINS - 1 ==> Maximum(samples) >= 1000 * BOUNDS_US[|BOUNDS_US| - 1]
  {
    MaximumIsMaximum(samples);
    if b == BINS - 1 && Maximum(samples) < 1000 * BOUNDS_US[|BOUNDS_US| - 1] {
      forall x | x in samples ensures Bucket(Microseconds(x)) < BINS - 1 {
        assert Microseconds(x) <= BOUNDS_US[|BOUNDS_US| - 1];
      }
      AllBelow(samples, b);
    }
  }

  lemma {:induction false} AllBelow(samples: seq<nat>, b: int)
    requires forall x :: x in samples ==> Bucket(Microseconds(x)) < b
    ensures CountWhere(samples, BucketBelow(b)) == |samples|
    decreases |samples|
  {
    if samples != [] {
      assert samples[|samples| - 1] in samples;
      AllBelow(samples[..|samples| - 1], b);
    }
  }

  lemma BoundMsMonotone(a: nat, b: nat, maxNs: nat)
    requires a <= b < BINS && (b == BINS - 1 ==> maxNs >= 1000 * BOUNDS_US[|BOUNDS_US| - 1])
    ensures BoundMs(a, maxNs) <= BoundMs(b, maxNs)
  {
    if b < |BOUNDS_US| {
      BoundsAscend(a, b);
    } else if a < |BOUNDS_US| {
      BoundsAscend(a, |BOUNDS_US| - 1);
    }
  }

  lemma PercentileMonotone(bins: seq<nat>, samples: seq<nat>, p: real, q: real)
    requires Records(bins, samples) && 0.0 < p <= q <= 1.0
    ensures PercentileMs(bins, p, |samples|, Maximum(samples)) <= PercentileMs(bins, q, |samples|, Maximum(samples))
  {
    if samples != [] {
      CeilMonotone(p, q, |samples|);
      CeilBounds(q, |samples|);
      ReachingMonotone(bins, Rank(p, |samples|), Rank(q, |samples|), 0);
      PercentileBucket(bins, samples, q);
      OverflowIsLarge(samples, Reaching(bins, Rank(q, |samples|), 0), Rank(q, |samples|));
      BoundMsMonotone(Reaching(bins, Rank(p, |samples|), 0), Reaching(bins, Rank(q, |samples|), 0), Maximum(samples));
    }
  }

  lemma CeilMonotone(p: real, q: real, n: nat)
    requires p <= q
    ensures Rank(p, n) <= Rank(q, n)
  {
    assert (q - p) * n as real >= 0.0;
  }

  /** The three reported percentiles are in order. */
  lemma ReportedPercentilesInOrder(bins: seq<nat>, samples: seq<nat>)
    requires Records(bins, samples)
    ensures var n, m := |samples|, Maximum(samples);
            PercentileMs(bins, 0.50, n, m) <= PercentileMs(bins, 0.95, n, m) <= PercentileMs(bins, 0.99, n, m)
  {
    PercentileMonotone(bins, samples, 0.50, 0.95);
    PercentileMonotone(bins, samples, 0.95, 0.99);
  }

  // The average

  lemma {:induction false} MinimumIsMinimum(samples: seq<nat>)
    ensures forall x :: x in samples ==> Minimum(samples) <= x
    decreases |samples|
  {
    if samples != [] {
      var n := |samples| - 1;
      MinimumIsMinimum(samples[..n]);
      forall i | 0 <= i <= n
        ensures Minimum(samples) <= samples[i]
      {
        assert i < n ==> samples[i] in samples[..n] by { assert i < n ==> samples[..n][i] == samples[i]; }
      }
    }
  }

  lemma OneTermMore(lo: nat, hi: nat, n: nat, sum: nat, x: nat)
    requires lo * n <= sum <= hi * n && lo <= x <= hi
    ensures lo * (n + 1) <= sum + x <= hi * (n + 1)
  {
  }

  lemma {:induction false} SumBetween(samples: seq<nat>, lo: nat, hi: nat)
    requires forall i :: 0 <= i < |samples| ==> lo <= samples[i] <= hi
    ensures lo * |samples| <= Sum(samples) <= hi * |samples|
    decreases |samples|
  {
    if samples != [] {
      var n := |samples| - 1;
      SumBetween(samples[..n], lo, hi);
      OneTermMore(lo, hi, n, Sum(samples[..n]), samples[n]);
    }
  }

  lemma Cancels(x: real, y: real, n: real)
    requires n > 0.0 && x * n <= y * n
    ensures x <= y
  {
  }

  lemma MeanBetween(sum: nat, n: nat, lo: nat, hi: nat)
    requires n > 0 && lo * n <= sum <= hi * n
    ensures lo as real <= sum as real / n as real <= hi as real
  {
    var m := sum as real / n as real;
    assert m * n as real == sum as real;
    assert (lo * n) as real == lo as real * n as real;
    assert (hi * n) as real == hi as real * n as real;
    Cancels(lo as real, m, n as real);
    Cancels(m, hi as real, n as real);
  }

  /** The reported average lies between the smallest and the largest observation. */
  lemma AverageInRange(samples: seq<nat>)
    requires samples != []
    ensures Minimum(samples) as real <= Sum(samples) as real / |samples| as real <= Maximum(samples) as real
  {
    MinimumIsMinimum(samples);
    MaximumIsMaximum(samples);
    assert forall i :: 0 <= i < |samples| ==> samples[i] in samples;
    SumBetween(samples, Minimum(samples), Maximum(samples));
    MeanBetween(Sum(samples), |samples|, Minimum(samples), Maximum(samples));
  }
}
