/** `LatencyMonitor`: a histogram of round-trip times and its percentiles, against the order
    statistics of the samples. */
module Latency {
  import opened Widths

  const RESOLUTION_US: nat := 100
  const NUM_BUCKETS: nat := 10_001

  /** A `uint64`. */
  type Sample = s: nat | s < TWO64

  function BucketOf(rttUs: Sample): (i: nat)
    ensures i < NUM_BUCKETS
  {
    if rttUs / RESOLUTION_US >= NUM_BUCKETS then NUM_BUCKETS - 1 else rttUs / RESOLUTION_US
  }

  /** The bucket index as `RecordSample` computes it, with its cast to `int32`. */
  function BucketIndex(rttUs: Sample): int {
    var idx := ToInt32(rttUs / RESOLUTION_US);
    if idx >= NUM_BUCKETS then NUM_BUCKETS - 1 else idx
  }

  /** The cast leaves the bucket right if and only if the sample is below 10 000 resolutions or its
      index, cut to 32 bits, is still at least that and not negative: for all samples below 59 hours. */
  lemma IndexRightExactly(rttUs: Sample)
    ensures BucketIndex(rttUs) == BucketOf(rttUs) <==>
              (rttUs / 100 < 10_000 || 10_000 <= rttUs / 100 % TWO32 < TWO31)
    ensures rttUs < 100 * TWO31 ==> BucketIndex(rttUs) == BucketOf(rttUs)
  {
    var q: int := rttUs / 100;
    if q < TWO31 { CastExact(q); }
  }

  /** From 100 * 2^31 us on the index can be negative, outside the array. */
  lemma HugeSampleIsOutside()
    ensures BucketIndex(100 * TWO31) == -TWO31
  {
  }

  /** Samples whose bucket is `i`, and samples whose bucket is at most `i`. */
  function CountIn(samples: seq<Sample>, i: nat): nat {
    if samples == [] then 0 else (if BucketOf(samples[0]) == i then 1 else 0) + CountIn(samples[1..], i)
  }

  function CountUpTo(samples: seq<Sample>, i: int): nat {
    if samples == [] then 0 else (if BucketOf(samples[0]) <= i then 1 else 0) + CountUpTo(samples[1..], i)
  }

  lemma {:induction false} CountAppend(samples: seq<Sample>, s: Sample, i: nat)
    ensures CountIn(samples + [s], i) == CountIn(samples, i) + (if BucketOf(s) == i then 1 else 0)
  {
    if samples != [] {
      assert (samples + [s])[1..] == samples[1..] + [s];
      CountAppend(samples[1..], s, i);
    }
  }

  lemma {:induction false} CountUpToNext(samples: seq<Sample>, i: nat)
    ensures CountUpTo(samples, i) == CountUpTo(samples, i - 1) + CountIn(samples, i)
  {
    if samples != [] { CountUpToNext(samples[1..], i); }
  }

  lemma {:induction false} CountUpToBounds(samples: seq<Sample>, i: int)
    ensures CountUpTo(samples, i) <= |samples|
    ensures i >= NUM_BUCKETS - 1 ==> CountUpTo(samples, i) == |samples|
    ensures i < 0 ==> CountUpTo(samples, i) == 0
  {
    if samples != [] { CountUpToBounds(samples[1..], i); }
  }

  // ----- Counters of 32 bits -----------------------------------------------------------------------

  /** A `uint32`. */
  function Cut32(x: nat): nat { x % TWO32 }

  /** What the first `n` counters add up to. */
  function WrappedUpTo(samples: seq<Sample>, n: nat): nat {
    if n == 0 then 0 else WrappedUpTo(samples, n - 1) + Cut32(CountIn(samples, n - 1))
  }

  predicate NoneOverfull(samples: seq<Sample>) { forall i: nat | i < NUM_BUCKETS :: CountIn(samples, i) < TWO32 }

  lemma {:induction false} WrappedIsCount(samples: seq<Sample>, n: nat)
    requires NoneOverfull(samples) && n <= NUM_BUCKETS
    ensures WrappedUpTo(samples, n) == CountUpTo(samples, n - 1)
  {
    if n == 0 {
      CountUpToBounds(samples, -1);
    } else {
      WrappedIsCount(samples, n - 1);
      CountUpToNext(samples, n - 1);
    }
  }

  lemma {:induction false} CountAllIn(samples: seq<Sample>, b: nat, i: nat)
    requires forall j | 0 <= j < |samples| :: BucketOf(samples[j]) == b
    ensures CountIn(samples, i) == if i == b then |samples| else 0
  {
    if samples != [] { CountAllIn(samples[1..], b, i); }
  }

  /** 2^32 samples in one bucket look like none, whatever the number of buckets. */
  lemma {:induction false} OverfullLooksEmpty(samples: seq<Sample>, b: nat, n: nat)
    requires |samples| == TWO32 && forall j | 0 <= j < |samples| :: BucketOf(samples[j]) == b
    ensures WrappedUpTo(samples, n) == 0
  {
    if n > 0 {
      OverfullLooksEmpty(samples, b, n - 1);
      CountAllIn(samples, b, n - 1);
    }
  }

  lemma Cut32Next(x: nat)
    ensures Cut32(x + 1) == Cut32(Cut32(x) + 1)
    ensures x < TWO32 ==> Cut32(x) == x
  {
  }

  // ----- Total, minimum and maximum ----------------------------------------------------------------

  const UINT32_MAX: nat := 0xFFFF_FFFF

  /** A `uint64` sum. */
  function Add64(a: nat, b: nat): nat { if a + b < TWO64 then a + b else a + b - TWO64 }

  /** What `_totalLatencyUs` keeps. */
  function Total(samples: seq<Sample>): (r: nat)
    ensures r < TWO64
  {
    if samples == [] then 0 else Add64(Total(samples[..|samples| - 1]), samples[|samples| - 1])
  }

  function Sum(samples: seq<Sample>): nat {
    if samples == [] then 0 else samples[|samples| - 1] + Sum(samples[..|samples| - 1])
  }

  /** What the loop over `_minLatencyUs` keeps. */
  function Least(samples: seq<Sample>): nat {
    if samples == [] then UINT32_MAX else Lower(Least(samples[..|samples| - 1]), samples[|samples| - 1])
  }

  function Lower(m: nat, s: Sample): nat { if s < m then s else m }

  function Higher(m: nat, s: Sample): nat { if s > m then Cut32(s) else m }

  /** It is the minimum, unless all samples are larger than a `uint32`. */
  lemma {:induction false} LeastIsMinimum(samples: seq<Sample>)
    ensures Least(samples) <= UINT32_MAX && forall i | 0 <= i < |samples| :: Least(samples) <= samples[i]
    ensures Least(samples) == UINT32_MAX || Least(samples) in samples
  {
    if samples != [] { LeastIsMinimum(samples[..|samples| - 1]); }
  }

  /** What the loop over `_maxLatencyUs` keeps: a larger sample, cut to 32 bits. */
  function Kept(samples: seq<Sample>): nat {
    if samples == [] then 0 else Higher(Kept(samples[..|samples| - 1]), samples[|samples| - 1])
  }

  lemma {:induction false} KeptIsSmall(samples: seq<Sample>)
    ensures Kept(samples) <= UINT32_MAX
  {
    if samples != [] { KeptIsSmall(samples[..|samples| - 1]); }
  }

  /** The total is the sum of the samples, up to the width of the counter. */
  lemma {:induction false} TotalIsSum(samples: seq<Sample>)
    ensures exists k: nat :: Sum(samples) == Total(samples) + k * TWO64
    ensures Sum(samples) < TWO64 ==> Total(samples) == Sum(samples)
  {
    if samples == [] {
      assert Sum(samples) == Total(samples) + 0 * TWO64;
    } else {
      var before := samples[..|samples| - 1];
      TotalIsSum(before);
      var k: nat :| Sum(before) == Total(before) + k * TWO64;
      var carry := if Total(before) + samples[|samples| - 1] < TWO64 then k else k + 1;
      assert Sum(samples) == Total(samples) + carry * TWO64;
    }
  }

  lemma TotalsAppend(samples: seq<Sample>, s: Sample)
    ensures Total(samples + [s]) == Add64(Total(samples), s)
    ensures Least(samples + [s]) == Lower(Least(samples), s)
    ensures Kept(samples + [s]) == Higher(Kept(samples), s)
  {
    assert (samples + [s])[..|samples|] == samples;
  }

  predicate IsMaximum(samples: seq<Sample>, m: nat) {
    m in samples && forall i | 0 <= i < |samples| :: samples[i] <= m
  }

  lemma {:induction false} KeptOfSmall(samples: seq<Sample>)
    requires forall i | 0 <= i < |samples| :: samples[i] <= UINT32_MAX
    ensures forall i | 0 <= i < |samples| :: samples[i] <= Kept(samples)
    ensures Kept(samples) == 0 || Kept(samples) in samples
  {
    if samples != [] {
      var before := samples[..|samples| - 1];
      KeptOfSmall(before);
      assert samples == before + [samples[|samples| - 1]];
    }
  }

  /** The maximum is right if and only if every sample fits in 32 bits. */
  lemma MaximumExactlyWhenSmall(samples: seq<Sample>)
    requires samples != []
    ensures IsMaximum(samples, Kept(samples)) <==> forall i | 0 <= i < |samples| :: samples[i] <= UINT32_MAX
  {
    KeptIsSmall(samples);
    if forall i | 0 <= i < |samples| :: samples[i] <= UINT32_MAX {
      KeptOfSmall(samples);
      if Kept(samples) == 0 { assert samples[0] == 0; }
    }
  }

  /** 2^32 us, a little over 71 minutes, is recorded as a maximum of 0. */
  lemma LongestIsLost()
    ensures Kept([0x1_0000_0000]) == 0
  {
  }

  // ----- Sorted samples ----------------------------------------------------------------------------

  predicate Sorted(samples: seq<Sample>) { forall i, j | 0 <= i < j < |samples| :: samples[i] <= samples[j] }

  lemma {:induction false} CountSplit(a: seq<Sample>, b: seq<Sample>, i: int)
    ensures CountUpTo(a + b, i) == CountUpTo(a, i) + CountUpTo(b, i)
  {
    if a == [] {
      assert a + b == b;
    } else {
      assert (a + b)[1..] == a[1..] + b;
      CountSplit(a[1..], b, i);
    }
  }

  lemma CountWithout(b: seq<Sample>, k: nat, i: int)
    requires k < |b|
    ensures CountUpTo(b, i) == CountUpTo(b[..k] + b[k + 1..], i) + (if BucketOf(b[k]) <= i then 1 else 0)
  {
    var tail := b[k..];
    assert tail[1..] == b[k + 1..];
    assert b == b[..k] + tail;
    CountSplit(b[..k], tail, i);
    CountSplit(b[..k], b[k + 1..], i);
  }

  lemma MultisetWithout(a: seq<Sample>, b: seq<Sample>, k: nat)
    requires multiset(a) == multiset(b) && a != [] && k < |b| && b[k] == a[0]
    ensures multiset(a[1..]) == multiset(b[..k] + b[k + 1..])
  {
    assert a == [a[0]] + a[1..];
    assert b == b[..k] + [b[k]] + b[k + 1..];
    assert multiset(a) == multiset{a[0]} + multiset(a[1..]);
    assert multiset(b) == multiset(b[..k]) + multiset{b[k]} + multiset(b[k + 1..]);
    assert multiset(b[..k] + b[k + 1..]) == multiset(b[..k]) + multiset(b[k + 1..]);
    assert multiset(a[1..]) == multiset(a) - multiset{a[0]};
  }

  /** Counting does not depend on the order of the samples. */
  lemma {:induction false} CountPermuted(a: seq<Sample>, b: seq<Sample>, i: int)
    requires multiset(a) == multiset(b)
    ensures CountUpTo(a, i) == CountUpTo(b, i)
    decreases |a|
  {
    SameLength(a, b);
    if a != [] {
      assert a[0] in multiset(b);
      var k :| 0 <= k < |b| && b[k] == a[0];
      MultisetWithout(a, b, k);
      CountPermuted(a[1..], b[..k] + b[k + 1..], i);
      CountWithout(b, k, i);
    }
  }

  lemma {:induction false} CountNone(samples: seq<Sample>, i: int)
    requires forall j | 0 <= j < |samples| :: BucketOf(samples[j]) > i
    ensures CountUpTo(samples, i) == 0
  {
    if samples != [] { CountNone(samples[1..], i); }
  }

  lemma {:induction false} CountEvery(samples: seq<Sample>, i: int)
    requires forall j | 0 <= j < |samples| :: BucketOf(samples[j]) <= i
    ensures CountUpTo(samples, i) == |samples|
  {
    if samples != [] { CountEvery(samples[1..], i); }
  }

  lemma RankReached(sorted: seq<Sample>, k: nat, i: int)
    requires Sorted(sorted) && 0 < k <= |sorted| && BucketOf(sorted[k - 1]) <= i
    ensures CountUpTo(sorted, i) >= k
  {
    var low, high := sorted[..k], sorted[k..];
    assert sorted == low + high;
    CountSplit(low, high, i);
    forall j | 0 <= j < |low| ensures BucketOf(low[j]) <= i { BucketsGrow(sorted[j], sorted[k - 1]); }
    CountEvery(low, i);
  }

  lemma RankNotReached(sorted: seq<Sample>, k: nat, i: int)
    requires Sorted(sorted) && 0 < k <= |sorted| && BucketOf(sorted[k - 1]) > i
    ensures CountUpTo(sorted, i) < k
  {
    var low, high := sorted[..k - 1], sorted[k - 1..];
    assert sorted == low + high;
    CountSplit(low, high, i);
    CountUpToBounds(low, i);
    AllAbove(high, i);
  }

  lemma AllAbove(high: seq<Sample>, i: int)
    requires Sorted(high) && high != [] && BucketOf(high[0]) > i
    ensures CountUpTo(high, i) == 0
  {
    forall j | 0 <= j < |high| ensures BucketOf(high[j]) > i {
      if j > 0 { BucketsGrow(high[0], high[j]); }
    }
    CountNone(high, i);
  }

  lemma BucketsGrow(a: Sample, b: Sample)
    requires a <= b
    ensures BucketOf(a) <= BucketOf(b)
  {
  }

  /** At least `k` samples lie in the buckets up to `i` exactly when the k-th smallest does. */
  lemma RankMeansBucket(sorted: seq<Sample>, k: nat, i: int)
    requires Sorted(sorted) && 0 < k <= |sorted|
    ensures CountUpTo(sorted, i) >= k <==> BucketOf(sorted[k - 1]) <= i
  {
    if BucketOf(sorted[k - 1]) <= i { RankReached(sorted, k, i); } else { RankNotReached(sorted, k, i); }
  }

  // ----- The percentile ----------------------------------------------------------------------------

  function FloorDiv(a: nat, b: nat): nat
    requires b > 0
  {
    a / b
  }

  /** max(1, floor(n * p / 100)) for the percentile p = num / den. */
  function TargetRank(n: nat, num: nat, den: nat): nat
    requires den > 0
  {
    var rank := FloorDiv(n * num, 100 * den);
    if rank == 0 then 1 else rank
  }

  /** `k` is the percentile's share of `n` samples, rounded down but at least 1. */
  predicate IsRank(n: nat, num: nat, den: nat, k: nat) {
    && 1 <= k
    && n * num < 100 * den * (k + 1)
    && (100 * den * k <= n * num || k == 1)
  }

  lemma TargetIsRank(n: nat, num: nat, den: nat)
    requires den > 0
    ensures IsRank(n, num, den, TargetRank(n, num, den))
  {
  }

  lemma Cancel(b: nat, x: int, y: int)
    requires b * x < b * y
    ensures x < y
  {
  }

  lemma RankInRange(n: nat, num: nat, den: nat, k: nat)
    requires n > 0 && den > 0 && num <= 100 * den && IsRank(n, num, den, k)
    ensures 1 <= k <= n
  {
    if k > 1 {
      Scaled(n, num, 100 * den);
      assert n * (100 * den) == 100 * den * n;
      assert 100 * den * (n + 1) == 100 * den * n + 100 * den;
      Cancel(100 * den, k, n + 1);
    }
  }

  lemma Scaled(n: nat, p: nat, q: nat)
    requires p <= q
    ensures n * p <= n * q
  {
  }

  /** The percentile 100 is the largest sample's. */
  lemma LastRank(n: nat, den: nat, k: nat)
    requires n > 0 && den > 0 && IsRank(n, 100 * den, den, k)
    ensures k == n
  {
    RankInRange(n, 100 * den, den, k);
    assert n * (100 * den) == 100 * den * n;
    Cancel(100 * den, n, k + 1);
  }

  /** A higher percentile never has a smaller rank. */
  lemma RankGrows(n: nat, p: nat, q: nat, den: nat, k: nat, m: nat)
    requires den > 0 && p <= q && IsRank(n, p, den, k) && IsRank(n, q, den, m)
    ensures k <= m
  {
    if k > 1 {
      Scaled(n, p, q);
      Cancel(100 * den, k, m + 1);
    }
  }

  /** So the answer grows with the percentile, up to the bucket of the largest sample. */
  lemma PercentilesGrow(sorted: seq<Sample>, p: nat, q: nat, den: nat, k: nat, m: nat)
    requires Sorted(sorted) && sorted != [] && den > 0 && p <= q <= 100 * den
    requires IsRank(|sorted|, p, den, k) && IsRank(|sorted|, q, den, m)
    ensures 1 <= k <= m <= |sorted| && BucketOf(sorted[k - 1]) <= BucketOf(sorted[m - 1])
    ensures q == 100 * den ==> m == |sorted|
  {
    RankGrows(|sorted|, p, q, den, k, m);
    RankInRange(|sorted|, q, den, m);
    if q == 100 * den { LastRank(|sorted|, den, m); }
    if k < m { BucketsGrow(sorted[k - 1], sorted[m - 1]); }
  }

  /** In microseconds: the middle of the bucket. */
  function Midpoint(bucket: nat): nat { bucket * RESOLUTION_US + RESOLUTION_US / 2 }

  /** The midpoint is within 50 us of the sample exactly when the sample is not beyond the middle of
      the last bucket, which has no upper end, by more than that. */
  lemma MidpointError(s: Sample)
    ensures s - 50 <= Midpoint(BucketOf(s)) <= s + 50 <==> s <= 1_000_100
  {
    assert s == s / 100 * 100 + s % 100;
  }

  /** The three ways out of `GetPercentileMs`. */
  datatype Answer = Micros(us: nat) | Nothing | Fallback

  class LatencyMonitor {
    const buckets: array<nat>
    var totalCount: nat
    var totalLatencyUs: nat
    var minLatencyUs: nat
    var maxLatencyUs: nat
    ghost var samples: seq<Sample>

    /** Total, minimum and maximum are those of the samples. */
    ghost predicate Totalled(all: seq<Sample>)
      reads this`totalLatencyUs, this`minLatencyUs, this`maxLatencyUs
    {
      totalLatencyUs == Total(all) && minLatencyUs == Least(all) && maxLatencyUs == Kept(all)
    }

    ghost predicate Valid()
      reads this, buckets
    {
      && buckets.Length == NUM_BUCKETS && totalCount == |samples| < TWO64
      && (forall i | 0 <= i < NUM_BUCKETS :: buckets[i] == Cut32(CountIn(samples, i)))
      && Totalled(samples)
    }

    constructor ()
      ensures Valid() && samples == [] && fresh(buckets)
    {
      buckets := new nat[NUM_BUCKETS](_ => 0);
      totalCount, totalLatencyUs, minLatencyUs, maxLatencyUs := 0, 0, UINT32_MAX, 0;
      samples := [];
    }

    method Reset()
      requires buckets.Length == NUM_BUCKETS
      modifies this, buckets
      ensures Valid() && samples == []
    {
      for i := 0 to NUM_BUCKETS
        invariant forall k | 0 <= k < i :: buckets[k] == 0
      {
        buckets[i] := 0;
      }
      totalCount, totalLatencyUs, minLatencyUs, maxLatencyUs := 0, 0, UINT32_MAX, 0;
      samples := [];
    }

    /** The first half of `RecordSample`. */
    method RecordTotals(rttUs: Sample)
      requires Totalled(samples)
      modifies this`totalLatencyUs, this`minLatencyUs, this`maxLatencyUs
      ensures Totalled(samples + [rttUs])
    {
      TotalsAppend(samples, rttUs);
      totalLatencyUs := Add64(totalLatencyUs, rttUs);
      LeastIsMinimum(samples);
      if rttUs < minLatencyUs { minLatencyUs := Cut32(rttUs); }
      if rttUs > maxLatencyUs { maxLatencyUs := Cut32(rttUs); }
    }

    /** The second half: the counter of the sample's bucket. */
    method RecordBucket(rttUs: Sample)
      requires buckets.Length == NUM_BUCKETS && BucketIndex(rttUs) == BucketOf(rttUs)
      requires forall i | 0 <= i < NUM_BUCKETS :: buckets[i] == Cut32(CountIn(samples, i))
      modifies buckets
      ensures forall i | 0 <= i < NUM_BUCKETS :: buckets[i] == Cut32(CountIn(samples + [rttUs], i))
    {
      var bucketIdx := ToInt32(rttUs / RESOLUTION_US);
      if bucketIdx >= NUM_BUCKETS {
        bucketIdx := NUM_BUCKETS - 1;
      }
      forall i: nat ensures CountIn(samples + [rttUs], i) == CountIn(samples, i) + (if BucketOf(rttUs) == i then 1 else 0) {
        CountAppend(samples, rttUs, i);
      }
      Cut32Next(CountIn(samples, bucketIdx));
      buckets[bucketIdx] := Cut32(buckets[bucketIdx] + 1);
    }

    method RecordSample(rttUs: Sample)
      requires Valid() && |samples| + 1 < TWO64 && BucketIndex(rttUs) == BucketOf(rttUs)
      modifies this, buckets
      ensures Valid() && samples == old(samples) + [rttUs]
    {
      totalCount := totalCount + 1;
      RecordTotals(rttUs);
      RecordBucket(rttUs);
      samples := samples + [rttUs];
    }

    /** For every multiset of samples and every percentile p = num / den up to 100, with `k` the rank
        max(1, floor(n * p / 100)): the fallback after the loop is reached if and only if the counters add
        up to less than `k`.  If no counter wrapped it is never reached, and the answer is the middle of
        the bucket that holds the k-th smallest sample. */
    method GetPercentile(num: nat, den: nat, ghost sorted: seq<Sample>) returns (a: Answer, ghost k: nat)
      requires Valid() && den > 0 && num <= 100 * den
      requires Sorted(sorted) && multiset(sorted) == multiset(samples)
      ensures samples == [] <==> a == Nothing
      ensures 1 <= k && |samples| * num < 100 * den * (k + 1) && (100 * den * k <= |samples| * num || k == 1)
      ensures a == Fallback <==> samples != [] && WrappedUpTo(samples, buckets.Length) < k
      ensures samples != [] && NoneOverfull(samples) ==>
                k <= |sorted| && a == Micros(BucketOf(sorted[k - 1]) * 100 + 50)
    {
      k := TargetRank(|samples|, num, den);
      TargetIsRank(|samples|, num, den);
      if totalCount == 0 {
        return Nothing, k;
      }
      var targetRank := TargetRank(totalCount, num, den);
      var accumulated := 0;
      for i := 0 to NUM_BUCKETS
        invariant accumulated == WrappedUpTo(samples, i) < targetRank
      {
        accumulated := accumulated + buckets[i];
        if accumulated >= targetRank {
          WrappedGrows(samples, i + 1, buckets.Length);
          if NoneOverfull(samples) { RightBucket(sorted, samples, num, den, k, i); }
          return Micros(Midpoint(i)), k;
        }
      }
      if NoneOverfull(samples) { Reached(samples, num, den, k, buckets.Length); }
      return Fallback, k;
    }
  }

  lemma {:induction false} WrappedGrows(samples: seq<Sample>, m: nat, n: nat)
    requires m <= n
    ensures WrappedUpTo(samples, m) <= WrappedUpTo(samples, n)
  {
    if m < n { WrappedGrows(samples, m, n - 1); }
  }

  /** All buckets together hold all samples. */
  lemma Reached(samples: seq<Sample>, num: nat, den: nat, k: nat, n: nat)
    requires samples != [] && NoneOverfull(samples) && den > 0 && num <= 100 * den && n == NUM_BUCKETS
    requires IsRank(|samples|, num, den, k)
    ensures WrappedUpTo(samples, n) >= k
  {
    WrappedIsCount(samples, n);
    CountUpToBounds(samples, n - 1);
    RankInRange(|samples|, num, den, k);
  }

  lemma RightBucket(sorted: seq<Sample>, samples: seq<Sample>, num: nat, den: nat, k: nat, i: nat)
    requires Sorted(sorted) && multiset(sorted) == multiset(samples) && samples != [] && NoneOverfull(samples)
    requires den > 0 && num <= 100 * den && i < NUM_BUCKETS && IsRank(|samples|, num, den, k)
    requires WrappedUpTo(samples, i) < k <= WrappedUpTo(samples, i + 1)
    ensures 1 <= k <= |sorted| && BucketOf(sorted[k - 1]) == i
  {
    SameLength(sorted, samples);
    RankInRange(|samples|, num, den, k);
    WrappedIsCount(samples, i);
    WrappedIsCount(samples, i + 1);
    FirstBucket(sorted, samples, k, i);
  }

  lemma SameLength(a: seq<Sample>, b: seq<Sample>)
    requires multiset(a) == multiset(b)
    ensures |a| == |b|
  {
    assert |multiset(a)| == |a| && |multiset(b)| == |b|;
  }

  lemma FirstBucket(sorted: seq<Sample>, samples: seq<Sample>, k: nat, i: nat)
    requires Sorted(sorted) && multiset(sorted) == multiset(samples) && 0 < k <= |sorted|
    requires CountUpTo(samples, i - 1) < k <= CountUpTo(samples, i)
    ensures BucketOf(sorted[k - 1]) == i
  {
    CountPermuted(sorted, samples, i);
    CountPermuted(sorted, samples, i - 1);
    RankMeansBucket(sorted, k, i);
    RankMeansBucket(sorted, k, i - 1);
  }
}
