/** `TokenBucket` in sequential use, as one session's receive path uses it: rate bounds from above
    and from below. */
module Rates {
  import opened Common
  import opened Tokens
  import opened Widths

  datatype Bucket = Bucket(capacity: nat, rate: nat, tokens: int, last: nat)

  datatype Request = Request(at: nat, count: nat)

  function Refill(b: Bucket, now: nat): Bucket {
    if now <= b.last || now - b.last < 50 then b else
      var add := AddTokens(b.rate, now - b.last);
      b.(last := now, tokens := if add > 0 then Refilled(b.capacity, b.tokens, add) else b.tokens)
  }

  predicate Admits(b: Bucket, r: Request) { Refill(b, r.at).tokens >= r.count }

  function Consume(b: Bucket, r: Request): Bucket {
    var f := Refill(b, r.at);
    if f.tokens < r.count then f else f.(tokens := f.tokens - r.count)
  }

  function ConsumeAll(b: Bucket, rs: seq<Request>): Bucket
    decreases |rs|
  {
    if rs == [] then b else ConsumeAll(Consume(b, rs[0]), rs[1..])
  }

  /** The tokens handed out. */
  function Admitted(b: Bucket, rs: seq<Request>): nat
    decreases |rs|
  {
    if rs == [] then 0 else (if Admits(b, rs[0]) then rs[0].count else 0) + Admitted(Consume(b, rs[0]), rs[1..])
  }

  /** Requests in time order, none before `from` or after `to`. */
  predicate Ordered(rs: seq<Request>, from: nat, to: nat) {
    && (forall i | 0 <= i < |rs| :: from <= rs[i].at <= to)
    && (forall i, j | 0 <= i < j < |rs| :: rs[i].at <= rs[j].at)
  }

  predicate Sane(b: Bucket) { 0 < b.capacity < TWO31 && 0 <= b.tokens <= b.capacity }

  /** What holds even after an overflow. */
  predicate Bounded(b: Bucket) { 0 < b.capacity < TWO31 && -TWO31 <= b.tokens <= b.capacity }

  // ----- Nominal income ----------------------------------------------------------------------------

  /** Thousandths of a token earned by time `t`, millisecond by millisecond. */
  function Milli(rate: nat, t: nat): nat {
    if t == 0 then 0 else Milli(rate, t - 1) + rate
  }

  lemma {:induction false} MilliGap(rate: nat, a: nat, b: nat)
    requires a <= b
    ensures Milli(rate, b) - Milli(rate, a) == (b - a) * rate
    decreases b
  {
    if a < b {
      MilliGap(rate, a, b - 1);
      assert (b - a) * rate == (b - 1 - a) * rate + rate;
    }
  }

  lemma {:induction false} MilliGrows(rate: nat, a: nat, b: nat)
    requires a <= b
    ensures Milli(rate, a) <= Milli(rate, b)
    decreases b
  {
    if a < b { MilliGrows(rate, a, b - 1); }
  }

  lemma MilliNear(rate: nat, a: nat, b: nat)
    requires a <= b < a + 50
    ensures Milli(rate, b) - Milli(rate, a) <= 49 * rate
  {
    MilliGap(rate, a, b);
    Scale(b - a, 49, rate);
  }

  /** The time since the last refill earned less than 2^31 tokens. */
  predicate ExactIncome(b: Bucket, now: nat) { Milli(b.rate, now) - Milli(b.rate, b.last) < 1000 * TWO31 }

  /** No refill is due, or its 32-bit sum does not overflow. */
  predicate NoOverflow(b: Bucket, now: nat) {
    now < b.last + 50 || b.tokens + AddTokens(b.rate, now - b.last) < TWO31
  }

  /** The tokens a refill adds, as exact arithmetic. */
  lemma AddIs(b: Bucket, now: nat)
    requires ExactIncome(b, now) && b.last + 50 <= now
    ensures AddTokens(b.rate, now - b.last) == (Milli(b.rate, now) - Milli(b.rate, b.last)) / 1000
    ensures 50 * b.rate <= Milli(b.rate, now) - Milli(b.rate, b.last)
  {
    MilliGap(b.rate, b.last, now);
    AddTokensExact(b.rate, now - b.last);
    Scale(50, now - b.last, b.rate);
  }

  /** One refill credits at most the nominal income; from 20 tokens a second on, more than half of it
      unless the bucket is filled. */
  lemma RefillBounds(b: Bucket, now: nat)
    requires Sane(b) && b.last <= now && ExactIncome(b, now) && NoOverflow(b, now)
    ensures var f := Refill(b, now); var income := Milli(b.rate, f.last) - Milli(b.rate, b.last);
            && Sane(f) && f.capacity == b.capacity && f.rate == b.rate
            && b.last <= f.last <= now < f.last + 50 && f.tokens >= b.tokens
            && 1000 * (f.tokens - b.tokens) <= income
            && (50 * b.rate >= 1000 && f.tokens < b.capacity && f.last != b.last ==> income < 2000 * (f.tokens - b.tokens))
  {
    if b.last + 50 <= now {
      AddIs(b, now);
      MilliGrows(b.rate, b.last, now);
      RefillAdds(b, now, AddTokens(b.rate, now - b.last));
    }
  }

  lemma RefillAdds(b: Bucket, now: nat, add: int)
    requires Sane(b) && b.last + 50 <= now && add == AddTokens(b.rate, now - b.last) && 0 <= add < TWO31 - b.tokens
    ensures Refill(b, now) == b.(last := now, tokens := if b.tokens + add < b.capacity then b.tokens + add else b.capacity)
  {
    CastExact(b.tokens + add);
  }

  /** The tokens leave [0, capacity] exactly when a refill is due and its 32-bit sum overflows. */
  lemma SaneUnlessOverflow(b: Bucket, now: nat)
    requires Sane(b)
    ensures Sane(Refill(b, now)) <==> NoOverflow(b, now)
  {
    if now >= b.last + 50 {
      AddTokensAtMost(b.rate, now - b.last);
      var add := AddTokens(b.rate, now - b.last);
      if add > 0 { RefillStaysInRange(b.capacity, b.tokens, add); }
    }
  }

  /** A full bucket rejects a single request exactly when it was idle so long that the sum overflows. */
  lemma FullBucketAdmits(b: Bucket, now: nat)
    requires Sane(b) && b.tokens == b.capacity
    ensures Admits(b, Request(now, 1)) <==> NoOverflow(b, now)
  {
    SaneUnlessOverflow(b, now);
    if now >= b.last + 50 {
      AddTokensAtMost(b.rate, now - b.last);
    }
  }

  /** A full bucket of the default configuration that was idle for 107374182350 ms (3.4 years) turns
      negative and rejects a single request; and a product of 2^64 adds nothing. */
  lemma LongIdleIsRejected()
    ensures var b := Bucket(50, 20, 50, 0);
            !Admits(b, Request(107374182350, 1)) && Refill(b, 107374182350).tokens < 0
    ensures AddTokens(0x1_0000, 0x1_0000_0000_0000) == 0
  {
  }

  // ----- Upper bound -------------------------------------------------------------------------------

  function Positive(x: int): nat { if x > 0 then x else 0 }

  /** Overflow or not, a refill credits at most the nominal income. */
  lemma RefillAtMost(b: Bucket, now: nat)
    requires Bounded(b) && b.last <= now
    ensures var f := Refill(b, now);
            && Bounded(f) && f.capacity == b.capacity && f.rate == b.rate
            && b.last <= f.last <= now < f.last + 50
            && 1000 * (Positive(f.tokens) - Positive(b.tokens)) <= Milli(b.rate, f.last) - Milli(b.rate, b.last)
  {
    if b.last + 50 <= now {
      var add := AddTokens(b.rate, now - b.last);
      MilliGap(b.rate, b.last, now);
      MilliGrows(b.rate, b.last, now);
      AddTokensAtMost(b.rate, now - b.last);
      if add > 0 { RefillNeverTooMuch(b.capacity, b.tokens, add); }
    }
  }

  lemma {:induction false} AdmittedBound(b: Bucket, rs: seq<Request>, to: nat)
    requires Bounded(b) && b.last <= to && Ordered(rs, b.last, to)
    ensures 1000 * Admitted(b, rs) <= 1000 * Positive(b.tokens) + Milli(b.rate, to) - Milli(b.rate, b.last)
    decreases |rs|
  {
    if rs == [] {
      MilliGrows(b.rate, b.last, to);
    } else {
      RefillAtMost(b, rs[0].at);
      AdmittedBound(Consume(b, rs[0]), rs[1..], to);
    }
  }

  lemma {:induction false} ConsumeAllBounded(b: Bucket, rs: seq<Request>, to: nat)
    requires Bounded(b) && b.last <= to && Ordered(rs, b.last, to)
    ensures var c := ConsumeAll(b, rs);
            Bounded(c) && c.capacity == b.capacity && c.rate == b.rate && b.last <= c.last <= to
    decreases |rs|
  {
    if rs != [] {
      RefillAtMost(b, rs[0].at);
      ConsumeAllBounded(Consume(b, rs[0]), rs[1..], to);
    }
  }

  /** Refilling twice at the same time changes nothing. */
  lemma RefillAgain(b: Bucket, rs: seq<Request>)
    requires rs != []
    ensures Admitted(Refill(b, rs[0].at), rs) == Admitted(b, rs)
  {
    var f := Refill(b, rs[0].at);
    assert Refill(f, rs[0].at) == f;
    assert Consume(f, rs[0]) == Consume(b, rs[0]);
  }

  lemma WindowFrom(c: Bucket, window: seq<Request>, w0: nat, w1: nat)
    requires Bounded(c) && c.last <= w0 <= w1 && Ordered(window, w0, w1)
    ensures 1000 * Admitted(c, window) <= 1000 * c.capacity + Milli(c.rate, w1) - Milli(c.rate, w0) + 49 * c.rate
  {
    if window == [] {
      MilliGrows(c.rate, w0, w1);
    } else {
      var at := window[0].at;
      RefillAtMost(c, at);
      var f := Refill(c, at);
      RefillAgain(c, window);
      AdmittedBound(f, window, w1);
      MilliNear(c.rate, f.last, at);
      MilliGrows(c.rate, w0, at);
    }
  }

  /** Any window of requests, after any history: what is admitted in [w0, w1] is at most
      capacity + rate * (w1 - w0 + 49) / 1000, whatever overflows. */
  lemma WindowBound(b: Bucket, history: seq<Request>, window: seq<Request>, w0: nat, w1: nat)
    requires Bounded(b) && b.last <= w0 <= w1
    requires Ordered(history, b.last, w0) && Ordered(window, w0, w1)
    ensures Admitted(ConsumeAll(b, history), window) <= b.capacity + (w1 - w0 + 49) * b.rate / 1000
  {
    ConsumeAllBounded(b, history, w0);
    WindowFrom(ConsumeAll(b, history), window, w0, w1);
    MilliGap(b.rate, w0, w1);
    assert (w1 - w0 + 49) * b.rate == (w1 - w0) * b.rate + 49 * b.rate;
  }

  // ----- Lower bound -------------------------------------------------------------------------------

  predicate InOrder(times: seq<nat>, from: nat) {
    && (forall i | 0 <= i < |times| :: from <= times[i])
    && (forall i, j | 0 <= i < j < |times| :: times[i] <= times[j])
  }

  /** The bucket after the first `k` single-token requests. */
  function AfterRequests(b: Bucket, times: seq<nat>, k: nat): Bucket
  {
    if k == 0 || k > |times| then b else Consume(AfterRequests(b, times, k - 1), Request(times[k - 1], 1))
  }

  predicate Admitting(b: Bucket, times: seq<nat>, k: nat) {
    k < |times| && Admits(AfterRequests(b, times, k), Request(times[k], 1))
  }

  predicate NoneRejected(b: Bucket, times: seq<nat>) { forall k | 0 <= k < |times| :: Admitting(b, times, k) }

  /** In every window of d ms at most B + rate * d / 2000 requests; `burst` is 2000 * B. */
  predicate Polite(times: seq<nat>, rate: nat, burst: nat) {
    forall i, j | 0 <= i <= j < |times| :: 2000 * (j - i + 1) <= burst + (times[j] - times[i]) * rate
  }

  predicate WindowMilli(times: seq<nat>, rate: nat, burst: nat, i: nat, j: nat)
    requires i <= j < |times|
  {
    2000 * (j - i + 1) <= burst + Milli(rate, times[j]) - Milli(rate, times[i])
  }

  predicate PoliteMilli(times: seq<nat>, rate: nat, burst: nat) {
    forall i, j | 0 <= i <= j < |times| :: WindowMilli(times, rate, burst, i, j)
  }

  lemma PoliteIs(times: seq<nat>, rate: nat, burst: nat, from: nat)
    requires Polite(times, rate, burst) && InOrder(times, from)
    ensures PoliteMilli(times, rate, burst)
  {
    forall i, j | 0 <= i <= j < |times| ensures WindowMilli(times, rate, burst, i, j) {
      MilliGap(rate, times[i], times[j]);
    }
  }

  /** Counting from request `i`, when the bucket was last full, `k - i` tokens went out and at least
      half the nominal income came in. */
  predicate Deficit(b: Bucket, times: seq<nat>, i: nat, k: nat)
    requires i < k <= |times|
  {
    2000 * (b.capacity - b.tokens) + Milli(b.rate, b.last) - Milli(b.rate, times[i]) <= 2000 * (k - i)
  }

  /** A full bucket, and requests in order from its refill tick on. */
  predicate Serves(b: Bucket, times: seq<nat>) {
    0 < b.capacity < TWO31 && b.tokens == b.capacity && InOrder(times, b.last)
  }

  /** What the gap before request `k` earns, with the up to 49 ms that the refill before it left over. */
  function Earned(b: Bucket, times: seq<nat>, k: nat): int
    requires k < |times|
  {
    (times[k] - (if k == 0 then b.last else times[k - 1]) + 49) * b.rate / 1000
  }

  /** Every single gap earns less than the limit; nothing is said about how long the stream is. */
  predicate GapsEarnLess(b: Bucket, times: seq<nat>, limit: int) {
    forall k | 0 <= k < |times| :: Earned(b, times, k) < limit
  }

  /** Request `k` finds a bucket whose refill does not overflow. */
  predicate Calm(b: Bucket, times: seq<nat>, k: nat) {
    k < |times| && NoOverflow(AfterRequests(b, times, k), times[k])
  }

  predicate AllCalm(b: Bucket, times: seq<nat>, n: nat) {
    forall k | 0 <= k < n :: Calm(b, times, k)
  }

  /** If every request after calm ones is admitted exactly when it is calm, all are admitted exactly when
      all are calm. */
  lemma {:induction false} CalmTogether(b: Bucket, times: seq<nat>, n: nat)
    requires n <= |times| && forall k | 0 <= k < n && AllCalm(b, times, k) :: Admitting(b, times, k) <==> Calm(b, times, k)
    ensures (forall k | 0 <= k < n :: Admitting(b, times, k)) <==> AllCalm(b, times, n)
  {
    if n > 0 { CalmTogether(b, times, n - 1); }
  }

  /** Overflow or not, the last refill is less than 50 ms before the last request. */
  lemma {:induction false} LastNear(b: Bucket, times: seq<nat>, k: nat)
    requires Serves(b, times) && k <= |times|
    ensures var c := AfterRequests(b, times, k);
            && Bounded(c)
            && c.capacity == b.capacity && c.rate == b.rate
            && b.last <= c.last
            && (if k == 0 then c == b else c.last <= times[k - 1] < c.last + 50)
  {
    if k > 0 {
      LastNear(b, times, k - 1);
      RefillAtMost(AfterRequests(b, times, k - 1), times[k - 1]);
    }
  }

  lemma GapIncome(b: Bucket, times: seq<nat>, k: nat, limit: int)
    requires Serves(b, times) && k < |times| && GapsEarnLess(b, times, limit)
    ensures var c := AfterRequests(b, times, k);
            c.last <= times[k] && Milli(b.rate, times[k]) - Milli(b.rate, c.last) < 1000 * limit
  {
    LastNear(b, times, k);
    var c := AfterRequests(b, times, k);
    assert Earned(b, times, k) < limit;
    MilliGap(b.rate, c.last, times[k]);
    Scale(times[k] - c.last, times[k] - (if k == 0 then b.last else times[k - 1]) + 49, b.rate);
  }

  /** Short gaps keep every refill calm. */
  lemma ShortGapsAreCalm(b: Bucket, times: seq<nat>)
    requires Serves(b, times) && GapsEarnLess(b, times, TWO31 - b.capacity)
    ensures GapsEarnLess(b, times, TWO31) && AllCalm(b, times, |times|)
  {
    forall k | 0 <= k < |times| ensures Earned(b, times, k) < TWO31 && Calm(b, times, k) {
      assert Earned(b, times, k) < TWO31 - b.capacity;
      LastNear(b, times, k);
      GapIncome(b, times, k, TWO31 - b.capacity);
      var c := AfterRequests(b, times, k);
      if c.last + 50 <= times[k] { AddIs(c, times[k]); }
    }
  }

  /** A refill that overflows makes the tokens negative, so the request is rejected. */
  lemma OverflowRejects(c: Bucket, now: nat)
    requires Sane(c) && c.last <= now && !NoOverflow(c, now)
    ensures !Admits(c, Request(now, 1))
  {
    SaneUnlessOverflow(c, now);
    RefillAtMost(c, now);
  }

  /** What holds before request `k`: `i` is the request at which the bucket was last full. */
  predicate Going(b: Bucket, times: seq<nat>, k: nat, i: nat)
    requires k <= |times|
  {
    AfterRequests(b, times, k).tokens >= 0 && if k == 0 then i == 0 else i < k && Deficit(AfterRequests(b, times, k), times, i, k)
  }

  /** At least 20 tokens a second, and in every window of d ms at most B + rate * d / 2000 requests, where
      B + 49 * rate / 2000 <= capacity. */
  predicate PoliteTo(b: Bucket, times: seq<nat>, burst: nat) {
    b.rate >= 20 && PoliteMilli(times, b.rate, burst) && burst + 49 * b.rate <= 2000 * b.capacity
  }

  /** One request of a polite stream. */
  lemma PoliteStep(b: Bucket, times: seq<nat>, burst: nat, k: nat, i: nat) returns (full: nat)
    requires Serves(b, times) && k < |times| && Going(b, times, k, i) && PoliteTo(b, times, burst)
    requires ExactIncome(AfterRequests(b, times, k), times[k]) && Calm(b, times, k)
    ensures Admitting(b, times, k) && Going(b, times, k + 1, full)
  {
    var c, now := AfterRequests(b, times, k), times[k];
    LastNear(b, times, k);
    MilliGrows(b.rate, b.last, c.last);
    RefillBounds(c, now);
    var f := Refill(c, now);
    assert f.tokens == f.capacity || f.last == c.last ||
           Milli(b.rate, f.last) - Milli(b.rate, c.last) < 2000 * (f.tokens - c.tokens);
    if f.tokens == f.capacity {
      MilliGrows(b.rate, f.last, now);
      full := k;
    } else {
      MilliNear(b.rate, f.last, now);
      assert WindowMilli(times, b.rate, burst, i, k);
      full := i;
    }
  }

  lemma {:induction false} PoliteRun(b: Bucket, times: seq<nat>, burst: nat, k: nat) returns (i: nat)
    requires Serves(b, times) && k <= |times| && PoliteTo(b, times, burst)
    requires GapsEarnLess(b, times, TWO31) && AllCalm(b, times, k)
    ensures Going(b, times, k, i)
    decreases k
  {
    if k == 0 {
      i := 0;
    } else {
      var before := PoliteRun(b, times, burst, k - 1);
      LastNear(b, times, k - 1);
      GapIncome(b, times, k - 1, TWO31);
      i := PoliteStep(b, times, burst, k - 1, before);
    }
  }

  lemma PoliteAdmits(b: Bucket, times: seq<nat>, burst: nat, k: nat)
    requires Serves(b, times) && k < |times| && PoliteTo(b, times, burst)
    requires GapsEarnLess(b, times, TWO31) && AllCalm(b, times, k)
    ensures Admitting(b, times, k) <==> Calm(b, times, k)
  {
    var i := PoliteRun(b, times, burst, k);
    LastNear(b, times, k);
    GapIncome(b, times, k, TWO31);
    if Calm(b, times, k) {
      var next := PoliteStep(b, times, burst, k, i);
    } else {
      OverflowRejects(AfterRequests(b, times, k), times[k]);
    }
  }

  /** A polite stream of which no gap earns 2^31 tokens is never rejected if and only if no refill
      overflows. */
  lemma PoliteRejectedExactlyOnOverflow(b: Bucket, times: seq<nat>, burst: nat)
    requires Serves(b, times) && b.rate >= 20 && GapsEarnLess(b, times, TWO31)
    requires Polite(times, b.rate, burst) && burst + 49 * b.rate <= 2000 * b.capacity
    ensures NoneRejected(b, times) <==> AllCalm(b, times, |times|)
  {
    PoliteIs(times, b.rate, burst, b.last);
    forall k | 0 <= k < |times| && AllCalm(b, times, k) ensures Admitting(b, times, k) <==> Calm(b, times, k) {
      PoliteAdmits(b, times, burst, k);
    }
    CalmTogether(b, times, |times|);
  }

  /** With at least 20 tokens a second and no single gap so long that its income overflows beside a full
      bucket, a stream with at most B + rate * d / 2000 requests in every window of d ms, where
      B + 49 * rate / 2000 <= capacity, is never rejected, however long it lasts. */
  lemma PoliteIsNeverRejected(b: Bucket, times: seq<nat>, burst: nat)
    requires Serves(b, times) && b.rate >= 20 && GapsEarnLess(b, times, TWO31 - b.capacity)
    requires Polite(times, b.rate, burst) && burst + 49 * b.rate <= 2000 * b.capacity
    ensures NoneRejected(b, times)
  {
    ShortGapsAreCalm(b, times);
    PoliteRejectedExactlyOnOverflow(b, times, burst);
  }

  predicate Spaced(times: seq<nat>) { forall i | 0 < i < |times| :: times[i] >= times[i - 1] + 50 }

  /** What holds after `k` spaced requests. */
  predicate AlmostFull(b: Bucket, times: seq<nat>, k: nat) {
    AfterRequests(b, times, k).tokens >= b.capacity - 1
  }

  lemma SpacedStep(b: Bucket, times: seq<nat>, k: nat)
    requires Serves(b, times) && b.rate >= 20 && k < |times| && Spaced(times) && AlmostFull(b, times, k)
    requires ExactIncome(AfterRequests(b, times, k), times[k]) && Calm(b, times, k)
    ensures Admitting(b, times, k) && AlmostFull(b, times, k + 1)
  {
    var c, now := AfterRequests(b, times, k), times[k];
    LastNear(b, times, k);
    RefillBounds(c, now);
    if c.last + 50 <= now {
      AddIs(c, now);
      RefillAdds(c, now, AddTokens(c.rate, now - c.last));
    }
  }

  lemma {:induction false} SpacedRun(b: Bucket, times: seq<nat>, k: nat)
    requires Serves(b, times) && b.rate >= 20 && k <= |times| && Spaced(times)
    requires GapsEarnLess(b, times, TWO31) && AllCalm(b, times, k)
    ensures AlmostFull(b, times, k)
    decreases k
  {
    if k > 0 {
      SpacedRun(b, times, k - 1);
      LastNear(b, times, k - 1);
      GapIncome(b, times, k - 1, TWO31);
      SpacedStep(b, times, k - 1);
    }
  }

  lemma SpacedAdmits(b: Bucket, times: seq<nat>, k: nat)
    requires Serves(b, times) && b.rate >= 20 && k < |times| && Spaced(times)
    requires GapsEarnLess(b, times, TWO31) && AllCalm(b, times, k)
    ensures Admitting(b, times, k) <==> Calm(b, times, k)
  {
    SpacedRun(b, times, k);
    LastNear(b, times, k);
    GapIncome(b, times, k, TWO31);
    if Calm(b, times, k) {
      SpacedStep(b, times, k);
    } else {
      OverflowRejects(AfterRequests(b, times, k), times[k]);
    }
  }

  /** The same condition for a stream spaced at least 50 ms apart. */
  lemma SpacedRejectedExactlyOnOverflow(b: Bucket, times: seq<nat>)
    requires Serves(b, times) && b.rate >= 20 && Spaced(times) && GapsEarnLess(b, times, TWO31)
    ensures NoneRejected(b, times) <==> AllCalm(b, times, |times|)
  {
    forall k | 0 <= k < |times| && AllCalm(b, times, k) ensures Admitting(b, times, k) <==> Calm(b, times, k) {
      SpacedAdmits(b, times, k);
    }
    CalmTogether(b, times, |times|);
  }

  /** Requests at least 50 ms apart are never rejected either. */
  lemma SpacedIsNeverRejected(b: Bucket, times: seq<nat>)
    requires Serves(b, times) && b.rate >= 20 && Spaced(times) && GapsEarnLess(b, times, TWO31 - b.capacity)
    ensures NoneRejected(b, times)
  {
    ShortGapsAreCalm(b, times);
    SpacedRejectedExactlyOnOverflow(b, times);
  }

  // ----- One call alone ------------------------------------------------------------------------------

  function View(s: State): Bucket { Bucket(s.capacity, s.rate, s.tokens, s.last) }

  lemma Then(s: State, st: Step, steps: seq<Step>, t: State)
    requires Enabled(s, st) && Runs(Apply(s, st), steps, t)
    ensures Runs(s, [st] + steps, t)
  {
    assert ([st] + steps)[1..] == steps;
  }

  /** The state after a call that found the bucket `f` and asked for `count` tokens. */
  function Taken(s: State, f: Bucket, count: nat): State {
    var u := s.(tokens := f.tokens, last := f.last, calls := map[]);
    if f.tokens < count then u else u.(tokens := f.tokens - count, consumed := s.consumed + count)
  }

  lemma TakeAlone(s: State, c: CallId, count: nat) returns (steps: seq<Step>)
    requires s.calls == map[c := Ready(count)]
    ensures Runs(s, steps, Taken(s, View(s), count))
  {
    var s1 := Apply(s, LoadForTake(c));
    var t := Taken(s, View(s), count);
    assert Apply(s1, SwapTake(c, false)) == t by { assert s1.calls == map[c := Taking(count, s.tokens)]; assert s1.calls - {c} == map[]; }
    assert Runs(t, [], t);
    Then(s1, SwapTake(c, false), [], t);
    Then(s, LoadForTake(c), [SwapTake(c, false)], t);
    steps := [LoadForTake(c)] + [SwapTake(c, false)];
  }

  lemma AddAlone(s: State, c: CallId, count: nat, credit: nat, add: int) returns (steps: seq<Step>, applied: set<nat>)
    requires s.calls == map[c := Granted(count, credit, add)]
    ensures Runs(s, steps, Taken(s, View(s).(tokens := Refilled(s.capacity, s.tokens, add)), count).(applied := applied))
  {
    var s1 := Apply(s, LoadForAdd(c));
    var s2 := Apply(s1, SwapAdd(c, false));
    assert s2.calls == map[c := Ready(count)];
    var rest := TakeAlone(s2, c, count);
    applied := s2.applied;
    var t := Taken(s, View(s).(tokens := Refilled(s.capacity, s.tokens, add)), count).(applied := applied);
    assert t == Taken(s2, View(s2), count);
    Then(s1, SwapAdd(c, false), rest, t);
    Then(s, LoadForAdd(c), [SwapAdd(c, false)] + rest, t);
    steps := [LoadForAdd(c)] + ([SwapAdd(c, false)] + rest);
  }

  lemma RefillAlone(s: State, c: CallId, count: nat, now: nat) returns (steps: seq<Step>, t: State)
    requires s.calls == map[c := Clocked(count, now)]
    ensures Runs(s, steps, t)
    ensures t == Taken(s, Refill(View(s), now), count).(granted := t.granted, applied := t.applied)
  {
    var s1 := Apply(s, LoadTick(c));
    var rest;
    if s1.calls[c].Ready? {
      assert s1.calls == map[c := Ready(count)];
      rest := TakeAlone(s1, c, count);
      t := Taken(s1, View(s1), count);
    } else {
      var s2, more := Apply(s1, SwapTick(c)), [];
      if s2.calls[c].Ready? {
        assert s2.calls == map[c := Ready(count)];
        more := TakeAlone(s2, c, count);
        t := Taken(s2, View(s2), count);
      } else {
        var p := s2.calls[c];
        assert s2.calls == map[c := Granted(count, p.credit, p.add)];
        var applied;
        more, applied := AddAlone(s2, c, count, p.credit, p.add);
        t := Taken(s2, View(s2).(tokens := Refilled(s2.capacity, s2.tokens, p.add)), count).(applied := applied);
      }
      Then(s1, SwapTick(c), more, t);
      rest := [SwapTick(c)] + more;
    }
    Then(s, LoadTick(c), rest, t);
    steps := [LoadTick(c)] + rest;
  }

  /** A call that nobody interrupts does what the sequential `Consume` does: it takes its tokens if and only
      if that admits it. */
  lemma AloneIsSequential(s: State, c: CallId, count: nat) returns (steps: seq<Step>, t: State)
    requires s.calls == map[]
    ensures Runs(s, steps, t) && t.calls == map[] && t.clock == s.clock
    ensures View(t) == Consume(View(s), Request(s.clock, count))
    ensures t.consumed == s.consumed + (if Admits(View(s), Request(s.clock, count)) then count else 0)
  {
    var s1 := Apply(s, Call(c, count));
    var s2 := Apply(s1, ReadClock(c));
    assert s2.calls == map[c := Clocked(count, s.clock)];
    var rest;
    rest, t := RefillAlone(s2, c, count, s.clock);
    Then(s1, ReadClock(c), rest, t);
    Then(s, Call(c, count), [ReadClock(c)] + rest, t);
    steps := [Call(c, count)] + ([ReadClock(c)] + rest);
  }

  // ----- The object --------------------------------------------------------------------------------

  class TokenBucket {
    const capacity: nat
    const rate: nat
    var tokens: int
    var lastRefillTick: nat

    ghost function Now(): Bucket
      reads this
    {
      Bucket(capacity, rate, tokens, lastRefillTick)
    }

    constructor (capacity: nat, rate: nat, now: nat)
      ensures Now() == Bucket(capacity, rate, capacity, now)
    {
      this.capacity, this.rate, tokens, lastRefillTick := capacity, rate, capacity, now;
    }

    method Reset(now: nat)
      modifies this
      ensures Now() == Bucket(capacity, rate, capacity, now)
    {
      tokens := capacity;
      lastRefillTick := now;
    }

    method RefillAt(now: nat)
      modifies this
      ensures Now() == Refill(old(Now()), now)
    {
      if now <= lastRefillTick { return; }
      var elapsedMs := now - lastRefillTick;
      if elapsedMs < 50 { return; }
      lastRefillTick := now;
      var addTokens := ToInt32(Product64(elapsedMs, rate) / 1000);
      if addTokens > 0 {
        var sum := ToInt32(tokens + addTokens);
        tokens := if sum < capacity then sum else capacity;
      }
    }

    method ConsumeAt(now: nat, count: nat) returns (ok: bool)
      modifies this
      ensures ok <==> Admits(old(Now()), Request(now, count))
      ensures Now() == Consume(old(Now()), Request(now, count))
    {
      RefillAt(now);
      if tokens < count {
        return false;
      }
      tokens := tokens - count;
      return true;
    }
  }
}
