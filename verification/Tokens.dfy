/** `TokenBucket`: its compare-and-swap steps under any interleaving, and its rate bounds in
    sequential use. */
module Tokens {
  import opened Common
  import opened Widths

  /** A 64-bit product. */
  function Product64(a: nat, b: nat): nat { a * b % TWO64 }

  /** `static_cast<int32>((elapsedMs * rate) / 1000)`. */
  function AddTokens(rate: nat, elapsed: nat): int { ToInt32(Product64(elapsed, rate) / 1000) }

  /** `min(capacity, cur + add)` with a 32-bit sum. */
  function Refilled(capacity: nat, cur: int, add: int): int {
    var sum := ToInt32(cur + add);
    if sum < capacity then sum else capacity
  }

  /** The bucket stays within bounds if and only if the 32-bit sum does not overflow. */
  lemma RefillStaysInRange(capacity: nat, cur: nat, add: int)
    requires 0 < capacity < TWO31 && cur <= capacity && 0 < add < TWO31
    ensures 0 <= Refilled(capacity, cur, add) <= capacity <==> cur + add < TWO31
    ensures cur + add < TWO31 ==> Refilled(capacity, cur, add) <= cur + add
  {
    assert cur + add < TWO32;
  }

  /** An overflow only takes tokens away: a refill never adds more than it should. */
  lemma RefillNeverTooMuch(capacity: nat, cur: int, add: int)
    requires 0 < capacity < TWO31 && -TWO31 <= cur <= capacity && 0 < add < TWO31
    ensures -TWO31 <= Refilled(capacity, cur, add) <= capacity
    ensures Refilled(capacity, cur, add) <= cur + add
  {
    CastRange(cur + add);
  }

  // ----- Any interleaving --------------------------------------------------------------------------

  /** Where a call of `Consume(count)` stands. */
  datatype Phase =
    | Started(count: nat)
    | Clocked(count: nat, now: nat)                // read the clock
    | Loaded(count: nat, last: nat, elapsed: nat)  // read `_lastRefillTick`, at least 50 ms ago
    | Granted(count: nat, credit: nat, add: int)   // won the exchange of the tick; `credit` indexes `granted`
    | Adding(count: nat, credit: nat, add: int, cur: int)  // in the loop that adds
    | Ready(count: nat)                            // `Refill` is over
    | Taking(count: nat, cur: int)                 // in the loop that takes

  /** The time interval a refill pays for. */
  datatype Credit = Credit(since: nat, until: nat)

  /** `granted`, `applied` and `consumed` record history. */
  datatype State = State(capacity: nat, rate: nat, start: nat, clock: nat, tokens: int, last: nat, calls: map<CallId, Phase>,
                         granted: seq<Credit>, applied: set<nat>, consumed: nat)

  datatype Step =
    | Tick(c: CallId, now: nat)
    | Call(c: CallId, count: nat)
    | ReadClock(c: CallId)
    | LoadTick(c: CallId)
    | SwapTick(c: CallId)
    | LoadForAdd(c: CallId)
    | SwapAdd(c: CallId, spurious: bool)
    | LoadForTake(c: CallId)
    | SwapTake(c: CallId, spurious: bool)

  predicate Enabled(s: State, st: Step) {
    match st
    case Tick(c, now) => c !in s.calls && now >= s.clock
    case Call(c, _) => c !in s.calls
    case ReadClock(c) => c in s.calls && s.calls[c].Started?
    case LoadTick(c) => c in s.calls && s.calls[c].Clocked?
    case SwapTick(c) => c in s.calls && s.calls[c].Loaded?
    case LoadForAdd(c) => c in s.calls && s.calls[c].Granted?
    case SwapAdd(c, _) => c in s.calls && s.calls[c].Adding?
    case LoadForTake(c) => c in s.calls && s.calls[c].Ready?
    case SwapTake(c, _) => c in s.calls && s.calls[c].Taking?
  }

  function Amount(rate: nat, c: Credit): int {
    if c.until >= c.since then AddTokens(rate, c.until - c.since) else 0
  }

  function Goto(s: State, c: CallId, p: Phase): State { s.(calls := s.calls[c := p]) }

  function Apply(s: State, st: Step): State
    requires Enabled(s, st)
  {
    match st
    case Tick(_, now) => s.(clock := now)
    case Call(c, count) => Goto(s, c, Started(count))
    case ReadClock(c) => Goto(s, c, Clocked(s.calls[c].count, s.clock))
    case LoadTick(c) =>
      var p := s.calls[c];
      if p.now <= s.last || p.now - s.last < 50 then Goto(s, c, Ready(p.count))
      else Goto(s, c, Loaded(p.count, s.last, p.now - s.last))
    case SwapTick(c) =>
      var p := s.calls[c];
      if s.last != p.last then Goto(s, c, Ready(p.count))
      else
        var now, add := p.last + p.elapsed, AddTokens(s.rate, p.elapsed);
        Goto(s.(last := now, granted := s.granted + [Credit(p.last, now)]), c,
             if add > 0 then Granted(p.count, |s.granted|, add) else Ready(p.count))
    case LoadForAdd(c) => Goto(s, c, Adding(s.calls[c].count, s.calls[c].credit, s.calls[c].add, s.tokens))
    case SwapAdd(c, spurious) =>
      var p := s.calls[c];
      if spurious || s.tokens != p.cur then Goto(s, c, p.(cur := s.tokens))
      else Goto(s.(tokens := Refilled(s.capacity, p.cur, p.add), applied := s.applied + {p.credit}), c, Ready(p.count))
    case LoadForTake(c) => Goto(s, c, Taking(s.calls[c].count, s.tokens))
    case SwapTake(c, spurious) =>
      var p := s.calls[c];
      if p.cur < p.count then s.(calls := s.calls - {c})
      else if spurious || s.tokens != p.cur then Goto(s, c, p.(cur := s.tokens))
      else s.(tokens := p.cur - p.count, consumed := s.consumed + p.count, calls := s.calls - {c})
  }

  /** A full bucket whose refill tick is the current time, as `Reset` leaves it. */
  predicate Init(s: State) {
    && 0 < s.capacity < TWO31 && s.clock == s.last == s.start && s.tokens == s.capacity
    && s.calls == map[] && s.granted == [] && s.applied == {} && s.consumed == 0
  }

  predicate Runs(s: State, steps: seq<Step>, t: State)
    decreases |steps|
  {
    if steps == [] then s == t else Enabled(s, steps[0]) && Runs(Apply(s, steps[0]), steps[1..], t)
  }

  /** No credit overflows beside a full bucket. */
  predicate CreditsFit(s: State) {
    forall k | 0 <= k < |s.granted| :: Amount(s.rate, s.granted[k]) + s.capacity < TWO31
  }

  // ----- Credits -----------------------------------------------------------------------------------

  /** The credited intervals are disjoint: they tile the time from the reset to the last refill. */
  predicate Tiles(s: State) {
    && s.start <= s.last <= s.clock
    && (if s.granted == [] then s.last == s.start
        else s.granted[0].since == s.start && s.granted[|s.granted| - 1].until == s.last)
    && (forall i | 0 <= i < |s.granted| :: s.granted[i].since <= s.granted[i].until)
    && (forall i | 0 < i < |s.granted| :: s.granted[i].since == s.granted[i - 1].until)
  }

  /** The call still owes the bucket this credit. */
  predicate Owes(p: Phase, credit: nat) { (p.Granted? || p.Adding?) && p.credit == credit }

  /** The tokens of the credits already added. */
  function Added(rate: nat, granted: seq<Credit>, applied: set<nat>): int {
    if granted == [] then 0 else
      var n := |granted| - 1;
      Added(rate, granted[..n], applied) + (if n in applied then Amount(rate, granted[n]) else 0)
  }

  lemma Product64AtMost(a: nat, b: nat)
    ensures Product64(a, b) <= a * b
    ensures a * b < TWO64 ==> Product64(a, b) == a * b
  {
    ModAtMost(a * b);
  }

  lemma ModAtMost(x: nat)
    ensures x % TWO64 <= x
    ensures x < TWO64 ==> x % TWO64 == x
  {
  }

  /** Neither the product nor the cast makes a credit larger than the income of its interval. */
  lemma AddTokensAtMost(rate: nat, elapsed: nat)
    ensures -TWO31 <= AddTokens(rate, elapsed) < TWO31
    ensures 1000 * AddTokens(rate, elapsed) <= elapsed * rate
  {
    Product64AtMost(elapsed, rate);
    CastRange(Product64(elapsed, rate) / 1000);
  }

  /** With less than 2^31 tokens to add both are exact. */
  lemma AddTokensExact(rate: nat, elapsed: nat)
    requires elapsed * rate < 1000 * TWO31
    ensures AddTokens(rate, elapsed) == elapsed * rate / 1000
  {
    Product64AtMost(elapsed, rate);
    CastExact(elapsed * rate / 1000);
  }

  lemma {:induction false} AddedOne(rate: nat, granted: seq<Credit>, applied: set<nat>, k: nat)
    requires k < |granted| && k !in applied
    ensures Added(rate, granted, applied + {k}) == Added(rate, granted, applied) + Amount(rate, granted[k])
  {
    var n := |granted| - 1;
    if k < n {
      AddedOne(rate, granted[..n], applied, k);
    } else {
      AddedSame(rate, granted[..n], applied, k);
    }
  }

  lemma {:induction false} AddedSame(rate: nat, granted: seq<Credit>, applied: set<nat>, k: nat)
    requires k >= |granted|
    ensures Added(rate, granted, applied + {k}) == Added(rate, granted, applied)
  {
    if granted != [] {
      AddedSame(rate, granted[..|granted| - 1], applied, k);
    }
  }

  /** The call owes a credit nobody has added. */
  predicate Fresh(s: State, credit: nat, add: int) {
    credit < |s.granted| && credit !in s.applied && add == Amount(s.rate, s.granted[credit])
  }

  predicate CallOk(s: State, p: Phase) {
    match p
    case Clocked(_, now) => now <= s.clock
    case Loaded(_, last, elapsed) => elapsed >= 50 && last + elapsed <= s.clock
    case Granted(_, credit, add) => Fresh(s, credit, add) && add > 0
    case Adding(_, credit, add, _) => Fresh(s, credit, add) && add > 0
    case _ => true
  }

  ghost predicate CallsOk(s: State) {
    && (forall c | c in s.calls :: CallOk(s, s.calls[c]))
    && (forall c, d, k | c in s.calls && d in s.calls && Owes(s.calls[c], k) && Owes(s.calls[d], k) :: c == d)
  }

  predicate TokensOk(s: State) {
    && -TWO31 <= s.tokens <= s.capacity
    && s.tokens + s.consumed <= s.capacity + Added(s.rate, s.granted, s.applied)
    && s.consumed <= s.capacity + Added(s.rate, s.granted, s.applied)
  }

  ghost predicate Inv(s: State) {
    && 0 < s.capacity < TWO31
    && Tiles(s) && CallsOk(s) && TokensOk(s)
    && (forall k | k in s.applied :: k < |s.granted|)
  }

  // ----- Preservation --------------------------------------------------------------------------------

  /** A new credit starts where the last one ended. */
  lemma TilesGrow(s: State, now: nat)
    requires Tiles(s) && s.last <= now <= s.clock
    ensures Tiles(s.(last := now, granted := s.granted + [Credit(s.last, now)]))
  {
  }

  lemma TilesStep(s: State, st: Step)
    requires Inv(s) && Enabled(s, st)
    ensures Tiles(Apply(s, st)) && Apply(s, st).clock == (if st.Tick? then st.now else s.clock)
  {
    if st.SwapTick? && s.last == s.calls[st.c].last {
      assert CallOk(s, s.calls[st.c]);
      TilesGrow(s, s.last + s.calls[st.c].elapsed);
    }
  }

  lemma CallOkStep(s: State, st: Step, d: CallId)
    requires Inv(s) && Enabled(s, st) && d in Apply(s, st).calls
    ensures CallOk(Apply(s, st), Apply(s, st).calls[d])
  {
    if d == st.c {
    } else {
      assert CallOk(s, s.calls[d]);
      if st.SwapAdd? { assert Owes(s.calls[st.c], s.calls[st.c].credit); }
    }
  }

  /** A call owes after a step what it owed before, or the credit just granted to it. */
  lemma OwesStep(s: State, st: Step, c: CallId, k: nat)
    requires Inv(s) && Enabled(s, st) && c in Apply(s, st).calls && Owes(Apply(s, st).calls[c], k)
    ensures (c in s.calls && Owes(s.calls[c], k)) || (c == st.c && k == |s.granted|)
    ensures c in s.calls && Owes(s.calls[c], k) ==> k < |s.granted|
  {
    if c in s.calls { assert CallOk(s, s.calls[c]); }
  }

  lemma CallsStep(s: State, st: Step)
    requires Inv(s) && Enabled(s, st)
    ensures CallsOk(Apply(s, st))
  {
    var calls := Apply(s, st).calls;
    forall d | d in calls ensures CallOk(Apply(s, st), calls[d]) {
      CallOkStep(s, st, d);
    }
    forall c, d, k | c in calls && d in calls && Owes(calls[c], k) && Owes(calls[d], k) ensures c == d {
      OwesStep(s, st, c, k);
      OwesStep(s, st, d, k);
    }
  }

  lemma Scale(a: nat, b: nat, rate: nat)
    requires a <= b
    ensures a * rate <= b * rate && a * rate / 1000 <= b * rate / 1000
  {
  }

  /** What one credit is worth. */
  lemma AmountBound(s: State, k: nat)
    requires Tiles(s) && k < |s.granted|
    ensures -TWO31 <= Amount(s.rate, s.granted[k]) < TWO31
    ensures 1000 * Amount(s.rate, s.granted[k]) <= (s.granted[k].until - s.granted[k].since) * s.rate
  {
    AddTokensAtMost(s.rate, s.granted[k].until - s.granted[k].since);
  }

  lemma TokensStep(s: State, st: Step)
    requires Inv(s) && Enabled(s, st)
    ensures TokensOk(Apply(s, st))
  {
    if st.c in s.calls { assert CallOk(s, s.calls[st.c]); }
    match st {
      case SwapAdd(c, spurious) =>
        var p := s.calls[c];
        AmountBound(s, p.credit);
        AddedOne(s.rate, s.granted, s.applied, p.credit);
        RefillNeverTooMuch(s.capacity, s.tokens, p.add);
      case SwapTick(_) =>
        NewCredit(s, st);
      case _ =>
    }
  }

  lemma NewCredit(s: State, st: Step)
    requires Inv(s) && Enabled(s, st) && st.SwapTick?
    ensures TokensOk(Apply(s, st))
  {
    var t := Apply(s, st);
    if t.granted != s.granted {
      assert t.granted[..|s.granted|] == s.granted;
      assert |s.granted| !in s.applied;
    }
  }

  lemma StepInv(s: State, st: Step)
    requires Inv(s) && Enabled(s, st)
    ensures Inv(Apply(s, st))
  {
    TilesStep(s, st);
    CallsStep(s, st);
    TokensStep(s, st);
  }

  lemma {:induction false} RunInv(s: State, steps: seq<Step>, t: State)
    requires Inv(s) && Runs(s, steps, t)
    ensures Inv(t)
    ensures (s.start, s.rate, s.capacity) == (t.start, t.rate, t.capacity)
    decreases |steps|
  {
    if steps != [] {
      StepInv(s, steps[0]);
      RunInv(Apply(s, steps[0]), steps[1..], t);
    }
  }

  // ----- Without overflow --------------------------------------------------------------------------

  /** The step adds a credit whose sum with the tokens does not fit in 32 bits. */
  predicate Overflows(s: State, st: Step) {
    Enabled(s, st) && st.SwapAdd? && !st.spurious && s.tokens == s.calls[st.c].cur && s.tokens + s.calls[st.c].add >= TWO31
  }

  lemma NegativeExactlyOnOverflow(s: State, st: Step)
    requires Inv(s) && Enabled(s, st) && s.tokens >= 0
    ensures Apply(s, st).tokens >= 0 <==> !Overflows(s, st)
  {
    if st.c in s.calls { assert CallOk(s, s.calls[st.c]); }
    if st.SwapAdd? {
      AmountBound(s, s.calls[st.c].credit);
      RefillStaysInRange(s.capacity, s.tokens, s.calls[st.c].add);
    }
  }

  ghost predicate NeverNegative(s: State, steps: seq<Step>)
    decreases |steps|
  {
    s.tokens >= 0 && (steps == [] || (Enabled(s, steps[0]) && NeverNegative(Apply(s, steps[0]), steps[1..])))
  }

  ghost predicate NeverOverflows(s: State, steps: seq<Step>)
    decreases |steps|
  {
    steps == [] ||
    (Enabled(s, steps[0]) && !Overflows(s, steps[0]) && NeverOverflows(Apply(s, steps[0]), steps[1..]))
  }

  lemma {:induction false} NeverNegativeFrom(s: State, steps: seq<Step>, t: State)
    requires Inv(s) && s.tokens >= 0 && Runs(s, steps, t)
    ensures NeverNegative(s, steps) <==> NeverOverflows(s, steps)
    decreases |steps|
  {
    if steps != [] {
      StepInv(s, steps[0]);
      NegativeExactlyOnOverflow(s, steps[0]);
      if !Overflows(s, steps[0]) { NeverNegativeFrom(Apply(s, steps[0]), steps[1..], t); }
    }
  }

  /** The tokens stay in [0, capacity] throughout a run if and only if none of its refills overflows. */
  lemma InRangeExactlyWithoutOverflow(s0: State, steps: seq<Step>, s: State)
    requires Init(s0) && Runs(s0, steps, s)
    ensures NeverNegative(s0, steps) <==> NeverOverflows(s0, steps)
  {
    NeverNegativeFrom(s0, steps, s);
  }

  lemma {:induction false} CreditsFitBefore(s: State, steps: seq<Step>, t: State)
    requires Runs(s, steps, t) && CreditsFit(t)
    ensures CreditsFit(s) && s.granted <= t.granted
    ensures (s.rate, s.capacity) == (t.rate, t.capacity)
    decreases |steps|
  {
    if steps != [] {
      CreditsFitBefore(Apply(s, steps[0]), steps[1..], t);
      assert forall k | 0 <= k < |s.granted| :: s.granted[k] == t.granted[k];
    }
  }

  lemma {:induction false} RunNotNegative(s: State, steps: seq<Step>, t: State)
    requires Inv(s) && s.tokens >= 0 && Runs(s, steps, t) && CreditsFit(t)
    ensures t.tokens >= 0
    decreases |steps|
  {
    if steps != [] {
      CreditsFitBefore(s, steps, t);
      StepInv(s, steps[0]);
      if steps[0].SwapAdd? { assert CallOk(s, s.calls[steps[0].c]); }
      NegativeExactlyOnOverflow(s, steps[0]);
      RunNotNegative(Apply(s, steps[0]), steps[1..], t);
    }
  }

  // ----- Main result: the upper bound under concurrency --------------------------------------------------

  /** Two bounds over adjacent intervals. */
  lemma AddBounds(x: int, y: int, from: int, mid: int, to: int, rate: nat)
    requires 1000 * x <= (mid - from) * rate && 1000 * y <= (to - mid) * rate
    ensures 1000 * (x + y) <= (to - from) * rate
  {
    assert (to - from) * rate == (mid - from) * rate + (to - mid) * rate;
  }

  /** Where the first `n` credits end. */
  function Until(s: State, n: nat): nat
    requires n <= |s.granted|
  {
    if n == 0 then s.start else s.granted[n - 1].until
  }

  lemma AddedNext(rate: nat, granted: seq<Credit>, applied: set<nat>, n: nat)
    requires 0 < n <= |granted|
    ensures Added(rate, granted[..n], applied)
              == Added(rate, granted[..n - 1], applied) + (if n - 1 in applied then Amount(rate, granted[n - 1]) else 0)
  {
    assert granted[..n][..n - 1] == granted[..n - 1];
  }

  /** Credits, telescoped. */
  lemma {:induction false} AddedBound(s: State, n: nat)
    requires Tiles(s) && n <= |s.granted|
    ensures 1000 * Added(s.rate, s.granted[..n], s.applied) <= (Until(s, n) - s.start) * s.rate
  {
    if n > 0 {
      var credit := s.granted[n - 1];
      AddedBound(s, n - 1);
      AddedNext(s.rate, s.granted, s.applied, n);
      CreditBound(s, n - 1);
      AddBounds(Added(s.rate, s.granted[..n - 1], s.applied), if n - 1 in s.applied then Amount(s.rate, credit) else 0,
                s.start, Until(s, n - 1), Until(s, n), s.rate);
    }
  }

  /** A credit that was not added counts nothing. */
  lemma CreditBound(s: State, k: nat)
    requires Tiles(s) && k < |s.granted|
    ensures Until(s, k) == s.granted[k].since <= s.granted[k].until
    ensures 1000 * (if k in s.applied then Amount(s.rate, s.granted[k]) else 0)
              <= (s.granted[k].until - s.granted[k].since) * s.rate
  {
    AmountBound(s, k);
    var elapsed: nat := s.granted[k].until - s.granted[k].since;
    assert elapsed * s.rate >= 0;
  }

  /** Under any interleaving of any number of calls the credited intervals tile the time from the reset
      to the last refill, the tokens never exceed the capacity, and what was consumed since the reset is
      at most capacity + rate * elapsed / 1000, whatever overflows.  The tokens are not negative if every
      single credit fits beside a full bucket, however long the run is. */
  lemma NeverOverAdmits(s0: State, steps: seq<Step>, s: State)
    requires Init(s0) && Runs(s0, steps, s)
    ensures (s.start, s.rate, s.capacity) == (s0.start, s0.rate, s0.capacity)
    ensures Tiles(s)
    ensures s.tokens <= s.capacity
    ensures s.consumed <= s.capacity + (s.clock - s.start) * s.rate / 1000
    ensures CreditsFit(s) ==> 0 <= s.tokens
  {
    assert Inv(s0);
    RunInv(s0, steps, s);
    if CreditsFit(s) { RunNotNegative(s0, steps, s); }
    AddedBound(s, |s.granted|);
    assert s.granted[..|s.granted|] == s.granted;
    Scale(s.last - s.start, s.clock - s.start, s.rate);
  }
}
