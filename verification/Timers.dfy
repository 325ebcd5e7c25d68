/** `JobTimer`: delayed jobs in a min-heap, handed to their owners' queues by one distributing thread
    at a time. */
module Timers {
  import opened Common

  type QueueId = nat

  datatype Item = Item(tick: nat, owner: QueueId, job: nat)

  /** An item that left the heap: when, and whether its owner was still alive and got the job. */
  datatype Outcome = Outcome(item: Item, at: nat, pushed: bool)

  datatype Phase =
    | Draining(now: nat)                                            // won the flag, before the locked drain
    | Pushing(now: nat, expired: seq<Item>, k: nat, since: nat)     // `since` is where its outcomes start

  /** `reserved` and `done` record history. */
  datatype State = State(clock: nat, items: multiset<Item>, distributing: bool, alive: set<QueueId>, calls: map<CallId, Phase>,
                         reserved: multiset<Item>, done: seq<Outcome>)

  datatype Step =
    | Advance(c: CallId, clock: nat)
    | Die(c: CallId, owner: QueueId)
    | Create(c: CallId, owner: QueueId)
    | Reserve(c: CallId, read: nat, afterMs: nat, owner: QueueId, job: nat)   // the clock was read at `read`
    | Distribute(c: CallId, now: nat)
    | Drain(c: CallId, expired: seq<Item>)
    | Push(c: CallId)
    | Finish(c: CallId)

  predicate Sorted(items: seq<Item>) { forall i, j | 0 <= i < j < |items| :: items[i].tick <= items[j].tick }

  /** What popping a min-heap until its top lies in the future leaves behind. */
  predicate IsDrain(items: multiset<Item>, now: nat, expired: seq<Item>, rest: multiset<Item>) {
    && multiset(expired) + rest == items && Sorted(expired)
    && (forall e | e in expired :: e.tick <= now)
    && (forall e | e in rest :: e.tick > now)
  }

  predicate Enabled(s: State, st: Step) {
    match st
    case Advance(c, clock) => c !in s.calls && clock >= s.clock
    case Die(c, _) => c !in s.calls
    case Create(c, _) => c !in s.calls
    case Reserve(c, read, _, _, _) => c !in s.calls && read <= s.clock
    case Distribute(c, now) => c !in s.calls && now <= s.clock
    case Drain(c, expired) =>
      c in s.calls && s.calls[c].Draining? && IsDrain(s.items, s.calls[c].now, expired, s.items - multiset(expired))
    case Push(c) => c in s.calls && s.calls[c].Pushing? && s.calls[c].k < |s.calls[c].expired|
    case Finish(c) => c in s.calls && s.calls[c].Pushing? && s.calls[c].k == |s.calls[c].expired|
  }

  function Apply(s: State, st: Step): State
    requires Enabled(s, st)
  {
    match st
    case Advance(_, clock) => s.(clock := clock)
    case Die(_, owner) => s.(alive := s.alive - {owner})
    case Create(_, owner) => s.(alive := s.alive + {owner})
    case Reserve(_, read, afterMs, owner, job) =>
      var item := Item(read + afterMs, owner, job);
      s.(items := s.items + multiset{item}, reserved := s.reserved + multiset{item})
    case Distribute(c, now) =>
      if s.distributing then s else s.(distributing := true, calls := s.calls[c := Draining(now)])
    case Drain(c, expired) =>
      s.(items := s.items - multiset(expired), calls := s.calls[c := Pushing(s.calls[c].now, expired, 0, |s.done|)])
    case Push(c) =>
      var p := s.calls[c];
      var item := p.expired[p.k];
      s.(done := s.done + [Outcome(item, s.clock, item.owner in s.alive)], calls := s.calls[c := p.(k := p.k + 1)])
    case Finish(c) => s.(distributing := false, calls := s.calls - {c})
  }

  predicate Init(s: State) {
    s.items == multiset{} && !s.distributing && s.calls == map[] && s.reserved == multiset{} && s.done == []
  }

  predicate Runs(s: State, steps: seq<Step>, t: State)
    decreases |steps|
  {
    if steps == [] then s == t else Enabled(s, steps[0]) && Runs(Apply(s, steps[0]), steps[1..], t)
  }

  // ----- The invariant -----------------------------------------------------------------------------

  function Items(done: seq<Outcome>): seq<Item> { seq(|done|, i requires 0 <= i < |done| => done[i].item) }

  lemma ItemsAppend(done: seq<Outcome>, o: Outcome)
    ensures Items(done + [o]) == Items(done) + [o.item]
  {
  }

  /** The call's outcomes so far are its expired items in order, all due; the rest is still to come. */
  predicate PushingOk(s: State, p: Phase)
    requires p.Pushing?
  {
    && p.now <= s.clock && p.k <= |p.expired| && p.since + p.k == |s.done|
    && Sorted(p.expired) && (forall e | e in p.expired :: e.tick <= p.now)
    && Items(s.done)[p.since..] == p.expired[..p.k]
    && s.items + multiset(p.expired[p.k..]) + multiset(Items(s.done)) == s.reserved
  }

  /** At most one call, and the flag says whether there is one. */
  ghost predicate OneCall(s: State) {
    && (forall c, d | c in s.calls && d in s.calls :: c == d)
    && (s.distributing <==> s.calls != map[])
  }

  predicate PhaseOk(s: State, p: Phase) {
    match p
    case Draining(now) => now <= s.clock && Settled(s)
    case Pushing(_, _, _, _) => PushingOk(s, p)
  }

  /** Every reserved item is in the heap or has left. */
  predicate Settled(s: State) { s.items + multiset(Items(s.done)) == s.reserved }

  predicate Due(s: State) { forall i | 0 <= i < |s.done| :: s.done[i].item.tick <= s.done[i].at <= s.clock }

  ghost predicate Inv(s: State) {
    && OneCall(s) && Due(s)
    && (forall c | c in s.calls :: PhaseOk(s, s.calls[c]))
    && (s.calls == map[] ==> Settled(s))
  }

  lemma OneCallStep(s: State, st: Step)
    requires OneCall(s) && Enabled(s, st)
    ensures OneCall(Apply(s, st))
  {
    var t := Apply(s, st);
    if st.Finish? {
      assert forall c | c in s.calls :: c == st.c;
      assert t.calls == map[];
    } else if st.c in t.calls {
      assert t.calls != map[];
    }
  }

  /** The first of the items to come becomes the last of those that left. */
  lemma MovedOne(items: multiset<Item>, before: seq<Item>, coming: seq<Item>, k: nat)
    requires k < |coming|
    ensures items + multiset(coming[k..]) + multiset(before) == items + multiset(coming[k + 1..]) + multiset(before + [coming[k]])
  {
    assert coming[k..] == [coming[k]] + coming[k + 1..];
  }

  lemma LeftInOrder(before: seq<Item>, since: nat, coming: seq<Item>, k: nat)
    requires since <= |before| && k < |coming| && before[since..] == coming[..k]
    ensures (before + [coming[k]])[since..] == coming[..k + 1]
  {
  }

  lemma PushedOne(s: State, p: Phase, o: Outcome)
    requires p.Pushing? && PushingOk(s, p) && p.k < |p.expired| && o.item == p.expired[p.k]
    ensures PushingOk(s.(done := s.done + [o]), p.(k := p.k + 1))
  {
    ItemsAppend(s.done, o);
    MovedOne(s.items, Items(s.done), p.expired, p.k);
    LeftInOrder(Items(s.done), p.since, p.expired, p.k);
  }

  lemma PushInv(s: State, st: Step)
    requires Inv(s) && Enabled(s, st) && st.Push?
    ensures Inv(Apply(s, st))
  {
    var p := s.calls[st.c];
    OneCallStep(s, st);
    assert PhaseOk(s, p);
    var item := p.expired[p.k];
    var o := Outcome(item, s.clock, item.owner in s.alive);
    assert item in p.expired;
    PushedOne(s, p, o);
    var t := Apply(s, st);
    assert PushingOk(t, t.calls[st.c]);
    assert forall c | c in t.calls :: c in s.calls && c == st.c;
  }

  lemma DrainInv(s: State, st: Step)
    requires Inv(s) && Enabled(s, st) && st.Drain?
    ensures Inv(Apply(s, st))
  {
    OneCallStep(s, st);
    assert PhaseOk(s, s.calls[st.c]);
    var t := Apply(s, st);
    assert PushingOk(t, t.calls[st.c]);
    assert forall c | c in t.calls :: c in s.calls && c == st.c;
  }

  lemma ReserveInv(s: State, st: Step)
    requires Inv(s) && Enabled(s, st) && st.Reserve?
    ensures Inv(Apply(s, st))
  {
    var t := Apply(s, st);
    forall c | c in t.calls ensures PhaseOk(t, t.calls[c]) {
      assert PhaseOk(s, s.calls[c]);
    }
  }

  lemma OtherInv(s: State, st: Step)
    requires Inv(s) && Enabled(s, st) && (st.Advance? || st.Die? || st.Create? || st.Distribute?)
    ensures Inv(Apply(s, st))
  {
    var t := Apply(s, st);
    OneCallStep(s, st);
    forall c | c in t.calls ensures PhaseOk(t, t.calls[c]) {
      if c in s.calls { assert PhaseOk(s, s.calls[c]); }
    }
  }

  lemma {:induction false} RunInv(s: State, steps: seq<Step>, t: State)
    requires Inv(s) && Runs(s, steps, t)
    ensures Inv(t)
    decreases |steps|
  {
    if steps != [] {
      match steps[0] {
        case Push(_) => PushInv(s, steps[0]);
        case Drain(_, _) => DrainInv(s, steps[0]);
        case Finish(_) =>
        case Reserve(_, _, _, _, _) => ReserveInv(s, steps[0]);
        case _ => OtherInv(s, steps[0]);
      }
      RunInv(Apply(s, steps[0]), steps[1..], t);
    }
  }

  // ----- Main results ------------------------------------------------------------------------------

  /** The items that the `Reserve` steps ask for: `afterMs` after the clock they read. */
  function Reservations(steps: seq<Step>): multiset<Item>
    decreases |steps|
  {
    if steps == [] then multiset{} else
      (match steps[0]
       case Reserve(_, read, afterMs, owner, job) => multiset{Item(read + afterMs, owner, job)}
       case _ => multiset{})
      + Reservations(steps[1..])
  }

  lemma {:induction false} ReservedAll(s: State, steps: seq<Step>, t: State)
    requires Runs(s, steps, t)
    ensures t.reserved == s.reserved + Reservations(steps)
    decreases |steps|
  {
    if steps != [] { ReservedAll(Apply(s, steps[0]), steps[1..], t); }
  }

  /** For every interleaving: no job leaves for its owner's queue before its tick; every reserved item
      leaves at most once, and when no `Distribute` is under way each is either still in the heap or
      has left exactly once. */
  lemma NeverEarlyNeverTwice(s0: State, steps: seq<Step>, s: State)
    requires Init(s0) && Runs(s0, steps, s)
    ensures forall i | 0 <= i < |s.done| :: s.done[i].at >= s.done[i].item.tick
    ensures multiset(Items(s.done)) <= s.reserved
    ensures s.calls == map[] ==> s.items + multiset(Items(s.done)) == s.reserved
    ensures s.distributing <==> s.calls != map[]
    ensures s.reserved == Reservations(steps)
  {
    ReservedAll(s0, steps, s);
    assert Items(s0.done) == [];
    RunInv(s0, steps, s);
    if c :| c in s.calls { assert PhaseOk(s, s.calls[c]); }
  }

  /** Only one thread distributes, and what one `Distribute` pushes is in nondecreasing tick order;
      everything it drained was due. */
  lemma OneDistributorInOrder(s0: State, steps: seq<Step>, s: State, c: CallId, d: CallId)
    requires Init(s0) && Runs(s0, steps, s) && c in s.calls && d in s.calls
    ensures c == d && s.distributing
    ensures s.calls[c].Pushing? ==> s.calls[c].since <= |s.done| && Sorted(Items(s.done)[s.calls[c].since..])
    ensures s.calls[c].Pushing? ==> forall e | e in s.calls[c].expired :: e.tick <= s.calls[c].now
  {
    assert Items(s0.done) == [];
    RunInv(s0, steps, s);
    assert PhaseOk(s, s.calls[c]);
  }

  /** Only a push records an outcome, and it records the moment. */
  lemma StepOutcome(s: State, st: Step)
    requires Enabled(s, st)
    ensures var next := Apply(s, st);
            if !st.Push? then next.done == s.done
            else |next.done| == |s.done| + 1 && s.done <= next.done
                 && var o := next.done[|s.done|]; o.at == s.clock && (o.pushed <==> o.item.owner in s.alive)
    ensures st.Drain? ==> forall e | e in Apply(s, st).items :: e.tick > s.calls[st.c].now
    ensures Apply(s, st).clock == (if st.Advance? then st.clock else s.clock)
    ensures st.Distribute? && !s.distributing ==> st.c in Apply(s, st).calls && Apply(s, st).calls[st.c] == Draining(st.now)
    ensures Apply(s, st).alive == (if st.Die? then s.alive - {st.owner} else if st.Create? then s.alive + {st.owner} else s.alive)
  {
  }

  lemma {:induction false} DoneGrows(s: State, steps: seq<Step>, t: State)
    requires Runs(s, steps, t)
    ensures s.done <= t.done
    decreases |steps|
  {
    if steps != [] {
      StepOutcome(s, steps[0]);
      DoneGrows(Apply(s, steps[0]), steps[1..], t);
    }
  }

  lemma RunsLonger(s: State, steps: seq<Step>, k: nat, at: State)
    requires 0 < k <= |steps| && Enabled(s, steps[0]) && Runs(Apply(s, steps[0]), steps[1..][..k - 1], at)
    ensures Runs(s, steps[..k], at)
  {
    assert steps[..k][1..] == steps[1..][..k - 1];
  }

  /** An item that left the heap reached its owner's queue if and only if the owner was alive in the very
      state in which the item was pushed. */
  lemma {:induction false} PushedExactlyWhenAlive(s: State, steps: seq<Step>, t: State, i: nat) returns (k: nat, at: State)
    requires Runs(s, steps, t) && |s.done| <= i < |t.done|
    ensures k < |steps| && steps[k].Push? && Runs(s, steps[..k], at) && |at.done| == i
    ensures t.done[i].at == at.clock && (t.done[i].pushed <==> t.done[i].item.owner in at.alive)
    decreases |steps|
  {
    StepOutcome(s, steps[0]);
    if steps[0].Push? && i == |s.done| {
      k, at := 0, s;
      DoneGrows(Apply(s, steps[0]), steps[1..], t);
    } else {
      k, at := PushedExactlyWhenAlive(Apply(s, steps[0]), steps[1..], t, i);
      k := k + 1;
      RunsLonger(s, steps, k, at);
    }
  }

  lemma {:induction false} AllPushed(s: State, steps: seq<Step>, t: State, owner: QueueId)
    requires Runs(s, steps, t) && owner in s.alive
    requires forall i | 0 <= i < |steps| :: !(steps[i].Die? && steps[i].owner == owner)
    requires forall i | 0 <= i < |s.done| && s.done[i].item.owner == owner :: s.done[i].pushed
    ensures forall i | 0 <= i < |t.done| && t.done[i].item.owner == owner :: t.done[i].pushed
    decreases |steps|
  {
    if steps != [] {
      assert !(steps[0].Die? && steps[0].owner == owner);
      StepOutcome(s, steps[0]);
      AllPushed(Apply(s, steps[0]), steps[1..], t, owner);
    }
  }

  /** How often the item was pushed to its owner's queue. */
  function TimesPushed(done: seq<Outcome>, e: Item): nat {
    if done == [] then 0 else
      TimesPushed(done[..|done| - 1], e) + (if done[|done| - 1].item == e && done[|done| - 1].pushed then 1 else 0)
  }

  lemma {:induction false} PushedAsOften(done: seq<Outcome>, e: Item)
    requires forall i | 0 <= i < |done| && done[i].item == e :: done[i].pushed
    ensures TimesPushed(done, e) == multiset(Items(done))[e]
  {
    if done != [] {
      var before, last := done[..|done| - 1], done[|done| - 1];
      PushedAsOften(before, e);
      assert done == before + [last];
      ItemsAppend(before, last);
    }
  }

  /** For an owner that is alive throughout: between distributions each of its items was pushed exactly
      as often as it was reserved and is no longer in the heap. */
  lemma LivingOwnersGetTheirJobs(s0: State, steps: seq<Step>, s: State, e: Item)
    requires Init(s0) && Runs(s0, steps, s) && s.calls == map[] && e.owner in s0.alive
    requires forall i | 0 <= i < |steps| :: !(steps[i].Die? && steps[i].owner == e.owner)
    ensures s.items[e] + TimesPushed(s.done, e) == s.reserved[e]
  {
    NeverEarlyNeverTwice(s0, steps, s);
    AllPushed(s0, steps, s, e.owner);
    PushedAsOften(s.done, e);
  }

  lemma {:induction false} RunsUpTo(s: State, steps: seq<Step>, t: State, k: nat) returns (at: State)
    requires Runs(s, steps, t) && k < |steps|
    ensures Runs(s, steps[..k], at) && Enabled(at, steps[k]) && Runs(Apply(at, steps[k]), steps[k + 1..], t)
    decreases k
  {
    if k == 0 {
      at := s;
    } else {
      at := RunsUpTo(Apply(s, steps[0]), steps[1..], t, k - 1);
      RunsLonger(s, steps, k, at);
      assert steps[1..][k - 1 + 1..] == steps[k + 1..];
    }
  }

  /** Every completed `Distribute` handed out exactly what it had drained, in nondecreasing tick order,
      and nothing that was not due when it began: `since` and `until` bound its outcomes. */
  lemma CompletedInOrder(s0: State, steps: seq<Step>, s: State, k: nat) returns (at: State, since: nat, until: nat)
    requires Init(s0) && Runs(s0, steps, s) && k < |steps| && steps[k].Finish?
    ensures Runs(s0, steps[..k], at) && steps[k].c in at.calls && at.calls[steps[k].c].Pushing?
    ensures since <= until == |at.done| <= |s.done| && Items(s.done)[since..until] == at.calls[steps[k].c].expired
    ensures Sorted(Items(s.done)[since..until])
    ensures forall i | since <= i < until :: s.done[i].item.tick <= at.calls[steps[k].c].now
  {
    at := RunsUpTo(s0, steps, s, k);
    var p := at.calls[steps[k].c];
    assert Items(s0.done) == [];
    RunInv(s0, steps[..k], at);
    assert PhaseOk(at, p);
    since, until := p.since, |at.done|;
    DoneGrows(Apply(at, steps[k]), steps[k + 1..], s);
    SameItems(at.done, s.done, since);
    forall i | since <= i < until ensures s.done[i].item.tick <= p.now {
      assert s.done[i].item == Items(s.done)[since..until][i - since];
      assert s.done[i].item in p.expired;
    }
  }

  lemma SameItems(a: seq<Outcome>, b: seq<Outcome>, since: nat)
    requires a <= b && since <= |a|
    ensures Items(b)[since..|a|] == Items(a)[since..]
  {
  }

  // ----- The heap ----------------------------------------------------------------------------------

  /** A non-empty heap has a top. */
  lemma {:induction false} TopExists(items: multiset<Item>) returns (top: Item)
    requires items != multiset{}
    ensures top in items && forall e | e in items :: top.tick <= e.tick
    decreases |items|
  {
    var one :| one in items;
    var rest := items - multiset{one};
    assert forall e | e in items :: e == one || e in rest;
    top := one;
    if rest != multiset{} {
      var other := TopExists(rest);
      if other.tick < one.tick { top := other; }
    }
  }

  predicate Before(expired: seq<Item>, items: multiset<Item>) {
    forall e, f | e in expired && f in items :: e.tick <= f.tick
  }

  /** Moving the top of the heap to the end of a sorted list of earlier items. */
  lemma PopTop(expired: seq<Item>, items: multiset<Item>, top: Item)
    requires Sorted(expired) && Before(expired, items) && top in items && forall e | e in items :: top.tick <= e.tick
    ensures Sorted(expired + [top]) && Before(expired + [top], items - multiset{top})
    ensures multiset(expired + [top]) + (items - multiset{top}) == multiset(expired) + items
  {
    var longer := expired + [top];
    forall i, j | 0 <= i < j < |longer| ensures longer[i].tick <= longer[j].tick {
      if j == |expired| { assert expired[i] in expired; }
    }
    forall e, f | e in longer && f in items - multiset{top} ensures e.tick <= f.tick {
      assert f in items && (e in expired || e == top);
    }
  }

  class JobTimer {
    var items: multiset<Item>

    method Reserve(now: nat, afterMs: nat, owner: QueueId, job: nat)
      modifies this
      ensures items == old(items) + multiset{Item(now + afterMs, owner, job)}
    {
      items := items + multiset{Item(now + afterMs, owner, job)};
    }

    /** The locked section of `Distribute`. */
    method DrainExpired(now: nat) returns (expired: seq<Item>)
      modifies this
      ensures IsDrain(old(items), now, expired, items)
      ensures multiset(expired) + items == old(items) && (forall i, j | 0 <= i < j < |expired| :: expired[i].tick <= expired[j].tick)
      ensures (forall e | e in expired :: e.tick <= now) && (forall e | e in items :: e.tick > now)
    {
      expired := [];
      while items != multiset{}
        invariant multiset(expired) + items == old(items) && Sorted(expired)
        invariant forall e | e in expired :: e.tick <= now
        invariant Before(expired, items)
        decreases |items|
      {
        ghost var top := TopExists(items);
        var item :| item in items && forall e | e in items :: item.tick <= e.tick;
        if item.tick > now { break; }
        PopTop(expired, items, item);
        expired := expired + [item];
        items := items - multiset{item};
      }
    }
  }
}
