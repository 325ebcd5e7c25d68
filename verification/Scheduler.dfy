/** The actor scheduler: `JobQueue::Push`, `JobQueue::Execute` and the global run queue, as a
    state machine over their atomic steps.

    A *call* is one `Push` or one `Execute` in progress.  Every interleaving of calls is allowed,
    so a job that pushes to another queue (or to its own) while it runs is simply one more call. */
module Scheduler {
  import opened Common

  const MAX_EXECUTE: nat := 64

  type QueueId = nat
  type Job = nat

  /** `count` and `jobs` are the fields of the object; `inserted` and `executed` record history. */
  datatype Queue = Queue(count: int, jobs: seq<Job>, inserted: seq<Job>, executed: seq<Job>)

  /** Where a call stands, named after the step it has just taken. */
  datatype Phase =
    | Added(q: QueueId, job: Job, prev: int)                // after fetch_add, before the locked push
    | Registering(q: QueueId)                               // prevCount was 0, before GlobalQueue::Push
    | Holding(q: QueueId)                                   // after GlobalQueue::Pop
    | Running(q: QueueId, batch: seq<Job>, done: nat)       // after the locked batch pop
    | Requeueing(q: QueueId)                                // jobs remain, before GlobalQueue::Push

  datatype State = State(queues: map<QueueId, Queue>, run: seq<QueueId>, calls: map<CallId, Phase>)

  datatype Step =
    | FetchAdd(c: CallId, q: QueueId, job: Job)
    | Insert(c: CallId)
    | Register(c: CallId)
    | Take(c: CallId)
    | PopBatch(c: CallId)
    | RunJob(c: CallId)
    | FetchSub(c: CallId)
    | Requeue(c: CallId)

  predicate Enabled(s: State, st: Step) {
    match st
    case FetchAdd(c, q, _) => c !in s.calls && q in s.queues
    case Take(c) => c !in s.calls && s.run != []
    case Insert(c) => c in s.calls && s.calls[c].Added? && s.calls[c].q in s.queues
    case Register(c) => c in s.calls && s.calls[c].Registering?
    case PopBatch(c) => c in s.calls && s.calls[c].Holding? && s.calls[c].q in s.queues
    case RunJob(c) => c in s.calls && s.calls[c].Running? && s.calls[c].done < |s.calls[c].batch| && s.calls[c].q in s.queues
    case FetchSub(c) => c in s.calls && s.calls[c].Running? && s.calls[c].done == |s.calls[c].batch| && s.calls[c].q in s.queues
    case Requeue(c) => c in s.calls && s.calls[c].Requeueing?
  }

  function Apply(s: State, st: Step): State
    requires Enabled(s, st)
  {
    match st
    case FetchAdd(c, q, job) =>
      var o := s.queues[q];
      s.(queues := s.queues[q := o.(count := o.count + 1)], calls := s.calls[c := Added(q, job, o.count)])
    case Insert(c) =>
      var p := s.calls[c];
      var o := s.queues[p.q];
      s.(queues := s.queues[p.q := o.(jobs := o.jobs + [p.job], inserted := o.inserted + [p.job])],
         calls := if p.prev == 0 then s.calls[c := Registering(p.q)] else s.calls - {c})
    case Register(c) => s.(run := s.run + [s.calls[c].q], calls := s.calls - {c})
    case Take(c) => s.(run := s.run[1..], calls := s.calls[c := Holding(s.run[0])])
    case PopBatch(c) =>
      var q := s.calls[c].q;
      var o := s.queues[q];
      var n := Min(|o.jobs|, MAX_EXECUTE);
      s.(queues := s.queues[q := o.(jobs := o.jobs[n..])], calls := s.calls[c := Running(q, o.jobs[..n], 0)])
    case RunJob(c) =>
      var p := s.calls[c];
      var o := s.queues[p.q];
      s.(queues := s.queues[p.q := o.(executed := o.executed + [p.batch[p.done]])],
         calls := s.calls[c := p.(done := p.done + 1)])
    case FetchSub(c) =>
      var p := s.calls[c];
      var o := s.queues[p.q];
      var remain := o.count - |p.batch|;
      s.(queues := s.queues[p.q := o.(count := remain)],
         calls := if remain > 0 then s.calls[c := Requeueing(p.q)] else s.calls - {c})
    case Requeue(c) => s.(run := s.run + [s.calls[c].q], calls := s.calls - {c})
  }

  predicate Init(s: State) {
    s.run == [] && s.calls == map[] && forall q | q in s.queues :: s.queues[q] == Queue(0, [], [], [])
  }

  /** `t` is reached from `s` by taking `steps` in order. */
  predicate Runs(s: State, steps: seq<Step>, t: State)
    decreases |steps|
  {
    if steps == [] then s == t
    else Enabled(s, steps[0]) && Runs(Apply(s, steps[0]), steps[1..], t)
  }

  // ----- The scheduling token ------------------------------------------------------------------

  /** A call holds the token of `q` from a 0-to-1 `fetch_add` until it registers `q`, and from a
      pop of the run queue until it re-registers `q` or sees the count drop to 0. */
  predicate HasToken(p: Phase, q: QueueId) { p.q == q && (p.Added? ==> p.prev == 0) }

  predicate IsAdding(p: Phase, q: QueueId) { p.q == q && p.Added? }

  predicate IsRunning(p: Phase, q: QueueId) { p.q == q && p.Running? }

  function Tokens(s: State, q: QueueId): set<CallId> { set c | c in s.calls && HasToken(s.calls[c], q) }

  function Adding(s: State, q: QueueId): set<CallId> { set c | c in s.calls && IsAdding(s.calls[c], q) }

  function Runners(s: State, q: QueueId): set<CallId> { set c | c in s.calls && IsRunning(s.calls[c], q) }

  function TokenCount(s: State, q: QueueId): nat { |Tokens(s, q)| + multiset(s.run)[q] }

  // ----- The invariant -------------------------------------------------------------------------

  /** Exactly one token while the count is positive, none otherwise. */
  predicate TokenOk(s: State, q: QueueId) {
    && q in s.queues
    && s.queues[q].count >= 0
    && TokenCount(s, q) == if s.queues[q].count > 0 then 1 else 0
  }

  /** The count is queued jobs, plus pushes between the add and the insert, plus the batch not yet
      subtracted (64 at most); executed jobs, the rest of the batch and the queue spell the insertion history. */
  predicate Accounted(s: State, q: QueueId, batch: seq<Job>, done: nat) {
    && q in s.queues
    && var o := s.queues[q];
    && done <= |batch| <= MAX_EXECUTE
    && o.count == |o.jobs| + |Adding(s, q)| + |batch|
    && o.inserted == o.executed + batch[done..] + o.jobs
  }

  predicate LedgerOk(s: State, q: QueueId) {
    && (Runners(s, q) == {} ==> Accounted(s, q, [], 0))
    && (forall c | c in Runners(s, q) :: Accounted(s, q, s.calls[c].batch, s.calls[c].done))
  }

  predicate Closed(s: State) {
    && (forall c | c in s.calls :: s.calls[c].q in s.queues)
    && (forall i | 0 <= i < |s.run| :: s.run[i] in s.queues)
  }

  ghost predicate QueueOk(s: State, q: QueueId) {
    && TokenOk(s, q)
    && LedgerOk(s, q)
  }

  ghost predicate Inv(s: State) { Closed(s) && forall q | q in s.queues :: QueueOk(s, q) }

  // ----- Preservation ------------------------------------------------------------------------------

  predicate CallHasToken(s: State, c: CallId, q: QueueId) { c in s.calls && HasToken(s.calls[c], q) }

  predicate CallIsAdding(s: State, c: CallId, q: QueueId) { c in s.calls && IsAdding(s.calls[c], q) }

  lemma TokensMoved(s: State, t: State, c: CallId, q: QueueId)
    requires OnlyCall(s.calls, t.calls, c)
    ensures |Tokens(t, q)| == |Tokens(s, q)| - One(CallHasToken(s, c, q)) + One(CallHasToken(t, c, q))
  {
    assert Tokens(t, q) - {c} == Tokens(s, q) - {c};
    Without(Tokens(s, q), c);
    Without(Tokens(t, q), c);
  }

  lemma AddingMoved(s: State, t: State, c: CallId, q: QueueId)
    requires OnlyCall(s.calls, t.calls, c)
    ensures |Adding(t, q)| == |Adding(s, q)| - One(CallIsAdding(s, c, q)) + One(CallIsAdding(t, c, q))
  {
    assert Adding(t, q) - {c} == Adding(s, q) - {c};
    Without(Adding(s, q), c);
    Without(Adding(t, q), c);
  }

  lemma RunMoved(s: State, st: Step, q: QueueId)
    requires Enabled(s, st)
    ensures multiset(Apply(s, st).run)[q] == multiset(s.run)[q]
              + One((st.Register? || st.Requeue?) && s.calls[st.c].q == q) - One(st.Take? && s.run[0] == q)
  {
    if st.Take? {
      assert s.run == [s.run[0]] + s.run[1..];
    }
  }

  lemma StepMovesOneCall(s: State, st: Step)
    requires Enabled(s, st)
    ensures OnlyCall(s.calls, Apply(s, st).calls, st.c)
    ensures st.FetchAdd? ==> st.c in Apply(s, st).calls && Apply(s, st).calls[st.c] == Added(st.q, st.job, s.queues[st.q].count)
  {
  }

  lemma TokenStep(s: State, st: Step, q: QueueId)
    requires Closed(s) && Enabled(s, st) && TokenOk(s, q) && LedgerOk(s, q)
    ensures TokenOk(Apply(s, st), q)
  {
    var t := Apply(s, st);
    StepMovesOneCall(s, st);
    TokensMoved(s, t, st.c, q);
    RunMoved(s, st, q);
    if st.FetchSub? && s.calls[st.c].q == q {
      assert st.c in Runners(s, q) && Accounted(s, q, s.calls[st.c].batch, s.calls[st.c].done);
      assert st.c in Tokens(s, q);
    }
  }

  /** The token is unique, so two calls that hold it are the same call. */
  lemma OneHolder(s: State, q: QueueId, c: CallId, d: CallId)
    requires TokenOk(s, q) && CallHasToken(s, c, q) && CallHasToken(s, d, q)
    ensures c == d
  {
    assert |Tokens(s, q) - {c}| == |Tokens(s, q)| - 1;
    assert d !in Tokens(s, q) - {c};
  }

  /** A queue whose batch is being run by `d`. */
  lemma LedgerWithRunner(s: State, st: Step, q: QueueId, d: CallId)
    requires Closed(s) && Enabled(s, st) && TokenOk(s, q) && LedgerOk(s, q) && d in Runners(s, q)
    ensures LedgerOk(Apply(s, st), q)
  {
    var t := Apply(s, st);
    StepMovesOneCall(s, st);
    AddingMoved(s, t, st.c, q);
    assert Accounted(s, q, s.calls[d].batch, s.calls[d].done);
    if CallHasToken(s, st.c, q) { OneHolder(s, q, d, st.c); }
    forall e | e in Runners(t, q) ensures e == d {
      if e != d && e != st.c { OneHolder(s, q, d, e); }
    }
    if st.c == d {
      RunnerMoves(s, st, q);
    } else {
      assert d in Runners(t, q);
    }
  }

  lemma RunnerMoves(s: State, st: Step, q: QueueId)
    requires Closed(s) && Enabled(s, st) && TokenOk(s, q) && LedgerOk(s, q) && st.c in Runners(s, q)
    ensures var t := Apply(s, st);
            if st.RunJob? then t.calls[st.c].q == q && t.calls[st.c].Running? && Accounted(t, q, t.calls[st.c].batch, t.calls[st.c].done)
            else st.c !in Runners(t, q) && Accounted(t, q, [], 0)
  {
    StepMovesOneCall(s, st);
    AddingMoved(s, Apply(s, st), st.c, q);
    var p := s.calls[st.c];
    assert Accounted(s, q, p.batch, p.done);
    if st.RunJob? {
      assert p.batch[p.done..] == [p.batch[p.done]] + p.batch[p.done + 1..];
    }
  }

  lemma LedgerIdle(s: State, st: Step, q: QueueId)
    requires Closed(s) && Enabled(s, st) && TokenOk(s, q) && LedgerOk(s, q) && Runners(s, q) == {}
    ensures LedgerOk(Apply(s, st), q)
  {
    var t := Apply(s, st);
    StepMovesOneCall(s, st);
    AddingMoved(s, t, st.c, q);
    assert st.c !in Runners(s, q);
    assert forall e | e in Runners(t, q) && e != st.c :: e in Runners(s, q);
    if st.PopBatch? && s.calls[st.c].q == q {
      var o := s.queues[q];
      var n := Min(|o.jobs|, MAX_EXECUTE);
      assert o.jobs == o.jobs[..n] + o.jobs[n..];
      assert st.c in Runners(t, q);
    }
  }

  lemma ClosedStep(s: State, st: Step)
    requires Closed(s) && Enabled(s, st)
    ensures Closed(Apply(s, st)) && Apply(s, st).queues.Keys == s.queues.Keys
  {
    StepMovesOneCall(s, st);
  }

  lemma InvStep(s: State, st: Step)
    requires Inv(s) && Enabled(s, st)
    ensures Inv(Apply(s, st))
  {
    ClosedStep(s, st);
    forall q | q in s.queues ensures QueueOk(Apply(s, st), q) {
      assert QueueOk(s, q);
      TokenStep(s, st, q);
      if d :| d in Runners(s, q) { LedgerWithRunner(s, st, q, d); } else { LedgerIdle(s, st, q); }
    }
  }

  /** Every state of every run satisfies the invariant. */
  lemma {:induction false} InvRun(s: State, steps: seq<Step>, t: State)
    requires Inv(s) && Runs(s, steps, t)
    ensures Inv(t)
    decreases |steps|
  {
    if steps != [] {
      InvStep(s, steps[0]);
      InvRun(Apply(s, steps[0]), steps[1..], t);
    }
  }

  lemma InitInv(s: State)
    requires Init(s)
    ensures Inv(s)
  {
    forall q | q in s.queues ensures QueueOk(s, q) {
      assert Tokens(s, q) == {} && Adding(s, q) == {};
    }
  }

  lemma NoOneHoldsIt(s: State, q: QueueId)
    requires TokenOk(s, q) && q !in s.run && forall c | c in s.calls :: s.calls[c].q != q
    ensures s.queues[q].count == 0 && Runners(s, q) == {}
  {
    assert Tokens(s, q) == {};
  }

  lemma QuietIsEmpty(s: State, q: QueueId)
    requires TokenOk(s, q) && LedgerOk(s, q)
    requires q !in s.run && forall c | c in s.calls :: s.calls[c].q != q
    ensures s.queues[q].jobs == [] && s.queues[q].count == 0
    ensures s.queues[q].executed == s.queues[q].inserted
  {
    NoOneHoldsIt(s, q);
    assert Accounted(s, q, [], 0);
  }
}
