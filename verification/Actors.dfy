/** What the actor scheduler guarantees, for any number of pushers and workers and any interleaving of
    their steps. */
module Actors {
  import opened Common
  import opened Scheduler

  /** Jobs of one queue are never run by two workers at once, and a queue being run or held is
      not waiting in the run queue. */
  lemma MutualExclusion(s0: State, steps: seq<Step>, s: State, q: QueueId, c: CallId, d: CallId)
    requires Init(s0) && Runs(s0, steps, s) && q in s.queues
    requires CallHasToken(s, c, q) && CallHasToken(s, d, q)
    ensures c == d && q !in s.run
  {
    InitInv(s0);
    InvRun(s0, steps, s);
    assert QueueOk(s, q);
    OneHolder(s, q, c, d);
    assert c in Tokens(s, q);
  }

  /** Exactly one token, wherever it is, while the count is positive. */
  lemma TokenExactlyWhenCounted(s0: State, steps: seq<Step>, s: State, q: QueueId)
    requires Init(s0) && Runs(s0, steps, s) && q in s.queues
    ensures s.queues[q].count >= 0
    ensures TokenCount(s, q) == if s.queues[q].count > 0 then 1 else 0
  {
    InitInv(s0);
    InvRun(s0, steps, s);
    assert QueueOk(s, q);
  }

  /** What was executed is a prefix of what was inserted under the lock, in that order, and the
      count is what the queue still owes. */
  lemma ExecutedInOrder(s0: State, steps: seq<Step>, s: State, q: QueueId)
    requires Init(s0) && Runs(s0, steps, s) && q in s.queues
    ensures s.queues[q].executed <= s.queues[q].inserted
    ensures Runners(s, q) == {} ==> Accounted(s, q, [], 0)
    ensures forall c | c in Runners(s, q) :: Accounted(s, q, s.calls[c].batch, s.calls[c].done)
  {
    InitInv(s0);
    InvRun(s0, steps, s);
    assert QueueOk(s, q);
    if c :| c in Runners(s, q) {
      assert Accounted(s, q, s.calls[c].batch, s.calls[c].done);
    }
  }

  /** No job is stranded: a queue that no call is working on and that is not in the run queue has
      executed everything that was ever inserted. */
  lemma NothingStranded(s0: State, steps: seq<Step>, s: State, q: QueueId)
    requires Init(s0) && Runs(s0, steps, s) && q in s.queues
    requires q !in s.run && forall c | c in s.calls :: s.calls[c].q != q
    ensures s.queues[q].jobs == [] && s.queues[q].count == 0
    ensures s.queues[q].executed == s.queues[q].inserted
  {
    InitInv(s0);
    InvRun(s0, steps, s);
    assert QueueOk(s, q);
    QuietIsEmpty(s, q);
  }

  /** The queues registered by `Register` and `Requeue`, in order. */
  function Registrations(s: State, steps: seq<Step>): seq<QueueId>
    decreases |steps|
  {
    if steps == [] || !Enabled(s, steps[0]) then [] else
      (if steps[0].Register? || steps[0].Requeue? then [s.calls[steps[0].c].q] else [])
      + Registrations(Apply(s, steps[0]), steps[1..])
  }

  /** The queues that calls of `GlobalQueue::Pop` got, in order. */
  function Takes(s: State, steps: seq<Step>): seq<QueueId>
    decreases |steps|
  {
    if steps == [] || !Enabled(s, steps[0]) then [] else
      (if steps[0].Take? then [Apply(s, steps[0]).calls[steps[0].c].q] else [])
      + Takes(Apply(s, steps[0]), steps[1..])
  }

  /** The run queue is first in, first out, for any number of pushers and workers. */
  lemma {:induction false} RunQueueIsFifo(s: State, steps: seq<Step>, t: State)
    requires Runs(s, steps, t)
    ensures s.run + Registrations(s, steps) == Takes(s, steps) + t.run
    decreases |steps|
  {
    if steps != [] {
      var u := Apply(s, steps[0]);
      var more, after := Registrations(u, steps[1..]), Takes(u, steps[1..]);
      RunQueueIsFifo(u, steps[1..], t);
      FifoStep(s, steps[0], more);
      assert [] + more == more && [] + after == after;
      if steps[0].Take? {
        var q := u.calls[steps[0].c].q;
        assert [q] + (after + t.run) == ([q] + after) + t.run;
      }
    }
  }

  lemma FifoStep(s: State, st: Step, more: seq<QueueId>)
    requires Enabled(s, st)
    ensures var u := Apply(s, st);
            if st.Register? || st.Requeue? then s.run + ([s.calls[st.c].q] + more) == u.run + more
            else if st.Take? then s.run + more == [u.calls[st.c].q] + (u.run + more)
            else u.run == s.run
  {
    if st.Take? { assert s.run == [s.run[0]] + s.run[1..]; }
  }

  /** A batch is the oldest jobs: 64 of them, or all if there are fewer. */
  lemma BatchIsTheOldest(s: State, c: CallId)
    requires Enabled(s, PopBatch(c))
    ensures var q, t := s.calls[c].q, Apply(s, PopBatch(c));
            && t.calls[c] == Running(q, t.calls[c].batch, 0)
            && t.calls[c].batch + t.queues[q].jobs == s.queues[q].jobs
            && (|t.calls[c].batch| == 64 || (|t.calls[c].batch| < 64 && t.queues[q].jobs == []))
  {
  }

  /** What a `Push` was given is what it inserts, whatever others do in between. */
  lemma {:induction false} PushInsertsItsJob(s: State, steps: seq<Step>, t: State, c: CallId, q: QueueId, job: Job)
    requires c in s.calls && s.calls[c].Added? && s.calls[c].q == q && s.calls[c].job == job && q in s.queues
    requires Runs(s, steps, t) && forall i | 0 <= i < |steps| :: steps[i].c != c
    ensures q in t.queues && Enabled(t, Insert(c))
    ensures Apply(t, Insert(c)).queues == t.queues[q := t.queues[q].(jobs := t.queues[q].jobs + [job],
                                                                     inserted := t.queues[q].inserted + [job])]
    decreases |steps|
  {
    if steps != [] {
      StepMovesOneCall(s, steps[0]);
      PushInsertsItsJob(Apply(s, steps[0]), steps[1..], t, c, q, job);
    }
  }
}
