/** One worker draining the run queue: `while (Pop()) Execute()`, with `Push`, `Pop` and `Execute`
    run to completion one after another. */
module Drain {
  import opened Common
  import opened Scheduler

  /** The registered queues in FIFO order and the jobs of every queue. */
  datatype Pool = Pool(run: seq<QueueId>, jobs: map<QueueId, seq<Job>>)

  ghost predicate AllWaiting(p: Pool) { forall q | q in p.run :: q in p.jobs && p.jobs[q] != [] }

  ghost predicate NoneTwice(run: seq<QueueId>) { forall i, j | 0 <= i < j < |run| :: run[i] != run[j] }

  ghost predicate NoneForgotten(p: Pool) { forall q | q in p.jobs && p.jobs[q] != [] :: q in p.run }

  /** Every non-empty queue is registered exactly once, and no empty queue is. */
  ghost predicate Registered(p: Pool) { AllWaiting(p) && NoneTwice(p.run) && NoneForgotten(p) }

  /** One `Pop` and the `Execute` it leads to. */
  function Turn(p: Pool): Pool
    requires p.run != [] && p.run[0] in p.jobs
  {
    var q := p.run[0];
    var left := p.jobs[q][Min(|p.jobs[q]|, MAX_EXECUTE)..];
    Pool(p.run[1..] + (if left == [] then [] else [q]), p.jobs[q := left])
  }

  /** The number of `Execute` calls that `n` jobs need: n/64 rounded up. */
  function Rounds(n: nat): nat { (n + 63) / 64 }

  function Waiting(jobs: map<QueueId, seq<Job>>, q: QueueId): nat { if q in jobs then |jobs[q]| else 0 }

  function Work(run: seq<QueueId>, jobs: map<QueueId, seq<Job>>): nat {
    if run == [] then 0 else Rounds(Waiting(jobs, run[0])) + Work(run[1..], jobs)
  }

  lemma TurnRegistered(p: Pool)
    requires Registered(p) && p.run != []
    ensures Registered(Turn(p))
  {
    var t := Turn(p);
    var q := p.run[0];
    forall r | r in t.jobs && t.jobs[r] != [] ensures r in t.run {
      if r != q {
        assert r in p.run[1..];
      } else {
        assert t.run[|t.run| - 1] == q;
      }
    }
  }

  lemma {:induction false} WorkAppend(a: seq<QueueId>, b: seq<QueueId>, jobs: map<QueueId, seq<Job>>)
    ensures Work(a + b, jobs) == Work(a, jobs) + Work(b, jobs)
  {
    if a == [] {
      assert a + b == b;
    } else {
      assert (a + b)[1..] == a[1..] + b;
      WorkAppend(a[1..], b, jobs);
    }
  }

  lemma {:induction false} WorkFrame(run: seq<QueueId>, jobs: map<QueueId, seq<Job>>, q: QueueId, left: seq<Job>)
    requires q !in run
    ensures Work(run, jobs[q := left]) == Work(run, jobs)
  {
    if run != [] {
      WorkFrame(run[1..], jobs, q, left);
    }
  }

  /** Every turn pays off exactly one unit of work. */
  lemma TurnWork(p: Pool)
    requires Registered(p) && p.run != []
    ensures Registered(Turn(p)) && Work(Turn(p).run, Turn(p).jobs) == Work(p.run, p.jobs) - 1
  {
    TurnRegistered(p);
    var q, t := p.run[0], Turn(p);
    var rest := p.run[1..];
    assert q !in rest;
    WorkFrame(rest, p.jobs, q, t.jobs[q]);
    if t.jobs[q] == [] {
      assert t.run == rest;
    } else {
      WorkAppend(rest, [q], t.jobs);
      assert Work([q], t.jobs) == Rounds(|t.jobs[q]|);
    }
  }

  /** The queues that get a turn, in order, until the run queue is empty. */
  ghost function Turns(p: Pool): seq<QueueId>
    requires Registered(p)
    decreases Work(p.run, p.jobs)
  {
    if p.run == [] then [] else
      TurnWork(p);
      [p.run[0]] + Turns(Turn(p))
  }

  /** Exactly the sum over the queues of n/64 rounded up. */
  lemma {:induction false} TurnsCount(p: Pool)
    requires Registered(p)
    ensures |Turns(p)| == Work(p.run, p.jobs)
    decreases Work(p.run, p.jobs)
  {
    if p.run != [] {
      TurnWork(p);
      TurnsCount(Turn(p));
    }
  }

  /** The pool after `k` turns. */
  ghost function After(p: Pool, k: nat): (r: Pool)
    requires Registered(p) && k <= |Turns(p)|
    ensures Registered(r) && Turns(r) == Turns(p)[k..]
    decreases k
  {
    if k == 0 then p else
      TurnWork(p);
      After(Turn(p), k - 1)
  }

  /** The next turns go to the registered queues in the order they wait. */
  lemma {:induction false} FirstRound(p: Pool, i: nat)
    requires Registered(p) && i < |p.run|
    ensures i < |Turns(p)| && Turns(p)[i] == p.run[i]
    decreases i
  {
    TurnWork(p);
    if i > 0 { FirstRound(Turn(p), i - 1); }
  }

  /** The first turns are all of the run queue. */
  lemma AllOfTheRound(p: Pool)
    requires Registered(p)
    ensures p.run <= Turns(p)
  {
    var turns := Turns(p);
    forall i | 0 <= i < |p.run| ensures i < |turns| && turns[i] == p.run[i] {
      FirstRound(p, i);
    }
    if p.run != [] { FirstRound(p, |p.run| - 1); }
  }

  lemma TurnsNext(p: Pool)
    requires Registered(p) && p.run != []
    ensures Registered(Turn(p)) && Turns(p) == [p.run[0]] + Turns(Turn(p))
  {
    TurnWork(p);
  }

  lemma AfterFirst(q: QueueId, rest: seq<QueueId>, next: seq<QueueId>)
    requires next <= rest
    ensures ([q] + rest)[1..|next| + 1] == next
  {
  }

  /** A queue that keeps jobs after its turn waits for all the others. */
  lemma NextRound(p: Pool)
    requires Registered(p) && p.run != [] && |p.jobs[p.run[0]]| > 64
    ensures |p.run| < |Turns(p)| && Turns(p)[1..|p.run| + 1] == p.run[1..] + [p.run[0]]
  {
    TurnWork(p);
    AllOfTheRound(Turn(p));
    TurnsNext(p);
    AfterFirst(p.run[0], Turns(Turn(p)), Turn(p).run);
  }

  lemma TurnAt(p: Pool, k: nat)
    requires Registered(p) && k < |Turns(p)|
    ensures After(p, k).run != [] && After(p, k).run[0] == Turns(p)[k]
  {
    var rest := Turns(After(p, k));
    assert rest[0] == Turns(p)[k];
  }

  lemma RoundFrom(turns: seq<QueueId>, k: nat, now: Pool)
    requires k <= |turns| && Registered(now) && Turns(now) == turns[k..]
    requires now.run != [] && |now.jobs[now.run[0]]| > 64
    ensures k + |now.run| < |turns| && turns[k + 1..k + |now.run| + 1] == now.run[1..] + [now.run[0]]
  {
    NextRound(now);
  }

  /** Between two turns of one queue every queue that was waiting gets exactly one turn: if turn
      `k` leaves jobs behind, the following turns are the waiting queues, each once, and then the
      same queue again. */
  lemma RoundRobin(p: Pool, k: nat)
    requires Registered(p) && k < |Turns(p)|
    ensures var now := After(p, k);
            && now.run != [] && Turns(p)[k] == now.run[0] && NoneTwice(now.run)
            && (Waiting(now.jobs, now.run[0]) > 64 ==>
                  && k + |now.run| < |Turns(p)|
                  && Turns(p)[k + 1..k + |now.run| + 1] == now.run[1..] + [now.run[0]])
  {
    TurnAt(p, k);
    if Waiting(After(p, k).jobs, After(p, k).run[0]) > 64 { RoundFrom(Turns(p), k, After(p, k)); }
  }

  /** Registering a queue whose first job came in. */
  lemma PushRegistered(p: Pool, q: QueueId, job: Job)
    requires Registered(p) && q in p.jobs
    ensures Registered(Pool(p.run + (if p.jobs[q] == [] then [q] else []), p.jobs[q := p.jobs[q] + [job]]))
  {
    var run := p.run + (if p.jobs[q] == [] then [q] else []);
    var jobs := p.jobs[q := p.jobs[q] + [job]];
    forall r | r in jobs && jobs[r] != [] ensures r in run {
      if r == q && p.jobs[q] == [] { assert run[|p.run|] == q; } else { assert r in p.run; }
    }
  }

  lemma Served(served: seq<QueueId>, p: Pool)
    requires Registered(p) && p.run != []
    ensures Registered(Turn(p)) && served + Turns(p) == served + [p.run[0]] + Turns(Turn(p))
  {
    TurnWork(p);
  }

  /** The scheduler objects as one thread sees them. */
  class Engine {
    var run: seq<QueueId>
    var jobs: map<QueueId, seq<Job>>
    var count: map<QueueId, int>

    ghost function View(): Pool
      reads this
    {
      Pool(run, jobs)
    }

    ghost predicate Valid()
      reads this
    {
      Registered(View()) && count.Keys == jobs.Keys && forall q | q in jobs :: count[q] == |jobs[q]|
    }

    method Push(q: QueueId, job: Job)
      requires Valid() && q in jobs
      modifies this
      ensures Valid()
      ensures jobs == old(jobs)[q := old(jobs)[q] + [job]]
      ensures run == old(run) + (if old(jobs)[q] == [] then [q] else [])
    {
      PushRegistered(View(), q, job);
      var prev := count[q];
      count := count[q := prev + 1];
      jobs := jobs[q := jobs[q] + [job]];
      if prev == 0 {
        run := run + [q];
      }
    }

    /** The locked section of `Execute`: at most 64 jobs, oldest first. */
    method PopBatch(q: QueueId) returns (batch: seq<Job>)
      requires q in jobs
      modifies this`jobs
      ensures batch == old(jobs)[q][..if |old(jobs)[q]| < 64 then |old(jobs)[q]| else 64]
      ensures jobs == old(jobs)[q := old(jobs)[q][|batch|..]]
    {
      batch := [];
      while jobs[q] != [] && |batch| < MAX_EXECUTE
        invariant q in jobs && jobs.Keys == old(jobs).Keys
        invariant |batch| <= |old(jobs)[q]| && |batch| <= MAX_EXECUTE
        invariant batch == old(jobs)[q][..|batch|]
        invariant jobs == old(jobs)[q := old(jobs)[q][|batch|..]]
        decreases |jobs[q]|
      {
        batch := batch + [jobs[q][0]];
        jobs := jobs[q := jobs[q][1..]];
      }
    }

    /** Pops the front queue and executes one batch of it; `executed` is the order of the jobs. */
    method PopAndExecute() returns (q: QueueId, executed: seq<Job>)
      requires Valid() && run != []
      modifies this
      ensures Valid() && View() == Turn(old(View()))
      ensures q == old(run)[0] && executed + jobs[q] == old(jobs)[q]
    {
      TurnRegistered(View());
      q := run[0];
      run := run[1..];
      executed := PopBatch(q);
      var remain := count[q] - |executed|;
      count := count[q := remain];
      if remain > 0 {
        run := run + [q];
      }
    }

    /** The worker's inner loop. */
    method Drain() returns (calls: nat, served: seq<QueueId>)
      requires Valid()
      modifies this
      ensures Valid() && run == [] && forall q | q in jobs :: jobs[q] == []
      ensures served == Turns(old(View()))
      ensures calls == Work(old(run), old(jobs))
    {
      calls, served := 0, [];
      while run != []
        invariant Valid()
        invariant served + Turns(View()) == Turns(old(View()))
        invariant calls + Work(run, jobs) == Work(old(run), old(jobs))
        decreases Work(run, jobs)
      {
        ghost var now := View();
        TurnWork(now);
        var q, executed := PopAndExecute();
        Served(served, now);
        calls, served := calls + 1, served + [q];
      }
    }
  }
}
