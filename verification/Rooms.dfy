/** Room membership at job granularity: packet handlers push jobs to rooms, each room runs its jobs
    one at a time. */
module Rooms {
  type RoomId = int
  type SessionId = nat

  datatype Job = Enter(who: SessionId) | Leave(who: SessionId) | LeaveAndEnter(who: SessionId, target: RoomId)

  /** `current` is the session's room pointer, absent when null; `gone` are sessions whose
      `OnDisconnected` has run. */
  datatype State = State(members: map<RoomId, set<SessionId>>, current: map<SessionId, RoomId>, jobs: map<RoomId, seq<Job>>, gone: set<SessionId>)

  datatype Step =
    | HandleEnter(who: SessionId, target: RoomId)
    | HandleLeave(who: SessionId)
    | OnDisconnected(who: SessionId)
    | RunJob(room: RoomId)

  function Members(s: State, r: RoomId): set<SessionId> { if r in s.members then s.members[r] else {} }

  function Jobs(s: State, r: RoomId): seq<Job> { if r in s.jobs then s.jobs[r] else [] }

  function PushJob(s: State, r: RoomId, j: Job): State { s.(jobs := s.jobs[r := Jobs(s, r) + [j]]) }

  function DoEnter(s: State, r: RoomId, x: SessionId): State {
    s.(members := s.members[r := Members(s, r) + {x}], current := s.current[x := r])
  }

  /** The pointer is cleared only if it still points to this room. */
  function DoLeave(s: State, r: RoomId, x: SessionId): State {
    s.(members := s.members[r := Members(s, r) - {x}],
       current := if x in s.current && s.current[x] == r then s.current - {x} else s.current)
  }

  function Execute(s: State, r: RoomId, j: Job): State {
    match j
    case Enter(x) => DoEnter(s, r, x)
    case Leave(x) => DoLeave(s, r, x)
    case LeaveAndEnter(x, target) => PushJob(DoLeave(s, r, x), target, Enter(x))
  }

  predicate Enabled(s: State, st: Step) { st.RunJob? ==> Jobs(s, st.room) != [] }

  function Apply(s: State, st: Step): State
    requires Enabled(s, st)
  {
    match st
    case HandleEnter(x, target) =>
      if x in s.current then
        if s.current[x] == target then s else PushJob(s, s.current[x], LeaveAndEnter(x, target))
      else PushJob(s, target, Enter(x))
    case HandleLeave(x) => if x in s.current then PushJob(s, s.current[x], Leave(x)) else s
    case OnDisconnected(x) =>
      var t := s.(gone := s.gone + {x});
      if x in s.current then PushJob(t, s.current[x], Leave(x)).(current := s.current - {x}) else t
    case RunJob(r) =>
      Execute(s.(jobs := s.jobs[r := Jobs(s, r)[1..]]), r, Jobs(s, r)[0])
  }

  const START: State := State(map[], map[], map[], {})

  predicate Runs(s: State, steps: seq<Step>, t: State)
    decreases |steps|
  {
    if steps == [] then s == t else Enabled(s, steps[0]) && Runs(Apply(s, steps[0]), steps[1..], t)
  }

  // ----- The pointer never points to a room the session is not in -----------------------------------

  predicate PointerOk(s: State) { forall x | x in s.current :: x in Members(s, s.current[x]) }

  lemma PointerStep(s: State, st: Step)
    requires PointerOk(s) && Enabled(s, st)
    ensures PointerOk(Apply(s, st))
  {
    var t := Apply(s, st);
    forall x | x in t.current ensures x in Members(t, t.current[x]) {
      if x in s.current { assert x in Members(s, s.current[x]); }
    }
  }

  /** Over all runs a session whose current room is R is a member of R, whatever is pending. */
  lemma {:induction false} CurrentRoomHoldsTheSession(s: State, steps: seq<Step>, t: State)
    requires PointerOk(s) && Runs(s, steps, t)
    ensures PointerOk(t)
    decreases |steps|
  {
    if steps != [] {
      PointerStep(s, steps[0]);
      CurrentRoomHoldsTheSession(Apply(s, steps[0]), steps[1..], t);
    }
  }

  // ----- One room at a time --------------------------------------------------------------------------

  predicate JobOf(s: State, x: SessionId, r: RoomId, i: int) { 0 <= i < |Jobs(s, r)| && Jobs(s, r)[i].who == x }

  /** No two jobs of the session are queued anywhere. */
  ghost predicate AtMostOnePending(s: State, x: SessionId) {
    forall r, i, q, j | JobOf(s, x, r, i) && JobOf(s, x, q, j) :: r == q && i == j
  }

  predicate Queued(s: State, x: SessionId, r: RoomId, j: Job) { j.who == x && j in Jobs(s, r) }

  ghost predicate Idle(s: State, x: SessionId) { forall r, j :: !Queued(s, x, r, j) }

  ghost predicate InOneRoom(s: State, x: SessionId) {
    forall r, q | x in Members(s, r) && x in Members(s, q) :: r == q
  }

  /** What a pending job knows about where the session is: nowhere for an `Enter`, nowhere but in the
      job's room for the others. */
  ghost predicate JobFits(s: State, x: SessionId, r: RoomId, j: Job) {
    forall q | x in Members(s, q) :: !j.Enter? && q == r
  }

  ghost predicate Tracked(s: State, x: SessionId) {
    && InOneRoom(s, x)
    && (forall r, j | Queued(s, x, r, j) :: JobFits(s, x, r, j))
    && (Idle(s, x) ==> forall r | x in Members(s, r) :: x in s.current && s.current[x] == r)
  }

  /** The session a step is about. */
  function Subject(s: State, st: Step): SessionId
    requires Enabled(s, st)
  {
    if st.RunJob? then Jobs(s, st.room)[0].who else st.who
  }

  lemma QueuedFront(s: State, r: RoomId)
    requires Jobs(s, r) != []
    ensures forall j :: j in Jobs(s, r) <==> j == Jobs(s, r)[0] || j in Jobs(s, r)[1..]
  {
    assert Jobs(s, r) == [Jobs(s, r)[0]] + Jobs(s, r)[1..];
  }

  lemma OtherMembers(s: State, st: Step, x: SessionId)
    requires Enabled(s, st) && Subject(s, st) != x
    ensures forall r :: x in Members(Apply(s, st), r) <==> x in Members(s, r)
    ensures x in Apply(s, st).current <==> x in s.current
    ensures x in s.current ==> Apply(s, st).current[x] == s.current[x]
  {
  }

  lemma OtherJobs(s: State, st: Step, x: SessionId)
    requires Enabled(s, st) && Subject(s, st) != x
    ensures forall r, j :: Queued(Apply(s, st), x, r, j) <==> Queued(s, x, r, j)
  {
    if st.RunJob? { QueuedFront(s, st.room); }
  }

  /** A step about another session leaves the places and the jobs of this one alone. */
  lemma SameTracked(s: State, t: State, x: SessionId)
    requires Tracked(s, x)
    requires forall r :: x in Members(t, r) <==> x in Members(s, r)
    requires forall r, j :: Queued(t, x, r, j) <==> Queued(s, x, r, j)
    requires (x in t.current <==> x in s.current) && (x in s.current ==> t.current[x] == s.current[x])
    ensures Tracked(t, x)
  {
    forall r, j | Queued(t, x, r, j) ensures JobFits(t, x, r, j) {
      assert JobFits(s, x, r, j);
    }
    if Idle(t, x) {
      assert Idle(s, x) by {
        forall r, j ensures !Queued(s, x, r, j) { assert !Queued(t, x, r, j); }
      }
    }
  }

  /** If a push leaves only one job pending, none was pending before. */
  lemma PushedAlone(s: State, t: State, x: SessionId, r: RoomId, j: Job)
    requires j.who == x && t.jobs == PushJob(s, r, j).jobs && AtMostOnePending(t, x)
    ensures Idle(s, x) && forall q, k | Queued(t, x, q, k) :: q == r && k == j
  {
    var n := |Jobs(s, r)|;
    assert JobOf(t, x, r, n) && Jobs(t, r)[n] == j;
    forall q, k ensures !Queued(s, x, q, k) {
      if Queued(s, x, q, k) {
        var i :| 0 <= i < |Jobs(s, q)| && Jobs(s, q)[i] == k;
        assert JobOf(t, x, q, i);
      }
    }
    forall q, k | Queued(t, x, q, k) ensures q == r && k == j {
      assert !Queued(s, x, q, k);
    }
  }

  /** Running the one pending job leaves none behind, except the one it pushes. */
  lemma RunAlone(s: State, r: RoomId, x: SessionId)
    requires Jobs(s, r) != [] && Jobs(s, r)[0].who == x && AtMostOnePending(s, x)
    ensures Idle(s.(jobs := s.jobs[r := Jobs(s, r)[1..]]), x)
  {
    var u := s.(jobs := s.jobs[r := Jobs(s, r)[1..]]);
    assert JobOf(s, x, r, 0);
    forall q, k ensures !Queued(u, x, q, k) {
      if Queued(u, x, q, k) {
        var i :| 0 <= i < |Jobs(u, q)| && Jobs(u, q)[i] == k;
        assert JobOf(s, x, q, if q == r then i + 1 else i);
      }
    }
  }

  lemma HandlerStep(s: State, st: Step, x: SessionId)
    requires Tracked(s, x) && Enabled(s, st) && !st.RunJob? && st.who == x && AtMostOnePending(Apply(s, st), x)
    ensures Tracked(Apply(s, st), x)
  {
    var t := Apply(s, st);
    assert forall r :: Members(t, r) == Members(s, r);
    if t.jobs == s.jobs {
      assert forall r, j :: Queued(t, x, r, j) <==> Queued(s, x, r, j);
      forall r, j | Queued(t, x, r, j) ensures JobFits(t, x, r, j) { assert JobFits(s, x, r, j); }
    } else {
      var r := if x in s.current then s.current[x] else st.target;
      var j := Jobs(t, r)[|Jobs(s, r)|];
      PushedAlone(s, t, x, r, j);
      assert JobFits(t, x, r, j);
      assert Queued(t, x, r, j);
    }
  }

  lemma RunStep(s: State, r: RoomId, x: SessionId)
    requires Tracked(s, x) && Jobs(s, r) != [] && Jobs(s, r)[0].who == x && AtMostOnePending(s, x)
    ensures Tracked(Apply(s, RunJob(r)), x)
  {
    var u := s.(jobs := s.jobs[r := Jobs(s, r)[1..]]);
    var j := Jobs(s, r)[0];
    var t := Execute(u, r, j);
    RunAlone(s, r, x);
    assert Queued(s, x, r, j) && JobFits(s, x, r, j);
    assert forall q :: Members(u, q) == Members(s, q);
    if j.LeaveAndEnter? {
      forall q, k | Queued(t, x, q, k) ensures q == j.target && k == Enter(x) {
        assert !Queued(u, x, q, k);
      }
      assert Queued(t, x, j.target, Enter(x));
      forall q ensures x !in Members(t, q) { assert x in Members(s, q) ==> q == r; }
    } else {
      assert forall q, k :: Queued(t, x, q, k) ==> Queued(u, x, q, k);
      forall q | x in Members(t, q) ensures q == r && j.Enter? { assert x in Members(s, q) ==> !j.Enter? && q == r; }
    }
  }

  /** Every state of the run has at most one job of the session pending; a disconnect's `Leave`
      counts. */
  ghost predicate OneRequestAtATime(s: State, steps: seq<Step>, x: SessionId)
    decreases |steps|
  {
    && AtMostOnePending(s, x)
    && (steps == [] || (Enabled(s, steps[0]) && OneRequestAtATime(Apply(s, steps[0]), steps[1..], x)))
  }

  lemma {:induction false} TrackedRun(s: State, steps: seq<Step>, t: State, x: SessionId)
    requires Tracked(s, x) && Runs(s, steps, t) && OneRequestAtATime(s, steps, x)
    ensures Tracked(t, x)
    decreases |steps|
  {
    if steps != [] {
      var st := steps[0];
      if Subject(s, st) != x {
        OtherMembers(s, st, x);
        OtherJobs(s, st, x);
        SameTracked(s, Apply(s, st), x);
      } else if st.RunJob? {
        RunStep(s, st.room, x);
      } else {
        assert AtMostOnePending(Apply(s, st), x);
        HandlerStep(s, st, x);
      }
      TrackedRun(Apply(s, st), steps[1..], t, x);
    }
  }

  /** A session that never has two room jobs pending is in at most one room at every step, also
      between the two halves of `LeaveAndEnter`, whatever all other sessions do; and once nothing is
      pending its room pointer names that room. */
  lemma AtMostOneRoom(steps: seq<Step>, t: State, x: SessionId)
    requires Runs(START, steps, t) && OneRequestAtATime(START, steps, x)
    ensures InOneRoom(t, x)
    ensures Idle(t, x) ==> forall r | x in Members(t, r) :: x in t.current && t.current[x] == r
  {
    TrackedRun(START, steps, t, x);
  }

  // ----- What the pending jobs decide -----------------------------------------------------------------

  /** Whether the session is inside once the jobs of the room's queue have run, if it is now. */
  function EndsIn(jobs: seq<Job>, x: SessionId, inside: bool): bool {
    if jobs == [] then inside
    else EndsIn(jobs[1..], x, if jobs[0].who == x then jobs[0].Enter? else inside)
  }

  /** A `LeaveAndEnter` leads the session to `r`. */
  ghost predicate MovesTo(s: State, x: SessionId, r: RoomId) { exists q :: Queued(s, x, q, LeaveAndEnter(x, r)) }

  /** Where the session ends, room by room: a `LeaveAndEnter` arrives behind everything queued there now. */
  ghost predicate FinalIn(s: State, x: SessionId, r: RoomId) {
    MovesTo(s, x, r) || EndsIn(Jobs(s, r), x, x in Members(s, r))
  }

  predicate IsHandlerOf(st: Step, x: SessionId) { !st.RunJob? && st.who == x }

  predicate NoHandlerOf(steps: seq<Step>, x: SessionId) { forall i | 0 <= i < |steps| :: !IsHandlerOf(steps[i], x) }

  lemma {:induction false} EndsInAppend(jobs: seq<Job>, j: Job, x: SessionId, inside: bool)
    ensures EndsIn(jobs + [j], x, inside) == if j.who == x then j.Enter? else EndsIn(jobs, x, inside)
  {
    if jobs == [] {
      assert [j][1..] == [];
    } else {
      assert (jobs + [j])[1..] == jobs[1..] + [j];
      EndsInAppend(jobs[1..], j, x, if jobs[0].who == x then jobs[0].Enter? else inside);
    }
  }

  lemma {:induction false} EndsInNone(jobs: seq<Job>, x: SessionId, inside: bool)
    requires forall i | 0 <= i < |jobs| :: jobs[i].who != x
    ensures EndsIn(jobs, x, inside) == inside
  {
    if jobs != [] { EndsInNone(jobs[1..], x, inside); }
  }

  /** A push changes the end only in its room. */
  lemma PushEnds(s: State, r: RoomId, j: Job, q: RoomId, x: SessionId, inside: bool)
    ensures EndsIn(Jobs(PushJob(s, r, j), q), x, inside)
              == if q == r && j.who == x then j.Enter? else EndsIn(Jobs(s, q), x, inside)
  {
    EndsInAppend(Jobs(s, r), j, x, inside);
  }

  /** Running the front job of `r`: which jobs of the session are left. */
  lemma RunLeaves(s: State, r: RoomId, x: SessionId)
    requires Jobs(s, r) != [] && Jobs(s, r)[0].who == x
    ensures var j, t := Jobs(s, r)[0], Apply(s, RunJob(r));
            && (forall q, k :: Queued(t, x, q, k) ==> Queued(s, x, q, k) || (j.LeaveAndEnter? && q == j.target && k == Enter(x)))
            && (forall q, k :: Queued(s, x, q, k) && (q != r || k != j) ==> Queued(t, x, q, k))
            && (j.LeaveAndEnter? ==> Queued(t, x, j.target, Enter(x)))
  {
    QueuedFront(s, r);
  }

  lemma RunMembers(s: State, r: RoomId, x: SessionId)
    requires Jobs(s, r) != [] && Jobs(s, r)[0].who == x
    ensures forall q | q != r :: x in Members(Apply(s, RunJob(r)), q) <==> x in Members(s, q)
    ensures x in Members(Apply(s, RunJob(r)), r) <==> Jobs(s, r)[0].Enter?
    ensures var j, t := Jobs(s, r)[0], Apply(s, RunJob(r));
            if j.Enter? then x in t.current && t.current[x] == r
            else if x in s.current && s.current[x] != r then x in t.current && t.current[x] == s.current[x]
            else x !in t.current
  {
  }

  /** Taking the front job off a queue. */
  lemma PopEnds(s: State, r: RoomId, x: SessionId, inside: bool)
    requires Jobs(s, r) != []
    ensures var j, u := Jobs(s, r)[0], s.(jobs := s.jobs[r := Jobs(s, r)[1..]]);
            && EndsIn(Jobs(s, r), x, inside) == EndsIn(Jobs(u, r), x, if j.who == x then j.Enter? else inside)
            && (forall q | q != r :: Jobs(u, q) == Jobs(s, q))
  {
  }

  lemma OtherEnds(s: State, st: Step, x: SessionId, r: RoomId, inside: bool)
    requires Enabled(s, st) && Subject(s, st) != x
    ensures EndsIn(Jobs(Apply(s, st), r), x, inside) == EndsIn(Jobs(s, r), x, inside)
  {
    match st
    case HandleEnter(y, target) =>
      if y in s.current {
        PushEnds(s, s.current[y], LeaveAndEnter(y, target), r, x, inside);
      } else {
        PushEnds(s, target, Enter(y), r, x, inside);
      }
    case HandleLeave(y) =>
      if y in s.current { PushEnds(s, s.current[y], Leave(y), r, x, inside); }
    case OnDisconnected(y) =>
      if y in s.current { PushEnds(s, s.current[y], Leave(y), r, x, inside); }
    case RunJob(q) =>
      var u := s.(jobs := s.jobs[q := Jobs(s, q)[1..]]);
      PopEnds(s, q, x, inside);
      if Jobs(s, q)[0].LeaveAndEnter? {
        PushEnds(u, Jobs(s, q)[0].target, Enter(Jobs(s, q)[0].who), r, x, inside);
      }
  }

  lemma OtherFinal(s: State, st: Step, x: SessionId, r: RoomId)
    requires Enabled(s, st) && Subject(s, st) != x
    ensures FinalIn(Apply(s, st), x, r) <==> FinalIn(s, x, r)
  {
    OtherMembers(s, st, x);
    OtherJobs(s, st, x);
    OtherEnds(s, st, x, r, x in Members(s, r));
    var t := Apply(s, st);
    forall q ensures Queued(t, x, q, LeaveAndEnter(x, r)) <==> Queued(s, x, q, LeaveAndEnter(x, r)) { }
  }

  /** The fold over the queue of `r` after the front job of `q` ran. */
  lemma RunEnds(s: State, q: RoomId, x: SessionId, r: RoomId)
    requires Jobs(s, q) != [] && Jobs(s, q)[0].who == x
    ensures var j, t := Jobs(s, q)[0], Apply(s, RunJob(q));
            EndsIn(Jobs(t, r), x, x in Members(t, r))
              == ((j.LeaveAndEnter? && r == j.target) || EndsIn(Jobs(s, r), x, x in Members(s, r)))
  {
    var j, u := Jobs(s, q)[0], s.(jobs := s.jobs[q := Jobs(s, q)[1..]]);
    var t := Apply(s, RunJob(q));
    RunMembers(s, q, x);
    PopEnds(s, q, x, x in Members(s, q));
    if j.LeaveAndEnter? { PushEnds(u, j.target, Enter(x), r, x, x in Members(t, r)); }
  }

  lemma RunMovesTo(s: State, q: RoomId, x: SessionId, r: RoomId)
    requires Jobs(s, q) != [] && Jobs(s, q)[0].who == x
    ensures MovesTo(Apply(s, RunJob(q)), x, r) ==> MovesTo(s, x, r)
    ensures MovesTo(s, x, r) ==> MovesTo(Apply(s, RunJob(q)), x, r) || Jobs(s, q)[0] == LeaveAndEnter(x, r)
    ensures Jobs(s, q)[0] == LeaveAndEnter(x, r) ==> MovesTo(s, x, r)
  {
    RunLeaves(s, q, x);
    var t := Apply(s, RunJob(q));
    if p :| Queued(t, x, p, LeaveAndEnter(x, r)) { assert Queued(s, x, p, LeaveAndEnter(x, r)); }
    if p :| Queued(s, x, p, LeaveAndEnter(x, r)) {
      if Jobs(s, q)[0] != LeaveAndEnter(x, r) { assert Queued(t, x, p, LeaveAndEnter(x, r)); }
    }
    if Jobs(s, q)[0] == LeaveAndEnter(x, r) { assert Queued(s, x, q, LeaveAndEnter(x, r)); }
  }

  lemma RunFinal(s: State, q: RoomId, x: SessionId, r: RoomId)
    requires Jobs(s, q) != [] && Jobs(s, q)[0].who == x
    ensures FinalIn(Apply(s, RunJob(q)), x, r) <==> FinalIn(s, x, r)
  {
    RunEnds(s, q, x, r);
    RunMovesTo(s, q, x, r);
  }

  lemma {:induction false} FinalRun(s: State, steps: seq<Step>, t: State, x: SessionId, r: RoomId)
    requires Runs(s, steps, t) && NoHandlerOf(steps, x)
    ensures FinalIn(t, x, r) <==> FinalIn(s, x, r)
    decreases |steps|
  {
    if steps != [] {
      var st := steps[0];
      if Subject(s, st) == x { RunFinal(s, st.room, x, r); } else { OtherFinal(s, st, x, r); }
      FinalRun(Apply(s, st), steps[1..], t, x, r);
    }
  }

  lemma IdleFinal(t: State, x: SessionId, r: RoomId)
    requires Idle(t, x)
    ensures FinalIn(t, x, r) <==> x in Members(t, r)
  {
    forall i | 0 <= i < |Jobs(t, r)| ensures Jobs(t, r)[i].who != x { assert !Queued(t, x, r, Jobs(t, r)[i]); }
    EndsInNone(Jobs(t, r), x, x in Members(t, r));
    forall q ensures !Queued(t, x, q, LeaveAndEnter(x, r)) { }
  }

  /** From any state, whatever is pending and in whatever order the rooms run their jobs: a session that
      makes no further request ends in exactly the rooms that a `LeaveAndEnter` leads it to or whose
      queue, read from where it is now, leaves it inside. */
  lemma PendingJobsDecide(s: State, steps: seq<Step>, t: State, x: SessionId)
    requires Runs(s, steps, t) && NoHandlerOf(steps, x) && Idle(t, x)
    ensures forall r :: x in Members(t, r) <==> FinalIn(s, x, r)
  {
    forall r ensures x in Members(t, r) <==> FinalIn(s, x, r) {
      FinalRun(s, steps, t, x, r);
      IdleFinal(t, x, r);
    }
  }

  /** After a leave request or a disconnect, for any history: the same, except for the room the session's
      pointer named.  A disconnect also clears the pointer at once. */
  lemma DepartureDecides(s: State, st: Step, steps: seq<Step>, t: State, x: SessionId)
    requires st == HandleLeave(x) || st == OnDisconnected(x)
    requires Runs(Apply(s, st), steps, t) && NoHandlerOf(steps, x) && Idle(t, x)
    ensures forall r :: x in Members(t, r) <==> DepartsIn(s, x, r)
    ensures st.OnDisconnected? ==> x !in Apply(s, st).current
  {
    PendingJobsDecide(Apply(s, st), steps, t, x);
    forall r ensures FinalIn(Apply(s, st), x, r) <==> DepartsIn(s, x, r) { DepartureFinal(s, st, x, r); }
  }

  /** Its pending jobs leave the session in `r`, and it does not point to `r`. */
  ghost predicate DepartsIn(s: State, x: SessionId, r: RoomId) {
    MovesTo(s, x, r) || (EndsIn(Jobs(s, r), x, x in Members(s, r)) && !(x in s.current && s.current[x] == r))
  }

  lemma DepartureFinal(s: State, st: Step, x: SessionId, r: RoomId)
    requires st == HandleLeave(x) || st == OnDisconnected(x)
    ensures FinalIn(Apply(s, st), x, r) <==> DepartsIn(s, x, r)
  {
    var t := Apply(s, st);
    assert Members(t, r) == Members(s, r);
    if x in s.current {
      PushEnds(s, s.current[x], Leave(x), r, x, x in Members(s, r));
      assert Jobs(t, r) == Jobs(PushJob(s, s.current[x], Leave(x)), r);
    }
    forall q ensures Queued(t, x, q, LeaveAndEnter(x, r)) <==> Queued(s, x, q, LeaveAndEnter(x, r)) { }
  }

  /** No `LeaveAndEnter` leads back to its own room. */
  ghost predicate MovesAway(s: State) {
    forall r, j | j in Jobs(s, r) :: j.LeaveAndEnter? ==> j.target != r
  }

  lemma {:induction false} MovesAwayRun(s: State, steps: seq<Step>, t: State)
    requires MovesAway(s) && Runs(s, steps, t)
    ensures MovesAway(t)
    decreases |steps|
  {
    if steps != [] {
      MovesAwayStep(s, steps[0]);
      MovesAwayRun(Apply(s, steps[0]), steps[1..], t);
    }
  }

  lemma MovesAwayStep(s: State, st: Step)
    requires MovesAway(s) && Enabled(s, st)
    ensures MovesAway(Apply(s, st))
  {
    var t := Apply(s, st);
    forall r, j | j in Jobs(t, r) && j.LeaveAndEnter? ensures j.target != r {
      if j !in Jobs(s, r) {
        assert st.HandleEnter? && s.current[st.who] == r;
      }
    }
  }

  lemma Reached(steps: seq<Step>, s: State, x: SessionId)
    requires Runs(START, steps, s) && OneRequestAtATime(START, steps, x)
    ensures Tracked(s, x)
    ensures PointerOk(s) && MovesAway(s)
    ensures AtMostOnePending(s, x)
  {
    TrackedRun(START, steps, s, x);
    CurrentRoomHoldsTheSession(START, steps, s);
    MovesAwayRun(START, steps, s);
    StillOne(START, steps, s, x);
  }

  lemma {:induction false} StillOne(s: State, steps: seq<Step>, t: State, x: SessionId)
    requires Runs(s, steps, t) && OneRequestAtATime(s, steps, x)
    ensures AtMostOnePending(t, x)
    decreases |steps|
  {
    if steps != [] { StillOne(Apply(s, steps[0]), steps[1..], t, x); }
  }

  /** The job leads to `b` and nowhere else. */
  predicate HeadsFor(r: RoomId, j: Job, b: RoomId) {
    match j
    case Enter(_) => r == b
    case Leave(_) => r != b
    case LeaveAndEnter(_, target) => r != b && target == b
  }

  /** All jobs of the session lead to `b`, and its pointer names `b` once it is there. */
  ghost predicate HeadedFor(s: State, x: SessionId, b: RoomId) {
    && (forall r, j | Queued(s, x, r, j) :: HeadsFor(r, j, b))
    && (x in Members(s, b) ==> x in s.current && s.current[x] == b)
  }

  lemma HeadedStep(s: State, st: Step, x: SessionId, b: RoomId)
    requires HeadedFor(s, x, b) && Enabled(s, st) && !IsHandlerOf(st, x)
    ensures HeadedFor(Apply(s, st), x, b)
  {
    if Subject(s, st) == x {
      RunLeaves(s, st.room, x);
      RunMembers(s, st.room, x);
      assert Queued(s, x, st.room, Jobs(s, st.room)[0]);
    } else {
      OtherMembers(s, st, x);
      OtherJobs(s, st, x);
    }
  }

  lemma {:induction false} HeadedRun(s: State, steps: seq<Step>, t: State, x: SessionId, b: RoomId)
    requires HeadedFor(s, x, b) && Runs(s, steps, t) && NoHandlerOf(steps, x)
    ensures HeadedFor(t, x, b)
    decreases |steps|
  {
    if steps != [] {
      HeadedStep(s, steps[0], x, b);
      HeadedRun(Apply(s, steps[0]), steps[1..], t, x, b);
    }
  }

  /** An enter request of a session that makes one request at a time and has nothing pending moves it:
      when its jobs have run it is in the target room and in no other, and its room pointer says so,
      whatever others have queued and whatever they do. */
  lemma EnterMovesTheSession(before: seq<Step>, s: State, x: SessionId, b: RoomId, after: seq<Step>, t: State)
    requires Runs(START, before, s) && OneRequestAtATime(START, before, x) && Idle(s, x)
    requires Runs(Apply(s, HandleEnter(x, b)), after, t) && NoHandlerOf(after, x) && Idle(t, x)
    ensures forall r :: x in Members(t, r) <==> r == b
    ensures x in t.current && t.current[x] == b
  {
    Reached(before, s, x);
    RequestHeads(s, x, b);
    HeadedRun(Apply(s, HandleEnter(x, b)), after, t, x, b);
    PendingJobsDecide(Apply(s, HandleEnter(x, b)), after, t, x);
    forall r ensures FinalIn(Apply(s, HandleEnter(x, b)), x, r) <==> r == b { RequestFinal(s, x, b, r); }
  }

  /** A leave request of such a session takes it out: when its job has run it is in no room and points to
      none. */
  lemma LeaveRemovesTheSession(before: seq<Step>, s: State, x: SessionId, after: seq<Step>, t: State)
    requires Runs(START, before, s) && OneRequestAtATime(START, before, x) && Idle(s, x)
    requires Runs(Apply(s, HandleLeave(x)), after, t) && NoHandlerOf(after, x) && Idle(t, x)
    ensures x !in t.current && forall r :: x !in Members(t, r)
  {
    Reached(before, s, x);
    DepartureDecides(s, HandleLeave(x), after, t, x);
    forall r ensures !DepartsIn(s, x, r) {
      IdleFinal(s, x, r);
      assert !MovesTo(s, x, r);
    }
    PointerStep(s, HandleLeave(x));
    CurrentRoomHoldsTheSession(Apply(s, HandleLeave(x)), after, t);
  }

  lemma RequestHeads(s: State, x: SessionId, b: RoomId)
    requires Tracked(s, x) && Idle(s, x)
    ensures HeadedFor(Apply(s, HandleEnter(x, b)), x, b)
  {
    var t := Apply(s, HandleEnter(x, b));
    assert forall r :: Members(t, r) == Members(s, r);
    forall r, j | Queued(t, x, r, j) ensures HeadsFor(r, j, b) { assert !Queued(s, x, r, j); }
  }

  lemma RequestFinal(s: State, x: SessionId, b: RoomId, r: RoomId)
    requires Tracked(s, x) && PointerOk(s) && Idle(s, x)
    ensures FinalIn(Apply(s, HandleEnter(x, b)), x, r) <==> r == b
  {
    var t := Apply(s, HandleEnter(x, b));
    IdleFinal(s, x, r);
    if x !in s.current {
      PushEnds(s, b, Enter(x), r, x, x in Members(s, r));
      forall q ensures !Queued(t, x, q, LeaveAndEnter(x, r)) { assert !Queued(s, x, q, LeaveAndEnter(x, r)); }
    } else if s.current[x] != b {
      var a, j := s.current[x], LeaveAndEnter(x, b);
      PushEnds(s, a, j, r, x, x in Members(s, r));
      assert Jobs(t, a) == Jobs(s, a) + [j];
      assert Queued(t, x, a, j);
      forall q ensures Queued(t, x, q, LeaveAndEnter(x, r)) ==> r == b { assert !Queued(s, x, q, LeaveAndEnter(x, r)); }
    }
  }

  // ----- Where it breaks -----------------------------------------------------------------------------

  /** An `Enter` job of the session runs while it is a member of another room. */
  ghost predicate LateEnter(s: State, st: Step, x: SessionId) {
    Enabled(s, st) && st.RunJob? && Jobs(s, st.room)[0] == Enter(x) && exists q :: q != st.room && x in Members(s, q)
  }

  /** One step takes a session out of the one-room state exactly when it is a late enter. */
  lemma BreaksExactlyOnLateEnter(s: State, st: Step, x: SessionId)
    requires Enabled(s, st) && InOneRoom(s, x)
    ensures InOneRoom(Apply(s, st), x) <==> !LateEnter(s, st, x)
  {
    var t := Apply(s, st);
    if st.RunJob? && Jobs(s, st.room)[0] == Enter(x) {
      assert x in Members(t, st.room);
      forall q | q != st.room ensures x in Members(t, q) <==> x in Members(s, q) { }
    } else {
      forall q | x in Members(t, q) ensures x in Members(s, q) { }
    }
  }

  ghost predicate AlwaysInOneRoom(s: State, steps: seq<Step>, x: SessionId)
    decreases |steps|
  {
    && InOneRoom(s, x)
    && (steps == [] || (Enabled(s, steps[0]) && AlwaysInOneRoom(Apply(s, steps[0]), steps[1..], x)))
  }

  ghost predicate NeverEntersLate(s: State, steps: seq<Step>, x: SessionId)
    decreases |steps|
  {
    steps == [] ||
    (Enabled(s, steps[0]) && !LateEnter(s, steps[0], x) && NeverEntersLate(Apply(s, steps[0]), steps[1..], x))
  }

  /** In every state of a run, from any state in which the session is in at most one room, it is in at most
      one room if and only if none of its `Enter` jobs ran while it was a member of another room. */
  lemma {:induction false} OneRoomExactlyWithoutLateEnter(s: State, steps: seq<Step>, t: State, x: SessionId)
    requires InOneRoom(s, x) && Runs(s, steps, t)
    ensures AlwaysInOneRoom(s, steps, x) <==> NeverEntersLate(s, steps, x)
    decreases |steps|
  {
    if steps != [] {
      BreaksExactlyOnLateEnter(s, steps[0], x);
      if InOneRoom(Apply(s, steps[0]), x) { OneRoomExactlyWithoutLateEnter(Apply(s, steps[0]), steps[1..], t, x); }
    }
  }

  /** Two enter requests handled before the first `Enter` job runs both find no current room: the
      session ends up in both rooms, for any two rooms. */
  lemma TwoEntersTwoRooms(x: SessionId, a: RoomId, b: RoomId) returns (steps: seq<Step>, t: State)
    requires a != b
    ensures Runs(START, steps, t) && x in Members(t, a) && x in Members(t, b)
  {
    var s1 := Apply(START, HandleEnter(x, a));
    var s2 := Apply(s1, HandleEnter(x, b));
    var s3 := Apply(s2, RunJob(a));
    t := Apply(s3, RunJob(b));
    steps := [HandleEnter(x, a), HandleEnter(x, b), RunJob(a), RunJob(b)];
    assert steps[1..] == [HandleEnter(x, b), RunJob(a), RunJob(b)];
    assert steps[1..][1..] == [RunJob(a), RunJob(b)];
    assert steps[1..][1..][1..] == [RunJob(b)];
    assert Runs(s3, [RunJob(b)], t);
    assert Runs(s2, [RunJob(a), RunJob(b)], t);
  }

  /** A pending job of the session leads into a room. */
  ghost predicate Arriving(s: State, x: SessionId) { exists r, j :: Queued(s, x, r, j) && !j.Leave? }

  /** Only one job is pending, so the two are the same. */
  lemma TheJob(s: State, x: SessionId, r: RoomId, j: Job, q: RoomId, k: Job)
    requires AtMostOnePending(s, x) && Queued(s, x, r, j) && Queued(s, x, q, k)
    ensures r == q && j == k
  {
    var m :| 0 <= m < |Jobs(s, r)| && Jobs(s, r)[m] == j;
    var n :| 0 <= n < |Jobs(s, q)| && Jobs(s, q)[n] == k;
    assert JobOf(s, x, r, m) && JobOf(s, x, q, n);
  }

  /** If all jobs of the session in the queue are of one kind, the last word is theirs. */
  lemma {:induction false} EndsInAlike(jobs: seq<Job>, x: SessionId, inside: bool, enter: bool)
    requires forall i | 0 <= i < |jobs| && jobs[i].who == x :: jobs[i].Enter? == enter
    ensures EndsIn(jobs, x, inside) == inside || EndsIn(jobs, x, inside) == enter
    ensures (exists i :: 0 <= i < |jobs| && jobs[i].who == x) ==> EndsIn(jobs, x, inside) == enter
  {
    if jobs != [] {
      EndsInAlike(jobs[1..], x, if jobs[0].who == x then jobs[0].Enter? else inside, enter);
      if i :| 0 <= i < |jobs| && jobs[i].who == x {
        if i > 0 { assert jobs[1..][i - 1].who == x; }
      }
    }
  }

  lemma QueueAlike(s: State, r: RoomId, x: SessionId, enter: bool)
    requires forall j | Queued(s, x, r, j) :: j.Enter? == enter
    ensures var ends := EndsIn(Jobs(s, r), x, x in Members(s, r)); ends == (x in Members(s, r)) || ends == enter
    ensures (exists j :: Queued(s, x, r, j)) ==> EndsIn(Jobs(s, r), x, x in Members(s, r)) == enter
  {
    forall i | 0 <= i < |Jobs(s, r)| && Jobs(s, r)[i].who == x ensures Jobs(s, r)[i].Enter? == enter {
      assert Queued(s, x, r, Jobs(s, r)[i]);
    }
    EndsInAlike(Jobs(s, r), x, x in Members(s, r), enter);
    if j :| Queued(s, x, r, j) {
      var i :| 0 <= i < |Jobs(s, r)| && Jobs(s, r)[i] == j;
    }
  }

  /** With one request at a time and no arrival pending, nothing is left behind. */
  lemma DepartsFrom(s: State, x: SessionId, r: RoomId)
    requires Tracked(s, x) && !Arriving(s, x)
    ensures !DepartsIn(s, x, r)
  {
    assert forall j | Queued(s, x, r, j) :: !j.Enter?;
    QueueAlike(s, r, x, false);
    assert !MovesTo(s, x, r);
    if x in Members(s, r) && (forall j :: !Queued(s, x, r, j)) {
      assert forall q, j :: Queued(s, x, q, j) ==> JobFits(s, x, q, j) && q == r;
      assert Idle(s, x);
    }
  }

  lemma ArrivesAt(s: State, x: SessionId, r: RoomId, j: Job)
    requires Tracked(s, x) && PointerOk(s) && AtMostOnePending(s, x) && Queued(s, x, r, j) && !j.Leave?
    ensures exists b :: DepartsIn(s, x, b)
  {
    assert JobFits(s, x, r, j);
    if j.LeaveAndEnter? {
      assert Queued(s, x, r, LeaveAndEnter(x, j.target));
      assert MovesTo(s, x, j.target);
      assert DepartsIn(s, x, j.target);
    } else {
      forall k | Queued(s, x, r, k) ensures k.Enter? { TheJob(s, x, r, j, r, k); }
      QueueAlike(s, r, x, true);
      assert DepartsIn(s, x, r);
    }
  }

  /** For a session that makes one request at a time: it stays behind as a member after it disconnects,
      once all its jobs have run, if and only if an `Enter` or `LeaveAndEnter` of it was pending then. */
  lemma StaysExactlyWhenArriving(before: seq<Step>, s: State, x: SessionId, after: seq<Step>, t: State)
    requires Runs(START, before, s) && OneRequestAtATime(START, before, x)
    requires Runs(Apply(s, OnDisconnected(x)), after, t) && NoHandlerOf(after, x) && Idle(t, x)
    ensures (exists r :: x in Members(t, r)) <==> Arriving(s, x)
  {
    Reached(before, s, x);
    DepartureDecides(s, OnDisconnected(x), after, t, x);
    if Arriving(s, x) {
      var r, j :| Queued(s, x, r, j) && !j.Leave?;
      ArrivesAt(s, x, r, j);
    } else {
      forall r ensures !DepartsIn(s, x, r) { DepartsFrom(s, x, r); }
    }
  }

  /** A session that disconnects while its `Enter` is pending has no current room to leave: it stays a
      member, with no job left to remove it. */
  lemma DisconnectedMemberStays(x: SessionId, a: RoomId) returns (steps: seq<Step>, t: State)
    ensures Runs(START, steps, t) && x in t.gone && x in Members(t, a) && Idle(t, x)
    ensures OneRequestAtATime(START, steps, x)
  {
    var s1 := Apply(START, HandleEnter(x, a));
    var s2 := Apply(s1, OnDisconnected(x));
    t := Apply(s2, RunJob(a));
    steps := [HandleEnter(x, a), OnDisconnected(x), RunJob(a)];
    assert steps[1..] == [OnDisconnected(x), RunJob(a)];
    assert steps[1..][1..] == [RunJob(a)];
    assert Runs(s2, [RunJob(a)], t);
    assert AtMostOnePending(t, x) && AtMostOnePending(s2, x) && AtMostOnePending(s1, x) && AtMostOnePending(START, x);
    assert OneRequestAtATime(t, [], x);
    assert OneRequestAtATime(s2, [RunJob(a)], x);
  }

  // ----- Which request breaks it ---------------------------------------------------------------------

  function Weight(jobs: seq<Job>): nat {
    if jobs == [] then 0 else (if jobs[0].LeaveAndEnter? then 2 else 1) + Weight(jobs[1..])
  }

  lemma SomeRoom(rooms: set<RoomId>)
    ensures rooms == {} || exists r :: r in rooms
  {
    if forall r :: r !in rooms { assert rooms == {}; }
  }

  /** The jobs of all rooms, counting the one that a `LeaveAndEnter` still pushes. */
  ghost function Load(s: State, rooms: set<RoomId>): nat {
    if rooms == {} then 0 else
      SomeRoom(rooms);
      var r :| r in rooms;
      Weight(Jobs(s, r)) + Load(s, rooms - {r})
  }

  lemma {:induction false} LoadSplit(s: State, rooms: set<RoomId>, r: RoomId)
    requires r in rooms
    ensures Load(s, rooms) == Weight(Jobs(s, r)) + Load(s, rooms - {r})
    decreases |rooms|
  {
    var q :| q in rooms && Load(s, rooms) == Weight(Jobs(s, q)) + Load(s, rooms - {q});
    if q != r {
      LoadSplit(s, rooms - {q}, r);
      LoadSplit(s, rooms - {r}, q);
      assert rooms - {q} - {r} == rooms - {r} - {q};
    }
  }

  lemma {:induction false} LoadFrame(s: State, t: State, rooms: set<RoomId>)
    requires forall r | r in rooms :: Jobs(t, r) == Jobs(s, r)
    ensures Load(t, rooms) == Load(s, rooms)
    decreases |rooms|
  {
    if r :| r in rooms {
      LoadSplit(s, rooms, r);
      LoadSplit(t, rooms, r);
      LoadFrame(s, t, rooms - {r});
    }
  }

  /** Only the queue of `r` differs. */
  lemma LoadOne(s: State, t: State, rooms: set<RoomId>, r: RoomId)
    requires r in rooms && forall q | q != r :: Jobs(t, q) == Jobs(s, q)
    ensures Load(t, rooms) - Load(s, rooms) == Weight(Jobs(t, r)) - Weight(Jobs(s, r))
  {
    LoadSplit(s, rooms, r);
    LoadSplit(t, rooms, r);
    LoadFrame(s, t, rooms - {r});
  }

  lemma {:induction false} WeightAppend(jobs: seq<Job>, j: Job)
    ensures Weight(jobs + [j]) == Weight(jobs) + (if j.LeaveAndEnter? then 2 else 1)
  {
    if jobs == [] {
      assert [j][1..] == [];
    } else {
      assert (jobs + [j])[1..] == jobs[1..] + [j];
      WeightAppend(jobs[1..], j);
    }
  }

  lemma RunLoad(s: State, r: RoomId, rooms: set<RoomId>)
    requires Jobs(s, r) != [] && r in rooms && (Jobs(s, r)[0].LeaveAndEnter? ==> Jobs(s, r)[0].target in rooms)
    ensures Load(Apply(s, RunJob(r)), rooms) == Load(s, rooms) - 1
  {
    var j, u, t := Jobs(s, r)[0], s.(jobs := s.jobs[r := Jobs(s, r)[1..]]), Apply(s, RunJob(r));
    LoadOne(s, u, rooms, r);
    if j.LeaveAndEnter? {
      WeightAppend(Jobs(u, j.target), Enter(j.who));
      LoadOne(u, t, rooms, j.target);
    } else {
      LoadFrame(u, t, rooms);
    }
  }

  /** The rooms can always run until nothing is pending. */
  lemma {:induction false} Drain(s: State, rooms: set<RoomId>, x: SessionId) returns (steps: seq<Step>, t: State)
    requires s.jobs.Keys <= rooms
    ensures Runs(s, steps, t) && NoHandlerOf(steps, x) && Idle(t, x)
    decreases Load(s, rooms)
  {
    if r :| r in rooms && Jobs(s, r) != [] {
      var j, next := Jobs(s, r)[0], Apply(s, RunJob(r));
      var more := if j.LeaveAndEnter? then rooms + {j.target} else rooms;
      if j.LeaveAndEnter? && j.target !in rooms {
        LoadSplit(s, more, j.target);
        assert more - {j.target} == rooms;
      } else {
        assert more == rooms;
      }
      RunLoad(s, r, more);
      var rest;
      rest, t := Drain(next, more, x);
      steps := [RunJob(r)] + rest;
    } else {
      steps, t := [], s;
    }
  }

  /** Without a further request, the rooms can still bring the session into two rooms at once. */
  ghost predicate CanBeInTwo(s: State, x: SessionId) {
    exists steps, t :: Runs(s, steps, t) && NoHandlerOf(steps, x) && !InOneRoom(t, x)
  }

  lemma TwoEnds(s: State, x: SessionId, b: RoomId, c: RoomId)
    requires FinalIn(s, x, b) && FinalIn(s, x, c) && b != c
    ensures CanBeInTwo(s, x)
  {
    var steps, t := Drain(s, s.jobs.Keys, x);
    PendingJobsDecide(s, steps, t, x);
    assert x in Members(t, b) && x in Members(t, c);
  }

  /** Room `b` alone runs until it lets the session in, which is still in room `a`. */
  lemma {:induction false} RunUntilEnter(s: State, b: RoomId, i: nat, x: SessionId, a: RoomId)
    requires i < |Jobs(s, b)| && Jobs(s, b)[i] == Enter(x) && forall k | 0 <= k < i :: Jobs(s, b)[k].who != x
    requires a != b && x in Members(s, a)
    ensures CanBeInTwo(s, x)
    decreases i
  {
    var next := Apply(s, RunJob(b));
    if i == 0 {
      assert x in Members(next, a) && x in Members(next, b);
      assert Runs(next, [], next);
      assert Runs(s, [RunJob(b)], next);
    } else {
      OtherMembers(s, RunJob(b), x);
      assert Jobs(s, b)[1..] <= Jobs(next, b);
      RunUntilEnter(next, b, i - 1, x, a);
      var steps, t :| Runs(next, steps, t) && NoHandlerOf(steps, x) && !InOneRoom(t, x);
      assert ([RunJob(b)] + steps)[1..] == steps;
      assert Runs(s, [RunJob(b)] + steps, t);
    }
  }

  /** What the handler of an enter request for `b` can see: `b` is not the current room, and either the
      session is on its way to another room, or it is still in another room without pointing to it. */
  ghost predicate Clashes(s: State, x: SessionId, b: RoomId) {
    && !(x in s.current && s.current[x] == b)
    && ((exists r, j, c :: Queued(s, x, r, j) && Brings(r, j, c) && c != b)
        || (x !in s.current && exists a :: a != b && x in Members(s, a)))
  }

  predicate Brings(r: RoomId, j: Job, b: RoomId) { (j.Enter? && r == b) || (j.LeaveAndEnter? && j.target == b) }

  lemma ArrivalClashes(s: State, x: SessionId, b: RoomId, r: RoomId, j: Job, c: RoomId)
    requires Tracked(s, x) && PointerOk(s) && AtMostOnePending(s, x) && !(x in s.current && s.current[x] == b)
    requires Queued(s, x, r, j) && Brings(r, j, c) && c != b
    ensures CanBeInTwo(Apply(s, HandleEnter(x, b)), x)
  {
    var t := Apply(s, HandleEnter(x, b));
    assert JobFits(s, x, r, j);
    RequestedFinal(s, x, b);
    assert Queued(t, x, r, j);
    if j.LeaveAndEnter? {
      assert Queued(t, x, r, LeaveAndEnter(x, c));
      assert MovesTo(t, x, c);
    } else {
      assert x !in s.current && Jobs(t, c) == Jobs(s, c) && Members(t, c) == Members(s, c);
      forall k | Queued(s, x, r, k) ensures k.Enter? { TheJob(s, x, r, j, r, k); }
      QueueAlike(s, r, x, true);
    }
    TwoEnds(t, x, b, c);
  }

  /** The request itself ends in `b`. */
  lemma RequestedFinal(s: State, x: SessionId, b: RoomId)
    requires !(x in s.current && s.current[x] == b)
    ensures FinalIn(Apply(s, HandleEnter(x, b)), x, b)
  {
    var t := Apply(s, HandleEnter(x, b));
    if x in s.current {
      assert Jobs(t, s.current[x]) == Jobs(s, s.current[x]) + [LeaveAndEnter(x, b)];
      assert Queued(t, x, s.current[x], LeaveAndEnter(x, b));
    } else {
      PushEnds(s, b, Enter(x), b, x, x in Members(s, b));
    }
  }

  lemma StrayClashes(s: State, x: SessionId, b: RoomId, a: RoomId)
    requires Tracked(s, x) && x !in s.current && a != b && x in Members(s, a)
    ensures CanBeInTwo(Apply(s, HandleEnter(x, b)), x)
  {
    var t := Apply(s, HandleEnter(x, b));
    var n := |Jobs(s, b)|;
    assert Jobs(t, b) == Jobs(s, b) + [Enter(x)];
    assert forall q, j :: Queued(s, x, q, j) ==> JobFits(s, x, q, j) && q == a;
    forall k | 0 <= k < n ensures Jobs(t, b)[k].who != x {
      assert !Queued(s, x, b, Jobs(s, b)[k]);
    }
    RunUntilEnter(t, b, n, x, a);
  }

  /** The session is in `a` or on its way to `b`, never both. */
  ghost predicate Moving(s: State, x: SessionId, a: RoomId, b: RoomId) {
    && a != b
    && (forall r | x in Members(s, r) :: r == a || r == b)
    && (forall r, j | Queued(s, x, r, j) :: MoveFits(r, j, a, b))
    && (x in Members(s, a) ==> x !in Members(s, b) && !Queued(s, x, b, Enter(x)))
  }

  predicate MoveFits(r: RoomId, j: Job, a: RoomId, b: RoomId) {
    (r == b && !j.LeaveAndEnter?) || (r == a && (j.Leave? || (j.LeaveAndEnter? && j.target == b)))
  }

  lemma MovingStep(s: State, st: Step, x: SessionId, a: RoomId, b: RoomId)
    requires Moving(s, x, a, b) && Enabled(s, st) && !IsHandlerOf(st, x)
    ensures Moving(Apply(s, st), x, a, b)
  {
    if Subject(s, st) == x {
      RunLeaves(s, st.room, x);
      RunMembers(s, st.room, x);
      assert Queued(s, x, st.room, Jobs(s, st.room)[0]);
    } else {
      OtherMembers(s, st, x);
      OtherJobs(s, st, x);
    }
  }

  lemma {:induction false} MovingRun(s: State, steps: seq<Step>, t: State, x: SessionId, a: RoomId, b: RoomId)
    requires Moving(s, x, a, b) && Runs(s, steps, t) && NoHandlerOf(steps, x)
    ensures InOneRoom(t, x)
    decreases |steps|
  {
    if steps != [] {
      MovingStep(s, steps[0], x, a, b);
      MovingRun(Apply(s, steps[0]), steps[1..], t, x, a, b);
    }
  }

  /** The job that a request for `b` pushes, and the room it goes to. */
  predicate IsRequest(s: State, x: SessionId, b: RoomId, r: RoomId, j: Job) {
    if x in s.current then s.current[x] != b && r == s.current[x] && j == LeaveAndEnter(x, b) else r == b && j == Enter(x)
  }

  /** The jobs after a request: those before it and the one it pushed. */
  lemma RequestJobs(s: State, x: SessionId, b: RoomId)
    ensures var t := Apply(s, HandleEnter(x, b));
            && (forall r :: Members(t, r) == Members(s, r))
            && (forall r, j | Queued(t, x, r, j) :: Queued(s, x, r, j) || IsRequest(s, x, b, r, j))
  {
  }

  /** A request for the room the session points to changes nothing. */
  lemma SafeAtHome(s: State, x: SessionId) returns (a: RoomId, b: RoomId)
    requires Tracked(s, x) && PointerOk(s) && MovesAway(s) && AtMostOnePending(s, x) && x in s.current
    ensures Moving(s, x, a, b)
  {
    var here := s.current[x];
    assert x in Members(s, here);
    if r, j :| Queued(s, x, r, j) && j.LeaveAndEnter? {
      assert JobFits(s, x, r, j);
      forall q, k | Queued(s, x, q, k) ensures q == r && k == j { TheJob(s, x, r, j, q, k); }
      a, b := here, j.target;
    } else {
      forall q, k | Queued(s, x, q, k) ensures q == here && k.Leave? { assert JobFits(s, x, q, k); }
      a, b := here + 1, here;
    }
  }

  lemma SafeFromHome(s: State, x: SessionId, b: RoomId)
    requires Tracked(s, x) && PointerOk(s) && x in s.current && s.current[x] != b && !Clashes(s, x, b)
    ensures Moving(Apply(s, HandleEnter(x, b)), x, s.current[x], b)
  {
    var a := s.current[x];
    assert x in Members(s, a);
    RequestJobs(s, x, b);
    forall q, k | Queued(s, x, q, k) ensures MoveFits(q, k, a, b) && q == a {
      assert JobFits(s, x, q, k);
      if k.LeaveAndEnter? { assert Brings(q, k, k.target); }
    }
  }

  lemma SafeFromNowhere(s: State, x: SessionId, b: RoomId) returns (a: RoomId)
    requires Tracked(s, x) && MovesAway(s) && AtMostOnePending(s, x) && x !in s.current && !Clashes(s, x, b)
    ensures Moving(Apply(s, HandleEnter(x, b)), x, a, b)
  {
    RequestJobs(s, x, b);
    a := b + 1;
    if r, j :| Queued(s, x, r, j) {
      if r != b { a := r; }
      if j.LeaveAndEnter? { assert Brings(r, j, j.target); }
      if j.Enter? { assert Brings(r, j, r); }
      forall q, k | Queued(s, x, q, k) ensures MoveFits(q, k, a, b) { TheJob(s, x, r, j, q, k); }
    }
  }

  /** For a session that made one request at a time so far: an enter request can bring it into two rooms
      at once, by some order of the rooms' jobs, if and only if it clashes. */
  lemma RequestBreaksExactlyWhenItClashes(before: seq<Step>, s: State, x: SessionId, b: RoomId)
    requires Runs(START, before, s) && OneRequestAtATime(START, before, x)
    ensures CanBeInTwo(Apply(s, HandleEnter(x, b)), x) <==> Clashes(s, x, b)
    ensures x in s.current && s.current[x] == b ==> Apply(s, HandleEnter(x, b)) == s
  {
    Reached(before, s, x);
    if Clashes(s, x, b) {
      if r, j, c :| Queued(s, x, r, j) && Brings(r, j, c) && c != b {
        ArrivalClashes(s, x, b, r, j, c);
      } else {
        var a :| a != b && x in Members(s, a);
        StrayClashes(s, x, b, a);
      }
    } else {
      RequestIsSafe(s, x, b);
    }
  }

  lemma RequestIsSafe(s: State, x: SessionId, b: RoomId)
    requires Tracked(s, x) && PointerOk(s) && MovesAway(s) && AtMostOnePending(s, x) && !Clashes(s, x, b)
    ensures !CanBeInTwo(Apply(s, HandleEnter(x, b)), x)
  {
    var t := Apply(s, HandleEnter(x, b));
    var from, to;
    if x !in s.current {
      to := b;
      from := SafeFromNowhere(s, x, b);
    } else if s.current[x] != b {
      SafeFromHome(s, x, b);
      from, to := s.current[x], b;
    } else {
      from, to := SafeAtHome(s, x);
    }
    forall steps, u | Runs(t, steps, u) && NoHandlerOf(steps, x) ensures InOneRoom(u, x) {
      MovingRun(t, steps, u, x, from, to);
    }
  }

  // ----- The object ----------------------------------------------------------------------------------

  /** The rooms, the sessions' room pointers and the rooms' job queues. */
  class ChatServer {
    var members: map<RoomId, set<SessionId>>
    var current: map<SessionId, RoomId>
    var jobs: map<RoomId, seq<Job>>
    var gone: set<SessionId>

    ghost function View(): State
      reads this
    {
      State(members, current, jobs, gone)
    }

    function JobsOf(r: RoomId): seq<Job>
      reads this
    {
      if r in jobs then jobs[r] else []
    }

    method Push(r: RoomId, j: Job)
      modifies this`jobs
      ensures View() == PushJob(old(View()), r, j)
    {
      jobs := jobs[r := JobsOf(r) + [j]];
    }

    method EnterRoom(r: RoomId, x: SessionId)
      modifies this`members, this`current
      ensures View() == DoEnter(old(View()), r, x)
    {
      var before := if r in members then members[r] else {};
      members := members[r := before + {x}];
      current := current[x := r];
    }

    method LeaveRoom(r: RoomId, x: SessionId)
      modifies this`members, this`current
      ensures View() == DoLeave(old(View()), r, x)
    {
      var before := if r in members then members[r] else {};
      members := members[r := before - {x}];
      if x in current && current[x] == r {
        current := current - {x};
      }
    }

    method Handle(st: Step)
      requires Enabled(View(), st)
      modifies this
      ensures View() == Apply(old(View()), st)
    {
      match st
      case HandleEnter(x, target) =>
        if x in current {
          if current[x] != target { Push(current[x], LeaveAndEnter(x, target)); }
        } else {
          Push(target, Enter(x));
        }
      case HandleLeave(x) =>
        if x in current { Push(current[x], Leave(x)); }
      case OnDisconnected(x) =>
        gone := gone + {x};
        if x in current {
          Push(current[x], Leave(x));
          current := current - {x};
        }
      case RunJob(r) =>
        var j := JobsOf(r)[0];
        jobs := jobs[r := JobsOf(r)[1..]];
        match j {
          case Enter(x) => EnterRoom(r, x);
          case Leave(x) => LeaveRoom(r, x);
          case LeaveAndEnter(x, target) =>
            LeaveRoom(r, x);
            Push(target, Enter(x));
        }
    }
  }
}
