/** `Session::Send`, `RegisterSend` and `ProcessSend` as a state machine over their atomic steps:
    many enqueuers, one elected sender, gather I/O and partial completions. */
module Sending {
  import opened Bytes
  import opened Common

  const MAX_SEND_QUEUE: nat := 500
  const MAX_GATHER: nat := 64

  type Buffer = seq<byte>

  /** Where a call of `Send`, `RegisterSend` or `ProcessSend` stands. */
  datatype Phase =
    | Checked(bufs: seq<Buffer>, single: bool)  // `Send` saw the connection, before the lock
    | Overflowing                               // the queue was full, before `Disconnect`
    | Registering                               // elected or re-elected, before `RegisterSend` looks
    | Gathering                                 // `RegisterSend` saw the connection
    | Releasing                                 // nothing gathered, before `_isSending` is cleared
    | Submitting                                // buffers gathered, before `WSASend`
    | Failing                                   // fatal `WSASend` error, disconnected
    | Completing(n: nat)                        // `ProcessSend` for n bytes, before its locked section
    | ZeroClosing                               // `ProcessSend` for 0 bytes, before `Disconnect`

  /** The buffers: `_sendEvent.sendBuffers`, `_sendQueue` and `_sendOffset`; `wire` and `accepted`
      record the bytes sent and the bytes taken over by `Send`. */
  datatype Ledger = Ledger(inflight: seq<Buffer>, queue: seq<Buffer>, offset: nat, wire: seq<byte>, accepted: seq<byte>)

  /** `outstanding` counts the sends the kernel holds and `parked` those that met a recoverable
      error. */
  datatype State = State(connected: bool, isSending: bool, calls: map<CallId, Phase>, outstanding: nat, parked: nat,
                         data: Ledger)

  datatype Outcome = Pending | Recoverable | Fatal

  datatype Step =
    | Send(c: CallId, bufs: seq<Buffer>, single: bool)
    | Lock(c: CallId)
    | Overflow(c: CallId)
    | Enter(c: CallId)
    | Gather(c: CallId)
    | Release(c: CallId)
    | Submit(c: CallId, outcome: Outcome)
    | Fail(c: CallId)
    | Complete(c: CallId, n: nat)
    | CompleteZero(c: CallId, leaked: nat)
    | CloseZero(c: CallId)
    | Reinsert(c: CallId)
    | Disconnect(c: CallId)

  predicate NonEmpty(bufs: seq<Buffer>) {
    forall i | 0 <= i < |bufs| :: bufs[i] != []
  }

  /** The two overloads of `Send` test the limit differently. */
  predicate Overflows(queue: seq<Buffer>, bufs: seq<Buffer>, single: bool) {
    if single then |queue| >= MAX_SEND_QUEUE else |queue| + |bufs| >= MAX_SEND_QUEUE
  }

  /** The bytes of the submitted buffers that the kernel was given. */
  function Submitted(d: Ledger): seq<byte> {
    if d.offset <= |Concat(d.inflight)| then Concat(d.inflight)[d.offset..] else []
  }

  /** The buffers left after `n` more bytes, and the offset into the first of them. */
  function Consume(bufs: seq<Buffer>, offset: nat, n: nat): (r: (seq<Buffer>, nat))
    decreases |bufs|
  {
    if bufs == [] then ([], 0) else
      var pending := |bufs[0]| - offset;
      if n >= pending then Consume(bufs[1..], 0, n - pending) else (bufs, offset + n)
  }

  predicate At(s: State, c: CallId) { c in s.calls }

  predicate Enabled(s: State, st: Step) {
    match st
    case Send(c, bufs, single) =>
      c !in s.calls && s.connected && bufs != [] && NonEmpty(bufs) && (single ==> |bufs| == 1)
    case Lock(c) => At(s, c) && s.calls[c].Checked?
    case Overflow(c) => At(s, c) && s.calls[c].Overflowing?
    case Enter(c) => At(s, c) && s.calls[c].Registering?
    case Gather(c) => At(s, c) && s.calls[c].Gathering?
    case Release(c) => At(s, c) && s.calls[c].Releasing?
    case Submit(c, _) => At(s, c) && s.calls[c].Submitting?
    case Fail(c) => At(s, c) && s.calls[c].Failing?
    case Complete(c, n) => c !in s.calls && s.outstanding > 0 && 0 < n <= |Submitted(s.data)|
    case CompleteZero(c, leaked) => c !in s.calls && s.outstanding > 0 && leaked <= |Submitted(s.data)|
    case CloseZero(c) => At(s, c) && s.calls[c].ZeroClosing?
    case Reinsert(c) => At(s, c) && s.calls[c].Completing?
    case Disconnect(c) => c !in s.calls
  }

  function Goto(s: State, c: CallId, p: Phase): State { s.(calls := s.calls[c := p]) }

  function End(s: State, c: CallId): State { s.(calls := s.calls - {c}) }

  function Accept(d: Ledger, bufs: seq<Buffer>): Ledger {
    d.(queue := d.queue + bufs, accepted := d.accepted + Concat(bufs))
  }

  function MoveToFlight(d: Ledger): Ledger {
    var n := Min(|d.queue|, MAX_GATHER);
    d.(queue := d.queue[n..], inflight := d.inflight + d.queue[..n])
  }

  function PutBack(d: Ledger, n: nat): Ledger {
    var (rest, offset) := Consume(d.inflight, d.offset, n);
    d.(inflight := [], queue := rest + d.queue, offset := offset)
  }

  function Emit(d: Ledger, n: nat): Ledger
    requires n <= |Submitted(d)|
  {
    d.(wire := d.wire + Submitted(d)[..n])
  }

  function ApplyLock(s: State, c: CallId, bufs: seq<Buffer>, single: bool): State {
    if Overflows(s.data.queue, bufs, single) then Goto(s, c, Overflowing)
    else
      var t := s.(data := Accept(s.data, bufs), isSending := true);
      if s.isSending then End(t, c) else Goto(t, c, Registering)
  }

  function ApplyReinsert(s: State, c: CallId, n: nat): State {
    var t := s.(data := PutBack(s.data, n));
    if t.data.queue == [] then End(t.(isSending := false), c) else Goto(t, c, Registering)
  }

  function Apply(s: State, st: Step): State
    requires Enabled(s, st)
  {
    match st
    case Send(c, bufs, single) => Goto(s, c, Checked(bufs, single))
    case Lock(c) => ApplyLock(s, c, s.calls[c].bufs, s.calls[c].single)
    case Overflow(c) => End(s.(connected := false), c)
    case Enter(c) => if s.connected then Goto(s, c, Gathering) else End(s, c)
    case Gather(c) =>
      if s.data.queue == [] then Goto(s, c, Releasing) else Goto(s.(data := MoveToFlight(s.data)), c, Submitting)
    case Release(c) => End(s.(isSending := false), c)
    case Submit(c, outcome) =>
      (match outcome
       case Pending => End(s.(outstanding := s.outstanding + 1), c)
       case Recoverable => End(s.(parked := s.parked + 1), c)
       case Fatal => Goto(s.(connected := false), c, Failing))
    case Fail(c) => End(s.(data := s.data.(inflight := []), isSending := false), c)
    case Complete(c, n) =>
      Goto(s.(outstanding := s.outstanding - 1, data := Emit(s.data, n)), c, Completing(n))
    case CompleteZero(c, leaked) =>
      Goto(s.(outstanding := s.outstanding - 1, data := Emit(s.data, leaked).(inflight := [])), c, ZeroClosing)
    case CloseZero(c) => End(s.(connected := false), c)
    case Reinsert(c) => ApplyReinsert(s, c, s.calls[c].n)
    case Disconnect(_) => s.(connected := false)
  }

  const START: State := State(true, false, map[], 0, 0, Ledger([], [], 0, [], []))

  predicate Runs(s: State, steps: seq<Step>, t: State)
    decreases |steps|
  {
    if steps == [] then s == t else Enabled(s, steps[0]) && Runs(Apply(s, steps[0]), steps[1..], t)
  }

  // ----- The sender token ----------------------------------------------------------------------------

  /** Only the elected sender is in one of these phases. */
  predicate IsSender(p: Phase) { !p.Checked? && !p.Overflowing? }

  function Senders(s: State): set<CallId> { set c | c in s.calls && IsSender(s.calls[c]) }

  /** Senders, sends in the kernel and parked sends. */
  function TokenCount(s: State): nat { |Senders(s)| + s.outstanding + s.parked }

  predicate TokenOk(s: State) {
    && TokenCount(s) <= 1
    && (TokenCount(s) == 1 ==> s.isSending)
    && (s.connected && s.isSending ==> TokenCount(s) == 1)
  }

  predicate SenderAt(s: State, c: CallId) { c in s.calls && IsSender(s.calls[c]) }

  lemma SendersMoved(s: State, t: State, c: CallId)
    requires OnlyCall(s.calls, t.calls, c)
    ensures |Senders(t)| == |Senders(s)| - One(SenderAt(s, c)) + One(SenderAt(t, c))
  {
    assert Senders(t) - {c} == Senders(s) - {c};
    Without(Senders(s), c);
    Without(Senders(t), c);
  }

  lemma StepMovesOneCall(s: State, st: Step)
    requires Enabled(s, st)
    ensures OnlyCall(s.calls, Apply(s, st).calls, st.c)
    ensures st.Send? ==> InPhase(Apply(s, st), st.c, Checked(st.bufs, st.single))
    ensures st.Disconnect? ==> !Apply(s, st).connected
    ensures st.Fail? ==> !Apply(s, st).isSending
  {
  }

  lemma TokenStep(s: State, st: Step)
    requires TokenOk(s) && Enabled(s, st)
    requires st.Fail? ==> !s.connected
    ensures TokenOk(Apply(s, st))
  {
    StepMovesOneCall(s, st);
    SendersMoved(s, Apply(s, st), st.c);
  }

  // ----- The ledger of bytes -------------------------------------------------------------------------

  /** The bytes accepted and not yet reported sent, if `k` more have just gone out. */
  function Unsent(d: Ledger, k: nat): seq<byte> {
    var all := Concat(d.inflight + d.queue);
    if d.offset + k <= |all| then all[d.offset + k..] else []
  }

  predicate Inside(offset: nat, bufs: seq<Buffer>) { if bufs == [] then offset == 0 else offset < |bufs[0]| }

  /** The wire followed by the unsent bytes is everything accepted, and the offset lies inside the
      first unsent buffer. */
  predicate Balanced(d: Ledger, k: nat) {
    var bufs := d.inflight + d.queue;
    && d.offset + k <= |Concat(bufs)|
    && d.wire + Unsent(d, k) == d.accepted
    && Inside(d.offset, bufs)
  }

  predicate CallOk(connected: bool, d: Ledger, p: Phase) {
    match p
    case Checked(bufs, single) => bufs != [] && NonEmpty(bufs) && (single ==> |bufs| == 1)
    case Overflowing => true
    case Registering => d.inflight == [] && d.queue != [] && (connected ==> Balanced(d, 0))
    case Gathering => d.inflight == [] && d.queue != [] && Balanced(d, 0)
    case Releasing => false
    case Submitting => d.inflight != [] && Balanced(d, 0)
    case Failing => !connected
    case Completing(n) => n > 0 && d.inflight != [] && d.offset + n <= |Concat(d.inflight)| && Balanced(d, n)
    case ZeroClosing => d.inflight == []
  }

  predicate Sizes(d: Ledger) {
    && NonEmpty(d.queue) && NonEmpty(d.inflight)
    && |d.inflight| <= MAX_GATHER && |d.queue| + |d.inflight| <= MAX_SEND_QUEUE + MAX_GATHER
  }

  ghost predicate CallsOk(s: State) {
    forall c | c in s.calls :: CallOk(s.connected, s.data, s.calls[c])
  }

  predicate RestOk(s: State) {
    && s.data.wire <= s.data.accepted
    && (s.outstanding + s.parked > 0 ==> s.data.inflight != [] && Balanced(s.data, 0))
    && (!s.isSending ==> s.data.inflight == [])
    && (s.connected && !s.isSending ==> s.data.queue == [] && Balanced(s.data, 0))
  }

  ghost predicate BytesOk(s: State) {
    && Sizes(s.data)
    && CallsOk(s)
    && RestOk(s)
  }

  ghost predicate Inv(s: State) {
    && TokenOk(s)
    && Sizes(s.data)
    && CallsOk(s)
    && RestOk(s)
  }

  lemma NonEmptyConcat(bufs: seq<Buffer>)
    requires bufs != [] && NonEmpty(bufs)
    ensures |Concat(bufs)| >= |bufs[0]| > 0
  {
  }

  /** The buffers kept are the last ones, in order. */
  lemma {:induction false} ConsumeIsSuffix(bufs: seq<Buffer>, offset: nat, n: nat)
    ensures var rest := Consume(bufs, offset, n).0; |rest| <= |bufs| && rest == bufs[|bufs| - |rest|..]
    decreases |bufs|
  {
    if bufs != [] {
      var pending := |bufs[0]| - offset;
      if n >= pending {
        ConsumeIsSuffix(bufs[1..], 0, n - pending);
        var rest := Consume(bufs[1..], 0, n - pending).0;
        assert bufs[1..][|bufs| - 1 - |rest|..] == bufs[|bufs| - |rest|..];
      }
    }
  }

  /** Nothing is lost or repeated by a partial completion: the buffers kept, from the new offset on,
      are exactly the bytes after the `n` that went out. */
  lemma {:induction false} ConsumeKeepsTheRest(bufs: seq<Buffer>, offset: nat, n: nat)
    requires NonEmpty(bufs) && (bufs != [] ==> offset <= |bufs[0]|) && offset + n <= |Concat(bufs)|
    ensures var r := Consume(bufs, offset, n);
            && r.1 <= |Concat(r.0)| && Concat(r.0)[r.1..] == Concat(bufs)[offset + n..]
            && Inside(r.1, r.0)
    decreases |bufs|
  {
    if bufs != [] {
      var pending := |bufs[0]| - offset;
      if n >= pending {
        ConsumeKeepsTheRest(bufs[1..], 0, n - pending);
        assert Concat(bufs)[offset + n..] == Concat(bufs[1..])[n - pending..];
      } else {
        NonEmptyConcat(bufs);
      }
    }
  }

  // ----- What each step does to the ledger -------------------------------------------------------------

  lemma SuffixConcat(a: seq<Buffer>, b: seq<Buffer>, k: nat)
    requires k <= |Concat(a)|
    ensures |Concat(a + b)| == |Concat(a)| + |Concat(b)| && Concat(a + b)[k..] == Concat(a)[k..] + Concat(b)
  {
    ConcatAppend(a, b);
  }

  lemma UnsentAfterAccept(d: Ledger, bufs: seq<Buffer>, k: nat)
    requires d.offset + k <= |Concat(d.inflight + d.queue)|
    ensures var e := Accept(d, bufs);
            e.offset + k <= |Concat(e.inflight + e.queue)| && Unsent(e, k) == Unsent(d, k) + Concat(bufs)
  {
    assert d.inflight + (d.queue + bufs) == (d.inflight + d.queue) + bufs;
    SuffixConcat(d.inflight + d.queue, bufs, d.offset + k);
  }

  lemma InsideMore(offset: nat, bufs: seq<Buffer>, more: seq<Buffer>)
    requires Inside(offset, bufs) && NonEmpty(more)
    ensures Inside(offset, bufs + more)
  {
    if bufs == [] { assert bufs + more == more; } else { assert (bufs + more)[0] == bufs[0]; }
  }

  /** Accepting more buffers keeps the ledger balanced. */
  lemma AcceptBalanced(d: Ledger, bufs: seq<Buffer>, k: nat)
    requires Balanced(d, k) && bufs != [] && NonEmpty(bufs)
    ensures Balanced(Accept(d, bufs), k)
  {
    UnsentAfterAccept(d, bufs, k);
    Regroup(d.wire, Unsent(d, k), Concat(bufs));
  }

  lemma UnsentAfterPutBack(d: Ledger, n: nat, rest: seq<Buffer>, o: nat)
    requires d.offset + n <= |Concat(d.inflight)| && o <= |Concat(rest)|
    requires Concat(rest)[o..] == Concat(d.inflight)[d.offset + n..]
    ensures o <= |Concat(rest + d.queue)| && Concat(rest + d.queue)[o..] == Unsent(d, n)
  {
    SuffixConcat(d.inflight, d.queue, d.offset + n);
    SuffixConcat(rest, d.queue, o);
  }

  /** Nothing is in flight. */
  lemma QueueBalanced(d: Ledger)
    requires d.inflight == [] && d.offset <= |Concat(d.queue)| && Inside(d.offset, d.queue)
    requires d.wire + Concat(d.queue)[d.offset..] == d.accepted
    ensures Balanced(d, 0)
  {
    assert d.inflight + d.queue == d.queue;
  }

  lemma RestBalanced(d: Ledger, n: nat, rest: seq<Buffer>, o: nat)
    requires Balanced(d, n) && d.offset + n <= |Concat(d.inflight)|
    requires o <= |Concat(rest)| && Concat(rest)[o..] == Concat(d.inflight)[d.offset + n..]
    requires NonEmpty(d.queue) && Inside(o, rest)
    ensures Balanced(d.(inflight := [], queue := rest + d.queue, offset := o), 0)
  {
    UnsentAfterPutBack(d, n, rest, o);
    InsideMore(o, rest, d.queue);
    QueueBalanced(d.(inflight := [], queue := rest + d.queue, offset := o));
  }

  lemma Remainder(d: Ledger, n: nat) returns (rest: seq<Buffer>, o: nat)
    requires NonEmpty(d.inflight) && (d.inflight != [] ==> d.offset <= |d.inflight[0]|)
    requires d.offset + n <= |Concat(d.inflight)|
    ensures PutBack(d, n) == d.(inflight := [], queue := rest + d.queue, offset := o)
    ensures o <= |Concat(rest)| && Concat(rest)[o..] == Concat(d.inflight)[d.offset + n..]
    ensures Inside(o, rest)
  {
    ConsumeKeepsTheRest(d.inflight, d.offset, n);
    var r := Consume(d.inflight, d.offset, n);
    rest, o := r.0, r.1;
  }

  lemma PutBackBalanced(d: Ledger, n: nat)
    requires Balanced(d, n) && NonEmpty(d.inflight) && NonEmpty(d.queue) && d.inflight != []
    requires d.offset + n <= |Concat(d.inflight)|
    ensures Balanced(PutBack(d, n), 0)
  {
    FirstOf(d.inflight, d.queue);
    var rest, o := Remainder(d, n);
    RestBalanced(d, n, rest, o);
  }

  lemma PutBackSizes(d: Ledger, n: nat)
    requires NonEmpty(d.inflight) && NonEmpty(d.queue)
    ensures NonEmpty(PutBack(d, n).queue) && |PutBack(d, n).queue| <= |d.inflight| + |d.queue|
  {
    ConsumeIsSuffix(d.inflight, d.offset, n);
  }

  lemma FirstOf(a: seq<Buffer>, b: seq<Buffer>)
    requires a != []
    ensures a + b != [] && (a + b)[0] == a[0]
  {
  }

  /** The bytes submitted are the first of the unsent ones. */
  lemma SubmittedFirst(d: Ledger, n: nat)
    requires d.offset <= |Concat(d.inflight)| && n <= |Submitted(d)|
    ensures d.offset + n <= |Concat(d.inflight)| <= |Concat(d.inflight + d.queue)|
    ensures Unsent(d, 0) == Submitted(d)[..n] + Unsent(d, n)
  {
    ConcatAppend(d.inflight, d.queue);
  }

  lemma EmitBalanced(d: Ledger, n: nat)
    requires Balanced(d, 0) && NonEmpty(d.inflight) && d.inflight != [] && n <= |Submitted(d)|
    ensures Balanced(Emit(d, n), n) && d.offset + n <= |Concat(d.inflight)| && Emit(d, n).wire <= d.accepted
  {
    NonEmptyConcat(d.inflight);
    FirstOf(d.inflight, d.queue);
    SubmittedFirst(d, n);
    Regroup(d.wire, Submitted(d)[..n], Unsent(d, n));
    assert Unsent(Emit(d, n), n) == Unsent(d, n);
  }

  // ----- Preservation --------------------------------------------------------------------------------

  /** While `c` is the sender, every other call is an enqueuer. */
  lemma SenderAlone(s: State, c: CallId)
    requires TokenOk(s) && SenderAt(s, c)
    ensures s.isSending && s.outstanding == 0 && s.parked == 0
    ensures forall d | d in s.calls && d != c :: !IsSender(s.calls[d])
  {
    Without(Senders(s), c);
    assert c in Senders(s) && |Senders(s) - {c}| == 0;
    forall d | d in s.calls && d != c ensures !IsSender(s.calls[d]) {
      assert d !in Senders(s) - {c};
    }
  }

  lemma NoSender(s: State)
    requires TokenOk(s) && (!s.isSending || s.outstanding + s.parked > 0)
    ensures forall d | d in s.calls :: !IsSender(s.calls[d])
  {
    forall d | d in s.calls ensures !IsSender(s.calls[d]) {
      if SenderAt(s, d) { SenderAlone(s, d); }
    }
  }

  /** A step of the sender, or one after which there is no sender but the call it started: the
      enqueuers do not care. */
  lemma SenderStep(s: State, t: State, c: CallId)
    requires CallsOk(s) && OnlyCall(s.calls, t.calls, c) && forall d | d in s.calls && d != c :: !IsSender(s.calls[d])
    requires c in t.calls ==> CallOk(t.connected, t.data, t.calls[c])
    ensures CallsOk(t)
  {
    forall d | d in t.calls ensures CallOk(t.connected, t.data, t.calls[d]) {
      if d != c { assert CallOk(s.connected, s.data, s.calls[d]); }
    }
  }

  /** A step that leaves the ledger alone. */
  lemma QuietStep(s: State, t: State, c: CallId)
    requires CallsOk(s) && OnlyCall(s.calls, t.calls, c) && t.data == s.data && (t.connected ==> s.connected)
    requires c in t.calls ==> CallOk(t.connected, t.data, t.calls[c])
    ensures CallsOk(t)
  {
    forall d | d in t.calls ensures CallOk(t.connected, t.data, t.calls[d]) {
      if d != c { assert CallOk(s.connected, s.data, s.calls[d]); }
    }
  }

  /** The queue accepts the buffers; a sender is there already or is elected. */
  lemma AcceptCalls(s: State, st: Step)
    requires Inv(s) && Enabled(s, st) && st.Lock? && !Overflows(s.data.queue, s.calls[st.c].bufs, s.calls[st.c].single)
    ensures CallsOk(Apply(s, st))
  {
    var t, bufs := Apply(s, st), s.calls[st.c].bufs;
    assert CallOk(s.connected, s.data, s.calls[st.c]);
    if s.isSending {
      forall d | d in t.calls ensures CallOk(t.connected, t.data, t.calls[d]) {
        assert CallOk(s.connected, s.data, s.calls[d]);
        if Balanced(s.data, 0) { AcceptBalanced(s.data, bufs, 0); }
        if s.calls[d].Completing? { AcceptBalanced(s.data, bufs, s.calls[d].n); }
      }
    } else {
      if Balanced(s.data, 0) { AcceptBalanced(s.data, bufs, 0); }
      NoSender(s);
      SenderStep(s, t, st.c);
    }
  }

  lemma AcceptSizes(d: Ledger, bufs: seq<Buffer>, single: bool)
    requires Sizes(d) && NonEmpty(bufs) && (single ==> |bufs| == 1) && !Overflows(d.queue, bufs, single)
    ensures Sizes(Accept(d, bufs)) && (d.wire <= d.accepted ==> d.wire <= Accept(d, bufs).accepted)
  {
  }

  lemma AcceptRest(s: State, st: Step)
    requires Inv(s) && Enabled(s, st) && st.Lock? && !Overflows(s.data.queue, s.calls[st.c].bufs, s.calls[st.c].single)
    ensures Sizes(Apply(s, st).data) && RestOk(Apply(s, st))
  {
    var bufs := s.calls[st.c].bufs;
    assert CallOk(s.connected, s.data, s.calls[st.c]);
    AcceptSizes(s.data, bufs, s.calls[st.c].single);
    if Balanced(s.data, 0) { AcceptBalanced(s.data, bufs, 0); }
  }

  lemma LockStep(s: State, st: Step)
    requires Inv(s) && Enabled(s, st) && st.Lock?
    ensures BytesOk(Apply(s, st))
  {
    if Overflows(s.data.queue, s.calls[st.c].bufs, s.calls[st.c].single) {
      QuietStep(s, Apply(s, st), st.c);
    } else {
      AcceptCalls(s, st);
      AcceptRest(s, st);
    }
  }

  lemma GatherStep(s: State, st: Step)
    requires Inv(s) && Enabled(s, st) && st.Gather?
    ensures BytesOk(Apply(s, st))
  {
    assert CallOk(s.connected, s.data, s.calls[st.c]);
    assert MoveToFlight(s.data).inflight + MoveToFlight(s.data).queue == s.data.inflight + s.data.queue;
    SenderAlone(s, st.c);
    SenderStep(s, Apply(s, st), st.c);
  }

  lemma ReinsertStep(s: State, st: Step)
    requires Inv(s) && Enabled(s, st) && st.Reinsert?
    ensures BytesOk(Apply(s, st))
  {
    assert CallOk(s.connected, s.data, s.calls[st.c]);
    PutBackBalanced(s.data, s.calls[st.c].n);
    PutBackSizes(s.data, s.calls[st.c].n);
    SenderAlone(s, st.c);
    SenderStep(s, Apply(s, st), st.c);
  }

  lemma CompleteStep(s: State, st: Step)
    requires Inv(s) && Enabled(s, st) && (st.Complete? || st.CompleteZero?)
    ensures BytesOk(Apply(s, st))
  {
    EmitBalanced(s.data, if st.Complete? then st.n else st.leaked);
    NoSender(s);
    assert s.outstanding == 1 && s.parked == 0;
    SenderStep(s, Apply(s, st), st.c);
  }

  lemma FailStep(s: State, st: Step)
    requires Inv(s) && Enabled(s, st) && st.Fail?
    ensures BytesOk(Apply(s, st))
  {
    assert CallOk(s.connected, s.data, s.calls[st.c]);
    SenderAlone(s, st.c);
    SenderStep(s, Apply(s, st), st.c);
  }

  predicate MovesNoBytes(st: Step) {
    !st.Lock? && !st.Gather? && !st.Reinsert? && !st.Complete? && !st.CompleteZero? && !st.Fail?
  }

  lemma OtherCalls(s: State, st: Step)
    requires Inv(s) && Enabled(s, st) && MovesNoBytes(st)
    ensures CallsOk(Apply(s, st))
  {
    var t := Apply(s, st);
    if st.c in s.calls { assert CallOk(s.connected, s.data, s.calls[st.c]); }
    StepMovesOneCall(s, st);
    assert st.c in t.calls ==> CallOk(t.connected, t.data, t.calls[st.c]);
    QuietStep(s, t, st.c);
  }

  lemma OtherRest(s: State, st: Step)
    requires Inv(s) && Enabled(s, st) && MovesNoBytes(st)
    ensures Apply(s, st).data == s.data && RestOk(Apply(s, st))
  {
    if st.c in s.calls { assert CallOk(s.connected, s.data, s.calls[st.c]); }
    if SenderAt(s, st.c) { SenderAlone(s, st.c); }
  }

  lemma StepInv(s: State, st: Step)
    requires Inv(s) && Enabled(s, st)
    ensures Inv(Apply(s, st))
  {
    if st.Fail? { assert CallOk(s.connected, s.data, s.calls[st.c]); }
    TokenStep(s, st);
    match st {
      case Lock(_) => LockStep(s, st);
      case Gather(_) => GatherStep(s, st);
      case Reinsert(_) => ReinsertStep(s, st);
      case Complete(_, _) => CompleteStep(s, st);
      case CompleteZero(_, _) => CompleteStep(s, st);
      case Fail(_) => FailStep(s, st);
      case _ => OtherCalls(s, st); OtherRest(s, st);
    }
  }

  lemma {:induction false} RunInv(s: State, steps: seq<Step>, t: State)
    requires Inv(s) && Runs(s, steps, t)
    ensures Inv(t)
    decreases |steps|
  {
    if steps != [] {
      StepInv(s, steps[0]);
      RunInv(Apply(s, steps[0]), steps[1..], t);
    }
  }

  // ----- Main results --------------------------------------------------------------------------------

  predicate InPhase(s: State, c: CallId, p: Phase) { c in s.calls && s.calls[c] == p }

  lemma StartInv()
    ensures Inv(START)
  {
    assert Senders(START) == {};
    assert Concat([]) == [];
  }

  /** Over every run the bytes on the wire are a prefix of the bytes accepted, whatever disconnects,
      fatal errors or zero completions happen.  While connected they are followed, byte for byte, by
      the in-flight and queued buffers from the offset on; a completion of `n` bytes under way has
      put exactly `n` more of them on the wire. */
  lemma WireIsAPrefix(steps: seq<Step>, s: State)
    requires Runs(START, steps, s)
    ensures s.data.wire <= s.data.accepted
    ensures s.connected && (forall c | c in s.calls :: !s.calls[c].Completing? && !s.calls[c].ZeroClosing?) ==>
              s.data.wire + Unsent(s.data, 0) == s.data.accepted
    ensures forall c, n: nat | InPhase(s, c, Completing(n)) :: s.data.wire + Unsent(s.data, n) == s.data.accepted
  {
    StartInv();
    RunInv(START, steps, s);
    forall c, n: nat | InPhase(s, c, Completing(n)) ensures s.data.wire + Unsent(s.data, n) == s.data.accepted {
      assert CallOk(s.connected, s.data, s.calls[c]);
    }
    if c :| c in Senders(s) {
      assert CallOk(s.connected, s.data, s.calls[c]);
    }
  }

  /** At most one send is outstanding and at most one call is the sender; while connected there is a
      sender whenever there is anything to send, and nothing is held back when there is none. */
  lemma OneSenderNoLostWakeup(steps: seq<Step>, s: State)
    requires Runs(START, steps, s)
    ensures |Senders(s)| + s.outstanding + s.parked <= 1
    ensures s.connected && (s.data.queue != [] || s.data.inflight != []) ==>
              s.isSending && |Senders(s)| + s.outstanding + s.parked == 1
    ensures s.connected && !s.isSending ==> s.data.queue == [] && s.data.inflight == []
  {
    StartInv();
    RunInv(START, steps, s);
  }

  /** The branch for an empty gather is never taken, the offset lies inside the first buffer whenever
      it is read, and memory stays bounded even when unsent buffers go back to the front. */
  lemma QueueBounds(steps: seq<Step>, s: State, c: CallId)
    requires Runs(START, steps, s)
    ensures |s.data.inflight| <= 64 && |s.data.queue| + |s.data.inflight| <= 500 + 64
    ensures c in s.calls ==> !s.calls[c].Releasing?
    ensures InPhase(s, c, Gathering) ==> s.data.queue != [] && s.data.offset < |s.data.queue[0]|
    ensures c in s.calls && s.calls[c].Completing? ==> s.data.inflight != [] && s.data.offset < |s.data.inflight[0]|
  {
    StartInv();
    RunInv(START, steps, s);
    if c in s.calls {
      assert CallOk(s.connected, s.data, s.calls[c]);
      assert [] + s.data.queue == s.data.queue;
    }
  }

  // ----- Nothing is stuck ----------------------------------------------------------------------------

  lemma {:induction false} FreshCall(calls: set<CallId>) returns (c: CallId)
    ensures c !in calls && forall d | d in calls :: d < c
    decreases |calls|
  {
    c := 0;
    if d :| d in calls {
      c := FreshCall(calls - {d});
      assert forall e | e in calls :: e == d || e in calls - {d};
      if c <= d { c := d + 1; }
    }
  }

  /** How far the sender is from the next completion. */
  function Rank(p: Phase): nat {
    match p
    case Completing(_) => 5
    case Registering => 4
    case Gathering => 3
    case Submitting => 2
    case _ => 6
  }

  /** With `c` the sender or a call that takes over a completion. */
  function Distance(s: State, c: CallId): nat { if c in s.calls then Rank(s.calls[c]) else 1 }

  /** The next step towards the wire: everything submitted is accepted by the kernel and completes. */
  function NextStep(s: State, c: CallId): Step {
    if c !in s.calls then Complete(c, |Submitted(s.data)|) else
      match s.calls[c]
      case Registering => Enter(c)
      case Gathering => Gather(c)
      case Submitting => Submit(c, Pending)
      case _ => Reinsert(c)
  }

  /** The session is connected, has met no recoverable error, and `c` is its sender if it has one. */
  ghost predicate CanGoOn(s: State, c: CallId) {
    && Inv(s) && s.connected && s.parked == 0
    && (c in s.calls ==> IsSender(s.calls[c]) && !s.calls[c].Failing? && !s.calls[c].ZeroClosing?)
    && (c !in s.calls ==> s.outstanding == 1)
  }

  lemma {:induction false} FlushFrom(s: State, c: CallId) returns (steps: seq<Step>, t: State)
    requires CanGoOn(s, c)
    ensures Runs(s, steps, t) && t.data.wire == t.data.accepted == s.data.accepted
    decreases |s.data.accepted| - |s.data.wire|, Distance(s, c)
  {
    if s.data.wire == s.data.accepted {
      steps, t := [], s;
    } else {
      var st := NextStep(s, c);
      GoesOn(s, c);
      var rest := [];
      t := Apply(s, st);
      if t.data.wire != t.data.accepted {
        Closer(s, c);
        rest, t := FlushFrom(t, c);
      }
      assert ([st] + rest)[1..] == rest;
      steps := [st] + rest;
    }
  }

  lemma GoesOn(s: State, c: CallId)
    requires CanGoOn(s, c) && s.data.wire != s.data.accepted
    ensures var st := NextStep(s, c);
            && Enabled(s, st) && Apply(s, st).data.accepted == s.data.accepted
            && (CanGoOn(Apply(s, st), c) || Apply(s, st).data.wire == s.data.accepted)
  {
    var st := NextStep(s, c);
    if c !in s.calls {
      SubmittedSome(s.data);
    } else {
      assert CallOk(s.connected, s.data, s.calls[c]);
      SenderAlone(s, c);
    }
    StepInv(s, st);
    var t := Apply(s, st);
    if st.Reinsert? && t.data.queue == [] { NothingUnsent(t.data); }
  }

  lemma Closer(s: State, c: CallId)
    requires CanGoOn(s, c) && Enabled(s, NextStep(s, c)) && Inv(Apply(s, NextStep(s, c)))
    requires Apply(s, NextStep(s, c)).data.accepted == s.data.accepted
    ensures var t := Apply(s, NextStep(s, c));
            |s.data.wire| < |t.data.wire| <= |s.data.accepted| || (t.data.wire == s.data.wire && Distance(t, c) < Distance(s, c))
  {
    if c in s.calls { assert CallOk(s.connected, s.data, s.calls[c]); }
  }

  lemma SubmittedSome(d: Ledger)
    requires d.inflight != [] && NonEmpty(d.inflight) && Balanced(d, 0)
    ensures |Submitted(d)| > 0
  {
    FirstOf(d.inflight, d.queue);
    NonEmptyConcat(d.inflight);
  }

  lemma NothingUnsent(d: Ledger)
    requires d.inflight == [] && d.queue == [] && Balanced(d, 0)
    ensures d.wire == d.accepted
  {
    assert d.inflight + d.queue == [];
  }

  /** Nothing accepted is stuck: from every reachable state in which the session is connected and has met no
      recoverable error, if the kernel takes and completes what it is given everything accepted so far goes
      out, without another call of `Send`. */
  lemma EverythingCanGoOut(steps: seq<Step>, s: State) returns (more: seq<Step>, t: State)
    requires Runs(START, steps, s) && s.connected && s.parked == 0
    requires forall c | c in s.calls :: !s.calls[c].ZeroClosing?
    ensures Runs(s, more, t) && t.data.wire == t.data.accepted == s.data.accepted
  {
    StartInv();
    RunInv(START, steps, s);
    if s.data.wire == s.data.accepted {
      more, t := [], s;
    } else if c :| c in s.calls && IsSender(s.calls[c]) {
      assert CallOk(s.connected, s.data, s.calls[c]);
      more, t := FlushFrom(s, c);
    } else {
      assert Senders(s) == {};
      if !s.isSending { NothingUnsent(s.data); }
      var c := FreshCall(s.calls.Keys);
      more, t := FlushFrom(s, c);
    }
  }

  // ----- What is accepted ----------------------------------------------------------------------------

  /** `Send` finds fewer than 500 queued buffers; a list counts its own buffers as well. */
  predicate HasRoom(queued: nat, added: nat, single: bool) { if single then queued < 500 else queued + added < 500 }

  /** The call about to take the lock will find room. */
  predicate LockHasRoom(s: State, c: CallId) {
    Enabled(s, Lock(c)) && HasRoom(|s.data.queue|, |s.calls[c].bufs|, s.calls[c].single)
  }

  /** What a step hands over: the buffers of a `Lock`, of any or only of one that finds room. */
  function HandedOver(s: State, st: Step, all: bool): seq<byte>
    requires Enabled(s, st)
  {
    if st.Lock? && (all || LockHasRoom(s, st.c)) then Concat(s.calls[st.c].bufs) else []
  }

  function Locked(s: State, steps: seq<Step>, all: bool): seq<byte>
    decreases |steps|
  {
    if steps == [] || !Enabled(s, steps[0]) then []
    else HandedOver(s, steps[0], all) + Locked(Apply(s, steps[0]), steps[1..], all)
  }

  ghost predicate AlwaysRoom(s: State, steps: seq<Step>)
    decreases |steps|
  {
    steps == [] ||
    (Enabled(s, steps[0]) && (steps[0].Lock? ==> LockHasRoom(s, steps[0].c)) && AlwaysRoom(Apply(s, steps[0]), steps[1..]))
  }

  ghost predicate NoneOverflowing(s: State) { forall c | c in s.calls :: !s.calls[c].Overflowing? }

  /** Over any run exactly the buffers of the calls that found room are accepted, in the order of their
      locks.  If all find room no call overflows and all are accepted. */
  lemma {:induction false} AcceptedExactlyWithRoom(s: State, steps: seq<Step>, t: State)
    requires Runs(s, steps, t)
    ensures t.data.accepted == s.data.accepted + Locked(s, steps, false)
    ensures AlwaysRoom(s, steps) ==> Locked(s, steps, false) == Locked(s, steps, true)
    ensures AlwaysRoom(s, steps) && NoneOverflowing(s) ==> NoneOverflowing(t)
    decreases |steps|
  {
    if steps != [] {
      AcceptedByStep(s, steps[0]);
      AcceptedExactlyWithRoom(Apply(s, steps[0]), steps[1..], t);
      Regroup(s.data.accepted, HandedOver(s, steps[0], false), Locked(Apply(s, steps[0]), steps[1..], false));
    }
  }

  lemma AcceptedByStep(s: State, st: Step)
    requires Enabled(s, st)
    ensures Apply(s, st).data.accepted == s.data.accepted + HandedOver(s, st, false)
    ensures NoneOverflowing(s) && (st.Lock? ==> LockHasRoom(s, st.c)) ==> NoneOverflowing(Apply(s, st))
  {
  }

  /** The connection is gone, or the call is about to end it. */
  predicate Ending(s: State, c: CallId) { !s.connected || InPhase(s, c, Overflowing) }

  lemma {:induction false} EndingStays(s: State, steps: seq<Step>, t: State, c: CallId)
    requires Runs(s, steps, t) && Ending(s, c)
    ensures Ending(t, c) && (!s.connected ==> !t.connected)
    decreases |steps|
  {
    if steps != [] { EndingStays(Apply(s, steps[0]), steps[1..], t, c); }
  }

  /** A call that finds no room accepts nothing and elects no sender; as soon as it has taken its next
      step the session is disconnected, for good. */
  lemma FullQueueDisconnects(s: State, c: CallId, steps: seq<Step>, t: State)
    requires Enabled(s, Lock(c)) && !LockHasRoom(s, c) && Runs(Apply(s, Lock(c)), steps, t)
    ensures Apply(s, Lock(c)).data == s.data && Apply(s, Lock(c)).isSending == s.isSending
    ensures InPhase(t, c, Overflowing) || !t.connected
  {
    EndingStays(Apply(s, Lock(c)), steps, t, c);
  }

  /** Once disconnected, and with no call past its check, nothing more is accepted; and nothing more is sent
      if no send is outstanding or about to be submitted. */
  lemma {:induction false} NothingAfterDisconnect(s: State, steps: seq<Step>, t: State)
    requires Runs(s, steps, t) && !s.connected && forall c | c in s.calls :: !s.calls[c].Checked?
    ensures !t.connected && t.data.accepted == s.data.accepted
    ensures s.outstanding == 0 && (forall c | c in s.calls :: !s.calls[c].Gathering? && !s.calls[c].Submitting?) ==>
              t.data.wire == s.data.wire
    decreases |steps|
  {
    if steps != [] { NothingAfterDisconnect(Apply(s, steps[0]), steps[1..], t); }
  }

  // ----- The object ----------------------------------------------------------------------------------

  /** What is handed to the kernel: the buffers, the first one from the offset on. */
  function Windows(bufs: seq<Buffer>, offset: nat): seq<seq<byte>>
    requires bufs != [] ==> offset <= |bufs[0]|
  {
    if bufs == [] then [] else [bufs[0][offset..]] + bufs[1..]
  }

  lemma CutFirst(first: seq<byte>, rest: seq<byte>, offset: nat)
    requires offset <= |first|
    ensures (first + rest)[offset..] == first[offset..] + rest
  {
  }

  lemma WindowsConcat(bufs: seq<Buffer>, offset: nat)
    requires bufs != [] && offset <= |bufs[0]|
    ensures offset <= |Concat(bufs)| && Concat(Windows(bufs, offset)) == Concat(bufs)[offset..]
  {
    assert Windows(bufs, offset)[1..] == bufs[1..];
    CutFirst(bufs[0], Concat(bufs[1..]), offset);
  }

  /** The locked sections of `Session` with their loops. */
  class Session {
    var isSending: bool
    var sendQueue: seq<Buffer>
    var sendOffset: nat
    var sendBuffers: seq<Buffer>
    ghost var wire: seq<byte>
    ghost var accepted: seq<byte>

    ghost function Data(): Ledger
      reads this
    {
      Ledger(sendBuffers, sendQueue, sendOffset, wire, accepted)
    }

    /** The locked section of both `Send` overloads. */
    method Enqueue(bufs: seq<Buffer>, single: bool) returns (queueOverflow: bool, registerSend: bool)
      modifies this`sendQueue, this`isSending, this`accepted
      ensures queueOverflow <==> (if single then |old(sendQueue)| >= 500 else |old(sendQueue)| + |bufs| >= 500)
      ensures Data() == if queueOverflow then old(Data()) else Accept(old(Data()), bufs)
      ensures registerSend <==> !queueOverflow && !old(isSending)
      ensures isSending == (old(isSending) || !queueOverflow)
    {
      if (if single then |sendQueue| >= MAX_SEND_QUEUE else |sendQueue| + |bufs| >= MAX_SEND_QUEUE) {
        return true, false;
      }
      for i := 0 to |bufs|
        invariant sendQueue == old(sendQueue) + bufs[..i]
        modifies this`sendQueue
      {
        sendQueue := sendQueue + [bufs[i]];
      }
      accepted := accepted + Concat(bufs);
      registerSend := !isSending;
      isSending := true;
      return false, registerSend;
    }

    /** The gather loop of `RegisterSend`: the WSABUFs together are the submitted bytes. */
    method Gather() returns (wsaBufs: seq<seq<byte>>)
      requires sendBuffers == [] && (sendQueue != [] ==> sendOffset <= |sendQueue[0]|)
      modifies this`sendQueue, this`sendBuffers
      ensures Data() == MoveToFlight(old(Data()))
      ensures old(sendQueue) != [] ==> Concat(wsaBufs) == Submitted(Data())
      ensures |wsaBufs| == if |old(sendQueue)| < 64 then |old(sendQueue)| else 64
      ensures sendBuffers == old(sendQueue)[..|wsaBufs|] && sendQueue == old(sendQueue)[|wsaBufs|..]
    {
      wsaBufs := [];
      while sendQueue != [] && |wsaBufs| < MAX_GATHER
        invariant |wsaBufs| <= |old(sendQueue)| && |wsaBufs| <= MAX_GATHER
        invariant sendQueue == old(sendQueue)[|wsaBufs|..] && sendBuffers == old(sendQueue)[..|wsaBufs|]
        invariant wsaBufs == Windows(sendBuffers, sendOffset)
        decreases |sendQueue|
      {
        var sendBuffer := sendQueue[0];
        sendQueue := sendQueue[1..];
        sendBuffers := sendBuffers + [sendBuffer];
        wsaBufs := wsaBufs + [if wsaBufs == [] && sendOffset > 0 then sendBuffer[sendOffset..] else sendBuffer];
      }
      assert [] + old(sendQueue)[..|wsaBufs|] == sendBuffers;
      if wsaBufs != [] { WindowsConcat(sendBuffers, sendOffset); }
    }

    /** The loop that walks the completed bytes through the submitted buffers. */
    method Uncompleted(numOfBytes: nat) returns (uncompletedBuffers: seq<Buffer>, nextOffset: nat)
      requires NonEmpty(sendBuffers) && (sendBuffers != [] ==> sendOffset <= |sendBuffers[0]|)
      ensures (uncompletedBuffers, nextOffset) == Consume(sendBuffers, sendOffset, numOfBytes)
      ensures uncompletedBuffers == [] ==> nextOffset == 0
    {
      var bytesRemaining := numOfBytes;
      for i := 0 to |sendBuffers|
        invariant bytesRemaining >= 0
        invariant Consume(sendBuffers[i..], if i == 0 then sendOffset else 0, bytesRemaining) == Consume(sendBuffers, sendOffset, numOfBytes)
      {
        assert sendBuffers[i..][1..] == sendBuffers[i + 1..];
        var skip := if i == 0 then sendOffset else 0;
        var actualPendingBytes := |sendBuffers[i]| - skip;
        if bytesRemaining < actualPendingBytes {
          return sendBuffers[i..], skip + bytesRemaining;
        }
        bytesRemaining := bytesRemaining - actualPendingBytes;
      }
      return [], 0;
    }

    /** Re-insertion in front, last buffer first, so that the order is kept. */
    method PushFront(bufs: seq<Buffer>)
      modifies this`sendQueue
      ensures sendQueue == bufs + old(sendQueue)
    {
      var j := |bufs|;
      while j > 0
        invariant 0 <= j <= |bufs|
        invariant sendQueue == bufs[j..] + old(sendQueue)
      {
        j := j - 1;
        assert bufs[j..] == [bufs[j]] + bufs[j + 1..];
        sendQueue := [bufs[j]] + sendQueue;
      }
    }

    /** `ProcessSend` for n > 0 bytes: drop what was completed, put the rest back in front. */
    method ProcessSend(numOfBytes: nat) returns (registerSend: bool)
      requires NonEmpty(sendBuffers) && (sendBuffers != [] ==> sendOffset <= |sendBuffers[0]|)
      modifies this`sendBuffers, this`sendQueue, this`sendOffset, this`isSending
      ensures Data() == PutBack(old(Data()), numOfBytes)
      ensures registerSend <==> sendQueue != []
      ensures isSending == (old(isSending) && registerSend)
    {
      var uncompletedBuffers, nextOffset := Uncompleted(numOfBytes);
      sendBuffers := [];
      if uncompletedBuffers != [] {
        PushFront(uncompletedBuffers);
        sendOffset := nextOffset;
        registerSend := true;
      } else {
        assert uncompletedBuffers + sendQueue == sendQueue;
        sendOffset := 0;
        if sendQueue == [] {
          isSending := false;
          registerSend := false;
        } else {
          registerSend := true;
        }
      }
    }
  }
}
