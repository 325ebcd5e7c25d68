/** From received bytes to packets: `PacketSession::OnRecv` on top of `Session::ProcessRecv` on top
    of the ring buffer, against a reference framer over the whole byte stream. */
module Receiving {
  import opened Bytes
  import opened Codec
  import opened Rings

  // ----- The reference framer ----------------------------------------------------------------------

  /** The packets cut from a stream, the bytes left over, and whether they start with a bad size. */
  datatype Cut = Cut(packets: seq<seq<byte>>, rest: seq<byte>, bad: bool)

  predicate BadSize(bs: seq<byte>) { |bs| >= HEADER_SIZE && U16Value(bs[..2]) < HEADER_SIZE }

  predicate HasFrame(bs: seq<byte>) { |bs| >= HEADER_SIZE && HEADER_SIZE <= U16Value(bs[..2]) <= |bs| }

  function Frames(bs: seq<byte>): Cut
    decreases |bs|
  {
    if !HasFrame(bs) then Cut([], bs, BadSize(bs)) else
      var size := U16Value(bs[..2]);
      var more := Frames(bs[size..]);
      more.(packets := [bs[..size]] + more.packets)
  }

  predicate AllWellFramed(ps: seq<seq<byte>>) { forall i | 0 <= i < |ps| :: WellFramed(ps[i]) }

  /** What the cut means: the stream is the packets followed by the rest, every packet announces its
      own length, and the rest starts with no whole packet. */
  lemma {:induction false} FramesSound(bs: seq<byte>)
    ensures var c := Frames(bs);
            && Concat(c.packets) + c.rest == bs
            && AllWellFramed(c.packets) && !HasFrame(c.rest) && c.bad == BadSize(c.rest)
    decreases |bs|
  {
    if HasFrame(bs) {
      var size := U16Value(bs[..2]);
      FramesSound(bs[size..]);
      FirstFrame(bs, size, Frames(bs[size..]));
    }
  }

  /** One packet in front of a sound cut. */
  lemma FirstFrame(bs: seq<byte>, size: nat, more: Cut)
    requires HasFrame(bs) && size == U16Value(bs[..2])
    requires Concat(more.packets) + more.rest == bs[size..] && AllWellFramed(more.packets)
    ensures Concat([bs[..size]] + more.packets) + more.rest == bs
    ensures AllWellFramed([bs[..size]] + more.packets)
  {
    var packets := [bs[..size]] + more.packets;
    assert packets[1..] == more.packets;
    assert bs[..size][..2] == bs[..2];
    Regroup(bs[..size], Concat(more.packets), more.rest);
    assert bs[..size] + bs[size..] == bs;
  }

  /** There is only one such decomposition; in particular the framer gives back exactly the packets
      that were concatenated. */
  lemma {:induction false} FramesComplete(ps: seq<seq<byte>>, rest: seq<byte>)
    requires AllWellFramed(ps) && !HasFrame(rest)
    ensures Frames(Concat(ps) + rest) == Cut(ps, rest, BadSize(rest))
  {
    if ps == [] {
      assert Concat(ps) + rest == rest;
    } else {
      var bs := Concat(ps) + rest;
      var p := ps[0];
      Regroup(p, Concat(ps[1..]), rest);
      assert bs[..|p|] == p && bs[|p|..] == Concat(ps[1..]) + rest;
      assert bs[..2] == p[..2];
      FramesComplete(ps[1..], rest);
      assert [p] + ps[1..] == ps;
    }
  }

  /** Framing can be resumed from the rest. */
  lemma FramesResume(a: seq<byte>, b: seq<byte>)
    requires !Frames(a).bad
    ensures var more := Frames(Frames(a).rest + b);
            Frames(a + b) == more.(packets := Frames(a).packets + more.packets)
  {
    var ca := Frames(a);
    var more := Frames(ca.rest + b);
    FramesSound(a);
    FramesSound(ca.rest + b);
    var ps := ca.packets + more.packets;
    ConcatAppend(ca.packets, more.packets);
    calc {
      a + b;
      Concat(ca.packets) + ca.rest + b;
      { Regroup(Concat(ca.packets), ca.rest, b); }
      Concat(ca.packets) + (Concat(more.packets) + more.rest);
      { Regroup(Concat(ca.packets), Concat(more.packets), more.rest); }
      Concat(ps) + more.rest;
    }
    FramesComplete(ps, more.rest);
  }

  /** More bytes never change the packets already cut. */
  lemma FramesGrow(a: seq<byte>, b: seq<byte>)
    ensures Frames(a).packets <= Frames(a + b).packets
    ensures Frames(a).bad ==> Frames(a + b).packets == Frames(a).packets
  {
    var ca := Frames(a);
    if ca.bad {
      FramesSound(a);
      Regroup(Concat(ca.packets), ca.rest, b);
      assert (ca.rest + b)[..2] == ca.rest[..2];
      FramesComplete(ca.packets, ca.rest + b);
    } else {
      FramesResume(a, b);
    }
  }

  /** `ps` are what `MakeSendBuffer` makes of the values, all of which fit. */
  ghost predicate AreMade(scs: seq<Schema>, datas: seq<seq<Datum>>, ps: seq<seq<byte>>) {
    && |scs| == |datas| == |ps|
    && forall i | 0 <= i < |ps| ::
         && AllTyped(datas[i], Layout(scs[i])) && Fits(scs[i], datas[i]) && scs[i].id < U16
         && ps[i] == PacketBytes(scs[i], datas[i])
  }

  /** On the concatenation of packets made by `MakeSendBuffer` the framer returns those packets. */
  lemma SentPacketsAreFramed(scs: seq<Schema>, datas: seq<seq<Datum>>, ps: seq<seq<byte>>)
    requires AreMade(scs, datas, ps)
    ensures Frames(Concat(ps)) == Cut(ps, [], false)
  {
    forall i | 0 <= i < |ps| ensures WellFramed(ps[i]) {
      var payload := Encode(Layout(scs[i]), datas[i]);
      HeaderOf(HEADER_SIZE + |payload|, scs[i].id, payload);
    }
    FramesComplete(ps, []);
    assert Concat(ps) + [] == Concat(ps);
  }

  // ----- The framing loop --------------------------------------------------------------------------

  /** The packets delivered so far and those still to be cut make up the whole cut. */
  predicate Cutting(buffer: seq<byte>, processed: nat, delivered: seq<seq<byte>>)
  {
    processed <= |buffer| &&
    var more := Frames(buffer[processed..]);
    Frames(buffer) == more.(packets := delivered + more.packets)
  }

  lemma CutOne(buffer: seq<byte>, processed: nat, delivered: seq<seq<byte>>, size: nat)
    requires processed <= |buffer| && Cutting(buffer, processed, delivered)
    requires HasFrame(buffer[processed..]) && size == U16Value(buffer[processed..][..2])
    ensures processed + size <= |buffer|
    ensures Cutting(buffer, processed + size, delivered + [buffer[processed..processed + size]])
  {
    var left := buffer[processed..];
    var more := Frames(left[size..]);
    assert left[..size] == buffer[processed..processed + size] && left[size..] == buffer[processed + size..];
    assert delivered + ([left[..size]] + more.packets) == delivered + [left[..size]] + more.packets;
  }

  lemma NothingToCut(buffer: seq<byte>, processed: nat, delivered: seq<seq<byte>>)
    requires processed <= |buffer| && Cutting(buffer, processed, delivered) && !HasFrame(buffer[processed..])
    ensures Frames(buffer) == Cut(delivered, buffer[processed..], BadSize(buffer[processed..]))
  {
    assert delivered + [] == delivered;
  }

  lemma HeadAt(buffer: seq<byte>, processed: nat)
    requires processed + 2 <= |buffer|
    ensures |buffer[processed..]| == |buffer| - processed && buffer[processed..][..2] == buffer[processed..processed + 2]
  {
  }

  lemma NothingCutYet(buffer: seq<byte>)
    ensures Cutting(buffer, 0, [])
  {
    assert buffer[0..] == buffer && [] + Frames(buffer).packets == Frames(buffer).packets;
  }

  /** `delivered` lists the `OnRecvPacket` calls.  Packets before a bad size are delivered too. */
  method OnRecv(buffer: seq<byte>) returns (processed: int, delivered: seq<seq<byte>>)
    ensures delivered == Frames(buffer).packets
    ensures processed == -1 <==> Frames(buffer).bad
    ensures processed != -1 ==>
              && 0 <= processed <= |buffer| && buffer[processed..] == Frames(buffer).rest
              && (processed == 0 <==> delivered == [])
  {
    processed, delivered := 0, [];
    NothingCutYet(buffer);
    while true
      invariant 0 <= processed <= |buffer| && Cutting(buffer, processed, delivered)
      invariant processed == 0 <==> delivered == []
      decreases |buffer| - processed
    {
      var dataSize := |buffer| - processed;
      if dataSize < HEADER_SIZE { break; }
      HeadAt(buffer, processed);
      var size := U16Value(buffer[processed..processed + 2]);
      if size < HEADER_SIZE {
        NothingToCut(buffer, processed, delivered);
        return -1, delivered;
      }
      if dataSize < size { break; }
      CutOne(buffer, processed, delivered, size);
      delivered := delivered + [buffer[processed..processed + size]];
      processed := processed + size;
    }
    NothingToCut(buffer, processed, delivered);
  }

  // ----- One receive -------------------------------------------------------------------------------

  /** `ring` is the contents of the ring buffer, `posted` says a receive is outstanding; `received`
      and `delivered` record history. */
  datatype Link = Link(connected: bool, posted: bool, ring: seq<byte>, received: seq<byte>, delivered: seq<seq<byte>>)

  const FRESH: Link := Link(true, true, [], [], [])

  /** `RegisterRecv`: nothing when disconnected; a full ring or a failing `WSARecv` disconnects. */
  function Repost(l: Link, cap: nat, accepted: bool): Link {
    if !l.connected then l.(posted := false)
    else if |l.ring| == cap || !accepted then l.(connected := false, posted := false)
    else l.(posted := true)
  }

  /** `ProcessRecv` for a completion carrying `chunk`.  `MoveReadPos(0)` fails, so a completion that
      completes no packet disconnects. */
  function ProcessedRecv(l: Link, cap: nat, chunk: seq<byte>, accepted: bool): Link {
    if chunk == [] then l.(connected := false, posted := false) else
      var all := l.ring + chunk;
      var cut := Frames(all);
      var told := l.(received := l.received + chunk, delivered := l.delivered + cut.packets);
      if cut.bad || cut.packets == [] then told.(connected := false, posted := false, ring := all)
      else Repost(told.(ring := cut.rest), cap, accepted)
  }

  datatype Step =
    | Complete(chunk: seq<byte>, accepted: bool)   // a receive completion
    | Drop                                         // `Disconnect` from anywhere else

  predicate Enabled(l: Link, cap: nat, st: Step) { st.Drop? || (l.posted && |l.ring| + |st.chunk| <= cap) }

  function Apply(l: Link, cap: nat, st: Step): Link {
    match st
    case Complete(chunk, accepted) => ProcessedRecv(l, cap, chunk, accepted)
    case Drop => l.(connected := false)
  }

  predicate Runs(l: Link, cap: nat, steps: seq<Step>, m: Link)
    decreases |steps|
  {
    if steps == [] then l == m else Enabled(l, cap, steps[0]) && Runs(Apply(l, cap, steps[0]), cap, steps[1..], m)
  }

  /** All packets of what was received are delivered; while a receive is outstanding the ring holds
      exactly the uncut remainder and the stream is well formed. */
  ghost predicate Inv(l: Link, cap: nat) {
    && |l.ring| <= cap
    && l.delivered == Frames(l.received).packets
    && (l.posted ==> l.ring == Frames(l.received).rest && !Frames(l.received).bad)
    && (l.connected ==> l.posted)
    && (forall i | 0 <= i < |l.delivered| :: |l.delivered[i]| <= cap)
  }

  lemma {:induction false} PacketsAreShort(bs: seq<byte>)
    ensures forall i | 0 <= i < |Frames(bs).packets| :: |Frames(bs).packets[i]| <= |bs|
    decreases |bs|
  {
    if HasFrame(bs) {
      PacketsAreShort(bs[U16Value(bs[..2])..]);
    }
  }

  /** What a completion delivers are the packets that its bytes complete. */
  lemma DeliveredNext(l: Link, chunk: seq<byte>)
    requires l.delivered == Frames(l.received).packets && l.ring == Frames(l.received).rest && !Frames(l.received).bad
    ensures l.delivered + Frames(l.ring + chunk).packets == Frames(l.received + chunk).packets
    ensures Frames(l.ring + chunk).rest == Frames(l.received + chunk).rest
    ensures Frames(l.ring + chunk).bad == Frames(l.received + chunk).bad
  {
    FramesResume(l.received, chunk);
  }

  lemma RestIsShort(bs: seq<byte>)
    ensures |Frames(bs).rest| <= |bs|
  {
    FramesSound(bs);
  }

  lemma StepInv(l: Link, cap: nat, st: Step)
    requires Inv(l, cap) && Enabled(l, cap, st)
    ensures Inv(Apply(l, cap, st), cap)
  {
    if st.Complete? && st.chunk != [] {
      DeliveredNext(l, st.chunk);
      PacketsAreShort(l.ring + st.chunk);
      RestIsShort(l.ring + st.chunk);
    }
  }

  lemma {:induction false} RunInv(l: Link, cap: nat, steps: seq<Step>, m: Link)
    requires Inv(l, cap) && Runs(l, cap, steps, m)
    ensures Inv(m, cap)
    decreases |steps|
  {
    if steps != [] {
      StepInv(l, cap, steps[0]);
      RunInv(Apply(l, cap, steps[0]), cap, steps[1..], m);
    }
  }

  /** For every byte stream, every split into receives and every disconnect: the packets delivered
      are exactly those of the bytes received, hence a prefix, in order, of the packets of any
      longer stream; and while connected the ring holds exactly the uncut remainder. */
  lemma DeliveredAreTheFrames(cap: nat, steps: seq<Step>, m: Link)
    requires Runs(FRESH, cap, steps, m)
    ensures m.delivered == Frames(m.received).packets
    ensures forall more :: m.delivered <= Frames(m.received + more).packets
    ensures m.connected ==> m.posted
    ensures m.posted ==> m.ring == Frames(m.received).rest && !Frames(m.received).bad
    ensures m.posted && |m.ring| >= 4 ==> m.ring[0] as nat + 256 * m.ring[1] as nat > |m.ring|
  {
    RunInv(FRESH, cap, steps, m);
    FramesSound(m.received);
    forall more ensures m.delivered <= Frames(m.received + more).packets {
      FramesGrow(m.received, more);
    }
  }

  /** In particular they are a prefix of the packets of a whole stream of which a part was received. */
  lemma DeliveredWithin(cap: nat, steps: seq<Step>, m: Link, whole: seq<byte>)
    requires Runs(FRESH, cap, steps, m) && m.received <= whole
    ensures m.delivered <= Frames(whole).packets
  {
    RunInv(FRESH, cap, steps, m);
    FramesGrow(m.received, whole[|m.received|..]);
    assert m.received + whole[|m.received|..] == whole;
  }

  // ----- Exactly when a connection survives ------------------------------------------------------------

  /** What the completions of a run carried. */
  function Chunks(steps: seq<Step>): seq<seq<byte>>
    decreases |steps|
  {
    if steps == [] then [] else (if steps[0].Complete? then [steps[0].chunk] else []) + Chunks(steps[1..])
  }

  /** Nobody disconnects the session and every further receive is accepted. */
  predicate Undisturbed(steps: seq<Step>) { forall i | 0 <= i < |steps| :: steps[i].Complete? && steps[i].accepted }

  /** After `before`, the chunk completes at least one packet and runs into no bad size. */
  predicate Productive(before: seq<byte>, chunk: seq<byte>) {
    |Frames(before).packets| < |Frames(before + chunk).packets| && !Frames(before + chunk).bad
  }

  predicate AllProductive(before: seq<byte>, chunks: seq<seq<byte>>)
    decreases |chunks|
  {
    chunks == [] || (Productive(before, chunks[0]) && AllProductive(before + chunks[0], chunks[1..]))
  }

  lemma ReceiveSurvives(l: Link, cap: nat, chunk: seq<byte>, accepted: bool)
    requires Inv(l, cap) && l.connected && |l.ring| + |chunk| <= cap
    ensures var m := ProcessedRecv(l, cap, chunk, accepted);
            && (m.connected <==> accepted && Productive(l.received, chunk))
            && m.posted == m.connected && m.received == l.received + chunk
  {
    DeliveredNext(l, chunk);
    PacketsTakeSpace(l.ring + chunk);
    if chunk == [] { assert l.received + chunk == l.received; }
  }

  lemma PacketsTakeSpace(bs: seq<byte>)
    ensures Frames(bs).packets != [] ==> |Frames(bs).rest| < |bs|
  {
    if HasFrame(bs) { RestIsShort(bs[U16Value(bs[..2])..]); }
  }

  /** A session that is disconnected stays so and stops receiving: at most the receive that is
      outstanding still completes, and no other is posted. */
  lemma {:induction false} DisconnectedStops(l: Link, cap: nat, steps: seq<Step>, m: Link)
    requires !l.connected && Runs(l, cap, steps, m)
    ensures !m.connected && |Chunks(steps)| <= (if l.posted then 1 else 0)
    ensures |Chunks(steps)| == 1 ==> !m.posted
    ensures !l.posted ==> !m.posted
    decreases |steps|
  {
    if steps != [] { DisconnectedStops(Apply(l, cap, steps[0]), cap, steps[1..], m); }
  }

  lemma {:induction false} SurvivesFrom(l: Link, cap: nat, steps: seq<Step>, m: Link)
    requires Inv(l, cap) && l.connected && Runs(l, cap, steps, m)
    ensures m.connected <==> Undisturbed(steps) && AllProductive(l.received, Chunks(steps))
    ensures m.connected ==> m.received == l.received + Concat(Chunks(steps))
    ensures m.posted && !m.connected ==> exists i :: 0 <= i < |steps| && steps[i].Drop?
    decreases |steps|
  {
    if steps == [] {
      assert l.received + Concat(Chunks(steps)) == l.received;
    } else {
      var next := Apply(l, cap, steps[0]);
      assert Undisturbed(steps) <==> steps[0].Complete? && steps[0].accepted && Undisturbed(steps[1..]);
      if steps[0].Complete? {
        StepInv(l, cap, steps[0]);
        ReceiveSurvives(l, cap, steps[0].chunk, steps[0].accepted);
        assert Chunks(steps)[1..] == Chunks(steps[1..]);
        if next.connected {
          SurvivesFrom(next, cap, steps[1..], m);
          Regroup(l.received, steps[0].chunk, Concat(Chunks(steps[1..])));
        }
      }
      if !next.connected { DisconnectedStops(next, cap, steps[1..], m); }
    }
  }

  /** Over every run: the connection survives if and only if nobody disconnects it, every further receive
      is accepted, and each chunk completes at least one packet and runs into no bad size; then all
      packets of the stream have been delivered.  A disconnected session has a receive outstanding only
      if it was disconnected from elsewhere. */
  lemma SurvivesExactlyWhenProductive(cap: nat, steps: seq<Step>, m: Link)
    requires Runs(FRESH, cap, steps, m)
    ensures m.connected <==> Undisturbed(steps) && AllProductive([], Chunks(steps))
    ensures m.connected ==> m.delivered == Frames(Concat(Chunks(steps))).packets
    ensures m.posted && !m.connected ==> exists i :: 0 <= i < |steps| && steps[i].Drop?
  {
    SurvivesFrom(FRESH, cap, steps, m);
    RunInv(FRESH, cap, steps, m);
    assert [] + Concat(Chunks(steps)) == Concat(Chunks(steps));
  }

  /** Two bytes of a four-byte packet: the framer would wait, the session disconnects. */
  lemma PartialPacketDisconnects(cap: nat, accepted: bool, m: Link)
    requires Runs(FRESH, cap, [Complete(U16Bytes(4), accepted)], m)
    ensures !Frames(U16Bytes(4)).bad && Frames(U16Bytes(4)).rest == U16Bytes(4) && !m.connected
  {
    var part := U16Bytes(4);
    assert FRESH.ring + part == part;
    assert m == Apply(FRESH, cap, Complete(part, accepted));
  }

  /** A packet can be delivered through a ring that holds `cap` bytes if and only if it is no longer than
      that, however it is split into receives. */
  lemma DeliverableExactlyWhenItFits(cap: nat, p: seq<byte>)
    requires WellFramed(p)
    ensures (exists steps, m :: Runs(FRESH, cap, steps, m) && p in m.delivered) <==> |p| <= cap
  {
    forall steps, m | Runs(FRESH, cap, steps, m) && p in m.delivered ensures |p| <= cap {
      RunInv(FRESH, cap, steps, m);
    }
    if |p| <= cap {
      ReceivedWhole(cap, p);
    }
  }

  lemma ReceivedWhole(cap: nat, p: seq<byte>)
    requires WellFramed(p) && |p| <= cap
    ensures exists steps, m :: Runs(FRESH, cap, steps, m) && p in m.delivered
  {
    var st := Complete(p, true);
    var m := Apply(FRESH, cap, st);
    FramesComplete([p], []);
    assert Concat([p]) + [] == p && FRESH.ring + p == p;
    assert m.delivered == [p];
    assert Runs(m, cap, [], m);
    assert Runs(FRESH, cap, [st], m);
  }

  /** `MakeSendBuffer` accepts packets of 4096 bytes, one byte more than the ring of a server
      session (4096 bytes, one kept free) can ever hold: such a packet is never delivered. */
  lemma LargestPacketNeverArrives(steps: seq<Step>, m: Link, p: seq<byte>)
    requires Runs(FRESH, 4095, steps, m) && |p| == 4096
    ensures p !in m.delivered
  {
    RunInv(FRESH, 4095, steps, m);
  }

  // ----- The object --------------------------------------------------------------------------------

  class Receiver {
    const ring: RingBuffer
    var connected: bool
    var posted: bool
    ghost var received: seq<byte>
    var delivered: seq<seq<byte>>

    ghost predicate Valid()
      reads this, ring
    {
      ring.Valid()
    }

    ghost function View(): Link
      reads this, ring, ring.buffer
      requires Valid()
    {
      Link(connected, posted, ring.Contents(), received, delivered)
    }

    ghost function Cap(): int { ring.buffer.Length - 1 }

    constructor (capacity: nat)
      requires capacity > 1
      ensures Valid() && View() == FRESH && Cap() == capacity - 1 && fresh(ring) && fresh(ring.buffer)
    {
      ring := new RingBuffer(capacity);
      connected, posted, received, delivered := true, true, [], [];
    }

    method RegisterRecv(accepted: bool)
      requires Valid()
      modifies this`connected, this`posted
      ensures View() == Repost(old(View()), Cap(), accepted)
      ensures posted == connected == (old(connected) && ring.GetFreeSize() > 0 && accepted)
    {
      posted := false;
      if !connected { return; }
      var spans := ring.GetWriteSpan(0);
      if spans == [] || !accepted {
        connected := false;
        return;
      }
      posted := true;
    }

    /** `chunk` is what the kernel scattered into the spans of the receive that completed. */
    method ProcessRecv(numOfBytes: nat, ghost chunk: seq<byte>, accepted: bool)
      requires Valid() && posted
      requires |chunk| == numOfBytes <= ring.GetFreeSize() && ring.Ahead(numOfBytes) == chunk
      modifies this`connected, this`posted, this`received, this`delivered, ring
      ensures Valid() && View() == ProcessedRecv(old(View()), Cap(), chunk, accepted)
    {
      if numOfBytes == 0 {
        connected, posted := false, false;
        return;
      }
      var moved := ring.MoveWritePos(numOfBytes);
      received := received + chunk;
      var dataSize := ring.GetDataSize();
      ghost var all := ring.Contents();
      var peeked, packetData := ring.Peek(dataSize);
      assert packetData == all;
      var processed, packets := OnRecv(packetData);
      delivered := delivered + packets;
      if processed < 0 || processed > dataSize {
        connected, posted := false, false;
        return;
      }
      moved := ring.MoveReadPos(processed);
      if !moved {
        connected, posted := false, false;
        return;
      }
      RegisterRecv(accepted);
    }
  }
}
