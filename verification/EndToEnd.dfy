/** From `MakeSendBuffer` on one side of a connection to `OnRecvPacket` on the other. */
module EndToEnd {
  import opened Bytes
  import opened Codec
  import Sender = Sending
  import Receiver = Receiving

  /** However the sends were interleaved, cut short or broken off, and however the bytes were split into
      receives: if the sender accepted the packets `ps` and the receiver got a prefix of what went over
      the wire, then the packets delivered are a prefix of `ps`, in order, and each of them reads back
      as the value it was made from. */
  lemma DeliveredPacketsAreSentPackets(sendSteps: seq<Sender.Step>, s: Sender.State, scs: seq<Schema>, datas: seq<seq<Datum>>,
                                       ps: seq<seq<byte>>, cap: nat, recvSteps: seq<Receiver.Step>, m: Receiver.Link)
    requires Sender.Runs(Sender.START, sendSteps, s)
    requires Receiver.AreMade(scs, datas, ps) && s.data.accepted == Concat(ps)
    requires Receiver.Runs(Receiver.FRESH, cap, recvSteps, m) && m.received <= s.data.wire
    requires forall i | 0 <= i < |ps| :: NoEmptyElements(Layout(scs[i])) && TextsShort(datas[i])
    ensures m.delivered <= ps
    ensures forall i | 0 <= i < |m.delivered| :: DecodePacket(scs[i], m.delivered[i]) == Got(datas[i], [])
  {
    Sender.WireIsAPrefix(sendSteps, s);
    assert m.received <= s.data.wire <= Concat(ps);
    DeliveredIsAPrefix(scs, datas, ps, cap, recvSteps, m);
    forall i | 0 <= i < |m.delivered| ensures DecodePacket(scs[i], m.delivered[i]) == Got(datas[i], []) {
      PacketSurvives(scs[i], datas[i]);
    }
  }

  lemma DeliveredIsAPrefix(scs: seq<Schema>, datas: seq<seq<Datum>>, ps: seq<seq<byte>>, cap: nat,
                           recvSteps: seq<Receiver.Step>, m: Receiver.Link)
    requires Receiver.AreMade(scs, datas, ps) && Receiver.Runs(Receiver.FRESH, cap, recvSteps, m)
    requires m.received <= Concat(ps)
    ensures m.delivered <= ps
  {
    Receiver.DeliveredWithin(cap, recvSteps, m, Concat(ps));
    Receiver.SentPacketsAreFramed(scs, datas, ps);
  }
}
