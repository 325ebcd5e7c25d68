/** The loops of the generated `Read` and `MakeSendBuffer`, run on the real cursors and chunks. */
module Packets {
  import opened Bytes
  import opened Codec
  import opened BufferIO
  import opened Buffers

  // ----- Writing -------------------------------------------------------------------------------

  method RunWriteCall(w: BufferWriter, call: WriteCall, v: Value, ghost ty: Ty) returns (ok: bool)
    requires w.Valid() && HasType(v, ty) && CallWrites(call, ty)
    modifies w`pos, w.buffer
    ensures w.Valid() && w.OutsideUnchanged()
    ensures ok <==> |old(w.Written())| + |EncodeValue(ty, v)| <= w.size
    ensures ok ==> w.Written() == old(w.Written()) + EncodeValue(ty, v)
  {
    match call
    case WriteText => ok := w.WriteString(v.s);
    case WriteScalar(t) => ok := w.Write(ToLE(v.n, Width(t)));
  }

  method RunWriteCalls(w: BufferWriter, calls: seq<WriteCall>, vs: seq<Value>, ghost tys: seq<Ty>) returns (ok: bool)
    requires w.Valid() && HasTypes(vs, tys) && CallsWrite(calls, tys)
    modifies w`pos, w.buffer
    ensures w.Valid() && w.OutsideUnchanged()
    ensures ok <==> |old(w.Written())| + |EncodeFields(tys, vs)| <= w.size
    ensures ok ==> w.Written() == old(w.Written()) + EncodeFields(tys, vs)
  {
    for i := 0 to |calls|
      invariant w.Valid() && w.OutsideUnchanged()
      invariant w.Written() + EncodeFields(tys[i..], vs[i..]) == old(w.Written()) + EncodeFields(tys, vs)
    {
      ghost var rest := EncodeFields(tys[i + 1..], vs[i + 1..]);
      assert tys[i..][1..] == tys[i + 1..] && vs[i..][1..] == vs[i + 1..];
      Regroup(w.Written(), EncodeValue(tys[i], vs[i]), rest);
      ok := RunWriteCall(w, calls[i], vs[i], tys[i]);
      if !ok { return; }
    }
    return true;
  }

  method RunWriteLoop(w: BufferWriter, body: seq<WriteCall>, items: seq<seq<Value>>, ghost tys: seq<Ty>) returns (ok: bool)
    requires w.Valid() && CallsWrite(body, tys) && forall i | 0 <= i < |items| :: HasTypes(items[i], tys)
    modifies w`pos, w.buffer
    ensures w.Valid() && w.OutsideUnchanged()
    ensures ok <==> |old(w.Written())| + |EncodeItems(tys, items)| <= w.size
    ensures ok ==> w.Written() == old(w.Written()) + EncodeItems(tys, items)
  {
    for i := 0 to |items|
      invariant w.Valid() && w.OutsideUnchanged()
      invariant w.Written() + EncodeItems(tys, items[i..]) == old(w.Written()) + EncodeItems(tys, items)
    {
      ghost var rest := EncodeItems(tys, items[i + 1..]);
      assert items[i..][1..] == items[i + 1..];
      Regroup(w.Written(), EncodeFields(tys, items[i]), rest);
      ok := RunWriteCalls(w, body, items[i], tys);
      if !ok { return; }
    }
    return true;
  }

  method RunWriteStmt(w: BufferWriter, st: WriteStmt, d: Datum, ghost part: Part) returns (ok: bool)
    requires w.Valid() && Typed(d, part) && StmtWrites(st, part)
    modifies w`pos, w.buffer
    ensures w.Valid() && w.OutsideUnchanged()
    ensures ok <==> |old(w.Written())| + |EncodePart(part, d)| <= w.size
    ensures ok ==> w.Written() == old(w.Written()) + EncodePart(part, d)
  {
    match st
    case WriteMember(call) => ok := RunWriteCall(w, call, d.v, part.ty);
    case WriteList(body) =>
      Regroup(w.Written(), U16Bytes(|d.items|), EncodeItems(part.elem, d.items));
      ok := w.Write(U16Bytes(|d.items|));
      if ok {
        ok := RunWriteLoop(w, body, d.items, part.elem);
      }
  }

  method RunWriter(w: BufferWriter, code: seq<WriteStmt>, data: seq<Datum>, ghost parts: seq<Part>) returns (ok: bool)
    requires w.Valid() && AllTyped(data, parts) && CodeWrites(code, parts)
    modifies w`pos, w.buffer
    ensures w.Valid() && w.OutsideUnchanged()
    ensures ok <==> |old(w.Written())| + |Encode(parts, data)| <= w.size
    ensures ok ==> w.Written() == old(w.Written()) + Encode(parts, data)
  {
    for i := 0 to |code|
      invariant w.Valid() && w.OutsideUnchanged()
      invariant w.Written() + Encode(parts[i..], data[i..]) == old(w.Written()) + Encode(parts, data)
    {
      ghost var rest := Encode(parts[i + 1..], data[i + 1..]);
      Regroup(w.Written(), EncodePart(parts[i], data[i]), rest);
      ok := RunWriteStmt(w, code[i], data[i], parts[i]);
      if !ok { return; }
    }
    return true;
  }

  /** Storing a header over the placeholder keeps the payload behind it. */
  lemma Patched(before: seq<byte>, after: seq<byte>, placeholder: seq<byte>, header: seq<byte>, payload: seq<byte>)
    requires before == placeholder + payload && |header| == |placeholder| && |after| == |before|
    requires after[..|header|] == header && forall i | |header| <= i < |after| :: after[i] == before[i]
    ensures after == header + payload
  {
  }

  method PatchHeader(w: BufferWriter, header: seq<byte>, ghost placeholder: seq<byte>, ghost payload: seq<byte>)
    requires w.Valid() && |header| == |placeholder| && w.Written() == placeholder + payload
    modifies w.buffer
    ensures w.OutsideUnchanged() && w.Written() == header + payload
  {
    ghost var before := w.Written();
    assert |header| <= w.pos;
    forall i | 0 <= i < |header| {
      w.buffer[w.start + i] := header[i];
    }
    assert w.Written()[..|header|] == header;
    Patched(before, w.Written(), placeholder, header, payload);
  }

  /** The header, then everything the writer code writes. */
  method WriteAll(w: BufferWriter, sc: Schema, code: seq<WriteStmt>, data: seq<Datum>) returns (ok: bool)
    requires w.Valid() && w.pos == 0 && w.size == MAX_PACKET && AllTyped(data, Layout(sc)) && CodeWrites(code, Layout(sc))
    modifies w`pos, w.buffer
    ensures w.Valid() && w.OutsideUnchanged()
    ensures ok <==> Fits(sc, data)
    ensures ok ==> w.Written() == U16Bytes(0) + U16Bytes(sc.id) + Encode(Layout(sc), data)
  {
    var placed := w.Write(U16Bytes(0) + U16Bytes(sc.id));
    ok := RunWriter(w, code, data, Layout(sc));
  }

  /** Header placeholder, payload, then the header once the size is known. */
  method FillPacket(w: BufferWriter, sc: Schema, code: seq<WriteStmt>, data: seq<Datum>) returns (ok: bool)
    requires w.Valid() && w.pos == 0 && w.size == MAX_PACKET && AllTyped(data, Layout(sc)) && CodeWrites(code, Layout(sc))
    modifies w`pos, w.buffer
    ensures w.Valid() && w.OutsideUnchanged()
    ensures ok <==> Fits(sc, data)
    ensures ok ==> w.Written() == PacketBytes(sc, data)
  {
    ok := WriteAll(w, sc, code, data);
    if ok {
      PatchHeader(w, U16Bytes(w.pos) + U16Bytes(sc.id), U16Bytes(0) + U16Bytes(sc.id), Encode(Layout(sc), data));
    }
  }

  /** Succeeds exactly when the packet fits in 4096 bytes; then the closed buffer holds the packet
      and every byte closed before it is unchanged.  A packet that does not fit leaves the chunk
      open, so the manager is not ready for the next `Open` of this thread. */
  method MakeSendBuffer(m: SendBufferManager, sc: Schema, data: seq<Datum>) returns (c: SendBufferChunk, start: nat, ok: bool)
    requires m.Ready() && AllTyped(data, Layout(sc))
    modifies m, if m.chunk == null then {} else {m.chunk, m.chunk.buffer}
    ensures m.chunk == c && c.Valid() && start <= c.usedSize
    ensures ok <==> Fits(sc, data)
    ensures ok <==> m.Ready()
    ensures ok ==> c.buffer[start..c.usedSize] == PacketBytes(sc, data)
    ensures c != old(m.chunk) ==> fresh(c) && fresh(c.buffer) && start == 0
    ensures c == old(m.chunk) ==> start == old(c.usedSize) && forall i | 0 <= i < start :: c.buffer[i] == old(c.buffer[i])
  {
    c, start := m.Open(MAX_PACKET);
    var w := new BufferWriter(c.buffer, start, MAX_PACKET);
    var readCode, writeCode := GeneratePacketStruct(sc);
    ok := FillPacket(w, sc, writeCode, data);
    if ok {
      c.Close(w.pos);
    }
  }

  // ----- Reading -------------------------------------------------------------------------------

  /** A parse result with values already read put in front. */
  function Prepend<T>(vs: seq<T>, p: Parsed<seq<T>>): Parsed<seq<T>> {
    match p case Bad => Bad case Got(ws, rest) => Got(vs + ws, rest)
  }

  lemma PrependNone<T>(p: Parsed<seq<T>>)
    ensures Prepend([], p) == p
  {
    if p.Got? { assert [] + p.value == p.value; }
  }

  lemma PrependTwice<T>(vs: seq<T>, v: T, p: Parsed<seq<T>>)
    ensures Prepend(vs + [v], p) == Prepend(vs, Prepend([v], p))
  {
    if p.Got? { assert vs + [v] + p.value == vs + ([v] + p.value); }
  }

  method RunReadCall(r: BufferReader, call: ReadCall, ghost ty: Ty) returns (ok: bool, v: Value)
    requires r.Valid() && r.isValid && CallReads(call, ty)
    modifies r
    ensures r.Valid() && r.isValid == ok
    ensures match DecodeValue(ty, old(r.Remaining()))
            case Bad => !ok
            case Got(u, rest) => ok && v == u && r.Remaining() == rest
  {
    v := Num(0);
    var bs;
    match call
    case ReadText =>
      ok, bs := r.ReadString();
      v := Str(bs);
    case ReadScalar(t) =>
      ok, bs := r.Read(Width(t));
      if ok { v := Num(FromLE(bs)); }
  }

  method RunReadCalls(r: BufferReader, calls: seq<ReadCall>, ghost tys: seq<Ty>) returns (ok: bool, vs: seq<Value>)
    requires r.Valid() && r.isValid && CallsRead(calls, tys)
    modifies r
    ensures r.Valid() && r.isValid == ok
    ensures match DecodeFields(tys, old(r.Remaining()))
            case Bad => !ok
            case Got(ws, rest) => ok && vs == ws && r.Remaining() == rest
  {
    vs := [];
    PrependNone(DecodeFields(tys, r.Remaining()));
    for i := 0 to |calls|
      invariant r.Valid() && r.isValid
      invariant DecodeFields(tys, old(r.Remaining())) == Prepend(vs, DecodeFields(tys[i..], r.Remaining()))
    {
      assert tys[i..][1..] == tys[i + 1..];
      var v;
      ok, v := RunReadCall(r, calls[i], tys[i]);
      if !ok { return; }
      PrependTwice(vs, v, DecodeFields(tys[i + 1..], r.Remaining()));
      vs := vs + [v];
    }
    return true, vs;
  }

  method RunReadLoop(r: BufferReader, body: seq<ReadCall>, n: nat, ghost tys: seq<Ty>) returns (ok: bool, items: seq<seq<Value>>)
    requires r.Valid() && r.isValid && CallsRead(body, tys)
    modifies r
    ensures r.Valid() && r.isValid == ok
    ensures match DecodeItems(tys, n, old(r.Remaining()))
            case Bad => !ok
            case Got(ws, rest) => ok && items == ws && r.Remaining() == rest
  {
    items := [];
    PrependNone(DecodeItems(tys, n, r.Remaining()));
    for i := 0 to n
      invariant r.Valid() && r.isValid
      invariant DecodeItems(tys, n, old(r.Remaining())) == Prepend(items, DecodeItems(tys, n - i, r.Remaining()))
    {
      var vs;
      ok, vs := RunReadCalls(r, body, tys);
      if !ok { return; }
      PrependTwice(items, vs, DecodeItems(tys, n - i - 1, r.Remaining()));
      items := items + [vs];
    }
    return true, items;
  }

  method RunReadStmt(r: BufferReader, st: ReadStmt, ghost part: Part) returns (ok: bool, d: Datum)
    requires r.Valid() && r.isValid && StmtReads(st, part)
    modifies r
    ensures r.Valid() && r.isValid == ok
    ensures match DecodePart(part, old(r.Remaining()))
            case Bad => !ok
            case Got(e, rest) => ok && d == e && r.Remaining() == rest
  {
    d := Many([]);
    match st
    case ReadMember(call) =>
      var v;
      ok, v := RunReadCall(r, call, part.ty);
      d := One(v);
    case ReadList(body) =>
      var bs, items;
      ok, bs := r.Read(2);
      if !ok { return; }
      ok, items := RunReadLoop(r, body, U16Value(bs), part.elem);
      d := Many(items);
  }

  method RunReader(r: BufferReader, code: seq<ReadStmt>, ghost parts: seq<Part>) returns (ok: bool, data: seq<Datum>)
    requires r.Valid() && r.isValid && CodeReads(code, parts)
    modifies r
    ensures r.Valid() && r.isValid == ok
    ensures match Decode(parts, old(r.Remaining()))
            case Bad => !ok
            case Got(e, rest) => ok && data == e && r.Remaining() == rest
  {
    data := [];
    PrependNone(Decode(parts, r.Remaining()));
    for i := 0 to |code|
      invariant r.Valid() && r.isValid
      invariant Decode(parts, old(r.Remaining())) == Prepend(data, Decode(parts[i..], r.Remaining()))
    {
      var d;
      ok, d := RunReadStmt(r, code[i], parts[i]);
      if !ok { return; }
      PrependTwice(data, d, Decode(parts[i + 1..], r.Remaining()));
      data := data + [d];
    }
    return r.isValid, data;
  }

  /** `HandlePacket` and the `Read` it dispatches to: never past the given bytes, and exactly
      `DecodePacket`. */
  method ReadPacket(sc: Schema, buffer: seq<byte>) returns (ok: bool, data: seq<Datum>)
    ensures match DecodePacket(sc, buffer)
            case Bad => !ok
            case Got(e, _) => ok && data == e
    ensures ok ==> |buffer| >= 4 && HasShape(sc, data) && Payload(sc, data) <= buffer[4..]
  {
    if DecodePacket(sc, buffer).Got? { ReadsMembersThenLists(sc, buffer); }
    var r := new BufferReader(buffer, 0);
    var header;
    data := [];
    ok, header := r.Read(HEADER_SIZE);
    if ok {
      var readCode, writeCode := GeneratePacketStruct(sc);
      ok, data := RunReader(r, readCode, Layout(sc));
    }
  }
}
