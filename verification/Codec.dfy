/** The packet generator: a schema is data, `GeneratePacketStruct` turns it into the code of a reader and
    the code of a writer, and `Encode` and `Decode` are what that code is meant to do.  `Packets`
    runs it. */
module Codec {
  import opened Bytes

  const HEADER_SIZE: nat := 4
  const MAX_PACKET: nat := 4096

  // ----- Schemas and the generator -------------------------------------------------------------

  datatype Ty = Bool | Int8 | Int16 | Int32 | Int64 | UInt8 | UInt16 | UInt32 | UInt64 | Float | Double | Text

  /** `sizeof` of a scalar member. */
  function Width(ty: Ty): (w: nat)
    ensures !ty.Text? ==> w >= 1
  {
    match ty
    case Bool => 1
    case Int8 => 1
    case UInt8 => 1
    case Int16 => 2
    case UInt16 => 2
    case Int32 => 4
    case UInt32 => 4
    case Float => 4
    case Int64 => 8
    case UInt64 => 8
    case Double => 8
    case Text => 0
  }

  datatype Schema = Schema(id: nat, members: seq<Ty>, lists: seq<seq<Ty>>)

  /** One part of a packet on the wire: a member, or a list with the members of its elements. */
  datatype Part = Field(ty: Ty) | ListOf(elem: seq<Ty>)

  /** Members first, then lists, each in schema order. */
  function Layout(sc: Schema): seq<Part> {
    seq(|sc.members|, i requires 0 <= i < |sc.members| => Field(sc.members[i]))
    + seq(|sc.lists|, i requires 0 <= i < |sc.lists| => ListOf(sc.lists[i]))
  }

  /** The emitted calls: `Read` and `Write` are templates over the declared type of the variable. */
  datatype ReadCall = ReadScalar(ty: Ty) | ReadText

  datatype WriteCall = WriteScalar(ty: Ty) | WriteText

  /** The emitted statements: one call, or a 16-bit count and a loop over the elements. */
  datatype ReadStmt = ReadMember(call: ReadCall) | ReadList(body: seq<ReadCall>)

  datatype WriteStmt = WriteMember(call: WriteCall) | WriteList(body: seq<WriteCall>)

  predicate CallReads(call: ReadCall, ty: Ty) { if ty.Text? then call.ReadText? else call == ReadScalar(ty) }

  predicate CallWrites(call: WriteCall, ty: Ty) { if ty.Text? then call.WriteText? else call == WriteScalar(ty) }

  predicate CallsRead(calls: seq<ReadCall>, tys: seq<Ty>) {
    |calls| == |tys| && forall i | 0 <= i < |calls| :: CallReads(calls[i], tys[i])
  }

  predicate CallsWrite(calls: seq<WriteCall>, tys: seq<Ty>) {
    |calls| == |tys| && forall i | 0 <= i < |calls| :: CallWrites(calls[i], tys[i])
  }

  predicate StmtReads(st: ReadStmt, part: Part) {
    match part
    case Field(ty) => st.ReadMember? && CallReads(st.call, ty)
    case ListOf(tys) => st.ReadList? && CallsRead(st.body, tys)
  }

  predicate StmtWrites(st: WriteStmt, part: Part) {
    match part
    case Field(ty) => st.WriteMember? && CallWrites(st.call, ty)
    case ListOf(tys) => st.WriteList? && CallsWrite(st.body, tys)
  }

  /** The code has one statement for each part, in order. */
  predicate CodeReads(code: seq<ReadStmt>, parts: seq<Part>) {
    |code| == |parts| && forall i | 0 <= i < |code| :: StmtReads(code[i], parts[i])
  }

  predicate CodeWrites(code: seq<WriteStmt>, parts: seq<Part>) {
    |code| == |parts| && forall i | 0 <= i < |code| :: StmtWrites(code[i], parts[i])
  }

  method EmitReads(tys: seq<Ty>) returns (calls: seq<ReadCall>)
    ensures CallsRead(calls, tys)
  {
    calls := [];
    for i := 0 to |tys|
      invariant CallsRead(calls, tys[..i])
    {
      if tys[i] == Text {
        calls := calls + [ReadText];
      } else {
        calls := calls + [ReadScalar(tys[i])];
      }
    }
  }

  method EmitWrites(tys: seq<Ty>) returns (calls: seq<WriteCall>)
    ensures CallsWrite(calls, tys)
  {
    calls := [];
    for i := 0 to |tys|
      invariant CallsWrite(calls, tys[..i])
    {
      if tys[i] == Text {
        calls := calls + [WriteText];
      } else {
        calls := calls + [WriteScalar(tys[i])];
      }
    }
  }

  /** The two halves of the generated struct come from separate loops over the schema, through separate
      templates; both follow the layout part by part. */
  method GeneratePacketStruct(sc: Schema) returns (readCode: seq<ReadStmt>, writeCode: seq<WriteStmt>)
    ensures CodeReads(readCode, Layout(sc)) && CodeWrites(writeCode, Layout(sc))
  {
    readCode := EmitReadCode(sc);
    writeCode := EmitWriteCode(sc);
  }

  method EmitReadCode(sc: Schema) returns (code: seq<ReadStmt>)
    ensures CodeReads(code, Layout(sc))
  {
    code := [];
    for i := 0 to |sc.members|
      invariant CodeReads(code, Layout(sc)[..i])
    {
      if sc.members[i] == Text {
        code := code + [ReadMember(ReadText)];
      } else {
        code := code + [ReadMember(ReadScalar(sc.members[i]))];
      }
    }
    for i := 0 to |sc.lists|
      invariant CodeReads(code, Layout(sc)[..|sc.members| + i])
    {
      var body := EmitReads(sc.lists[i]);
      code := code + [ReadList(body)];
    }
  }

  method EmitWriteCode(sc: Schema) returns (code: seq<WriteStmt>)
    ensures CodeWrites(code, Layout(sc))
  {
    code := [];
    for i := 0 to |sc.members|
      invariant CodeWrites(code, Layout(sc)[..i])
    {
      if sc.members[i] == Text {
        code := code + [WriteMember(WriteText)];
      } else {
        code := code + [WriteMember(WriteScalar(sc.members[i]))];
      }
    }
    for i := 0 to |sc.lists|
      invariant CodeWrites(code, Layout(sc)[..|sc.members| + i])
    {
      var body := EmitWrites(sc.lists[i]);
      code := code + [WriteList(body)];
    }
  }

  // ----- Values --------------------------------------------------------------------------------

  /** A scalar is its object representation read as a little-endian number, which is what `memcpy`
      moves; a string is its bytes. */
  datatype Value = Num(n: nat) | Str(s: seq<byte>)

  /** The value of one part: a member, or the elements of a list. */
  datatype Datum = One(v: Value) | Many(items: seq<seq<Value>>)

  predicate HasType(v: Value, ty: Ty) {
    if ty.Text? then v.Str? else v.Num? && v.n < Pow256(Width(ty))
  }

  predicate HasTypes(vs: seq<Value>, tys: seq<Ty>) {
    |vs| == |tys| && forall i | 0 <= i < |vs| :: HasType(vs[i], tys[i])
  }

  predicate Typed(d: Datum, part: Part) {
    match part
    case Field(ty) => d.One? && HasType(d.v, ty)
    case ListOf(tys) => d.Many? && forall i | 0 <= i < |d.items| :: HasTypes(d.items[i], tys)
  }

  predicate AllTyped(data: seq<Datum>, parts: seq<Part>) {
    |data| == |parts| && forall i | 0 <= i < |data| :: Typed(data[i], parts[i])
  }

  /** No length or count loses bits when it is cast to `uint16`. */
  predicate ShortText(v: Value) { v.Str? ==> |v.s| < U16 }

  predicate ShortTexts(vs: seq<Value>) { forall i | 0 <= i < |vs| :: ShortText(vs[i]) }

  predicate Short(d: Datum) {
    match d
    case One(v) => ShortText(v)
    case Many(items) => |items| < U16 && forall i | 0 <= i < |items| :: ShortTexts(items[i])
  }

  predicate AllShort(data: seq<Datum>) { forall i | 0 <= i < |data| :: Short(data[i]) }

  // ----- What the generated writer puts into the buffer ------------------------------------------

  function EncodeValue(ty: Ty, v: Value): seq<byte>
    requires HasType(v, ty)
  {
    if ty.Text? then U16Bytes(|v.s|) + v.s[..|v.s| % U16] else ToLE(v.n, Width(ty))
  }

  function EncodeFields(tys: seq<Ty>, vs: seq<Value>): seq<byte>
    requires HasTypes(vs, tys)
  {
    if tys == [] then [] else EncodeValue(tys[0], vs[0]) + EncodeFields(tys[1..], vs[1..])
  }

  function EncodeItems(tys: seq<Ty>, items: seq<seq<Value>>): seq<byte>
    requires forall i | 0 <= i < |items| :: HasTypes(items[i], tys)
  {
    if items == [] then [] else EncodeFields(tys, items[0]) + EncodeItems(tys, items[1..])
  }

  function EncodePart(part: Part, d: Datum): seq<byte>
    requires Typed(d, part)
  {
    match part
    case Field(ty) => EncodeValue(ty, d.v)
    case ListOf(tys) => U16Bytes(|d.items|) + EncodeItems(tys, d.items)
  }

  function Encode(parts: seq<Part>, data: seq<Datum>): seq<byte>
    requires AllTyped(data, parts)
  {
    if parts == [] then [] else EncodePart(parts[0], data[0]) + Encode(parts[1..], data[1..])
  }

  // ----- What the generated reader makes of the remaining bytes -----------------------------------

  datatype Parsed<T> = Bad | Got(value: T, rest: seq<byte>)

  function DecodeValue(ty: Ty, bs: seq<byte>): Parsed<Value> {
    if ty.Text? then
      if |bs| < 2 then Bad else
        var len := U16Value(bs[..2]);
        if |bs| - 2 < len then Bad else Got(Str(bs[2..2 + len]), bs[2 + len..])
    else if |bs| < Width(ty) then Bad
    else Got(Num(FromLE(bs[..Width(ty)])), bs[Width(ty)..])
  }

  function DecodeFields(tys: seq<Ty>, bs: seq<byte>): Parsed<seq<Value>> {
    if tys == [] then Got([], bs) else
      match DecodeValue(tys[0], bs)
      case Bad => Bad
      case Got(v, rest) =>
        match DecodeFields(tys[1..], rest)
        case Bad => Bad
        case Got(vs, rest') => Got([v] + vs, rest')
  }

  function DecodeItems(tys: seq<Ty>, n: nat, bs: seq<byte>): Parsed<seq<seq<Value>>> {
    if n == 0 then Got([], bs) else
      match DecodeFields(tys, bs)
      case Bad => Bad
      case Got(vs, rest) =>
        match DecodeItems(tys, n - 1, rest)
        case Bad => Bad
        case Got(items, rest') => Got([vs] + items, rest')
  }

  function DecodePart(part: Part, bs: seq<byte>): Parsed<Datum> {
    match part
    case Field(ty) =>
      (match DecodeValue(ty, bs) case Bad => Bad case Got(v, rest) => Got(One(v), rest))
    case ListOf(tys) =>
      if |bs| < 2 then Bad else
        match DecodeItems(tys, U16Value(bs[..2]), bs[2..])
        case Bad => Bad
        case Got(items, rest) => Got(Many(items), rest)
  }

  function Decode(parts: seq<Part>, bs: seq<byte>): Parsed<seq<Datum>> {
    if parts == [] then Got([], bs) else
      match DecodePart(parts[0], bs)
      case Bad => Bad
      case Got(d, rest) =>
        match Decode(parts[1..], rest)
        case Bad => Bad
        case Got(data, rest') => Got([d] + data, rest')
  }

  // ----- Reading back what was written, and writing back what was read ----------------------------

  lemma {:induction false} RoundTrip(parts: seq<Part>, data: seq<Datum>, tail: seq<byte>)
    requires AllTyped(data, parts) && AllShort(data)
    ensures Decode(parts, Encode(parts, data) + tail) == Got(data, tail)
  {
    if parts != [] {
      var more := Encode(parts[1..], data[1..]) + tail;
      EncodeFirst(parts, data, tail);
      PartRoundTrip(parts[0], data[0], more);
      RoundTrip(parts[1..], data[1..], tail);
      DecodeStep(parts, EncodePart(parts[0], data[0]) + more, data[0], more, data[1..], tail);
      assert [data[0]] + data[1..] == data;
    }
  }

  /** Whatever the reader accepts, re-encoding the value reproduces exactly the bytes consumed, so
      no two byte strings decode to the same value; and nothing it returns needed more than 16
      bits of length. */
  lemma {:induction false} Canonical(parts: seq<Part>, bs: seq<byte>)
    requires Decode(parts, bs).Got?
    ensures var g := Decode(parts, bs);
            && AllTyped(g.value, parts)
            && AllShort(g.value)
            && Encode(parts, g.value) + g.rest == bs
  {
    if parts != [] {
      PartCanonical(parts[0], bs);
      var d := DecodePart(parts[0], bs);
      Canonical(parts[1..], d.rest);
      var w := Decode(parts[1..], d.rest);
      var data := [d.value] + w.value;
      assert Decode(parts, bs) == Got(data, w.rest) && data[1..] == w.value;
      Regroup(EncodePart(parts[0], d.value), Encode(parts[1..], w.value), w.rest);
    }
  }

  /** The exact condition of the round trip: the value comes back if and only if no string length
      and no list count was cut to 16 bits. */
  lemma RoundTripExactlyWhenShort(parts: seq<Part>, data: seq<Datum>, tail: seq<byte>)
    requires AllTyped(data, parts)
    ensures Decode(parts, Encode(parts, data) + tail) == Got(data, tail) <==> AllShort(data)
  {
    if AllShort(data) {
      RoundTrip(parts, data, tail);
    } else if Decode(parts, Encode(parts, data) + tail).Got? {
      Canonical(parts, Encode(parts, data) + tail);
    }
  }

  // ----- What is on the wire ----------------------------------------------------------------------

  /** A scalar takes the bytes of its type, the least significant first; a text its 16-bit length and its
      bytes. */
  lemma ValuesOnTheWire(ty: Ty, v: Value)
    requires HasType(v, ty)
    ensures ty in {Bool, Int8, UInt8} ==> |EncodeValue(ty, v)| == 1
    ensures ty in {Int16, UInt16} ==> |EncodeValue(ty, v)| == 2
    ensures ty in {Int32, UInt32, Float} ==> |EncodeValue(ty, v)| == 4
    ensures ty in {Int64, UInt64, Double} ==> |EncodeValue(ty, v)| == 8
    ensures !ty.Text? ==> FromLE(EncodeValue(ty, v)) == v.n
    ensures ty.Text? && |v.s| < 65536 ==> EncodeValue(ty, v) == [(|v.s| % 256) as byte, (|v.s| / 256) as byte] + v.s
  {
    if !ty.Text? { FromToLE(v.n, Width(ty)); } else if |v.s| < 65536 { assert v.s[..|v.s|] == v.s; }
  }

  /** One datum for each member and then one for each list. */
  predicate HasShape(sc: Schema, data: seq<Datum>) {
    var n := |sc.members|;
    && |data| == n + |sc.lists|
    && (forall i | 0 <= i < n :: data[i].One? && HasType(data[i].v, sc.members[i]))
    && (forall i | 0 <= i < |sc.lists| :: Typed(data[n + i], ListOf(sc.lists[i])))
  }

  function MemberValues(sc: Schema, data: seq<Datum>): seq<Value>
    requires HasShape(sc, data)
  {
    seq(|sc.members|, i requires 0 <= i < |sc.members| && HasShape(sc, data) => data[i].v)
  }

  /** Each list is its 16-bit count and its elements. */
  function ListBytes(lists: seq<seq<Ty>>, data: seq<Datum>): seq<byte>
    requires |lists| == |data| && forall i | 0 <= i < |lists| :: Typed(data[i], ListOf(lists[i]))
  {
    if lists == [] then [] else
      assert Typed(data[0], ListOf(lists[0]));
      U16Bytes(|data[0].items|) + EncodeItems(lists[0], data[0].items) + ListBytes(lists[1..], data[1..])
  }

  function Payload(sc: Schema, data: seq<Datum>): seq<byte>
    requires HasShape(sc, data)
  {
    EncodeFields(sc.members, MemberValues(sc, data)) + ListBytes(sc.lists, data[|sc.members|..])
  }

  /** For every schema: the values that fit it are one for each member and then one for each list, and
      behind the header a packet holds the members in schema order, then list by list the 16-bit count
      and the elements. */
  lemma MembersThenLists(sc: Schema, data: seq<Datum>)
    ensures AllTyped(data, Layout(sc)) <==> HasShape(sc, data)
    ensures HasShape(sc, data) ==> PacketBytes(sc, data)[4..] == Payload(sc, data)
  {
    ShapeIsLayout(sc, data);
    if HasShape(sc, data) {
      PayloadIsEncoded(sc, data);
      assert PacketBytes(sc, data)[4..] == Encode(Layout(sc), data);
    }
  }

  /** What the reader returns is what the packet holds in that order, from the header on. */
  lemma ReadsMembersThenLists(sc: Schema, p: seq<byte>)
    requires DecodePacket(sc, p).Got?
    ensures |p| >= 4 && HasShape(sc, DecodePacket(sc, p).value)
    ensures p[4..] == Payload(sc, DecodePacket(sc, p).value) + DecodePacket(sc, p).rest
  {
    Canonical(Layout(sc), p[4..]);
    MembersThenLists(sc, DecodePacket(sc, p).value);
  }

  /** Members are written in schema order. */
  lemma {:induction false} FieldsInOrder(tys: seq<Ty>, vs: seq<Value>, ty: Ty, v: Value)
    requires HasTypes(vs, tys) && HasType(v, ty)
    ensures HasTypes(vs + [v], tys + [ty])
    ensures EncodeFields(tys + [ty], vs + [v]) == EncodeFields(tys, vs) + EncodeValue(ty, v)
  {
    if tys == [] {
      assert [ty][1..] == [] && tys + [ty] == [ty] && vs + [v] == [v];
    } else {
      assert (tys + [ty])[1..] == tys[1..] + [ty] && (vs + [v])[1..] == vs[1..] + [v];
      FieldsInOrder(tys[1..], vs[1..], ty, v);
      Regroup(EncodeValue(tys[0], vs[0]), EncodeFields(tys[1..], vs[1..]), EncodeValue(ty, v));
    }
  }

  /** Elements are written in list order. */
  lemma {:induction false} ItemsInOrder(tys: seq<Ty>, items: seq<seq<Value>>, item: seq<Value>)
    requires HasTypes(item, tys) && forall i | 0 <= i < |items| :: HasTypes(items[i], tys)
    ensures EncodeItems(tys, items + [item]) == EncodeItems(tys, items) + EncodeFields(tys, item)
  {
    if items == [] {
      assert [item][1..] == [] && items + [item] == [item];
    } else {
      assert (items + [item])[1..] == items[1..] + [item];
      ItemsInOrder(tys, items[1..], item);
      Regroup(EncodeFields(tys, items[0]), EncodeItems(tys, items[1..]), EncodeFields(tys, item));
    }
  }

  // ----- Packets that fit are packets that survive ------------------------------------------------

  predicate NoEmptyElements(parts: seq<Part>) { forall i | 0 <= i < |parts| :: parts[i].ListOf? ==> parts[i].elem != [] }

  predicate TextsShort(data: seq<Datum>) {
    forall i | 0 <= i < |data| :: match data[i]
      case One(v) => ShortText(v)
      case Many(items) => forall k | 0 <= k < |items| :: ShortTexts(items[k])
  }

  /** A payload of at most 4092 bytes cannot hold a truncated list count, provided list elements
      are not empty. */
  lemma FittingListsAreShort(parts: seq<Part>, data: seq<Datum>)
    requires AllTyped(data, parts) && NoEmptyElements(parts) && TextsShort(data)
    requires HEADER_SIZE + |Encode(parts, data)| <= MAX_PACKET
    ensures AllShort(data)
  {
    forall i | 0 <= i < |data| ensures Short(data[i]) {
      PartTakesSpace(parts, data, i);
      if parts[i].ListOf? {
        ItemsTakeSpace(parts[i].elem, data[i].items);
      }
    }
  }

  /** The whole packet: header with size and id, then the payload. */
  function PacketBytes(sc: Schema, data: seq<Datum>): seq<byte>
    requires AllTyped(data, Layout(sc))
  {
    var payload := Encode(Layout(sc), data);
    U16Bytes(HEADER_SIZE + |payload|) + U16Bytes(sc.id) + payload
  }

  predicate Fits(sc: Schema, data: seq<Datum>)
    requires AllTyped(data, Layout(sc))
  {
    HEADER_SIZE + |Encode(Layout(sc), data)| <= MAX_PACKET
  }

  /** The size field of a packet holds its length. */
  predicate WellFramed(p: seq<byte>) { |p| >= HEADER_SIZE && U16Value(p[..2]) == |p| }

  function PacketId(p: seq<byte>): nat
    requires |p| >= HEADER_SIZE
  {
    U16Value(p[2..4])
  }

  /** `HandlePacket` skips the header and hands the rest to the reader of the packet. */
  function DecodePacket(sc: Schema, p: seq<byte>): Parsed<seq<Datum>> {
    if |p| < HEADER_SIZE then Bad else Decode(Layout(sc), p[HEADER_SIZE..])
  }

  /** Every packet that fits carries its exact size and id, and the generated reader returns the
      original value after consuming exactly `size` bytes. */
  lemma PacketSurvives(sc: Schema, data: seq<Datum>)
    requires AllTyped(data, Layout(sc)) && NoEmptyElements(Layout(sc)) && TextsShort(data)
    requires Fits(sc, data) && sc.id < U16
    ensures WellFramed(PacketBytes(sc, data)) && PacketId(PacketBytes(sc, data)) == sc.id
    ensures var p := PacketBytes(sc, data);
            |p| >= 4 && p[0] as nat + 256 * p[1] as nat == |p| && p[2] as nat + 256 * p[3] as nat == sc.id
    ensures DecodePacket(sc, PacketBytes(sc, data)) == Got(data, [])
  {
    var payload := Encode(Layout(sc), data);
    HeaderOf(HEADER_SIZE + |payload|, sc.id, payload);
    PayloadSurvives(Layout(sc), data);
  }

  /** A packet of one string fits if and only if at most 4090 bytes of it are written: with 4091 bytes
      it does not. */
  lemma TextPacketFits(id: nat, s: seq<byte>)
    ensures Layout(Schema(id, [Text], [])) == [Field(Text)]
    ensures Fits(Schema(id, [Text], []), [One(Str(s))]) <==> |s| % U16 <= 4090
    ensures |s| == 4091 ==> !Fits(Schema(id, [Text], []), [One(Str(s))])
  {
    var parts := [Field(Text)];
    assert parts[1..] == [];
    assert |Encode(parts, [One(Str(s))])| == 2 + |s| % U16;
  }

  /** A string of 65536 bytes is written as an empty string. */
  lemma LongTextIsLost(s: seq<byte>)
    requires |s| == U16
    ensures Decode([Field(Text)], Encode([Field(Text)], [One(Str(s))])) == Got([One(Str([]))], [])
  {
    var empty := [One(Str([]))];
    assert Encode([Field(Text)], [One(Str(s))]) == Encode([Field(Text)], empty) + [];
    RoundTrip([Field(Text)], empty, []);
  }

  // ----- Proof: reading back ----------------------------------------------------------------------

  lemma TextRoundTrip(v: Value, tail: seq<byte>)
    requires v.Str? && |v.s| < U16
    ensures DecodeValue(Text, EncodeValue(Text, v) + tail) == Got(v, tail)
  {
    var n := |v.s|;
    var bs := EncodeValue(Text, v) + tail;
    U16RoundTrip(n);
    assert v.s[..n] == v.s;
    assert bs == U16Bytes(n) + v.s + tail;
    assert bs[..2] == U16Bytes(n);
    assert bs[2..2 + n] == v.s && bs[2 + n..] == tail;
  }

  lemma ValueRoundTrip(ty: Ty, v: Value, tail: seq<byte>)
    requires HasType(v, ty) && ShortText(v)
    ensures DecodeValue(ty, EncodeValue(ty, v) + tail) == Got(v, tail)
  {
    if ty.Text? {
      TextRoundTrip(v, tail);
    } else {
      var bs := EncodeValue(ty, v) + tail;
      FromToLE(v.n, Width(ty));
      assert bs[..Width(ty)] == ToLE(v.n, Width(ty)) && bs[Width(ty)..] == tail;
    }
  }

  lemma {:induction false} FieldsRoundTrip(tys: seq<Ty>, vs: seq<Value>, tail: seq<byte>)
    requires HasTypes(vs, tys) && ShortTexts(vs)
    ensures DecodeFields(tys, EncodeFields(tys, vs) + tail) == Got(vs, tail)
  {
    if tys != [] {
      var first, more := EncodeValue(tys[0], vs[0]), EncodeFields(tys[1..], vs[1..]) + tail;
      Regroup(first, EncodeFields(tys[1..], vs[1..]), tail);
      ValueRoundTrip(tys[0], vs[0], more);
      FieldsRoundTrip(tys[1..], vs[1..], tail);
      assert [vs[0]] + vs[1..] == vs;
    }
  }

  lemma {:induction false} ItemsRoundTrip(tys: seq<Ty>, items: seq<seq<Value>>, tail: seq<byte>)
    requires forall i | 0 <= i < |items| :: HasTypes(items[i], tys) && ShortTexts(items[i])
    ensures DecodeItems(tys, |items|, EncodeItems(tys, items) + tail) == Got(items, tail)
  {
    if items != [] {
      var more := EncodeItems(tys, items[1..]) + tail;
      Regroup(EncodeFields(tys, items[0]), EncodeItems(tys, items[1..]), tail);
      FieldsRoundTrip(tys, items[0], more);
      ItemsRoundTrip(tys, items[1..], tail);
      assert [items[0]] + items[1..] == items;
    }
  }

  lemma ListRoundTrip(tys: seq<Ty>, items: seq<seq<Value>>, tail: seq<byte>)
    requires |items| < U16 && forall i | 0 <= i < |items| :: HasTypes(items[i], tys) && ShortTexts(items[i])
    ensures DecodePart(ListOf(tys), U16Bytes(|items|) + (EncodeItems(tys, items) + tail)) == Got(Many(items), tail)
  {
    var count, more := U16Bytes(|items|), EncodeItems(tys, items) + tail;
    assert U16Value(count) == |items| by { U16RoundTrip(|items|); }
    ItemsRoundTrip(tys, items, tail);
  }

  lemma PartRoundTrip(part: Part, d: Datum, tail: seq<byte>)
    requires Typed(d, part) && Short(d)
    ensures DecodePart(part, EncodePart(part, d) + tail) == Got(d, tail)
  {
    match part
    case Field(ty) => ValueRoundTrip(ty, d.v, tail);
    case ListOf(tys) =>
      Regroup(U16Bytes(|d.items|), EncodeItems(tys, d.items), tail);
      ListRoundTrip(tys, d.items, tail);
  }

  lemma DecodeStep(parts: seq<Part>, bs: seq<byte>, d: Datum, rest: seq<byte>, data: seq<Datum>, tail: seq<byte>)
    requires parts != [] && DecodePart(parts[0], bs) == Got(d, rest) && Decode(parts[1..], rest) == Got(data, tail)
    ensures Decode(parts, bs) == Got([d] + data, tail)
  {
  }

  lemma EncodeFirst(parts: seq<Part>, data: seq<Datum>, tail: seq<byte>)
    requires parts != [] && AllTyped(data, parts)
    ensures Encode(parts, data) + tail == EncodePart(parts[0], data[0]) + (Encode(parts[1..], data[1..]) + tail)
  {
    Regroup(EncodePart(parts[0], data[0]), Encode(parts[1..], data[1..]), tail);
  }

  // ----- Proof: writing back ----------------------------------------------------------------------

  lemma TextCanonical(bs: seq<byte>)
    requires DecodeValue(Text, bs).Got?
    ensures var g := DecodeValue(Text, bs);
            HasType(g.value, Text) && ShortText(g.value) && EncodeValue(Text, g.value) + g.rest == bs
  {
    U16Canonical(bs[..2]);
    var len := U16Value(bs[..2]);
    var s := bs[2..2 + len];
    assert s[..len] == s;
    assert EncodeValue(Text, Str(s)) == bs[..2] + s;
    assert bs == bs[..2] + s + bs[2 + len..];
  }

  lemma ValueCanonical(ty: Ty, bs: seq<byte>)
    requires DecodeValue(ty, bs).Got?
    ensures var g := DecodeValue(ty, bs);
            HasType(g.value, ty) && ShortText(g.value) && EncodeValue(ty, g.value) + g.rest == bs
  {
    if ty.Text? {
      TextCanonical(bs);
    } else {
      ToFromLE(bs[..Width(ty)]);
      assert bs == bs[..Width(ty)] + bs[Width(ty)..];
    }
  }

  lemma {:induction false} FieldsCanonical(tys: seq<Ty>, bs: seq<byte>)
    requires DecodeFields(tys, bs).Got?
    ensures var g := DecodeFields(tys, bs);
            && HasTypes(g.value, tys)
            && ShortTexts(g.value)
            && EncodeFields(tys, g.value) + g.rest == bs
  {
    if tys != [] {
      ValueCanonical(tys[0], bs);
      var v := DecodeValue(tys[0], bs);
      FieldsCanonical(tys[1..], v.rest);
      var w := DecodeFields(tys[1..], v.rest);
      var vs := [v.value] + w.value;
      assert DecodeFields(tys, bs) == Got(vs, w.rest) && vs[1..] == w.value;
      Regroup(EncodeValue(tys[0], v.value), EncodeFields(tys[1..], w.value), w.rest);
    }
  }

  lemma {:induction false} ItemsCanonical(tys: seq<Ty>, n: nat, bs: seq<byte>)
    requires DecodeItems(tys, n, bs).Got?
    ensures var g := DecodeItems(tys, n, bs);
            && |g.value| == n
            && (forall i | 0 <= i < |g.value| :: HasTypes(g.value[i], tys) && ShortTexts(g.value[i]))
            && EncodeItems(tys, g.value) + g.rest == bs
  {
    if n > 0 {
      FieldsCanonical(tys, bs);
      var v := DecodeFields(tys, bs);
      ItemsCanonical(tys, n - 1, v.rest);
      var w := DecodeItems(tys, n - 1, v.rest);
      var items := [v.value] + w.value;
      assert DecodeItems(tys, n, bs) == Got(items, w.rest) && items[1..] == w.value;
      Regroup(EncodeFields(tys, v.value), EncodeItems(tys, w.value), w.rest);
    }
  }

  lemma PartCanonical(part: Part, bs: seq<byte>)
    requires DecodePart(part, bs).Got?
    ensures var g := DecodePart(part, bs);
            && Typed(g.value, part)
            && Short(g.value)
            && EncodePart(part, g.value) + g.rest == bs
  {
    match part
    case Field(ty) => ValueCanonical(ty, bs);
    case ListOf(tys) =>
      var n := U16Value(bs[..2]);
      U16Canonical(bs[..2]);
      ItemsCanonical(tys, n, bs[2..]);
      var items := DecodeItems(tys, n, bs[2..]);
      Regroup(bs[..2], EncodeItems(tys, items.value), items.rest);
      assert bs == bs[..2] + bs[2..];
  }

  // ----- Proof: sizes and layout ------------------------------------------------------------------

  lemma {:induction false} ItemsTakeSpace(tys: seq<Ty>, items: seq<seq<Value>>)
    requires tys != [] && forall i | 0 <= i < |items| :: HasTypes(items[i], tys)
    ensures |EncodeItems(tys, items)| >= |items|
  {
    if items != [] {
      assert |EncodeValue(tys[0], items[0][0])| >= 1;
      ItemsTakeSpace(tys, items[1..]);
    }
  }

  lemma {:induction false} PartTakesSpace(parts: seq<Part>, data: seq<Datum>, k: nat)
    requires AllTyped(data, parts) && k < |parts|
    ensures |EncodePart(parts[k], data[k])| <= |Encode(parts, data)|
  {
    if k > 0 {
      PartTakesSpace(parts[1..], data[1..], k - 1);
    }
  }

  lemma HeaderOf(size: nat, id: nat, payload: seq<byte>)
    requires size == HEADER_SIZE + |payload| < U16 && id < U16
    ensures var p := U16Bytes(size) + U16Bytes(id) + payload;
            WellFramed(p) && PacketId(p) == id && p[HEADER_SIZE..] == payload
  {
    U16RoundTrip(size);
    U16RoundTrip(id);
    var p := U16Bytes(size) + U16Bytes(id) + payload;
    assert p[..2] == U16Bytes(size) && p[2..4] == U16Bytes(id);
  }

  lemma PayloadSurvives(parts: seq<Part>, data: seq<Datum>)
    requires AllTyped(data, parts) && NoEmptyElements(parts) && TextsShort(data)
    requires HEADER_SIZE + |Encode(parts, data)| <= MAX_PACKET
    ensures Decode(parts, Encode(parts, data)) == Got(data, [])
  {
    FittingListsAreShort(parts, data);
    RoundTrip(parts, data, []);
    assert Encode(parts, data) + [] == Encode(parts, data);
  }

  /** The parts before `n` and those from there on. */
  lemma {:induction false} EncodeCut(parts: seq<Part>, data: seq<Datum>, n: nat)
    requires AllTyped(data, parts) && n <= |parts|
    ensures Encode(parts, data) == Encode(parts[..n], data[..n]) + Encode(parts[n..], data[n..])
  {
    if n == 0 {
      assert parts[0..] == parts && data[0..] == data;
    } else {
      EncodeCut(parts[1..], data[1..], n - 1);
      assert parts[..n][1..] == parts[1..][..n - 1] && data[..n][1..] == data[1..][..n - 1];
      assert parts[1..][n - 1..] == parts[n..] && data[1..][n - 1..] == data[n..];
      Regroup(EncodePart(parts[0], data[0]), Encode(parts[1..][..n - 1], data[1..][..n - 1]), Encode(parts[n..], data[n..]));
    }
  }

  lemma {:induction false} EncodeMembers(parts: seq<Part>, tys: seq<Ty>, data: seq<Datum>, vs: seq<Value>)
    requires |parts| == |tys| && forall i | 0 <= i < |tys| :: parts[i] == Field(tys[i])
    requires |data| == |vs| && forall i | 0 <= i < |vs| :: data[i] == One(vs[i])
    requires HasTypes(vs, tys)
    ensures AllTyped(data, parts) && Encode(parts, data) == EncodeFields(tys, vs)
  {
    if parts != [] { EncodeMembers(parts[1..], tys[1..], data[1..], vs[1..]); }
  }

  lemma {:induction false} EncodeLists(parts: seq<Part>, lists: seq<seq<Ty>>, data: seq<Datum>)
    requires |parts| == |lists| == |data|
    requires forall i | 0 <= i < |lists| :: parts[i] == ListOf(lists[i]) && Typed(data[i], ListOf(lists[i]))
    ensures AllTyped(data, parts) && Encode(parts, data) == ListBytes(lists, data)
  {
    if parts != [] { EncodeLists(parts[1..], lists[1..], data[1..]); }
  }

  lemma LayoutAt(sc: Schema, i: nat)
    ensures |Layout(sc)| == |sc.members| + |sc.lists|
    ensures i < |sc.members| ==> Layout(sc)[i] == Field(sc.members[i])
    ensures i < |sc.lists| ==> Layout(sc)[|sc.members| + i] == ListOf(sc.lists[i])
  {
  }

  lemma ShapeIsLayout(sc: Schema, data: seq<Datum>)
    ensures AllTyped(data, Layout(sc)) <==> HasShape(sc, data)
  {
    var n, parts := |sc.members|, Layout(sc);
    LayoutAt(sc, 0);
    if AllTyped(data, parts) {
      forall i | 0 <= i < n ensures data[i].One? && HasType(data[i].v, sc.members[i]) {
        LayoutAt(sc, i);
        assert Typed(data[i], parts[i]);
      }
      forall i | 0 <= i < |sc.lists| ensures Typed(data[n + i], ListOf(sc.lists[i])) {
        LayoutAt(sc, i);
        assert Typed(data[n + i], parts[n + i]);
      }
    }
    if HasShape(sc, data) {
      forall i | 0 <= i < |data| ensures Typed(data[i], parts[i]) {
        LayoutAt(sc, if i < n then i else i - n);
        assert i >= n ==> Typed(data[n + (i - n)], ListOf(sc.lists[i - n]));
      }
    }
  }

  lemma PayloadIsEncoded(sc: Schema, data: seq<Datum>)
    requires HasShape(sc, data) && AllTyped(data, Layout(sc))
    ensures Encode(Layout(sc), data) == Payload(sc, data)
  {
    var n, parts := |sc.members|, Layout(sc);
    EncodeCut(parts, data, n);
    assert Encode(parts[..n], data[..n]) == EncodeFields(sc.members, MemberValues(sc, data)) by {
      EncodeMembers(parts[..n], sc.members, data[..n], MemberValues(sc, data));
    }
    assert Encode(parts[n..], data[n..]) == ListBytes(sc.lists, data[n..]) by {
      EncodeLists(parts[n..], sc.lists, data[n..]);
    }
  }
}
