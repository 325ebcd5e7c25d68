/** `RingBuffer`: a circular byte array with a one-byte gap, and the spans it offers to
    scatter/gather I/O.  It refines a bounded byte queue of capacity - 1. */
module Rings {
  import opened Bytes
  import opened Common

  // ----- Geometry --------------------------------------------------------------------------------

  /** The index `x` positions from the start of a ring of `c` bytes, for positions below 2c. */
  function Wrap(c: nat, x: nat): nat { if x < c then x else x - c }

  predicate Positions(c: nat, r: nat, w: nat) { r < c && w < c }

  function DataSize(c: nat, r: nat, w: nat): nat
    requires Positions(c, r, w)
  {
    if w >= r then w - r else c - r + w
  }

  function FreeSize(c: nat, r: nat, w: nat): nat
    requires Positions(c, r, w)
  {
    c - 1 - DataSize(c, r, w)
  }

  /** The stored bytes, oldest first. */
  function Live(buf: seq<byte>, r: nat, w: nat): (s: seq<byte>)
    requires Positions(|buf|, r, w)
    ensures |s| == DataSize(|buf|, r, w)
    ensures forall k | 0 <= k < |s| :: s[k] == buf[Wrap(|buf|, r + k)]
  {
    if w >= r then buf[r..w] else buf[r..] + buf[..w]
  }

  lemma ModIsWrap(c: nat, x: nat)
    requires x < 2 * c
    ensures x % c == Wrap(c, x)
  {
    if x >= c { assert x == c * 1 + (x - c); }
  }

  /** Bytes placed in the free slots become the newest bytes when the write position moves. */
  lemma LiveExtends(buf: seq<byte>, next: seq<byte>, r: nat, w: nat, data: seq<byte>)
    requires Positions(|buf|, r, w) && |next| == |buf| && |data| <= FreeSize(|buf|, r, w)
    requires forall k | 0 <= k < |data| :: next[Wrap(|buf|, w + k)] == data[k]
    requires Live(next, r, w) == Live(buf, r, w)
    ensures Live(next, r, Wrap(|buf|, w + |data|)) == Live(buf, r, w) + data
  {
    var c := |buf|;
    var n := DataSize(c, r, w);
    var now := Live(next, r, Wrap(c, w + |data|));
    assert |now| == n + |data|;
    forall k | 0 <= k < |now| ensures now[k] == (Live(buf, r, w) + data)[k] {
      if k < n {
        assert Live(next, r, w)[k] == now[k];
      } else {
        assert Wrap(c, r + k) == Wrap(c, w + (k - n));
      }
    }
  }

  lemma LiveDrops(buf: seq<byte>, r: nat, w: nat, n: nat)
    requires Positions(|buf|, r, w) && n <= DataSize(|buf|, r, w)
    ensures Live(buf, Wrap(|buf|, r + n), w) == Live(buf, r, w)[n..]
  {
    var now, before := Live(buf, Wrap(|buf|, r + n), w), Live(buf, r, w);
    assert |now| == |before| - n;
    forall k | 0 <= k < |now| ensures now[k] == before[n + k] {
      assert Wrap(|buf|, Wrap(|buf|, r + n) + k) == Wrap(|buf|, r + (n + k));
    }
  }

  /** Live and free slots are different slots. */
  lemma FreeIsNotLive(c: nat, r: nat, w: nat, j: nat, k: nat)
    requires Positions(c, r, w) && j < FreeSize(c, r, w) && k < DataSize(c, r, w)
    ensures Wrap(c, w + j) != Wrap(c, r + k)
  {
  }

  /** Filling a free slot leaves the stored bytes alone. */
  lemma LiveKeeps(buf: seq<byte>, r: nat, w: nat, j: nat, b: byte)
    requires Positions(|buf|, r, w) && j < FreeSize(|buf|, r, w)
    ensures Wrap(|buf|, w + j) < |buf| && Live(buf[Wrap(|buf|, w + j) := b], r, w) == Live(buf, r, w)
  {
    var next := buf[Wrap(|buf|, w + j) := b];
    forall k | 0 <= k < DataSize(|buf|, r, w) ensures Live(next, r, w)[k] == Live(buf, r, w)[k] {
      FreeIsNotLive(|buf|, r, w, j, k);
    }
  }

  // ----- Spans -----------------------------------------------------------------------------------

  datatype Span = Span(at: nat, len: nat)

  /** The buffer indexes covered by the spans, in the order the kernel fills or drains them. */
  function Slots(spans: seq<Span>): seq<nat> {
    if spans == [] then [] else seq(spans[0].len, i requires 0 <= i < spans[0].len => spans[0].at + i) + Slots(spans[1..])
  }

  /** `maxBytes` limits the total only when it is positive. */
  function Limit(size: nat, maxBytes: int): nat { if maxBytes > 0 then Min(size, maxBytes) else size }

  function WriteSpans(c: nat, r: nat, w: nat, maxBytes: int): seq<Span>
    requires Positions(c, r, w)
  {
    var free := Limit(FreeSize(c, r, w), maxBytes);
    if free <= 0 then []
    else if w >= r then
      var tailFree := Min(if r == 0 then c - w - 1 else c - w, free);
      var first := if tailFree > 0 then [Span(w, tailFree)] else [];
      var headFree := Min(r - 1, free - tailFree);
      first + (if free - tailFree > 0 && r > 0 && headFree > 0 then [Span(0, headFree)] else [])
    else
      var directFree := Min(r - w - 1, free);
      if directFree > 0 then [Span(w, directFree)] else []
  }

  function ReadSpans(c: nat, r: nat, w: nat, maxBytes: int): seq<Span>
    requires Positions(c, r, w)
  {
    var size := Limit(DataSize(c, r, w), maxBytes);
    if size <= 0 then []
    else if w >= r then [Span(r, size)]
    else
      var tailData := Min(c - r, size);
      var headData := Min(w, size - tailData);
      [Span(r, tailData)] + (if size - tailData > 0 && w > 0 && headData > 0 then [Span(0, headData)] else [])
  }

  lemma TwoSlots(a: Span, b: Span)
    ensures |Slots([a])| == a.len && |Slots([a, b])| == a.len + b.len
    ensures forall k | 0 <= k < a.len :: Slots([a])[k] == Slots([a, b])[k] == a.at + k
    ensures forall k | a.len <= k < a.len + b.len :: Slots([a, b])[k] == b.at + (k - a.len)
  {
    assert Slots([b]) == seq(b.len, i requires 0 <= i < b.len => b.at + i) + Slots([]);
    assert [a, b][1..] == [b] && [a][1..] == [];
  }

  /** The write spans are exactly the free slots that follow the write position, in order, so they
      never overlap live data; they are at most two, and none only when the ring is full. */
  lemma WriteSpansAreTheFreeSlots(c: nat, r: nat, w: nat, maxBytes: int)
    requires Positions(c, r, w)
    ensures var spans := WriteSpans(c, r, w, maxBytes);
            && |spans| <= 2
            && |Slots(spans)| == (if 0 < maxBytes < FreeSize(c, r, w) then maxBytes else FreeSize(c, r, w))
            && (forall k | 0 <= k < |Slots(spans)| :: Slots(spans)[k] == Wrap(c, w + k))
            && (spans == [] <==> DataSize(c, r, w) == c - 1)
  {
    var spans := WriteSpans(c, r, w, maxBytes);
    if |spans| == 1 {
      TwoSlots(spans[0], spans[0]);
      assert spans == [spans[0]];
    } else if |spans| == 2 {
      TwoSlots(spans[0], spans[1]);
      assert spans == [spans[0], spans[1]];
    }
  }

  /** The dual: the read spans are exactly the oldest live slots, in order. */
  lemma ReadSpansAreTheLiveSlots(c: nat, r: nat, w: nat, maxBytes: int)
    requires Positions(c, r, w)
    ensures var spans := ReadSpans(c, r, w, maxBytes);
            && |spans| <= 2
            && |Slots(spans)| == (if 0 < maxBytes < DataSize(c, r, w) then maxBytes else DataSize(c, r, w))
            && (forall k | 0 <= k < |Slots(spans)| :: Slots(spans)[k] == Wrap(c, r + k))
            && (spans == [] <==> r == w)
  {
    var spans := ReadSpans(c, r, w, maxBytes);
    if |spans| == 1 {
      TwoSlots(spans[0], spans[0]);
      assert spans == [spans[0]];
    } else if |spans| == 2 {
      TwoSlots(spans[0], spans[1]);
      assert spans == [spans[0], spans[1]];
    }
  }

  // ----- The object ------------------------------------------------------------------------------

  class RingBuffer {
    const buffer: array<byte>
    var readPos: nat
    var writePos: nat

    ghost predicate Valid()
      reads this
    {
      Positions(buffer.Length, readPos, writePos)
    }

    /** What a byte queue would hold. */
    ghost function Contents(): seq<byte>
      reads this, buffer
      requires Valid()
    {
      Live(buffer[..], readPos, writePos)
    }

    /** The `n` bytes in the slots that follow the write position. */
    ghost function Ahead(n: nat): seq<byte>
      reads this, buffer
      requires Valid() && n <= GetFreeSize()
    {
      seq(n, k requires 0 <= k < n && Valid() && n <= GetFreeSize() reads this, buffer => buffer[Wrap(buffer.Length, writePos + k)])
    }

    constructor (capacity: nat)
      requires capacity > 0
      ensures Valid() && Contents() == [] && buffer.Length == capacity && fresh(buffer)
    {
      buffer := new byte[capacity];
      readPos, writePos := 0, 0;
    }

    method Clear()
      requires Valid()
      modifies this
      ensures Valid() && Contents() == [] && readPos == writePos == 0
    {
      readPos, writePos := 0, 0;
    }

    function GetDataSize(): nat
      reads this
      requires Valid()
    {
      DataSize(buffer.Length, readPos, writePos)
    }

    function GetFreeSize(): nat
      reads this
      requires Valid()
    {
      buffer.Length - 1 - GetDataSize()
    }

    method Write(data: seq<byte>, size: int) returns (ok: bool)
      requires Valid() && size <= |data|
      modifies this, buffer
      ensures Valid() && (ok <==> 0 < size <= old(GetFreeSize()))
      ensures Contents() == if ok then old(Contents()) + data[..size] else old(Contents())
    {
      if size <= 0 || size > GetFreeSize() {
        return false;
      }
      ghost var before := buffer[..];
      var w := writePos;
      ModIsWrap(buffer.Length, w + size);
      if w + size <= buffer.Length {
        forall k | 0 <= k < size {
          buffer[w + k] := data[k];
        }
        writePos := (w + size) % buffer.Length;
      } else {
        var firstPart := buffer.Length - w;
        forall k | 0 <= k < firstPart {
          buffer[w + k] := data[k];
        }
        var secondPart := size - firstPart;
        forall k | 0 <= k < secondPart {
          buffer[k] := data[firstPart + k];
        }
        writePos := secondPart;
      }
      LiveExtends(before, buffer[..], readPos, w, data[..size]);
      return true;
    }

    method Peek(size: int) returns (ok: bool, dest: seq<byte>)
      requires Valid()
      ensures ok <==> 0 < size <= GetDataSize()
      ensures ok ==> dest == Contents()[..size]
    {
      if size <= 0 || size > GetDataSize() {
        return false, [];
      }
      if readPos + size <= buffer.Length {
        dest := buffer[readPos..readPos + size];
      } else {
        var firstPart := buffer.Length - readPos;
        dest := buffer[readPos..] + buffer[..size - firstPart];
      }
      return true, dest;
    }

    method Read(size: int) returns (ok: bool, dest: seq<byte>)
      requires Valid()
      modifies this`readPos
      ensures Valid() && (ok <==> 0 < size <= old(GetDataSize()))
      ensures ok ==> dest == old(Contents())[..size]
      ensures Contents() == if ok then old(Contents())[size..] else old(Contents())
    {
      ok, dest := Peek(size);
      if ok {
        ok := MoveReadPos(size);
      }
    }

    method GetWriteSpan(maxBytes: int) returns (spans: seq<Span>)
      requires Valid()
      ensures |spans| <= 2 && |Slots(spans)| == if 0 < maxBytes < GetFreeSize() then maxBytes else GetFreeSize()
      ensures forall k | 0 <= k < |Slots(spans)| :: Slots(spans)[k] == Wrap(buffer.Length, writePos + k)
      ensures spans == [] <==> GetFreeSize() == 0
    {
      WriteSpansAreTheFreeSlots(buffer.Length, readPos, writePos, maxBytes);
      return WriteSpans(buffer.Length, readPos, writePos, maxBytes);
    }

    method GetReadSpan(maxBytes: int) returns (spans: seq<Span>)
      requires Valid()
      ensures |spans| <= 2 && |Slots(spans)| == if 0 < maxBytes < GetDataSize() then maxBytes else GetDataSize()
      ensures forall k | 0 <= k < |Slots(spans)| :: Slots(spans)[k] < buffer.Length && buffer[Slots(spans)[k]] == Contents()[k]
      ensures spans == [] <==> GetDataSize() == 0
    {
      ReadSpansAreTheLiveSlots(buffer.Length, readPos, writePos, maxBytes);
      return ReadSpans(buffer.Length, readPos, writePos, maxBytes);
    }

    /** The kernel stores one byte, `i` slots ahead. */
    method PutAhead(i: nat, b: byte)
      requires Valid() && i < GetFreeSize()
      modifies buffer
      ensures Contents() == old(Contents()) && buffer[..] == old(buffer[..])[Wrap(buffer.Length, writePos + i) := b]
    {
      LiveKeeps(buffer[..], readPos, writePos, i, b);
      ghost var after := buffer[..][Wrap(buffer.Length, writePos + i) := b];
      buffer[Wrap(buffer.Length, writePos + i)] := b;
      assert buffer[..] == after;
    }

    /** The kernel filling the spans of a posted receive, in order. */
    method Scatter(spans: seq<Span>, data: seq<byte>)
      requires Valid() && |data| <= |Slots(spans)| <= GetFreeSize()
      requires forall k | 0 <= k < |Slots(spans)| :: Slots(spans)[k] == Wrap(buffer.Length, writePos + k)
      modifies buffer
      ensures Contents() == old(Contents()) && Ahead(|data|) == data
    {
      for i := 0 to |data|
        invariant Contents() == old(Contents())
        invariant Ahead(i) == data[..i]
      {
        ghost var slots, before := Slots(spans), buffer[..];
        assert slots[i] == Wrap(buffer.Length, writePos + i);
        PutAhead(i, data[i]);
        ExtendsAhead(before, i, data);
      }
    }

    lemma ExtendsAhead(before: seq<byte>, i: nat, data: seq<byte>)
      requires Valid() && i < GetFreeSize() && i < |data| && |before| == buffer.Length
      requires buffer[..] == before[Wrap(buffer.Length, writePos + i) := data[i]]
      requires forall k | 0 <= k < i :: before[Wrap(buffer.Length, writePos + k)] == data[k]
      ensures Ahead(i + 1) == data[..i + 1]
    {
      forall k | 0 <= k <= i ensures Ahead(i + 1)[k] == data[k] {
        assert buffer[..][Wrap(buffer.Length, writePos + k)] == buffer[Wrap(buffer.Length, writePos + k)];
      }
    }

    /** The kernel sending from the spans, in order. */
    method Collect(spans: seq<Span>) returns (out: seq<byte>)
      requires Valid() && forall k | 0 <= k < |Slots(spans)| :: Slots(spans)[k] < buffer.Length
      ensures |out| == |Slots(spans)| && forall k | 0 <= k < |out| :: out[k] == buffer[Slots(spans)[k]]
    {
      var slots := Slots(spans);
      out := [];
      for i := 0 to |slots|
        invariant |out| == i && forall k | 0 <= k < i :: out[k] == buffer[slots[k]]
      {
        out := out + [buffer[slots[i]]];
      }
    }

    method MoveWritePos(size: int) returns (ok: bool)
      requires Valid()
      modifies this`writePos
      ensures Valid() && (ok <==> 0 < size <= old(GetFreeSize()))
      ensures Contents() == if ok then old(Contents()) + old(Ahead(size)) else old(Contents())
    {
      if size <= 0 || size > GetFreeSize() {
        return false;
      }
      ModIsWrap(buffer.Length, writePos + size);
      LiveExtends(buffer[..], buffer[..], readPos, writePos, Ahead(size));
      writePos := (writePos + size) % buffer.Length;
      return true;
    }

    method MoveReadPos(size: int) returns (ok: bool)
      requires Valid()
      modifies this`readPos
      ensures Valid() && (ok <==> 0 < size <= old(GetDataSize()))
      ensures Contents() == if ok then old(Contents())[size..] else old(Contents())
    {
      if size <= 0 || size > GetDataSize() {
        return false;
      }
      ModIsWrap(buffer.Length, readPos + size);
      LiveDrops(buffer[..], readPos, writePos, size);
      readPos := (readPos + size) % buffer.Length;
      return true;
    }
  }

  // ----- Refinement of a byte queue -----------------------------------------------------------------

  datatype Op =
    | Put(data: seq<byte>)                        // Write
    | Receive(data: seq<byte>, maxBytes: int)     // GetWriteSpan, kernel scatter, MoveWritePos
    | Gather(maxBytes: int)                       // GetReadSpan, kernel gather
    | Get(size: int)                              // Read
    | Look(size: int)                             // Peek
    | Skip(size: int)                             // MoveReadPos
    | Reset                                       // Clear

  datatype Answer = Answer(ok: bool, out: seq<byte>)

  /** The bounded queue: what remains and what the caller is told. */
  function Queue(q: seq<byte>, cap: nat, op: Op): (r: (seq<byte>, Answer))
    requires |q| <= cap
    ensures |r.0| <= cap
  {
    match op
    case Put(data) =>
      if 0 < |data| <= cap - |q| then (q + data, Answer(true, [])) else (q, Answer(false, []))
    case Receive(data, maxBytes) =>
      if 0 < |data| <= Limit(cap - |q|, maxBytes) then (q + data, Answer(true, [])) else (q, Answer(false, []))
    case Gather(maxBytes) => (q, Answer(q != [], q[..Limit(|q|, maxBytes)]))
    case Get(size) =>
      if 0 < size <= |q| then (q[size..], Answer(true, q[..size])) else (q, Answer(false, []))
    case Look(size) =>
      if 0 < size <= |q| then (q, Answer(true, q[..size])) else (q, Answer(false, []))
    case Skip(size) =>
      if 0 < size <= |q| then (q[size..], Answer(true, [])) else (q, Answer(false, []))
    case Reset => ([], Answer(true, []))
  }

  method PerformReceive(ring: RingBuffer, data: seq<byte>, maxBytes: int) returns (a: Answer)
    requires ring.Valid()
    modifies ring, ring.buffer
    ensures ring.Valid()
    ensures (ring.Contents(), a) == Queue(old(ring.Contents()), ring.buffer.Length - 1, Receive(data, maxBytes))
  {
    var spans := ring.GetWriteSpan(maxBytes);
    if |data| <= |Slots(spans)| {
      ring.Scatter(spans, data);
      var ok := ring.MoveWritePos(|data|);
      a := Answer(ok, []);
    } else {
      a := Answer(false, []);
    }
  }

  method PerformGather(ring: RingBuffer, maxBytes: int) returns (a: Answer)
    requires ring.Valid()
    ensures (ring.Contents(), a) == Queue(ring.Contents(), ring.buffer.Length - 1, Gather(maxBytes))
  {
    var spans := ring.GetReadSpan(maxBytes);
    var out := ring.Collect(spans);
    assert out == ring.Contents()[..|out|];
    a := Answer(spans != [], out);
  }

  method Perform(ring: RingBuffer, op: Op) returns (a: Answer)
    requires ring.Valid()
    modifies ring, ring.buffer
    ensures ring.Valid()
    ensures (ring.Contents(), a) == Queue(old(ring.Contents()), ring.buffer.Length - 1, op)
  {
    match op
    case Put(data) =>
      var ok := ring.Write(data, |data|);
      if ok { assert data[..|data|] == data; }
      a := Answer(ok, []);
    case Receive(data, maxBytes) =>
      a := PerformReceive(ring, data, maxBytes);
    case Gather(maxBytes) =>
      a := PerformGather(ring, maxBytes);
    case Get(size) =>
      var ok, out := ring.Read(size);
      a := Answer(ok, if ok then out else []);
    case Look(size) =>
      var ok, out := ring.Peek(size);
      a := Answer(ok, if ok then out else []);
    case Skip(size) =>
      var ok := ring.MoveReadPos(size);
      a := Answer(ok, []);
    case Reset =>
      ring.Clear();
      a := Answer(true, []);
  }

  function QueueAll(q: seq<byte>, cap: nat, ops: seq<Op>): (seq<byte>, seq<Answer>)
    requires |q| <= cap
    decreases |ops|
  {
    if ops == [] then (q, []) else
      var (q1, a) := Queue(q, cap, ops[0]);
      var (q2, rest) := QueueAll(q1, cap, ops[1..]);
      (q2, [a] + rest)
  }

  /** For any sequence of operations the ring gives the answers of the bounded queue. */
  method PerformAll(ring: RingBuffer, ops: seq<Op>) returns (answers: seq<Answer>)
    requires ring.Valid()
    modifies ring, ring.buffer
    ensures ring.Valid()
    ensures (ring.Contents(), answers) == QueueAll(old(ring.Contents()), ring.buffer.Length - 1, ops)
    decreases |ops|
  {
    answers := [];
    if ops != [] {
      var a := Perform(ring, ops[0]);
      var rest := PerformAll(ring, ops[1..]);
      answers := [a] + rest;
    }
  }
}
