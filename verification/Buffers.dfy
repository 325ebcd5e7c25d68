/** `SendBufferManager`, `SendBufferChunk` and `SendBuffer`: a bump allocator of 64 KB chunks, one
    current chunk per thread, whose closed buffers are shared by many sessions. */
module Buffers {
  import opened Bytes

  const CHUNK_SIZE: nat := 0x10000

  type ThreadId = nat

  /** `alloc` is the size promised to the buffer that is open, if one is. */
  datatype Chunk = Chunk(bytes: seq<byte>, used: nat, open: bool, alloc: nat)

  /** A closed buffer and the bytes it held when it was closed. */
  datatype Shared = Shared(chunk: nat, start: nat, content: seq<byte>)

  datatype State = State(chunks: seq<Chunk>, current: map<ThreadId, nat>, closed: seq<Shared>)

  datatype Step =
    | Open(t: ThreadId, size: nat)
    | Write(t: ThreadId, off: nat, data: seq<byte>)
    | Close(t: ThreadId, n: nat)

  /** The steps that trip no `ASSERT_CRASH` and write inside the buffer they opened. */
  predicate Enabled(s: State, st: Step) {
    && (st.t in s.current ==> s.current[st.t] < |s.chunks|)
    && match st
       case Open(t, size) => 0 < size <= CHUNK_SIZE && (t in s.current ==> !s.chunks[s.current[t]].open)
       case Write(t, off, data) =>
         t in s.current && var c := s.chunks[s.current[t]];
         c.open && off + |data| <= c.alloc && c.used + c.alloc <= |c.bytes|
       case Close(t, n) =>
         t in s.current && var c := s.chunks[s.current[t]];
         c.open && n <= c.alloc && c.used + c.alloc <= |c.bytes|
  }

  function Overwrite(bs: seq<byte>, at: nat, data: seq<byte>): (r: seq<byte>)
    requires at + |data| <= |bs|
    ensures |r| == |bs|
  {
    bs[..at] + data + bs[at + |data|..]
  }

  function Apply(s: State, st: Step): State
    requires Enabled(s, st)
  {
    match st
    case Open(t, size) =>
      if t in s.current && CHUNK_SIZE - s.chunks[s.current[t]].used >= size then
        var i := s.current[t];
        s.(chunks := s.chunks[i := s.chunks[i].(open := true, alloc := size)])
      else
        s.(chunks := s.chunks + [Chunk(seq(CHUNK_SIZE, _ => 0), 0, true, size)], current := s.current[t := |s.chunks|])
    case Write(t, off, data) =>
      var i := s.current[t];
      var c := s.chunks[i];
      s.(chunks := s.chunks[i := c.(bytes := Overwrite(c.bytes, c.used + off, data))])
    case Close(t, n) =>
      var i := s.current[t];
      var c := s.chunks[i];
      s.(chunks := s.chunks[i := c.(open := false, used := c.used + n)],
         closed := s.closed + [Shared(i, c.used, c.bytes[c.used..c.used + n])])
  }

  predicate Runs(s: State, steps: seq<Step>, t: State)
    decreases |steps|
  {
    if steps == [] then s == t else Enabled(s, steps[0]) && Runs(Apply(s, steps[0]), steps[1..], t)
  }

  // ----- Tiling --------------------------------------------------------------------------------

  /** Where the closed buffers of chunk `i` end. */
  function End(closed: seq<Shared>, i: nat): nat {
    if closed == [] then 0 else
      var last := closed[|closed| - 1];
      if last.chunk == i then last.start + |last.content| else End(closed[..|closed| - 1], i)
  }

  /** Each closed buffer starts where the previous one of its chunk ended, the first at 0. */
  predicate Tiled(closed: seq<Shared>) {
    forall k | 0 <= k < |closed| :: closed[k].start == End(closed[..k], closed[k].chunk)
  }

  predicate ChunkOk(c: Chunk) {
    |c.bytes| == CHUNK_SIZE && c.used <= CHUNK_SIZE && (c.open ==> c.used + c.alloc <= CHUNK_SIZE)
  }

  /** The buffer still holds what it held when it was closed, below the free tail. */
  predicate Intact(s: State, b: Shared) {
    && b.chunk < |s.chunks|
    && b.start + |b.content| <= s.chunks[b.chunk].used <= |s.chunks[b.chunk].bytes|
    && s.chunks[b.chunk].bytes[b.start..b.start + |b.content|] == b.content
  }

  predicate OwnChunks(s: State) {
    && (forall t | t in s.current :: s.current[t] < |s.chunks|)
    && (forall t, u | t in s.current && u in s.current && s.current[t] == s.current[u] :: t == u)
  }

  predicate ChunksOk(s: State) { forall i | 0 <= i < |s.chunks| :: ChunkOk(s.chunks[i]) }

  predicate AllIntact(s: State) { forall k | 0 <= k < |s.closed| :: Intact(s, s.closed[k]) }

  /** The used mark is where the closed buffers end. */
  predicate MarksOk(s: State) { forall i | 0 <= i < |s.chunks| :: End(s.closed, i) == s.chunks[i].used }

  ghost predicate Inv(s: State) {
    && OwnChunks(s)
    && ChunksOk(s)
    && AllIntact(s)
    && Tiled(s.closed)
    && MarksOk(s)
  }

  const START: State := State([], map[], [])

  lemma {:induction false} EndUnused(closed: seq<Shared>, i: nat)
    requires forall k | 0 <= k < |closed| :: closed[k].chunk != i
    ensures End(closed, i) == 0
  {
    if closed != [] { EndUnused(closed[..|closed| - 1], i); }
  }

  lemma ChunksStep(s: State, st: Step)
    requires ChunksOk(s) && Enabled(s, st)
    ensures ChunksOk(Apply(s, st))
  {
    if st.t in s.current { assert ChunkOk(s.chunks[s.current[st.t]]); }
  }

  /** Chunks only grow, and below the used mark nothing changes. */
  predicate Kept(c: Chunk, d: Chunk) {
    c.used <= d.used <= |d.bytes| && |c.bytes| == |d.bytes| && forall j | 0 <= j < c.used :: d.bytes[j] == c.bytes[j]
  }

  lemma IntactStep(s: State, st: Step)
    requires AllIntact(s) && ChunksOk(s) && Enabled(s, st)
    ensures AllIntact(Apply(s, st))
  {
    var t := Apply(s, st);
    forall k | 0 <= k < |t.closed| ensures Intact(t, t.closed[k]) {
      if k < |s.closed| {
        assert t.closed[k] == s.closed[k];
      } else {
      }
    }
  }

  lemma TilesStep(s: State, st: Step)
    requires OwnChunks(s) && MarksOk(s) && Tiled(s.closed) && Enabled(s, st)
    ensures Tiled(Apply(s, st).closed)
  {
    var t := Apply(s, st);
    forall k | 0 <= k < |t.closed| ensures t.closed[k].start == End(t.closed[..k], t.closed[k].chunk) {
      if k < |s.closed| {
        assert t.closed[..k] == s.closed[..k];
      } else {
        assert t.closed[..k] == s.closed;
      }
    }
  }

  lemma MarksStep(s: State, st: Step)
    requires OwnChunks(s) && MarksOk(s) && AllIntact(s) && Enabled(s, st)
    ensures MarksOk(Apply(s, st))
  {
    var t := Apply(s, st);
    if st.Open? {
      forall k | 0 <= k < |s.closed| ensures s.closed[k].chunk != |s.chunks| { assert Intact(s, s.closed[k]); }
      EndUnused(s.closed, |s.chunks|);
    } else if st.Close? {
      assert t.closed[..|s.closed|] == s.closed;
    }
  }

  lemma StepInv(s: State, st: Step)
    requires Inv(s) && Enabled(s, st)
    ensures Inv(Apply(s, st)) && s.closed <= Apply(s, st).closed
  {
    ChunksStep(s, st);
    IntactStep(s, st);
    TilesStep(s, st);
    MarksStep(s, st);
  }

  /** Over every run of every set of threads that closes each buffer before opening the next,
      the buffers closed so far stay closed with unchanged bytes. */
  lemma {:induction false} SharedBuffersStayConstant(s: State, steps: seq<Step>, t: State)
    requires Inv(s) && Runs(s, steps, t)
    ensures Inv(t) && s.closed <= t.closed
    ensures forall k | 0 <= k < |s.closed| :: Intact(t, s.closed[k])
    decreases |steps|
  {
    if steps != [] {
      StepInv(s, steps[0]);
      SharedBuffersStayConstant(Apply(s, steps[0]), steps[1..], t);
    }
    forall k | 0 <= k < |s.closed| ensures Intact(t, s.closed[k]) {
      assert t.closed[k] == s.closed[k];
    }
  }

  lemma {:induction false} EndGrows(closed: seq<Shared>, j: nat, k: nat)
    requires Tiled(closed) && j < k <= |closed|
    ensures closed[j].start + |closed[j].content| <= End(closed[..k], closed[j].chunk)
  {
    var last := closed[k - 1];
    assert closed[..k][..k - 1] == closed[..k - 1];
    if j < k - 1 {
      EndGrows(closed, j, k - 1);
      assert last.start == End(closed[..k - 1], last.chunk);
    }
  }

  /** With nothing else of the chunk in between, the end of the chunk is the end of buffer `j`. */
  lemma {:induction false} EndOfLast(closed: seq<Shared>, j: nat, k: nat)
    requires j < k <= |closed| && forall i | j < i < k :: closed[i].chunk != closed[j].chunk
    ensures End(closed[..k], closed[j].chunk) == closed[j].start + |closed[j].content|
    decreases k
  {
    assert closed[..k][..k - 1] == closed[..k - 1];
    if j < k - 1 { EndOfLast(closed, j, k - 1); }
  }

  /** In every reachable state the closed buffers of every chunk tile it from 0 up to the used mark, in
      order and without a gap: each starts where the previous one of the chunk ended, the first at 0. */
  lemma ClosedBuffersTile(steps: seq<Step>, s: State)
    requires Runs(START, steps, s)
    ensures Tiled(s.closed)
    ensures forall k | 0 <= k < |s.closed| :: s.closed[k].chunk < |s.chunks|
    ensures forall i | 0 <= i < |s.chunks| :: End(s.closed, i) == s.chunks[i].used <= 65536
  {
    SharedBuffersStayConstant(START, steps, s);
    forall k | 0 <= k < |s.closed| ensures s.closed[k].chunk < |s.chunks| { assert Intact(s, s.closed[k]); }
    forall i | 0 <= i < |s.chunks| ensures s.chunks[i].used <= CHUNK_SIZE { assert ChunkOk(s.chunks[i]); }
  }

  /** So two of one chunk never overlap, and two in succession touch. */
  lemma ClosedBuffersAreApart(steps: seq<Step>, s: State, j: nat, k: nat)
    requires Runs(START, steps, s) && j < k < |s.closed| && s.closed[j].chunk == s.closed[k].chunk
    ensures s.closed[j].start + |s.closed[j].content| <= s.closed[k].start
    ensures (forall i | j < i < k :: s.closed[i].chunk != s.closed[j].chunk) ==>
              s.closed[k].start == s.closed[j].start + |s.closed[j].content|
  {
    ClosedBuffersTile(steps, s);
    EndGrows(s.closed, j, k);
    if forall i | j < i < k :: s.closed[i].chunk != s.closed[j].chunk { EndOfLast(s.closed, j, k); }
  }

  /** Two threads never share a current chunk, so a write touches only the writer's own buffer. */
  lemma WritesStayInside(steps: seq<Step>, s: State, st: Step)
    requires Runs(START, steps, s) && Enabled(s, st) && st.Write?
    ensures var t := Apply(s, st); var i := s.current[st.t];
            && |t.chunks| == |s.chunks| && i < |s.chunks| && ChunkOk(s.chunks[i])
            && (forall u | u in s.current && u != st.t :: s.current[u] != i)
            && (forall j | 0 <= j < |s.chunks| && j != i :: t.chunks[j] == s.chunks[j])
            && |t.chunks[i].bytes| == 65536
            && s.chunks[i].used + st.off + |st.data| <= 65536
            && t.chunks[i].bytes[s.chunks[i].used + st.off..s.chunks[i].used + st.off + |st.data|] == st.data
            && (forall k | 0 <= k < 65536 && !(s.chunks[i].used <= k < s.chunks[i].used + s.chunks[i].alloc) ::
                  t.chunks[i].bytes[k] == s.chunks[i].bytes[k])
  {
    SharedBuffersStayConstant(START, steps, s);
  }

  /** A buffer is opened at the used mark of the thread's chunk if 64 KB leave room for it, otherwise at
      the start of a new chunk; what is closed is the first `n` bytes from there, as they are then. */
  lemma OpensAndCloses(steps: seq<Step>, s: State, st: Step)
    requires Runs(START, steps, s) && Enabled(s, st) && !st.Write?
    ensures var t := Apply(s, st);
            && (st.t in s.current ==> s.current[st.t] < |s.chunks| && s.chunks[s.current[st.t]].open == !st.Open?)
            && st.t in t.current && t.current[st.t] < |t.chunks|
            && var i := t.current[st.t];
            && (st.Open? ==>
                  && t.chunks[i].open && t.chunks[i].alloc == st.size && t.chunks[i].used + st.size <= 65536
                  && if st.t in s.current && s.chunks[s.current[st.t]].used + st.size <= 65536
                     then i == s.current[st.t] && t.chunks[i].used == s.chunks[i].used
                     else i == |s.chunks| && t.chunks[i].used == 0)
            && (st.Close? ==>
                  && i < |s.chunks| && s.chunks[i].used + st.n <= |s.chunks[i].bytes| && !t.chunks[i].open
                  && t.closed == s.closed + [Shared(i, s.chunks[i].used, s.chunks[i].bytes[s.chunks[i].used..s.chunks[i].used + st.n])])
  {
    SharedBuffersStayConstant(START, steps, s);
  }

  // ----- The objects ---------------------------------------------------------------------------

  class SendBufferChunk {
    const buffer: array<byte>
    var open: bool
    var usedSize: nat

    ghost predicate Valid()
      reads this
    {
      buffer.Length == CHUNK_SIZE && usedSize <= CHUNK_SIZE
    }

    constructor ()
      ensures Valid() && !open && usedSize == 0 && fresh(buffer)
    {
      buffer := new byte[CHUNK_SIZE](_ => 0);
      open := false;
      usedSize := 0;
    }

    /** The start of the new buffer, if the tail is large enough. */
    method Open(allocSize: nat) returns (start: nat, ok: bool)
      requires Valid() && !open && 0 < allocSize <= CHUNK_SIZE
      modifies this`open
      ensures Valid() && (ok <==> allocSize <= CHUNK_SIZE - usedSize) && open == ok && start == usedSize
    {
      start := usedSize;
      if allocSize > CHUNK_SIZE - usedSize {
        return start, false;
      }
      open := true;
      return start, true;
    }

    method Close(writeSize: nat)
      requires Valid() && open && usedSize + writeSize <= CHUNK_SIZE
      modifies this`open, this`usedSize
      ensures Valid() && !open && usedSize == old(usedSize) + writeSize
    {
      open := false;
      usedSize := usedSize + writeSize;
    }
  }

  /** The manager as one thread sees it.  `Pop` always makes a new chunk, because nothing in the
      program puts a chunk back into the chunk pool. */
  class SendBufferManager {
    var chunk: SendBufferChunk?

    ghost predicate Ready()
      reads this, chunk
    {
      chunk != null ==> chunk.Valid() && !chunk.open
    }

    constructor ()
      ensures Ready() && chunk == null
    {
      chunk := null;
    }

    method Open(size: nat) returns (c: SendBufferChunk, start: nat)
      requires Ready() && 0 < size <= CHUNK_SIZE
      modifies this, if chunk == null then {} else {chunk}
      ensures chunk == c && c.Valid() && c.open && start == c.usedSize && start + size <= CHUNK_SIZE
      ensures if old(chunk) != null && old(chunk.usedSize) + size <= CHUNK_SIZE
              then c == old(chunk) && start == old(chunk.usedSize)
              else fresh(c) && fresh(c.buffer) && start == 0
    {
      if chunk == null {
        chunk := new SendBufferChunk();
      }
      if CHUNK_SIZE - chunk.usedSize < size {
        chunk := new SendBufferChunk();
      }
      c := chunk;
      var ok;
      start, ok := c.Open(size);
    }
  }
}
