/** `PoolAllocator` and `MemoryPool`: size classes, per-thread caches and one shared free list a
    class. */
module Pools {

  const MAX_ALLOC: int := 4096
  const POOLS: nat := 48
  const BATCH: nat := 16
  const MAX_CACHE: nat := 48

  // ----- Size classes ------------------------------------------------------------------------------

  /** The block sizes of the pools, in the order `Init` creates them. */
  function PoolSize(idx: nat): int {
    if idx < 32 then 32 * (idx + 1)
    else if idx < 40 then 1024 + 128 * (idx - 31)
    else 2048 + 256 * (idx - 39)
  }

  /** The index formula of `Alloc` and `Release`. */
  function PoolIndex(allocSize: int): int {
    if allocSize <= 1024 then allocSize / 32 - 1
    else if allocSize <= 2048 then 32 + (allocSize - 1024) / 128 - 1
    else 40 + (allocSize - 2048) / 256 - 1
  }

  /** A pool is found again from the size it hands out. */
  lemma IndexOfPoolSize(idx: nat)
    requires idx < POOLS
    ensures PoolIndex(PoolSize(idx)) == idx && 0 < PoolSize(idx) <= MAX_ALLOC
  {
    if idx < 32 { assert 32 * (idx + 1) / 32 == idx + 1; }
    else if idx < 40 { assert 128 * (idx - 31) / 128 == idx - 31; }
    else { assert 256 * (idx - 39) / 256 == idx - 39; }
  }

  lemma PoolSizesGrow(i: nat, j: nat)
    requires i < j < POOLS
    ensures PoolSize(i) < PoolSize(j)
  {
  }

  /** The entry of the table for `size` is the smallest pool whose blocks are large enough. */
  predicate IsPoolFor(idx: nat, size: int) {
    size <= PoolSize(idx) && (idx == 0 || PoolSize(idx - 1) < size)
  }

  /** The filling loop of `Init` for one pool. */
  method FillTable(table: array<nat>, current: nat, pool: nat) returns (next: nat)
    requires table.Length == MAX_ALLOC + 1 && pool < POOLS && current <= PoolSize(pool) <= MAX_ALLOC
    requires pool > 0 ==> current == PoolSize(pool - 1) + 1
    requires forall s | 0 <= s < current :: table[s] < POOLS && IsPoolFor(table[s], s)
    modifies table
    ensures next == PoolSize(pool) + 1
    ensures forall s | 0 <= s < next :: table[s] < POOLS && IsPoolFor(table[s], s)
  {
    next := current;
    while next <= PoolSize(pool)
      invariant current <= next <= PoolSize(pool) + 1
      invariant forall s | 0 <= s < next :: table[s] < POOLS && IsPoolFor(table[s], s)
    {
      table[next] := pool;
      next := next + 1;
    }
  }

  /** The table of `Init`: three ranges of pools 32, 128 and 256 bytes apart. */
  method Init() returns (table: array<nat>, sizes: seq<int>)
    ensures table.Length == MAX_ALLOC + 1 && fresh(table)
    ensures |sizes| == POOLS && forall i | 0 <= i < POOLS :: sizes[i] == PoolSize(i)
    ensures |sizes| == 48 && sizes[0] == 32 && sizes[31] == 1024 && sizes[39] == 2048 && sizes[47] == 4096
    ensures forall i | 0 < i < |sizes| ::
              sizes[i] - sizes[i - 1] == if sizes[i] <= 1024 then 32 else if sizes[i] <= 2048 then 128 else 256
    ensures forall s | 0 <= s <= MAX_ALLOC :: table[s] < POOLS && IsPoolFor(table[s], s)
  {
    table := new nat[MAX_ALLOC + 1];
    sizes := [];
    var current := 0;
    var size := 32;
    while size <= 1024
      invariant |sizes| <= 32 && size == 32 * (|sizes| + 1)
      invariant forall i | 0 <= i < |sizes| :: sizes[i] == PoolSize(i)
      invariant current == if |sizes| == 0 then 0 else PoolSize(|sizes| - 1) + 1
      invariant forall s | 0 <= s < current :: table[s] < POOLS && IsPoolFor(table[s], s)
    {
      current := FillTable(table, current, |sizes|);
      sizes := sizes + [size];
      size := size + 32;
    }
    size := 1024 + 128;
    while size <= 2048
      invariant 32 <= |sizes| <= 40 && size == 1024 + 128 * (|sizes| - 31)
      invariant forall i | 0 <= i < |sizes| :: sizes[i] == PoolSize(i)
      invariant current == PoolSize(|sizes| - 1) + 1
      invariant forall s | 0 <= s < current :: table[s] < POOLS && IsPoolFor(table[s], s)
    {
      current := FillTable(table, current, |sizes|);
      sizes := sizes + [size];
      size := size + 128;
    }
    size := 2048 + 256;
    while size <= 4096
      invariant 40 <= |sizes| <= 48 && size == 2048 + 256 * (|sizes| - 39)
      invariant forall i | 0 <= i < |sizes| :: sizes[i] == PoolSize(i)
      invariant current == PoolSize(|sizes| - 1) + 1
      invariant forall s | 0 <= s < current :: table[s] < POOLS && IsPoolFor(table[s], s)
    {
      current := FillTable(table, current, |sizes|);
      sizes := sizes + [size];
      size := size + 256;
    }
  }

  /** The pool the table gives for a request of `size` bytes. */
  function ClassOf(size: int): (idx: nat)
    requires size <= MAX_ALLOC
    ensures idx < POOLS && IsPoolFor(idx, size)
  {
    ClassFrom(size, 0)
  }

  function ClassFrom(size: int, idx: nat): (r: nat)
    requires idx < POOLS && size <= MAX_ALLOC && (idx == 0 || PoolSize(idx - 1) < size)
    ensures r < POOLS && IsPoolFor(r, size)
    decreases POOLS - idx
  {
    if size <= PoolSize(idx) then idx else ClassFrom(size, idx + 1)
  }

  /** Only one pool qualifies, so the table holds `ClassOf`; and the size written into a block's
      header leads back to the pool it came from. */
  lemma ClassIsUnique(size: int, idx: nat)
    requires size <= MAX_ALLOC && idx < POOLS && IsPoolFor(idx, size)
    ensures idx == ClassOf(size)
    ensures ClassOf(PoolSize(idx)) == idx == PoolIndex(PoolSize(idx))
  {
    IndexOfPoolSize(idx);
    Ordered(idx, ClassOf(size), size);
    Ordered(idx, ClassOf(PoolSize(idx)), PoolSize(idx));
  }

  lemma Ordered(i: nat, j: nat, size: int)
    requires i < POOLS && j < POOLS && IsPoolFor(j, size) && (IsPoolFor(i, size) || PoolSize(i) == size)
    ensures i == j
  {
    if i < j {
      if i < j - 1 { PoolSizesGrow(i, j - 1); }
    } else if j < i {
      if j < i - 1 { PoolSizesGrow(j, i - 1); }
      PoolSizesGrow(j, i);
    }
  }

  // ----- Blocks ------------------------------------------------------------------------------------

  type ThreadId = nat
  type Block = nat

  /** Where idle blocks of one class are stacked. */
  datatype Place = Shared(idx: nat) | Cache(t: ThreadId, idx: nat)

  /** `live` maps each block in use to the size in its header; `made` maps every block ever created to
      its class.  `large` are blocks above 4096 bytes, which bypass the pools. */
  datatype State = State(stacks: map<Place, seq<Block>>, live: map<Block, int>, allocCount: map<nat, int>, useCount: map<nat, int>,
                         made: map<Block, nat>, large: set<Block>, next: Block)

  function Get(s: State, p: Place): seq<Block> { if p in s.stacks then s.stacks[p] else [] }

  function Count(m: map<nat, int>, idx: nat): int { if idx in m then m[idx] else 0 }

  function PopFrom(s: State, p: Place): State
    requires Get(s, p) != []
  {
    var q := Get(s, p);
    s.(stacks := s.stacks[p := q[..|q| - 1]])
  }

  function PushTo(s: State, p: Place, b: Block): State { s.(stacks := s.stacks[p := Get(s, p) + [b]]) }

  function Top(s: State, p: Place): Block
    requires Get(s, p) != []
  {
    Get(s, p)[|Get(s, p)| - 1]
  }

  /** `MemoryPool::Pop`: the shared list, or a new block. */
  function PoolPop(s: State, idx: nat): (State, Block)
  {
    var used := s.useCount[idx := Count(s.useCount, idx) + 1];
    if Get(s, Shared(idx)) != [] then
      (PopFrom(s, Shared(idx)).(useCount := used), Top(s, Shared(idx)))
    else
      (s.(useCount := used, allocCount := s.allocCount[idx := Count(s.allocCount, idx) + 1],
          made := s.made[s.next := idx], next := s.next + 1), s.next)
  }

  /** `MemoryPool::Push`. */
  function PoolPush(s: State, idx: nat, b: Block): State {
    PushTo(s.(useCount := s.useCount[idx := Count(s.useCount, idx) - 1]), Shared(idx), b)
  }

  /** `Alloc`; no block for a size that is not positive. */
  function Alloc(s: State, t: ThreadId, size: int): (State, seq<Block>) {
    if size <= 0 then (s, [])
    else if size > MAX_ALLOC then
      (s.(live := s.live[s.next := size], large := s.large + {s.next}, next := s.next + 1), [s.next])
    else
      var idx := ClassOf(size);
      var cache := Cache(t, idx);
      if Get(s, cache) != [] then
        (PopFrom(s, cache).(live := s.live[Top(s, cache) := PoolSize(idx)]), [Top(s, cache)])
      else
        var (s1, b) := PoolPop(s, idx);
        (s1.(live := s1.live[b := PoolSize(idx)]), [b])
  }

  /** The top block of a cache back to the shared list. */
  function FlushOne(s: State, t: ThreadId, idx: nat): State
    requires Get(s, Cache(t, idx)) != []
  {
    PoolPush(PopFrom(s, Cache(t, idx)), idx, Top(s, Cache(t, idx)))
  }

  /** `n` blocks from the top of a cache back to the shared list. */
  function Flush(s: State, t: ThreadId, idx: nat, n: nat): State
    requires |Get(s, Cache(t, idx))| >= n
    decreases n
  {
    if n == 0 then s else Flush(FlushOne(s, t, idx), t, idx, n - 1)
  }

  /** `Release` of a block in use, by any thread. */
  function Release(s: State, t: ThreadId, b: Block): State
    requires b in s.live
  {
    var allocSize := s.live[b];
    var freed := s.(live := s.live - {b});
    if allocSize > MAX_ALLOC then freed.(large := s.large - {b})
    else
      var idx := ClassOf(allocSize);
      var c := Cache(t, idx);
      if |Get(s, c)| < MAX_CACHE then PushTo(freed, c, b)
      else PushTo(Flush(freed, t, idx, BATCH), c, b)
  }

  datatype Step = Allocate(t: ThreadId, size: int) | Free(t: ThreadId, b: Block)

  predicate Enabled(s: State, st: Step) { st.Allocate? || st.b in s.live }

  function Apply(s: State, st: Step): State
    requires Enabled(s, st)
  {
    match st
    case Allocate(t, size) => Alloc(s, t, size).0
    case Free(t, b) => Release(s, t, b)
  }

  const START: State := State(map[], map[], map[], map[], map[], {}, 0)

  predicate Runs(s: State, steps: seq<Step>, t: State)
    decreases |steps|
  {
    if steps == [] then s == t else Enabled(s, steps[0]) && Runs(Apply(s, steps[0]), steps[1..], t)
  }

  // ----- The invariant -----------------------------------------------------------------------------

  function Made(s: State, idx: nat): set<Block> { set b | b in s.made && s.made[b] == idx }

  /** Blocks of a class that the shared list does not hold. */
  function Used(s: State, idx: nat): set<Block> { set b | b in s.made && s.made[b] == idx && b !in Get(s, Shared(idx)) }

  ghost predicate Idle(s: State, b: Block) { exists p :: b in Get(s, p) }

  predicate BelongsTo(s: State, hand: set<Block>, p: Place, b: Block) {
    p.idx < POOLS && b in s.made && s.made[b] == p.idx && b !in s.live && b !in hand
  }

  /** Idle blocks lie on stacks of their class; `hand` are blocks on their way between two places. */
  ghost predicate IdleOk(s: State, hand: set<Block>) {
    forall p, b | b in Get(s, p) :: BelongsTo(s, hand, p, b)
  }

  /** No block lies on two stacks, or twice on one. */
  ghost predicate Distinct(s: State) {
    forall p, q, i, j ::
      0 <= i < |Get(s, p)| && 0 <= j < |Get(s, q)| && (p != q || i != j) ==> Get(s, p)[i] != Get(s, q)[j]
  }

  ghost predicate CachesBounded(s: State) { forall t, idx :: |Get(s, Cache(t, idx))| <= MAX_CACHE }

  ghost predicate StacksOk(s: State, hand: set<Block>) {
    && IdleOk(s, hand)
    && Distinct(s)
    && CachesBounded(s)
  }

  ghost predicate MadeOk(s: State, hand: set<Block>) {
    && (forall b | b in s.made ::
          b < s.next && s.made[b] < POOLS && (b in s.live || b in hand || Idle(s, b)))
    && (forall b | b in hand :: b in s.made && b !in s.live)
  }

  predicate LiveOk(s: State) {
    && (forall b | b in s.live ::
          b < s.next
          && if b in s.made then s.made[b] < POOLS && s.live[b] == PoolSize(s.made[b])
             else b in s.large && s.live[b] > MAX_ALLOC)
    && (forall b | b in s.large :: b in s.live && b !in s.made)
  }

  predicate ClassCounted(s: State, idx: nat) {
    Count(s.allocCount, idx) == |Made(s, idx)| && Count(s.useCount, idx) == |Used(s, idx)|
  }

  ghost predicate CountsOk(s: State) {
    forall idx :: ClassCounted(s, idx)
  }

  ghost predicate Inv(s: State, hand: set<Block>) {
    && IdleOk(s, hand)
    && Distinct(s)
    && CachesBounded(s)
    && MadeOk(s, hand)
    && LiveOk(s)
    && CountsOk(s)
  }

  // ----- Moving one block --------------------------------------------------------------------------

  lemma PopDistinct(s: State, p: Place)
    requires Distinct(s) && Get(s, p) != []
    ensures Distinct(PopFrom(s, p)) && Top(s, p) !in Get(PopFrom(s, p), p)
    ensures forall q | q != p :: Top(s, p) !in Get(s, q)
  {
    var t, n := PopFrom(s, p), |Get(s, p)| - 1;
    assert Get(s, p)[n] == Top(s, p);
    forall q, r, i, j | 0 <= i < |Get(t, q)| && 0 <= j < |Get(t, r)| && (q != r || i != j) ensures Get(t, q)[i] != Get(t, r)[j] {
      assert Get(t, q)[i] == Get(s, q)[i] && Get(t, r)[j] == Get(s, r)[j];
    }
  }

  lemma StillIdle(s: State, t: State, c: Block, p: Place)
    requires Idle(s, c) && c !in Get(s, p) && forall q | q != p :: Get(t, q) == Get(s, q)
    ensures Idle(t, c)
  {
    var q :| c in Get(s, q);
    assert c in Get(t, q);
  }

  /** Taking the top block off any stack: it is then in hand. */
  lemma PopMoves(s: State, p: Place, hand: set<Block>)
    requires StacksOk(s, hand) && MadeOk(s, hand) && LiveOk(s) && Get(s, p) != []
    ensures var t := PopFrom(s, p);
            var more := hand + {Top(s, p)};
            && StacksOk(t, more)
            && MadeOk(t, more)
            && LiveOk(t)
            && Top(s, p) !in hand
  {
    var t, b := PopFrom(s, p), Top(s, p);
    assert Get(s, p) == Get(t, p) + [b];
    assert b in Get(s, p) && BelongsTo(s, hand, p, b);
    PopDistinct(s, p);
    forall q, c | c in Get(t, q) ensures BelongsTo(t, hand + {b}, q, c) {
      assert c in Get(s, q);
    }
    forall c | c in t.made ensures c in t.live || c in hand + {b} || Idle(t, c) {
      if c !in s.live && c !in hand && c != b {
        if c in Get(s, p) { assert c in Get(t, p); } else { StillIdle(s, t, c, p); }
      }
    }
  }

  lemma PushDistinct(s: State, p: Place, b: Block, hand: set<Block>)
    requires IdleOk(s, hand) && Distinct(s) && b in hand
    ensures Distinct(PushTo(s, p, b))
  {
    var t := PushTo(s, p, b);
    forall q, i | 0 <= i < |Get(t, q)| ensures if q == p && i == |Get(s, p)| then Get(t, q)[i] == b else i < |Get(s, q)| && Get(t, q)[i] == Get(s, q)[i] != b {
      if q != p || i < |Get(s, p)| { assert Get(s, q)[i] in Get(s, q); }
    }
  }

  /** Putting a block in hand onto a stack of its class. */
  lemma PushMoves(s: State, p: Place, b: Block, hand: set<Block>)
    requires StacksOk(s, hand) && MadeOk(s, hand) && LiveOk(s) && b in hand && s.made[b] == p.idx
    requires p.Cache? ==> |Get(s, p)| < MAX_CACHE
    ensures var t, less := PushTo(s, p, b), hand - {b};
            && StacksOk(t, less)
            && MadeOk(t, less)
            && LiveOk(t)
  {
    var t := PushTo(s, p, b);
    assert Get(t, p) == Get(s, p) + [b] && b in Get(t, p);
    PushDistinct(s, p, b, hand);
    forall q, c | c in Get(t, q) ensures BelongsTo(t, hand - {b}, q, c) {
      if q != p || c != b { assert c in Get(s, q) && BelongsTo(s, hand, q, c); }
    }
    forall c | c in t.made ensures c in t.live || c in hand - {b} || Idle(t, c) {
      if c !in s.live && c !in hand {
        if c in Get(s, p) { assert c in Get(t, p); } else { StillIdle(s, t, c, p); }
      }
    }
  }

  /** The counters only look at the shared lists and at the blocks made. */
  lemma CountsFrame(s: State, t: State)
    requires CountsOk(s) && t.made == s.made && t.allocCount == s.allocCount && t.useCount == s.useCount
    requires forall idx :: Get(t, Shared(idx)) == Get(s, Shared(idx))
    ensures CountsOk(t)
  {
    forall idx ensures ClassCounted(t, idx) {
      assert ClassCounted(s, idx);
      assert Made(t, idx) == Made(s, idx) && Used(t, idx) == Used(s, idx);
    }
  }

  lemma CacheMoves(s: State, c: Place, b: Block, hand: set<Block>)
    requires Inv(s, hand) && c.Cache?
    ensures Get(s, c) != [] ==> Inv(PopFrom(s, c), hand + {Top(s, c)}) && Top(s, c) !in hand && s.made[Top(s, c)] == c.idx
    ensures b in hand && s.made[b] == c.idx && |Get(s, c)| < MAX_CACHE ==>
              Inv(PushTo(s, c, b), hand - {b})
  {
    if Get(s, c) != [] {
      PopMoves(s, c, hand);
      CountsFrame(s, PopFrom(s, c));
    }
    if b in hand && s.made[b] == c.idx && |Get(s, c)| < MAX_CACHE {
      PushMoves(s, c, b, hand);
      CountsFrame(s, PushTo(s, c, b));
    }
  }

  lemma PoolPushInv(s: State, idx: nat, b: Block, hand: set<Block>)
    requires Inv(s, hand) && b in hand && s.made[b] == idx
    ensures Inv(PoolPush(s, idx, b), hand - {b})
  {
    var t := PoolPush(s, idx, b);
    PushMoves(s, Shared(idx), b, hand);
    NotOnAnyStack(s, b, hand, Shared(idx));
    forall k ensures ClassCounted(t, k) {
      PoolPushCount(s, idx, b, k);
    }
    Relabel(PushTo(s, Shared(idx), b), t, hand - {b});
  }

  lemma PoolPushCount(s: State, idx: nat, b: Block, k: nat)
    requires ClassCounted(s, k) && b in s.made && s.made[b] == idx && b !in Get(s, Shared(idx))
    ensures ClassCounted(PoolPush(s, idx, b), k)
  {
    var t := PoolPush(s, idx, b);
    assert Made(t, k) == Made(s, k);
    if k == idx {
      assert b in Used(s, k) && Used(t, k) == Used(s, k) - {b};
    } else {
      assert Used(t, k) == Used(s, k);
    }
  }

  lemma NotOnAnyStack(s: State, b: Block, hand: set<Block>, p: Place)
    requires StacksOk(s, hand) && b in hand
    ensures b !in Get(s, p)
  {
  }

  /** Counters play no part in where blocks are. */
  lemma Relabel(s: State, t: State, hand: set<Block>)
    requires StacksOk(s, hand) && MadeOk(s, hand) && LiveOk(s)
    requires t.stacks == s.stacks && t.live == s.live && t.made == s.made && t.large == s.large && t.next == s.next
    ensures StacksOk(t, hand) && MadeOk(t, hand) && LiveOk(t)
  {
    forall p ensures Get(t, p) == Get(s, p) { }
    forall b | b in t.made ensures b in t.live || b in hand || Idle(t, b) {
      if b !in s.live && b !in hand { var q :| b in Get(s, q); assert b in Get(t, q); }
    }
  }

  lemma ReusedBlock(s: State, idx: nat)
    requires Inv(s, {}) && idx < POOLS && Get(s, Shared(idx)) != []
    ensures var (t, b) := PoolPop(s, idx);
            && Inv(t, {b})
            && t.made[b] == idx
            && b !in s.live
  {
    var (t, b) := PoolPop(s, idx);
    var p := Shared(idx);
    assert b == Get(s, p)[|Get(s, p)| - 1] && b in Get(s, p);
    PopMoves(s, p, {});
    assert {} + {b} == {b};
    Relabel(PopFrom(s, p), t, {b});
    NotOnAnyStack(t, b, {b}, p);
    forall k ensures ClassCounted(t, k) {
      assert ClassCounted(s, k);
      ReusedCount(s, idx, k);
    }
  }

  lemma ReusedCount(s: State, idx: nat, k: nat)
    requires ClassCounted(s, k) && Get(s, Shared(idx)) != []
    requires var b := Top(s, Shared(idx)); b in s.made && s.made[b] == idx && b !in Get(PopFrom(s, Shared(idx)), Shared(idx))
    ensures ClassCounted(PoolPop(s, idx).0, k)
  {
    var (t, b) := PoolPop(s, idx);
    assert Made(t, k) == Made(s, k);
    if k == idx {
      assert Get(s, Shared(idx)) == Get(t, Shared(idx)) + [b];
      assert b !in Used(s, k) && Used(t, k) == Used(s, k) + {b};
    } else {
      assert Used(t, k) == Used(s, k);
    }
  }

  lemma NewBlock(s: State, idx: nat)
    requires Inv(s, {}) && idx < POOLS && Get(s, Shared(idx)) == []
    ensures var (t, b) := PoolPop(s, idx);
            && Inv(t, {b})
            && t.made[b] == idx
            && b !in s.live
  {
    var (t, b) := PoolPop(s, idx);
    assert b !in s.made && t.stacks == s.stacks;
    NewBlockStacks(s, t, b);
    forall k ensures ClassCounted(t, k) {
      assert b in Get(s, Shared(k)) ==> BelongsTo(s, {}, Shared(k), b);
      NewBlockCount(s, idx, k);
    }
  }

  lemma NewBlockCount(s: State, idx: nat, k: nat)
    requires ClassCounted(s, k) && s.next !in s.made && Get(s, Shared(idx)) == []
    requires s.next !in Get(s, Shared(k))
    ensures ClassCounted(PoolPop(s, idx).0, k)
  {
    var t := PoolPop(s, idx).0;
    assert t.made == s.made[s.next := idx] && Get(t, Shared(k)) == Get(s, Shared(k));
    OneMoreMade(s, t, s.next, idx, k);
    if k == idx {
      assert |Made(s, k) + {s.next}| == |Made(s, k)| + 1 && |Used(s, k) + {s.next}| == |Used(s, k)| + 1;
    }
  }

  lemma OneMoreMade(s: State, t: State, b: Block, idx: nat, k: nat)
    requires b !in s.made && t.made == s.made[b := idx] && Get(t, Shared(k)) == Get(s, Shared(k)) && b !in Get(s, Shared(k))
    ensures Made(t, k) == Made(s, k) + (if k == idx then {b} else {})
    ensures Used(t, k) == Used(s, k) + (if k == idx then {b} else {})
  {
  }

  lemma NewBlockStacks(s: State, t: State, b: Block)
    requires StacksOk(s, {}) && MadeOk(s, {}) && LiveOk(s) && b == s.next && t.next == b + 1
    requires b in t.made && t.made[b] < POOLS && t.made == s.made[b := t.made[b]]
    requires t.live == s.live && t.large == s.large && forall p :: Get(t, p) == Get(s, p)
    ensures StacksOk(t, {b}) && MadeOk(t, {b}) && LiveOk(t)
  {
    forall p, c | c in Get(t, p) ensures BelongsTo(t, {b}, p, c) {
      assert c in Get(s, p) && BelongsTo(s, {}, p, c);
    }
    forall c | c in t.made ensures c in t.live || c in {b} || Idle(t, c) {
      if c != b && c !in s.live { var q :| c in Get(s, q); assert c in Get(t, q); }
    }
  }

  // ----- Alloc and Release -------------------------------------------------------------------------

  /** A block in hand is handed out. */
  lemma HandOut(s: State, b: Block)
    requires Inv(s, {b})
    ensures s.made[b] < POOLS && Inv(s.(live := s.live[b := PoolSize(s.made[b])]), {})
  {
    var t := s.(live := s.live[b := PoolSize(s.made[b])]);
    assert t.stacks == s.stacks;
    forall p, c | c in Get(t, p) ensures BelongsTo(t, {}, p, c) {
      assert c in Get(s, p) && BelongsTo(s, {b}, p, c);
    }
    forall c | c in t.made ensures c in t.live || Idle(t, c) {
      if c != b && c !in s.live { var q :| c in Get(s, q); assert c in Get(t, q); }
    }
    CountsFrame(s, t);
  }

  /** A pooled block in use is taken in hand. */
  lemma TakeBack(s: State, b: Block)
    requires Inv(s, {}) && b in s.live && b in s.made
    ensures Inv(s.(live := s.live - {b}), {b})
  {
    var t := s.(live := s.live - {b});
    assert t.stacks == s.stacks;
    forall p, c | c in Get(t, p) ensures BelongsTo(t, {b}, p, c) {
      assert c in Get(s, p) && BelongsTo(s, {}, p, c);
    }
    forall c | c in t.made ensures c in t.live || c in {b} || Idle(t, c) {
      if c != b && c !in s.live { var q :| c in Get(s, q); assert c in Get(t, q); }
    }
    CountsFrame(s, t);
  }

  /** Blocks above 4096 bytes come and go without touching the pools. */
  lemma LargeMoves(s: State, t: State)
    requires Inv(s, {}) && t.stacks == s.stacks && t.made == s.made && t.next >= s.next
    requires t.allocCount == s.allocCount && t.useCount == s.useCount && LiveOk(t)
    requires forall b | b in s.made :: b in t.live <==> b in s.live
    ensures Inv(t, {})
  {
    forall p, c | c in Get(t, p) ensures BelongsTo(t, {}, p, c) {
      assert c in Get(s, p) && BelongsTo(s, {}, p, c);
    }
    forall c | c in t.made ensures c in t.live || Idle(t, c) {
      if c !in s.live { var q :| c in Get(s, q); assert c in Get(t, q); }
    }
    CountsFrame(s, t);
  }

  lemma AllocInv(s: State, t: ThreadId, size: int)
    requires Inv(s, {})
    ensures Inv(Alloc(s, t, size).0, {})
  {
    if size > MAX_ALLOC {
      LargeMoves(s, Alloc(s, t, size).0);
    } else if size > 0 {
      var idx := ClassOf(size);
      var cache := Cache(t, idx);
      if Get(s, cache) != [] {
        CacheMoves(s, cache, 0, {});
        assert {} + {Top(s, cache)} == {Top(s, cache)};
        HandOut(PopFrom(s, cache), Top(s, cache));
      } else {
        if Get(s, Shared(idx)) != [] { ReusedBlock(s, idx); } else { NewBlock(s, idx); }
        var (s1, b) := PoolPop(s, idx);
        HandOut(s1, b);
      }
    }
  }

  /** The last `n` blocks, the last one first. */
  function NewestFirst(q: seq<Block>, n: nat): seq<Block> {
    seq(n, i requires 0 <= i < n => if i < |q| then q[|q| - 1 - i] else 0)
  }

  /** Nothing but the stacks and the counters of the class changes. */
  ghost predicate Flushed(s: State, f: State, t: ThreadId, idx: nat, n: nat) {
    && f.made == s.made && f.live == s.live && f.large == s.large
    && var before := Get(s, Cache(t, idx));
    && n <= |before|
    && Get(f, Cache(t, idx)) == before[..|before| - n]
    && Get(f, Shared(idx)) == Get(s, Shared(idx)) + NewestFirst(before, n)
  }

  lemma FlushOneInv(s: State, t: ThreadId, idx: nat, hand: set<Block>)
    requires Inv(s, hand) && Get(s, Cache(t, idx)) != []
    ensures Inv(FlushOne(s, t, idx), hand) && Flushed(s, FlushOne(s, t, idx), t, idx, 1)
  {
    var c := Cache(t, idx);
    var b := Top(s, c);
    CacheMoves(s, c, b, hand);
    var s1 := PopFrom(s, c);
    PoolPushInv(s1, idx, b, hand + {b});
    assert hand + {b} - {b} == hand;
    assert Get(PoolPush(s1, idx, b), c) == Get(s1, c);
  }

  lemma FlushedOn(s: State, f: State, g: State, t: ThreadId, idx: nat, n: nat)
    requires Flushed(s, f, t, idx, 1) && Flushed(f, g, t, idx, n)
    ensures Flushed(s, g, t, idx, n + 1)
  {
  }

  lemma {:induction false} FlushInv(s: State, t: ThreadId, idx: nat, n: nat, hand: set<Block>)
    requires Inv(s, hand) && |Get(s, Cache(t, idx))| >= n
    ensures Inv(Flush(s, t, idx, n), hand) && Flushed(s, Flush(s, t, idx, n), t, idx, n)
    decreases n
  {
    if n > 0 {
      var f := FlushOne(s, t, idx);
      FlushOneInv(s, t, idx, hand);
      FlushInv(f, t, idx, n - 1, hand);
      FlushedOn(s, f, Flush(f, t, idx, n - 1), t, idx, n - 1);
    }
  }

  lemma ReleaseInv(s: State, t: ThreadId, b: Block)
    requires Inv(s, {}) && b in s.live
    ensures Inv(Release(s, t, b), {})
  {
    if s.live[b] > MAX_ALLOC {
      if b in s.made { IndexOfPoolSize(s.made[b]); }
      LargeMoves(s, Release(s, t, b));
    } else {
      assert b in s.made;
      var idx := ClassOf(s.live[b]);
      ClassIsUnique(PoolSize(s.made[b]), s.made[b]) by { SizeIsForPool(s.made[b]); }
      TakeBack(s, b);
      var freed := s.(live := s.live - {b});
      var c := Cache(t, idx);
      assert Get(freed, c) == Get(s, c);
      if |Get(s, c)| < MAX_CACHE {
        CacheMoves(freed, c, b, {b});
      } else {
        FlushInv(freed, t, idx, BATCH, {b});
        CacheMoves(Flush(freed, t, idx, BATCH), c, b, {b});
      }
      assert {b} - {b} == {};
    }
  }

  lemma SizeIsForPool(idx: nat)
    requires idx < POOLS
    ensures IsPoolFor(idx, PoolSize(idx)) && PoolSize(idx) <= MAX_ALLOC
  {
    if idx > 0 { PoolSizesGrow(idx - 1, idx); }
  }

  lemma {:induction false} RunInv(s: State, steps: seq<Step>, t: State)
    requires Inv(s, {}) && Runs(s, steps, t)
    ensures Inv(t, {})
    decreases |steps|
  {
    if steps != [] {
      match steps[0] {
        case Allocate(u, size) => AllocInv(s, u, size);
        case Free(u, b) => ReleaseInv(s, u, b);
      }
      RunInv(Apply(s, steps[0]), steps[1..], t);
    }
  }

  lemma StartInv()
    ensures Inv(START, {})
  {
    forall idx ensures ClassCounted(START, idx) {
      assert Made(START, idx) == {} && Used(START, idx) == {};
    }
  }

  // ----- Main results ------------------------------------------------------------------------------

  ghost predicate Cached(s: State, b: Block) { exists t, idx :: b in Get(s, Cache(t, idx)) }

  /** Over every run of every set of threads each pooled block is in exactly one place: in use, in one
      cache of one thread, or on one shared list, there only once, and always in its own class; and no
      cache exceeds 48 blocks. */
  lemma EveryBlockInOnePlace(steps: seq<Step>, s: State, b: Block)
    requires Runs(START, steps, s) && b in s.made
    ensures b in s.live || Idle(s, b)
    ensures b in s.live ==> !Idle(s, b)
    ensures forall p, q, i, j | 0 <= i < |Get(s, p)| && 0 <= j < |Get(s, q)| && Get(s, p)[i] == b == Get(s, q)[j] :: p == q && i == j
    ensures forall p | b in Get(s, p) :: p.idx == s.made[b] < POOLS
    ensures forall t, idx :: |Get(s, Cache(t, idx))| <= 48
  {
    StartInv();
    RunInv(START, steps, s);
    forall p | b in Get(s, p) ensures p.idx == s.made[b] < POOLS && b !in s.live {
      assert BelongsTo(s, {}, p, b);
    }
  }

  function Elements(q: seq<Block>): set<Block> { set b | b in q }

  lemma {:induction false} NoDuplicates(q: seq<Block>)
    requires forall i, j | 0 <= i < j < |q| :: q[i] != q[j]
    ensures |Elements(q)| == |q|
  {
    if q == [] {
      assert Elements(q) == {};
    } else {
      var r, last := q[..|q| - 1], q[|q| - 1];
      NoDuplicates(r);
      assert q == r + [last];
      assert last !in r;
      assert Elements(q) == Elements(r) + {last};
    }
  }

  /** `_useCount` is the blocks of the class in use or cached; `_allocCount` is those and the shared
      list together. */
  lemma CountersAreExact(steps: seq<Step>, s: State, idx: nat)
    requires Runs(START, steps, s)
    ensures Count(s.useCount, idx) == |Used(s, idx)|
    ensures forall b :: b in Used(s, idx) <==> b in s.made && s.made[b] == idx && (b in s.live || Cached(s, b))
    ensures Count(s.allocCount, idx) == |Used(s, idx)| + |Get(s, Shared(idx))|
  {
    StartInv();
    RunInv(START, steps, s);
    assert ClassCounted(s, idx);
    forall b ensures b in Used(s, idx) <==> b in s.made && s.made[b] == idx && (b in s.live || Cached(s, b)) {
      UsedIs(s, idx, b);
    }
    MadeIsUsedAndShared(s, idx);
  }

  lemma MadeIsUsedAndShared(s: State, idx: nat)
    requires StacksOk(s, {})
    ensures |Made(s, idx)| == |Used(s, idx)| + |Get(s, Shared(idx))|
  {
    var shared := Get(s, Shared(idx));
    NoDuplicates(shared);
    var listed := Elements(shared);
    forall b | b in listed ensures b in Made(s, idx) { assert BelongsTo(s, {}, Shared(idx), b); }
    assert Made(s, idx) == Used(s, idx) + listed && Used(s, idx) * listed == {};
  }

  lemma UsedIs(s: State, idx: nat, b: Block)
    requires Inv(s, {})
    ensures b in Used(s, idx) <==> b in s.made && s.made[b] == idx && (b in s.live || Cached(s, b))
  {
    if b in Used(s, idx) && b !in s.live {
      var p :| b in Get(s, p);
      assert BelongsTo(s, {}, p, b);
      assert p.Cache?;
      assert b in Get(s, Cache(p.t, p.idx));
    }
    if b in s.made && s.made[b] == idx && b in Get(s, Shared(idx)) {
      assert BelongsTo(s, {}, Shared(idx), b);
      if t, k :| b in Get(s, Cache(t, k)) { OnePlace(s, Shared(idx), Cache(t, k), b); }
    }
  }

  lemma OnePlace(s: State, p: Place, q: Place, b: Block)
    requires Distinct(s) && b in Get(s, p) && b in Get(s, q)
    ensures p == q
  {
    var i :| 0 <= i < |Get(s, p)| && Get(s, p)[i] == b;
    var j :| 0 <= j < |Get(s, q)| && Get(s, q)[j] == b;
  }

  /** The newest block of the thread's cache, else the newest of the shared list, else a new one. */
  function NextBlock(s: State, t: ThreadId, idx: nat): Block {
    var cache, shared := Get(s, Cache(t, idx)), Get(s, Shared(idx));
    if cache != [] then cache[|cache| - 1] else if shared != [] then shared[|shared| - 1] else s.next
  }

  /** `Alloc` never hands out a block that is in use, and the block is at least as large as asked,
      in whatever thread it was released before.  Up to 4096 bytes it comes from the smallest pool that is
      large enough, and is a new one only if the thread's cache and the shared list are empty. */
  lemma NoDoubleHandOut(steps: seq<Step>, s: State, t: ThreadId, size: int)
    requires Runs(START, steps, s) && size > 0
    ensures var (s1, got) := Alloc(s, t, size);
            |got| == 1 && got[0] !in s.live && got[0] in s1.live && s1.live[got[0]] >= size
            && s1.live == s.live[got[0] := s1.live[got[0]]]
    ensures size > 4096 ==> Alloc(s, t, size).1 == [s.next] && Alloc(s, t, size).0.live[s.next] == size
    ensures forall idx: nat | idx < POOLS && IsPoolFor(idx, size) :: Alloc(s, t, size).1 == [NextBlock(s, t, idx)]
  {
    StartInv();
    RunInv(START, steps, s);
    forall idx: nat | idx < POOLS && IsPoolFor(idx, size) ensures Alloc(s, t, size).1 == [NextBlock(s, t, idx)] {
      AllocIsNext(s, t, size, idx);
    }
    if size <= MAX_ALLOC {
      NextIsFree(s, t, ClassOf(size));
      AllocIsNext(s, t, size, ClassOf(size));
    }
  }

  /** It touches no other block in use. */
  lemma AllocIsNext(s: State, t: ThreadId, size: int, idx: nat)
    requires size > 0 && idx < POOLS && IsPoolFor(idx, size)
    ensures Alloc(s, t, size).1 == [NextBlock(s, t, idx)]
    ensures Alloc(s, t, size).0.live == s.live[NextBlock(s, t, idx) := PoolSize(idx)]
  {
    IndexOfPoolSize(idx);
    ClassIsUnique(size, idx);
  }

  lemma NextIsFree(s: State, t: ThreadId, idx: nat)
    requires IdleOk(s, {}) && LiveOk(s)
    ensures NextBlock(s, t, idx) !in s.live
  {
    var cache, shared := Cache(t, idx), Shared(idx);
    if Get(s, cache) != [] {
      assert Top(s, cache) in Get(s, cache) && BelongsTo(s, {}, cache, Top(s, cache));
    } else if Get(s, shared) != [] {
      assert Top(s, shared) in Get(s, shared) && BelongsTo(s, {}, shared, Top(s, shared));
    }
  }

  /** A released block goes on top of the releasing thread's cache for its class, after 16 blocks went
      to the shared list if the cache was full; so the same thread asking for that size again gets the
      same block back. */
  lemma ReleasedBlockComesBack(steps: seq<Step>, s: State, t: ThreadId, b: Block)
    requires Runs(START, steps, s) && b in s.live && b in s.made
    ensures s.made[b] < POOLS
    ensures var c, r := Cache(t, s.made[b]), Release(s, t, b);
            && Get(r, c) == (if |Get(s, c)| < 48 then Get(s, c) else Get(s, c)[..32]) + [b]
            && Get(r, Shared(s.made[b])) == Get(s, Shared(s.made[b])) + NewestFirst(Get(s, c), if |Get(s, c)| < 48 then 0 else 16)
            && r.live == s.live - {b}
            && Alloc(r, t, s.live[b]).1 == [b]
  {
    StartInv();
    RunInv(START, steps, s);
    var idx := s.made[b];
    TakeBack(s, b);
    var freed := s.(live := s.live - {b});
    assert Get(freed, Cache(t, idx)) == Get(s, Cache(t, idx));
    if |Get(s, Cache(t, idx))| == 48 { FlushInv(freed, t, idx, BATCH, {b}); }
    ReleaseToCache(s, t, b, idx);
    SizeIsForPool(idx);
    IndexOfPoolSize(idx);
    AllocIsNext(Release(s, t, b), t, PoolSize(idx), idx);
  }

  lemma ReleaseToCache(s: State, t: ThreadId, b: Block, idx: nat)
    requires b in s.live && idx < POOLS && s.live[b] == PoolSize(idx) && |Get(s, Cache(t, idx))| <= 48
    requires var freed := s.(live := s.live - {b});
             |Get(s, Cache(t, idx))| == 48 ==> Flushed(freed, Flush(freed, t, idx, BATCH), t, idx, BATCH)
    ensures var c, r := Cache(t, idx), Release(s, t, b);
            && Get(r, c) == (if |Get(s, c)| < 48 then Get(s, c) else Get(s, c)[..32]) + [b]
            && Get(r, Shared(idx)) == Get(s, Shared(idx)) + NewestFirst(Get(s, c), if |Get(s, c)| < 48 then 0 else 16)
            && r.live == s.live - {b}
  {
    SizeIsForPool(idx);
    ClassIsUnique(PoolSize(idx), idx);
    var freed := s.(live := s.live - {b});
    assert Get(freed, Cache(t, idx)) == Get(s, Cache(t, idx));
    if |Get(s, Cache(t, idx))| == 48 { PushFlushed(freed, Flush(freed, t, idx, BATCH), t, idx, BATCH, b); }
  }

  lemma PushFlushed(s: State, f: State, t: ThreadId, idx: nat, n: nat, b: Block)
    requires Flushed(s, f, t, idx, n)
    ensures var c, r := Cache(t, idx), PushTo(f, Cache(t, idx), b);
            && Get(r, c) == Get(s, c)[..|Get(s, c)| - n] + [b] && r.live == s.live
            && Get(r, Shared(idx)) == Get(s, Shared(idx)) + NewestFirst(Get(s, c), n)
  {
  }

  // ----- The object --------------------------------------------------------------------------------

  class PoolAllocator {
    const table: array<nat>
    const sizes: seq<int>
    var stacks: map<Place, seq<Block>>
    var live: map<Block, int>
    var allocCount: map<nat, int>
    var useCount: map<nat, int>
    var made: map<Block, nat>
    var large: set<Block>
    var next: Block

    ghost predicate TableOk()
      reads table
    {
      && table.Length == MAX_ALLOC + 1 && |sizes| == POOLS
      && (forall i | 0 <= i < POOLS :: sizes[i] == PoolSize(i))
      && (forall s | 0 <= s <= MAX_ALLOC :: table[s] < POOLS && IsPoolFor(table[s], s))
    }

    ghost function View(): State
      reads this
    {
      State(stacks, live, allocCount, useCount, made, large, next)
    }

    constructor ()
      ensures TableOk() && View() == START
    {
      var t, z := Init();
      table, sizes := t, z;
      stacks, live, allocCount, useCount, made, large, next := map[], map[], map[], map[], map[], {}, 0;
    }

    /** The pool of a size, and its cache slot by the index formula. */
    method Lookup(size: int) returns (idx: nat, slot: nat)
      requires TableOk() && 0 <= size <= MAX_ALLOC
      ensures idx == slot == ClassOf(size)
    {
      idx := table[size];
      ClassIsUnique(size, idx);
      slot := PoolIndex(sizes[idx]);
    }

    function Stack(p: Place): seq<Block>
      reads this
    {
      if p in stacks then stacks[p] else []
    }

    method PopTop(p: Place) returns (b: Block)
      requires Stack(p) != []
      modifies this`stacks
      ensures b == Top(old(View()), p) && View() == PopFrom(old(View()), p)
    {
      var q := Stack(p);
      b := q[|q| - 1];
      stacks := stacks[p := q[..|q| - 1]];
    }

    method PushTop(p: Place, b: Block)
      modifies this`stacks
      ensures View() == PushTo(old(View()), p, b)
    {
      stacks := stacks[p := Stack(p) + [b]];
    }

    method AllocBlock(t: ThreadId, size: int) returns (got: seq<Block>)
      requires TableOk()
      modifies this
      ensures (View(), got) == Alloc(old(View()), t, size)
    {
      if size <= 0 { return []; }
      if size > MAX_ALLOC {
        got := [next];
        live, large, next := live[next := size], large + {next}, next + 1;
        return;
      }
      var idx, slot := Lookup(size);
      var b;
      if Stack(Cache(t, slot)) != [] {
        b := PopTop(Cache(t, slot));
      } else {
        if Stack(Shared(idx)) != [] {
          b := PopTop(Shared(idx));
        } else {
          b := next;
          made, next := made[b := idx], next + 1;
          allocCount := allocCount[idx := Count(allocCount, idx) + 1];
        }
        useCount := useCount[idx := Count(useCount, idx) + 1];
      }
      live := live[b := sizes[idx]];
      return [b];
    }

    /** One round of the flush loop. */
    method MoveToShared(t: ThreadId, idx: nat)
      requires Stack(Cache(t, idx)) != []
      modifies this`stacks, this`useCount
      ensures View() == FlushOne(old(View()), t, idx)
      ensures |Stack(Cache(t, idx))| == old(|Stack(Cache(t, idx))|) - 1
    {
      var flushed := PopTop(Cache(t, idx));
      useCount := useCount[idx := Count(useCount, idx) - 1];
      PushTop(Shared(idx), flushed);
    }

    method FlushCache(t: ThreadId, idx: nat)
      requires |Stack(Cache(t, idx))| >= BATCH
      modifies this`stacks, this`useCount
      ensures View() == Flush(old(View()), t, idx, BATCH)
    {
      for i := 0 to BATCH
        invariant |Stack(Cache(t, idx))| >= BATCH - i
        invariant Flush(View(), t, idx, BATCH - i) == Flush(old(View()), t, idx, BATCH)
      {
        MoveToShared(t, idx);
      }
    }

    method ReleaseBlock(t: ThreadId, b: Block)
      requires TableOk() && b in live && live[b] >= 0
      modifies this
      ensures View() == Release(old(View()), t, b)
    {
      var allocSize := live[b];
      live := live - {b};
      if allocSize > MAX_ALLOC {
        large := large - {b};
        return;
      }
      var idx, slot := Lookup(allocSize);
      var c := Cache(t, slot);
      if |Stack(c)| >= MAX_CACHE {
        FlushCache(t, idx);
      }
      PushTop(c, b);
    }
  }
}
