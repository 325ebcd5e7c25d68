# Verified model of the IOCP chat engine

The engine runs chat rooms as actors on a pool of I/O worker threads. This project models its state
machines in Dafny and proves what each of them keeps over whole runs. Sockets and the console are not
modelled; the kernel appears as a step that completes a send or a receive with some number of bytes.

How the model is laid out:

- **Concurrency.** Where several threads act on one object (`Scheduler`, `Sending`,
  `Tokens`, `Timers`) the model is a state machine whose steps are the atomic operations of
  the code: one `fetch_add`, one locked section, one compare-and-swap, one kernel completion. A *call*
  is one invocation in progress; all interleavings of any number of calls are allowed. Where an
  operation of one thread is atomic for the property at hand (`Pools`, `Buffers`,
  `Rooms`) a step is the whole operation. Results hold for every `Runs(...)`.
- **Objects.** Locked sections, loops and single-threaded objects are also given as classes whose
  methods have the loops of the code and are proved equal to the functions the state machines use.
- **History.** Fields such as `inserted`, `executed`, `wire`, `accepted`, `received`, `delivered`,
  `granted`, `consumed`, `made`, `done` record the past and influence nothing.

| module | component |
|---|---|
| `Common`, `Bytes`, `Widths` | calls in progress; bytes and little-endian numbers; integer widths |
| `Scheduler`, `Actors`, `Drain` | `JobQueue`, `GlobalQueue`, the worker loop |
| `Timers` | `JobTimer` |
| `Sending` | `Session` sending |
| `Rings`, `Receiving` | `RingBuffer`, `Session` receiving, `PacketSession` |
| `Codec`, `BufferIO`, `Packets` | packet generator, `BufferWriter`, `BufferReader`, generated packets |
| `Buffers` | `SendBufferManager`, `SendBufferChunk`, `SendBuffer` |
| `EndToEnd` | sender, wire and receiver together |
| `Tokens`, `Rates` | `TokenBucket` |
| `Pools` | `PoolAllocator`, `MemoryPool` |
| `Rooms` | `Room`, enter/leave handlers, `ClientSession::OnDisconnected` |
| `Latency` | `LatencyMonitor` |

## Where the code does not do what it seems to mean

Each of these is a lemma with a concrete input, next to the exact condition under which the code is fine.

- `MoveReadPos(0)` fails, so a receive that completes no packet ends the connection although the
  framing loop means to wait: `PartialPacketDisconnects`, `SurvivesExactlyWhenProductive`.
- `MakeSendBuffer` accepts packets of 4096 bytes, but the 4096-byte ring of a server session keeps one
  byte free, so such a packet can never be delivered to the server: `LargestPacketNeverArrives`,
  `DeliverableExactlyWhenItFits`.
- A string of 65536 bytes is written as an empty one: `LongTextIsLost`, `RoundTripExactlyWhenShort`.
- A packet that does not fit leaves the thread's chunk open, and the next `Open` of that thread trips
  its assertion: `MakeSendBuffer` (`ok <==> Fits`, `ok <==> m.Ready()`), `TextPacketFits` for a string of
  4091 bytes.
- Two enter requests handled before the first `Enter` job runs put a session into two rooms:
  `TwoEntersTwoRooms`, `RequestBreaksExactlyWhenItClashes`, `OneRoomExactlyWithoutLateEnter`,
  `AtMostOneRoom`.
- A session that disconnects while its `Enter` is pending becomes a member afterwards and nothing is
  left that would remove it: `DisconnectedMemberStays`, `StaysExactlyWhenArriving`, `DepartureDecides`.
- The refill sum is 32 bits wide; it keeps the tokens in range exactly while it does not overflow:
  `SaneUnlessOverflow`, `InRangeExactlyWithoutOverflow`, `PoliteRejectedExactlyOnOverflow`,
  `FullBucketAdmits`, `LongIdleIsRejected`. Only the length of a single gap matters, not that of the run;
  and an overflow only takes tokens away, so the upper bounds hold regardless. This is about the class:
  the server gives its limiter 40 tokens and disconnects sessions that are silent for 15 seconds, so its
  limiters are not seen to idle that long.
- The stored maximum latency is a 32-bit cast: `LongestIsLost`, `MaximumExactlyWhenSmall`.
- The latency counters are 32 bits wide: `OverfullLooksEmpty`, `GetPercentile` (`a == Fallback <==> ...`);
  and the bucket index is cast to `int32`: `HugeSampleIsOutside`, `IndexRightExactly`.

Besides, the repository's README speaks of 13 size classes; `PoolAllocator::Init` creates 48, and the
model follows the code.

## Model

| member | source | states |
|---|---|---|
| Actors.TokenExactlyWhenCounted | Source/ServerEngine/Job/JobQueue.cpp:7-50 | In every interleaving a queue has exactly one scheduling token (electing pusher, run-queue entry or worker) while its job count is positive and none otherwise |
| Actors.MutualExclusion | Source/ServerEngine/Job/JobQueue.cpp:24-51 | Two workers never hold or run the same queue at once, and a held queue is not waiting in the run queue |
| Actors.ExecutedInOrder | Source/ServerEngine/Job/JobQueue.cpp:9-50 | Executed jobs, the rest of the batch (at most 64) and the queue spell the insertion history, so jobs run once and in order; the count is queue plus pushes before their insert plus the unsubtracted batch |
| Actors.NothingStranded | Source/ServerEngine/Job/JobQueue.cpp:14-22 | A queue no call is working on and absent from the run queue has executed everything ever inserted |
| Actors.RunQueueIsFifo | Source/ServerEngine/Job/GlobalQueue.cpp:6-21 | For any number of pushers and workers the queues that pops get, followed by the run queue, are those registered, in order |
| Actors.BatchIsTheOldest | Source/ServerEngine/Job/JobQueue.cpp:29-36 | A batch is the oldest 64 jobs, or all if there are fewer, and the rest stays in order |
| Actors.PushInsertsItsJob | Source/ServerEngine/Job/JobQueue.cpp:5-12 | Whatever happens between the add and the lock, a push inserts the job it was given at the end of its queue and touches no other |
| Drain.Engine.Push | Source/ServerEngine/Job/JobQueue.cpp:5-22 | The job goes to the end of its queue, which is registered exactly if it was empty |
| Drain.Engine.PopBatch | Source/ServerEngine/Job/JobQueue.cpp:29-36 | Takes the oldest jobs, 64 at most, and leaves the rest in order |
| Drain.Engine.PopAndExecute | Source/ServerEngine/Job/JobQueue.cpp:24-51 | Serves the queue at the front and re-registers it behind the others exactly if jobs remain |
| Drain.Engine.Drain | Source/ChatServer/Main.cpp:69-72 | Without new pushes the loop ends with all queues empty, after exactly the sum of n/64 rounded up calls, serving queues in the order of Turns |
| Drain.TurnsCount | Source/ChatServer/Main.cpp:69-72 | The number of turns is exactly the work registered |
| Drain.FirstRound | Source/ServerEngine/Job/GlobalQueue.cpp:6-21 | The next turns go to the registered queues in FIFO order |
| Drain.RoundRobin | Source/ServerEngine/Job/GlobalQueue.cpp:6-21 | Between two turns of one queue every other waiting queue gets exactly one turn |
| Timers.NeverEarlyNeverTwice | Source/ServerEngine/Job/JobTimer.cpp:8-51 | No job leaves before its tick, which is afterMs after the clock its Reserve read; each reserved item leaves at most once, and between distributions is either in the heap or has left exactly once; the flag is set exactly while a thread distributes |
| Timers.OneDistributorInOrder | Source/ServerEngine/Job/JobTimer.cpp:21-51 | Only one thread distributes; what it has handed out so far is in nondecreasing tick order and due |
| Timers.CompletedInOrder | Source/ServerEngine/Job/JobTimer.cpp:21-51 | Every completed Distribute of a run handed out exactly what it drained, in nondecreasing tick order and all due |
| Timers.PushedExactlyWhenAlive | Source/ServerEngine/Job/JobTimer.cpp:42-48 | An item that left the heap reached its owner's queue if and only if the owner was alive when that item was pushed |
| Timers.LivingOwnersGetTheirJobs | Source/ServerEngine/Job/JobTimer.cpp:8-51 | For an owner alive throughout, each item not in the heap between distributions was pushed exactly as often as it was reserved |
| Timers.JobTimer.DrainExpired | Source/ServerEngine/Job/JobTimer.cpp:29-40 | The drained items are sorted, all due, and together with the rest the old heap; every remaining item is later than now |
| Sending.WireIsAPrefix | Source/ServerEngine/Network/Session.cpp:198-256 | The wire is always a prefix of the accepted bytes; while connected the unsent buffers from the offset on complete it exactly |
| Sending.OneSenderNoLostWakeup | Source/ServerEngine/Network/Session.cpp:350-379 | At most one sender or outstanding send; while connected there is one whenever anything is unsent, and nothing is unsent when the flag is clear |
| Sending.QueueBounds | Source/ServerEngine/Network/Session.cpp:206-239 | The empty-gather branch is unreachable, the offset lies inside the first buffer whenever it is used, queued plus in-flight buffers never exceed 564 |
| Sending.EverythingCanGoOut | Source/ServerEngine/Network/Session.cpp:309-380 | From every reachable connected state without a recoverable error, completions alone can bring everything accepted onto the wire |
| Sending.AcceptedExactlyWithRoom | Source/ServerEngine/Network/Session.cpp:46-58 | Over any run exactly the buffers of the calls that meet fewer than 500 queued buffers (with their own, for a list) are accepted, in lock order; if all do, no call overflows |
| Sending.FullQueueDisconnects | Source/ServerEngine/Network/Session.cpp:60-64 | A call that meets a full queue accepts nothing and ends the connection for good with its next step |
| Sending.NothingAfterDisconnect | Source/ServerEngine/Network/Session.cpp:198-201 | A disconnected session never reconnects, accepts nothing from later calls, and sends nothing more than what is outstanding or being submitted |
| Sending.ConsumeKeepsTheRest | Source/ServerEngine/Network/Session.cpp:322-346 | After a partial completion the kept buffers from the new offset on are exactly the bytes that did not go out |
| Sending.ConsumeIsSuffix | Source/ServerEngine/Network/Session.cpp:341-342 | The kept buffers are the last ones in order |
| Sending.Session.Enqueue | Source/ServerEngine/Network/Session.cpp:46-58 | Appends the buffers unless 500 are queued, for a list counting its own; elects a sender exactly if there was none |
| Sending.Session.Gather | Source/ServerEngine/Network/Session.cpp:210-232 | Moves the oldest buffers in flight, all or 64; the kernel's segments together are their bytes from the offset on |
| Sending.Session.Uncompleted | Source/ServerEngine/Network/Session.cpp:327-346 | The loop over completed bytes computes Consume |
| Sending.Session.PushFront | Source/ServerEngine/Network/Session.cpp:356-360 | Re-insertion in reverse keeps the buffers in order in front of the queue |
| Sending.Session.ProcessSend | Source/ServerEngine/Network/Session.cpp:309-380 | Drops what was sent, puts the rest back, clears the flag exactly if nothing is left |
| Rings.LiveExtends | Source/ServerEngine/Buffer/RingBuffer.cpp:40-61 | Bytes placed in the slots after the write position become the newest bytes when it moves |
| Rings.WriteSpansAreTheFreeSlots | Source/ServerEngine/Buffer/RingBuffer.cpp:92-142 | The write spans are the first min(free, maxBytes) free slots in order, at most two, none only when full |
| Rings.ReadSpansAreTheLiveSlots | Source/ServerEngine/Buffer/RingBuffer.cpp:144-184 | The read spans are the oldest min(stored, maxBytes) live slots in order, none only when empty |
| Rings.FreeIsNotLive | Source/ServerEngine/Buffer/RingBuffer.cpp:28-38 | A free slot is never a live slot |
| Rings.RingBuffer.Write | Source/ServerEngine/Buffer/RingBuffer.cpp:40-61 | Appends exactly when 0 < size <= free |
| Rings.RingBuffer.Peek | Source/ServerEngine/Buffer/RingBuffer.cpp:71-90 | Returns the oldest bytes exactly when 0 < size <= stored |
| Rings.RingBuffer.Read | Source/ServerEngine/Buffer/RingBuffer.cpp:63-69 | Returns and removes the oldest bytes |
| Rings.RingBuffer.GetWriteSpan | Source/ServerEngine/Buffer/RingBuffer.cpp:92-142 | The spans to scatter into |
| Rings.RingBuffer.GetReadSpan | Source/ServerEngine/Buffer/RingBuffer.cpp:144-184 | The spans hold the stored bytes in order |
| Rings.RingBuffer.MoveWritePos | Source/ServerEngine/Buffer/RingBuffer.cpp:186-193 | Appends the bytes lying after the write position, exactly when 0 < size <= free |
| Rings.RingBuffer.MoveReadPos | Source/ServerEngine/Buffer/RingBuffer.cpp:195-202 | Removes the oldest bytes, exactly when 0 < size <= stored |
| Rings.PerformAll | Source/ServerEngine/Buffer/RingBuffer.cpp:22-202 | For any sequence of operations, scatter and gather through the spans included, the ring gives the answers of a byte queue bounded by capacity - 1 |
| Receiving.FramesSound | Source/ServerEngine/Network/PacketSession.cpp:3-26 | The reference framer splits the stream into self-sized packets and a rest without a whole packet |
| Receiving.FramesComplete | Source/ServerEngine/Network/PacketSession.cpp:3-26 | There is only one such split |
| Receiving.FramesResume | Source/ServerEngine/Network/PacketSession.cpp:3-26 | Framing can be resumed from the rest, whatever the chunking |
| Receiving.SentPacketsAreFramed | Source/ServerEngine/Network/PacketSession.cpp:3-26 | A concatenation of MakeSendBuffer outputs is cut into exactly those packets |
| Receiving.OnRecv | Source/ServerEngine/Network/PacketSession.cpp:3-26 | The loop delivers the packets of the framer and returns the bytes cut, or -1 on a bad size |
| Receiving.Receiver.RegisterRecv | Source/ServerEngine/Network/Session.cpp:167-196 | A receive is outstanding afterwards exactly if the session was connected, the ring has room and the receive is accepted; otherwise it is disconnected |
| Receiving.Receiver.ProcessRecv | Source/ServerEngine/Network/Session.cpp:279-307 | On the ring buffer, one completion does what ProcessedRecv says on plain bytes |
| Receiving.DeliveredAreTheFrames | Source/ServerEngine/Network/Session.cpp:279-307 | For every stream, split and disconnect the delivered packets are those of the received bytes, a prefix for any longer stream; while a receive is outstanding the ring holds exactly the uncut remainder, which announces more bytes than it has |
| Receiving.SurvivesExactlyWhenProductive | Source/ServerEngine/Network/Session.cpp:299-304 | Over every run the connection survives if and only if nobody disconnects it, all receives are accepted and each completes at least one packet and meets no bad size; then all packets are delivered |
| Receiving.DisconnectedStops | Source/ServerEngine/Network/Session.cpp:167-170 | A disconnected session stays so and at most the receive outstanding still completes |
| Receiving.PartialPacketDisconnects | Source/ServerEngine/Buffer/RingBuffer.cpp:195-198 | Part of a packet ends the connection although the framer would wait |
| Receiving.DeliverableExactlyWhenItFits | Source/ServerEngine/Buffer/RingBuffer.cpp:28-38 | A well-formed packet can be delivered through a ring, by some run, if and only if it is no longer than the bytes the ring holds |
| Receiving.LargestPacketNeverArrives | Source/ChatServer/Session/ClientSession.cpp:7-10 | The instance of the server: no run delivers a 4096-byte packet through a ring of 4096 bytes |
| Codec.GeneratePacketStruct | Source/PacketGenerator/Program.cs:144-227 | For every schema the emitted read calls and the emitted write calls, string or scalar, plain or in a counted loop, both follow the one layout: members, then lists |
| Codec.MembersThenLists | Source/PacketGenerator/Program.cs:200-224 | For every schema and value a packet holds, behind its header, the members and then list by list the 16-bit count and the elements |
| Codec.ReadsMembersThenLists | Source/PacketGenerator/Program.cs:173-198 | For every schema and input, what the reader returns is one value for each member and one for each list, and is what the packet holds in that order |
| Codec.FieldsInOrder | Source/PacketGenerator/Program.cs:201-207 | Members are on the wire in schema order |
| Codec.ItemsInOrder | Source/PacketGenerator/Program.cs:214-223 | Elements are on the wire in list order |
| Codec.ValuesOnTheWire | Source/ServerEngine/Buffer/BufferWriter.h:22-53 | A scalar takes 1, 2, 4 or 8 bytes by its type, a text its 16-bit length and its bytes |
| Codec.RoundTrip | Source/PacketGenerator/Program.cs:173-224 | For every schema and every value without over-long strings and lists, reading what was written returns the value and the bytes after it |
| Codec.Canonical | Source/PacketGenerator/Program.cs:173-198 | Whatever the reader accepts, re-encoding reproduces exactly the bytes consumed |
| Codec.RoundTripExactlyWhenShort | Source/ServerEngine/Buffer/BufferWriter.h:42-53 | The value comes back if and only if no string length and no list count exceeds 65535 |
| Codec.FittingListsAreShort | Source/PacketGenerator/Program.cs:209-224 | A packet that fits cannot hold a truncated list count, if list elements take at least one byte |
| Codec.PacketSurvives | Source/Common/Protocol/PacketProtocol.h:214-254 | A packet that fits, with texts below 65536 bytes and list elements of at least one member, carries its exact size and its id, and its reader returns the original value with nothing left over |
| Codec.LongTextIsLost | Source/ServerEngine/Buffer/BufferWriter.h:44 | A string of 65536 bytes is read back as an empty one |
| Codec.TextPacketFits | Source/PacketGenerator/PacketFormat.cs:80-98 | A packet of one string fits exactly when at most 4090 of its bytes are written; with 4091 bytes it does not |
| BufferIO.BufferWriter.Write | Source/ServerEngine/Buffer/BufferWriter.h:33-40 | Appends exactly when the bytes fit, and touches nothing outside the buffer |
| BufferIO.BufferWriter.WriteString | Source/ServerEngine/Buffer/BufferWriter.h:42-53 | Appends the 16-bit length and that many bytes, exactly when they fit |
| BufferIO.BufferReader.Read | Source/ServerEngine/Buffer/BufferReader.h:53-63 | Takes the next bytes exactly when there are enough, otherwise only clears the valid flag |
| BufferIO.BufferReader.ReadString | Source/ServerEngine/Buffer/BufferReader.h:65-84 | Takes the length and that many bytes exactly when both are there, otherwise clears the valid flag |
| Packets.RunWriter | Source/PacketGenerator/Program.cs:200-224 | Running the emitted write calls succeeds exactly when the whole encoding fits, and then has appended it |
| Packets.RunReader | Source/PacketGenerator/Program.cs:173-198 | Running the emitted read calls is Decode on the remaining bytes |
| Packets.FillPacket | Source/PacketGenerator/PacketFormat.cs:80-98 | Placeholder header, payload, patched header: the buffer holds the packet exactly when it fits in 4096 bytes |
| Packets.MakeSendBuffer | Source/Common/Protocol/PacketProtocol.h:229-254 | Succeeds exactly when the packet fits, keeps all earlier bytes of the chunk, and otherwise leaves the chunk open so that the thread cannot open another |
| Packets.ReadPacket | Source/PacketGenerator/PacketFormat.cs:42-57 | Never reads past the given bytes and is exactly DecodePacket; what it returns are the members and then the lists behind the header |
| Buffers.SharedBuffersStayConstant | Source/ServerEngine/Buffer/SendBuffer.cpp:25-107 | Over every run of all threads a closed buffer keeps its bytes |
| Buffers.ClosedBuffersTile | Source/ServerEngine/Buffer/SendBuffer.cpp:50-67 | The closed buffers of every chunk tile it from 0 up to the used mark: each starts exactly where the previous one ended |
| Buffers.ClosedBuffersAreApart | Source/ServerEngine/Buffer/SendBuffer.cpp:50-67 | Two closed buffers of one chunk never overlap, and successive ones touch |
| Buffers.WritesStayInside | Source/ServerEngine/Buffer/SendBuffer.cpp:72-89 | A write puts its bytes at its offset in the writer's own open buffer and changes nothing else; threads never share a current chunk |
| Buffers.OpensAndCloses | Source/ServerEngine/Buffer/SendBuffer.cpp:50-89 | A thread with nothing open gets the tail of its chunk if 64 KB leave room, otherwise a new chunk; what is closed are the first n bytes of its open buffer |
| Buffers.SendBufferChunk.Open | Source/ServerEngine/Buffer/SendBuffer.cpp:50-60 | Opens at the used mark exactly when the tail is large enough |
| Buffers.SendBufferManager.Open | Source/ServerEngine/Buffer/SendBuffer.cpp:72-89 | Continues in the current chunk if it has room, otherwise in a new one |
| EndToEnd.DeliveredPacketsAreSentPackets | Source/ServerEngine/Network/PacketSession.cpp:3-26 | Whatever the interleaving, partial sends and splits, delivered packets are a prefix of the packets sent and, with texts below 65536 bytes and list elements of at least one member, read back as the values they were made from |
| Tokens.RefillStaysInRange | Source/ServerEngine/Utility/TokenBucket.h:60 | The tokens stay in [0, capacity] if and only if the 32-bit sum does not overflow |
| Tokens.NeverOverAdmits | Source/ServerEngine/Utility/TokenBucket.h:17-66 | Under any interleaving, overflow or not, the credited intervals tile the time to the last refill, tokens never exceed the capacity, and at most capacity + rate * elapsed / 1000 is consumed since the reset; tokens are not negative if every single credit fits beside a full bucket |
| Tokens.InRangeExactlyWithoutOverflow | Source/ServerEngine/Utility/TokenBucket.h:47-60 | The tokens stay in [0, capacity] throughout a run if and only if none of its refills overflows 32 bits |
| Rates.AloneIsSequential | Source/ServerEngine/Utility/TokenBucket.h:17-66 | From any state, a call that nobody interrupts leaves the bucket that the sequential Consume leaves and takes its tokens if and only if that admits it |
| Rates.RefillBounds | Source/ServerEngine/Utility/TokenBucket.h:47-54 | A refill that does not overflow credits at most the nominal income and, from 20 tokens a second on, more than half of it unless it fills the bucket |
| Rates.SaneUnlessOverflow | Source/ServerEngine/Utility/TokenBucket.h:47-60 | Refill keeps the tokens in [0, capacity] if and only if it is not due or the 32-bit sum does not overflow |
| Rates.LongIdleIsRejected | Source/ServerEngine/Utility/TokenBucket.h:54-60 | A full default bucket idle for 3.4 years turns negative and rejects a request |
| Rates.FullBucketAdmits | Source/ServerEngine/Utility/TokenBucket.h:47-60 | A full bucket rejects a single request exactly when it was idle so long that the sum overflows |
| Rates.WindowBound | Source/ServerEngine/Utility/TokenBucket.h:17-66 | After any history, overflow or not, a window admits at most capacity + rate * (w1 - w0 + 49) / 1000 |
| Rates.PoliteRejectedExactlyOnOverflow | Source/ServerEngine/Utility/TokenBucket.h:39-66 | From a full bucket, at 20 tokens a second or more and with no gap that earns 2^31 tokens: a stream with at most B + rate * d / 2000 requests in every window, B + 49 * rate / 2000 <= capacity, is never rejected if and only if no refill overflows |
| Rates.PoliteIsNeverRejected | Source/ServerEngine/Utility/TokenBucket.h:39-66 | So it is never rejected, however long it lasts, if no single gap earns so much that it overflows beside a full bucket |
| Rates.SpacedRejectedExactlyOnOverflow | Source/ServerEngine/Utility/TokenBucket.h:49-60 | The same condition for a stream spaced at least 50 ms apart, from a full bucket at 20 tokens a second or more |
| Rates.SpacedIsNeverRejected | Source/ServerEngine/Utility/TokenBucket.h:49-60 | Such a stream is never rejected, however long it lasts, if no single gap earns so much that it overflows beside a full bucket |
| Pools.Init | Source/ServerEngine/Memory/Memory.cpp:22-69 | 48 pools from 32 to 4096 bytes in steps of 32, 128 and 256; the table names, for every size up to 4096, the smallest that is large enough |
| Pools.IndexOfPoolSize | Source/ServerEngine/Memory/Memory.cpp:102-104 | The index formula inverts the pool sizes |
| Pools.ClassIsUnique | Source/ServerEngine/Memory/Memory.cpp:98-104 | The table is determined by that, and a block's header size leads back to its pool and cache slot |
| Pools.EveryBlockInOnePlace | Source/ServerEngine/Memory/Memory.cpp:81-160 | Over every run each pooled block is in use, in one cache or on one shared list, exactly once and in its class; no cache exceeds 48 |
| Pools.CountersAreExact | Source/ServerEngine/Memory/MemoryPool.cpp:19-46 | _useCount is the blocks in use or cached, _allocCount is those plus the shared list |
| Pools.NoDoubleHandOut | Source/ServerEngine/Memory/Memory.cpp:81-118 | Alloc returns a block not in use and at least as large as asked: the newest of the thread's cache of the smallest sufficient pool, else of its shared list, else a new one |
| Pools.ReleasedBlockComesBack | Source/ServerEngine/Memory/Memory.cpp:120-160 | A released block tops the releasing thread's cache of its class, and is the next one handed out; a full cache of 48 first gives its 16 newest blocks to the shared list, newest first |
| Pools.PoolAllocator.AllocBlock | Source/ServerEngine/Memory/Memory.cpp:81-118 | With the table and the index formula, Alloc does what the function Alloc says |
| Pools.PoolAllocator.FlushCache | Source/ServerEngine/Memory/Memory.cpp:152-157 | Returns the 16 newest cached blocks to the pool |
| Pools.PoolAllocator.ReleaseBlock | Source/ServerEngine/Memory/Memory.cpp:120-160 | With the table and the index formula, Release does what the function Release says |
| Rooms.CurrentRoomHoldsTheSession | Source/ChatServer/Room/Room.cpp:8-73 | Over all runs a session is a member of its current room |
| Rooms.AtMostOneRoom | Source/ChatServer/Room/Room.cpp:8-73 | A session with at most one pending room job is in at most one room at every step, whatever others do |
| Rooms.PendingJobsDecide | Source/ChatServer/Room/Room.cpp:8-73 | From any state, a session that makes no further request ends, once nothing of it is pending, in exactly the rooms a pending LeaveAndEnter leads to or whose queue, read from where it is now, leaves it inside; the order in which rooms run does not matter |
| Rooms.EnterMovesTheSession | Source/ChatServer/Protocol/PacketHandlerImpl.cpp:59-84 | A session that has made one request at a time and has nothing pending, after an enter request and no other, ends in the target room, in no other, and points there, whatever other sessions do |
| Rooms.OneRoomExactlyWithoutLateEnter | Source/ChatServer/Room/Room.cpp:8-15 | From any state with the session in at most one room, every state of a run has it in at most one if and only if none of its Enter jobs ran while it was a member elsewhere |
| Rooms.RequestBreaksExactlyWhenItClashes | Source/ChatServer/Protocol/PacketHandlerImpl.cpp:69-82 | After one request at a time so far, an enter request can bring the session into two rooms if and only if the target is not its current room and it is on its way to another room, or is still in another room without pointing to it |
| Rooms.TwoEntersTwoRooms | Source/ChatServer/Protocol/PacketHandlerImpl.cpp:69-82 | Two early enter requests put a session into both rooms |
| Rooms.DepartureDecides | Source/ChatServer/Protocol/PacketHandlerImpl.cpp:104-116 | For any history, a session that asks to leave or disconnects and then makes no request ends in exactly the rooms its pending jobs leave it in, except the one it pointed to; a disconnect clears the pointer |
| Rooms.LeaveRemovesTheSession | Source/ChatServer/Room/Room.cpp:37-59 | A session that has made one request at a time and has nothing pending, after a leave request and no other, ends in no room and points to none |
| Rooms.StaysExactlyWhenArriving | Source/ChatServer/Session/ClientSession.cpp:52-62 | A session that made one request at a time ends, after its disconnect and once nothing of it is pending, as a member of some room if and only if an Enter or LeaveAndEnter of it was pending at the disconnect |
| Rooms.DisconnectedMemberStays | Source/ChatServer/Session/ClientSession.cpp:52-62 | A session that disconnects before its Enter job stays a member |
| Latency.LatencyMonitor.RecordSample | Source/DummyClient/Monitoring/LatencyMonitor.h:31-53 | The 32-bit counters, the total, the minimum and the maximum are those of all samples, the new one included |
| Latency.IndexRightExactly | Source/DummyClient/Monitoring/LatencyMonitor.h:48-50 | The cast leaves the bucket of a sample right exactly if its index is small or, cut to 32 bits, still large and not negative; it is for all samples below 59 hours |
| Latency.HugeSampleIsOutside | Source/DummyClient/Monitoring/LatencyMonitor.h:48-52 | A sample of 100 * 2^31 us gets a negative index |
| Latency.LatencyMonitor.Reset | Source/DummyClient/Monitoring/LatencyMonitor.h:18-28 | Histogram, total, minimum and maximum are those of no samples |
| Latency.TotalIsSum | Source/DummyClient/Monitoring/LatencyMonitor.h:34 | The total is the sum of the samples up to multiples of 2^64 |
| Latency.LeastIsMinimum | Source/DummyClient/Monitoring/LatencyMonitor.h:37-40 | The stored minimum is the least sample unless all are larger than 32 bits |
| Latency.MaximumExactlyWhenSmall | Source/DummyClient/Monitoring/LatencyMonitor.h:42-45 | The stored maximum is the largest sample if and only if every sample fits in 32 bits |
| Latency.LongestIsLost | Source/DummyClient/Monitoring/LatencyMonitor.h:42-45 | A sample of 2^32 us is recorded as a maximum of 0 |
| Latency.LatencyMonitor.GetPercentile | Source/DummyClient/Monitoring/LatencyMonitor.h:82-104 | With k the largest rank such that 100 * k <= n * p, but at least 1: the fallback is reached if and only if the counters add up to less than k; if no counter wrapped the answer is the middle of the bucket of the k-th smallest sample |
| Latency.PercentilesGrow | Source/DummyClient/Monitoring/LatencyMonitor.h:88-90 | A higher percentile never gives a lower answer, and percentile 100 gives the bucket of the largest sample |
| Latency.OverfullLooksEmpty | Source/DummyClient/Monitoring/LatencyMonitor.h:52 | 2^32 samples in one bucket leave all counters at 0, so that every percentile falls back |
| Latency.RankMeansBucket | Source/DummyClient/Monitoring/LatencyMonitor.h:92-101 | At least k samples lie in buckets up to i exactly when the k-th smallest does |
| Latency.CountPermuted | Source/DummyClient/Monitoring/LatencyMonitor.h:92-101 | Bucket counts do not depend on the order of the samples |
| Latency.MidpointError | Source/DummyClient/Monitoring/LatencyMonitor.h:98 | The answer is within 50 us of the sample exactly when the sample is at most 1,000,100 us |

## Left out

- Winsock, `IocpCore`, `Listener`, `SocketUtils`, `NetAddress`: foreign calls; their results are step parameters.
- Memory orderings, the spinning inside `SpinLock`, SRW locks: locked sections and atomics are single steps.
- `JobQueue::Clear`, `pushOnly`, `PoolAllocator::Clear`, exit of threads with cached blocks, concurrent `Init`: not used in the server's run.
- `_jobCount` as a 32-bit number: the count is unbounded; 2^31 pending jobs would be needed to see the difference.
- `GetTickCount64() + afterMs` as a 64-bit sum: ticks are unbounded.
- Reconnecting a session object: a `Sending` or `Receiving` run starts connected and never reconnects.
- Empty send buffers and null entries of a buffer list: `Send` is given non-empty buffers, as every packet has a header.
- Progress after a recoverable send error: the send stays parked as in the code; the safety results include it.
- `Tokens.NeverOverAdmits`: requests ask for at least zero tokens, and a concurrent `Reset` is not a step.
- `Rates.PoliteRejectedExactlyOnOverflow`, and its counterpart for spaced streams: a single gap that earns 2^31 tokens or more is excluded, because the cast then adds an unrelated number of tokens.
- A negative refill rate, which the 64-bit product would turn into a huge one; ticks near 2^64.
- Room jobs of different rooms overlapping inside one job: a step of `Rooms` is a whole job or handler, so the gap between the check and the clearing of the room pointer in `Leave` is not modelled.
- Counters of a pool between the two atomic operations of one `Pop` or `Push`: an allocator step is a whole `Alloc` or `Release`.
- `GChunkPool`: nothing calls `SendBufferManager::Push`, so `Pop` always makes a new chunk.
- Scalars are their object representation as little-endian numbers; a `bool` byte other than 0 or 1 is copied like any other byte.
- Fields already filled when a generated `Read` fails part way: the model returns only the failure.
- `HandleChat`, `Broadcast`, notices and other effects of room jobs besides membership; the exact percentile of `double` arithmetic (percentiles are rationals); the getters for average, minimum and maximum; the retries of the minimum and maximum loops (samples are recorded one after another); what a negative bucket index overwrites; 2^64 samples.
- XML loading, declarations and the text around the emitted calls of the generator, `HandlePacket` switch tables, dashboards, statistics, logging, crash dumps, clients.
