# dsline: a verified model of the shared-memory ring channel

dsline moves byte messages between processes through a ring of fixed slots in shared memory. A message
that does not fit one slot is split into framed chunks; a single producer publishes whole batches, many
producers reserve slots with a compare-and-swap; a consumer copies messages out or pins them as views;
crashed processes leave slots behind that are recovered later. This project models that core in Dafny and
proves what the design promises, for every capacity, message size, number of producers and length of run.

`dafny verify dfyconfig.toml` checks everything.

## How the model is laid out

- `Bytes`, `Bits`, `Errors`, `Crc`, `FrameCodec`, `FrameRoundTrip`: machine integers, exclusive or, error
  values, the checksum, and the frame format with its TLV metadata, encoder and decoder. `FrameLayout` fixes the
  format byte by byte; `ChecksumDetection` says which damage a receive notices.
- `Chunking`, `ChunkingProofs`: which messages are accepted, how they split, what each frame carries.
- `SlotStates`, `SlotRegion`, `SlotRing`, `SpscFifo`, `ShmSpsc`: the single-handle channel as classes over a
  real byte array. `SpscFifo` is the queue it refines, bounded in slots; the methods keep all error branches
  of the source, and the queue's guarantees hold whenever the ring represents it, as it does from the
  constructor on.
- `Cursors`: ring indices and the send guard. `Ring`: the shared region as a step system; every shared load,
  compare-and-swap, header write, payload write and cursor store is one step, and a run is any interleaving
  of one consumer with one producer or any number of them. A step whose process is elsewhere changes nothing.
- `RingInvariant`, `RingSlots`, `RingProducer`, `RingClaim`, `RingConsumer`, `RingReceive`, `RingView`,
  `RingReclaim`, `RingRuns`, `RingHistory`: the inductive invariant and its preservation, step by step.
  `RingTheorems`, `RingProgress` and `RingClean` state what follows for every reachable state. `RingDeadWriter`
  says when a crashed producer's reservation is passed. `RingGrace` and `RingStranded` treat the bounded poll
  between the chunks of a message: when it can be trusted, and what giving up there costs. `RingRounds` sends
  and receives any number of messages in turn. `RingSend` says when a send reserves and that it then ends,
  `RingCalls` what becomes of a receive, a `recv_view` and a release, all under every interleaving.
- `SequenceOrder`, `PinScan`, `Recovery`, `RecoveryTheorems`, `RecoveryPins`: opening a region. `CrashGuard`,
  `CrashGuardProofs`, `OpeningExactly`: the producer that resumes on it, and when its guard can be relied on.
- `Lease`, `LeaseProofs`, `LeaseTheorems`, `LeaseWrites`, `LeaseRefresh`: the zero-copy alloc, write, publish
  and abort protocol, beside a consumer that copies messages out or keeps views of them.
- `ExprSyntax`, `ExprParser`, `ExprTokens`, `ExprRoundTrip`, `ExprPrecedence`: the expression language.
  `TransportUrl`: channel URLs.
  `FanOut`: the sharded channel and its routing hash.

## Where the code and its description part

- Re-encoding a decoded frame recomputes the checksum, so it reproduces the bytes exactly when the stored
  checksum was the payload's (`FrameRoundTrip.EncodeOfDecode`); the decoder accepts any stored checksum
  (`WrongChecksumIsAccepted`).
- The comment in `recv_chunked_message` that later chunks are committed once the first is visible does not
  hold in general: the gate looks at slot headers, and a producer commits its slots one by one. It holds
  exactly if messages cannot be chunked, or if there is one producer and `recv` is called only while the head
  is past the tail (`RingGrace.LaterChunksReadyExactly`). Otherwise the bounded poll can expire. The tail then
  stays inside the message for good: the next receive that finds the chunk rejects it and frees its slot, and
  every later one finds the ring empty (`RingStranded.LostForGood`, `LossIsReached`, `GivingUpStrands`).
- The multi-producer reclaim is meant to keep a dead producer from wedging the ring. It does so exactly if that
  producer had marked the first slot of its reservation WRITING. A producer that crashes between its
  compare-and-swap of the head and that first header leaves the slot FREE; the reclaim then has nothing to
  read, and nothing ever moves the tail (`RingDeadWriter.ReclaimedExactly`, `UnmarkedWedges`,
  `DeadWriterIsReached`).
- A producer handle that is opened beside a running consumer can misjudge the ring. Between freeing the tail
  slot and storing the tail, the search for the write position stops at the freed slot; while a receive has
  the tail slot pinned, the bias comes out one too small. The handle is right whenever the consumer holds no
  slot; `OpeningExactly.OpensSafelyExactly` gives the exact condition, `OpeningCanFail` a reachable state that
  violates it, and `RecoveryTheorems.ResumesInPlaceExactly` what is rebuilt.
- The scan for the pin floor at an opening covers a whole lap, so a tail slot that a receive has pinned at
  that moment is taken for a pin one lap older. The floor word then names a cursor that no view owns, and the
  guard of the opened handle never passes beside a consumer that copies messages out
  (`RingTheorems.OpenScanExactly`, `CrashGuardProofs.OpeningMidReceiveBlocks`,
  `OpeningExactly.MidReceiveIsReached`).
- An opening handle looks for the next sequence number from zero, which misses it for some regions whose
  numbers have passed 2^63 (`SequenceOrder.FoldFromZeroExactly`, `FoldFromZeroCanMiss`).
- While the consumer is between freeing a slot and storing the tail, a leasing producer can get more than one
  capacity ahead of the tail word, and its next refresh reports inconsistent cursors
  (`LeaseRefresh.InconsistentExactly`). A producer that asks for a lease only when all its leases are
  published never sees this; one that tolerates a single unpublished lease can, on every ring of two slots or
  more (`RefreshNeverFailsExactly`).


## Model

| member | source | states |
|---|---|---|
| `RingTheorems.CrashFreeFifo` | crates/dsline-shm/src/lib.rs:3169-3295 | for any number of producers, capacity and interleaving without crashes, the delivered messages are exactly the messages of the first reservations in winning order, each once and whole |
| `RingTheorems.DeliveryIsFifo` | crates/dsline-shm/src/lib.rs:3371-3430 | in every reachable state the deliveries are the reservation order minus reclaimed reservations of crashed producers; no receive or release fails; with one producer the sequence numbers are consecutive modulo 2^64 |
| `RingTheorems.DeliveredOnce` | crates/dsline-shm/src/lib.rs:4328-4357 | later states only append to the deliveries and never change a recorded reservation's message, place or owner |
| `RingTheorems.WinningReservation` | crates/dsline-shm/src/lib.rs:3248-3295 | whatever the age of the loaded cursors, a winning reservation starts at the write frontier, ends within one lap of the current tail and of every live pin, finds all its slots free, and shares no slot with any unconsumed or pinned cursor |
| `RingTheorems.FirstWriteFindsFree` | crates/dsline-shm/src/lib.rs:2331-2361 | the first write of every reserved slot finds it FREE, so it neither waits nor reports a full buffer |
| `RingSend.SendReservesExactly` | crates/dsline-shm/src/lib.rs:3127-3161 | with anything the other processes do between a send's shared accesses, it reserves exactly its number of slots from the head on, for exactly its bytes and the next sequence number, if and only if they end at most one lap past the tail and past the floor it loaded and the head is still the one it loaded; otherwise nothing but its own place changes |
| `RingSend.AttemptReserves` | crates/dsline-shm/src/lib.rs:3248-3295 | the same for every later attempt of a blocking send, which loads the words again |
| `RingSend.SendCompletes` | crates/dsline-shm/src/lib.rs:3181-3194 | a reservation that won is written to its end in four of its producer's steps a slot, whatever the others do meanwhile: every slot the consumer has not come to is COMMITTED with its frame and number, and with one producer the head then stands right behind it |
| `RingTheorems.ViewedSlot` | crates/dsline-shm/src/lib.rs:3606-3695 | a live view's slot is PINNED and holds the frame of the message reserved there |
| `RingTheorems.ViewReadsSameBytes` | crates/dsline-shm/src/lib.rs:2816-2839 | between any two states in which a view lives it reads the same bytes |
| `RingTheorems.ProducerLeavesPins` | crates/dsline-shm/src/lib.rs:2331-2361 | no producer step in either mode changes a pinned slot |
| `RingTheorems.FloorIsLeastPin` | crates/dsline-shm/src/lib.rs:2117-2134 | between consumer calls the floor word is the least pinned cursor, or the sentinel exactly when nothing is pinned |
| `RingCalls.ViewGrantedExactly` | crates/dsline-shm/src/lib.rs:3606-3695 | recv_view with a committed slot at the tail ends within nine consumer steps, on every interleaving with the producers: a single-slot message is delivered, its slot PINNED with exactly its bytes behind the frame header, its cursor among the pins, the tail behind it and the floor the least pin; a chunked message is refused and left as it was |
| `RingCalls.ReleaseFreesExactly` | crates/dsline-shm/src/lib.rs:2831-2906 | a release ends within capacity + 7 consumer steps, on every interleaving: exactly its pin is gone, the floor is the least remaining one, and its slot is FREE unless a producer has come round to it |
| `RingCalls.NothingToReceive` | crates/dsline-shm/src/lib.rs:3339-3369 | a receive that finds the tail slot neither committed nor marked by a dead writer changes nothing |
| `RingTheorems.OpenScanAgrees` | crates/dsline-shm/src/lib.rs:3908-3918 | the open-time scan over the lap behind the tail computes the same floor |
| `RingTheorems.OpenScanExactly` | crates/dsline-shm/src/lib.rs:3908-3918 | wherever the consumer stands, in either mode, the open-time scan finds the least pin behind the tail exactly when no receive has the tail slot pinned a full lap or more into the run; otherwise it finds the cursor one lap behind the tail, which nothing pins |
| `RingView.ScanFindsPin` | crates/dsline-shm/src/lib.rs:2890-2897 | wherever the consumer stands, no pin of the scanned lap is missed, and a header is taken for another lap's pin only when it is the tail's own, pinned by a receive under way, one full lap ahead |
| `RingView.UnpinKeeps` | crates/dsline-shm/src/lib.rs:2870-2906 | every step of the floor's recomputation after a release, with its fast path and its compare-and-swap, keeps the ring invariant and with it the exactness of the floor |
| `RingTheorems.SingleProducerGate` | crates/dsline-shm/src/lib.rs:3339-3369 | with one producer, tail < head means the tail slot is COMMITTED unless the consumer itself holds it; tail <= frontier <= tail + capacity; separately loaded cursors are always consistent on both handles |
| `RingTheorems.ReclaimPassesOneDead` | crates/dsline-shm/src/lib.rs:4141-4212 | safety of the reclaim's tail move: it passes exactly one reservation, whose producer crashed with nothing committed; its slots are free; nothing is delivered and no live reservation is crossed |
| `RingDeadWriter.ReclaimedExactly` | crates/dsline-shm/src/lib.rs:4141-4212 | when the tail stands on a reservation whose writer is gone with nothing committed, every receive passes it within a fixed number of its own steps, on every interleaving, if and only if its first slot is WRITING; otherwise no run passes it at all |
| `RingDeadWriter.MarkedIsPassed` | crates/dsline-shm/src/lib.rs:4141-4212 | with a WRITING first slot, 2n + 8 consumer steps give up a reservation of n slots and move the tail past it, whatever the other processes do meanwhile |
| `RingDeadWriter.UnmarkedWedges` | crates/dsline-shm/src/lib.rs:4153-4156 | with a FREE first slot, on every later run the tail stays, nothing is delivered and the slot stays FREE |
| `RingDeadWriter.DeadWriterIsReached` | crates/dsline-shm/src/lib.rs:3248-3295 | on every multi-producer ring both cases are reached: the writer crashes after winning its reservation, before or after it marks its first slot |
| `RingDeadWriter.DeliversBehindDead` | crates/dsline-shm/src/lib.rs:4141-4212 | behind a marked dead reservation a receive delivers the next committed message |
| `RingClean.FreeIsEmpty` | crates/dsline-shm/src/lib.rs:2427-2434 | in every reachable state a FREE slot has a reset header and a cleared payload |
| `RingProgress.ReceiveDelivers` | crates/dsline-shm/src/lib.rs:3371-3430 | a receive whose message is fully committed ends after finitely many consumer steps and delivers exactly that message |
| `RingCalls.CopyDelivers` | crates/dsline-shm/src/lib.rs:3371-3430 | the same whatever the producers do meanwhile, within six consumer steps a slot and four more; the tail is then behind the message and no pin has changed |
| `RingProgress.PublishedIsDelivered` | crates/dsline-shm/src/lib.rs:3127-3161 | with one producer, a receive that starts while head is past tail delivers the next message |
| `RingGrace.LaterChunksReadyExactly` | crates/dsline-shm/src/lib.rs:4377-4384 | once a first chunk was visible all later chunks are committed, on every run, if and only if no message can be chunked, or there is one producer and receives begin only while head is past tail |
| `RingGrace.CaughtBetweenChunks` | crates/dsline-shm/src/lib.rs:4377-4384 | in every other configuration a run reaches a receive between two chunks whose next slot is still FREE |
| `RingStranded.GivingUpStrands` | crates/dsline-shm/src/lib.rs:4377-4384 | a receive that gives up there strands its message: in every later state, whatever producers and receives do, the tail stands inside it and nothing more is delivered; receives report an empty buffer or a corrupted message |
| `RingStranded.RejectionFrees` | crates/dsline-shm/src/lib.rs:4369-4372 | once such a chunk is committed, a run of one receive rejects it as corrupted and frees its slot without moving the tail |
| `RingStranded.FreedStaysFree` | crates/dsline-shm/src/lib.rs:3351-3366 | after that the slot at the tail is FREE on every later run: every receive finds the ring empty and no reclaim, and no producer writes that slot |
| `RingStranded.LostForGood` | crates/dsline-shm/src/lib.rs:4359-4384 | from any reachable state in which a receive gives up between two chunks: once the next chunk is committed, one more receive loses the message, and on every later run the slot at the tail is FREE, the tail stands still and nothing is delivered |
| `RingStranded.LossIsReached` | crates/dsline-shm/src/lib.rs:4377-4384 | such a run exists in every configuration in which a later chunk can be missing |
| `RingRuns.ApplyKeeps` | crates/dsline-shm/src/lib.rs:3127-3430 | every load, compare-and-swap, header write, payload write and cursor store of every process keeps the ring invariant |
| `RingRuns.ExecKeeps` | crates/dsline-shm/src/lib.rs:3127-3430 | the ring invariant holds after every run |
| `RingRuns.InitHolds` | crates/dsline-shm/src/lib.rs:3102-3125 | a fresh region satisfies the ring invariant |
| `RingHistory.RunGrows` | crates/dsline-shm/src/lib.rs:2099-2101 | over any run the tail, the number of consumed reservations and the deliveries only grow |
| `RingHistory.RunKeepsGone` | crates/dsline-shm/src/lib.rs:2441-2493 | only reservations of producers that are provably gone are ever given up |
| `RingClaim.ClaimKeeps` | crates/dsline-shm/src/lib.rs:3248-3275 | a claim decided on cursors loaded in three separate steps keeps the invariant |
| `RingProducer.CheckKeeps` | crates/dsline-shm/src/lib.rs:2338-2341 | the free check of a live writer succeeds and keeps the invariant |
| `RingConsumer.DigestOk` | crates/dsline-shm/src/lib.rs:3388-3420 | reading the frame of the next slot of a message never fails and gathers exactly its part |
| `RingReceive.ViewableOk` | crates/dsline-shm/src/lib.rs:3617-3666 | a single-slot message can be viewed with exactly its payload; a chunked one is refused |
| `RingReclaim.DeadStages` | crates/dsline-shm/src/lib.rs:4141-4186 | the reservation a verified reclaim frees belongs to a gone producer and has at most its first slot written |
| `Cursors.GuardFits` | crates/dsline-shm/src/lib.rs:3893-3901 | the guard passes for n slots exactly when n plus the bias fits the ring and ends within one lap of the smaller of tail and floor |
| `SpscFifo.QueueIsSuffix` | crates/dsline-shm/src/lib.rs:4635-4714 | in every history of calls the queue is the newest part of the accepted payloads, in order, numbered consecutively modulo 2^64, in all four backpressure modes |
| `SpscFifo.NothingLost` | crates/dsline-shm/src/lib.rs:4635-4714 | unless the mode drops old messages, received payloads followed by queued ones are exactly the accepted ones |
| `ShmSpsc.ShmSpscChannel.Send` | crates/dsline-shm/src/lib.rs:4635-4653 | refines the slot-bounded queue: a refused or DropNewest send changes nothing; DropOldest drops the shortest run of whole messages that makes room; otherwise the message is appended |
| `ShmSpsc.ShmSpscChannel.RecvWithSeq` | crates/dsline-shm/src/lib.rs:4659-4714 | yields exactly the oldest message with its sequence number, also across wrap-around; sequence mismatch and corruption cannot occur on a represented queue |
| `ShmSpsc.ShmSpscChannel.RecvChunkedMessage` | crates/dsline-shm/src/lib.rs:4812-4867 | reassembles exactly the payload from the chunks and leaves the rest of the ring as it was |
| `ShmSpsc.ShmSpscChannel.RecvChunk` | crates/dsline-shm/src/lib.rs:4828-4860 | one later chunk: its checks pass and it contributes exactly its part |
| `ShmSpsc.ShmSpscChannel.PrepareSendSlots` | crates/dsline-shm/src/lib.rs:4760-4786 | room is found, refused or made by the backpressure mode, without touching anything when it is refused |
| `ShmSpsc.ShmSpscChannel.DropUntilRoom` | crates/dsline-shm/src/lib.rs:4779-4784 | the drop loop ends and has dropped the shortest sufficient run of messages |
| `ShmSpsc.ShmSpscChannel.DropOldestMessage` | crates/dsline-shm/src/lib.rs:4869-4892 | drops exactly the slots of the oldest message |
| `ShmSpsc.ShmSpscChannel.AppendMessage` | crates/dsline-shm/src/lib.rs:4644-4652 | encodes and commits all frames of the message behind the queue; neither internal error can occur |
| `ShmSpsc.ShmSpscChannel.AdvanceTailAfterRead` | crates/dsline-shm/src/lib.rs:4805-4810 | releases the pinned tail slot and moves past it, or fails without change |
| `ShmSpsc.ShmSpscChannel.New` | crates/dsline-shm/src/lib.rs:4597-4632 | accepts exactly the configurations whose storage size fits a usize |
| `SlotRegion.MemorySlotStorage.WriteSlot` | crates/dsline-shm/src/lib.rs:351-364 | overwrites the front of one slot and no byte of any other |
| `SlotRegion.MemorySlotStorage.ReadSlot` | crates/dsline-shm/src/lib.rs:366-377 | returns the front of the slot, or the size or index error |
| `SlotRegion.MemorySlotStorage.ClearSlot` | crates/dsline-shm/src/lib.rs:379-383 | zeroes one slot and no byte of any other |
| `SlotRegion.MemorySlotStorage.New` | crates/dsline-shm/src/lib.rs:313-329 | accepts exactly positive sizes whose product fits a usize |
| `SlotRegion.FixedSlotRegion.WriteCommitted` | crates/dsline-shm/src/lib.rs:1481-1504 | FREE to COMMITTED with exactly the frame, or the right error and no change |
| `SlotRegion.FixedSlotRegion.ReadCommitted` | crates/dsline-shm/src/lib.rs:1506-1523 | COMMITTED to PINNED, returning exactly the frame |
| `SlotRegion.FixedSlotRegion.PeekCommitted` | crates/dsline-shm/src/lib.rs:1525-1539 | returns the committed frame without a transition |
| `SlotRegion.FixedSlotRegion.ReleasePinned` | crates/dsline-shm/src/lib.rs:1541-1547 | PINNED to FREE, or the error and no change |
| `SlotRegion.FixedSlotRegion.ReleaseCommitted` | crates/dsline-shm/src/lib.rs:1549-1555 | COMMITTED to FREE, or the error and no change |
| `SlotRing.Push` | crates/dsline-shm/src/lib.rs:4647-4651 | a write at the head appends to the window of occupied slots, across the wrap |
| `SlotRing.Pop` | crates/dsline-shm/src/lib.rs:4805-4810 | a release at the tail drops the first slot of the window, across the wrap |
| `ChunkingProofs.AcceptedIff` | crates/dsline-shm/src/lib.rs:83-148 | a send is planned exactly when the length is within the advertised maximum and rounding it up to chunks does not overflow |
| `ChunkingProofs.AcceptedIffWithinMaximum` | crates/dsline-shm/src/lib.rs:83-148 | for every configuration and every length a byte slice can have, a send is accepted if and only if it is no longer than the advertised maximum |
| `ChunkingProofs.PlanExactly` | crates/dsline-shm/src/lib.rs:83-126 | the plan is one slot for what fits one, otherwise the least number of pieces 42 bytes shorter than a slot that cover the message |
| `ChunkingProofs.TooLargeExactly` | crates/dsline-shm/src/lib.rs:83-130 | a message is refused as too large, with its length and the maximum, exactly when it is longer than the maximum and no size overflows; only an overflow is blamed on the configuration |
| `ChunkingProofs.PlanErrorsUnreachable` | crates/dsline-shm/src/lib.rs:220-261 | an accepted message encodes to exactly its planned number of frames; neither plan error can occur |
| `ChunkingProofs.FrameFits` | crates/dsline-shm/src/lib.rs:254-259 | every frame fits its slot plus the 50-byte header |
| `ChunkingProofs.PartsConcatenate` | crates/dsline-shm/src/lib.rs:238-251 | the parts of the frames concatenate back to the message |
| `ChunkingProofs.FrameCarriesPart` | crates/dsline-shm/src/lib.rs:175-278 | every frame decodes, passes validate_chunk with its index, total and length, and carries exactly its part |
| `Chunking.EncodeMessageFrames` | crates/dsline-shm/src/lib.rs:220-261 | the encoder's loop produces the specified frames or the specified plan error |
| `FrameRoundTrip.DecodeOfEncode` | crates/dsline-core/src/frame.rs:76-148 | decoding a successful encoding, also with trailing bytes, returns the same header, metadata and payload |
| `FrameRoundTrip.EncodeOfDecode` | crates/dsline-core/src/frame.rs:155-280 | re-encoding an accepted frame reproduces its first header_len + payload_len bytes exactly when the stored checksum is the payload's |
| `FrameRoundTrip.WrongChecksumIsAccepted` | crates/dsline-core/src/frame.rs:155-280 | every header and payload decode with any stored checksum, and with a wrong one re-encoding does not reproduce the frame |
| `FrameLayout.EncodedLayout` | crates/dsline-core/src/frame.rs:76-148 | every byte of an encoded frame: magic, version, flags, kind and header length in the first 14 bytes, the five numbers least significant byte first at 14, 22, 30, 38 and 46, the metadata items from 50 on, then the payload; or the overflow error exactly when the header exceeds four bytes of length |
| `FrameLayout.EncodedHeaderLayout` | crates/dsline-core/src/frame.rs:105-148 | the same for a header whose payload is written separately |
| `FrameLayout.HeaderVerdict` | crates/dsline-core/src/frame.rs:155-207 | the decoder accepts a header exactly if its bytes are marked as one, the length covers the fixed part and nothing overflows; it yields the numbers in the bytes, or the error names the fault |
| `FrameLayout.MessageLayout` | crates/dsline-shm/src/lib.rs:220-261 | every frame of a message, byte by byte: one frame without metadata, or pieces in order flagged 1, the first also 2, the last also 4, with index, total and length under the types 100, 101 and 102 |
| `ChecksumDetection.ChecksumSeparates` | crates/dsline-core/src/checksum.rs:21-23 | one changed byte, whatever the change, changes the checksum |
| `ChecksumDetection.CheckValues` | crates/dsline-core/src/checksum.rs:21-23 | values that fix the polynomial, the bit order, the start value and the final complement of CRC-32 (IEEE) |
| `ChecksumDetection.DamageIsNoticed` | crates/dsline-shm/src/lib.rs:203-209 | one damaged byte of a single-slot frame, anywhere but in its payload length, is noticed by the checks on a received frame exactly if it is not in the flags, the timestamp or the schema hash; damage to payload or checksum is reported as corruption, and what passes carries the undamaged payload |
| `FrameCodec.EncodeFrame` | crates/dsline-core/src/frame.rs:76-103 | the encoder's byte string is the specified frame |
| `FrameCodec.EncodeFrameHeader` | crates/dsline-core/src/frame.rs:105-148 | the header bytes with their metadata, or the overflow error |
| `FrameCodec.MetadataLen` | crates/dsline-core/src/frame.rs:115-120 | the total TLV length, or an overflow exactly when it exceeds a usize |
| `FrameCodec.DecodeMetadata` | crates/dsline-core/src/frame.rs:241-280 | the metadata loop ends on every input, never reads out of bounds, and yields the items or the first malformed item's error |
| `SequenceOrder.PrecedesIsOrder` | crates/dsline-shm/src/lib.rs:216-218 | inside any window shorter than 2^63 the wrapping order is the order of the offsets, so a strict total order |
| `SequenceOrder.PrecedesIsNotTransitive` | crates/dsline-shm/src/lib.rs:216-218 | outside such a window three numbers can precede each other in a circle |
| `SequenceOrder.HalfApart` | crates/dsline-shm/src/lib.rs:216-218 | two numbers half the range apart do not precede each other |
| `SequenceOrder.NextSequence` | crates/dsline-shm/src/lib.rs:4003-4009 | the recovery loop computes the fold |
| `SequenceOrder.FoldIsNewest` | crates/dsline-shm/src/lib.rs:4003-4009 | started inside the window the fold returns the wrapping maximum, for lists of any length |
| `SequenceOrder.FoldIgnoresOrder` | crates/dsline-shm/src/lib.rs:4003-4009 | and does not depend on the order or repetition of the list |
| `SequenceOrder.FoldFromZeroExactly` | crates/dsline-shm/src/lib.rs:4003-4009 | from the start value zero of an opening handle the newest number is found if and only if it lies below 2^63 or its slot is scanned at or after one whose successor does |
| `SequenceOrder.FoldFromZeroCanMiss` | crates/dsline-shm/src/lib.rs:4003-4009 | a concrete occupied slot whose successor the fold misses |
| `Recovery.PersistentSlotRegion.Sweep` | crates/dsline-shm/src/lib.rs:2467-2535 | frees exactly the slots in the given state whose owner is gone, and counts them |
| `Recovery.PersistentSlotRegion.OccupiedSlotHeaders` | crates/dsline-shm/src/lib.rs:4025-4040 | lists exactly the occupied slots in index order |
| `Recovery.PersistentSlotRegion.InferHeadFromTail` | crates/dsline-shm/src/lib.rs:4045-4057 | the first free index from the tail on, or the tail on a full ring |
| `Recovery.PersistentShmChannel.ScanPinFloor` | crates/dsline-shm/src/lib.rs:3908-3918 | the bounded scan computes the least pinned cursor of the lap |
| `Recovery.PersistentShmChannel.SweepDead` | crates/dsline-shm/src/lib.rs:3936-3955 | sweeps unfinished writes of a single producer and dead consumers' pins |
| `RecoveryPins.OpeningFreesDeadPins` | crates/dsline-shm/src/lib.rs:3945-3965 | whoever holds the views, an opening frees exactly the pinned slots of consumers that are gone, keeps the others, and rescans the floor to the least pin that is left |
| `Recovery.PersistentShmChannel.RebuildFrom` | crates/dsline-shm/src/lib.rs:3967-4022 | rebuilds indices, depth, bias and sequences from the scan and the cursor words |
| `Recovery.PersistentShmChannel.RecoverFromStorage` | crates/dsline-shm/src/lib.rs:3935-4023 | leaves the swept region, the rescanned floor and the rebuilt state, or reports inconsistent cursors |
| `RecoveryTheorems.HeadOfRun` | crates/dsline-shm/src/lib.rs:4045-4057 | on a run of occupied cursors the inferred head is the index after the run, also on a full ring |
| `RecoveryTheorems.CountOfRun` | crates/dsline-shm/src/lib.rs:4025-4040 | the scan counts exactly the length of the run |
| `RecoveryTheorems.RecoverAfterCrash` | crates/dsline-shm/src/lib.rs:3935-4057 | on the region a single producer leaves behind at any moment, opened while the consumer holds no slot, a new handle resumes behind everything written: index (head + bias) mod capacity, bias and depth exact, next sequence after the newest slot, expected sequence the consumer's |
| `RecoveryTheorems.ResumesInPlaceExactly` | crates/dsline-shm/src/lib.rs:3977-4001 | wherever the consumer stands, the rebuilt index and bias are those of everything written if and only if it holds no slot, or nothing is written past the head and a tail slot freed but not yet passed belongs to a full ring |
| `RecoveryTheorems.RebuiltPlace` | crates/dsline-shm/src/lib.rs:3977-4001 | the index, bias, depth and floor that are rebuilt in all cases, also while the consumer has the tail slot pinned or just freed |
| `RecoveryTheorems.ReopenFidelity` | crates/dsline-shm/src/lib.rs:3935-4057 | a quiescent non-empty region without pins reopens with exactly the live handles' write index, read index, depth, sequences, no bias and no resynchronisation |
| `CrashGuardProofs.BiasedGuardIsSafe` | crates/dsline-shm/src/lib.rs:3893-3901 | after a crash with any bias, opened at a place that is safe, the handle resumes at the index after everything written; whenever its guard passes all slots of the new batch are free, in every later state, and no send meets an occupied slot |
| `CrashGuardProofs.RunSafe` | crates/dsline-shm/src/lib.rs:3783-3809 | the resumed producer and the consumer keep the guard's invariant over every interleaving |
| `CrashGuardProofs.ResumeSafe` | crates/dsline-shm/src/lib.rs:3935-4023 | the handle rebuilt on a region left behind starts inside that invariant, wherever the consumer stands if the place is settled |
| `CrashGuardProofs.SendsExactly` | crates/dsline-shm/src/lib.rs:3141-3161 | a send of the resumed handle commits exactly its slots and publishes a head as far behind as before if batch and bias fit behind tail and floor; otherwise it changes nothing |
| `OpeningExactly.OpensSafelyExactly` | crates/dsline-shm/src/lib.rs:3935-4023 | the guard of the opened handle is right on every later run if and only if the consumer holds no slot at the opening, or has the tail slot pinned with nothing written past the head or a full lap into the run, or has freed it on a full, wholly published ring |
| `OpeningExactly.OpeningCanFail` | crates/dsline-shm/src/lib.rs:4328-4348 | on every single-producer ring a state is reachable, between freeing the tail slot and storing the tail, in which an opened handle gets a guard that passes over an occupied slot |
| `OpeningExactly.MidReceiveIsReached` | crates/dsline-shm/src/lib.rs:2364-2385 | on every single-producer ring a state is reachable in which a receive has the tail slot pinned a full lap into the run, so that the opening scan errs |
| `CrashGuardProofs.OpeningMidReceiveBlocks` | crates/dsline-shm/src/lib.rs:3956-3965 | a region opened while a receive has the tail slot pinned a full lap into the run gets a floor nobody owns, and the guard of the handle never passes again |
| `LeaseTheorems.DeliversInAllocOrder` | crates/dsline-shm/src/lib.rs:3456-3570 | with alloc, write, publish in any order and abort, messages arrive in allocation order with consecutive numbers and the bytes held at the seal; no receive fails |
| `LeaseTheorems.ReadsOnlyPublished` | crates/dsline-shm/src/lib.rs:3339-3369 | the consumer never sees an unpublished slot, neither copying nor viewing |
| `LeaseTheorems.SealedIsFrozen` | crates/dsline-shm/src/lib.rs:2751-2762 | a sealed buffer's bytes never change again |
| `LeaseWrites.WriteIsExact` | crates/dsline-shm/src/lib.rs:2751-2762 | an allowed write overwrites exactly its range of the lease's buffer, in the shared slot itself, and no other lease or slot; any other write changes nothing |
| `LeaseWrites.HoldsLastWrite` | crates/dsline-shm/src/lib.rs:2751-2762 | after any run each byte of a lease is that of the last allowed write covering it, or zero if none since its allocation |
| `LeaseWrites.DeliversLastWrite` | crates/dsline-shm/src/lib.rs:3522-3570 | each byte the consumer is given is that of the last allowed write into its lease, none of which comes after the seal |
| `LeaseWrites.PublishedIsFrame` | crates/dsline-shm/src/lib.rs:3530-3550 | what publishing leaves in the slot is, byte for byte, the frame of a single-slot message with the lease's bytes |
| `LeaseTheorems.AbortRestoresProducer` | crates/dsline-shm/src/lib.rs:3572-3592 | once the newer leases are aborted the producer has the write index and next sequence it had before |
| `LeaseTheorems.AbortUndoesAlloc` | crates/dsline-shm/src/lib.rs:3572-3592 | an abort frees the newest slot, steps the producer back by one and touches nothing shared besides |
| `LeaseTheorems.ViewedLease` | crates/dsline-shm/src/lib.rs:3606-3695 | a live view's slot is PINNED and holds the sealed frame of its lease, and no lease is more than a lap ahead of it |
| `LeaseTheorems.ViewReadsSameBytes` | crates/dsline-shm/src/lib.rs:2816-2839 | whatever is allocated, written, published or aborted meanwhile, a view reads the same bytes |
| `LeaseTheorems.ProducerLeavesViews` | crates/dsline-shm/src/lib.rs:3488-3505 | no producer step writes a viewed slot, however stale the pin floor it loads |
| `LeaseRefresh.GuardMissesView` | crates/dsline-shm/src/lib.rs:3488-3497 | in every ring of two slots or more the guard can pass, even on the exact floor, while the slot to be leased is pinned; the check of the slot then refuses the allocation |
| `LeaseRefresh.InconsistentExactly` | crates/dsline-shm/src/lib.rs:3855-3874 | the cursors are inconsistent if and only if the consumer is between freeing a slot and storing the tail, the producer has leased that slot again, and every lease is published |
| `LeaseRefresh.RefreshNeverFailsExactly` | crates/dsline-shm/src/lib.rs:3855-3874 | no refresh fails on any run of a producer that asks for a lease only while at most a given number of its leases are unpublished, if and only if that number is zero or the ring has one slot |
| `LeaseRefresh.RefreshCanFail` | crates/dsline-shm/src/lib.rs:3855-3874 | for every ring of two slots or more, tolerating a single unpublished lease admits a run on which a refresh reports inconsistent cursors |
| `LeaseRefresh.AllocSucceeds` | crates/dsline-shm/src/lib.rs:3456-3510 | an allocation with room in the guard and a free slot succeeds |
| `LeaseRefresh.PublishSucceeds` | crates/dsline-shm/src/lib.rs:3522-3565 | publishing an open lease commits its slot and counts one more published message |
| `LeaseRefresh.AllocRefused` | crates/dsline-shm/src/lib.rs:3488-3497 | an allocation without room in the guard, or on a slot that is not free, changes nothing |
| `LeaseRefresh.AbortSucceeds` | crates/dsline-shm/src/lib.rs:3572-3592 | aborting the newest open lease frees its slot and takes index, number and lease back |
| `LeaseRefresh.ReceiveSucceeds` | crates/dsline-shm/src/lib.rs:3371-3430 | a receive of a committed lease delivers exactly its bytes, frees its slot and moves the tail past it |
| `LeaseRefresh.ViewSucceeds` | crates/dsline-shm/src/lib.rs:3606-3695 | a view of a committed lease delivers exactly its bytes and leaves its slot PINNED |
| `LeaseRefresh.ReleaseSucceeds` | crates/dsline-shm/src/lib.rs:2831-2839 | the release of a view clears exactly its slot |
| `LeaseProofs.ApplyKeeps` | crates/dsline-shm/src/lib.rs:3456-3592 | every step of producer and consumer keeps the lease invariant, with the frontier within one lap of the freed cursors |
| `LeaseProofs.FreeMeansRoom` | crates/dsline-shm/src/lib.rs:3491-3497 | the physical free check of alloc is what bounds the leases, since the guard counts published messages only |
| `LeaseProofs.TakeSealed` | crates/dsline-shm/src/lib.rs:3530-3550 | the frame that publish seals in place passes the consumer's checks and yields exactly the payload |
| `ExprRoundTrip.RoundTripExactly` | crates/dsline-ops/src/lib.rs:58-102 | printing and parsing give an expression back if and only if its literals are spelled as numbers and its columns are lower-case identifiers other than not, inf, infinity and nan |
| `ExprRoundTrip.ShowOfParse` | crates/dsline-ops/src/lib.rs:323-325 | whatever parses prints to a text that parses to the same expression |
| `ExprRoundTrip.TokensOfShown` | crates/dsline-ops/src/lib.rs:329-387 | tokenizing a printed expression finds exactly its tokens |
| `ExprRoundTrip.UnaryOfShown` | crates/dsline-ops/src/lib.rs:277-312 | the parser reads a printed operand back wherever its tokens stand |
| `ExprRoundTrip.Application` | crates/dsline-ops/src/lib.rs:166-275 | two operands around an operator of any of the twelve kinds are read as one application at its own level |
| `ExprPrecedence.ParseOfBare` | crates/dsline-ops/src/lib.rs:161-275 | precedence and associativity: an expression printed with parentheses only where an operand binds less tightly than its place requires parses back to exactly that expression |
| `ExprPrecedence.GroupsExactly` | crates/dsline-ops/src/lib.rs:166-275 | for any two operators in a row the tighter one takes the operand between them, of two equally tight ones the left one; two comparisons are rejected at the second |
| `ExprPrecedence.ReadsTerse` | crates/dsline-ops/src/lib.rs:166-312 | an operand printed that way is read by the level of its place wherever its tokens stand |
| `ExprTokens.TokensKeepText` | crates/dsline-ops/src/lib.rs:329-387 | the tokens of any text, one after the other, are the text without white space, up to case |
| `ExprTokens.SignToken` | crates/dsline-ops/src/lib.rs:341-355 | a comparison sign takes an equals sign behind it, every other sign stands alone, with or without spaces |
| `ExprTokens.NumeralsExactly` | crates/dsline-ops/src/lib.rs:298-301 | a token reads as a number exactly if it is digits, or digits around one point with at least one digit |
| `ExprTokens.BlankIsRejected` | crates/dsline-ops/src/lib.rs:291-293 | a text of nothing but white space is rejected as ending too early |
| `ExprParser.Tokenize` | crates/dsline-ops/src/lib.rs:329-387 | the character loop produces the specified tokens on every text |
| `ExprParser.Parser.ParseExpr` | crates/dsline-ops/src/lib.rs:152-159 | accepts exactly a token list that is one expression, otherwise the specified error |
| `ExprParser.Parser.ParseOr` | crates/dsline-ops/src/lib.rs:166-174 | the left-associative loop yields what the grammar says and ends on every token list |
| `ExprParser.Parser.ParseAnd` | crates/dsline-ops/src/lib.rs:176-184 | the left-associative loop of and yields what the grammar says |
| `ExprParser.Parser.ParseCmp` | crates/dsline-ops/src/lib.rs:186-239 | at most one comparison; comparisons do not chain |
| `ExprParser.Parser.ParseAdd` | crates/dsline-ops/src/lib.rs:241-257 | the left-associative loop of sums yields what the grammar says |
| `ExprParser.Parser.ParseMul` | crates/dsline-ops/src/lib.rs:259-275 | the left-associative loop of products yields what the grammar says |
| `ExprParser.Parser.ParseUnary` | crates/dsline-ops/src/lib.rs:277-289 | prefix operators nest, and the result and position are the grammar's |
| `ExprParser.Parser.ParseAtom` | crates/dsline-ops/src/lib.rs:291-312 | parentheses, numbers and columns are read, or the error the grammar names |
| `ExprParser.ParseSource` | crates/dsline-ops/src/lib.rs:323-325 | terminates on every text with the grammar's answer |
| `TransportUrl.UrlRoundTrip` | crates/dsline-transport/src/lib.rs:99-163 | for every accepted string, printing the parsed URL and parsing it again gives the same scheme, target and ordered pairs |
| `TransportUrl.SurvivesExactly` | crates/dsline-transport/src/lib.rs:99-163 | a URL value survives printing and parsing exactly when its target and pairs are ones a URL string can denote |
| `TransportUrl.ParsedIsWellFormed` | crates/dsline-transport/src/lib.rs:117-163 | whatever the parser accepts is such a value |
| `TransportUrl.FromStr` | crates/dsline-transport/src/lib.rs:117-163 | accepts a string as a URL if and only if the string denotes that URL: scheme before the first separator, target up to the question mark, and pairs that are the non-empty parts of the query in order; a refusal names what is wrong with the string |
| `TransportUrl.ParsesExactly` | crates/dsline-transport/src/lib.rs:117-163 | the parsed URL is the one the string denotes, in both directions |
| `TransportUrl.ErrorNamesFault` | crates/dsline-transport/src/lib.rs:117-163 | each error variant carries the scheme, target kind, port or query part that is at fault |
| `TransportUrl.TcpTargetExactly` | crates/dsline-transport/src/lib.rs:166-187 | a tcp target is accepted exactly if it is a non-empty host, its last colon, and a port up to the next slash |
| `TransportUrl.PortDigit` | crates/dsline-transport/src/lib.rs:182-187 | a port is digits below 65536, with or without a plus sign |
| `TransportUrl.ParseQuery` | crates/dsline-transport/src/lib.rs:189-204 | the loop skips empty parts and yields the pairs in order or the first bad part's error |
| `TransportUrl.ToUrlString` | crates/dsline-transport/src/lib.rs:99-108 | the printing loop produces the specified text |
| `FanOut.FnvSeparates` | python/dsline/_shm.py:35-47 | equal-length keys that differ in exactly one byte have different FNV-1a digests |
| `FanOut.Fnv1a32` | python/dsline/_shm.py:35-47 | the loop computes the digest |
| `FanOut.FnvValues` | python/dsline/_shm.py:30-47 | the digests of the empty key and of the key a, and the shards they route to, which fix the offset, the prime and the order of the steps |
| `Bits.XorBit` | python/dsline/_shm.py:44-46 | a bit of the exclusive or is set exactly where the two words differ |
| `FanOut.RoundRobinPositions` | python/dsline/sharded.py:108-112 | when nothing is refused, shard i holds exactly the messages at positions congruent to i, in order |
| `FanOut.RoundRobinAccepted` | python/dsline/sharded.py:108-112 | whatever is refused, with an error or quietly, shard i holds in order exactly the accepted messages among the turns congruent to i |
| `FanOut.LoadsAreEven` | python/dsline/sharded.py:108-112 | when nothing is refused, the loads of two shards differ by at most one |
| `FanOut.Rebuilds` | python/dsline/sharded.py:108-112 | when nothing is refused, interleaving the shards rebuilds the stream |
| `FanOut.BroadcastSeesAll` | python/dsline/sharded.py:118-121 | after broadcasts every shard has the whole stream |
| `FanOut.ShardedChannel.Send` | python/dsline/sharded.py:100-121 | routes each message by strategy and appends it to exactly the shards that take it |
| `FanOut.ShardedChannel.PollOrder` | python/dsline/sharded.py:148-151 | the rotation starts at the receive turn and the turn advances |
| `FanOut.ShardedChannel.RecvAny` | python/dsline/sharded.py:133-146 | takes the oldest message of one shard, or nothing exactly when all shards are empty |
| `FanOut.RotationCovers` | python/dsline/sharded.py:148-151 | every shard is polled |
| `FanOut.RotationDistinct` | python/dsline/sharded.py:148-151 | no shard is polled twice |

## Left out

- Ring.Apply: cursor words are unbounded naturals and the pin floor's sentinel is an absent value; wrap-around of the 64-bit cursors and the value 2^64 - 1 as a real cursor are not modelled.
- Ring.WriteStep: memory is sequentially consistent, one slot-header write is one step, one payload write is one step, and a slot's payload is the bytes last written; fences, flushes and torn headers are not modelled.
- Ring.GateStep: the grace poll before the first slot may give up at any time; in these runs the poll between the chunks of a message waits until the chunk is committed, and `RingStranded` adds the expiry.
- Ring.TryReserve: Block is a retry that may be given up at any time, so a timeout is a send that reserved nothing; a refresh that finds inconsistent cursors in multi-producer mode is likewise a send that failed before reserving.
- Ring.Crash: only multi-producer writers crash in the ring's runs, and only before committing anything of their reservation; a writer that dies after part of it, and the liveness probe itself (taken as sound), are not modelled.
- Ring.ReclaimStep: one consumer is the only reclaimer; the identity is a process number without its start time, and in the runs a pinned slot carries no consumer identity (`RecoveryPins` adds it for the opening).
- RingStranded.GivingUpStrands: no view is released in the runs after giving up; views made before may stay.
- RecoveryTheorems.RecoverAfterCrash: the opening reads the region at one moment, with no live views and tail <= head; a consumer may stand anywhere in a call, but openers that race other handles' steps, and a region opened with the tail ahead of the head, are not covered.
- CrashGuardProofs.BiasedGuardIsSafe: the consumer's handle is separate, copies messages out after the open, and nothing is reclaimed.
- ChecksumDetection.DamageIsNoticed: damage to the payload length is left out, because a shorter payload can happen to have the stored checksum; so are chunk frames and damage to more than one byte.
- Lease.ProducerMove: the pin floor word is not kept; every load of it may find any value.
- RingProgress.ReceiveDelivers: runs of the consumer alone; `RingCalls.CopyDelivers` adds the producers. Both count the consumer's own steps; fairness between processes is not modelled.
- ShmSpsc.ShmSpscChannel.PrepareSendSlots: in Block mode nothing else can free space in a single-handle channel, so the waiting loop is its outcome, a full buffer, without the clock.
- ExprRoundTrip.RoundTripExactly: a literal is its spelling, so f64 rounding, and that NaN differs from itself, are not modelled; characters beyond ASCII are neither letters nor digits here.
- ExprRoundTrip.ShowOfParse: a literal keeps the spelling it was read with, so that the source prints its f64 value in canonical form is outside the statement.
- FanOut.ShardedChannel.Send: a shard is a FIFO queue that takes a message, raises or drops it, as given per call; a DropOldest shard, which loses older messages, is not modelled, and that a real shard is such a queue is what the channel modules prove.
- FanOut.LoadsAreEven: for histories without refusals, as are RoundRobinPositions and Rebuilds; with refusals `RoundRobinAccepted` says what a shard holds.
- Multi-producer DropOldest, whose tail move precedes the physical release, and `reclaim_stale`, the owner's repeated cleanup.
- The single-producer reclaim at the tail and the recomputation of its bias.
- Views of a DropOldest channel, which the source refuses, and the closed flag of the shared channel.
- Files, mappings, region magic and format words, create-or-open, process liveness, timestamps and epochs.
- Evaluation of expressions, the query lookup helper, and size and statistics getters.
- The Python and native bindings, the command line, benchmarks and the plain in-memory ring `SpscBytesRing`.
