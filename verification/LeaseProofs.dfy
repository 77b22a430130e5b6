/** The lease protocol delivers published leases in allocation order, with the bytes written before the seal. */
module LeaseProofs {
  import opened Bytes
  import opened Errors
  import opened FrameCodec
  import opened Chunking
  import opened ChunkingProofs
  import opened SlotStates
  import opened Cursors
  import opened Lease

  // ---- The invariant ----

  predicate ConfigOk(config: Config) {
    config.Valid() && config.slotSize + FRAME_HEADER_LEN <= USIZE_MAX
  }

  /** The slot holds the sealed frame of the lease at cursor c. */
  predicate Contents(lease: Lease, c: nat, slot: LeaseSlot) {
    && |lease.payload| <= USIZE_MAX
    && slot.payload == lease.payload
    && slot.header == SealedHeader(c % U64_RANGE, lease.payload)
  }

  /** What the consumer is doing with a slot: nothing, taking the tail's message out, or letting go of a view. */
  datatype Grip = Loose | Taking | Letting(cursor: int)

  function GripOf(consumer: Receiving): Grip {
    if consumer.Clearing? || consumer.Freeing? then Taking
    else if consumer.Opening? then Letting(consumer.cursor)
    else Loose
  }

  /** A slot is as far as its lease, or the consumer that is taking it, has come; a view keeps its slot as sealed. */
  predicate SlotOk(leases: seq<Lease>, freed: nat, pins: set<nat>, grip: Grip, cleared: bool, c: int, slot: LeaseSlot)
    requires c < |leases|
  {
    if c in pins then slot.state.Pinned? && (grip != Letting(c) ==> Contents(leases[c], c, slot))
    else if c < freed then slot.state.Free?
    else
      && slot.seqNo == c % U64_RANGE
      && match leases[c].sealing
         case Open => slot.state.Writing? && ((cleared && c + 1 == |leases|) || slot.payload == leases[c].payload)
         case Sealed => slot.state.Writing? && Contents(leases[c], c, slot)
         case Published =>
           if grip.Taking? && c == freed then slot.state.Pinned?
           else slot.state.Committed? && Contents(leases[c], c, slot)
  }

  predicate PayloadsFit(config: Config, leases: seq<Lease>) {
    forall i :: 0 <= i < |leases| ==> |leases[i].payload| <= config.slotSize
  }

  ghost predicate SlotsOk(config: Config, s: State)
    requires config.capacity == |s.slots| > 0
  {
    forall c :: |s.leases| - config.capacity <= c < |s.leases| ==>
      SlotOk(s.leases, s.freed, s.pins, GripOf(s.consumer), s.producer.AbortFree?, c, At(config, s, c))
  }

  /** The i-th message a consumer gets: leases are numbered in the order of their allocation. */
  function MessageOf(leases: seq<Lease>, i: nat): Message
    requires i < |leases|
  {
    Message(i % U64_RANGE, leases[i].payload)
  }

  predicate PublishedAt(leases: seq<Lease>, i: nat) {
    i < |leases| && leases[i].sealing.Published?
  }

  predicate ConsumerOk(s: State) {
    && s.freed == (if s.consumer.Passing? then s.tail + 1 else s.tail)
    && s.expected == s.tail % U64_RANGE
    && match s.consumer
       case Waiting => true
       case Reading(seqNo, data) =>
         && PublishedAt(s.leases, s.tail)
         && |s.leases[s.tail].payload| <= USIZE_MAX
         && seqNo == s.tail % U64_RANGE
         && data == SealedHeader(seqNo, s.leases[s.tail].payload) + s.leases[s.tail].payload
       case Looking(seqNo) => PublishedAt(s.leases, s.tail) && seqNo == s.tail % U64_RANGE
       case Checking(c) => c in s.pins
       case Dropping(c) => c in s.pins
       case Opening(c) => c in s.pins
       case Failed(_) => false
       case _ => PublishedAt(s.leases, s.tail) && s.consumer.message == MessageOf(s.leases, s.tail)
  }

  /** A view pins a published lease that is less than a lap old; the tail is pinned only while a view is made. */
  predicate PinsOk(config: Config, s: State) {
    && (forall c :: c in s.pins ==>
          PublishedAt(s.leases, c) && |s.leases| <= c + config.capacity && (c < s.freed || c == s.tail))
    && (s.tail in s.pins <==> s.consumer.Keeping?)
  }

  predicate ProducerOk(config: Config, s: State)
    requires config.capacity > 0
  {
    && s.index == Idx(|s.leases|, config.capacity)
    && s.nextSeq == |s.leases| % U64_RANGE
    && match s.producer
       case LoadTail(size) => size <= config.slotSize
       case LoadFloor(size, _) => size <= config.slotSize
       case Guard(size, _, _) => size <= config.slotSize
       case CheckFree(size) => size <= config.slotSize
       case MarkWriting(size) =>
         && size <= config.slotSize
         && |s.leases| < s.freed + config.capacity && |s.leases| - config.capacity !in s.pins
       case SealHeader(i) => OpenLease(s, i)
       case SealCommit(i) => i < |s.leases| && s.leases[i].sealing.Sealed?
       case AbortClear => s.leases != [] && OpenLease(s, |s.leases| - 1)
       case AbortFree => s.leases != [] && OpenLease(s, |s.leases| - 1)
       case _ => true
  }

  function PublishedCount(leases: seq<Lease>): (n: nat)
    ensures n <= |leases|
  {
    if leases == [] then 0
    else
      PublishedCount(leases[..|leases| - 1]) + (if leases[|leases| - 1].sealing.Published? then 1 else 0)
  }

  predicate DeliveredOk(s: State) {
    && s.tail <= |s.leases|
    && |s.delivered| == s.tail
    && forall i :: 0 <= i < s.tail ==> s.delivered[i] == MessageOf(s.leases, i)
  }

  ghost predicate Inv(config: Config, s: State) {
    && ConfigOk(config)
    && Shape(config, s)
    && PayloadsFit(config, s.leases)
    && s.freed <= |s.leases| <= s.freed + config.capacity
    && (forall i :: 0 <= i < s.freed ==> s.leases[i].sealing.Published?)
    && s.head + (if s.producer.StorePublished? then 1 else 0) == PublishedCount(s.leases)
    && SlotsOk(config, s)
    && PinsOk(config, s)
    && ProducerOk(config, s)
    && ConsumerOk(s)
    && DeliveredOk(s)
  }

  // ---- Small facts ----

  /** A write to the slot of one cursor of the last lap. */
  lemma PutAt(config: Config, s: State, base: int, c: int, slot: LeaseSlot)
    requires Shape(config, s)
    requires base <= c < base + config.capacity
    ensures forall d :: base <= d < base + config.capacity ==>
              At(config, Put(config, s, c, slot), d) == if d == c then slot else At(config, s, d)
  {
    forall d | base <= d < base + config.capacity && d != c
      ensures Idx(d, config.capacity) != Idx(c, config.capacity)
    {
      if c < d {
        IdxDistinct(c, d, config.capacity);
      } else {
        IdxDistinct(d, c, config.capacity);
      }
    }
  }

  lemma {:induction false} CountUpdate(leases: seq<Lease>, i: nat, lease: Lease)
    requires i < |leases|
    ensures PublishedCount(leases[i := lease])
         == PublishedCount(leases) + (if lease.sealing.Published? then 1 else 0)
            - (if leases[i].sealing.Published? then 1 else 0)
  {
    var n := |leases| - 1;
    if i < n {
      CountUpdate(leases[..n], i, lease);
      assert leases[i := lease][..n] == leases[..n][i := lease];
    } else {
      assert leases[i := lease][..n] == leases[..n];
    }
  }

  lemma {:induction false} CountAppend(leases: seq<Lease>, lease: Lease)
    ensures PublishedCount(leases + [lease]) == PublishedCount(leases) + (if lease.sealing.Published? then 1 else 0)
  {
    assert (leases + [lease])[..|leases|] == leases;
  }

  lemma {:induction false} CountPrefix(leases: seq<Lease>, n: nat)
    requires n <= |leases|
    requires forall i :: 0 <= i < n ==> leases[i].sealing.Published?
    ensures n <= PublishedCount(leases)
  {
    if n < |leases| {
      CountPrefix(leases[..|leases| - 1], n);
    } else if n > 0 {
      CountPrefix(leases[..n - 1], n - 1);
    }
  }

  /** The sealed header followed by the payload is the frame of the message. */
  lemma SealedFrame(seqNo: u64, payload: seq<byte>)
    requires |payload| <= USIZE_MAX
    ensures SealedHeader(seqNo, payload) + payload == WholeFrame(seqNo, payload).value
  {
  }

  /** The consumer's checks pass on a sealed frame and yield exactly the payload. */
  lemma TakeSealed(seqNo: u64, payload: seq<byte>)
    requires FRAME_HEADER_LEN + |payload| <= USIZE_MAX
    ensures Take(seqNo, seqNo, SealedHeader(seqNo, payload) + payload) == Ok(Message(seqNo, payload))
  {
    hide DecodeFrame, ValidBytesFrame, IsChunked;
    SealedFrame(seqNo, payload);
    DecodeWhole(seqNo, payload);
  }

  /** A view is granted on a sealed frame, and shows exactly the payload. */
  lemma ViewSealed(seqNo: u64, payload: seq<byte>)
    requires FRAME_HEADER_LEN + |payload| <= USIZE_MAX
    ensures CheckView(Some(seqNo), seqNo, SealedHeader(seqNo, payload) + payload) == Ok(Message(seqNo, payload))
  {
    hide DecodeFrame, ValidBytesFrame, IsChunked, CheckView;
    SealedFrame(seqNo, payload);
    DecodeWhole(seqNo, payload);
    CheckViewOfFrame(Some(seqNo), seqNo, WholeFrame(seqNo, payload).value);
  }

  // ---- Producer steps ----

  /** A free slot at the write index belongs to a cursor that the consumer has freed and that no view pins. */
  lemma FreeMeansRoom(config: Config, s: State)
    requires Inv(config, s)
    requires s.slots[s.index].state.Free?
    ensures |s.leases| < s.freed + config.capacity
    ensures |s.leases| - config.capacity !in s.pins
  {
    hide Idx;
    var c := |s.leases| - config.capacity;
    IdxLap(c, config.capacity);
    assert At(config, s, c).state.Free?;
    assert SlotOk(s.leases, s.freed, s.pins, GripOf(s.consumer), s.producer.AbortFree?, c, At(config, s, c));
  }

  /** A step that only moves the producer. */
  lemma LocalKeeps(config: Config, s: State, next: Allocating)
    requires Inv(config, s)
    requires !s.producer.AbortFree? && !next.AbortFree? && !s.producer.StorePublished? && !next.StorePublished?
    requires ProducerOk(config, s.(producer := next))
    ensures Inv(config, s.(producer := next))
  {
    hide SlotOk, ProducerOk, Idx;
    var t := s.(producer := next);
    forall c | |t.leases| - config.capacity <= c < |t.leases|
      ensures SlotOk(t.leases, t.freed, t.pins, GripOf(t.consumer), t.producer.AbortFree?, c, At(config, t, c))
    {
      assert At(config, t, c) == At(config, s, c);
    }
  }

  lemma OtherSlotOk(
    leases: seq<Lease>, i: nat, lease: Lease, freed: nat, pins: set<nat>, grip: Grip, cleared: bool, c: int,
    slot: LeaseSlot)
    requires i < |leases| && c < |leases| && c != i
    requires SlotOk(leases, freed, pins, grip, false, c, slot)
    ensures SlotOk(leases[i := lease], freed, pins, grip, cleared, c, slot)
  {
  }

  /** Changing a lease the consumer has not reached changes nothing for the consumer. */
  lemma UpdateKeepsConsumer(s: State, i: nat, lease: Lease, t: State)
    requires ConsumerOk(s) && DeliveredOk(s)
    requires i < |s.leases| && s.freed <= i && !s.leases[i].sealing.Published?
    requires t == s.(slots := t.slots, leases := s.leases[i := lease], producer := t.producer)
    ensures ConsumerOk(t) && DeliveredOk(t)
    ensures forall c :: PublishedAt(s.leases, c) ==> PublishedAt(t.leases, c)
  {
    hide SealedHeader;
  }

  lemma UpdateKeepsSlots(config: Config, s: State, i: nat, slot: LeaseSlot, lease: Lease, next: Allocating)
    requires Shape(config, s) && SlotsOk(config, s)
    requires s.freed <= i < |s.leases| <= s.freed + config.capacity
    requires !s.producer.AbortFree?
    requires SlotOk(s.leases[i := lease], s.freed, s.pins, GripOf(s.consumer), next.AbortFree?, i, slot)
    ensures SlotsOk(config, SetLease(Put(config, s, i, slot), i, lease).(producer := next))
  {
    hide Idx, SlotOk;
    var t := SetLease(Put(config, s, i, slot), i, lease).(producer := next);
    PutAt(config, s, |s.leases| - config.capacity, i, slot);
    forall c | |t.leases| - config.capacity <= c < |t.leases|
      ensures SlotOk(t.leases, t.freed, t.pins, GripOf(t.consumer), t.producer.AbortFree?, c, At(config, t, c))
    {
      assert At(config, t, c) == if c == i then slot else At(config, s, c);
      if c != i {
        OtherSlotOk(s.leases, i, lease, s.freed, s.pins, GripOf(s.consumer), next.AbortFree?, c, At(config, s, c));
      }
    }
  }

  /** Writing the slot of one live lease and recording it in the history. */
  lemma LeaseWriteKeeps(config: Config, s: State, i: nat, slot: LeaseSlot, lease: Lease, next: Allocating)
    requires Inv(config, s)
    requires i < |s.leases| && s.freed <= i && !s.leases[i].sealing.Published?
    requires |lease.payload| == |s.leases[i].payload|
    requires !s.producer.AbortFree? && !s.producer.StorePublished?
    requires next.StorePublished? <==> lease.sealing.Published?
    requires ProducerOk(config, s.(leases := s.leases[i := lease], producer := next))
    requires SlotOk(s.leases[i := lease], s.freed, s.pins, GripOf(s.consumer), next.AbortFree?, i, slot)
    ensures Inv(config, SetLease(Put(config, s, i, slot), i, lease).(producer := next))
  {
    hide Idx, SlotOk, SlotsOk, ConsumerOk, DeliveredOk, ProducerOk;
    var t := SetLease(Put(config, s, i, slot), i, lease).(producer := next);
    CountUpdate(s.leases, i, lease);
    UpdateKeepsConsumer(s, i, lease, t);
    UpdateKeepsSlots(config, s, i, slot, lease, next);
    assert ProducerOk(config, t) by {
      WriterOnly(config, s.(leases := s.leases[i := lease], producer := next), t);
    }
  }

  /** The producer's own state does not look at the slots. */
  lemma WriterOnly(config: Config, s: State, t: State)
    requires config.capacity > 0 && t == s.(slots := t.slots)
    ensures ProducerOk(config, s) <==> ProducerOk(config, t)
  {
    hide Idx;
  }

  lemma SlotAt(config: Config, s: State, c: nat)
    requires Inv(config, s)
    requires s.freed <= c < |s.leases|
    ensures SlotOk(s.leases, s.freed, s.pins, GripOf(s.consumer), s.producer.AbortFree?, c, At(config, s, c))
  {
    hide SlotOk, Idx, ProducerOk, ConsumerOk, DeliveredOk;
  }

  /** An open or sealed lease has not been reached by the consumer. */
  lemma UnpublishedIsAhead(config: Config, s: State, i: nat)
    requires Inv(config, s)
    requires i < |s.leases| && !s.leases[i].sealing.Published?
    ensures s.freed <= i
    ensures i !in s.pins
  {
    hide SlotsOk, ProducerOk, ConsumerOk, DeliveredOk;
  }

  lemma WriteKeeps(config: Config, s: State, i: nat, offset: nat, bytes: seq<byte>)
    requires Inv(config, s)
    ensures Inv(config, Apply(config, s, Write(i, offset, bytes)))
  {
    hide Idx;
    var t := Apply(config, s, Write(i, offset, bytes));
    if t != s {
      UnpublishedIsAhead(config, s, i);
      SlotAt(config, s, i);
      var slot, lease := At(config, s, i), s.leases[i];
      LeaseWriteKeeps(config, s, i, slot.(payload := Patch(slot.payload, offset, bytes)),
                      lease.(payload := Patch(lease.payload, offset, bytes)), s.producer);
    }
  }

  lemma SealHeaderKeeps(config: Config, s: State, retry: bool, floor: Option<nat>)
    requires Inv(config, s) && s.producer.SealHeader?
    ensures Inv(config, ProducerMove(config, s, retry, floor))
  {
    hide Idx, SealedHeader;
    var i := s.producer.lease;
    UnpublishedIsAhead(config, s, i);
    SlotAt(config, s, i);
    var slot, lease := At(config, s, i), s.leases[i];
    LeaseWriteKeeps(config, s, i, slot.(header := SealedHeader(slot.seqNo, slot.payload)),
                    lease.(sealing := Sealed), SealCommit(i));
  }

  lemma SealCommitKeeps(config: Config, s: State, retry: bool, floor: Option<nat>)
    requires Inv(config, s) && s.producer.SealCommit?
    ensures Inv(config, ProducerMove(config, s, retry, floor))
  {
    hide Idx, SealedHeader;
    var i := s.producer.lease;
    UnpublishedIsAhead(config, s, i);
    SlotAt(config, s, i);
    HeldIsPublished(s, i);
    LeaseWriteKeeps(config, s, i, At(config, s, i).(state := Committed), s.leases[i].(sealing := Published),
                    StorePublished);
  }

  /** The consumer only holds the slot of a published lease. */
  lemma HeldIsPublished(s: State, i: nat)
    requires ConsumerOk(s)
    requires i < |s.leases| && !s.leases[i].sealing.Published?
    ensures GripOf(s.consumer).Taking? ==> i != s.freed
  {
  }

  lemma AbortClearKeeps(config: Config, s: State, retry: bool, floor: Option<nat>)
    requires Inv(config, s) && s.producer.AbortClear?
    ensures Inv(config, ProducerMove(config, s, retry, floor))
  {
    hide Idx, SealedHeader;
    var i := |s.leases| - 1;
    UnpublishedIsAhead(config, s, i);
    SlotAt(config, s, i);
    assert s.leases[i := s.leases[i]] == s.leases;
    LeaseWriteKeeps(config, s, i, At(config, s, i).(header := [], payload := []), s.leases[i], AbortFree);
  }

  lemma StorePublishedKeeps(config: Config, s: State, retry: bool, floor: Option<nat>)
    requires Inv(config, s) && s.producer.StorePublished?
    ensures Inv(config, ProducerMove(config, s, retry, floor))
  {
    hide Idx, SlotOk, ConsumerOk, DeliveredOk;
    var t := ProducerMove(config, s, retry, floor);
    SameSlots(config, s, t);
    assert ConsumerOk(t) && DeliveredOk(t) by {
      ReaderOnly(s, t);
    }
  }

  lemma SameSlots(config: Config, s: State, t: State)
    requires config.capacity == |s.slots| > 0
    requires t.slots == s.slots && t.leases == s.leases && t.freed == s.freed
    requires t.pins == s.pins && GripOf(t.consumer) == GripOf(s.consumer)
    requires t.producer.AbortFree? == s.producer.AbortFree?
    requires SlotsOk(config, s)
    ensures SlotsOk(config, t)
  {
    hide Idx, SlotOk;
    forall c | |t.leases| - config.capacity <= c < |t.leases|
      ensures SlotOk(t.leases, t.freed, t.pins, GripOf(t.consumer), t.producer.AbortFree?, c, At(config, t, c))
    {
      assert At(config, t, c) == At(config, s, c);
    }
  }

  /** What the consumer knows does not look at the producer's state or the head. */
  lemma ReaderOnly(s: State, t: State)
    requires ConsumerOk(s) && DeliveredOk(s)
    requires t == s.(head := t.head, slots := t.slots, producer := t.producer, index := t.index, nextSeq := t.nextSeq)
    ensures ConsumerOk(t) && DeliveredOk(t)
  {
  }

  // ---- Allocating and aborting ----

  lemma AppendKeepsSlot(
    leases: seq<Lease>, lease: Lease, freed: nat, pins: set<nat>, grip: Grip, c: int, slot: LeaseSlot)
    requires c < |leases|
    requires SlotOk(leases, freed, pins, grip, false, c, slot)
    ensures SlotOk(leases + [lease], freed, pins, grip, false, c, slot)
  {
  }

  lemma AppendKeepsConsumer(s: State, lease: Lease, t: State)
    requires ConsumerOk(s) && DeliveredOk(s)
    requires t == s.(slots := t.slots, index := t.index, nextSeq := t.nextSeq, producer := t.producer,
                     leases := s.leases + [lease])
    ensures ConsumerOk(t) && DeliveredOk(t)
    ensures forall c :: PublishedAt(s.leases, c) ==> PublishedAt(t.leases, c)
  {
    hide SealedHeader;
  }

  lemma AllocKeepsSlots(config: Config, s: State, slot: LeaseSlot, lease: Lease, t: State)
    requires Shape(config, s) && SlotsOk(config, s)
    requires s.index == Idx(|s.leases|, config.capacity)
    requires s.freed <= |s.leases| < s.freed + config.capacity
    requires s.producer.MarkWriting?
    requires t == s.(slots := s.slots[s.index := slot], index := t.index, nextSeq := t.nextSeq, producer := Resting,
                     leases := s.leases + [lease])
    requires SlotOk(s.leases + [lease], s.freed, s.pins, GripOf(s.consumer), false, |s.leases|, slot)
    ensures SlotsOk(config, t)
  {
    hide Idx, SlotOk;
    var w := |s.leases|;
    PutAt(config, s, w + 1 - config.capacity, w, slot);
    forall c | |t.leases| - config.capacity <= c < |t.leases|
      ensures SlotOk(t.leases, t.freed, t.pins, GripOf(t.consumer), t.producer.AbortFree?, c, At(config, t, c))
    {
      assert At(config, t, c) == At(config, Put(config, s, w, slot), c);
      if c < w {
        AppendKeepsSlot(s.leases, lease, s.freed, s.pins, GripOf(s.consumer), c, At(config, s, c));
      }
    }
  }

  lemma NewSlotOk(
    leases: seq<Lease>, freed: nat, pins: set<nat>, grip: Grip, size: nat, slot: LeaseSlot)
    requires freed <= |leases| && |leases| !in pins
    requires slot == LeaseSlot(Writing, |leases| % U64_RANGE, [], Zeros(size))
    ensures SlotOk(leases + [Lease(Zeros(size), Open)], freed, pins, grip, false, |leases|, slot)
  {
  }

  lemma NotYetPinned(config: Config, s: State, c: nat)
    requires PinsOk(config, s) && c >= |s.leases|
    ensures c !in s.pins
  {
  }

  /** One more lease laps no pinned slot. */
  lemma AppendKeepsPins(config: Config, s: State, lease: Lease, t: State)
    requires PinsOk(config, s)
    requires |s.leases| - config.capacity !in s.pins
    requires t == s.(slots := t.slots, index := t.index, nextSeq := t.nextSeq, producer := t.producer,
                     leases := s.leases + [lease])
    ensures PinsOk(config, t)
  {
  }

  lemma MarkWritingKeeps(config: Config, s: State, retry: bool, floor: Option<nat>)
    requires Inv(config, s) && s.producer.MarkWriting?
    ensures Inv(config, ProducerMove(config, s, retry, floor))
  {
    hide Idx, SealedHeader, SlotsOk, SlotOk, ConsumerOk, DeliveredOk, PinsOk, Zeros, PublishedAt, ProducerOk,
         PublishedCount;
    var t := ProducerMove(config, s, retry, floor);
    var lease := Lease(Zeros(s.producer.size), Open);
    MarkedProducer(config, s, t);
    MarkedSlots(config, s, t);
    AppendKeepsConsumer(s, lease, t);
    AppendKeepsPins(config, s, lease, t);
    CountAppend(s.leases, lease);
  }

  /** What the allocation leaves: the new slot, the next index and number, one more lease. */
  predicate Marks(config: Config, s: State, t: State)
    requires s.producer.MarkWriting?
  {
    var size := s.producer.size;
    && config.capacity == |s.slots| > 0 && s.index < config.capacity
    && t == s.(slots := s.slots[s.index := LeaseSlot(Writing, s.nextSeq, [], Zeros(size))],
               index := (s.index + 1) % config.capacity, nextSeq := NextSeq(s.nextSeq),
               leases := s.leases + [Lease(Zeros(size), Open)], producer := Resting)
  }

  lemma MarkedProducer(config: Config, s: State, t: State)
    requires s.producer.MarkWriting? && Marks(config, s, t) && ProducerOk(config, s)
    ensures ProducerOk(config, t)
    ensures s.producer.size <= config.slotSize
    ensures |s.leases| < s.freed + config.capacity && |s.leases| - config.capacity !in s.pins
  {
    hide Idx, Zeros;
    IdxShift(|s.leases|, 1, config.capacity);
    ModShift(|s.leases|, 1);
  }

  lemma MarkedSlots(config: Config, s: State, t: State)
    requires s.producer.MarkWriting? && Marks(config, s, t)
    requires ProducerOk(config, s) && PinsOk(config, s) && SlotsOk(config, s) && s.freed <= |s.leases|
    ensures SlotsOk(config, t)
  {
    hide Idx, SlotsOk, SlotOk, PinsOk, Zeros;
    NotYetPinned(config, s, |s.leases|);
    NewSlotOk(s.leases, s.freed, s.pins, GripOf(s.consumer), s.producer.size, t.slots[s.index]);
    AllocKeepsSlots(config, s, t.slots[s.index], Lease(Zeros(s.producer.size), Open), t);
  }

  lemma AbortFreeKeeps(config: Config, s: State, retry: bool, floor: Option<nat>)
    requires Inv(config, s) && s.producer.AbortFree?
    ensures Inv(config, ProducerMove(config, s, retry, floor))
    ensures var t := ProducerMove(config, s, retry, floor);
            && t.leases == s.leases[..|s.leases| - 1]
            && t.index == Idx(|t.leases|, config.capacity)
            && t.nextSeq == |t.leases| % U64_RANGE
            && At(config, t, |t.leases|) == CLEAR_SLOT
  {
    hide Idx, SealedHeader, SlotsOk, ConsumerOk, DeliveredOk;
    var t := ProducerMove(config, s, retry, floor);
    var i := |s.leases| - 1;
    UnpublishedIsAhead(config, s, i);
    SlotAt(config, s, i);
    CountUpdate(s.leases, i, s.leases[i]);
    IdxBack(i, config.capacity);
    AbortKeepsSlots(config, s, t);
    AbortKeepsConsumer(s, t);
  }

  /** Stepping an index back by one. */
  lemma IdxBack(c: nat, n: nat)
    requires n > 0
    ensures (Idx(c + 1, n) + n - 1) % n == Idx(c, n)
  {
    IdxShift(c + 1, n - 1, n);
    IdxLap(c, n);
  }

  lemma AbortKeepsConsumer(s: State, t: State)
    requires ConsumerOk(s) && DeliveredOk(s)
    requires s.leases != [] && !s.leases[|s.leases| - 1].sealing.Published? && s.freed < |s.leases|
    requires t == s.(slots := t.slots, index := t.index, nextSeq := t.nextSeq, producer := t.producer,
                     leases := s.leases[..|s.leases| - 1])
    ensures ConsumerOk(t) && DeliveredOk(t)
    ensures forall c :: PublishedAt(s.leases, c) ==> PublishedAt(t.leases, c)
  {
    hide SealedHeader;
  }

  lemma PrefixKeepsSlot(leases: seq<Lease>, freed: nat, pins: set<nat>, grip: Grip, c: int, slot: LeaseSlot)
    requires 0 < |leases| && c + 1 < |leases|
    requires SlotOk(leases, freed, pins, grip, true, c, slot)
    ensures SlotOk(leases[..|leases| - 1], freed, pins, grip, false, c, slot)
  {
  }

  lemma AbortKeepsSlots(config: Config, s: State, t: State)
    requires Shape(config, s) && SlotsOk(config, s)
    requires s.producer.AbortFree? && s.freed < |s.leases| <= s.freed + config.capacity
    requires |s.leases| - 1 - config.capacity !in s.pins
    requires t == Put(config, s, |s.leases| - 1, CLEAR_SLOT).(
                    index := t.index, nextSeq := t.nextSeq, producer := Resting, leases := s.leases[..|s.leases| - 1])
    ensures SlotsOk(config, t)
    ensures At(config, t, |t.leases|) == CLEAR_SLOT
  {
    hide Idx, SlotOk;
    var w := |s.leases| - 1;
    PutAt(config, s, w + 1 - config.capacity, w, CLEAR_SLOT);
    var put := Put(config, s, w, CLEAR_SLOT);
    assert At(config, t, w) == At(config, put, w);
    forall c | w - config.capacity <= c < w
      ensures SlotOk(t.leases, t.freed, t.pins, GripOf(t.consumer), t.producer.AbortFree?, c, At(config, t, c))
    {
      assert At(config, t, c) == At(config, put, c);
      if c > w - config.capacity {
        PrefixKeepsSlot(s.leases, s.freed, s.pins, GripOf(s.consumer), c, At(config, s, c));
      } else {
        IdxLap(c, config.capacity);
        FreedSlotOk(t.leases, t.freed, t.pins, GripOf(t.consumer), c, At(config, t, c));
      }
    }
  }

  lemma FreedSlotOk(leases: seq<Lease>, freed: nat, pins: set<nat>, grip: Grip, c: int, slot: LeaseSlot)
    requires c < freed && c < |leases| && c !in pins && slot.state.Free?
    ensures SlotOk(leases, freed, pins, grip, false, c, slot)
  {
  }

  // ---- Consumer steps ----

  /** A committed slot under the tail index is the published lease at the tail. */
  lemma CommittedAtTail(config: Config, s: State)
    requires Inv(config, s)
    requires s.consumer.Waiting?
    requires At(config, s, s.tail).state.Committed?
    ensures PublishedAt(s.leases, s.tail)
    ensures Contents(s.leases[s.tail], s.tail, At(config, s, s.tail))
    ensures At(config, s, s.tail).seqNo == s.tail % U64_RANGE
  {
    hide Idx, Contents, SealedHeader;
    var w := |s.leases|;
    var c := if s.tail < w then s.tail else w - config.capacity;
    IdxLap(w - config.capacity, config.capacity);
    assert At(config, s, s.tail) == At(config, s, c);
    SlotOfInv(config, s, c);
  }

  lemma SlotOfInv(config: Config, s: State, c: int)
    requires Inv(config, s)
    requires |s.leases| - config.capacity <= c < |s.leases|
    ensures SlotOk(s.leases, s.freed, s.pins, GripOf(s.consumer), s.producer.AbortFree?, c, At(config, s, c))
  {
    hide Idx, SlotOk, ProducerOk, ConsumerOk, DeliveredOk;
  }

  /** The consumer is doing nothing with any slot but the one at cursor h. */
  predicate OnlyAt(h: nat, freed: nat, grip: Grip) {
    (grip.Taking? ==> h == freed) && (grip.Letting? ==> grip.cursor == h)
  }

  lemma OtherCursorOk(
    leases: seq<Lease>, freed: nat, pins: set<nat>, grip: Grip, pins': set<nat>, grip': Grip, cleared: bool, h: nat,
    c: int, slot: LeaseSlot)
    requires c < |leases| && c != h
    requires c in pins <==> c in pins'
    requires OnlyAt(h, freed, grip) && OnlyAt(h, freed, grip')
    requires SlotOk(leases, freed, pins, grip, cleared, c, slot)
    ensures SlotOk(leases, freed, pins', grip', cleared, c, slot)
  {
  }

  /** What the consumer and the pins have to satisfy does not look at the slots. */
  lemma SlotsUnread(config: Config, s: State, t: State)
    requires t == s.(slots := t.slots)
    requires ConsumerOk(s) && PinsOk(config, s)
    ensures ConsumerOk(t) && PinsOk(config, t)
  {
  }

  /** A pin that is made at the first cursor not freed yet is no threat to an allocation under way. */
  lemma PinnedProducer(config: Config, s: State, h: nat, t: State)
    requires config.capacity > 0 && ProducerOk(config, s)
    requires t == s.(slots := t.slots, pins := t.pins, consumer := t.consumer)
    requires forall c :: c != h ==> (c in t.pins <==> c in s.pins)
    requires h in t.pins ==> h in s.pins || h == s.freed
    ensures ProducerOk(config, t)
  {
    hide Idx;
  }

  /** The consumer writes the slot of one cursor, and may pin or unpin it. */
  lemma ConsumerWriteKeeps(config: Config, s: State, h: nat, slot: LeaseSlot, pins: set<nat>, next: Receiving)
    requires Inv(config, s)
    requires h < |s.leases| <= h + config.capacity
    requires forall c :: c != h ==> (c in pins <==> c in s.pins)
    requires h in pins ==> h in s.pins || h == s.freed
    requires OnlyAt(h, s.freed, GripOf(s.consumer)) && OnlyAt(h, s.freed, GripOf(next))
    requires SlotOk(s.leases, s.freed, pins, GripOf(next), s.producer.AbortFree?, h, slot)
    requires ConsumerOk(s.(pins := pins, consumer := next)) && PinsOk(config, s.(pins := pins, consumer := next))
    ensures Inv(config, Put(config, s, h, slot).(pins := pins, consumer := next))
  {
    hide Idx, SlotOk, OnlyAt, ProducerOk, ConsumerOk, PinsOk, PublishedCount;
    var t := Put(config, s, h, slot).(pins := pins, consumer := next);
    PinnedProducer(config, s, h, t);
    SlotsUnread(config, s.(pins := pins, consumer := next), t);
    assert SlotsOk(config, t) by {
      PutAt(config, s, |s.leases| - config.capacity, h, slot);
      forall c | |t.leases| - config.capacity <= c < |t.leases|
        ensures SlotOk(t.leases, t.freed, t.pins, GripOf(t.consumer), t.producer.AbortFree?, c, At(config, t, c))
      {
        assert At(config, t, c) == if c == h then slot else At(config, s, c);
        if c != h {
          SlotOfInv(config, s, c);
          OtherCursorOk(s.leases, s.freed, s.pins, GripOf(s.consumer), pins, GripOf(next), s.producer.AbortFree?, h, c,
                        At(config, s, c));
        }
      }
    }
  }

  lemma WaitKeeps(config: Config, s: State, view: bool)
    requires Inv(config, s) && s.consumer.Waiting?
    ensures Inv(config, ConsumerMove(config, s, view))
  {
    hide Idx, SlotOk, ProducerOk, SealedHeader;
    var t := ConsumerMove(config, s, view);
    if t != s {
      CommittedAtTail(config, s);
      LookKeeps(config, s, t.consumer);
    }
  }

  /** A step that only moves the consumer. */
  lemma LookKeeps(config: Config, s: State, next: Receiving)
    requires Inv(config, s)
    requires GripOf(next) == GripOf(s.consumer)
    requires ConsumerOk(s.(consumer := next)) && PinsOk(config, s.(consumer := next))
    ensures Inv(config, s.(consumer := next))
  {
    hide Idx, SlotOk, ProducerOk, SealedHeader;
    var t := s.(consumer := next);
    SameSlots(config, s, t);
    assert ProducerOk(config, t) by {
      ProducerOnly(config, s, t);
    }
  }

  /** The producer's own state only looks at the leases, the pins and at how many slots are freed. */
  lemma ProducerOnly(config: Config, s: State, t: State)
    requires config.capacity > 0 && ProducerOk(config, s)
    requires t == s.(slots := t.slots, tail := t.tail, consumer := t.consumer, expected := t.expected,
                     freed := t.freed, delivered := t.delivered)
    requires s.freed <= t.freed
    ensures ProducerOk(config, t)
  {
    hide Idx;
  }

  lemma ReadKeeps(config: Config, s: State, view: bool)
    requires Inv(config, s) && s.consumer.Reading?
    ensures Inv(config, ConsumerMove(config, s, view))
  {
    hide Idx, SealedHeader, Take;
    var payload := s.leases[s.tail].payload;
    TakeSealed(s.consumer.seqNo, payload);
    SlotAt(config, s, s.tail);
    ConsumerWriteKeeps(config, s, s.tail, At(config, s, s.tail).(state := Pinned), s.pins,
                       Clearing(MessageOf(s.leases, s.tail)));
  }

  lemma ClearKeeps(config: Config, s: State, view: bool)
    requires Inv(config, s) && s.consumer.Clearing?
    ensures Inv(config, ConsumerMove(config, s, view))
  {
    hide Idx, SealedHeader;
    SlotAt(config, s, s.tail);
    ConsumerWriteKeeps(config, s, s.tail, At(config, s, s.tail).(header := [], payload := []), s.pins,
                       Freeing(s.consumer.message));
  }

  /** The frame read in place passes the checks of a view. */
  lemma LookingKeeps(config: Config, s: State, view: bool)
    requires Inv(config, s) && s.consumer.Looking?
    ensures Inv(config, ConsumerMove(config, s, view))
  {
    hide Idx, SealedHeader, CheckView;
    SlotAt(config, s, s.tail);
    ViewSealed(s.consumer.seqNo, s.leases[s.tail].payload);
    LookKeeps(config, s, Showing(MessageOf(s.leases, s.tail)));
  }

  /** The tail slot is pinned for the view. */
  lemma ShowKeeps(config: Config, s: State, view: bool)
    requires Inv(config, s) && s.consumer.Showing?
    ensures Inv(config, ConsumerMove(config, s, view))
  {
    hide Idx, SealedHeader;
    SlotAt(config, s, s.tail);
    ConsumerWriteKeeps(config, s, s.tail, At(config, s, s.tail).(state := Pinned), s.pins + {s.tail},
                       Keeping(s.consumer.message));
  }

  /** A view lets its slot go: checked, cleared, freed. */
  lemma ReleaseKeeps(config: Config, s: State, view: bool)
    requires Inv(config, s) && (s.consumer.Checking? || s.consumer.Dropping? || s.consumer.Opening?)
    ensures Inv(config, ConsumerMove(config, s, view))
  {
    hide Idx, SealedHeader;
    var c := s.consumer.cursor;
    assert PublishedAt(s.leases, c) && c < s.freed;
    SlotOfInv(config, s, c);
    var slot := At(config, s, c);
    if s.consumer.Checking? {
      LookKeeps(config, s, Dropping(c));
    } else if s.consumer.Dropping? {
      ConsumerWriteKeeps(config, s, c, slot.(header := [], payload := []), s.pins, Opening(c));
      assert s.pins == Put(config, s, c, slot).pins;
    } else {
      ConsumerWriteKeeps(config, s, c, CLEAR_SLOT, s.pins - {c}, Waiting);
    }
  }

  lemma FreedKeepsSlot(
    leases: seq<Lease>, freed: nat, pins: set<nat>, grip: Grip, cleared: bool, c: int, slot: LeaseSlot)
    requires c < |leases| && c != freed
    requires grip.Taking? || grip.Loose?
    requires SlotOk(leases, freed, pins, grip, cleared, c, slot)
    ensures SlotOk(leases, freed + 1, pins, Loose, cleared, c, slot)
  {
  }

  lemma FreeKeeps(config: Config, s: State, view: bool)
    requires Inv(config, s) && s.consumer.Freeing?
    ensures Inv(config, ConsumerMove(config, s, view))
  {
    hide Idx, SlotOk, SealedHeader, ProducerOk, ConsumerOk, DeliveredOk;
    FreeingFacts(config, s);
    var t := ConsumerMove(config, s, view);
    assert SlotsOk(config, t) by {
      PutAt(config, s, |s.leases| - config.capacity, s.tail, CLEAR_SLOT);
      forall c | |t.leases| - config.capacity <= c < |t.leases|
        ensures SlotOk(t.leases, t.freed, t.pins, Loose, t.producer.AbortFree?, c, At(config, t, c))
      {
        assert At(config, t, c) == if c == s.tail then CLEAR_SLOT else At(config, s, c);
        if c != s.tail {
          SlotOfInv(config, s, c);
          FreedKeepsSlot(s.leases, s.freed, s.pins, Taking, s.producer.AbortFree?, c, At(config, s, c));
        } else {
          ClearedSlotOk(t.leases, t.freed, t.pins, t.producer.AbortFree?, c);
        }
      }
    }
    ProducerOnly(config, s, t);
    assert ConsumerOk(t) && DeliveredOk(t) by {
      FreedConsumer(s, t);
    }
  }

  lemma ClearedSlotOk(leases: seq<Lease>, freed: nat, pins: set<nat>, cleared: bool, c: nat)
    requires c < freed && c < |leases| && c !in pins
    ensures SlotOk(leases, freed, pins, Loose, cleared, c, CLEAR_SLOT)
  {
  }

  lemma FreeingFacts(config: Config, s: State)
    requires ConsumerOk(s) && PinsOk(config, s) && s.consumer.Freeing?
    ensures s.freed == s.tail && PublishedAt(s.leases, s.tail) && s.tail !in s.pins
  {
  }

  lemma FreedConsumer(s: State, t: State)
    requires ConsumerOk(s) && DeliveredOk(s) && s.consumer.Freeing?
    requires t == s.(slots := t.slots, freed := s.freed + 1, consumer := Passing(s.consumer.message))
    ensures ConsumerOk(t) && DeliveredOk(t)
  {
  }

  lemma PassKeeps(config: Config, s: State, view: bool)
    requires Inv(config, s) && s.consumer.Passing?
    ensures Inv(config, ConsumerMove(config, s, view))
  {
    hide Idx, SlotOk, ProducerOk, SealedHeader;
    var t := ConsumerMove(config, s, view);
    SameSlots(config, s, t);
    ProducerOnly(config, s, t);
    ModShift(s.tail, 1);
  }

  /** Moving the tail past a slot that stays pinned. */
  lemma KeepKeeps(config: Config, s: State, view: bool)
    requires Inv(config, s) && s.consumer.Keeping?
    ensures Inv(config, ConsumerMove(config, s, view))
  {
    hide Idx, SlotOk, ProducerOk, SealedHeader;
    var t := ConsumerMove(config, s, view);
    assert SlotsOk(config, t) by {
      forall c | |t.leases| - config.capacity <= c < |t.leases|
        ensures SlotOk(t.leases, t.freed, t.pins, Loose, t.producer.AbortFree?, c, At(config, t, c))
      {
        assert At(config, t, c) == At(config, s, c);
        SlotOfInv(config, s, c);
        if c == s.tail {
          KeptSlotOk(s.leases, s.freed, s.pins, s.producer.AbortFree?, c, At(config, s, c));
        } else {
          FreedKeepsSlot(s.leases, s.freed, s.pins, Loose, s.producer.AbortFree?, c, At(config, s, c));
        }
      }
    }
    ProducerOnly(config, s, t);
    ModShift(s.tail, 1);
  }

  lemma KeptSlotOk(leases: seq<Lease>, freed: nat, pins: set<nat>, cleared: bool, c: int, slot: LeaseSlot)
    requires c < |leases| && c in pins
    requires SlotOk(leases, freed, pins, Loose, cleared, c, slot)
    ensures SlotOk(leases, freed + 1, pins, Loose, cleared, c, slot)
  {
  }

  // ---- Runs ----

  lemma ProducerKeeps(config: Config, s: State, retry: bool, floor: Option<nat>)
    requires Inv(config, s)
    ensures Inv(config, ProducerMove(config, s, retry, floor))
  {
    hide Inv;
    match s.producer {
      case Resting =>
      case LoadTail(_) => LocalMoveKeeps(config, s, retry, floor);
      case LoadFloor(_, _) => LocalMoveKeeps(config, s, retry, floor);
      case Guard(_, _, _) => LocalMoveKeeps(config, s, retry, floor);
      case CheckFree(_) => LocalMoveKeeps(config, s, retry, floor);
      case MarkWriting(_) => MarkWritingKeeps(config, s, retry, floor);
      case SealHeader(_) => SealHeaderKeeps(config, s, retry, floor);
      case SealCommit(_) => SealCommitKeeps(config, s, retry, floor);
      case StorePublished => StorePublishedKeeps(config, s, retry, floor);
      case AbortClear => AbortClearKeeps(config, s, retry, floor);
      case AbortFree => AbortFreeKeeps(config, s, retry, floor);
    }
  }

  lemma LocalMoveKeeps(config: Config, s: State, retry: bool, floor: Option<nat>)
    requires Inv(config, s)
    requires s.producer.LoadTail? || s.producer.LoadFloor? || s.producer.Guard? || s.producer.CheckFree?
    ensures Inv(config, ProducerMove(config, s, retry, floor))
  {
    hide SlotsOk, ConsumerOk, DeliveredOk, GuardLen, Consistent, Idx;
    if s.producer.CheckFree? && s.slots[s.index].state.Free? {
      FreeMeansRoom(config, s);
    }
    LocalKeeps(config, s, ProducerMove(config, s, retry, floor).producer);
  }

  lemma ConsumerKeeps(config: Config, s: State, view: bool)
    requires Inv(config, s)
    ensures Inv(config, ConsumerMove(config, s, view))
  {
    hide Inv;
    match s.consumer {
      case Waiting => WaitKeeps(config, s, view);
      case Reading(_, _) => ReadKeeps(config, s, view);
      case Clearing(_) => ClearKeeps(config, s, view);
      case Freeing(_) => FreeKeeps(config, s, view);
      case Passing(_) => PassKeeps(config, s, view);
      case Looking(_) => LookingKeeps(config, s, view);
      case Showing(_) => ShowKeeps(config, s, view);
      case Keeping(_) => KeepKeeps(config, s, view);
      case Checking(_) => ReleaseKeeps(config, s, view);
      case Dropping(_) => ReleaseKeeps(config, s, view);
      case Opening(_) => ReleaseKeeps(config, s, view);
      case Failed(_) =>
    }
  }

  lemma CallKeeps(config: Config, s: State, next: Allocating)
    requires Inv(config, s) && s.producer.Resting?
    requires (next.LoadTail? && next.size <= config.slotSize)
             || (next.SealHeader? && OpenLease(s, next.lease))
             || (next.AbortClear? && s.leases != [] && OpenLease(s, |s.leases| - 1))
    ensures Inv(config, s.(producer := next))
  {
    hide SlotsOk, ConsumerOk, DeliveredOk, Idx;
    LocalKeeps(config, s, next);
  }

  lemma ReleaseStartKeeps(config: Config, s: State, cursor: nat)
    requires Inv(config, s) && s.consumer.Waiting? && cursor in s.pins
    ensures Inv(config, s.(consumer := Checking(cursor)))
  {
    hide SlotsOk, DeliveredOk, ProducerOk, Idx;
    LookKeeps(config, s, Checking(cursor));
  }

  lemma ApplyKeeps(config: Config, s: State, step: Step)
    requires Inv(config, s)
    ensures Inv(config, Apply(config, s, step))
  {
    hide Inv, ProducerMove, ConsumerMove;
    match step {
      case Alloc(size) =>
        if s.producer.Resting? && size <= config.slotSize {
          CallKeeps(config, s, LoadTail(size));
        }
      case Write(i, offset, bytes) => WriteKeeps(config, s, i, offset, bytes);
      case Publish(i) =>
        if s.producer.Resting? && OpenLease(s, i) {
          CallKeeps(config, s, SealHeader(i));
        }
      case Abort =>
        if s.producer.Resting? && s.leases != [] && OpenLease(s, |s.leases| - 1) {
          CallKeeps(config, s, AbortClear);
        }
      case Produce(retry, floor) => ProducerKeeps(config, s, retry, floor);
      case Consume(view) => ConsumerKeeps(config, s, view);
      case Release(cursor) =>
        if s.consumer.Waiting? && cursor in s.pins {
          ReleaseStartKeeps(config, s, cursor);
        }
    }
  }

  lemma {:induction false} ExecKeeps(config: Config, s: State, run: seq<Step>)
    requires Inv(config, s)
    ensures Shape(config, s) && Inv(config, Exec(config, s, run))
    decreases |run|
  {
    InvShape(config, s);
    hide Inv, Apply;
    if run != [] {
      ApplyKeeps(config, s, run[0]);
      ExecKeeps(config, Apply(config, s, run[0]), run[1..]);
    }
  }

  lemma InvShape(config: Config, s: State)
    requires Inv(config, s)
    ensures Shape(config, s)
  {
  }

  lemma InitHolds(config: Config, s: State)
    requires Init(config, s)
    ensures Inv(config, s)
  {
  }

  ghost predicate Reachable(config: Config, s: State) {
    exists s0: State, run: seq<Step> :: Init(config, s0) && s == Exec(config, s0, run)
  }

  lemma ReachableInv(config: Config, s: State)
    requires Reachable(config, s)
    ensures Shape(config, s) && Inv(config, s)
  {
    var s0: State, run: seq<Step> :| Init(config, s0) && s == Exec(config, s0, run);
    InitHolds(config, s0);
    ExecKeeps(config, s0, run);
    InvShape(config, s);
  }
}
