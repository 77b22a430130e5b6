/** Copying a message out and making a view of one keep the ring invariant. */
module RingReceive {
  import opened Bytes
  import opened Errors
  import opened FrameCodec
  import opened Chunking
  import opened ChunkingProofs
  import opened SlotStates
  import opened Cursors
  import opened Ring
  import opened RingInvariant
  import opened RingProducer
  import opened RingClaim
  import opened RingConsumer

  /** The last lap of claimed cursors includes every cursor from the tail on. */
  lemma TailInWindow(config: Config, s: State)
    requires Inv(config, s)
    requires CommittedTail(s.cells, s.tail)
    ensures |s.cells| - config.capacity <= s.tail < |s.cells|
  {
    hide Inv, Parts;
    InvCursors(config, s);
  }

  /** While the consumer copies the tail slot out, only that slot and the consumer change. */
  lemma HeldSlotKeeps(config: Config, s: State, slot: Slot, next: Consumer)
    requires Inv(config, s)
    requires s.consumer.pc.PinSlot? || s.consumer.pc.ClearSlot? || s.consumer.pc.FreeSlot?
    requires next.pc.ClearSlot? || next.pc.FreeSlot? || next.pc.Advance?
    requires s.consumer.tailSeen == s.tail && CommittedTail(s.cells, s.tail)
    requires slot.state == if next.pc.Advance? then Free else Pinned
    requires ConsumerOk(config, next, s.log, s.cells, s.producers, s.tail, s.done)
    ensures |s.slots| == config.capacity > 0
    ensures Inv(config, SetSlot(config, s, s.tail, slot).(consumer := next))
  {
    hide Inv, Parts, SlotsOk, ConsumerOk, MessageFrames, Sendable, Idx;
    SlotCount(config, s);
    TailInWindow(config, s);
    InvSlots(config, s);
    InvFloor(config, s);
    InvDelivered(config, s);
    InvConsumed(config, s);
    SlotsReplace(config, s.slots, s.log, s.cells, s.tail, s.pins, HoldOf(s.consumer.pc),
                 s.tail, s.pins, HoldOf(next.pc), s.tail, slot);
    ConsumerMoves(config, s, SetSlot(config, s, s.tail, slot).(consumer := next));
  }

  lemma InvConsumed(config: Config, s: State)
    requires Inv(config, s)
    ensures ConsumedOk(s.log, s.cells, s.tail)
  {
    hide ProducerOk, SlotsOk, LogOk, CellsOk, FloorOk, ConsumerOk, DeliveredOk, ProducersOk, OwnedOk, HeadOk, CursorsOk,
         ConsumedOk;
  }

  /** The pin of the tail slot, and the reader's verdict on the frame it holds. */
  lemma PinSlotKeeps(config: Config, s: State)
    requires Inv(config, s)
    requires s.consumer.pc.PinSlot?
    ensures |s.slots| == config.capacity > 0
    ensures Inv(config, CopyStep(config, s))
  {
    hide Inv, Parts, MessageFrames, Sendable, Digest, Idx, CommittedTail;
    SlotCount(config, s);
    var PinSlot(progress, seqNo, data) := s.consumer.pc;
    PinSlotFacts(config, s);
    var after := AfterSlot(config, s.log[s.done].message, Index(progress));
    var next := s.consumer.(pc := ClearSlot(after));
    assert ConsumerOk(config, next, s.log, s.cells, s.producers, s.tail, s.done) by {
      InvConsumer(config, s);
      hide AfterOk, AfterSlot, ReadingOk;
    }
    hide ConsumerOk;
    HeldSlotKeeps(config, s, At(config, s, s.tail).(state := Pinned, writer := None), next);
  }

  lemma PinSlotFacts(config: Config, s: State)
    requires Inv(config, s)
    requires s.consumer.pc.PinSlot?
    ensures s.consumer.tailSeen == s.tail && CommittedTail(s.cells, s.tail)
    ensures var PinSlot(progress, seqNo, data) := s.consumer.pc;
            && ReadingOk(config, s.log, s.done, s.tail, progress)
            && var after := AfterSlot(config, s.log[s.done].message, Index(progress));
               && Digest(config, s.consumer, progress, seqNo, data) == Ok(after)
               && AfterOk(config, s.log, s.done, s.tail, after)
  {
    hide Inv, Parts, MessageFrames, Sendable, Digest, AfterSlot, AfterOk;
    var PinSlot(progress, seqNo, data) := s.consumer.pc;
    InvConsumer(config, s);
    if !config.multiProducer {
      ExpectedIsCurrent(config, s);
    }
    DigestOk(config, s.consumer, s.log[s.done].message, progress);
    AfterSlotOk(config, s.log, s.done, s.tail, progress);
  }

  lemma ReleaseReadKeeps(config: Config, s: State)
    requires Inv(config, s)
    requires s.consumer.pc.ClearSlot? || s.consumer.pc.FreeSlot?
    ensures |s.slots| == config.capacity > 0
    ensures Inv(config, CopyStep(config, s))
  {
    hide Inv, Parts, MessageFrames, Sendable, Digest, Idx, CommittedTail, AfterOk;
    SlotCount(config, s);
    InvConsumer(config, s);
    HeldStillPinned(config, s);
    var slot := At(config, s, s.tail);
    if s.consumer.pc.ClearSlot? {
      HeldSlotKeeps(config, s, slot.(data := []), s.consumer.(pc := FreeSlot(s.consumer.pc.after)));
    } else {
      HeldSlotKeeps(config, s, Slot(Free, 0, None, slot.data), s.consumer.(pc := Advance(s.consumer.pc.after)));
    }
  }

  lemma HeldStillPinned(config: Config, s: State)
    requires Inv(config, s)
    requires s.consumer.pc.ClearSlot? || s.consumer.pc.FreeSlot?
    ensures |s.slots| == config.capacity > 0
    ensures At(config, s, s.tail).state == Pinned
  {
    hide Inv, Parts, MessageFrames, Sendable, Idx, AfterOk, DataOk, HeaderOk, StampOk;
    InvConsumer(config, s);
    TailInWindow(config, s);
    SlotAt(config, s, s.tail);
  }

  // ---- Moving the tail past a slot ----

  /** The slot at the tail is in order as a passed one: free after a copy, pinned after a view. */
  lemma PassedTailOk(config: Config, s: State)
    requires Inv(config, s)
    requires s.consumer.pc.Advance? || s.consumer.pc.ViewAdvance?
    requires CommittedTail(s.cells, s.tail)
    ensures |s.slots| == config.capacity > 0
    ensures SlotOk(config, s.log, s.cells, s.tail + 1, s.pins, NoHold, s.tail, At(config, s, s.tail))
  {
    hide Inv, Parts, MessageFrames, Sendable, Idx, DataOk, HeaderOk, StampOk;
    TailInWindow(config, s);
    InvFloor(config, s);
    SlotAt(config, s, s.tail);
  }

  lemma PassTailKeepsSlots(config: Config, s: State)
    requires Inv(config, s)
    requires s.consumer.pc.Advance? || s.consumer.pc.ViewAdvance?
    requires CommittedTail(s.cells, s.tail)
    ensures SlotsOk(config, s.slots, s.log, s.cells, s.tail + 1, s.pins, NoHold)
  {
    hide Inv, Parts, MessageFrames, Sendable, Idx, SlotOk, SlotsOk;
    TailInWindow(config, s);
    InvSlots(config, s);
    PassedTailOk(config, s);
    var slot := At(config, s, s.tail);
    SlotsReplace(config, s.slots, s.log, s.cells, s.tail, s.pins, HoldOf(s.consumer.pc),
                 s.tail + 1, s.pins, NoHold, s.tail, slot);
    assert s.slots[Idx(s.tail, config.capacity) := slot] == s.slots;
  }

  /** Moving the tail past its committed slot, to a consumer that holds nothing. */
  lemma PassTailKeeps(config: Config, s: State, next: Consumer, done: nat, delivered: seq<Message>)
    requires Inv(config, s)
    requires s.consumer.pc.Advance? || s.consumer.pc.ViewAdvance?
    requires CommittedTail(s.cells, s.tail)
    requires next.pc.Resting? || next.pc.NextChunk?
    requires ConsumerOk(config, next, s.log, s.cells, s.producers, s.tail + 1, done)
    requires DeliveredOk(config, s.log, done, delivered, false)
    ensures Inv(config, s.(tail := s.tail + 1, consumer := next, done := done, delivered := delivered))
  {
    hide Inv, Parts, MessageFrames, Sendable, SlotsOk, ConsumerOk, DeliveredOk;
    TailInWindow(config, s);
    InvCursors(config, s);
    InvFloor(config, s);
    InvConsumed(config, s);
    PassTailKeepsSlots(config, s);
    ConsumerMoves(config, s, s.(tail := s.tail + 1, consumer := next, done := done, delivered := delivered));
  }

  /** The consumer stands behind the last slot of its message. */
  ghost predicate AtEnd(config: Config, s: State, m: Message) {
    && s.consumer.tailSeen == s.tail && CommittedTail(s.cells, s.tail)
    && CurrentOk(config, s.log, s.done)
    && m == s.log[s.done].message
    && s.tail + 1 == s.log[s.done].start + Len(config, s.log[s.done])
  }

  lemma FinishedDelivered(config: Config, s: State, m: Message)
    requires Inv(config, s)
    requires AtEnd(config, s, m)
    requires !Reclaiming(s.consumer.pc)
    ensures DeliveredOk(config, s.log, s.done + 1, s.delivered + [m], false)
    ensures s.tail + 1 == StartOf(s.log, |s.cells|, s.done + 1)
    ensures !config.multiProducer ==> m.seqNo == s.consumer.expected == s.done % U64_RANGE
    ensures s.done < |s.log|
  {
    hide Inv, Parts, MessageFrames, Sendable;
    InvDelivered(config, s);
    InvMessages(config, s);
    InvConsumer(config, s);
  }

  lemma FinishKeeps(config: Config, s: State, m: Message)
    requires Inv(config, s)
    requires s.consumer.pc.Advance? || s.consumer.pc.ViewAdvance?
    requires AtEnd(config, s, m)
    ensures Inv(config, Finish(AdvanceTail(s), m))
  {
    hide Inv, Parts, MessageFrames, Sendable, DeliveredOk, CurrentOk;
    FinishedDelivered(config, s, m);
    InvConsumer(config, s);
    var t := Finish(AdvanceTail(s), m);
    assert ConsumerOk(config, t.consumer, s.log, s.cells, s.producers, s.tail + 1, s.done + 1);
    PassTailKeeps(config, s, t.consumer, s.done + 1, s.delivered + [m]);
  }

  lemma AdvanceKeeps(config: Config, s: State)
    requires Inv(config, s)
    requires s.consumer.pc.Advance?
    ensures |s.slots| == config.capacity > 0
    ensures Inv(config, CopyStep(config, s))
  {
    hide Inv, Parts, MessageFrames, Sendable, CurrentOk, Finish, AdvanceTail, ProgressOk, Idx;
    SlotCount(config, s);
    InvConsumer(config, s);
    if s.consumer.pc.after.Deliver? {
      FinishKeeps(config, s, s.consumer.pc.after.message);
    } else {
      MoreKeeps(config, s);
    }
  }

  lemma MoreKeeps(config: Config, s: State)
    requires Inv(config, s)
    requires s.consumer.pc.Advance? && s.consumer.pc.after.More?
    ensures Inv(config, SetPc(AdvanceTail(s), NextChunk(s.consumer.pc.after.progress)))
  {
    hide Inv, Parts, MessageFrames, Sendable;
    InvConsumer(config, s);
    InvDelivered(config, s);
    var t := SetPc(AdvanceTail(s), NextChunk(s.consumer.pc.after.progress));
    PassTailKeeps(config, s, t.consumer, s.done, s.delivered);
  }

  // ---- Views ----

  /** A single-slot message can be viewed; a chunked one is refused and stays where it is. */
  lemma ViewableOk(config: Config, consumer: Consumer, m: Message, k: nat)
    requires ConfigOk(config) && Sendable(config, m)
    requires k < |MessageFrames(config, m)|
    requires !config.multiProducer ==> consumer.expected == m.seqNo
    ensures var seen := Viewable(config, consumer, m.seqNo, MessageFrames(config, m)[k]);
            if |MessageFrames(config, m)| == 1 then seen == Ok(m)
            else seen.Err? && seen.error.Channel? && seen.error.channel.InvalidConfig?
  {
    hide MessageFrames, Sendable, DecodeFrame, CheckView, Part, WholeFrame, ChunkFrame, PlanFor, ChunkInfoOf,
         ValidateChunk, ValidBytesFrame, IsChunked;
    var frame := MessageFrames(config, m)[k];
    FrameCarriesPart(config, m, k);
    FrameFits(config, m, k);
    assert CarriesPart(config, m, k, DecodeFrame(frame).value);
    if |MessageFrames(config, m)| == 1 {
      OneFrame(config, m);
      FrameAt(config, m, 0);
      WholePart(config, m);
    }
    CheckViewOfFrame(if consumer.resync || config.multiProducer then None else Some(consumer.expected), m.seqNo, frame);
  }
}
