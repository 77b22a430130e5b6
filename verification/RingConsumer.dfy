/** Every consumer step keeps the ring invariant. */
module RingConsumer {
  import opened Bytes
  import opened Errors
  import opened FrameCodec
  import opened Chunking
  import opened ChunkingProofs
  import opened SlotStates
  import opened Cursors
  import opened Ring
  import opened RingInvariant
  import opened RingSlots
  import opened RingProducer

  // ---- The parts of the invariant ----

  lemma InvConsumer(config: Config, s: State)
    requires Inv(config, s)
    ensures ConsumerOk(config, s.consumer, s.log, s.cells, s.producers, s.tail, s.done)
    ensures CursorsOk(config, s.head, s.tail, |s.cells|)
    ensures ConfigOk(config)
  {
    hide ProducerOk, SlotsOk, LogOk, CellsOk, FloorOk, ConsumerOk, DeliveredOk, ProducersOk, OwnedOk, HeadOk, CursorsOk;
  }

  lemma InvFloor(config: Config, s: State)
    requires Inv(config, s)
    ensures FloorOk(config, s.floor, s.pins, s.tail, s.consumer.pc)
    ensures PinsOk(config, s.pins, s.tail, |s.cells|, s.consumer.pc)
  {
    hide ProducerOk, SlotsOk, LogOk, CellsOk, FloorOk, ConsumerOk, DeliveredOk, ProducersOk, OwnedOk, HeadOk, CursorsOk,
         PinsOk;
  }

  lemma InvSlots(config: Config, s: State)
    requires Inv(config, s)
    ensures SlotsOk(config, s.slots, s.log, s.cells, s.tail, s.pins, HoldOf(s.consumer.pc))
    ensures |s.slots| == config.capacity > 0
  {
    hide ProducerOk, SlotsOk, LogOk, CellsOk, FloorOk, ConsumerOk, DeliveredOk, ProducersOk, OwnedOk, HeadOk, CursorsOk;
    SlotCount(config, s);
  }

  lemma InvDelivered(config: Config, s: State)
    requires Inv(config, s)
    ensures DeliveredOk(config, s.log, s.done, s.delivered, Reclaiming(s.consumer.pc))
  {
    hide ProducerOk, SlotsOk, LogOk, CellsOk, FloorOk, ConsumerOk, DeliveredOk, ProducersOk, OwnedOk, HeadOk, CursorsOk;
  }

  /** The slot of a claimed cursor within the last lap is in order. */
  lemma SlotAt(config: Config, s: State, c: int)
    requires Inv(config, s)
    requires |s.cells| - config.capacity <= c < |s.cells|
    ensures |s.slots| == config.capacity > 0
    ensures SlotOk(config, s.log, s.cells, s.tail, s.pins, HoldOf(s.consumer.pc), c, At(config, s, c))
  {
    InvSlots(config, s);
    hide Inv, Parts, SlotOk, Idx;
  }

  /** Changing the consumer's own state, when slots, pins and words stay as they are. */
  lemma ConsumerLocalKeeps(config: Config, s: State, next: Consumer)
    requires Inv(config, s)
    requires HoldOf(next.pc) == HoldOf(s.consumer.pc)
    requires PinningTail(next.pc) == PinningTail(s.consumer.pc)
    requires Reclaiming(next.pc) == Reclaiming(s.consumer.pc)
    requires FloorOk(config, s.floor, s.pins, s.tail, next.pc)
    requires ConsumerOk(config, next, s.log, s.cells, s.producers, s.tail, s.done)
    ensures Inv(config, s.(consumer := next))
  {
    hide ProducerOk, SlotsOk, LogOk, CellsOk, FloorOk, ConsumerOk, DeliveredOk, ProducersOk, OwnedOk, HeadOk, CursorsOk,
         HoldOf, PinningTail, Reclaiming;
  }

  // ---- Steps that only move the consumer ----

  lemma RefreshKeeps(config: Config, s: State)
    requires Inv(config, s)
    requires s.consumer.pc.SeeHead? || s.consumer.pc.SeeTail? || s.consumer.pc.SeeFloor?
    ensures |s.slots| == config.capacity > 0
    ensures Inv(config, RefreshStep(config, s))
  {
    hide Inv, Parts, MessageFrames, Sendable;
    SlotCount(config, s);
    var c := s.consumer;
    if c.pc.SeeHead? {
      SeenKeeps(config, s, c.(headSeen := s.head, pc := SeeTail(c.pc.op, s.head)));
    } else if c.pc.SeeTail? {
      SeenKeeps(config, s, c.(tailSeen := s.tail, pc := SeeFloor(c.pc.op)));
    } else {
      InvConsumer(config, s);
      SeenKeeps(config, s, c.(pc := Gate(c.pc.op, true)));
    }
  }

  lemma SeenKeeps(config: Config, s: State, next: Consumer)
    requires Inv(config, s)
    requires var c := s.consumer;
             || (c.pc.SeeHead? && next == c.(headSeen := s.head, pc := SeeTail(c.pc.op, s.head)))
             || (c.pc.SeeTail? && next == c.(tailSeen := s.tail, pc := SeeFloor(c.pc.op)))
             || (c.pc.SeeFloor? && next == c.(pc := Gate(c.pc.op, true)))
    ensures Inv(config, s.(consumer := next))
  {
    hide Inv, Parts, MessageFrames, Sendable;
    InvConsumer(config, s);
    InvFloor(config, s);
    ConsumerLocalKeeps(config, s, next);
  }

  lemma StartKeeps(config: Config, s: State, pc: Receiving)
    requires Inv(config, s)
    requires s.consumer.pc.Resting?
    requires pc.SeeHead? || (pc.ReleaseCheck? && pc.cursor in s.pins)
    ensures Inv(config, SetPc(s, pc))
  {
    hide Inv, Parts, MessageFrames, Sendable;
    InvConsumer(config, s);
    InvFloor(config, s);
    ConsumerLocalKeeps(config, s, s.consumer.(pc := pc));
  }

  /** A committed slot under the tail index is the tail's own, not one of the previous lap. */
  lemma CommittedIsClaimed(config: Config, s: State)
    requires Inv(config, s)
    requires HoldOf(s.consumer.pc).NoHold?
    requires |s.slots| == config.capacity > 0
    requires At(config, s, s.tail).state == Committed
    ensures CommittedTail(s.cells, s.tail)
    ensures HeaderOk(config, s.log, s.cells, s.tail, At(config, s, s.tail))
    ensures DataOk(config, s.log, s.cells, s.tail, At(config, s, s.tail))
  {
    hide Inv, Parts, MessageFrames, Sendable, Idx, HeaderOk, DataOk, StampOk;
    InvConsumer(config, s);
    if s.tail == |s.cells| {
      IdxLap(s.tail - config.capacity, config.capacity);
      SlotAt(config, s, s.tail - config.capacity);
    } else {
      SlotAt(config, s, s.tail);
    }
  }

  /** A committed slot at the tail belongs to the message the consumer stands in. */
  lemma CommittedAtTail(config: Config, s: State, progress: Progress)
    requires Inv(config, s)
    requires s.tail == StartOf(s.log, |s.cells|, s.done) + Index(progress)
    requires progress.Rest? ==> ReadingOk(config, s.log, s.done, s.tail, progress)
    requires HoldOf(s.consumer.pc).NoHold? && !Reclaiming(s.consumer.pc)
    requires |s.slots| == config.capacity > 0
    requires At(config, s, s.tail).state == Committed
    ensures CommittedTail(s.cells, s.tail)
    ensures ReadingOk(config, s.log, s.done, s.tail, progress)
    ensures At(config, s, s.tail).seqNo == s.log[s.done].message.seqNo
    ensures At(config, s, s.tail).data == MessageFrames(config, s.log[s.done].message)[Index(progress)]
  {
    hide Inv, Parts, MessageFrames, Sendable, Idx, LogOk, CellsOk;
    CommittedIsClaimed(config, s);
    InvDelivered(config, s);
    InvCells(config, s);
    InvMessages(config, s);
    EntryAt(config, s.log, s.cells, s.done, s.tail, Index(progress));
  }

  /** The claimed cursor `index` slots into a reservation is a cell of it. */
  lemma EntryAt(config: Config, log: seq<Entry>, cells: seq<Cell>, done: nat, tail: nat, index: nat)
    requires LogOk(config, log, |cells|) && CellsOk(config, log, cells)
    requires done <= |log|
    requires tail == StartOf(log, |cells|, done) + index && tail < |cells|
    requires index > 0 ==> done < |log| && Sendable(config, log[done].message) && index < Len(config, log[done])
    ensures done < |log| && Sendable(config, log[done].message) && index < Len(config, log[done])
    ensures cells[tail].entry == done && cells[tail].k == index
    ensures CellOk(config, log, cells, tail)
  {
    hide MessageFrames, Sendable;
    assert CellOk(config, log, cells, tail);
  }

  lemma InvMessages(config: Config, s: State)
    requires Inv(config, s)
    ensures LogOk(config, s.log, |s.cells|)
  {
    hide ProducerOk, SlotsOk, LogOk, CellsOk, FloorOk, ConsumerOk, DeliveredOk, ProducersOk, OwnedOk, HeadOk, CursorsOk;
  }

  lemma GateKeeps(config: Config, s: State)
    requires Inv(config, s)
    requires s.consumer.pc.Gate? || s.consumer.pc.NextChunk?
    ensures |s.slots| == config.capacity > 0
    ensures Inv(config, GateStep(config, s))
  {
    hide Inv, Parts, MessageFrames, Sendable, Idx, ReadingOk, CommittedTail, HoldOf, PinningTail;
    SlotCount(config, s);
    var c := s.consumer;
    TailSeen(config, s);
    var slot := At(config, s, s.tail);
    if slot.state != Committed {
      if c.pc.Gate? {
        GateRefused(config, s, if config.multiProducer && c.pc.mayReclaim then ReclaimRead(c.pc.op) else Resting);
      }
    } else if c.pc.NextChunk? {
      GateFinds(config, s, c.pc.progress);
      GatePassed(config, s, c.pc.progress, ReadSlot(c.pc.progress, slot.seqNo));
    } else {
      GateFinds(config, s, First);
      GatePassed(config, s, First, if c.pc.op.View? then ViewSlot(slot.seqNo) else ReadSlot(First, slot.seqNo));
    }
  }

  /** From the gate on, the consumer's own tail is the shared one. */
  lemma TailSeen(config: Config, s: State)
    requires Inv(config, s)
    requires s.consumer.pc.Gate? || s.consumer.pc.NextChunk?
    ensures s.consumer.tailSeen == s.tail
    ensures s.consumer.pc.Gate? ==> s.tail == StartOf(s.log, |s.cells|, s.done)
    ensures s.consumer.pc.NextChunk? ==>
              s.consumer.pc.progress.Rest? && ReadingOk(config, s.log, s.done, s.tail, s.consumer.pc.progress)
  {
    hide Inv, Parts, MessageFrames, Sendable, ReadingOk;
    InvConsumer(config, s);
  }

  lemma GateFinds(config: Config, s: State, progress: Progress)
    requires Inv(config, s)
    requires s.consumer.pc.Gate? || s.consumer.pc.NextChunk?
    requires progress == if s.consumer.pc.Gate? then First else s.consumer.pc.progress
    requires |s.slots| == config.capacity > 0
    requires At(config, s, s.tail).state == Committed
    ensures CommittedTail(s.cells, s.tail)
    ensures ReadingOk(config, s.log, s.done, s.tail, progress)
    ensures s.done < |s.log| && At(config, s, s.tail).seqNo == s.log[s.done].message.seqNo
  {
    hide Inv, Parts, MessageFrames, Sendable, Idx;
    TailSeen(config, s);
    CommittedAtTail(config, s, progress);
  }

  lemma GatePassed(config: Config, s: State, progress: Progress, pc: Receiving)
    requires Inv(config, s)
    requires s.consumer.pc.Gate? || s.consumer.pc.NextChunk?
    requires s.consumer.tailSeen == s.tail && CommittedTail(s.cells, s.tail)
    requires ReadingOk(config, s.log, s.done, s.tail, progress)
    requires s.done < |s.log|
    requires var seqNo := s.log[s.done].message.seqNo;
             pc == ReadSlot(progress, seqNo) || (pc == ViewSlot(seqNo) && progress.First?)
    ensures Inv(config, SetPc(s, pc))
  {
    hide Inv, Parts, MessageFrames, Sendable, ReadingOk;
    InvConsumer(config, s);
    InvFloor(config, s);
    ConsumerLocalKeeps(config, s, s.consumer.(pc := pc));
  }

  lemma GateRefused(config: Config, s: State, pc: Receiving)
    requires Inv(config, s)
    requires s.consumer.pc.Gate?
    requires pc.Resting? || (config.multiProducer && pc.ReclaimRead?)
    ensures Inv(config, SetPc(s, pc))
  {
    hide Inv, Parts, MessageFrames, Sendable, ReadingOk;
    InvConsumer(config, s);
    InvFloor(config, s);
    ConsumerLocalKeeps(config, s, s.consumer.(pc := pc));
  }

  lemma ReadKeeps(config: Config, s: State)
    requires Inv(config, s)
    requires s.consumer.pc.ReadSlot?
    ensures |s.slots| == config.capacity > 0
    ensures Inv(config, CopyStep(config, s))
  {
    hide Inv, Parts, MessageFrames, Sendable, Digest, Viewable, Finish, AdvanceTail, SetSlot, Fail, Idx;
    SlotCount(config, s);
    var ReadSlot(progress, seqNo) := s.consumer.pc;
    InvConsumer(config, s);
    CommittedSlotAtTail(config, s, progress);
    ReadSlotKeeps(config, s, progress, seqNo, At(config, s, s.tail).data);
  }

  /** While the consumer reads, the committed tail slot still carries its frame. */
  lemma CommittedSlotAtTail(config: Config, s: State, progress: Progress)
    requires Inv(config, s)
    requires CommittedTail(s.cells, s.tail)
    requires HoldOf(s.consumer.pc).NoHold? && !Reclaiming(s.consumer.pc)
    requires ReadingOk(config, s.log, s.done, s.tail, progress)
    ensures |s.slots| == config.capacity > 0
    ensures At(config, s, s.tail).state == Committed
    ensures At(config, s, s.tail).seqNo == s.log[s.done].message.seqNo
    ensures At(config, s, s.tail).data == MessageFrames(config, s.log[s.done].message)[Index(progress)]
  {
    hide Inv, Parts, MessageFrames, Sendable, Idx, HeaderOk, DataOk, StampOk;
    SlotCount(config, s);
    InvConsumer(config, s);
    SlotAt(config, s, s.tail);
    CommittedAtTail(config, s, progress);
  }

  lemma ReadSlotKeeps(config: Config, s: State, progress: Progress, seqNo: u64, data: seq<byte>)
    requires Inv(config, s)
    requires s.consumer.pc == ReadSlot(progress, seqNo)
    requires ReadingOk(config, s.log, s.done, s.tail, progress)
    requires data == MessageFrames(config, s.log[s.done].message)[Index(progress)]
    ensures Inv(config, SetPc(s, PinSlot(progress, seqNo, data)))
  {
    hide Inv, Parts, MessageFrames, Sendable, ReadingOk;
    InvConsumer(config, s);
    InvFloor(config, s);
    ConsumerLocalKeeps(config, s, s.consumer.(pc := PinSlot(progress, seqNo, data)));
  }

  // ---- Reading a slot out ----

  /** Where the receive stands after the slot `index` of its message. */
  function AfterSlot(config: Config, m: Message, index: nat): After
    requires Sendable(config, m) && index < |MessageFrames(config, m)|
  {
    var n := |MessageFrames(config, m)|;
    if index + 1 == n then Deliver(m)
    else More(Rest(m.seqNo, n, |m.payload|, index + 1, Prefix(config, m, index + 1)))
  }

  /** Reading the next frame of a message never fails, and gathers exactly its part. */
  lemma DigestOk(config: Config, consumer: Consumer, m: Message, progress: Progress)
    requires ConfigOk(config) && Sendable(config, m)
    requires ProgressOk(config, m, progress)
    requires Index(progress) < |MessageFrames(config, m)|
    requires !config.multiProducer ==> consumer.expected == m.seqNo
    ensures Digest(config, consumer, progress, m.seqNo, MessageFrames(config, m)[Index(progress)])
         == Ok(AfterSlot(config, m, Index(progress)))
  {
    hide MessageFrames, Sendable, DecodeFrame, ValidateChunk, ChunkInfoOf, ValidBytesFrame, Part, Prefix, IsChunked;
    var index := Index(progress);
    FrameCarriesPart(config, m, index);
    PrefixStep(config, m, index);
    var frame := DecodeFrame(MessageFrames(config, m)[index]).value;
    assert CarriesPart(config, m, index, frame);
    if progress.First? {
      assert Prefix(config, m, 0) == [];
      assert Prefix(config, m, 1) == Part(config, m, 0);
    }
  }

  lemma AfterSlotOk(config: Config, log: seq<Entry>, done: nat, tail: nat, progress: Progress)
    requires ReadingOk(config, log, done, tail, progress)
    ensures AfterOk(config, log, done, tail, AfterSlot(config, log[done].message, Index(progress)))
  {
    hide MessageFrames, Sendable, Prefix;
  }

  /** In single-producer mode the sequence number the consumer expects is the current message's. */
  lemma ExpectedIsCurrent(config: Config, s: State)
    requires Inv(config, s)
    requires !config.multiProducer
    requires s.done < |s.log|
    ensures s.consumer.expected == s.log[s.done].message.seqNo
  {
    hide Inv, Parts, MessageFrames, Sendable;
    InvConsumer(config, s);
    InvDelivered(config, s);
  }

  // ---- Steps that write one slot ----

  /** The cursor's slot obligation is the same before and after. */
  predicate SameSlotDuty(
    tail: nat, pins: set<nat>, hold: Hold, tail': nat, pins': set<nat>, hold': Hold, d: int)
  {
    && (d < tail <==> d < tail')
    && (d in pins <==> d in pins')
    && (hold == Releasing(d) <==> hold' == Releasing(d))
    && (d == tail && (hold.Reading? || hold.Freed?) ==> d == tail' && hold == hold')
    && (d == tail' && (hold'.Reading? || hold'.Freed?) ==> d == tail && hold == hold')
  }

  lemma SameDutyKeeps(
    config: Config, log: seq<Entry>, cells: seq<Cell>,
    tail: nat, pins: set<nat>, hold: Hold, tail': nat, pins': set<nat>, hold': Hold, d: int, slot: Slot)
    requires SlotOk(config, log, cells, tail, pins, hold, d, slot)
    requires SameSlotDuty(tail, pins, hold, tail', pins', hold', d)
    ensures SlotOk(config, log, cells, tail', pins', hold', d, slot)
  {
    hide HeaderOk, DataOk, StampOk;
  }

  lemma SlotsReplace(
    config: Config, slots: seq<Slot>, log: seq<Entry>, cells: seq<Cell>,
    tail: nat, pins: set<nat>, hold: Hold, tail': nat, pins': set<nat>, hold': Hold, c: int, slot: Slot)
    requires SlotsOk(config, slots, log, cells, tail, pins, hold)
    requires |cells| - config.capacity <= c < |cells|
    requires SlotOk(config, log, cells, tail', pins', hold', c, slot)
    requires forall d :: |cells| - config.capacity <= d < |cells| && d != c ==>
               SameSlotDuty(tail, pins, hold, tail', pins', hold', d)
    ensures SlotsOk(config, slots[Idx(c, config.capacity) := slot], log, cells, tail', pins', hold')
  {
    hide Idx, SlotOk, SameSlotDuty;
    var n := config.capacity;
    SlotsSet(slots, |cells| - n, c, slot);
    forall d | |cells| - n <= d < |cells|
      ensures SlotOk(config, log, cells, tail', pins', hold', d, slots[Idx(c, n) := slot][Idx(d, n)])
    {
      if d != c {
        SameDutyKeeps(config, log, cells, tail, pins, hold, tail', pins', hold', d, slots[Idx(d, n)]);
      }
    }
  }

  /** What a consumer step has to re-establish when it leaves the history of the reservations alone. */
  lemma ConsumerMoves(config: Config, s: State, t: State)
    requires Inv(config, s)
    requires t.head == s.head && t.producers == s.producers && t.log == s.log && t.cells == s.cells
    requires s.tail <= t.tail <= |s.cells|
    requires forall c :: c in t.pins ==> c in s.pins || s.tail <= c
    requires PinsOk(config, t.pins, t.tail, |s.cells|, t.consumer.pc)
    requires ConsumedOk(s.log, s.cells, t.tail)
    requires SlotsOk(config, t.slots, s.log, s.cells, t.tail, t.pins, HoldOf(t.consumer.pc))
    requires FloorOk(config, t.floor, t.pins, t.tail, t.consumer.pc)
    requires ConsumerOk(config, t.consumer, s.log, s.cells, s.producers, t.tail, t.done)
    requires DeliveredOk(config, s.log, t.done, t.delivered, Reclaiming(t.consumer.pc))
    ensures Inv(config, t)
  {
    hide ProducerOk, SlotsOk, LogOk, CellsOk, FloorOk, ConsumerOk, DeliveredOk, ProducersOk, OwnedOk, HeadOk, HoldOf,
         Reclaiming, PinsOk, ConsumedOk, OneProducer;
    MovedProducersOk(config, s, t.tail, t.pins);
  }

  /** A later tail, or fewer pins, or a pin at the tail, is no threat to a producer's loaded cursors. */
  lemma MovedProducersOk(config: Config, s: State, tail: nat, pins: set<nat>)
    requires Inv(config, s)
    requires s.tail <= tail
    requires forall c :: c in pins ==> c in s.pins || s.tail <= c
    ensures ProducersOk(config, s.producers, s.log, s.cells, s.head, tail, pins)
  {
    forall p | p in s.producers
      ensures ProducerOk(config, s.log, s.cells, s.head, tail, pins, p, s.producers[p])
    {
      hide Inv, Parts, ProducerOk;
      InvProducer(config, s, p);
      MovedProducerOk(config, s.log, s.cells, s.head, s.tail, s.pins, p, s.producers[p], tail, pins);
    }
  }

  lemma MovedProducerOk(
    config: Config, log: seq<Entry>, cells: seq<Cell>, head: nat, tail: nat, pins: set<nat>, p: nat, producer: Producer,
    tail': nat, pins': set<nat>)
    requires ProducerOk(config, log, cells, head, tail, pins, p, producer)
    requires tail <= tail'
    requires forall c :: c in pins' ==> c in pins || tail <= c
    ensures ProducerOk(config, log, cells, head, tail', pins', p, producer)
  {
    hide Sendable, WritingOk, MessageFrames, Limit;
    if producer.pc.Reserve? {
      LimitBelowTail(producer.pc.tail, producer.pc.floor);
    }
  }
}
