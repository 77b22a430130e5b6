/** Reclaiming a dead writer's reservation at the tail keeps the ring invariant. */
module RingReclaim {
  import opened Errors
  import opened Chunking
  import opened ChunkingProofs
  import opened SlotStates
  import opened Cursors
  import opened Ring
  import opened RingInvariant
  import opened RingSlots
  import opened RingProducer
  import opened RingClaim
  import opened RingConsumer
  import opened RingReceive

  // ---- Recognising a dead reservation ----

  /** A WRITING slot at the tail carries the identity and the extent of the reservation there. */
  lemma TailStamp(config: Config, s: State)
    requires Inv(config, s)
    requires s.consumer.pc.ReclaimRead?
    requires s.consumer.headSeen > s.tail
    requires |s.slots| == config.capacity > 0
    requires At(config, s, s.tail).state == Writing
    ensures CurrentOk(config, s.log, s.done) && s.tail == s.log[s.done].start
    ensures At(config, s, s.tail).writer == Some(Identity(s.log[s.done].owner, Len(config, s.log[s.done])))
    ensures s.tail < |s.cells| && s.cells[s.tail].entry == s.done && s.cells[s.tail].stage != Done
  {
    hide Inv, Parts, MessageFrames, Sendable, Idx, DataOk, HeaderOk, LogOk, CellsOk;
    InvConsumer(config, s);
    InvCells(config, s);
    InvMessages(config, s);
    InvDelivered(config, s);
    EntryAt(config, s.log, s.cells, s.done, s.tail, 0);
    SlotAt(config, s, s.tail);
  }

  lemma GoneOwnsTail(config: Config, s: State)
    requires Inv(config, s)
    requires CurrentOk(config, s.log, s.done) && s.tail == s.log[s.done].start
    requires s.tail < |s.cells| && s.cells[s.tail].entry == s.done && s.cells[s.tail].stage != Done
    requires config.multiProducer && Gone(s, s.log[s.done].owner)
    ensures DeadTail(config, s.log, s.producers, s.done, s.tail, s.log[s.done].owner, Len(config, s.log[s.done]))
  {
    hide Inv, Parts, MessageFrames, Sendable;
    InvOwned(config, s);
  }

  lemma InvOwned(config: Config, s: State)
    requires Inv(config, s)
    ensures OwnedOk(s.producers, s.log, s.cells)
  {
    hide ProducerOk, SlotsOk, LogOk, CellsOk, FloorOk, ConsumerOk, DeliveredOk, ProducersOk, OwnedOk, HeadOk, CursorsOk,
         ConsumedOk;
  }

  lemma ReclaimReadKeeps(config: Config, s: State)
    requires Inv(config, s)
    requires s.consumer.pc.ReclaimRead?
    ensures |s.slots| == config.capacity > 0
    ensures Inv(config, ReclaimStep(config, s))
  {
    hide Inv, Parts, MessageFrames, Sendable, Idx, DeadTail;
    SlotCount(config, s);
    InvConsumer(config, s);
    InvFloor(config, s);
    var next := ReclaimStep(config, s).consumer;
    if next.pc.ReclaimVerify? {
      TailStamp(config, s);
      GoneOwnsTail(config, s);
    }
    ConsumerLocalKeeps(config, s, next);
  }

  lemma VerifyKeeps(config: Config, s: State)
    requires Inv(config, s)
    requires s.consumer.pc.ReclaimVerify? && s.consumer.pc.j < s.consumer.pc.extent
    ensures |s.slots| == config.capacity > 0
    ensures Inv(config, ReclaimStep(config, s))
  {
    hide Inv, Parts, MessageFrames, Sendable, Idx;
    SlotCount(config, s);
    InvConsumer(config, s);
    InvFloor(config, s);
    ConsumerLocalKeeps(config, s, ReclaimStep(config, s).consumer);
  }

  // ---- Declaring the reservation dead ----

  /** Marking one reservation dead changes nothing else about the log. */
  ghost predicate Buries(log: seq<Entry>, log': seq<Entry>, i: nat) {
    i < |log| && log' == log[i := log[i].(dead := true)]
  }

  lemma BuryKeepsEntry(config: Config, log: seq<Entry>, frontier: nat, log': seq<Entry>, i: nat, j: nat)
    requires Buries(log, log', i)
    requires LogOk(config, log, frontier)
    requires j < |log|
    ensures Sendable(config, log'[j].message)
    ensures log'[j].start + Len(config, log'[j]) == StartOf(log', frontier, j + 1)
    ensures log'[j].start + Len(config, log'[j]) <= frontier
  {
    hide MessageFrames, Sendable, Len;
    var e := log[j];
    assert log'[j] == e || log'[j] == e.(dead := true);
    assert e.start + Len(config, e) == StartOf(log, frontier, j + 1);
    LenOfMessage(config, e, log'[j]);
    assert StartOf(log', frontier, j + 1) == StartOf(log, frontier, j + 1);
  }

  lemma LenOfMessage(config: Config, e: Entry, e': Entry)
    requires Sendable(config, e.message) && e'.message == e.message
    ensures Len(config, e') == Len(config, e)
  {
    hide MessageFrames, Sendable;
  }

  lemma BuryKeepsLog(config: Config, log: seq<Entry>, cells: seq<Cell>, log': seq<Entry>, i: nat)
    requires Buries(log, log', i)
    requires LogOk(config, log, |cells|)
    ensures LogOk(config, log', |cells|)
  {
    hide MessageFrames, Sendable, Len;
    forall j | 0 <= j < |log'|
      ensures Sendable(config, log'[j].message)
      ensures log'[j].start + Len(config, log'[j]) == StartOf(log', |cells|, j + 1)
      ensures log'[j].start + Len(config, log'[j]) <= |cells|
    {
      BuryKeepsEntry(config, log, |cells|, log', i, j);
    }
  }

  lemma BuryKeepsCells(config: Config, log: seq<Entry>, cells: seq<Cell>, log': seq<Entry>, i: nat)
    requires Buries(log, log', i)
    requires CellsOk(config, log, cells)
    ensures CellsOk(config, log', cells)
  {
    hide MessageFrames, Sendable;
    forall c | 0 <= c < |cells|
      ensures CellOk(config, log', cells, c)
    {
      assert CellOk(config, log, cells, c);
    }
  }

  lemma BuryKeepsSlot(
    config: Config, log: seq<Entry>, cells: seq<Cell>, log': seq<Entry>, i: nat,
    tail: nat, pins: set<nat>, hold: Hold, c: int, slot: Slot)
    requires Buries(log, log', i)
    requires SlotOk(config, log, cells, tail, pins, hold, c, slot)
    ensures SlotOk(config, log', cells, tail, pins, hold, c, slot)
  {
    hide MessageFrames, Sendable;
    if CellOk(config, log, cells, c) {
      assert CellOk(config, log', cells, c);
      assert MessageAt(config, log', cells, c) == MessageAt(config, log, cells, c);
    }
  }

  lemma BuryKeepsSlots(
    config: Config, slots: seq<Slot>, log: seq<Entry>, cells: seq<Cell>, log': seq<Entry>, i: nat,
    tail: nat, pins: set<nat>, hold: Hold)
    requires Buries(log, log', i)
    requires SlotsOk(config, slots, log, cells, tail, pins, hold)
    ensures SlotsOk(config, slots, log', cells, tail, pins, hold)
  {
    hide MessageFrames, Sendable, SlotOk, Idx, Buries;
    forall c | |cells| - config.capacity <= c < |cells|
      ensures SlotOk(config, log', cells, tail, pins, hold, c, slots[Idx(c, config.capacity)])
    {
      BuryKeepsSlot(config, log, cells, log', i, tail, pins, hold, c, slots[Idx(c, config.capacity)]);
    }
  }

  lemma BuryKeepsProducer(
    config: Config, log: seq<Entry>, cells: seq<Cell>, log': seq<Entry>, i: nat,
    head: nat, tail: nat, pins: set<nat>, p: nat, producer: Producer)
    requires config.multiProducer
    requires Buries(log, log', i)
    requires p == log[i].owner ==> !producer.alive
    requires ProducerOk(config, log, cells, head, tail, pins, p, producer)
    ensures ProducerOk(config, log', cells, head, tail, pins, p, producer)
  {
    hide MessageFrames, Sendable, StageAt, SendableBytes, LoadedOk;
  }

  lemma BuryKeepsProducers(config: Config, s: State, log': seq<Entry>, i: nat)
    requires Inv(config, s)
    requires config.multiProducer
    requires Buries(s.log, log', i)
    requires Gone(s, s.log[i].owner)
    ensures ProducersOk(config, s.producers, log', s.cells, s.head, s.tail, s.pins)
    ensures OwnedOk(s.producers, log', s.cells)
    ensures ConsumedOk(log', s.cells, s.tail)
  {
    hide Inv, Parts, ProducerOk;
    forall p | p in s.producers
      ensures ProducerOk(config, log', s.cells, s.head, s.tail, s.pins, p, s.producers[p])
    {
      hide Buries;
      InvProducer(config, s, p);
      BuryKeepsProducer(config, s.log, s.cells, log', i, s.head, s.tail, s.pins, p, s.producers[p]);
    }
    InvOwned(config, s);
    InvConsumed(config, s);
  }

  /** A reservation whose writer died before committing anything has at most its first slot written. */
  lemma DeadStages(config: Config, s: State)
    requires Inv(config, s)
    requires s.consumer.pc.ReclaimVerify?
    ensures var e := s.consumer.pc.extent;
            && s.done < |s.log| && !s.log[s.done].dead && Gone(s, s.log[s.done].owner)
            && config.multiProducer
            && ReclaimingOk(config, s.log[s.done := s.log[s.done].(dead := true)], s.cells, s.done, s.tail, e, 0)
  {
    hide Inv, Parts, MessageFrames, Sendable;
    InvConsumer(config, s);
    var p := s.consumer.pc.pid;
    InvProducer(config, s, p);
    InvMessages(config, s);
    var WriteSlot(e, k, phase) := s.producers[p].pc;
    assert k == 0;
    forall c | s.tail <= c < s.tail + s.consumer.pc.extent
      ensures s.cells[c].stage == StageAt(s.tail, 0, phase, c)
    {
    }
  }

  lemma {:induction false} LiveBefore(log: seq<Entry>, log': seq<Entry>, n: nat)
    requires n <= |log| && n <= |log'|
    requires forall i :: 0 <= i < n ==> log[i] == log'[i]
    ensures LiveMessages(log, n) == LiveMessages(log', n)
  {
    if n > 0 {
      LiveBefore(log, log', n - 1);
    }
  }

  lemma BuryKeepsDelivered(config: Config, log: seq<Entry>, log': seq<Entry>, done: nat, delivered: seq<Message>)
    requires config.multiProducer
    requires Buries(log, log', done)
    requires DeliveredOk(config, log, done, delivered, false)
    ensures DeliveredOk(config, log', done, delivered, true)
  {
    LiveBefore(log, log', done);
  }

  lemma BuryKeeps(config: Config, s: State)
    requires Inv(config, s)
    requires s.consumer.pc.ReclaimVerify? && s.consumer.pc.j >= s.consumer.pc.extent
    ensures |s.slots| == config.capacity > 0
    ensures Inv(config, ReclaimStep(config, s))
  {
    hide Inv, Parts, ProducerOk, SlotsOk, LogOk, CellsOk, FloorOk, ConsumerOk, DeliveredOk, ProducersOk, OwnedOk,
         HeadOk,
         CursorsOk, ConsumedOk, Sendable, MessageFrames, ReclaimingOk, Gone, PinsOk, OneProducer;
    SlotCount(config, s);
    DeadStages(config, s);
    InvSlots(config, s);
    InvCells(config, s);
    InvLog(config, s);
    InvDelivered(config, s);
    var t := ReclaimStep(config, s);
    BuryKeepsLog(config, s.log, s.cells, t.log, s.done);
    BuryKeepsCells(config, s.log, s.cells, t.log, s.done);
    BuryKeepsSlots(config, s.slots, s.log, s.cells, t.log, s.done, s.tail, s.pins, NoHold);
    BuryKeepsProducers(config, s, t.log, s.done);
    BuryKeepsDelivered(config, s.log, t.log, s.done, s.delivered);
    BuriedConsumer(config, s);
    ReclaimerMoves(config, s, t);
  }

  /** What a reclaimer step has to re-establish; the words, the pins and the producers stay. */
  lemma ReclaimerMoves(config: Config, s: State, t: State)
    requires Inv(config, s)
    requires t.head == s.head && t.tail == s.tail && t.floor == s.floor && t.pins == s.pins
    requires t.producers == s.producers
    requires |t.cells| == |s.cells|
    requires LogOk(config, t.log, |t.cells|)
    requires CellsOk(config, t.log, t.cells)
    requires HeadOk(config, t.head, t.cells)
    requires ConsumedOk(t.log, t.cells, t.tail)
    requires SlotsOk(config, t.slots, t.log, t.cells, t.tail, t.pins, HoldOf(t.consumer.pc))
    requires ProducersOk(config, t.producers, t.log, t.cells, t.head, t.tail, t.pins)
    requires OwnedOk(t.producers, t.log, t.cells)
    requires FloorOk(config, t.floor, t.pins, t.tail, t.consumer.pc)
    requires PinsOk(config, t.pins, t.tail, |t.cells|, t.consumer.pc)
    requires ConsumerOk(config, t.consumer, t.log, t.cells, t.producers, t.tail, t.done)
    requires DeliveredOk(config, t.log, t.done, t.delivered, Reclaiming(t.consumer.pc))
    ensures Inv(config, t)
  {
    hide ProducerOk, SlotsOk, LogOk, CellsOk, FloorOk, ConsumerOk, DeliveredOk, ProducersOk, OwnedOk, HeadOk, CursorsOk,
         ConsumedOk, PinsOk, HoldOf, Reclaiming, OneProducer;
  }

  lemma BuriedConsumer(config: Config, s: State)
    requires Inv(config, s)
    requires s.consumer.pc.ReclaimVerify? && s.consumer.pc.j >= s.consumer.pc.extent
    requires |s.slots| == config.capacity > 0
    ensures var t := ReclaimStep(config, s);
            && ConsumerOk(config, t.consumer, t.log, t.cells, t.producers, t.tail, t.done)
            && FloorOk(config, t.floor, t.pins, t.tail, t.consumer.pc)
            && PinsOk(config, t.pins, t.tail, |t.cells|, t.consumer.pc)
  {
    hide Inv, Parts, MessageFrames, Sendable, ReclaimingOk, Gone;
    InvConsumer(config, s);
    InvFloor(config, s);
    DeadStages(config, s);
  }

  // ---- Freeing it ----

  lemma StageKeepsDead(config: Config, s: State, c: nat, stage: Stage)
    requires Inv(config, s)
    requires config.multiProducer
    requires s.tail <= c < |s.cells|
    requires s.cells[c].entry < |s.log| && s.log[s.cells[c].entry].dead
    requires stage == Reserved
    ensures var cells := s.cells[c := s.cells[c].(stage := stage)];
            && ProducersOk(config, s.producers, s.log, cells, s.head, s.tail, s.pins)
            && OwnedOk(s.producers, s.log, cells)
            && ConsumedOk(s.log, cells, s.tail)
            && HeadOk(config, s.head, cells)
  {
    hide Inv, Parts, ProducerOk, MessageFrames, Sendable;
    InvOwned(config, s);
    InvConsumed(config, s);
    InvCells(config, s);
    forall p | p in s.producers
      ensures ProducerOk(config, s.log, s.cells[c := s.cells[c].(stage := stage)], s.head, s.tail, s.pins, p,
          s.producers[p])
    {
      InvProducer(config, s, p);
      DeadCellIsNotWritten(config, s.log, s.cells, s.head, s.tail, s.pins, p, s.producers[p], c, stage);
    }
  }

  lemma DeadCellIsNotWritten(
    config: Config, log: seq<Entry>, cells: seq<Cell>, head: nat, tail: nat, pins: set<nat>, p: nat, producer: Producer,
    c: nat, stage: Stage)
    requires config.multiProducer
    requires CellsOk(config, log, cells)
    requires c < |cells| && cells[c].entry < |log| && log[cells[c].entry].dead
    requires ProducerOk(config, log, cells, head, tail, pins, p, producer)
    ensures ProducerOk(config, log, cells[c := cells[c].(stage := stage)], head, tail, pins, p, producer)
  {
    hide MessageFrames, Sendable, StageAt, SendableBytes, LoadedOk;
  }

  /** The next slot the reclaimer frees belongs to the dead reservation. */
  ghost predicate FreesDead(config: Config, s: State, c: nat) {
    && config.multiProducer
    && s.consumer.tailSeen == s.tail
    && s.tail <= c < |s.cells| <= s.tail + config.capacity
    && s.cells[c].entry < |s.log| && s.log[s.cells[c].entry].dead
  }

  lemma FreeOneFacts(config: Config, s: State)
    requires Inv(config, s)
    requires s.consumer.pc.ReclaimFree? && s.consumer.pc.j < s.consumer.pc.extent
    ensures FreesDead(config, s, s.tail + s.consumer.pc.j)
  {
    hide Inv, Parts, MessageFrames, Sendable;
    InvConsumer(config, s);
    InvCells(config, s);
    InvCursors(config, s);
    assert s.cells[s.tail + s.consumer.pc.j].entry == s.done;
  }

  lemma FreedSlotOk(config: Config, log: seq<Entry>, cells: seq<Cell>, tail: nat, pins: set<nat>, c: nat)
    requires tail <= c < |cells|
    ensures SlotOk(config, log, cells[c := cells[c].(stage := Reserved)], tail, pins, NoHold, c, EMPTY_SLOT)
  {
  }

  lemma FreeOneConsumer(config: Config, s: State, cells: seq<Cell>, next: Consumer)
    requires Inv(config, s)
    requires s.consumer.pc.ReclaimFree? && s.consumer.pc.j < s.consumer.pc.extent
    requires FreesDead(config, s, s.tail + s.consumer.pc.j)
    requires var c := s.tail + s.consumer.pc.j; cells == s.cells[c := s.cells[c].(stage := Reserved)]
    requires next == s.consumer.(pc := s.consumer.pc.(j := s.consumer.pc.j + 1))
    ensures ConsumerOk(config, next, s.log, cells, s.producers, s.tail, s.done)
    ensures FloorOk(config, s.floor, s.pins, s.tail, next.pc)
    ensures PinsOk(config, s.pins, s.tail, |cells|, next.pc)
  {
    hide Inv, Parts, MessageFrames, Sendable;
    InvConsumer(config, s);
    InvFloor(config, s);
  }

  /** One slot of the dead reservation, and its cell, after the reclaimer has freed it. */
  lemma FreeOneKeeps(config: Config, s: State)
    requires Inv(config, s)
    requires s.consumer.pc.ReclaimFree? && s.consumer.pc.j < s.consumer.pc.extent
    ensures |s.slots| == config.capacity > 0
    ensures Inv(config, ReclaimStep(config, s))
  {
    hide Inv, Parts, ProducerOk, SlotsOk, SlotOk, LogOk, CellsOk, FloorOk, ConsumerOk, DeliveredOk, ProducersOk,
         OwnedOk,
         HeadOk, CursorsOk, ConsumedOk, Sendable, MessageFrames, ReclaimingOk, Gone, PinsOk, Idx, OneProducer;
    SlotCount(config, s);
    FreeOneFacts(config, s);
    var c := s.tail + s.consumer.pc.j;
    var t := ReclaimStep(config, s);
    InvSlots(config, s);
    InvCells(config, s);
    InvLog(config, s);
    InvDelivered(config, s);
    StageKeepsCells(config, s.log, s.cells, c, Reserved);
    StageKeepsDead(config, s, c, Reserved);
    FreedSlotOk(config, s.log, s.cells, s.tail, s.pins, c);
    WriteKeepsSlots(config, s.slots, s.log, s.cells, s.tail, s.pins, NoHold, c, EMPTY_SLOT, Reserved);
    FreeOneConsumer(config, s, t.cells, t.consumer);
    ReclaimerMoves(config, s, t);
  }

  lemma AllFreedKeeps(config: Config, s: State)
    requires Inv(config, s)
    requires s.consumer.pc.ReclaimFree? && s.consumer.pc.j >= s.consumer.pc.extent
    ensures |s.slots| == config.capacity > 0
    ensures Inv(config, ReclaimStep(config, s))
  {
    hide Inv, Parts, MessageFrames, Sendable;
    SlotCount(config, s);
    InvConsumer(config, s);
    InvFloor(config, s);
    ConsumerLocalKeeps(config, s, ReclaimStep(config, s).consumer);
  }

  // ---- Moving the tail past it ----

  /** The freed reservation is in order as a run of passed slots. */
  lemma PassedDeadSlot(
    config: Config, log: seq<Entry>, cells: seq<Cell>, tail: nat, tail': nat, pins: set<nat>, c: int, slot: Slot)
    requires SlotOk(config, log, cells, tail, pins, NoHold, c, slot)
    requires tail <= tail'
    requires tail <= c < tail' ==> c !in pins && c < |cells| && cells[c].stage == Reserved
    ensures SlotOk(config, log, cells, tail', pins, NoHold, c, slot)
  {
    hide HeaderOk, DataOk, StampOk;
  }

  lemma CasFacts(config: Config, s: State)
    requires Inv(config, s)
    requires s.consumer.pc.ReclaimCas?
    requires |s.slots| == config.capacity > 0
    ensures var t := ReclaimStep(config, s);
            && s.tail <= t.tail == s.tail + s.consumer.pc.extent <= |s.cells|
            && t.pins == s.pins && t.slots == s.slots && t.consumer.pc.Gate?
            && t.head == s.head && t.producers == s.producers && t.log == s.log && t.cells == s.cells
            && (forall c :: s.tail <= c < t.tail ==> c !in s.pins && s.cells[c].stage == Reserved)
            && PinsOk(config, t.pins, t.tail, |s.cells|, t.consumer.pc)
            && ConsumedOk(s.log, s.cells, t.tail)
            && FloorOk(config, t.floor, t.pins, t.tail, t.consumer.pc)
  {
    hide Inv, Parts, MessageFrames, Sendable;
    InvConsumer(config, s);
    InvFloor(config, s);
    InvConsumed(config, s);
    InvCells(config, s);
  }

  lemma AfterReclaim(config: Config, log: seq<Entry>, cells: seq<Cell>, done: nat, tail: nat, extent: nat)
    requires LogOk(config, log, |cells|)
    requires ReclaimingOk(config, log, cells, done, tail, extent, extent)
    ensures config.multiProducer
    ensures done < |log| && tail + extent == StartOf(log, |cells|, done + 1)
  {
    hide MessageFrames, Sendable;
    assert log[done].start + Len(config, log[done]) == StartOf(log, |cells|, done + 1);
  }

  lemma CasConsumer(config: Config, s: State)
    requires Inv(config, s)
    requires s.consumer.pc.ReclaimCas?
    requires |s.slots| == config.capacity > 0
    ensures var t := ReclaimStep(config, s);
            ConsumerOk(config, t.consumer, s.log, s.cells, s.producers, t.tail, t.done)
  {
    hide Inv, Parts, MessageFrames, Sendable, LogOk, ReclaimingOk, ReadingOk, AfterOk, ViewingOk, CommittedTail,
         DeadTail,
         CurrentOk;
    InvConsumer(config, s);
    InvMessages(config, s);
    AfterReclaim(config, s.log, s.cells, s.done, s.tail, s.consumer.pc.extent);
  }

  /** A reclaimed reservation adds nothing to what is delivered. */
  lemma CasDelivered(config: Config, s: State)
    requires Inv(config, s)
    requires s.consumer.pc.ReclaimCas?
    requires |s.slots| == config.capacity > 0
    ensures var t := ReclaimStep(config, s);
            DeliveredOk(config, s.log, t.done, t.delivered, false)
  {
    hide Inv, Parts, MessageFrames, Sendable;
    InvConsumer(config, s);
    InvDelivered(config, s);
  }

  lemma CasKeeps(config: Config, s: State)
    requires Inv(config, s)
    requires s.consumer.pc.ReclaimCas?
    ensures |s.slots| == config.capacity > 0
    ensures Inv(config, ReclaimStep(config, s))
  {
    hide Inv, Parts, MessageFrames, Sendable, Idx, SlotOk, ConsumerOk, DeliveredOk, PinsOk, ConsumedOk, FloorOk;
    SlotCount(config, s);
    InvSlots(config, s);
    CasFacts(config, s);
    CasConsumer(config, s);
    CasDelivered(config, s);
    var t := ReclaimStep(config, s);
    forall c | |s.cells| - config.capacity <= c < |s.cells|
      ensures SlotOk(config, s.log, s.cells, t.tail, s.pins, NoHold, c, s.slots[Idx(c, config.capacity)])
    {
      PassedDeadSlot(config, s.log, s.cells, s.tail, t.tail, s.pins, c, s.slots[Idx(c, config.capacity)]);
    }
    ConsumerMoves(config, s, t);
  }

  lemma ReclaimKeeps(config: Config, s: State)
    requires Inv(config, s)
    requires s.consumer.pc.ReclaimRead? || s.consumer.pc.ReclaimVerify? || s.consumer.pc.ReclaimFree?
             || s.consumer.pc.ReclaimCas?
    ensures |s.slots| == config.capacity > 0
    ensures Inv(config, ReclaimStep(config, s))
  {
    hide Inv, Parts, ReclaimStep;
    if s.consumer.pc.ReclaimRead? {
      ReclaimReadKeeps(config, s);
    } else if s.consumer.pc.ReclaimVerify? {
      if s.consumer.pc.j < s.consumer.pc.extent {
        VerifyKeeps(config, s);
      } else {
        BuryKeeps(config, s);
      }
    } else if s.consumer.pc.ReclaimFree? {
      if s.consumer.pc.j < s.consumer.pc.extent {
        FreeOneKeeps(config, s);
      } else {
        AllFreedKeeps(config, s);
      }
    } else {
      CasKeeps(config, s);
    }
  }
}
