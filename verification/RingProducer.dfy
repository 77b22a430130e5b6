/** Every producer step keeps the ring invariant. */
module RingProducer {
  import opened Errors
  import opened Chunking
  import opened ChunkingProofs
  import opened SlotStates
  import opened Cursors
  import opened Ring
  import opened RingInvariant
  import opened RingSlots

  /** A producer can change its own state freely, as long as it does not leave a reservation it is writing. */
  lemma LocalKeeps(config: Config, s: State, p: nat, next: Producer)
    requires Inv(config, s)
    requires p in s.producers && s.producers[p].alive
    requires s.producers[p].pc.WriteSlot? ==> next.pc.WriteSlot? && next.pc.entry == s.producers[p].pc.entry
    requires next.alive
    requires ProducerOk(config, s.log, s.cells, s.head, s.tail, s.pins, p, next)
    ensures Inv(config, s.(producers := s.producers[p := next]))
  {
    var t := s.(producers := s.producers[p := next]);
    assert OwnedOk(t.producers, t.log, t.cells) by {
      hide ProducerOk, SlotsOk, LogOk, CellsOk, FloorOk, ConsumerOk, DeliveredOk, ProducersOk, Sendable, MessageFrames;
    }
    assert ProducersOk(config, t.producers, t.log, t.cells, t.head, t.tail, t.pins) by {
      hide ProducerOk, SlotsOk, LogOk, CellsOk, FloorOk, ConsumerOk, DeliveredOk, Sendable, MessageFrames;
    }
    assert ConsumerOk(config, t.consumer, t.log, t.cells, t.producers, t.tail, t.done) by {
      hide ProducerOk, SlotsOk, LogOk, CellsOk, FloorOk, DeliveredOk, Sendable, MessageFrames;
    }
    hide ProducerOk, SlotsOk, LogOk, CellsOk, FloorOk, ConsumerOk, DeliveredOk, ProducersOk, OwnedOk, Sendable,
         MessageFrames;
  }

  /** Whatever the consumer is doing, a tail and then a floor loaded now bound every live pin from below. */
  lemma LimitIsSafe(config: Config, s: State, tail: nat)
    requires FloorOk(config, s.floor, s.pins, s.tail, s.consumer.pc)
    requires tail <= s.tail
    ensures forall c :: c in s.pins ==> Limit(tail, s.floor) <= c
  {
    forall c | c in s.pins
      ensures Limit(tail, s.floor) <= c
    {
      if s.consumer.pc.ViewFloor? || s.consumer.pc.ViewFloorCas? {
        assert c == s.tail || c in s.pins - {s.tail};
      } else if s.consumer.pc.UnpinFloor? {
        assert c in s.pins + {s.consumer.pc.cursor};
      }
    }
  }

  lemma LoadKeeps(config: Config, s: State, p: nat, retry: bool)
    requires Inv(config, s)
    requires p in s.producers && s.producers[p].alive
    requires s.producers[p].pc.LoadHead? || s.producers[p].pc.LoadTail? || s.producers[p].pc.LoadFloor?
    ensures Inv(config, ProducerStep(config, s, p, retry))
  {
    var next := s.producers[p].(pc := ProducerStep(config, s, p, retry).producers[p].pc);
    assert ProducerOk(config, s.log, s.cells, s.head, s.tail, s.pins, p, next) by {
      LimitIsSafe(config, s, s.tail);
      if s.producers[p].pc.LoadFloor? {
        LimitIsSafe(config, s, s.producers[p].pc.tail);
      }
      hide SlotsOk, LogOk, CellsOk, FloorOk, ConsumerOk, DeliveredOk, OwnedOk, Sendable, MessageFrames, WritingOk;
    }
    LocalKeeps(config, s, p, next);
    hide Inv, Parts;
  }

  // ---- Writing a reserved slot ----

  /** The cursor a live producer is writing has not been passed, and its slot is as the phase says. */
  lemma WriterCursor(config: Config, s: State, p: nat)
    requires Inv(config, s)
    requires p in s.producers && s.producers[p].alive && s.producers[p].pc.WriteSlot?
    ensures var WriteSlot(e, k, phase) := s.producers[p].pc;
            && e < |s.log| && !s.log[e].dead && Sendable(config, s.log[e].message)
            && k < Len(config, s.log[e])
            && var c := s.log[e].start + k;
               && s.tail <= c < |s.cells|
               && CellOk(config, s.log, s.cells, c)
               && s.cells[c] == Cell(e, k, StageAt(s.log[e].start, k, phase, c))
               && ClaimedSlotOk(config, s.log, s.cells, c, At(config, s, c), NoHold)
  {
    hide Sendable, MessageFrames, FloorOk, OwnedOk, LogOk, DeliveredOk, Idx, ConsumerOk;
    var WriteSlot(e, k, phase) := s.producers[p].pc;
    InvProducer(config, s, p);
    var c := s.log[e].start + k;
    assert CellOk(config, s.log, s.cells, c);
    assert s.cells[c].entry == e;
    assert s.tail <= c;
    assert SlotOk(config, s.log, s.cells, s.tail, s.pins, HoldOf(s.consumer.pc), c, At(config, s, c));
  }

  /** The state after a producer has written the slot of its cursor `c`. */
  function Written(config: Config, s: State, p: nat, c: nat, slot: Slot, stage: Stage, pc: Sending): State
    requires |s.slots| == config.capacity > 0
    requires p in s.producers && c < |s.cells|
  {
    SetProducer(SetStage(SetSlot(config, s, c, slot), c, stage), p, pc)
  }

  /** The write of one reservation does not disturb what another producer relies on. */
  lemma OtherProducerKeeps(
    config: Config, s: State, q: nat, e: nat, c: nat, stage: Stage)
    requires Inv(config, s)
    requires q in s.producers
    requires c < |s.cells| && s.cells[c].entry == e && s.cells[c].stage != Done
    requires e < |s.log| && s.log[e].owner != q
    ensures ProducerOk(config, s.log, s.cells[c := s.cells[c].(stage := stage)], s.head, s.tail, s.pins, q,
        s.producers[q])
  {
    hide Sendable, MessageFrames, FloorOk, OwnedOk, LogOk, DeliveredOk, SlotsOk, ConsumerOk, PinsOk, StageAt;
    assert ProducerOk(config, s.log, s.cells, s.head, s.tail, s.pins, q, s.producers[q]);
    var after := s.cells[c := s.cells[c].(stage := stage)];
    var pc := s.producers[q].pc;
    if pc.WriteSlot? && !s.log[pc.entry].dead {
      forall d | s.log[pc.entry].start <= d < s.log[pc.entry].start + Len(config, s.log[pc.entry])
        ensures after[d].stage == s.cells[d].stage
      {
        assert s.cells[d].entry == pc.entry;
      }
    }
  }

  lemma WriteKeepsConsumer(config: Config, s: State, p: nat, c: nat, stage: Stage, pc: Sending)
    requires Inv(config, s)
    requires p in s.producers && s.producers[p].alive
    requires c < |s.cells| && s.cells[c].stage != Done
    requires s.cells[c].entry < |s.log| && !s.log[s.cells[c].entry].dead
    ensures ConsumerOk(config, s.consumer, s.log, s.cells[c := s.cells[c].(stage := stage)],
                       s.producers[p := s.producers[p].(pc := pc)], s.tail, s.done)
  {
    hide Sendable, MessageFrames, FloorOk, OwnedOk, LogOk, DeliveredOk, SlotsOk, PinsOk, ProducersOk, ProgressOk,
         CellOk;
    var after := s.cells[c := s.cells[c].(stage := stage)];
    if Reclaiming(s.consumer.pc) {
      var e := s.log[s.done];
      forall d | s.tail <= d < s.tail + Len(config, e)
        ensures after[d] == s.cells[d]
      {
        assert s.cells[d].entry == s.done;
      }
    }
  }

  /** Producer p is writing cursor c, a cell of its live reservation e. */
  ghost predicate IsWriting(s: State, p: nat, e: nat, c: nat) {
    && p in s.producers && s.producers[p].alive
    && s.producers[p].pc.WriteSlot? && s.producers[p].pc.entry == e
    && e < |s.log| && !s.log[e].dead && s.log[e].owner == p
    && s.tail <= c < |s.cells|
    && s.cells[c].entry == e && s.cells[c].stage != Done
  }

  lemma WriteKeepsProducers(config: Config, s: State, p: nat, e: nat, c: nat, stage: Stage, pc: Sending)
    requires Inv(config, s)
    requires IsWriting(s, p, e, c)
    requires ProducerOk(config, s.log, s.cells[c := s.cells[c].(stage := stage)], s.head, s.tail, s.pins, p,
                        s.producers[p].(pc := pc))
    ensures ProducersOk(config, s.producers[p := s.producers[p].(pc := pc)], s.log,
                        s.cells[c := s.cells[c].(stage := stage)], s.head, s.tail, s.pins)
  {
    var producers := s.producers[p := s.producers[p].(pc := pc)];
    forall q | q in producers
      ensures ProducerOk(config, s.log, s.cells[c := s.cells[c].(stage := stage)], s.head, s.tail, s.pins, q,
          producers[q])
    {
      hide Inv, Parts, ProducerOk;
      if q != p {
        OtherProducerKeeps(config, s, q, e, c, stage);
      }
    }
  }

  lemma WriteKeepsOwned(s: State, p: nat, e: nat, c: nat, stage: Stage, pc: Sending)
    requires OwnedOk(s.producers, s.log, s.cells)
    requires IsWriting(s, p, e, c)
    requires (pc.WriteSlot? && pc.entry == e)
             || (stage == Done && forall d :: 0 <= d < |s.cells| && d != c && s.cells[d].entry == e ==>
                 s.cells[d].stage == Done)
    ensures OwnedOk(s.producers[p := s.producers[p].(pc := pc)], s.log, s.cells[c := s.cells[c].(stage := stage)])
  {
  }

  lemma WriteKeeps(config: Config, s: State, p: nat, e: nat, c: nat, slot: Slot, stage: Stage, pc: Sending)
    requires Inv(config, s)
    requires IsWriting(s, p, e, c)
    requires SlotOk(config, s.log, s.cells[c := s.cells[c].(stage := stage)], s.tail, s.pins, HoldOf(s.consumer.pc),
        c, slot)
    requires ProducerOk(config, s.log, s.cells[c := s.cells[c].(stage := stage)], s.head, s.tail, s.pins, p,
                        s.producers[p].(pc := pc))
    requires (pc.WriteSlot? && pc.entry == e)
             || (stage == Done && forall d :: 0 <= d < |s.cells| && d != c && s.cells[d].entry == e ==>
                 s.cells[d].stage == Done)
    ensures |s.slots| == config.capacity
    ensures Inv(config, Written(config, s, p, c, slot, stage, pc))
  {
    hide SlotsOk, SlotOk, ConsumerOk, CellsOk, FloorOk, DeliveredOk, Sendable, MessageFrames, ProducersOk, ProducerOk,
         OwnedOk, LogOk;
    SlotCount(config, s);
    StageKeepsCells(config, s.log, s.cells, c, stage);
    WriteKeepsSlots(config, s.slots, s.log, s.cells, s.tail, s.pins, HoldOf(s.consumer.pc), c, slot, stage);
    WriteKeepsConsumer(config, s, p, c, stage, pc);
    WriteKeepsProducers(config, s, p, e, c, stage, pc);
    WriteKeepsOwned(s, p, e, c, stage, pc);
  }

  lemma SlotCount(config: Config, s: State)
    requires Inv(config, s)
    ensures |s.slots| == config.capacity > 0
  {
  }

  lemma InvProducer(config: Config, s: State, p: nat)
    requires Inv(config, s)
    requires p in s.producers
    ensures ProducerOk(config, s.log, s.cells, s.head, s.tail, s.pins, p, s.producers[p])
  {
    hide ProducerOk, SlotsOk, LogOk, CellsOk, FloorOk, ConsumerOk, DeliveredOk, OwnedOk, Sendable, MessageFrames;
  }

  lemma WriterIsWriting(config: Config, s: State, p: nat)
    requires Inv(config, s)
    requires p in s.producers && s.producers[p].alive && s.producers[p].pc.WriteSlot?
    ensures var WriteSlot(e, k, phase) := s.producers[p].pc;
            && e < |s.log| && Sendable(config, s.log[e].message) && k < Len(config, s.log[e])
            && IsWriting(s, p, e, s.log[e].start + k)
            && WritingOk(config, s.log, s.cells, s.head, p, e, k, phase)
  {
    hide Inv, Parts, Sendable, MessageFrames;
    WriterCursor(config, s, p);
    InvProducer(config, s, p);
  }

  /** The consumer holds the tail slot only when it is committed. */
  lemma HeldTailIsCommitted(config: Config, s: State)
    requires Inv(config, s)
    requires HoldOf(s.consumer.pc).Reading? || HoldOf(s.consumer.pc).Freed?
    ensures CommittedTail(s.cells, s.tail)
  {
    hide Sendable, MessageFrames, FloorOk, OwnedOk, LogOk, DeliveredOk, SlotsOk, ProducersOk, CellsOk;
  }

  lemma CheckKeeps(config: Config, s: State, p: nat)
    requires Inv(config, s)
    requires p in s.producers && s.producers[p].alive && s.producers[p].pc.WriteSlot?
    requires s.producers[p].pc.phase.Check?
    ensures |s.slots| == config.capacity > 0
    ensures Inv(config, WriteStep(config, s, p))
    ensures var WriteSlot(e, k, _) := s.producers[p].pc;
            e < |s.log| && At(config, s, s.log[e].start + k).state == Free
  {
    hide Inv, Parts, Idx, Sendable, MessageFrames;
    var WriteSlot(e, k, phase) := s.producers[p].pc;
    SlotCount(config, s);
    WriterCursor(config, s, p);
    var next := WriteSlot(e, k, Mark);
    assert ProducerOk(config, s.log, s.cells, s.head, s.tail, s.pins, p, s.producers[p].(pc := next)) by {
      InvProducer(config, s, p);
    }
    hide ProducerOk;
    LocalKeeps(config, s, p, s.producers[p].(pc := next));
  }

  /** The reservation after one of its cells has moved to the stage that the next phase expects. */
  lemma NextPhaseOk(config: Config, s: State, p: nat, stage: Stage, next: Sending)
    requires Inv(config, s)
    requires p in s.producers && s.producers[p].alive && s.producers[p].pc.WriteSlot?
    requires var WriteSlot(e, k, phase) := s.producers[p].pc;
             e < |s.log| && Sendable(config, s.log[e].message)
             && s.log[e].start + k < |s.cells|
             && ((phase.Mark? && stage == Marked && next == WriteSlot(e, k, Fill))
                 || (phase.Fill? && stage == Filled && next == WriteSlot(e, k, Commit))
                 || (phase.Commit? && stage == Done && k + 1 < Len(config, s.log[e]) && next == WriteSlot(e, k + 1,
                     Check)))
    ensures var WriteSlot(e, k, phase) := s.producers[p].pc;
            var c := s.log[e].start + k;
            ProducerOk(config, s.log, s.cells[c := s.cells[c].(stage := stage)], s.head, s.tail, s.pins, p,
                       s.producers[p].(pc := next))
  {
    hide Inv, Parts, Sendable, MessageFrames;
    WriterIsWriting(config, s, p);
    InvProducer(config, s, p);
  }

  /** What a phase writes into the slot, and the stage the cell reaches. */
  function WrittenSlot(config: Config, e: Entry, p: nat, k: nat, phase: Phase, slot: Slot): Slot
    requires Sendable(config, e.message) && k < Len(config, e)
  {
    match phase
    case Check => slot
    case Mark => Slot(Writing, e.message.seqNo, Some(Identity(p, Len(config, e))), slot.data)
    case Fill => slot.(data := MessageFrames(config, e.message)[k])
    case Commit => Slot(Committed, e.message.seqNo, None, slot.data)
  }

  function WrittenStage(phase: Phase): Stage {
    match phase
    case Check => Reserved
    case Mark => Marked
    case Fill => Filled
    case Commit => Done
  }

  lemma WrittenSlotOk(config: Config, s: State, p: nat)
    requires Inv(config, s)
    requires p in s.producers && s.producers[p].alive && s.producers[p].pc.WriteSlot?
    requires !s.producers[p].pc.phase.Check?
    ensures |s.slots| == config.capacity > 0
    ensures var WriteSlot(e, k, phase) := s.producers[p].pc;
            && e < |s.log| && Sendable(config, s.log[e].message) && k < Len(config, s.log[e])
            && var c := s.log[e].start + k;
               && c < |s.cells|
               && SlotOk(config, s.log, s.cells[c := s.cells[c].(stage := WrittenStage(phase))], s.tail, s.pins,
                         HoldOf(s.consumer.pc), c,
                         WrittenSlot(config, s.log[e], p, k, phase, At(config, s, c)))
  {
    hide Inv, Parts, Idx, Sendable, MessageFrames;
    var WriteSlot(e, k, phase) := s.producers[p].pc;
    SlotCount(config, s);
    WriterCursor(config, s, p);
    WriterIsWriting(config, s, p);
    var c := s.log[e].start + k;
    var after := s.cells[c := s.cells[c].(stage := WrittenStage(phase))];
    assert CellOk(config, s.log, after, c);
    if HoldOf(s.consumer.pc).Reading? || HoldOf(s.consumer.pc).Freed? {
      HeldTailIsCommitted(config, s);
    }
  }

  lemma InvCells(config: Config, s: State)
    requires Inv(config, s)
    ensures CellsOk(config, s.log, s.cells)
  {
    hide CellsOk;
  }

  lemma InvLog(config: Config, s: State)
    requires Inv(config, s)
    ensures LogOk(config, s.log, |s.cells|) && HeadOk(config, s.head, s.cells)
  {
    hide LogOk, HeadOk, SlotsOk, ConsumerOk, ProducersOk, CellsOk, DeliveredOk;
  }

  /** At the last slot of a reservation, every other cell of it is already committed. */
  lemma OtherCellsDone(config: Config, s: State, p: nat)
    requires Inv(config, s)
    requires p in s.producers && s.producers[p].alive && s.producers[p].pc.WriteSlot?
    requires var WriteSlot(e, k, phase) := s.producers[p].pc;
             e < |s.log| && Sendable(config, s.log[e].message) && k + 1 == Len(config, s.log[e])
    ensures var WriteSlot(e, k, phase) := s.producers[p].pc;
            forall d :: 0 <= d < |s.cells| && d != s.log[e].start + k && s.cells[d].entry == e ==>
                s.cells[d].stage == Done
  {
    hide Inv, Parts, Sendable, MessageFrames;
    WriterIsWriting(config, s, p);
    InvCells(config, s);
    var WriteSlot(e, k, phase) := s.producers[p].pc;
    forall d | 0 <= d < |s.cells| && d != s.log[e].start + k && s.cells[d].entry == e
      ensures s.cells[d].stage == Done
    {
      assert CellOk(config, s.log, s.cells, d);
    }
  }

  /** After its last slot a multi-producer writer is idle; a single producer still has to publish. */
  lemma FinishedOk(config: Config, s: State, p: nat, next: Sending)
    requires Inv(config, s)
    requires p in s.producers && s.producers[p].alive && s.producers[p].pc.WriteSlot?
    requires var WriteSlot(e, k, phase) := s.producers[p].pc;
             && e < |s.log| && Sendable(config, s.log[e].message) && k + 1 == Len(config, s.log[e])
             && s.log[e].start + k < |s.cells|
             && next == if config.multiProducer then Idle else StoreHead(e)
    ensures var WriteSlot(e, k, phase) := s.producers[p].pc;
            var c := s.log[e].start + k;
            ProducerOk(config, s.log, s.cells[c := s.cells[c].(stage := Done)], s.head, s.tail, s.pins, p,
                       s.producers[p].(pc := next))
  {
    hide Inv, Parts, Sendable, MessageFrames;
    WriterIsWriting(config, s, p);
    InvProducer(config, s, p);
    if !config.multiProducer {
      InvLog(config, s);
      var WriteSlot(e, k, phase) := s.producers[p].pc;
      var after := s.cells[s.log[e].start + k := s.cells[s.log[e].start + k].(stage := Done)];
      forall d | 0 <= d < |after|
        ensures after[d].stage == Done
      {
        if d >= s.log[e].start {
          assert s.cells[d].stage == StageAt(s.log[e].start, k, phase, d);
        }
      }
    }
  }

  lemma WriteStepKeeps(config: Config, s: State, p: nat)
    requires Inv(config, s)
    requires p in s.producers && s.producers[p].alive && s.producers[p].pc.WriteSlot?
    requires !s.producers[p].pc.phase.Check?
    ensures |s.slots| == config.capacity > 0
    ensures Inv(config, WriteStep(config, s, p))
  {
    hide Inv, Parts, Idx, Sendable, MessageFrames, ProducerOk, SlotOk, WritingOk;
    var WriteSlot(e, k, phase) := s.producers[p].pc;
    WriterIsWriting(config, s, p);
    WrittenSlotOk(config, s, p);
    var c := s.log[e].start + k;
    var next :=
      if phase.Mark? then WriteSlot(e, k, Fill)
      else if phase.Fill? then WriteSlot(e, k, Commit)
      else if k + 1 < Len(config, s.log[e]) then WriteSlot(e, k + 1, Check)
      else if config.multiProducer then Idle
      else StoreHead(e);
    if phase.Commit? && k + 1 == Len(config, s.log[e]) {
      OtherCellsDone(config, s, p);
      FinishedOk(config, s, p, next);
    } else {
      NextPhaseOk(config, s, p, WrittenStage(phase), next);
    }
    WriteKeeps(config, s, p, e, c, WrittenSlot(config, s.log[e], p, k, phase, At(config, s, c)), WrittenStage(phase),
        next);
  }
}
