/** Every run of the ring keeps its invariant. */
module RingRuns {
  import opened Bytes
  import opened Chunking
  import opened ChunkingProofs
  import opened Ring
  import opened RingInvariant
  import opened RingProducer
  import opened RingClaim
  import opened RingConsumer
  import opened RingReceive
  import opened RingView
  import opened RingReclaim

  // ---- Any consumer step ----

  lemma CopyKeeps(config: Config, s: State)
    requires Inv(config, s)
    requires s.consumer.pc.ReadSlot? || s.consumer.pc.PinSlot? || s.consumer.pc.ClearSlot? || s.consumer.pc.FreeSlot?
             || s.consumer.pc.Advance?
    ensures |s.slots| == config.capacity > 0
    ensures Inv(config, CopyStep(config, s))
  {
    hide Inv, Parts, CopyStep;
    if s.consumer.pc.ReadSlot? {
      ReadKeeps(config, s);
    } else if s.consumer.pc.PinSlot? {
      PinSlotKeeps(config, s);
    } else if s.consumer.pc.Advance? {
      AdvanceKeeps(config, s);
    } else {
      ReleaseReadKeeps(config, s);
    }
  }

  lemma ViewKeeps(config: Config, s: State)
    requires Inv(config, s)
    requires s.consumer.pc.ViewSlot? || s.consumer.pc.ViewPin? || s.consumer.pc.ViewFloor?
             || s.consumer.pc.ViewFloorCas? || s.consumer.pc.ViewAdvance?
    ensures |s.slots| == config.capacity > 0
    ensures Inv(config, ViewStep(config, s))
  {
    hide Inv, Parts, ViewStep;
    if s.consumer.pc.ViewSlot? {
      ViewSlotKeeps(config, s);
    } else if s.consumer.pc.ViewPin? {
      ViewPinKeeps(config, s);
    } else if s.consumer.pc.ViewAdvance? {
      ViewAdvanceKeeps(config, s);
    } else {
      ViewFloorKeeps(config, s);
    }
  }

  /** Every step of the consumer keeps the invariant. */
  lemma ConsumerStepKeeps(config: Config, s: State)
    requires Inv(config, s)
    ensures |s.slots| == config.capacity > 0
    ensures Inv(config, ConsumerStep(config, s))
  {
    hide Inv, Parts, CopyStep, ViewStep, ReleaseStep, UnpinStep, ReclaimStep, RefreshStep, GateStep;
    SlotCount(config, s);
    var pc := s.consumer.pc;
    if pc.SeeHead? || pc.SeeTail? || pc.SeeFloor? {
      RefreshKeeps(config, s);
    } else if pc.Gate? || pc.NextChunk? {
      GateKeeps(config, s);
    } else if pc.ReadSlot? || pc.PinSlot? || pc.ClearSlot? || pc.FreeSlot? || pc.Advance? {
      CopyKeeps(config, s);
    } else if pc.ViewSlot? || pc.ViewPin? || pc.ViewFloor? || pc.ViewFloorCas? || pc.ViewAdvance? {
      ViewKeeps(config, s);
    } else if pc.ReleaseCheck? || pc.ReleaseClear? || pc.ReleaseFree? {
      ReleaseKeeps(config, s);
    } else if pc.UnpinFloor? || pc.UnpinTail? || pc.UnpinScan? || pc.UnpinCas? {
      UnpinKeeps(config, s);
    } else if pc.ReclaimRead? || pc.ReclaimVerify? || pc.ReclaimFree? || pc.ReclaimCas? {
      ReclaimKeeps(config, s);
    }
  }

  // ---- Calls and crashes ----

  lemma BeginSendKeeps(config: Config, s: State, p: nat, bytes: seq<byte>)
    requires Inv(config, s)
    requires p in s.producers && s.producers[p].alive && s.producers[p].pc.Idle?
    requires Sendable(config, Message(0, bytes))
    ensures Inv(config, SetProducer(s, p, LoadHead(bytes)))
  {
    hide Inv, Parts, Sendable, MessageFrames;
    InvProducer(config, s, p);
    LocalKeeps(config, s, p, s.producers[p].(pc := LoadHead(bytes)));
  }

  /** A producer that appears, or one that crashes with nothing committed. */
  lemma ProducerChangeKeeps(config: Config, s: State, p: nat, next: Producer)
    requires Inv(config, s)
    requires config.multiProducer
    requires if p in s.producers then next == s.producers[p].(alive := false) && CrashPoint(next.pc)
             else next.pc.Idle? && next.alive
    ensures Inv(config, s.(producers := s.producers[p := next]))
  {
    hide Inv, Parts, ProducerOk, ConsumerOk, SlotsOk, LogOk, CellsOk, FloorOk, DeliveredOk, Sendable, MessageFrames;
    var t := s.(producers := s.producers[p := next]);
    ProducerChangeOwned(config, s, p, next);
    ProducerChangeProducers(config, s, p, next);
    ProducerChangeConsumer(config, s, p, next);
    InvSlots(config, s);
    InvFloor(config, s);
    InvConsumed(config, s);
    InvDelivered(config, s);
    InvCells(config, s);
    InvLog(config, s);
    ProducersMove(config, s, t);
  }

  lemma ProducerChangeOwned(config: Config, s: State, p: nat, next: Producer)
    requires Inv(config, s)
    requires if p in s.producers then next == s.producers[p].(alive := false) && CrashPoint(next.pc)
             else next.pc.Idle? && next.alive
    ensures OwnedOk(s.producers[p := next], s.log, s.cells)
  {
    hide Inv, Parts;
    InvOwned(config, s);
  }

  lemma ProducerChangeProducers(config: Config, s: State, p: nat, next: Producer)
    requires Inv(config, s)
    requires config.multiProducer
    requires if p in s.producers then next == s.producers[p].(alive := false) && CrashPoint(next.pc)
             else next.pc.Idle? && next.alive
    ensures ProducersOk(config, s.producers[p := next], s.log, s.cells, s.head, s.tail, s.pins)
  {
    hide Inv, Parts, MessageFrames, Sendable, WritingOk, SendableBytes, LoadedOk;
    var producers := s.producers[p := next];
    forall q | q in producers
      ensures ProducerOk(config, s.log, s.cells, s.head, s.tail, s.pins, q, producers[q])
    {
      if q in s.producers {
        InvProducer(config, s, q);
      }
    }
  }

  lemma ProducerChangeConsumer(config: Config, s: State, p: nat, next: Producer)
    requires Inv(config, s)
    requires if p in s.producers then next == s.producers[p].(alive := false) && CrashPoint(next.pc)
             else next.pc.Idle? && next.alive
    ensures ConsumerOk(config, s.consumer, s.log, s.cells, s.producers[p := next], s.tail, s.done)
  {
    hide Inv, Parts, ReadingOk, AfterOk, ViewingOk, CommittedTail, CurrentOk, ReclaimingOk, MessageFrames, Sendable;
    InvConsumer(config, s);
  }

  /** What a change of the producers alone has to re-establish in multi-producer mode. */
  lemma ProducersMove(config: Config, s: State, t: State)
    requires Inv(config, s)
    requires config.multiProducer
    requires t == s.(producers := t.producers)
    requires ProducersOk(config, t.producers, t.log, t.cells, t.head, t.tail, t.pins)
    requires OwnedOk(t.producers, t.log, t.cells)
    requires ConsumerOk(config, t.consumer, t.log, t.cells, t.producers, t.tail, t.done)
    ensures Inv(config, t)
  {
    hide ProducerOk, SlotsOk, LogOk, CellsOk, FloorOk, ConsumerOk, DeliveredOk, ProducersOk, OwnedOk, HeadOk, CursorsOk,
         ConsumedOk, PinsOk, HoldOf, Reclaiming;
  }

  // ---- Runs ----

  /** Every step keeps the invariant. */
  lemma ApplyKeeps(config: Config, s: State, step: Step)
    requires Inv(config, s)
    ensures |s.slots| == config.capacity > 0
    ensures Inv(config, Apply(config, s, step))
  {
    hide Inv, Parts, ConsumerStep, ProducerStep, Sendable, MessageFrames;
    SlotCount(config, s);
    match step {
      case Join(p, nextSeq) =>
        if p !in s.producers && config.multiProducer {
          ProducerChangeKeeps(config, s, p, Producer(true, nextSeq, Idle));
        }
      case BeginSend(p, bytes) =>
        if p in s.producers && s.producers[p].alive && s.producers[p].pc.Idle? && Sendable(config, Message(0, bytes)) {
          BeginSendKeeps(config, s, p, bytes);
        }
      case Produce(p, retry) =>
        if p in s.producers && s.producers[p].alive {
          ProducerStepKeeps(config, s, p, retry);
        }
      case Crash(p) =>
        if config.multiProducer && p in s.producers && CrashPoint(s.producers[p].pc) {
          ProducerChangeKeeps(config, s, p, s.producers[p].(alive := false));
        }
      case BeginReceive(op) =>
        if s.consumer.pc.Resting? {
          StartKeeps(config, s, SeeHead(op));
        }
      case BeginRelease(cursor) =>
        if s.consumer.pc.Resting? && cursor in s.pins {
          StartKeeps(config, s, ReleaseCheck(cursor));
        }
      case Consume => ConsumerStepKeeps(config, s);
    }
  }

  lemma InitHolds(config: Config, s: State)
    requires Init(config, s)
    ensures Inv(config, s)
  {
    hide Sendable, MessageFrames;
  }

  /** Every run keeps the invariant. */
  lemma {:induction false} ExecKeeps(config: Config, s: State, run: seq<Step>)
    requires Inv(config, s)
    ensures |s.slots| == config.capacity > 0
    ensures Inv(config, Exec(config, s, run))
    decreases |run|
  {
    hide Inv, Parts, Apply;
    SlotCount(config, s);
    if run != [] {
      ApplyKeeps(config, s, run[0]);
      ExecKeeps(config, Apply(config, s, run[0]), run[1..]);
    }
  }
}
