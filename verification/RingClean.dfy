/** A FREE slot is always an empty one, and a PINNED slot carries no writer's identity. */
module RingClean {
  import opened Chunking
  import opened ChunkingProofs
  import opened Cursors
  import opened Ring
  import opened RingInvariant
  import opened RingProducer
  import opened RingClaim
  import opened RingConsumer
  import opened RingRuns
  import opened RingTheorems

  /** FREE slots are empty, PINNED slots are unstamped, and a slot about to be freed has been cleared. */
  ghost predicate Clean(config: Config, s: State) {
    && config.capacity == |s.slots| > 0
    && (forall i :: 0 <= i < |s.slots| && s.slots[i].state.Free? ==> s.slots[i] == EMPTY_SLOT)
    && (forall i :: 0 <= i < |s.slots| && s.slots[i].state.Pinned? ==> s.slots[i].writer.None?)
    && (s.consumer.pc.FreeSlot? ==> At(config, s, s.consumer.tailSeen).data == [])
    && (s.consumer.pc.ReleaseFree? ==> At(config, s, s.consumer.pc.cursor).data == [])
  }

  /** A producer does not write the slot that the consumer is about to free. */
  lemma WriterAvoidsHeld(config: Config, s: State, p: nat)
    requires Inv(config, s)
    requires p in s.producers && s.producers[p].alive && s.producers[p].pc.WriteSlot?
    ensures |s.slots| == config.capacity > 0
    ensures var t := WriteStep(config, s, p);
            && t.consumer == s.consumer
            && (s.consumer.pc.FreeSlot? ==> At(config, t, s.consumer.tailSeen) == At(config, s, s.consumer.tailSeen))
            && (s.consumer.pc.ReleaseFree? ==>
                  At(config, t, s.consumer.pc.cursor) == At(config, s, s.consumer.pc.cursor))
  {
    hide Inv, Parts, Sendable, MessageFrames, Idx;
    SlotCount(config, s);
    if s.consumer.pc.FreeSlot? {
      WriterIsWriting(config, s, p);
      InvConsumer(config, s);
      InvCursors(config, s);
      var d := s.log[s.producers[p].pc.entry].start + s.producers[p].pc.k;
      IdxDistinct(s.tail, d, config.capacity);
    } else if s.consumer.pc.ReleaseFree? {
      InvFloor(config, s);
      WriteLeavesPins(config, s, p, s.consumer.pc.cursor);
    }
  }

  lemma WriteKeepsClean(config: Config, s: State, p: nat)
    requires Inv(config, s) && Clean(config, s)
    requires p in s.producers && s.producers[p].alive && s.producers[p].pc.WriteSlot?
    ensures Clean(config, WriteStep(config, s, p))
  {
    hide Inv, Parts, Sendable, MessageFrames, Idx, WriteStep;
    WriterAvoidsHeld(config, s, p);
    FilledIsWriting(config, s, p);
    WritesNotFree(config, s, p);
  }

  /** The payload is written into a slot that is already WRITING. */
  lemma FilledIsWriting(config: Config, s: State, p: nat)
    requires Inv(config, s)
    requires p in s.producers && s.producers[p].alive && s.producers[p].pc.WriteSlot?
    ensures |s.slots| == config.capacity > 0
    ensures var pc := s.producers[p].pc;
            pc.entry < |s.log| && (pc.phase.Fill? ==> At(config, s, s.log[pc.entry].start + pc.k).state.Writing?)
  {
    hide Inv, Parts, Sendable, MessageFrames, Idx, HeaderOk, StampOk, DataOk;
    SlotCount(config, s);
    WriterCursor(config, s, p);
  }

  /** A write leaves no slot FREE or PINNED that it has changed. */
  lemma WritesNotFree(config: Config, s: State, p: nat)
    requires config.capacity == |s.slots| > 0
    requires p in s.producers && s.producers[p].pc.WriteSlot?
    requires var pc := s.producers[p].pc;
             pc.entry < |s.log| && (pc.phase.Fill? ==> At(config, s, s.log[pc.entry].start + pc.k).state.Writing?)
    ensures var t := WriteStep(config, s, p);
            forall i :: 0 <= i < |s.slots| ==>
              t.slots[i] == s.slots[i] || !(t.slots[i].state.Free? || t.slots[i].state.Pinned?)
  {
    hide Sendable, MessageFrames, Idx;
  }

  lemma ProducerKeepsClean(config: Config, s: State, p: nat, retry: bool)
    requires Inv(config, s) && Clean(config, s)
    requires p in s.producers && s.producers[p].alive
    ensures Clean(config, ProducerStep(config, s, p, retry))
  {
    hide Inv, Parts, Sendable, MessageFrames, Idx, WriteStep, GuardLen, Consistent;
    if s.producers[p].pc.WriteSlot? {
      WriteKeepsClean(config, s, p);
    }
  }

  lemma ReclaimKeepsClean(config: Config, s: State)
    requires Clean(config, s)
    requires !s.consumer.pc.FreeSlot? && !s.consumer.pc.ReleaseFree?
    ensures Clean(config, ReclaimStep(config, s))
  {
    hide Idx;
  }

  lemma CopyKeepsClean(config: Config, s: State)
    requires Clean(config, s)
    requires !s.consumer.pc.ReleaseFree?
    ensures Clean(config, CopyStep(config, s))
  {
    hide Idx, Digest;
  }

  lemma ViewKeepsClean(config: Config, s: State)
    requires Clean(config, s)
    requires !s.consumer.pc.FreeSlot? && !s.consumer.pc.ReleaseFree?
    ensures Clean(config, ViewStep(config, s))
  {
    hide Idx, Viewable;
  }

  lemma LookKeepsClean(config: Config, s: State)
    requires Clean(config, s)
    requires !s.consumer.pc.FreeSlot? && !s.consumer.pc.ReleaseFree?
    ensures Clean(config, RefreshStep(config, s))
    ensures Clean(config, GateStep(config, s))
  {
    hide Idx, Consistent;
  }

  lemma UnpinKeepsClean(config: Config, s: State)
    requires Clean(config, s)
    requires !s.consumer.pc.FreeSlot? && !s.consumer.pc.ReleaseFree?
    ensures Clean(config, UnpinStep(config, s))
  {
    hide Idx;
  }

  lemma ReleaseKeepsClean(config: Config, s: State)
    requires Clean(config, s)
    requires !s.consumer.pc.FreeSlot?
    ensures Clean(config, ReleaseStep(config, s))
  {
    hide Idx;
  }

  lemma ConsumerKeepsClean(config: Config, s: State)
    requires Clean(config, s)
    ensures Clean(config, ConsumerStep(config, s))
  {
    hide Clean, RefreshStep, GateStep, CopyStep, ViewStep, ReleaseStep, UnpinStep, ReclaimStep;
    if s.consumer.pc.FreeSlot? || s.consumer.pc.ReadSlot? || s.consumer.pc.PinSlot? || s.consumer.pc.ClearSlot?
       || s.consumer.pc.Advance? {
      CopyKeepsClean(config, s);
    } else {
      ReleaseKeepsClean(config, s);
      if !s.consumer.pc.ReleaseFree? {
        LookKeepsClean(config, s);
        UnpinKeepsClean(config, s);
        ReclaimKeepsClean(config, s);
        ViewKeepsClean(config, s);
      }
    }
  }

  lemma StepKeepsClean(config: Config, s: State, step: Step)
    requires Inv(config, s) && Clean(config, s)
    ensures Clean(config, Apply(config, s, step))
  {
    hide Inv, Parts, ConsumerStep, ProducerStep, Sendable, MessageFrames, Idx;
    if step.Consume? {
      ConsumerKeepsClean(config, s);
    } else if step.Produce? && step.p in s.producers && s.producers[step.p].alive {
      ProducerKeepsClean(config, s, step.p, step.retry);
    }
  }

  lemma {:induction false} RunKeepsClean(config: Config, s: State, run: seq<Step>)
    requires Inv(config, s) && Clean(config, s)
    ensures Clean(config, Exec(config, s, run))
    decreases |run|
  {
    hide Inv, Parts, Apply, Clean;
    SlotCount(config, s);
    if run != [] {
      StepKeepsClean(config, s, run[0]);
      ApplyKeeps(config, s, run[0]);
      RunKeepsClean(config, Apply(config, s, run[0]), run[1..]);
    }
  }

  /** In every reachable state a FREE slot has a reset header and a cleared payload. */
  lemma FreeIsEmpty(config: Config, s: State)
    requires Reachable(config, s)
    ensures |s.slots| == config.capacity > 0
    ensures forall i :: 0 <= i < |s.slots| && s.slots[i].state.Free? ==> s.slots[i] == EMPTY_SLOT
  {
    hide Inv, Parts, Exec;
    var s0: State, run: seq<Step> :| Init(config, s0) && s == Exec(config, s0, run);
    InitHolds(config, s0);
    RunKeepsClean(config, s0, run);
  }

  /** In every reachable state a PINNED slot carries no writer's identity. */
  lemma PinnedIsUnstamped(config: Config, s: State)
    requires Reachable(config, s)
    ensures |s.slots| == config.capacity > 0
    ensures forall i :: 0 <= i < |s.slots| && s.slots[i].state.Pinned? ==> s.slots[i].writer.None?
  {
    hide Inv, Parts, Exec;
    var s0: State, run: seq<Step> :| Init(config, s0) && s == Exec(config, s0, run);
    InitHolds(config, s0);
    RunKeepsClean(config, s0, run);
  }
}
