/** Zero-copy views: making one, and releasing it with the pin floor, keep the ring invariant. */
module RingView {
  import opened Errors
  import opened Chunking
  import opened ChunkingProofs
  import opened SlotStates
  import opened Cursors
  import opened Ring
  import opened RingInvariant
  import opened RingProducer
  import opened RingClaim
  import opened RingConsumer
  import opened RingReceive

  // ---- Making a view ----

  lemma ViewSlotFacts(config: Config, s: State)
    requires Inv(config, s)
    requires s.consumer.pc.ViewSlot?
    ensures |s.slots| == config.capacity > 0
    ensures s.consumer.tailSeen == s.tail && CommittedTail(s.cells, s.tail)
    ensures CurrentOk(config, s.log, s.done) && s.tail == s.log[s.done].start
    ensures var m := s.log[s.done].message;
            var seen := Viewable(config, s.consumer, s.consumer.pc.seqNo, At(config, s, s.tail).data);
            if Len(config, s.log[s.done]) == 1 then seen == Ok(m)
            else seen.Err? && seen.error.Channel? && seen.error.channel.InvalidConfig?
  {
    hide Inv, Parts, MessageFrames, Sendable, Viewable, Idx;
    InvConsumer(config, s);
    CommittedSlotAtTail(config, s, First);
    if !config.multiProducer {
      ExpectedIsCurrent(config, s);
    }
    ViewableOk(config, s.consumer, s.log[s.done].message, 0);
  }

  lemma ViewSlotKeeps(config: Config, s: State)
    requires Inv(config, s)
    requires s.consumer.pc.ViewSlot?
    ensures |s.slots| == config.capacity > 0
    ensures Inv(config, ViewStep(config, s))
  {
    hide Inv, Parts, MessageFrames, Sendable, Viewable, Idx, CommittedTail;
    ViewSlotFacts(config, s);
    var next := ViewStep(config, s).consumer;
    InvConsumer(config, s);
    InvFloor(config, s);
    ConsumerLocalKeeps(config, s, next);
  }

  lemma ViewPinKeeps(config: Config, s: State)
    requires Inv(config, s)
    requires s.consumer.pc.ViewPin?
    ensures |s.slots| == config.capacity > 0
    ensures Inv(config, ViewStep(config, s))
  {
    hide Inv, Parts, MessageFrames, Sendable, Idx, SlotsOk, SlotOk, ConsumerOk, PinsOk, FloorOk, ConsumedOk,
         DeliveredOk,
         CommittedTail, CurrentOk;
    SlotCount(config, s);
    ViewPinFacts(config, s);
    InvSlots(config, s);
    InvConsumed(config, s);
    InvDelivered(config, s);
    TailInWindow(config, s);
    var pinned := At(config, s, s.tail).(state := Pinned, writer := None);
    SlotsReplace(config, s.slots, s.log, s.cells, s.tail, s.pins, NoHold,
                 s.tail, s.pins + {s.tail}, Reading(true), s.tail, pinned);
    ConsumerMoves(config, s, ViewStep(config, s));
  }

  lemma ViewPinFacts(config: Config, s: State)
    requires Inv(config, s)
    requires s.consumer.pc.ViewPin?
    ensures |s.slots| == config.capacity > 0
    ensures s.consumer.tailSeen == s.tail && CommittedTail(s.cells, s.tail) && s.tail !in s.pins
    ensures SlotOk(config, s.log, s.cells, s.tail, s.pins + {s.tail}, Reading(true), s.tail,
                   At(config, s, s.tail).(state := Pinned, writer := None))
    ensures var next := s.consumer.(pc := ViewFloor(s.consumer.pc.message));
            && ConsumerOk(config, next, s.log, s.cells, s.producers, s.tail, s.done)
            && FloorOk(config, s.floor, s.pins + {s.tail}, s.tail, next.pc)
            && PinsOk(config, s.pins + {s.tail}, s.tail, |s.cells|, next.pc)
  {
    hide Inv, Parts, MessageFrames, Sendable, Idx, StampOk, CurrentOk;
    InvConsumer(config, s);
    InvFloor(config, s);
    TailInWindow(config, s);
    SlotAt(config, s, s.tail);
    assert s.pins + {s.tail} - {s.tail} == s.pins;
  }

  lemma ViewFloorKeeps(config: Config, s: State)
    requires Inv(config, s)
    requires s.consumer.pc.ViewFloor? || s.consumer.pc.ViewFloorCas?
    ensures |s.slots| == config.capacity > 0
    ensures Inv(config, ViewStep(config, s))
  {
    hide Inv, Parts, MessageFrames, Sendable, Idx, SlotsOk, ConsumedOk, DeliveredOk, CommittedTail, CurrentOk;
    SlotCount(config, s);
    InvConsumer(config, s);
    InvFloor(config, s);
    InvSlots(config, s);
    InvConsumed(config, s);
    InvDelivered(config, s);
    var t := ViewStep(config, s);
    assert FloorOk(config, t.floor, t.pins, t.tail, t.consumer.pc) by {
      FloorLowered(s.floor, s.pins, s.tail);
    }
    ConsumerMoves(config, s, t);
  }

  /** `floor_min` leaves the least pinned cursor in the floor word. */
  lemma FloorLowered(floor: Option<nat>, pins: set<nat>, tail: nat)
    requires tail in pins && forall c :: c in pins ==> c <= tail
    requires IsFloor(floor, pins - {tail})
    ensures floor.Some? ==> floor.value <= tail && IsFloor(floor, pins)
    ensures floor.None? ==> IsFloor(Some(tail), pins)
  {
    forall c | c in pins
      ensures c == tail || c in pins - {tail}
    {
    }
  }

  lemma ViewAdvanceKeeps(config: Config, s: State)
    requires Inv(config, s)
    requires s.consumer.pc.ViewAdvance?
    ensures |s.slots| == config.capacity > 0
    ensures Inv(config, ViewStep(config, s))
  {
    hide Inv, Parts, MessageFrames, Sendable, CurrentOk, Finish, AdvanceTail, Idx;
    SlotCount(config, s);
    InvConsumer(config, s);
    FinishKeeps(config, s, s.consumer.pc.message);
  }

  // ---- Releasing a view ----

  /** A pinned cursor's slot is PINNED, and unless it is being cleared it carries its frame. */
  lemma PinnedSlot(config: Config, s: State, c: nat)
    requires Inv(config, s)
    requires c in s.pins
    ensures |s.slots| == config.capacity > 0
    ensures |s.cells| - config.capacity <= c < |s.cells|
    ensures At(config, s, c).state == Pinned
    ensures HoldOf(s.consumer.pc) != Releasing(c) ==> DataOk(config, s.log, s.cells, c, At(config, s, c))
    ensures c < s.tail || PinningTail(s.consumer.pc)
  {
    hide Inv, Parts, MessageFrames, Sendable, Idx, DataOk, HeaderOk, StampOk;
    InvFloor(config, s);
    SlotAt(config, s, c);
    if c == s.tail {
      InvConsumer(config, s);
    }
  }

  lemma ReleaseCheckKeeps(config: Config, s: State)
    requires Inv(config, s)
    requires s.consumer.pc.ReleaseCheck?
    ensures |s.slots| == config.capacity > 0
    ensures Inv(config, ReleaseStep(config, s))
  {
    hide Inv, Parts, MessageFrames, Sendable, Idx, DataOk;
    InvFloor(config, s);
    PinnedSlot(config, s, s.consumer.pc.cursor);
    InvConsumer(config, s);
    ConsumerLocalKeeps(config, s, s.consumer.(pc := ReleaseClear(s.consumer.pc.cursor)));
  }

  lemma ReleaseWriteKeeps(config: Config, s: State, c: nat, slot: Slot, pins: set<nat>, pc: Receiving)
    requires Inv(config, s)
    requires c in s.pins && c < s.tail
    requires (s.consumer.pc == ReleaseClear(c) && pc == ReleaseFree(c) && pins == s.pins && slot.state == Pinned)
          || (s.consumer.pc == ReleaseFree(c) && pc == UnpinFloor(c) && pins == s.pins - {c} && slot.state == Free)
    ensures |s.slots| == config.capacity > 0
    ensures Inv(config, SetPc(SetSlot(config, s, c, slot).(pins := pins), pc))
  {
    hide Inv, Parts, MessageFrames, Sendable, Idx, SlotsOk, ConsumedOk, DeliveredOk, CommittedTail, CurrentOk, DataOk;
    SlotCount(config, s);
    InvFloor(config, s);
    InvSlots(config, s);
    InvConsumed(config, s);
    InvDelivered(config, s);
    InvConsumer(config, s);
    InvCursors(config, s);
    SlotsReplace(config, s.slots, s.log, s.cells, s.tail, s.pins, HoldOf(s.consumer.pc),
                 s.tail, pins, HoldOf(pc), c, slot);
    assert pc.UnpinFloor? ==> pins + {c} == s.pins;
    ConsumerMoves(config, s, SetPc(SetSlot(config, s, c, slot).(pins := pins), pc));
  }

  lemma ReleaseKeeps(config: Config, s: State)
    requires Inv(config, s)
    requires s.consumer.pc.ReleaseCheck? || s.consumer.pc.ReleaseClear? || s.consumer.pc.ReleaseFree?
    ensures |s.slots| == config.capacity > 0
    ensures Inv(config, ReleaseStep(config, s))
  {
    hide Inv, Parts, MessageFrames, Sendable, Idx, DataOk;
    SlotCount(config, s);
    var c := s.consumer.pc.cursor;
    if s.consumer.pc.ReleaseCheck? {
      ReleaseCheckKeeps(config, s);
    } else {
      InvFloor(config, s);
      PinnedSlot(config, s, c);
      var slot := At(config, s, c);
      if s.consumer.pc.ReleaseClear? {
        ReleaseWriteKeeps(config, s, c, slot.(data := []), s.pins, ReleaseFree(c));
      } else {
        ReleaseWriteKeeps(config, s, c, Slot(Free, 0, None, slot.data), s.pins - {c}, UnpinFloor(c));
      }
    }
  }

  // ---- The pin floor ----

  /**
   * Within one lap behind the tail, a PINNED header under the index of a cursor means that this very
   * cursor is pinned: the scan misses no pin. It takes a header for another lap's pin only when that
   * header is the tail's own, one full lap ahead, which the consumer has pinned in the middle of a receive.
   */
  lemma ScanFindsPin(config: Config, s: State, at: nat)
    requires Inv(config, s)
    requires at < s.tail <= at + config.capacity
    ensures |s.slots| == config.capacity > 0
    ensures At(config, s, at).state == Pinned
        <==> at in s.pins || (s.tail == at + config.capacity && HoldOf(s.consumer.pc).Reading?)
    ensures s.tail == at + config.capacity && HoldOf(s.consumer.pc).Reading? ==> at !in s.pins
  {
    hide Inv, Parts, MessageFrames, Sendable, Idx, DataOk, HeaderOk, StampOk;
    InvFloor(config, s);
    InvCursors(config, s);
    if HoldOf(s.consumer.pc).Reading? {
      ReadingCommitted(config, s);
    }
    if at >= |s.cells| - config.capacity {
      SlotAt(config, s, at);
    } else {
      IdxLap(at, config.capacity);
      SlotAt(config, s, at + config.capacity);
    }
  }

  lemma ReadingCommitted(config: Config, s: State)
    requires Inv(config, s)
    requires HoldOf(s.consumer.pc).Reading?
    ensures CommittedTail(s.cells, s.tail)
  {
    hide Inv, Parts, AfterOk;
    InvConsumer(config, s);
  }

  lemma UnpinLocalKeeps(config: Config, s: State, pc: Receiving)
    requires Inv(config, s)
    requires s.consumer.pc.UnpinFloor? || s.consumer.pc.UnpinTail? || s.consumer.pc.UnpinScan?
    requires pc.Resting? || pc.UnpinTail? || pc.UnpinScan? || pc.UnpinCas?
    requires FloorOk(config, s.floor, s.pins, s.tail, pc)
    ensures Inv(config, SetPc(s, pc))
  {
    hide Inv, Parts, MessageFrames, Sendable, FloorOk;
    InvConsumer(config, s);
    ConsumerLocalKeeps(config, s, s.consumer.(pc := pc));
  }

  /** What each step of recomputing the floor learns about the pins. */
  lemma UnpinFloorOk(config: Config, s: State)
    requires Inv(config, s)
    requires s.consumer.pc.UnpinFloor? || s.consumer.pc.UnpinTail? || s.consumer.pc.UnpinScan?
    ensures |s.slots| == config.capacity > 0
    ensures FloorOk(config, s.floor, s.pins, s.tail, UnpinStep(config, s).consumer.pc)
  {
    hide Inv, Parts, MessageFrames, Sendable, Idx;
    SlotCount(config, s);
    InvFloor(config, s);
    InvCursors(config, s);
    var pc := s.consumer.pc;
    if pc.UnpinFloor? {
      assert forall d :: d in s.pins ==> d in s.pins + {pc.cursor};
      assert pc.cursor in s.pins + {pc.cursor};
    } else if pc.UnpinScan? && pc.at < pc.tail {
      ScanFindsPin(config, s, pc.at);
    } else if pc.UnpinScan? {
      assert forall d :: d in s.pins ==> false;
    }
  }

  lemma UnpinCasKeeps(config: Config, s: State)
    requires Inv(config, s)
    requires s.consumer.pc.UnpinCas?
    ensures |s.slots| == config.capacity > 0
    ensures Inv(config, UnpinStep(config, s))
  {
    hide Inv, Parts, MessageFrames, Sendable, Idx, SlotsOk, ConsumedOk, DeliveredOk;
    SlotCount(config, s);
    InvFloor(config, s);
    InvSlots(config, s);
    InvConsumed(config, s);
    InvDelivered(config, s);
    InvConsumer(config, s);
    InvCursors(config, s);
    ConsumerMoves(config, s, UnpinStep(config, s));
  }

  lemma UnpinKeeps(config: Config, s: State)
    requires Inv(config, s)
    requires s.consumer.pc.UnpinFloor? || s.consumer.pc.UnpinTail? || s.consumer.pc.UnpinScan?
             || s.consumer.pc.UnpinCas?
    ensures |s.slots| == config.capacity > 0
    ensures Inv(config, UnpinStep(config, s))
  {
    hide Inv, Parts, MessageFrames, Sendable, Idx, FloorOk;
    SlotCount(config, s);
    if s.consumer.pc.UnpinCas? {
      UnpinCasKeeps(config, s);
    } else {
      UnpinFloorOk(config, s);
      UnpinLocalKeeps(config, s, UnpinStep(config, s).consumer.pc);
    }
  }
}
