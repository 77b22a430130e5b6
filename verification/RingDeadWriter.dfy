/**
 * What becomes of a multi-producer ring whose tail stands on the reservation of a crashed producer.
 *
 * The reclaim at the gate reads the first slot of the reservation: a WRITING header names its writer and its
 * extent, and the tail is moved past it. A producer that crashes between its compare-and-swap of the head and
 * its first header leaves that slot FREE, and then nothing ever moves the tail.
 */
module RingDeadWriter {
  import opened Chunking
  import opened ChunkingProofs
  import opened Cursors
  import opened Ring
  import opened RingInvariant
  import opened RingProducer
  import opened RingClaim
  import opened RingConsumer
  import opened RingReclaim
  import opened RingHistory
  import opened RingRuns
  import opened RingTheorems
  import opened RingProgress
  import RingGrace

  /** The tail stands on the first slot of a reservation whose writer is gone and has committed none of it. */
  ghost predicate DeadAhead(config: Config, s: State) {
    && config.multiProducer
    && CurrentOk(config, s.log, s.done)
    && s.tail == s.log[s.done].start
    && Gone(s, s.log[s.done].owner)
    && forall c :: 0 <= c < |s.cells| && s.cells[c].entry == s.done ==> s.cells[c].stage != Done
  }

  /** The tail has moved past the reservation it stood on in `s`, which is given up. */
  ghost predicate Passed(config: Config, s: State, t: State)
    requires CurrentOk(config, s.log, s.done)
  {
    && s.tail + Len(config, s.log[s.done]) <= t.tail
    && s.done < t.done
    && s.done < |t.log| && t.log[s.done].dead
  }

  // ---- What the other processes leave alone ----

  /** A write changes one cell, of a reservation of its own producer, that was not committed yet. */
  lemma WriteTouches(config: Config, s: State, p: nat)
    requires Inv(config, s)
    requires p in s.producers && s.producers[p].alive && s.producers[p].pc.WriteSlot?
    ensures |s.slots| == config.capacity > 0
    ensures var t, e := WriteStep(config, s, p), s.producers[p].pc.entry;
            && e < |s.log| && s.log[e].owner == p
            && |t.cells| == |s.cells|
            && forall c :: 0 <= c < |s.cells| && (s.cells[c].entry != e || s.cells[c].stage == Done) ==>
                 t.cells[c] == s.cells[c]
  {
    hide Inv, Parts, Sendable, MessageFrames, Idx;
    SlotCount(config, s);
    WriterCursor(config, s, p);
    WriterIsWriting(config, s, p);
  }

  /** Whatever is not a step of the consumer leaves the dead writer's cells, and every committed cell, as they are. */
  lemma OthersTouch(config: Config, s: State, step: Step)
    requires Inv(config, s) && !step.Consume?
    ensures |s.slots| == config.capacity > 0
    ensures var t := Apply(config, s, step);
            && t.tail == s.tail && t.done == s.done && t.delivered == s.delivered
            && (t.consumer == s.consumer
                || (s.consumer.pc.Resting? && (t.consumer.pc.SeeHead? || t.consumer.pc.ReleaseCheck?)))
            && |s.log| <= |t.log| && (forall i :: 0 <= i < |s.log| ==> t.log[i] == s.log[i])
            && |s.cells| <= |t.cells|
            && (forall p :: Gone(s, p) ==> Gone(t, p))
            && (forall c :: 0 <= c < |s.cells| && s.cells[c].stage == Done ==> t.cells[c] == s.cells[c])
            && (forall c :: 0 <= c < |s.cells| && s.cells[c].entry < |s.log|
                            && Gone(s, s.log[s.cells[c].entry].owner) ==>
                  t.cells[c] == s.cells[c])
  {
    hide Inv, Parts, Sendable, MessageFrames, WriteStep, ConsumerStep;
    SlotCount(config, s);
    if step.Produce? && step.p in s.producers && s.producers[step.p].alive {
      StepByProducer(config, s, step.p, step.retry);
      if s.producers[step.p].pc.WriteSlot? {
        WriteTouches(config, s, step.p);
      } else {
        ReserveAppends(config, s, step.p, step.retry);
      }
    }
  }

  lemma ReserveAppends(config: Config, s: State, p: nat, retry: bool)
    requires config.capacity == |s.slots| > 0
    requires p in s.producers && !s.producers[p].pc.WriteSlot?
    ensures s.cells <= ProducerStep(config, s, p, retry).cells
  {
    hide Sendable, MessageFrames, GuardLen, Consistent;
  }

  // ---- An unmarked reservation wedges the ring ----

  /** The dead writer's first slot was never marked, and no reclaim is past its look at that slot. */
  ghost predicate Wedged(config: Config, s: State) {
    && Inv(config, s)
    && config.multiProducer
    && CurrentOk(config, s.log, s.done)
    && s.tail == s.log[s.done].start < |s.cells|
    && Gone(s, s.log[s.done].owner)
    && s.cells[s.tail].entry == s.done && s.cells[s.tail].stage == Reserved
    && !s.consumer.pc.ReclaimVerify? && !Reclaiming(s.consumer.pc)
  }

  lemma WedgedSlot(config: Config, s: State)
    requires Wedged(config, s)
    ensures |s.slots| == config.capacity > 0
    ensures At(config, s, s.tail).state.Free?
    ensures HoldOf(s.consumer.pc).NoHold? || HoldOf(s.consumer.pc).Releasing?
  {
    hide Inv, Parts, Sendable, MessageFrames, Idx, AfterOk;
    InvConsumer(config, s);
    InvCursors(config, s);
    SlotAt(config, s, s.tail);
    InvFloor(config, s);
  }

  /** Where the consumer can stand: at rest, before a look at the tail slot, or releasing a view. */
  predicate Outside(c: Consumer, tail: nat) {
    match c.pc
    case Resting => true
    case SeeHead(_) => true
    case SeeTail(_, _) => true
    case SeeFloor(_) => true
    case Gate(_, _) => c.tailSeen == tail
    case ReclaimRead(_) => c.tailSeen == tail
    case ReleaseCheck(_) => true
    case ReleaseClear(_) => true
    case ReleaseFree(_) => true
    case UnpinFloor(_) => true
    case UnpinTail(_, _) => true
    case UnpinScan(_, _, _) => true
    case UnpinCas(_, _) => true
    case _ => false
  }

  lemma WedgedOutside(config: Config, s: State)
    requires Wedged(config, s)
    ensures Outside(s.consumer, s.tail)
  {
    hide Inv, Parts, Sendable, MessageFrames, AfterOk;
    InvConsumer(config, s);
  }

  /** The step moves neither the tail nor the history, and starts no reclaim. */
  predicate Idles(s: State, t: State) {
    && t.tail == s.tail && t.done == s.done && t.delivered == s.delivered
    && t.log == s.log && t.cells == s.cells && t.producers == s.producers
    && !t.consumer.pc.ReclaimVerify? && !Reclaiming(t.consumer.pc)
  }

  lemma LookIdles(config: Config, s: State)
    requires config.capacity == |s.slots| > 0
    requires Outside(s.consumer, s.tail)
    ensures Idles(s, RefreshStep(config, s)) || s.consumer.pc.ReclaimRead?
    ensures Idles(s, GateStep(config, s)) || s.consumer.pc.ReclaimRead?
    ensures s.consumer.pc.ReclaimRead? && At(config, s, s.tail).state.Free? ==> Idles(s, ReclaimStep(config, s))
  {
    hide Idx, Consistent;
  }

  lemma ReleaseIdles(config: Config, s: State)
    requires config.capacity == |s.slots| > 0
    requires s.consumer.pc.ReleaseCheck? || s.consumer.pc.ReleaseClear? || s.consumer.pc.ReleaseFree?
    ensures Idles(s, ReleaseStep(config, s))
  {
    hide Idx;
  }

  lemma UnpinIdles(config: Config, s: State)
    requires config.capacity == |s.slots| > 0
    requires s.consumer.pc.UnpinFloor? || s.consumer.pc.UnpinTail? || s.consumer.pc.UnpinScan?
             || s.consumer.pc.UnpinCas?
    ensures Idles(s, UnpinStep(config, s))
  {
    hide Idx;
  }

  /** No such consumer moves the tail or starts a reclaim while the tail slot is free. */
  lemma OutsideStep(config: Config, s: State)
    requires config.capacity == |s.slots| > 0
    requires Outside(s.consumer, s.tail) && At(config, s, s.tail).state.Free?
    ensures Idles(s, ConsumerStep(config, s))
  {
    hide Idles, RefreshStep, GateStep, ReleaseStep, UnpinStep, ReclaimStep, CopyStep, ViewStep;
    LookIdles(config, s);
    var pc := s.consumer.pc;
    if pc.ReleaseCheck? || pc.ReleaseClear? || pc.ReleaseFree? {
      ReleaseIdles(config, s);
    } else if pc.UnpinFloor? || pc.UnpinTail? || pc.UnpinScan? || pc.UnpinCas? {
      UnpinIdles(config, s);
    } else if pc.Resting? {
      RestIdles(s);
    }
  }

  lemma RestIdles(s: State)
    requires s.consumer.pc.Resting?
    ensures Idles(s, s)
  {
  }

  lemma StepWedged(config: Config, s: State, step: Step)
    requires Wedged(config, s)
    ensures |s.slots| == config.capacity > 0
    ensures var t := Apply(config, s, step);
            Wedged(config, t) && t.tail == s.tail && t.done == s.done && t.delivered == s.delivered
  {
    hide Inv, Parts, Sendable, MessageFrames, Idx, ConsumerStep, ProducerStep;
    WedgedSlot(config, s);
    WedgedOutside(config, s);
    ApplyKeeps(config, s, step);
    if step.Consume? {
      OutsideStep(config, s);
    } else {
      OthersTouch(config, s, step);
    }
  }

  lemma {:induction false} RunWedged(config: Config, s: State, run: seq<Step>)
    requires Wedged(config, s)
    ensures |s.slots| == config.capacity > 0
    ensures var t := Exec(config, s, run);
            Wedged(config, t) && t.tail == s.tail && t.done == s.done && t.delivered == s.delivered
    decreases |run|
  {
    hide Wedged, Apply;
    WedgedSlot(config, s);
    if run != [] {
      StepWedged(config, s, run[0]);
      RunWedged(config, Apply(config, s, run[0]), run[1..]);
    }
  }

  // ---- A marked reservation is reclaimed ----

  /** The dead writer's first slot carries its header. */
  predicate TailMarked(s: State) {
    s.tail < |s.cells| && (s.cells[s.tail].stage == Marked || s.cells[s.tail].stage == Filled)
  }

  /** A receive on its way to pass the reservation at the tail, which claims `len` slots. */
  ghost predicate Coming(config: Config, s: State, len: nat) {
    && Inv(config, s)
    && config.multiProducer
    && s.done < |s.log| && Sendable(config, s.log[s.done].message) && len == Len(config, s.log[s.done])
    && s.tail == s.log[s.done].start
    && Gone(s, s.log[s.done].owner)
    && match s.consumer.pc
       case SeeHead(_) => TailMarked(s)
       case SeeTail(_, _) => TailMarked(s) && s.consumer.headSeen >= s.tail + len
       case SeeFloor(_) => TailMarked(s) && s.consumer.headSeen >= s.tail + len
       case Gate(_, mayReclaim) => mayReclaim && TailMarked(s) && s.consumer.headSeen >= s.tail + len
       case ReclaimRead(_) => TailMarked(s) && s.consumer.headSeen >= s.tail + len
       case ReclaimVerify(_, _, extent, _) => extent == len
       case ReclaimFree(_, extent, _) => extent == len
       case ReclaimCas(_, extent) => extent == len
       case _ => false
  }

  /** The steps such a receive still has to take: every slot is looked at once and freed once. */
  function StepsLeft(pc: Receiving, len: nat): int {
    match pc
    case SeeHead(_) => 2 * len + 8
    case SeeTail(_, _) => 2 * len + 7
    case SeeFloor(_) => 2 * len + 6
    case Gate(_, _) => 2 * len + 5
    case ReclaimRead(_) => 2 * len + 4
    case ReclaimVerify(_, _, _, j) => 2 * len + 3 - j
    case ReclaimFree(_, _, j) => len + 2 - j
    case ReclaimCas(_, _) => 1
    case _ => 0
  }

  /** What the receive is for. */
  function OpOf(pc: Receiving): Op {
    match pc
    case SeeHead(op) => op
    case SeeTail(op, _) => op
    case SeeFloor(op) => op
    case Gate(op, _) => op
    case ReclaimRead(op) => op
    case ReclaimVerify(op, _, _, _) => op
    case ReclaimFree(op, _, _) => op
    case ReclaimCas(op, _) => op
    case _ => Copy
  }

  /** The next slot the reclaim looks at is free, or written by the dead writer. */
  lemma VerifyPasses(config: Config, s: State)
    requires Inv(config, s)
    requires s.consumer.pc.ReclaimVerify? && s.consumer.pc.j < s.consumer.pc.extent
    ensures |s.slots| == config.capacity > 0
    ensures ReclaimStep(config, s)
         == SetPc(s, ReclaimVerify(s.consumer.pc.op, s.consumer.pc.pid, s.consumer.pc.extent, s.consumer.pc.j + 1))
  {
    hide Inv, Parts, Sendable, MessageFrames, Idx, DataOk, HeaderOk;
    SlotCount(config, s);
    InvConsumer(config, s);
    DeadStages(config, s);
    InvCells(config, s);
    InvCursors(config, s);
    var c := s.tail + s.consumer.pc.j;
    SlotAt(config, s, c);
  }

  /** The reclaim recognises a marked tail slot as the dead writer's. */
  lemma ReadRecognises(config: Config, s: State, len: nat)
    requires Coming(config, s, len)
    requires s.consumer.pc.ReclaimRead?
    ensures |s.slots| == config.capacity > 0
    ensures ReclaimStep(config, s) == SetPc(s, ReclaimVerify(s.consumer.pc.op, s.log[s.done].owner, len, 0))
  {
    hide Inv, Parts, Sendable, MessageFrames, Idx, Gone;
    SlotCount(config, s);
    MarkedSlot(config, s);
    TailStamp(config, s);
    InvConsumer(config, s);
  }

  lemma MarkedSlot(config: Config, s: State)
    requires Inv(config, s) && TailMarked(s)
    ensures |s.slots| == config.capacity > 0 && At(config, s, s.tail).state.Writing?
  {
    hide Inv, Parts, Sendable, MessageFrames, Idx, DataOk, HeaderOk, StampOk;
    InvCursors(config, s);
    SlotAt(config, s, s.tail);
  }

  /** The reclaim has moved the tail past the reservation and stands at the gate again. */
  ghost predicate JustPassed(config: Config, s: State, t: State, len: nat) {
    && s.done < |s.log|
    && t.tail == s.tail + len && t.done == s.done + 1 && t.delivered == s.delivered
    && t.consumer.pc == Gate(OpOf(s.consumer.pc), false) && t.consumer.tailSeen == t.tail
    && t.log == s.log && s.log[s.done].dead
    && t.cells == s.cells
  }

  /** One step of the way there: nothing but the dead reservation changes. */
  ghost predicate OneCloser(config: Config, s: State, t: State, len: nat) {
    && Coming(config, t, len)
    && StepsLeft(t.consumer.pc, len) < StepsLeft(s.consumer.pc, len)
    && OpOf(t.consumer.pc) == OpOf(s.consumer.pc)
    && t.tail == s.tail && t.done == s.done && t.delivered == s.delivered
    && |t.log| == |s.log| && (forall i :: 0 <= i < |s.log| && i != s.done ==> t.log[i] == s.log[i])
    && |t.cells| == |s.cells| && (forall c :: s.tail + len <= c < |s.cells| ==> t.cells[c] == s.cells[c])
  }

  lemma LookCloser(config: Config, s: State, len: nat)
    requires Coming(config, s, len)
    requires s.consumer.pc.SeeHead? || s.consumer.pc.SeeTail? || s.consumer.pc.SeeFloor? || s.consumer.pc.Gate?
    ensures |s.slots| == config.capacity > 0
    ensures OneCloser(config, s, ConsumerStep(config, s), len)
  {
    hide Inv, Parts, Sendable, MessageFrames, Idx, LogOk;
    SlotCount(config, s);
    InvConsumer(config, s);
    InvMessages(config, s);
    TailClaims(config, s);
    MarkedSlot(config, s);
    ConsumerStepKeeps(config, s);
  }

  lemma TailClaims(config: Config, s: State)
    requires Inv(config, s)
    requires s.done < |s.log| && Sendable(config, s.log[s.done].message)
    ensures s.log[s.done].start + Len(config, s.log[s.done]) <= |s.cells|
    ensures config.multiProducer ==> s.head == |s.cells|
  {
    hide Inv, Parts, Sendable, MessageFrames;
    InvMessages(config, s);
    InvCursors(config, s);
  }

  lemma VerifyCloser(config: Config, s: State, len: nat)
    requires Coming(config, s, len)
    requires s.consumer.pc.ReclaimRead? || s.consumer.pc.ReclaimVerify?
    ensures |s.slots| == config.capacity > 0
    ensures OneCloser(config, s, ConsumerStep(config, s), len)
  {
    hide Inv, Parts, Sendable, MessageFrames, Idx, RefreshStep, GateStep, CopyStep, ViewStep, ReleaseStep, UnpinStep;
    SlotCount(config, s);
    ConsumerStepKeeps(config, s);
    InvConsumer(config, s);
    if s.consumer.pc.ReclaimRead? {
      ReadRecognises(config, s, len);
    } else if s.consumer.pc.j < s.consumer.pc.extent {
      VerifyPasses(config, s);
    }
  }

  lemma FreeCloser(config: Config, s: State, len: nat)
    requires Coming(config, s, len)
    requires s.consumer.pc.ReclaimFree?
    ensures |s.slots| == config.capacity > 0
    ensures OneCloser(config, s, ConsumerStep(config, s), len)
  {
    hide Inv, Parts, Sendable, MessageFrames, Idx, RefreshStep, GateStep, CopyStep, ViewStep, ReleaseStep, UnpinStep;
    SlotCount(config, s);
    ConsumerStepKeeps(config, s);
    InvConsumer(config, s);
  }

  lemma CasPasses(config: Config, s: State, len: nat)
    requires Coming(config, s, len)
    requires s.consumer.pc.ReclaimCas?
    ensures |s.slots| == config.capacity > 0
    ensures JustPassed(config, s, ConsumerStep(config, s), len) && Inv(config, ConsumerStep(config, s))
  {
    hide Inv, Parts, Sendable, MessageFrames, Idx, RefreshStep, GateStep, CopyStep, ViewStep, ReleaseStep, UnpinStep;
    SlotCount(config, s);
    ConsumerStepKeeps(config, s);
    InvConsumer(config, s);
  }

  /** Every step of the consumer brings the reclaim closer, or moves the tail past the reservation. */
  lemma ConsumeCloser(config: Config, s: State, len: nat)
    requires Coming(config, s, len)
    ensures |s.slots| == config.capacity > 0
    ensures var t := ConsumerStep(config, s);
            if s.consumer.pc.ReclaimCas? then JustPassed(config, s, t, len) && Inv(config, t)
            else OneCloser(config, s, t, len)
  {
    hide Inv, OneCloser, JustPassed, ConsumerStep;
    var pc := s.consumer.pc;
    if pc.SeeHead? || pc.SeeTail? || pc.SeeFloor? || pc.Gate? {
      LookCloser(config, s, len);
    } else if pc.ReclaimRead? || pc.ReclaimVerify? {
      VerifyCloser(config, s, len);
    } else if pc.ReclaimFree? {
      FreeCloser(config, s, len);
    } else {
      CasPasses(config, s, len);
    }
  }

  /** The other processes neither help nor hinder it. */
  lemma OthersKeepComing(config: Config, s: State, step: Step, len: nat)
    requires Coming(config, s, len) && !step.Consume?
    ensures |s.slots| == config.capacity > 0
    ensures var t := Apply(config, s, step);
            Coming(config, t, len) && t.consumer == s.consumer && t.tail == s.tail && t.done == s.done
  {
    hide Inv, Parts, Sendable, MessageFrames, Idx, ConsumerStep, ProducerStep;
    OthersTouch(config, s, step);
    ApplyKeeps(config, s, step);
    TailIsDead(config, s);
  }

  /** The cell at the tail belongs to the reservation the tail stands on. */
  lemma TailIsDead(config: Config, s: State)
    requires Inv(config, s)
    requires s.done < |s.log| && s.tail == s.log[s.done].start
    ensures s.tail < |s.cells| && s.cells[s.tail].entry == s.done
  {
    hide Inv, Parts, Sendable, MessageFrames;
    InvMessages(config, s);
    InvCells(config, s);
    EntryAt(config, s.log, s.cells, s.done, s.tail, 0);
  }

  /** How often the consumer steps in a run. */
  function Consumes(run: seq<Step>): nat {
    if run == [] then 0 else (if run[0].Consume? then 1 else 0) + Consumes(run[1..])
  }

  lemma StepsRemain(config: Config, s: State, len: nat)
    requires Coming(config, s, len)
    ensures StepsLeft(s.consumer.pc, len) > 0
  {
    hide Inv, Parts, Sendable, MessageFrames;
    InvConsumer(config, s);
  }

  /** Whatever the others do meanwhile, the reservation has been passed once the consumer has stepped that often. */
  lemma {:induction false} RunPasses(config: Config, s: State, len: nat, run: seq<Step>)
    requires Coming(config, s, len)
    requires Consumes(run) >= StepsLeft(s.consumer.pc, len)
    ensures |s.slots| == config.capacity > 0
    ensures var t := Exec(config, s, run);
            s.tail + len <= t.tail && s.done < t.done && s.done < |t.log| && t.log[s.done].dead
    decreases |run|
  {
    hide Inv, Coming, ConsumerStep, ProducerStep, StepsLeft;
    StepsRemain(config, s, len);
    ComingCount(config, s, len);
    var u := Apply(config, s, run[0]);
    if run[0].Consume? {
      ConsumeCloser(config, s, len);
      if s.consumer.pc.ReclaimCas? {
        RunGrows(config, u, run[1..]);
      } else {
        RunPasses(config, u, len, run[1..]);
      }
    } else {
      OthersKeepComing(config, s, run[0], len);
      RunPasses(config, u, len, run[1..]);
    }
  }

  lemma ComingCount(config: Config, s: State, len: nat)
    requires Coming(config, s, len)
    ensures |s.slots| == config.capacity > 0
  {
    hide Inv;
    SlotCount(config, s);
  }

  // ---- Exactly when a dead reservation is passed ----

  /** The slot at the tail shows whether the dead writer has marked it. */
  lemma DeadSlot(config: Config, s: State)
    requires Inv(config, s) && DeadAhead(config, s)
    requires s.consumer.pc.Resting?
    ensures |s.slots| == config.capacity > 0
    ensures At(config, s, s.tail).state.Writing? ==> TailMarked(s)
    ensures !At(config, s, s.tail).state.Writing? ==> Wedged(config, s)
  {
    hide Inv, Parts, Sendable, MessageFrames, Idx, DataOk, HeaderOk, StampOk, Gone;
    SlotCount(config, s);
    InvCursors(config, s);
    TailIsDead(config, s);
    SlotAt(config, s, s.tail);
  }

  lemma BeginsComing(config: Config, s: State, op: Op)
    requires Inv(config, s) && DeadAhead(config, s)
    requires s.consumer.pc.Resting? && TailMarked(s)
    ensures Coming(config, SetPc(s, SeeHead(op)), Len(config, s.log[s.done]))
  {
    hide Inv, Sendable, MessageFrames;
    StartKeeps(config, s, SeeHead(op));
  }

  /** The steps a receive needs at most to pass the reservation at the tail. */
  function Enough(config: Config, s: State): nat
    requires CurrentOk(config, s.log, s.done)
  {
    2 * Len(config, s.log[s.done]) + 8
  }

  /**
   * A receive that begins while the tail stands on a reservation whose writer crashed with nothing
   * committed passes it, gives it up, and needs no more than a fixed number of its own steps, whatever the
   * other processes do meanwhile, if the dead writer has marked its first slot WRITING.
   */
  lemma MarkedIsPassed(config: Config, s: State, op: Op, run: seq<Step>)
    requires Reachable(config, s)
    requires s.consumer.pc.Resting? && DeadAhead(config, s)
    requires |s.slots| == config.capacity > 0 && At(config, s, s.tail).state.Writing?
    requires Consumes(run) >= Enough(config, s)
    ensures Passed(config, s, Exec(config, s, [BeginReceive(op)] + run))
  {
    hide Inv, Reachable, Apply, Consumes, Sendable, MessageFrames;
    ReachableInv(config, s);
    DeadSlot(config, s);
    BeginsComing(config, s, op);
    var u := SetPc(s, SeeHead(op));
    RunPasses(config, u, Len(config, s.log[s.done]), run);
    BeginThen(config, s, op, run);
  }

  lemma BeginThen(config: Config, s: State, op: Op, run: seq<Step>)
    requires config.capacity == |s.slots| > 0
    requires s.consumer.pc.Resting?
    ensures Exec(config, s, [BeginReceive(op)] + run) == Exec(config, SetPc(s, SeeHead(op)), run)
  {
    assert ([BeginReceive(op)] + run)[1..] == run;
  }

  /**
   * If the dead writer never marked its first slot, the ring is wedged: on every later run, whatever
   * receives, releases and producers do, the tail stays where it is, nothing is delivered, and the slot at
   * the tail stays FREE.
   */
  lemma UnmarkedWedges(config: Config, s: State, run: seq<Step>)
    requires Reachable(config, s)
    requires s.consumer.pc.Resting? && DeadAhead(config, s)
    requires |s.slots| == config.capacity > 0 && !At(config, s, s.tail).state.Writing?
    ensures var t := Exec(config, s, run);
            && t.tail == s.tail && t.done == s.done && t.delivered == s.delivered
            && At(config, t, t.tail).state.Free?
  {
    hide Inv, Reachable, Exec;
    ReachableInv(config, s);
    DeadSlot(config, s);
    RunWedged(config, s, run);
    WedgedSlot(config, Exec(config, s, run));
  }

  /** Some run passes the reservation at the tail. */
  ghost predicate CanPass(config: Config, s: State)
    requires |s.slots| == config.capacity > 0 && CurrentOk(config, s.log, s.done)
  {
    exists run :: Passed(config, s, Exec(config, s, run))
  }

  /** Every receive passes it within a fixed number of the consumer's own steps, on every interleaving. */
  ghost predicate MustPass(config: Config, s: State, op: Op)
    requires |s.slots| == config.capacity > 0 && CurrentOk(config, s.log, s.done)
  {
    forall run :: Consumes(run) >= Enough(config, s) ==> Passed(config, s, Exec(config, s, [BeginReceive(op)] + run))
  }

  /**
   * When the tail stands on the reservation of a writer that is gone with nothing committed, every receive
   * passes it after finitely many steps of its own if and only if the first slot is WRITING; and if it is
   * not, no run passes it at all.
   */
  lemma ReclaimedExactly(config: Config, s: State, op: Op)
    requires Reachable(config, s)
    requires s.consumer.pc.Resting? && DeadAhead(config, s)
    ensures |s.slots| == config.capacity > 0
    ensures MustPass(config, s, op) <==> At(config, s, s.tail).state.Writing?
    ensures CanPass(config, s) <==> At(config, s, s.tail).state.Writing?
  {
    hide Reachable, DeadAhead, Exec, Consumes, Inv;
    ReachableInv(config, s);
    DeadIsCurrent(config, s);
    var steps := Consuming(Enough(config, s));
    ConsumingConsumes(Enough(config, s));
    var run := [BeginReceive(op)] + steps;
    if At(config, s, s.tail).state.Writing? {
      forall others | Consumes(others) >= Enough(config, s)
        ensures Passed(config, s, Exec(config, s, [BeginReceive(op)] + others))
      {
        MarkedIsPassed(config, s, op, others);
      }
      assert Passed(config, s, Exec(config, s, run));
    } else {
      forall others
        ensures !Passed(config, s, Exec(config, s, others))
      {
        UnmarkedWedges(config, s, others);
      }
      assert !Passed(config, s, Exec(config, s, run));
    }
  }

  lemma DeadIsCurrent(config: Config, s: State)
    requires DeadAhead(config, s)
    ensures CurrentOk(config, s.log, s.done)
  {
  }

  lemma {:induction false} ConsumingConsumes(n: nat)
    ensures Consumes(Consuming(n)) == n
  {
    if n > 0 {
      assert Consuming(n)[1..] == Consuming(n - 1);
      ConsumingConsumes(n - 1);
    }
  }

  // ---- The message behind a dead reservation ----

  /** The reservation behind the one at the tail is live and fully committed. */
  ghost predicate NextReady(config: Config, s: State, m: Message) {
    && CurrentOk(config, s.log, s.done + 1)
    && m == s.log[s.done + 1].message
    && forall c :: 0 <= c < |s.cells| && s.cells[c].entry == s.done + 1 ==> s.cells[c].stage == Done
  }

  lemma {:induction false} ExecSplit(config: Config, s: State, run: seq<Step>, rest: seq<Step>)
    requires config.capacity == |s.slots| > 0
    ensures Exec(config, s, run + rest) == Exec(config, Exec(config, s, run), rest)
    decreases |run|
  {
    hide Apply;
    if run == [] {
      assert run + rest == rest;
    } else {
      assert (run + rest)[1..] == run[1..] + rest;
      ExecSplit(config, Apply(config, s, run[0]), run[1..], rest);
    }
  }

  /** On its own the consumer comes back to the gate, now behind the reservation. */
  lemma {:induction false} BackAtGate(config: Config, s: State, len: nat, m: Message) returns (n: nat)
    requires Coming(config, s, len) && NextReady(config, s, m)
    ensures |s.slots| == config.capacity > 0
    ensures var t := Exec(config, s, Consuming(n));
            && Inv(config, t) && t.consumer.pc == Gate(OpOf(s.consumer.pc), false)
            && t.done == s.done + 1 && t.delivered == s.delivered && Ready(config, t, m)
    decreases StepsLeft(s.consumer.pc, len)
  {
    hide Inv, Coming, ConsumerStep, StepsLeft, Ready;
    StepsRemain(config, s, len);
    ComingCount(config, s, len);
    ConsumeCloser(config, s, len);
    var t := ConsumerStep(config, s);
    if s.consumer.pc.ReclaimCas? {
      n := 1;
      NextIsReady(config, s, len, m);
      assert Consuming(1)[1..] == [];
      assert Exec(config, s, Consuming(1)) == Exec(config, t, []);
    } else {
      StepsRemain(config, t, len);
      StaysReady(config, s, t, len, m);
      var k := BackAtGate(config, t, len, m);
      n := k + 1;
      assert Consuming(n)[1..] == Consuming(k);
      assert Exec(config, s, Consuming(n)) == Exec(config, t, Consuming(k));
    }
  }

  lemma StaysReady(config: Config, s: State, t: State, len: nat, m: Message)
    requires Coming(config, s, len) && NextReady(config, s, m)
    requires OneCloser(config, s, t, len)
    ensures NextReady(config, t, m)
  {
    hide Inv, Sendable, MessageFrames;
    CellsBehind(config, s, len);
    CellsBehind(config, t, len);
  }

  /** The cells of the next reservation start where the one at the tail ends. */
  lemma CellsBehind(config: Config, s: State, len: nat)
    requires Coming(config, s, len)
    ensures forall c :: 0 <= c < |s.cells| && s.cells[c].entry == s.done + 1 ==> c >= s.tail + len
    ensures s.done + 1 < |s.log| ==> s.log[s.done + 1].start == s.tail + len
    ensures forall c :: 0 <= c < |s.cells| ==> CellOk(config, s.log, s.cells, c)
  {
    hide Inv, Parts, Sendable, MessageFrames, LogOk;
    InvMessages(config, s);
    InvCells(config, s);
    LogStep(config, s.log, |s.cells|, s.done);
    hide CellsOk;
    forall c | 0 <= c < |s.cells| && s.cells[c].entry == s.done + 1
      ensures c >= s.tail + len
    {
      assert CellOk(config, s.log, s.cells, c);
    }
  }

  lemma NextIsReady(config: Config, s: State, len: nat, m: Message)
    requires Coming(config, s, len) && NextReady(config, s, m)
    requires JustPassed(config, s, ConsumerStep(config, s), len)
    ensures Ready(config, ConsumerStep(config, s), m)
  {
    hide Inv, Sendable, MessageFrames, ConsumerStep;
    CellsBehind(config, s, len);
    NextCells(config, s);
  }

  lemma NextCells(config: Config, s: State)
    requires Inv(config, s) && CurrentOk(config, s.log, s.done + 1)
    ensures var e := s.log[s.done + 1];
            && e.start + Len(config, e) <= |s.cells|
            && forall c :: e.start <= c < e.start + Len(config, e) ==> s.cells[c].entry == s.done + 1
  {
    hide Parts, Inv, Sendable, MessageFrames;
    InvMessages(config, s);
    InvCells(config, s);
  }

  /**
   * A message behind a dead reservation is not held up by it: if the dead writer has marked its first slot,
   * a receive passes the reservation and delivers the next message, once that is committed.
   */
  lemma DeliversBehindDead(config: Config, s: State, m: Message) returns (n: nat)
    requires Reachable(config, s)
    requires s.consumer.pc.Resting? && DeadAhead(config, s) && NextReady(config, s, m)
    requires |s.slots| == config.capacity > 0 && At(config, s, s.tail).state.Writing?
    ensures var t := Exec(config, s, [BeginReceive(Copy)] + Consuming(n));
            t.delivered == s.delivered + [m] && t.done == s.done + 2 && t.consumer.pc.Resting?
  {
    hide Inv, Reachable, Sendable, MessageFrames, ConsumerStep, Ready, Consuming;
    ReachableInv(config, s);
    DeadSlot(config, s);
    BeginsComing(config, s, Copy);
    var u := SetPc(s, SeeHead(Copy));
    var k := BackAtGate(config, u, Len(config, s.log[s.done]), m);
    var t := Exec(config, u, Consuming(k));
    var j := Finishes(config, t, m);
    n := k + j;
    ConsumingSplit(k, j);
    ExecSplit(config, u, Consuming(k), Consuming(j));
    BeginThen(config, s, Copy, Consuming(n));
  }

  lemma ConsumingSplit(k: nat, j: nat)
    ensures Consuming(k + j) == Consuming(k) + Consuming(j)
  {
  }

  // ---- Both cases are reached ----

  /** Producer 0 has reserved the first slots of a fresh ring and crashed, before or after it marked the first one. */
  lemma DeadWriterIsReached(config: Config, marked: bool) returns (s: State)
    requires ConfigOk(config) && config.multiProducer
    ensures Reachable(config, s) && s.consumer.pc.Resting? && DeadAhead(config, s)
    ensures |s.slots| == config.capacity > 0
    ensures At(config, s, s.tail).state.Writing? <==> marked
  {
    hide RingGrace.ReachableBy, Reachable, MessageFrames, ConsumerStep, Inv;
    s := RingGrace.Reserves(config, false, []);
    if marked {
      s := RingGrace.Go(config, false, s, Produce(0, false));
      s := RingGrace.Go(config, false, s, Produce(0, false));
    }
    s := RingGrace.Go(config, false, s, Crash(0));
    RingGrace.ByInv(config, false, s);
  }
}
