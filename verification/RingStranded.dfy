/**
 * What becomes of a message when the receive that stands between its chunks gives up waiting.
 *
 * The ring's own runs wait for the next chunk. Here the bounded poll may expire instead: the receive then
 * reports an empty buffer with the tail inside the message. A later receive that meets the next chunk
 * rejects it as a first slot and frees it, without moving the tail.
 */
module RingStranded {
  import opened Errors
  import opened FrameCodec
  import opened Chunking
  import opened ChunkingProofs
  import opened SlotStates
  import opened Cursors
  import opened Ring
  import opened RingInvariant
  import opened RingProducer
  import opened RingClaim
  import opened RingConsumer
  import opened RingReceive
  import opened RingReclaim
  import opened RingHistory
  import opened RingRuns
  import opened RingTheorems
  import opened RingGrace

  // ---- Giving up, and rejecting ----

  datatype GraceStep = Plain(step: Step) | GiveUp | Reject

  /** The poll for a later chunk expires: the receive ends without the message. */
  function GivenUp(config: Config, s: State): (t: State)
    requires config.capacity == |s.slots| > 0
    ensures |t.slots| == |s.slots|
  {
    var c := s.consumer;
    if c.pc.NextChunk? && c.pc.progress.Rest? && At(config, s, c.tailSeen).state != Committed then
      s.(consumer := c.(pc := Resting, resync := false,
                        expected := if c.resync then c.pc.progress.seqNo else c.expected))
    else s
  }

  /** A rejected slot is cleared, then freed, and stays at the tail (`release_pinned` in `recv_chunked_message`). */
  function Rejected(config: Config, s: State): (t: State)
    requires config.capacity == |s.slots| > 0
    ensures |t.slots| == |s.slots|
  {
    var c := s.consumer;
    if c.pc != Broken(CorruptedMessage) then s
    else
      var slot := At(config, s, c.tailSeen);
      if slot.data != [] then SetSlot(config, s, c.tailSeen, slot.(data := []))
      else SetPc(SetSlot(config, s, c.tailSeen, Slot(Free, 0, None, [])), Resting)
  }

  function GraceApply(config: Config, s: State, step: GraceStep): (t: State)
    requires config.capacity == |s.slots| > 0
    ensures |t.slots| == |s.slots|
  {
    match step
    case Plain(step) => Apply(config, s, step)
    case GiveUp => GivenUp(config, s)
    case Reject => Rejected(config, s)
  }

  function GraceExec(config: Config, s: State, run: seq<GraceStep>): (t: State)
    requires config.capacity == |s.slots| > 0
    ensures |t.slots| == |s.slots|
    decreases |run|
  {
    if run == [] then s else GraceExec(config, GraceApply(config, s, run[0]), run[1..])
  }

  /** No view is released meanwhile. */
  predicate NoRelease(run: seq<GraceStep>) {
    forall i :: 0 <= i < |run| ==> !(run[i].Plain? && run[i].step.BeginRelease?)
  }

  // ---- The invariant ----

  /** The shared memory is that of a ring whose consumer `w` is still inside the message. */
  ghost predicate Shadowed(config: Config, s: State, w: Consumer) {
    && Inv(config, s.(consumer := w))
    && w.tailSeen == s.tail
    && s.done < |s.log| && s.log[s.done].start < s.tail
    && (w.pc.NextChunk? || w.pc.ReadSlot? || w.pc.PinSlot? || w.pc.ClearSlot? || w.pc.Advance?)
    && w.expected == s.consumer.expected
  }

  /** Where the real consumer stands, while the consumer `w` would be inside the message. */
  predicate Mirrors(config: Config, c: Consumer, w: Consumer, tail: nat, frontier: nat) {
    match c.pc
    case Resting => w.pc.NextChunk? || w.pc.Advance?
    case SeeHead(_) => w.pc.NextChunk? || w.pc.Advance?
    case SeeTail(_, head) =>
      (w.pc.NextChunk? || w.pc.Advance?) && head == c.headSeen <= frontier && tail <= head + config.capacity
    case SeeFloor(_) =>
      (w.pc.NextChunk? || w.pc.Advance?) && c.tailSeen == tail && Consistent(config, c.headSeen, c.tailSeen)
    case Gate(_, _) => (w.pc.NextChunk? || w.pc.Advance?) && c.tailSeen == tail
    case ReclaimRead(_) => (w.pc.NextChunk? || w.pc.Advance?) && c.tailSeen == tail
    case ReadSlot(progress, seqNo) =>
      w.pc.ReadSlot? && progress.First? && seqNo == w.pc.seqNo && c.tailSeen == tail
    case ViewSlot(seqNo) => w.pc.ReadSlot? && seqNo == w.pc.seqNo && c.tailSeen == tail
    case PinSlot(progress, seqNo, data) =>
      w.pc.PinSlot? && progress.First? && seqNo == w.pc.seqNo && data == w.pc.data && c.tailSeen == tail
    case Broken(error) => w.pc.ClearSlot? && error == CorruptedMessage && c.tailSeen == tail
    case _ => false
  }

  ghost predicate Stranded(config: Config, s: State, w: Consumer) {
    Shadowed(config, s, w) && Mirrors(config, s.consumer, w, s.tail, |s.cells|)
  }

  // ---- Steps of the others ----

  lemma MarkCommutes(config: Config, s: State, w: Consumer, p: nat)
    requires config.capacity == |s.slots| > 0
    requires p in s.producers && s.producers[p].pc.WriteSlot?
    requires s.producers[p].pc.phase.Check? || s.producers[p].pc.phase.Mark?
    ensures WriteStep(config, s.(consumer := w), p) == WriteStep(config, s, p).(consumer := w)
  {
    hide Sendable, MessageFrames, Idx;
  }

  lemma FillCommutes(config: Config, s: State, w: Consumer, p: nat)
    requires config.capacity == |s.slots| > 0
    requires p in s.producers && s.producers[p].pc.WriteSlot?
    requires s.producers[p].pc.phase.Fill? || s.producers[p].pc.phase.Commit?
    ensures WriteStep(config, s.(consumer := w), p) == WriteStep(config, s, p).(consumer := w)
  {
    hide Sendable, MessageFrames, Idx;
  }

  lemma WriteCommutes(config: Config, s: State, w: Consumer, p: nat)
    requires config.capacity == |s.slots| > 0
    requires p in s.producers && s.producers[p].pc.WriteSlot?
    ensures WriteStep(config, s.(consumer := w), p) == WriteStep(config, s, p).(consumer := w)
  {
    hide WriteStep;
    if s.producers[p].pc.phase.Check? || s.producers[p].pc.phase.Mark? {
      MarkCommutes(config, s, w, p);
    } else {
      FillCommutes(config, s, w, p);
    }
  }

  lemma ReserveCommutes(config: Config, s: State, w: Consumer, p: nat, retry: bool)
    requires config.capacity == |s.slots| > 0
    requires p in s.producers && s.producers[p].pc.Reserve?
    ensures TryReserve(config, s.(consumer := w), p, retry) == TryReserve(config, s, p, retry).(consumer := w)
  {
    hide Sendable, MessageFrames, GuardLen, Consistent, NewCells;
  }

  /** A producer's step does not look at the consumer. */
  lemma ProducerCommutes(config: Config, s: State, w: Consumer, p: nat, retry: bool)
    requires config.capacity == |s.slots| > 0
    requires p in s.producers
    ensures ProducerStep(config, s.(consumer := w), p, retry) == ProducerStep(config, s, p, retry).(consumer := w)
  {
    hide Sendable, MessageFrames, TryReserve, WriteStep;
    if s.producers[p].pc.WriteSlot? {
      WriteCommutes(config, s, w, p);
    } else if s.producers[p].pc.Reserve? {
      ReserveCommutes(config, s, w, p, retry);
    }
  }

  /** Whatever is not a step of the consumer keeps the message stranded where it is. */
  lemma OthersKeep(config: Config, s: State, w: Consumer, step: Step)
    requires Stranded(config, s, w)
    requires step.Join? || step.BeginSend? || step.Produce? || step.Crash?
    ensures config.capacity == |s.slots| > 0
    ensures var t := Apply(config, s, step);
            Stranded(config, t, w) && t.tail == s.tail && t.done == s.done && t.delivered == s.delivered
  {
    hide Inv, Parts, Sendable, MessageFrames, ProducerStep, ConsumerStep, Consistent;
    var shadow := s.(consumer := w);
    SlotCount(config, shadow);
    ApplyKeeps(config, shadow, step);
    if step.Produce? && step.p in s.producers && s.producers[step.p].alive {
      ProducerCommutes(config, s, w, step.p, step.retry);
      StepByProducer(config, s, step.p, step.retry);
    }
    assert Apply(config, shadow, step) == Apply(config, s, step).(consumer := w);
  }

  // ---- Steps of the consumer ----

  /** A later chunk of a message is no first slot: a receive that starts there rejects it. */
  lemma RejectsChunk(config: Config, consumer: Consumer, m: Message, k: nat)
    requires ConfigOk(config) && Sendable(config, m)
    requires 0 < k < |MessageFrames(config, m)|
    requires !config.multiProducer ==> consumer.expected == m.seqNo
    ensures DigestFirst(config, consumer, m.seqNo, MessageFrames(config, m)[k]) == Err(Channel(CorruptedMessage))
  {
    hide Sendable, MessageFrames, DecodeFrame, ChunkInfoOf, ValidateChunk, ValidBytesFrame, IsChunked, Part;
    FrameCarriesPart(config, m, k);
    assert CarriesPart(config, m, k, DecodeFrame(MessageFrames(config, m)[k]).value);
  }

  /** The consumer that would still be inside the message stands behind its first slot. */
  lemma InsideMessage(config: Config, s: State, w: Consumer)
    requires Shadowed(config, s, w)
    requires w.pc.NextChunk? || w.pc.ReadSlot? || w.pc.PinSlot?
    ensures ConfigOk(config) && config.capacity == |s.slots| > 0
    ensures w.pc.progress.Rest? && ReadingOk(config, s.log, s.done, s.tail, w.pc.progress)
    ensures var m := s.log[s.done].message;
            && 0 < Index(w.pc.progress) < |MessageFrames(config, m)|
            && (!config.multiProducer ==> s.consumer.expected == m.seqNo)
            && (!w.pc.NextChunk? ==> w.pc.seqNo == m.seqNo && CommittedTail(s.cells, s.tail))
            && (w.pc.PinSlot? ==> w.pc.data == MessageFrames(config, m)[Index(w.pc.progress)])
  {
    hide Inv, Parts, Sendable, MessageFrames;
    var shadow := s.(consumer := w);
    InvConsumer(config, shadow);
    SlotCount(config, shadow);
    if !config.multiProducer {
      ExpectedIsCurrent(config, shadow);
    }
    ConfigOfInv(config, shadow);
  }

  lemma ConfigOfInv(config: Config, s: State)
    requires Inv(config, s)
    ensures ConfigOk(config)
  {
  }

  /** A tail slot that is being written has a live writer: it began with the message's first slot. */
  lemma WriterAtTailLives(config: Config, s: State, w: Consumer)
    requires Shadowed(config, s, w) && w.pc.NextChunk?
    requires config.capacity == |s.slots| > 0
    requires At(config, s, s.tail).state.Writing?
    ensures At(config, s, s.tail).writer.Some? && !Gone(s, At(config, s, s.tail).writer.value.pid)
  {
    hide Inv, Parts, Sendable, MessageFrames, Idx, DataOk, HeaderOk, LogOk, CellsOk, ProgressOk;
    var shadow := s.(consumer := w);
    InsideMessage(config, s, w);
    InvCursors(config, shadow);
    InvMessages(config, shadow);
    InvCells(config, shadow);
    TailIsClaimed(config, s, w);
    EntryAt(config, s.log, s.cells, s.done, s.tail, Index(w.pc.progress));
    SlotAt(config, shadow, s.tail);
    assert At(config, shadow, s.tail) == At(config, s, s.tail);
    OwnerIsAlive(config, shadow);
  }

  lemma TailIsClaimed(config: Config, s: State, w: Consumer)
    requires Shadowed(config, s, w) && w.pc.NextChunk?
    ensures s.tail < |s.cells| <= s.tail + config.capacity
  {
    hide Inv, Parts, Sendable, MessageFrames;
    var shadow := s.(consumer := w);
    InsideMessage(config, s, w);
    InvCursors(config, shadow);
    InvMessages(config, shadow);
  }

  lemma OwnerIsAlive(config: Config, s: State)
    requires Inv(config, s)
    requires s.done < |s.log| && !s.log[s.done].dead && s.log[s.done].start < s.tail < |s.cells|
    requires s.cells[s.tail].entry == s.done && s.cells[s.tail].stage != Done
    ensures s.log[s.done].owner in s.producers && s.producers[s.log[s.done].owner].alive
  {
    hide Inv, Parts, Sendable, MessageFrames, LogOk, CellsOk;
    InvOwned(config, s);
    InvConsumed(config, s);
    InvMessages(config, s);
    InvCells(config, s);
    InvProducer(config, s, s.log[s.done].owner);
    EntryAt(config, s.log, s.cells, s.done, s.log[s.done].start, 0);
  }

  /** A receive that comes to the stranded chunk: refreshing the cursors and the gate. */
  lemma LookKeeps(config: Config, s: State, w: Consumer) returns (w': Consumer)
    requires Stranded(config, s, w)
    requires s.consumer.pc.SeeHead? || s.consumer.pc.SeeTail? || s.consumer.pc.SeeFloor? || s.consumer.pc.Gate?
    ensures config.capacity == |s.slots| > 0
    ensures Stranded(config, ConsumerStep(config, s), w')
    ensures ConsumerStep(config, s) == s.(consumer := ConsumerStep(config, s).consumer)
    ensures w.pc.Advance? ==> w' == w
  {
    hide Inv, Parts, Sendable, MessageFrames, Idx, CopyStep, ViewStep, ReclaimStep, ReleaseStep, UnpinStep;
    var shadow := s.(consumer := w);
    SlotCount(config, shadow);
    InvCursors(config, shadow);
    w' := w;
    if s.consumer.pc.Gate? && At(config, s, s.tail).state.Committed? {
      if w.pc.Advance? {
        FreedAtTail(config, s, w);
      } else {
        ConsumerStepKeeps(config, shadow);
        w' := ConsumerStep(config, shadow).consumer;
      }
    }
  }

  lemma FreedAtTail(config: Config, s: State, w: Consumer)
    requires Shadowed(config, s, w) && w.pc.Advance?
    ensures config.capacity == |s.slots| > 0 && At(config, s, s.tail).state.Free?
  {
    hide Inv, Parts, Sendable, MessageFrames, Idx, DataOk, HeaderOk, StampOk, AfterOk;
    var shadow := s.(consumer := w);
    InvConsumer(config, shadow);
    TailInWindow(config, shadow);
    SlotAt(config, shadow, s.tail);
    assert At(config, shadow, s.tail) == At(config, s, s.tail);
  }

  lemma ReclaimKeeps(config: Config, s: State, w: Consumer)
    requires Stranded(config, s, w)
    requires s.consumer.pc.ReclaimRead?
    ensures config.capacity == |s.slots| > 0
    ensures ConsumerStep(config, s) == SetPc(s, Resting)
    ensures Stranded(config, ConsumerStep(config, s), w)
  {
    hide Inv, Parts, Sendable, MessageFrames, Idx, CopyStep, ViewStep, RefreshStep, ReleaseStep, UnpinStep, GateStep,
         Gone;
    SlotCount(config, s.(consumer := w));
    if w.pc.Advance? {
      FreedAtTail(config, s, w);
    } else if At(config, s, s.tail).state.Writing? {
      WriterAtTailLives(config, s, w);
    }
  }

  lemma ReadKeeps(config: Config, s: State, w: Consumer) returns (w': Consumer)
    requires Stranded(config, s, w)
    requires s.consumer.pc.ReadSlot?
    ensures config.capacity == |s.slots| > 0
    ensures var t := ConsumerStep(config, s); Stranded(config, t, w') && t == s.(consumer := t.consumer)
  {
    hide Inv, Parts, Sendable, MessageFrames, Idx, ViewStep, RefreshStep, ReleaseStep, UnpinStep, GateStep, ReclaimStep;
    var shadow := s.(consumer := w);
    SlotCount(config, shadow);
    ConsumerStepKeeps(config, shadow);
    w' := ConsumerStep(config, shadow).consumer;
  }

  /** Both consumers pin the slot; the real one rejects the chunk, the other would take it. */
  lemma PinKeeps(config: Config, s: State, w: Consumer) returns (w': Consumer)
    requires Stranded(config, s, w)
    requires s.consumer.pc.PinSlot?
    ensures config.capacity == |s.slots| > 0
    ensures var t := ConsumerStep(config, s);
            && Stranded(config, t, w') && t == s.(slots := t.slots, consumer := t.consumer)
            && t.consumer == s.consumer.(pc := Broken(CorruptedMessage))
  {
    hide Inv, Parts, Sendable, MessageFrames, Idx, Digest, AfterSlot, AfterOk, ReadingOk, CommittedTail,
         ViewStep, RefreshStep, ReleaseStep, UnpinStep, GateStep, ReclaimStep;
    var shadow := s.(consumer := w);
    SlotCount(config, shadow);
    ConsumerStepKeeps(config, shadow);
    PinSlotFacts(config, shadow);
    DigestRejects(config, s, w);
    w' := ConsumerStep(config, shadow).consumer;
  }

  lemma DigestRejects(config: Config, s: State, w: Consumer)
    requires Stranded(config, s, w)
    requires s.consumer.pc.PinSlot?
    ensures var PinSlot(progress, seqNo, data) := s.consumer.pc;
            Digest(config, s.consumer, progress, seqNo, data) == Err(Channel(CorruptedMessage))
  {
    hide Inv, Parts, Sendable, MessageFrames, DigestFirst, DigestRest, ProgressOk, CommittedTail;
    InsideMessage(config, s, w);
    RejectsChunk(config, s.consumer, s.log[s.done].message, Index(w.pc.progress));
  }

  lemma ViewKeeps(config: Config, s: State, w: Consumer) returns (w': Consumer)
    requires Stranded(config, s, w)
    requires s.consumer.pc.ViewSlot?
    ensures config.capacity == |s.slots| > 0
    ensures ConsumerStep(config, s) == SetPc(s, Resting)
    ensures Stranded(config, ConsumerStep(config, s), w')
  {
    hide Inv, Parts, Sendable, MessageFrames, Idx, Viewable, ProgressOk, CommittedTail,
         CopyStep, RefreshStep, ReleaseStep, UnpinStep, GateStep, ReclaimStep;
    var shadow := s.(consumer := w);
    InsideMessage(config, s, w);
    InvDelivered(config, shadow);
    InvFloor(config, shadow);
    InvConsumer(config, shadow);
    CommittedSlotAtTail(config, shadow, w.pc.progress);
    assert At(config, shadow, s.tail) == At(config, s, s.tail);
    ViewableOk(config, s.consumer, s.log[s.done].message, Index(w.pc.progress));
    w' := w.(pc := NextChunk(w.pc.progress));
    ConsumerLocalKeeps(config, shadow, w');
  }

  /** Every step of the consumer leaves the message stranded, and frees its slot at most once. */
  lemma ConsumerKeeps(config: Config, s: State, w: Consumer) returns (w': Consumer)
    requires Stranded(config, s, w)
    ensures config.capacity == |s.slots| > 0
    ensures var t := ConsumerStep(config, s);
            Stranded(config, t, w') && t.tail == s.tail && t.done == s.done && t.delivered == s.delivered
    ensures w.pc.Advance? ==> w' == w
  {
    hide Inv, Shadowed, RefreshStep, GateStep, CopyStep, ViewStep, ReleaseStep, UnpinStep, ReclaimStep;
    StrandedCount(config, s, w);
    var pc := s.consumer.pc;
    w' := w;
    if pc.SeeHead? || pc.SeeTail? || pc.SeeFloor? || pc.Gate? {
      w' := LookKeeps(config, s, w);
    } else if pc.ReclaimRead? {
      ReclaimKeeps(config, s, w);
    } else if pc.ReadSlot? {
      w' := ReadKeeps(config, s, w);
    } else if pc.PinSlot? {
      w' := PinKeeps(config, s, w);
    } else if pc.ViewSlot? {
      w' := ViewKeeps(config, s, w);
    }
  }

  lemma StrandedCount(config: Config, s: State, w: Consumer)
    requires Stranded(config, s, w)
    ensures config.capacity == |s.slots| > 0
  {
    hide Inv;
    SlotCount(config, s.(consumer := w));
  }

  /** Clearing and freeing the rejected slot. */
  lemma RejectKeeps(config: Config, s: State, w: Consumer) returns (w': Consumer)
    requires Stranded(config, s, w)
    ensures config.capacity == |s.slots| > 0
    ensures var t := Rejected(config, s);
            Stranded(config, t, w') && t.tail == s.tail && t.done == s.done && t.delivered == s.delivered
    ensures w.pc.Advance? ==> w' == w
    ensures s.consumer.pc.Broken? && Rejected(config, s).consumer.pc.Resting? ==> w'.pc.Advance?
  {
    hide Inv, Parts, Sendable, MessageFrames, Idx, AfterOk, CommittedTail, ViewStep, RefreshStep, ReleaseStep,
         UnpinStep, GateStep, ReclaimStep;
    var shadow := s.(consumer := w);
    SlotCount(config, shadow);
    w' := w;
    if s.consumer.pc.Broken? {
      var cleared := ConsumerStep(config, shadow);
      ConsumerStepKeeps(config, shadow);
      if At(config, s, s.tail).data != [] {
        ClearedAgain(config, cleared, w);
      } else {
        var slot := At(config, s, s.tail);
        assert s.slots[Idx(s.tail, config.capacity) := slot] == s.slots;
        ConsumerStepKeeps(config, cleared);
        w' := ConsumerStep(config, cleared).consumer;
      }
    }
  }

  /** Having cleared the slot it holds, a consumer could as well clear it again. */
  lemma ClearedAgain(config: Config, s: State, w: Consumer)
    requires Inv(config, s)
    requires s.consumer.pc.FreeSlot? && w == s.consumer.(pc := ClearSlot(s.consumer.pc.after))
    ensures Inv(config, s.(consumer := w))
  {
    hide Inv, Parts, Sendable, MessageFrames, AfterOk, CommittedTail;
    InvFloor(config, s);
    InvConsumer(config, s);
    ConsumerLocalKeeps(config, s, w);
  }

  // ---- Runs ----

  lemma StepKeeps(config: Config, s: State, w: Consumer, step: GraceStep) returns (w': Consumer)
    requires Stranded(config, s, w)
    requires !(step.Plain? && step.step.BeginRelease?)
    ensures config.capacity == |s.slots| > 0
    ensures var t := GraceApply(config, s, step);
            Stranded(config, t, w') && t.tail == s.tail && t.done == s.done && t.delivered == s.delivered
    ensures w.pc.Advance? ==> w' == w
    ensures step.Reject? && s.consumer.pc.Broken? && GraceApply(config, s, step).consumer.pc.Resting? ==> w'.pc.Advance?
  {
    hide Inv, Shadowed, ConsumerStep, ProducerStep, Rejected;
    StrandedCount(config, s, w);
    w' := w;
    match step {
      case GiveUp =>
      case Reject => w' := RejectKeeps(config, s, w);
      case Plain(step) =>
        if step.Consume? {
          w' := ConsumerKeeps(config, s, w);
        } else if step.BeginReceive? {
          BeginKeeps(config, s, w, step.op);
        } else {
          OthersKeep(config, s, w, step);
        }
    }
  }

  lemma BeginKeeps(config: Config, s: State, w: Consumer, op: Op)
    requires Stranded(config, s, w)
    ensures config.capacity == |s.slots| > 0
    ensures s.consumer.pc.Resting? ==> Stranded(config, SetPc(s, SeeHead(op)), w)
  {
    hide Inv;
    StrandedCount(config, s, w);
    assert SetPc(s, SeeHead(op)).(consumer := w) == s.(consumer := w);
  }

  lemma {:induction false} RunKeeps(config: Config, s: State, w: Consumer, run: seq<GraceStep>) returns (w': Consumer)
    requires Stranded(config, s, w) && NoRelease(run)
    ensures config.capacity == |s.slots| > 0
    ensures var t := GraceExec(config, s, run);
            Stranded(config, t, w') && t.tail == s.tail && t.done == s.done && t.delivered == s.delivered
    ensures w.pc.Advance? ==> w' == w
    decreases |run|
  {
    hide Stranded, GraceApply;
    StrandedIsShaped(config, s, w);
    w' := w;
    if run != [] {
      w' := StepKeeps(config, s, w, run[0]);
      w' := RunKeeps(config, GraceApply(config, s, run[0]), w', run[1..]);
    }
  }

  lemma StrandedIsShaped(config: Config, s: State, w: Consumer)
    requires Stranded(config, s, w)
    ensures config.capacity == |s.slots| > 0
  {
    StrandedCount(config, s, w);
  }

  /** Giving up strands the message. */
  lemma GivingUp(config: Config, s: State) returns (w: Consumer)
    requires Reachable(config, s)
    requires s.consumer.pc.NextChunk?
    requires config.capacity == |s.slots| > 0 && !At(config, s, s.consumer.tailSeen).state.Committed?
    ensures Stranded(config, GivenUp(config, s), w)
  {
    hide Inv, Parts, Reachable, Sendable, MessageFrames, Idx;
    ReachableInv(config, s);
    InvConsumer(config, s);
    InvFloor(config, s);
    if !config.multiProducer {
      ExpectedIsCurrent(config, s);
    }
    w := s.consumer.(expected := GivenUp(config, s).consumer.expected);
    ConsumerLocalKeeps(config, s, w);
    assert GivenUp(config, s).(consumer := w) == s.(consumer := w);
  }

  /**
   * When a receive gives up between two chunks, the channel delivers nothing any more: in every later
   * state, whatever producers and receives do, the tail still stands inside that message and nothing more
   * was delivered; a receive reports an empty buffer or a corrupted message.
   */
  lemma GivingUpStrands(config: Config, s: State, run: seq<GraceStep>)
    requires Reachable(config, s)
    requires s.consumer.pc.NextChunk?
    requires config.capacity == |s.slots| > 0 && !At(config, s, s.consumer.tailSeen).state.Committed?
    requires NoRelease(run)
    ensures var t := GraceExec(config, GivenUp(config, s), run);
            && t.tail == s.tail && t.done == s.done && t.delivered == s.delivered
            && t.done < |t.log| && t.log[t.done].start < t.tail
            && (t.consumer.pc.Broken? ==> t.consumer.pc.error == CorruptedMessage)
  {
    hide Reachable, GraceExec, Inv;
    var w := GivingUp(config, s);
    w := RunKeeps(config, GivenUp(config, s), w, run);
  }

  // ---- The rejection ----

  lemma {:induction false} GraceAppend(config: Config, s: State, run: seq<GraceStep>, step: GraceStep)
    requires config.capacity == |s.slots| > 0
    ensures GraceExec(config, s, run + [step]) == GraceApply(config, GraceExec(config, s, run), step)
    decreases |run|
  {
    hide GraceApply;
    if run == [] {
      assert run + [step] == [step];
      assert GraceExec(config, s, [step]) == GraceExec(config, GraceApply(config, s, step), [step][1..]);
    } else {
      assert (run + [step])[1..] == run[1..] + [step];
      GraceAppend(config, GraceApply(config, s, run[0]), run[1..], step);
    }
  }

  /** One more step of a run that keeps the message stranded. */
  lemma Go(config: Config, s: State, run: seq<GraceStep>, t: State, w: Consumer, step: GraceStep)
    returns (run': seq<GraceStep>, u: State, w': Consumer)
    requires config.capacity == |s.slots| > 0
    requires NoRelease(run) && t == GraceExec(config, s, run) && Stranded(config, t, w)
    requires !(step.Plain? && step.step.BeginRelease?)
    ensures u == GraceApply(config, t, step) && Stranded(config, u, w')
    ensures NoRelease(run') && u == GraceExec(config, s, run')
    ensures u.tail == t.tail
    ensures step.Reject? && t.consumer.pc.Broken? && u.consumer.pc.Resting? ==> w'.pc.Advance?
  {
    hide Stranded, GraceApply, GraceExec;
    GraceAppend(config, s, run, step);
    run' := run + [step];
    u := GraceApply(config, t, step);
    w' := StepKeeps(config, t, w, step);
  }

  lemma EmptyRun(config: Config, s: State)
    requires config.capacity == |s.slots| > 0
    ensures GraceExec(config, s, []) == s
  {
  }

  /** A receive that begins when the stranded chunk has been committed comes to read it as a first slot. */
  lemma MeetsChunk(config: Config, s: State, w: Consumer) returns (run: seq<GraceStep>, t: State, w': Consumer)
    requires Stranded(config, s, w)
    requires s.consumer.pc.Resting?
    requires config.capacity == |s.slots| > 0 && At(config, s, s.tail).state.Committed?
    ensures NoRelease(run) && t == GraceExec(config, s, run) && Stranded(config, t, w')
    ensures t.tail == s.tail && t.consumer.pc.PinSlot?
  {
    hide Shadowed, Idx, Digest, ViewStep, ReleaseStep, UnpinStep, ReclaimStep, ProducerStep, GraceExec;
    t, w', run := s, w, [];
    EmptyRun(config, s);
    run, t, w' := Go(config, s, run, t, w', Plain(BeginReceive(Copy)));
    run, t, w' := Go(config, s, run, t, w', Plain(Consume));
    run, t, w' := Go(config, s, run, t, w', Plain(Consume));
    run, t, w' := Go(config, s, run, t, w', Plain(Consume));
    run, t, w' := Go(config, s, run, t, w', Plain(Consume));
    run, t, w' := Go(config, s, run, t, w', Plain(Consume));
  }

  /**
   * Once its writer has committed the stranded chunk, the next receive reports a corrupted message and
   * frees the chunk's slot, although the tail stays on it.
   */
  lemma RejectionFrees(config: Config, s: State, w: Consumer) returns (run: seq<GraceStep>, w': Consumer)
    requires Stranded(config, s, w)
    requires s.consumer.pc.Resting?
    requires config.capacity == |s.slots| > 0 && At(config, s, s.tail).state.Committed?
    ensures NoRelease(run)
    ensures var t := GraceExec(config, s, run);
            && Stranded(config, t, w') && w'.pc.Advance?
            && t.tail == s.tail && t.consumer.pc.Resting? && At(config, t, t.tail).state.Free?
  {
    hide Shadowed, Idx, ConsumerStep, GraceExec;
    var t: State;
    run, t, w' := MeetsChunk(config, s, w);
    var rejected := PinKeeps(config, t, w');
    run, t, w' := Go(config, s, run, t, w', Plain(Consume));
    assert t.consumer.pc == Broken(CorruptedMessage);
    run, t, w' := Go(config, s, run, t, w', Reject);
    if t.consumer.pc.Broken? {
      run, t, w' := Go(config, s, run, t, w', Reject);
    }
    FreedAtTail(config, t, w');
  }

  /**
   * From then on the slot at the tail is free in every later state, so that every receive finds the ring
   * empty; no message is delivered any more, and no producer writes that slot again.
   */
  lemma FreedStaysFree(config: Config, s: State, w: Consumer, run: seq<GraceStep>)
    requires Stranded(config, s, w) && w.pc.Advance?
    requires NoRelease(run)
    ensures config.capacity == |s.slots| > 0
    ensures var t := GraceExec(config, s, run);
            && At(config, t, t.tail).state.Free?
            && t.tail == s.tail && t.delivered == s.delivered
            && (t.consumer.pc.Resting? || t.consumer.pc.SeeHead? || t.consumer.pc.SeeTail? || t.consumer.pc.SeeFloor?
                || t.consumer.pc.Gate? || t.consumer.pc.ReclaimRead?)
  {
    hide Shadowed, Idx, GraceExec;
    StrandedIsShaped(config, s, w);
    var w' := RunKeeps(config, s, w, run);
    FreedAtTail(config, GraceExec(config, s, run), w');
  }

  // ---- From the expiry to the loss ----

  /** Whatever follows, the slot at the tail is free, the tail stays, and nothing is delivered. */
  ghost predicate LostFrom(config: Config, s: State)
    requires config.capacity == |s.slots| > 0
  {
    forall later :: NoRelease(later) ==>
      var t := GraceExec(config, s, later);
      At(config, t, t.tail).state.Free? && t.tail == s.tail && t.delivered == s.delivered
  }

  /**
   * A receive gives up between two chunks; later the next chunk is committed and nobody is in a receive. Then
   * a single receive loses the message for good: it rejects the chunk, and from there on the slot at the
   * tail is free, the tail stands still and nothing is delivered, on every run.
   */
  lemma LostForGood(config: Config, s: State, run: seq<GraceStep>) returns (reject: seq<GraceStep>)
    requires Reachable(config, s)
    requires s.consumer.pc.NextChunk?
    requires config.capacity == |s.slots| > 0 && !At(config, s, s.consumer.tailSeen).state.Committed?
    requires NoRelease(run)
    requires var t := GraceExec(config, GivenUp(config, s), run);
             t.consumer.pc.Resting? && At(config, t, t.tail).state.Committed?
    ensures NoRelease(reject)
    ensures var u := GraceExec(config, GraceExec(config, GivenUp(config, s), run), reject);
            && u.consumer.pc.Resting? && u.tail == s.tail && u.delivered == s.delivered
            && LostFrom(config, u)
  {
    hide Reachable, Stranded, GraceExec, GivenUp, Inv, NoRelease;
    var w := GivingUp(config, s);
    GivingUpStrands(config, s, run);
    w := RunKeeps(config, GivenUp(config, s), w, run);
    var t := GraceExec(config, GivenUp(config, s), run);
    var w': Consumer;
    reject, w' := RejectionFrees(config, t, w);
    var same := RunKeeps(config, t, w, reject);
    var u := GraceExec(config, t, reject);
    forall later | NoRelease(later)
      ensures var v := GraceExec(config, u, later);
              At(config, v, v.tail).state.Free? && v.tail == u.tail && v.delivered == u.delivered
    {
      FreedStaysFree(config, u, w', later);
    }
  }

  /** One step of the writer of the stranded chunk. */
  lemma SecondWritten(config: Config, s: State, phase: Phase)
    requires config.capacity == |s.slots| > 0
    requires SecondPending(config, s, phase)
    requires phase.Check? ==> At(config, s, 1).state.Free?
    ensures var t := Apply(config, s, Produce(0, false));
            && t.consumer == s.consumer && t.tail == s.tail
            && match phase
               case Check => SecondPending(config, t, Mark)
               case Mark => SecondPending(config, t, Fill)
               case Fill => SecondPending(config, t, Commit)
               case Commit => At(config, t, 1).state.Committed?
  {
    hide Sendable, MessageFrames, Idx, TryReserve, ConsumerStep;
  }

  /**
   * All of this is reached wherever a later chunk can be missing: a receive that gives up on a slot that is
   * still free, and the chunk committed right after.
   */
  lemma LossIsReached(config: Config, checked: bool) returns (s: State, run: seq<GraceStep>)
    requires ConfigOk(config) && AcceptsChunked(config)
    requires checked ==> config.multiProducer
    ensures ReachableBy(config, checked, s) && Reachable(config, s)
    ensures s.consumer.pc.NextChunk?
    ensures config.capacity == |s.slots| > 0 && At(config, s, s.consumer.tailSeen).state.Free?
    ensures NoRelease(run)
    ensures var t := GraceExec(config, GivenUp(config, s), run);
            t.consumer.pc.Resting? && At(config, t, t.tail).state.Committed?
  {
    hide Reachable, ReachableBy, Stranded, GraceExec, Inv, Apply, AcceptsChunked, Idx, Sendable, MessageFrames;
    s := CaughtBetweenChunks(config, checked);
    ByInv(config, checked, s);
    ConsumerInRest(config, s);
    var w := GivingUp(config, s);
    var t := GivenUp(config, s);
    EmptyRun(config, t);
    run := [];
    SecondWritten(config, t, Check);
    run, t, w := Go(config, GivenUp(config, s), run, t, w, Plain(Produce(0, false)));
    SecondWritten(config, t, Mark);
    run, t, w := Go(config, GivenUp(config, s), run, t, w, Plain(Produce(0, false)));
    SecondWritten(config, t, Fill);
    run, t, w := Go(config, GivenUp(config, s), run, t, w, Plain(Produce(0, false)));
    SecondWritten(config, t, Commit);
    run, t, w := Go(config, GivenUp(config, s), run, t, w, Plain(Produce(0, false)));
  }

  /** A receive between two chunks has gathered some part of its message. */
  lemma ConsumerInRest(config: Config, s: State)
    requires Inv(config, s) && s.consumer.pc.NextChunk?
    ensures s.consumer.pc.progress.Rest?
  {
    hide Inv, Sendable, MessageFrames;
    TailSeen(config, s);
  }
}
