/**
 * What becomes of the consumer's calls, under every interleaving with the producers: a committed message is
 * copied out; a `recv_view` pins, delivers and passes a single-slot message and leaves a chunked one alone; a
 * release ends with its slot free and the floor at the least remaining pin; a receive that finds nothing
 * changes nothing.
 */
module RingCalls {
  import opened FrameCodec
  import opened Chunking
  import opened ChunkingProofs
  import opened Cursors
  import opened Ring
  import opened RingInvariant
  import opened RingProducer
  import opened RingClaim
  import opened RingConsumer
  import opened RingReceive
  import opened RingView
  import opened RingHistory
  import opened RingRuns
  import opened RingTheorems
  import opened RingProgress
  import opened RingDeadWriter

  /** A run in which the consumer starts no other call; the producers do what they like. */
  predicate NoCalls(run: seq<Step>) {
    forall i :: 0 <= i < |run| ==> !run[i].BeginReceive? && !run[i].BeginRelease?
  }

  /** Nothing but a consumer step touches the consumer, its tail, its pins or the floor. */
  lemma OthersLeaveConsumer(config: Config, s: State, step: Step)
    requires config.capacity == |s.slots| > 0
    requires !step.Consume? && !step.BeginReceive? && !step.BeginRelease?
    ensures var t := Apply(config, s, step);
            && t.consumer == s.consumer && t.pins == s.pins && t.floor == s.floor
            && t.tail == s.tail && t.done == s.done && t.delivered == s.delivered
  {
    hide ProducerStep, Sendable, CellsGrow;
    if step.Produce? && step.p in s.producers && s.producers[step.p].alive {
      StepByProducer(config, s, step.p, step.retry);
    }
  }

  // ---- Asking for a view ----

  /** Where the consumer stood when it asked for a view, and the message it stood at. */
  datatype Asked = Asked(done: nat, tail: nat, delivered: seq<Message>, pins: set<nat>, message: Message)

  function AskedAt(s: State): Asked
    requires s.done < |s.log|
  {
    Asked(s.done, s.tail, s.delivered, s.pins, s.log[s.done].message)
  }

  /** The message is still at the tail, and its first slot is committed. */
  ghost predicate AtMessage(config: Config, s: State, a: Asked) {
    && s.done == a.done && s.tail == a.tail && s.delivered == a.delivered
    && CurrentOk(config, s.log, s.done) && s.log[s.done].message == a.message
    && s.tail == s.log[s.done].start
    && CommittedTail(s.cells, s.tail)
  }

  /** The view is made: its message is delivered, its slot pinned, the tail behind it. */
  predicate Made(s: State, a: Asked) {
    && s.done == a.done + 1 && s.tail == a.tail + 1 && s.delivered == a.delivered + [a.message]
    && s.pins == a.pins + {a.tail}
  }

  ghost predicate Asking(config: Config, s: State, a: Asked) {
    && Inv(config, s)
    && match s.consumer.pc
       case SeeHead(View) => AtMessage(config, s, a) && s.pins == a.pins
       case SeeTail(View, _) => AtMessage(config, s, a) && s.pins == a.pins
       case SeeFloor(View) => AtMessage(config, s, a) && s.pins == a.pins
       case Gate(View, _) => AtMessage(config, s, a) && s.pins == a.pins
       case ViewSlot(_) => AtMessage(config, s, a) && s.pins == a.pins
       case ViewPin(m) => AtMessage(config, s, a) && s.pins == a.pins && m == a.message
       case ViewFloor(m) => AtMessage(config, s, a) && s.pins == a.pins + {a.tail} && m == a.message
       case ViewFloorCas(m, seen) =>
         AtMessage(config, s, a) && s.pins == a.pins + {a.tail} && m == a.message && s.floor == seen
       case ViewAdvance(m) => AtMessage(config, s, a) && s.pins == a.pins + {a.tail} && m == a.message
       case Resting =>
         if |a.message.payload| <= config.slotSize then Made(s, a)
         else AtMessage(config, s, a) && s.pins == a.pins
       case _ => false
  }

  /** The consumer's own steps left. */
  function AskLeft(pc: Receiving): nat {
    match pc
    case SeeHead(_) => 9
    case SeeTail(_, _) => 8
    case SeeFloor(_) => 7
    case Gate(_, _) => 6
    case ViewSlot(_) => 5
    case ViewPin(_) => 4
    case ViewFloor(_) => 3
    case ViewFloorCas(_, _) => 2
    case ViewAdvance(_) => 1
    case _ => 0
  }

  ghost predicate OneAsked(config: Config, s: State, a: Asked, t: State) {
    && Asking(config, t, a)
    && AskLeft(t.consumer.pc) <= (if s.consumer.pc.Resting? then 0 else AskLeft(s.consumer.pc) - 1)
  }

  lemma LookAsked(config: Config, s: State, a: Asked)
    requires Asking(config, s, a)
    requires s.consumer.pc.SeeHead? || s.consumer.pc.SeeTail? || s.consumer.pc.SeeFloor?
    ensures |s.slots| == config.capacity > 0
    ensures OneAsked(config, s, a, ConsumerStep(config, s))
  {
    hide Inv, Parts, Sendable, MessageFrames;
    ConsumerStepKeeps(config, s);
    InvConsumer(config, s);
  }

  lemma GateAsked(config: Config, s: State, a: Asked)
    requires Asking(config, s, a) && s.consumer.pc.Gate?
    ensures |s.slots| == config.capacity > 0
    ensures OneAsked(config, s, a, ConsumerStep(config, s))
  {
    hide Inv, Parts, Sendable, MessageFrames, Idx;
    ConsumerStepKeeps(config, s);
    TailSeen(config, s);
    CommittedSlotAtTail(config, s, First);
  }

  lemma SlotAsked(config: Config, s: State, a: Asked)
    requires Asking(config, s, a) && s.consumer.pc.ViewSlot?
    ensures |s.slots| == config.capacity > 0
    ensures OneAsked(config, s, a, ConsumerStep(config, s))
  {
    hide Inv, Parts, Sendable, MessageFrames, Idx, Viewable;
    ConsumerStepKeeps(config, s);
    ViewSlotFacts(config, s);
    OneFrame(config, a.message);
  }

  lemma PinAsked(config: Config, s: State, a: Asked)
    requires Asking(config, s, a)
    requires s.consumer.pc.ViewPin? || s.consumer.pc.ViewFloor? || s.consumer.pc.ViewFloorCas?
             || s.consumer.pc.ViewAdvance?
    ensures |s.slots| == config.capacity > 0
    ensures OneAsked(config, s, a, ConsumerStep(config, s))
  {
    hide Inv, Parts, Sendable, MessageFrames, Idx, NextSeq;
    ConsumerStepKeeps(config, s);
    InvConsumer(config, s);
    OneFrame(config, a.message);
  }

  lemma ConsumeAsked(config: Config, s: State, a: Asked)
    requires Asking(config, s, a)
    ensures |s.slots| == config.capacity > 0
    ensures OneAsked(config, s, a, ConsumerStep(config, s))
  {
    hide Inv, OneAsked, RefreshStep, GateStep, ViewStep, AtMessage;
    SlotCount(config, s);
    var pc := s.consumer.pc;
    if pc.SeeHead? || pc.SeeTail? || pc.SeeFloor? {
      LookAsked(config, s, a);
    } else if pc.Gate? {
      GateAsked(config, s, a);
    } else if pc.ViewSlot? {
      SlotAsked(config, s, a);
    } else if pc.Resting? {
      RestAsked(config, s, a);
    } else {
      PinAsked(config, s, a);
    }
  }

  lemma RestAsked(config: Config, s: State, a: Asked)
    requires Asking(config, s, a) && s.consumer.pc.Resting?
    ensures OneAsked(config, s, a, s)
  {
    hide Inv, AtMessage;
  }

  lemma OthersAsked(config: Config, s: State, a: Asked, step: Step)
    requires Asking(config, s, a)
    requires !step.Consume? && !step.BeginReceive? && !step.BeginRelease?
    ensures |s.slots| == config.capacity > 0
    ensures Asking(config, Apply(config, s, step), a) && Apply(config, s, step).consumer == s.consumer
  {
    hide Inv, Parts, Sendable, MessageFrames, Apply;
    SlotCount(config, s);
    ApplyKeeps(config, s, step);
    OthersTouch(config, s, step);
    OthersLeaveConsumer(config, s, step);
  }

  lemma {:induction false} RunAsked(config: Config, s: State, a: Asked, run: seq<Step>)
    requires Asking(config, s, a)
    requires NoCalls(run) && Consumes(run) >= AskLeft(s.consumer.pc)
    ensures |s.slots| == config.capacity > 0
    ensures var t := Exec(config, s, run); Asking(config, t, a) && t.consumer.pc.Resting?
    decreases |run|
  {
    hide Inv, ConsumerStep, ProducerStep, AtMessage;
    SlotCount(config, s);
    if run != [] {
      if run[0].Consume? {
        ConsumeAsked(config, s, a);
      } else {
        OthersAsked(config, s, a, run[0]);
      }
      RunAsked(config, Apply(config, s, run[0]), a, run[1..]);
    }
  }

  /** At rest, a committed slot at the tail is the first of the next message. */
  lemma RestsAtMessage(config: Config, s: State)
    requires Inv(config, s)
    requires s.consumer.pc.Resting?
    requires |s.slots| == config.capacity > 0 && At(config, s, s.tail).state.Committed?
    ensures s.done < |s.log| && AtMessage(config, s, AskedAt(s))
  {
    hide Inv, Parts, Sendable, MessageFrames, Idx;
    InvConsumer(config, s);
    CommittedAtTail(config, s, First);
  }

  /** The slot of a view just made is PINNED with the one frame of its message, whose payload is the message. */
  lemma MadeSlot(config: Config, s: State, a: Asked)
    requires Inv(config, s) && s.consumer.pc.Resting?
    requires Made(s, a)
    requires a.done < |s.log| && s.log[a.done].message == a.message && s.log[a.done].start == a.tail
    requires Sendable(config, a.message) && |a.message.payload| <= config.slotSize
    ensures |s.slots| == config.capacity > 0
    ensures var slot := At(config, s, a.tail);
            slot.state.Pinned? && |slot.data| >= FRAME_HEADER_LEN && slot.data[FRAME_HEADER_LEN..] == a.message.payload
    ensures IsFloor(s.floor, s.pins)
  {
    hide Inv, Parts, Sendable, MessageFrames, Idx, LogOk, CheckView, Viewable;
    PinnedSlot(config, s, a.tail);
    InvFloor(config, s);
    InvCells(config, s);
    InvConsumer(config, s);
    assert CellOk(config, s.log, s.cells, a.tail);
    OneFrame(config, a.message);
    WholeViewed(config, a.message);
  }

  lemma WholeViewed(config: Config, m: Message)
    requires ConfigOk(config) && Sendable(config, m) && |m.payload| <= config.slotSize
    ensures var frame := MessageFrames(config, m)[0];
            |frame| >= FRAME_HEADER_LEN && frame[FRAME_HEADER_LEN..] == m.payload
  {
    hide Sendable, MessageFrames, DecodeFrameHeader;
    var consumer := Consumer(m.seqNo, false, 0, 0, Resting);
    OneFrame(config, m);
    ViewableOk(config, consumer, m, 0);
  }

  /**
   * A `recv_view` that begins at rest with a committed slot at the tail ends after at most nine of the
   * consumer's own steps, whatever the producers do meanwhile. A single-slot message is delivered, its
   * cursor pinned and the tail moved past it; its slot is PINNED, and behind the frame header lies exactly
   * the message. A chunked message is refused, and stays as it is for `recv`. The floor is the least pin.
   */
  lemma ViewGrantedExactly(config: Config, s: State, run: seq<Step>)
    requires Reachable(config, s)
    requires s.consumer.pc.Resting?
    requires |s.slots| == config.capacity > 0 && At(config, s, s.tail).state.Committed?
    requires NoCalls(run) && Consumes(run) >= 9
    ensures s.done < |s.log|
    ensures var t, m := Exec(config, s, [BeginReceive(View)] + run), s.log[s.done].message;
            && t.consumer.pc.Resting? && IsFloor(t.floor, t.pins)
            && if |m.payload| <= config.slotSize then
                 && t.delivered == s.delivered + [m] && t.done == s.done + 1
                 && t.tail == s.tail + 1 && t.pins == s.pins + {s.tail}
                 && var slot := At(config, t, s.tail);
                    && slot.state.Pinned?
                    && |slot.data| >= FRAME_HEADER_LEN && slot.data[FRAME_HEADER_LEN..] == m.payload
               else
                 && t.delivered == s.delivered && t.done == s.done
                 && t.tail == s.tail && t.pins == s.pins
                 && var was, slot := At(config, s, s.tail), At(config, t, s.tail);
                    slot.state.Committed? && slot.seqNo == was.seqNo && slot.data == was.data
  {
    hide Inv, Reachable, Sendable, MessageFrames, Exec, NoCalls, Consumes, Idx, CurrentOk, CommittedTail;
    ReachableInv(config, s);
    RestsAtMessage(config, s);
    var a, u := AskedAt(s), SetPc(s, SeeHead(View));
    StartKeeps(config, s, SeeHead(View));
    StillAtMessage(config, s, u, a);
    RunAsked(config, u, a, run);
    BeginThen(config, s, View, run);
    var t := Exec(config, u, run);
    RunGrows(config, u, run);
    MessageStays(config, s, t, a);
    InvFloor(config, t);
    if |a.message.payload| <= config.slotSize {
      MadeSlot(config, t, a);
    } else {
      SlotStays(config, s, t, a);
    }
  }

  lemma StillAtMessage(config: Config, s: State, t: State, a: Asked)
    requires AtMessage(config, s, a)
    requires t == s.(consumer := t.consumer)
    ensures AtMessage(config, t, a)
  {
  }

  lemma MessageStays(config: Config, s: State, t: State, a: Asked)
    requires AtMessage(config, s, a) && a == AskedAt(s)
    requires LogGrows(s.log, t.log)
    ensures a.done < |t.log| && t.log[a.done].message == a.message && t.log[a.done].start == a.tail
    ensures Sendable(config, a.message)
  {
    hide Sendable, MessageFrames;
  }

  lemma SlotStays(config: Config, s: State, t: State, a: Asked)
    requires Inv(config, s) && AtMessage(config, s, a) && s.consumer.pc.Resting?
    requires Inv(config, t) && AtMessage(config, t, a) && t.consumer.pc.Resting?
    ensures config.capacity == |s.slots| == |t.slots| > 0
    ensures var was, slot := At(config, s, a.tail), At(config, t, a.tail);
            slot.state.Committed? && slot.seqNo == was.seqNo && slot.data == was.data
  {
    hide Inv, Parts, Sendable, MessageFrames, Idx;
    CommittedSlotAtTail(config, s, First);
    CommittedSlotAtTail(config, t, First);
  }

  // ---- Releasing a view ----

  /** What the consumer had pinned, and where it stood, when it began to release cursor c. */
  datatype Release = Release(cursor: nat, tail: nat, done: nat, delivered: seq<Message>, pins: set<nat>)

  function ReleaseAt(s: State, c: nat): Release {
    Release(c, s.tail, s.done, s.delivered, s.pins)
  }

  ghost predicate Letting(config: Config, s: State, r: Release) {
    && Inv(config, s)
    && s.tail == r.tail && s.done == r.done && s.delivered == r.delivered
    && r.cursor < r.tail
    && match s.consumer.pc
       case ReleaseCheck(c) => c == r.cursor && s.pins == r.pins
       case ReleaseClear(c) => c == r.cursor && s.pins == r.pins
       case ReleaseFree(c) => c == r.cursor && s.pins == r.pins
       case UnpinFloor(c) => c == r.cursor && s.pins == r.pins - {c}
       case UnpinTail(_, _) => s.pins == r.pins - {r.cursor}
       case UnpinScan(_, _, _) => s.pins == r.pins - {r.cursor}
       case UnpinCas(_, _) => s.pins == r.pins - {r.cursor}
       case Resting => s.pins == r.pins - {r.cursor}
       case _ => false
  }

  /** The consumer's own steps left: the scan looks at one lap of slots at most. */
  function ReleaseLeft(config: Config, pc: Receiving): nat {
    match pc
    case ReleaseCheck(_) => config.capacity + 7
    case ReleaseClear(_) => config.capacity + 6
    case ReleaseFree(_) => config.capacity + 5
    case UnpinFloor(_) => config.capacity + 4
    case UnpinTail(_, _) => config.capacity + 3
    case UnpinScan(_, tail, at) => if at < tail then tail - at + 2 else 2
    case UnpinCas(_, _) => 1
    case _ => 0
  }

  ghost predicate OneLet(config: Config, s: State, r: Release, t: State) {
    && Letting(config, t, r)
    && ReleaseLeft(config, t.consumer.pc)
       <= (if s.consumer.pc.Resting? then 0 else ReleaseLeft(config, s.consumer.pc) - 1)
  }

  lemma FreeLet(config: Config, s: State, r: Release)
    requires Letting(config, s, r)
    requires s.consumer.pc.ReleaseCheck? || s.consumer.pc.ReleaseClear? || s.consumer.pc.ReleaseFree?
    ensures |s.slots| == config.capacity > 0
    ensures OneLet(config, s, r, ConsumerStep(config, s))
  {
    hide Inv, Parts, Idx, DataOk;
    ConsumerStepKeeps(config, s);
    InvFloor(config, s);
    PinnedSlot(config, s, s.consumer.pc.cursor);
  }

  lemma UnpinLet(config: Config, s: State, r: Release)
    requires Letting(config, s, r)
    requires s.consumer.pc.UnpinFloor? || s.consumer.pc.UnpinTail? || s.consumer.pc.UnpinScan?
             || s.consumer.pc.UnpinCas?
    ensures |s.slots| == config.capacity > 0
    ensures OneLet(config, s, r, ConsumerStep(config, s))
  {
    hide Inv, Parts, Idx;
    ConsumerStepKeeps(config, s);
    InvFloor(config, s);
  }

  lemma ConsumeLet(config: Config, s: State, r: Release)
    requires Letting(config, s, r)
    ensures |s.slots| == config.capacity > 0
    ensures OneLet(config, s, r, ConsumerStep(config, s))
  {
    hide Inv, OneLet, ReleaseStep, UnpinStep;
    SlotCount(config, s);
    if s.consumer.pc.Resting? {
      RestLet(config, s, r);
    } else if s.consumer.pc.ReleaseCheck? || s.consumer.pc.ReleaseClear? || s.consumer.pc.ReleaseFree? {
      FreeLet(config, s, r);
    } else {
      UnpinLet(config, s, r);
    }
  }

  lemma RestLet(config: Config, s: State, r: Release)
    requires Letting(config, s, r) && s.consumer.pc.Resting?
    ensures OneLet(config, s, r, s)
  {
    hide Inv;
  }

  lemma {:induction false} RunLet(config: Config, s: State, r: Release, run: seq<Step>)
    requires Letting(config, s, r)
    requires NoCalls(run) && Consumes(run) >= ReleaseLeft(config, s.consumer.pc)
    ensures |s.slots| == config.capacity > 0
    ensures var t := Exec(config, s, run); Letting(config, t, r) && t.consumer.pc.Resting?
    decreases |run|
  {
    hide Inv, ConsumerStep, ProducerStep;
    SlotCount(config, s);
    if run != [] {
      if run[0].Consume? {
        ConsumeLet(config, s, r);
      } else {
        ApplyKeeps(config, s, run[0]);
        OthersLeaveConsumer(config, s, run[0]);
      }
      RunLet(config, Apply(config, s, run[0]), r, run[1..]);
    }
  }

  /**
   * The release of a view, begun at rest, ends within one lap and a few of the consumer's own steps, whatever
   * the producers do meanwhile: exactly its pin is gone, the floor is the least that remains, no message is
   * touched, and its slot is FREE unless a producer has come round to it already.
   */
  lemma ReleaseFreesExactly(config: Config, s: State, c: nat, run: seq<Step>)
    requires Reachable(config, s)
    requires s.consumer.pc.Resting? && c in s.pins
    requires NoCalls(run) && Consumes(run) >= config.capacity + 7
    ensures |s.slots| == config.capacity > 0
    ensures var t := Exec(config, s, [BeginRelease(c)] + run);
            && t.consumer.pc.Resting?
            && t.pins == s.pins - {c} && IsFloor(t.floor, t.pins)
            && t.tail == s.tail && t.done == s.done && t.delivered == s.delivered
            && (|t.cells| <= c + config.capacity ==> At(config, t, c).state.Free?)
  {
    hide Inv, Reachable, Exec, NoCalls, Consumes, Idx;
    ReachableInv(config, s);
    PinnedSlot(config, s, c);
    StartKeeps(config, s, ReleaseCheck(c));
    var u := SetPc(s, ReleaseCheck(c));
    RunLet(config, u, ReleaseAt(s, c), run);
    BeginsRelease(config, s, c, run);
    var t := Exec(config, u, run);
    InvFloor(config, t);
    RunGrows(config, u, run);
    if |t.cells| <= c + config.capacity {
      UnpinnedIsFree(config, t, c);
    }
  }

  lemma BeginsRelease(config: Config, s: State, c: nat, run: seq<Step>)
    requires config.capacity == |s.slots| > 0
    requires s.consumer.pc.Resting? && c in s.pins
    ensures Exec(config, s, [BeginRelease(c)] + run) == Exec(config, SetPc(s, ReleaseCheck(c)), run)
  {
    assert ([BeginRelease(c)] + run)[1..] == run;
  }

  lemma UnpinnedIsFree(config: Config, s: State, c: nat)
    requires Inv(config, s)
    requires c < s.tail && c !in s.pins && |s.cells| <= c + config.capacity
    ensures |s.slots| == config.capacity > 0
    ensures At(config, s, c).state.Free?
  {
    hide Inv, Parts, Idx;
    InvCursors(config, s);
    SlotAt(config, s, c);
  }

  // ---- Copying a message out ----

  /** A copying receive is on its way to the message, or has delivered it. */
  ghost predicate Copying(config: Config, s: State, a: Asked) {
    && Inv(config, s)
    && s.pins == a.pins
    && if s.consumer.pc.Resting? then s.done == a.done + 1 && s.delivered == a.delivered + [a.message]
       else
         Position(s.consumer.pc).Some? && Ready(config, s, a.message) && s.done == a.done && s.delivered == a.delivered
  }

  ghost function CopyLeft(config: Config, s: State): int {
    if Position(s.consumer.pc).Some? then Measure(config, s) else 0
  }

  ghost predicate OneCopied(config: Config, s: State, a: Asked, t: State) {
    && Copying(config, t, a)
    && CopyLeft(config, t) <= (if s.consumer.pc.Resting? then 0 else CopyLeft(config, s) - 1)
  }

  lemma ConsumeCopies(config: Config, s: State, a: Asked)
    requires Copying(config, s, a)
    ensures |s.slots| == config.capacity > 0
    ensures OneCopied(config, s, a, ConsumerStep(config, s))
  {
    hide Inv, ConsumerStep, Ready, Measure;
    SlotCount(config, s);
    if s.consumer.pc.Resting? {
      RestsOn(config, s);
    } else {
      StepCloser(config, s, a.message);
      ConsumerStepKeeps(config, s);
      CopyKeepsPins(config, s);
      CopyLeftPositive(config, s, a);
    }
  }

  lemma RestsOn(config: Config, s: State)
    requires config.capacity == |s.slots| > 0 && s.consumer.pc.Resting?
    ensures ConsumerStep(config, s) == s
  {
  }

  lemma CopyLeftPositive(config: Config, s: State, a: Asked)
    requires Copying(config, s, a) && !s.consumer.pc.Resting?
    ensures CopyLeft(config, s) > 0
  {
    hide Inv, Sendable, MessageFrames, ReadyAt, Left;
    ReadyFacts(config, s.log, s.cells, s.done, s.tail, a.message);
  }

  lemma CopyKeepsPins(config: Config, s: State)
    requires config.capacity == |s.slots| > 0
    requires Position(s.consumer.pc).Some?
    ensures ConsumerStep(config, s).pins == s.pins
  {
    hide Idx, Digest, Consistent;
  }

  lemma OthersCopy(config: Config, s: State, a: Asked, step: Step)
    requires Copying(config, s, a)
    requires !step.Consume? && !step.BeginReceive? && !step.BeginRelease?
    ensures |s.slots| == config.capacity > 0
    ensures var t := Apply(config, s, step); Copying(config, t, a) && CopyLeft(config, t) == CopyLeft(config, s)
  {
    hide Inv, Parts, Sendable, MessageFrames, Apply;
    SlotCount(config, s);
    ApplyKeeps(config, s, step);
    OthersTouch(config, s, step);
    OthersLeaveConsumer(config, s, step);
  }

  lemma {:induction false} RunCopies(config: Config, s: State, a: Asked, run: seq<Step>)
    requires Copying(config, s, a)
    requires NoCalls(run) && Consumes(run) >= CopyLeft(config, s)
    ensures |s.slots| == config.capacity > 0
    ensures var t := Exec(config, s, run); Copying(config, t, a) && t.consumer.pc.Resting?
    decreases |run|
  {
    hide Inv, ConsumerStep, ProducerStep, CopyLeft, Ready;
    SlotCount(config, s);
    if run == [] {
      if !s.consumer.pc.Resting? {
        CopyLeftPositive(config, s, a);
      }
    } else {
      if run[0].Consume? {
        ConsumeCopies(config, s, a);
      } else {
        OthersCopy(config, s, a, run[0]);
      }
      RunCopies(config, Apply(config, s, run[0]), a, run[1..]);
    }
  }

  /**
   * A copying receive that begins at rest with its message fully committed delivers exactly that message
   * within six of the consumer's own steps a slot and four more, whatever the producers do meanwhile.
   */
  lemma CopyDelivers(config: Config, s: State, m: Message, run: seq<Step>)
    requires Reachable(config, s)
    requires s.consumer.pc.Resting? && Ready(config, s, m)
    requires NoCalls(run) && Consumes(run) >= 6 * Len(config, s.log[s.done]) + 4
    ensures |s.slots| == config.capacity > 0
    ensures var t := Exec(config, s, [BeginReceive(Copy)] + run);
            && t.consumer.pc.Resting?
            && t.delivered == s.delivered + [m] && t.done == s.done + 1
            && t.tail == s.tail + Len(config, s.log[s.done]) && t.pins == s.pins
  {
    hide Inv, Reachable, Sendable, MessageFrames, Exec, NoCalls, Consumes, LogOk, LogGrows;
    ReachableInv(config, s);
    InvConsumer(config, s);
    StartKeeps(config, s, SeeHead(Copy));
    var u := SetPc(s, SeeHead(Copy));
    RunCopies(config, u, AskedAt(s), run);
    BeginThen(config, s, Copy, run);
    var t := Exec(config, u, run);
    RunGrows(config, u, run);
    InvConsumer(config, t);
    InvMessages(config, t);
    TailBehind(config, s, t);
  }

  lemma TailBehind(config: Config, s: State, t: State)
    requires s.done < |s.log| && Sendable(config, s.log[s.done].message)
    requires LogOk(config, t.log, |t.cells|) && LogGrows(s.log, t.log)
    ensures StartOf(t.log, |t.cells|, s.done + 1) == s.log[s.done].start + Len(config, s.log[s.done])
  {
    hide Sendable, MessageFrames, LogOk;
    LogStep(config, t.log, |t.cells|, s.done);
  }

  // ---- Nothing to receive ----

  /** The slot at the tail is marked by a writer that is gone. */
  predicate DeadMark(config: Config, s: State)
    requires config.capacity == |s.slots| > 0
  {
    var slot := At(config, s, s.tail);
    slot.state.Writing? && slot.writer.Some? && Gone(s, slot.writer.value.pid)
  }

  lemma LookSteps(config: Config, s: State, op: Op)
    requires config.capacity == |s.slots| > 0
    requires s.consumer.pc.Resting? && Consistent(config, s.head, s.tail)
    ensures Exec(config, s, [BeginReceive(op), Consume, Consume, Consume])
         == s.(consumer := s.consumer.(headSeen := s.head, tailSeen := s.tail, pc := Gate(op, true)))
  {
    hide Consistent, GateStep, CopyStep, ViewStep, ReclaimStep, ReleaseStep, UnpinStep, ProducerStep;
    var a := SetPc(s, SeeHead(op));
    var b := ConsumerStep(config, a);
    var c := ConsumerStep(config, b);
    assert [BeginReceive(op), Consume, Consume, Consume][1..] == [Consume, Consume, Consume];
    assert [Consume, Consume, Consume][1..] == [Consume, Consume];
    assert [Consume, Consume][1..] == [Consume];
    assert [Consume][1..] == [];
    assert Exec(config, c, [Consume]) == Exec(config, ConsumerStep(config, c), []);
    assert Exec(config, b, [Consume, Consume]) == Exec(config, c, [Consume]);
    assert Exec(config, a, [Consume, Consume, Consume]) == Exec(config, b, [Consume, Consume]);
  }

  /**
   * A receive that begins at rest while the slot at the tail is neither committed nor marked by a dead writer
   * is back at rest after five steps, and has changed nothing but the cursors it has seen.
   */
  lemma NothingToReceive(config: Config, s: State, op: Op)
    requires Reachable(config, s)
    requires s.consumer.pc.Resting?
    requires |s.slots| == config.capacity > 0 && !At(config, s, s.tail).state.Committed? && !DeadMark(config, s)
    ensures Exec(config, s, [BeginReceive(op), Consume, Consume, Consume, Consume, Consume])
         == s.(consumer := s.consumer.(headSeen := s.head, tailSeen := s.tail))
  {
    hide Inv, Reachable, Idx, RefreshStep, CopyStep, ViewStep, ReleaseStep, UnpinStep, ProducerStep, Exec;
    ReachableInv(config, s);
    InvCursors(config, s);
    LookSteps(config, s, op);
    var look := [BeginReceive(op), Consume, Consume, Consume];
    var g := Exec(config, s, look);
    assert [BeginReceive(op), Consume, Consume, Consume, Consume, Consume] == look + [Consume, Consume];
    ExecSplit(config, s, look, [Consume, Consume]);
    TwoSteps(config, g);
  }

  lemma TwoSteps(config: Config, s: State)
    requires config.capacity == |s.slots| > 0
    ensures Exec(config, s, [Consume, Consume]) == ConsumerStep(config, ConsumerStep(config, s))
  {
    hide ConsumerStep;
    assert [Consume, Consume][1..] == [Consume];
    assert [Consume][1..] == [];
    assert Exec(config, ConsumerStep(config, s), [Consume])
        == Exec(config, ConsumerStep(config, ConsumerStep(config, s)), []);
  }
}
