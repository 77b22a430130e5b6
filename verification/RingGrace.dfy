/**
 * Whether the later chunks of a message are committed when a receive that has taken its first chunk comes
 * to them, and the bounded poll for them can be trusted.
 */
module RingGrace {
  import opened Bytes
  import opened Errors
  import opened Chunking
  import opened ChunkingProofs
  import opened Cursors
  import opened Ring
  import opened RingInvariant
  import opened RingProducer
  import opened RingConsumer
  import opened RingReceive
  import opened RingHistory
  import opened RingRuns
  import opened RingTheorems
  import opened RingProgress

  // ---- Runs of a careful consumer ----

  /** A consumer that checks the cursors first begins a receive only while the head is past the tail. */
  predicate Careful(checked: bool, s: State, step: Step) {
    checked && step.BeginReceive? && s.consumer.pc.Resting? ==> s.tail < s.head
  }

  ghost predicate RunCareful(config: Config, checked: bool, s: State, run: seq<Step>)
    requires config.capacity == |s.slots| > 0
    decreases |run|
  {
    run != [] ==> Careful(checked, s, run[0]) && RunCareful(config, checked, Apply(config, s, run[0]), run[1..])
  }

  ghost predicate ReachableBy(config: Config, checked: bool, s: State) {
    exists s0: State, run: seq<Step> ::
      Init(config, s0) && RunCareful(config, checked, s0, run) && s == Exec(config, s0, run)
  }

  lemma ByInv(config: Config, checked: bool, s: State)
    requires ReachableBy(config, checked, s)
    ensures Reachable(config, s) && Inv(config, s) && config.capacity == |s.slots| > 0
  {
    hide Inv, Init;
    ReachableInv(config, s);
  }

  lemma {:induction false} ExecAppend(config: Config, checked: bool, s: State, run: seq<Step>, step: Step)
    requires config.capacity == |s.slots| > 0
    requires RunCareful(config, checked, s, run) && Careful(checked, Exec(config, s, run), step)
    ensures Exec(config, s, run + [step]) == Apply(config, Exec(config, s, run), step)
    ensures RunCareful(config, checked, s, run + [step])
    decreases |run|
  {
    hide Apply, Careful;
    if run == [] {
      assert run + [step] == [step];
      assert Exec(config, s, [step]) == Exec(config, Apply(config, s, step), [step][1..]);
    } else {
      assert (run + [step])[1..] == run[1..] + [step];
      ExecAppend(config, checked, Apply(config, s, run[0]), run[1..], step);
    }
  }

  lemma Go(config: Config, checked: bool, s: State, step: Step) returns (t: State)
    requires ReachableBy(config, checked, s)
    requires Careful(checked, s, step)
    ensures config.capacity == |s.slots| > 0 && t == Apply(config, s, step)
    ensures ReachableBy(config, checked, t)
  {
    ByInv(config, checked, s);
    hide Apply, Inv, Careful, Init;
    var s0: State, run: seq<Step> :|
      Init(config, s0) && RunCareful(config, checked, s0, run) && s == Exec(config, s0, run);
    InitCount(config, s0);
    ExecAppend(config, checked, s0, run, step);
    t := Apply(config, s, step);
    assert t == Exec(config, s0, run + [step]);
  }

  lemma InitCount(config: Config, s: State)
    requires Init(config, s)
    ensures config.capacity == |s.slots| > 0
  {
  }

  // ---- With one producer and a published head nothing is missing ----

  /** A receive is under way. */
  predicate InReceive(pc: Receiving) {
    pc.SeeHead? || pc.SeeTail? || pc.SeeFloor? || pc.Gate? || pc.NextChunk? || pc.ReadSlot? || pc.PinSlot?
    || pc.ClearSlot? || pc.FreeSlot? || pc.Advance? || pc.ViewSlot? || pc.ViewPin? || PinningTail(pc)
  }

  /** The message a receive stands in is published as a whole. */
  ghost predicate Covered(config: Config, s: State) {
    InReceive(s.consumer.pc) ==>
      && s.done < |s.log| && Sendable(config, s.log[s.done].message)
      && s.log[s.done].start + Len(config, s.log[s.done]) <= s.head
  }

  /** Until a receive ends, its consumer steps change neither the message it stands in nor the head. */
  lemma CopyKeepsCovered(config: Config, s: State)
    requires config.capacity == |s.slots| > 0 && Covered(config, s)
    requires InReceive(s.consumer.pc)
    ensures Covered(config, CopyStep(config, s))
  {
    hide Sendable, MessageFrames, Idx, Digest;
  }

  lemma ViewKeepsCovered(config: Config, s: State)
    requires config.capacity == |s.slots| > 0 && Covered(config, s)
    requires InReceive(s.consumer.pc)
    ensures Covered(config, ViewStep(config, s))
  {
    hide Sendable, MessageFrames, Idx, Viewable;
  }

  lemma LookKeepsCovered(config: Config, s: State)
    requires config.capacity == |s.slots| > 0 && Covered(config, s)
    requires InReceive(s.consumer.pc)
    ensures Covered(config, RefreshStep(config, s))
    ensures Covered(config, GateStep(config, s))
  {
    hide Sendable, MessageFrames, Idx, Consistent;
  }

  lemma ReleaseStaysOut(config: Config, s: State)
    requires config.capacity == |s.slots| > 0 && !InReceive(s.consumer.pc)
    ensures !InReceive(ReleaseStep(config, s).consumer.pc)
  {
    hide Idx;
  }

  lemma UnpinStaysOut(config: Config, s: State)
    requires config.capacity == |s.slots| > 0 && !InReceive(s.consumer.pc)
    ensures !InReceive(UnpinStep(config, s).consumer.pc)
  {
    hide Idx;
  }

  /** A call that is no receive does not become one. */
  lemma CallStaysOut(config: Config, s: State)
    requires config.capacity == |s.slots| > 0 && !InReceive(s.consumer.pc)
    requires !Reclaiming(s.consumer.pc) && !s.consumer.pc.ReclaimRead? && !s.consumer.pc.ReclaimVerify?
    ensures !InReceive(ConsumerStep(config, s).consumer.pc)
  {
    hide RefreshStep, GateStep, CopyStep, ViewStep, ReleaseStep, UnpinStep, ReclaimStep;
    ReleaseStaysOut(config, s);
    UnpinStaysOut(config, s);
  }

  lemma NoReclaim(config: Config, s: State)
    requires Inv(config, s) && !config.multiProducer
    ensures config.capacity == |s.slots| > 0
    ensures !Reclaiming(s.consumer.pc) && !s.consumer.pc.ReclaimRead? && !s.consumer.pc.ReclaimVerify?
  {
    hide Inv, Parts, Sendable, MessageFrames;
    SlotCount(config, s);
    InvConsumer(config, s);
  }

  lemma ConsumerKeepsCovered(config: Config, s: State)
    requires Inv(config, s) && Covered(config, s)
    requires !config.multiProducer
    ensures config.capacity == |s.slots| > 0 && Covered(config, ConsumerStep(config, s))
  {
    hide Inv, RefreshStep, GateStep, CopyStep, ViewStep, ReleaseStep, UnpinStep, ReclaimStep;
    NoReclaim(config, s);
    if InReceive(s.consumer.pc) {
      CopyKeepsCovered(config, s);
      ViewKeepsCovered(config, s);
      LookKeepsCovered(config, s);
    } else {
      CallStaysOut(config, s);
    }
  }

  /** The published head only grows. */
  lemma ProducerKeepsCovered(config: Config, s: State, p: nat, retry: bool)
    requires Inv(config, s) && Covered(config, s)
    requires !config.multiProducer && p in s.producers && s.producers[p].alive
    ensures config.capacity == |s.slots| > 0 && Covered(config, ProducerStep(config, s, p, retry))
  {
    hide Inv, Parts, Sendable, MessageFrames, Idx, GuardLen, Consistent, WriteStep;
    SlotCount(config, s);
    InvProducer(config, s, p);
    StepByProducer(config, s, p, retry);
    if s.producers[p].pc.WriteSlot? {
      WriteKeepsHead(config, s, p);
    }
  }

  lemma WriteKeepsHead(config: Config, s: State, p: nat)
    requires config.capacity == |s.slots| > 0
    requires p in s.producers && s.producers[p].pc.WriteSlot?
    ensures WriteStep(config, s, p).head == s.head
  {
    hide Sendable, MessageFrames, Idx;
  }

  lemma ReceiveIsCovered(config: Config, s: State)
    requires Inv(config, s)
    requires !config.multiProducer && 0 in s.producers
    requires s.consumer.pc.Resting? && s.tail < s.head
    ensures s.done < |s.log| && Sendable(config, s.log[s.done].message)
    ensures s.log[s.done].start + Len(config, s.log[s.done]) <= s.head
  {
    hide Inv, Parts, Sendable, MessageFrames, LogOk, CellsOk;
    InvConsumer(config, s);
    InvMessages(config, s);
    InvCells(config, s);
    InvLog(config, s);
    EntryAt(config, s.log, s.cells, s.done, s.tail, 0);
    NextIsBelowHead(config, s, 0);
  }

  lemma StepKeepsCovered(config: Config, s: State, step: Step)
    requires Inv(config, s) && Covered(config, s)
    requires !config.multiProducer && 0 in s.producers && Careful(true, s, step)
    ensures config.capacity == |s.slots| > 0
    ensures Covered(config, Apply(config, s, step)) && 0 in Apply(config, s, step).producers
  {
    hide Inv, Parts, Sendable, MessageFrames, ConsumerStep, ProducerStep;
    SlotCount(config, s);
    match step {
      case Produce(p, retry) =>
        if p in s.producers && s.producers[p].alive {
          ProducerKeepsCovered(config, s, p, retry);
          StepByProducer(config, s, p, retry);
        }
      case BeginReceive(_) =>
        if s.consumer.pc.Resting? {
          ReceiveIsCovered(config, s);
        }
      case Consume =>
        ConsumerKeepsCovered(config, s);
        ConsumerKeepsProducers(config, s);
      case _ =>
    }
  }

  lemma ConsumerKeepsProducers(config: Config, s: State)
    requires config.capacity == |s.slots| > 0
    ensures ConsumerStep(config, s).producers == s.producers
  {
    hide Idx, Digest, Viewable, Consistent;
  }

  lemma {:induction false} RunKeepsCovered(config: Config, s: State, run: seq<Step>)
    requires Inv(config, s) && Covered(config, s)
    requires config.capacity == |s.slots| > 0
    requires !config.multiProducer && 0 in s.producers && RunCareful(config, true, s, run)
    ensures Covered(config, Exec(config, s, run))
    decreases |run|
  {
    hide Inv, Parts, Apply, Covered, Careful;
    if run != [] {
      StepKeepsCovered(config, s, run[0]);
      ApplyKeeps(config, s, run[0]);
      RunKeepsCovered(config, Apply(config, s, run[0]), run[1..]);
    }
  }

  lemma ReachableIsCovered(config: Config, s: State)
    requires ReachableBy(config, true, s)
    requires !config.multiProducer
    ensures Covered(config, s)
  {
    hide Inv, Parts, Covered, RunCareful;
    var s0: State, run: seq<Step> :|
      Init(config, s0) && RunCareful(config, true, s0, run) && s == Exec(config, s0, run);
    InitHolds(config, s0);
    StartIsCovered(config, s0);
    hide Init;
    RunKeepsCovered(config, s0, run);
  }

  lemma StartIsCovered(config: Config, s: State)
    requires Init(config, s) && !config.multiProducer
    ensures config.capacity == |s.slots| > 0 && Covered(config, s) && 0 in s.producers
  {
  }

  lemma LaterChunksCommitted(config: Config, s: State)
    requires ReachableBy(config, true, s)
    requires !config.multiProducer && s.consumer.pc.NextChunk?
    ensures config.capacity == |s.slots| > 0
    ensures At(config, s, s.consumer.tailSeen).state.Committed?
  {
    hide Inv, Parts, Sendable, MessageFrames, Idx, ReachableBy, ProgressOk;
    ReachableIsCovered(config, s);
    ByInv(config, true, s);
    TailSeen(config, s);
    InvLog(config, s);
    CommittedSlotAtTail(config, s, s.consumer.pc.progress);
  }

  // ---- A message of two chunks or more, caught between its chunks ----

  /** Some message longer than a slot is accepted. */
  predicate AcceptsChunked(config: Config) {
    config.slotSize < USIZE_MAX && PlanFor(config, config.slotSize + 1).Ok?
  }

  /** Longer messages are chunked; if any is accepted, the shortest of them is. */
  lemma ChunkedIsAccepted(config: Config, m: Message)
    requires Sendable(config, m) && |MessageFrames(config, m)| > 1
    ensures AcceptsChunked(config)
  {
    hide MessageFrames, PlanFor, MaxMessageSize;
    OneFrame(config, m);
    AcceptedIff(config, |m.payload|);
    AcceptedIff(config, config.slotSize + 1);
  }

  /** A fresh region on which producer 0 has reserved slots for `m` and committed the first of them. */
  ghost predicate FirstCommitted(config: Config, s: State, m: Message) {
    && config.capacity == |s.slots| > 0
    && Sendable(config, m)
    && s.tail == 0 && s.done == 0 && s.pins == {}
    && s.head == (if config.multiProducer then |MessageFrames(config, m)| else 0)
    && s.consumer == Consumer(0, false, 0, 0, Resting)
    && s.log == [Entry(0, m, 0, false)] && |s.cells| == |MessageFrames(config, m)|
    && 0 in s.producers && s.producers[0].alive
    && (1 < |MessageFrames(config, m)| ==> s.producers[0].pc == WriteSlot(0, 1, Check))
    && (forall i :: 1 <= i < |s.slots| ==> s.slots[i].state.Free?)
    && s.slots[0].state.Committed?
  }

  /** Producer 0 has loaded the cursors of a fresh region. */
  lemma LoadsCursors(config: Config, checked: bool, bytes: seq<byte>) returns (s: State)
    requires ConfigOk(config) && Sendable(config, Message(0, bytes))
    ensures ReachableBy(config, checked, s) && config.capacity == |s.slots| > 0
    ensures s == State.State(0, 0, None, seq(config.capacity, _ => EMPTY_SLOT),
                             map[0 := Producer(true, 0, Reserve(bytes, 0, 0, None))],
                             Consumer(0, false, 0, 0, Resting), [], [], {}, 0, [])
  {
    hide ReachableBy, Sendable, MessageFrames, WriteStep, ConsumerStep, TryReserve;
    s := State.State(0, 0, None, seq(config.capacity, _ => EMPTY_SLOT),
                     if config.multiProducer then map[] else map[0 := Producer(true, 0, Idle)],
                     Consumer(0, false, 0, 0, Resting), [], [], {}, 0, []);
    FreshReachable(config, checked, s);
    s := Go(config, checked, s, Join(0, 0));
    assert s.producers == map[0 := Producer(true, 0, Idle)];
    s := Go(config, checked, s, BeginSend(0, bytes));
    s := Go(config, checked, s, Produce(0, false));
    s := Go(config, checked, s, Produce(0, false));
    s := Go(config, checked, s, Produce(0, false));
    assert s.producers == map[0 := Producer(true, 0, Reserve(bytes, 0, 0, None))];
  }

  /** Producer 0 joins and reserves the slots of the first message. */
  lemma Reserves(config: Config, checked: bool, bytes: seq<byte>) returns (s: State)
    requires ConfigOk(config) && Sendable(config, Message(0, bytes))
    ensures ReachableBy(config, checked, s) && config.capacity == |s.slots| > 0
    ensures var n := |MessageFrames(config, Message(0, bytes))|;
            s == State.State(if config.multiProducer then n else 0, 0, None, seq(config.capacity, _ => EMPTY_SLOT),
                             map[0 := Producer(true, NextSeq(0), WriteSlot(0, 0, Check))],
                             Consumer(0, false, 0, 0, Resting),
                             [Entry(0, Message(0, bytes), 0, false)], NewCells(0, n), {}, 0, [])
  {
    hide ReachableBy, Sendable, MessageFrames, WriteStep, ConsumerStep, NewCells;
    s := LoadsCursors(config, checked, bytes);
    s := Go(config, checked, s, Produce(0, false));
    assert s.producers == map[0 := Producer(true, NextSeq(0), WriteSlot(0, 0, Check))];
  }

  lemma FreshReachable(config: Config, checked: bool, s: State)
    requires Init(config, s)
    ensures config.capacity == |s.slots| > 0 && ReachableBy(config, checked, s)
  {
    assert s == Exec(config, s, []) && RunCareful(config, checked, s, []);
  }

  lemma CommitsFirst(config: Config, checked: bool, bytes: seq<byte>) returns (s: State)
    requires ConfigOk(config) && Sendable(config, Message(0, bytes))
    ensures ReachableBy(config, checked, s)
    ensures FirstCommitted(config, s, Message(0, bytes))
  {
    hide ReachableBy, Sendable, MessageFrames, Apply;
    s := Reserves(config, checked, bytes);
    s := WritesFirst(config, checked, s, Message(0, bytes), Check);
    s := WritesFirst(config, checked, s, Message(0, bytes), Mark);
    s := WritesFirst(config, checked, s, Message(0, bytes), Fill);
    s := WritesFirst(config, checked, s, Message(0, bytes), Commit);
  }

  /** One step of writing the first slot. */
  lemma WritesFirst(config: Config, checked: bool, s: State, m: Message, phase: Phase) returns (t: State)
    requires ReachableBy(config, checked, s) && config.capacity == |s.slots| > 0
    requires Sendable(config, m) && s.log == [Entry(0, m, 0, false)] && s.cells != []
    requires 0 in s.producers && s.producers[0].alive && s.producers[0].pc == WriteSlot(0, 0, phase)
    requires phase.Check? ==> s.slots[0].state.Free?
    ensures ReachableBy(config, checked, t) && config.capacity == |t.slots| > 0
    ensures t == s.(slots := t.slots, cells := t.cells, producers := t.producers) && |t.cells| == |s.cells|
    ensures forall i :: 1 <= i < |s.slots| ==> t.slots[i] == s.slots[i]
    ensures 0 in t.producers && t.producers[0].alive
    ensures match phase
            case Check => t.producers[0].pc == WriteSlot(0, 0, Mark)
            case Mark => t.producers[0].pc == WriteSlot(0, 0, Fill)
            case Fill => t.producers[0].pc == WriteSlot(0, 0, Commit)
            case Commit =>
              && t.slots[0].state.Committed?
              && (1 < |MessageFrames(config, m)| ==> t.producers[0].pc == WriteSlot(0, 1, Check))
  {
    hide ReachableBy, Sendable, MessageFrames, ConsumerStep, TryReserve;
    t := Go(config, checked, s, Produce(0, false));
  }

  /** The consumer has found the first slot committed and read it. */
  lemma ReadsFirst(config: Config, checked: bool, s: State, m: Message) returns (t: State)
    requires ReachableBy(config, checked, s) && FirstCommitted(config, s, m)
    requires checked ==> config.multiProducer
    ensures ReachableBy(config, checked, t)
    ensures t.consumer.pc.PinSlot? && t.consumer.pc.progress.First? && t.consumer.tailSeen == 0
    ensures t == s.(consumer := t.consumer)
  {
    hide ReachableBy, Sendable, MessageFrames, ProducerStep, ViewStep, ReclaimStep;
    t := Go(config, checked, s, BeginReceive(Copy));
    t := Go(config, checked, t, Consume);
    t := Go(config, checked, t, Consume);
    t := Go(config, checked, t, Consume);
    t := Go(config, checked, t, Consume);
    t := Go(config, checked, t, Consume);
  }

  /** The consumer has read and released the first slot, and is about to pass it. */
  lemma TakesFirst(config: Config, checked: bool, s: State, m: Message) returns (t: State)
    requires ReachableBy(config, checked, s) && FirstCommitted(config, s, m)
    requires checked ==> config.multiProducer
    ensures ReachableBy(config, checked, t) && config.capacity == |t.slots| > 0
    ensures t.consumer.pc == Advance(AfterSlot(config, m, 0)) && t.consumer.tailSeen == 0
    ensures t == s.(slots := t.slots, consumer := t.consumer)
    ensures forall i :: 1 <= i < |t.slots| ==> t.slots[i].state.Free?
  {
    hide ReachableBy, Sendable, MessageFrames, ProducerStep, Digest, AfterSlot, Inv, RefreshStep, GateStep, ViewStep;
    t := ReadsFirst(config, checked, s, m);
    ByInv(config, checked, t);
    PinSlotFacts(config, t);
    t := Go(config, checked, t, Consume);
    t := Go(config, checked, t, Consume);
    t := Go(config, checked, t, Consume);
  }

  /** Producer 0 is about to write the second slot of the first message. */
  ghost predicate SecondPending(config: Config, s: State, phase: Phase) {
    && 0 in s.producers && s.producers[0].alive && s.producers[0].pc == WriteSlot(0, 1, phase)
    && |s.log| == 1 && s.log[0].start == 0 && Sendable(config, s.log[0].message)
    && 1 < |MessageFrames(config, s.log[0].message)| == |s.cells|
  }

  /**
   * Between the chunks of a message the consumer can come to a slot that its producer has not written yet:
   * with several producers always, with one producer if the receive did not wait for the published head.
   */
  lemma CaughtBetweenChunks(config: Config, checked: bool) returns (s: State)
    requires ConfigOk(config) && AcceptsChunked(config)
    requires checked ==> config.multiProducer
    ensures ReachableBy(config, checked, s) && config.capacity == |s.slots| > 0
    ensures s.consumer.pc.NextChunk? && s.consumer.tailSeen == s.tail == 1 && s.pins == {}
    ensures At(config, s, s.tail).state.Free? && SecondPending(config, s, Check)
  {
    hide ReachableBy, MessageFrames, PlanFor;
    var bytes := seq(config.slotSize + 1, _ => 0);
    var m := Message(0, bytes);
    OneFrame(config, m);
    s := CommitsFirst(config, checked, bytes);
    s := TakesFirst(config, checked, s, m);
    s := Go(config, checked, s, Consume);
  }

  // ---- Exactly when the poll between chunks can be trusted ----

  /** Whenever a receive comes to a later chunk, its slot is committed. */
  ghost predicate LaterChunksReady(config: Config, checked: bool) {
    forall s :: ReachableBy(config, checked, s) && s.consumer.pc.NextChunk? ==>
      config.capacity == |s.slots| > 0 && At(config, s, s.consumer.tailSeen).state.Committed?
  }

  /**
   * Once the first chunk of a message is visible, all its later chunks are committed, on every run, exactly
   * if no message is ever chunked, or there is one producer and the consumer receives only while the
   * published head is past the tail.
   */
  lemma LaterChunksReadyExactly(config: Config, checked: bool)
    requires ConfigOk(config)
    ensures LaterChunksReady(config, checked)
        <==> !AcceptsChunked(config) || (checked && !config.multiProducer)
  {
    hide ReachableBy, AcceptsChunked, Inv, Sendable, MessageFrames;
    if AcceptsChunked(config) && !(checked && !config.multiProducer) {
      var s := CaughtBetweenChunks(config, checked);
    } else {
      forall s | ReachableBy(config, checked, s) && s.consumer.pc.NextChunk?
        ensures config.capacity == |s.slots| > 0 && At(config, s, s.consumer.tailSeen).state.Committed?
      {
        ByInv(config, checked, s);
        TailSeen(config, s);
        ChunkedIsAccepted(config, s.log[s.done].message);
        LaterChunksCommitted(config, s);
      }
    }
  }
}
