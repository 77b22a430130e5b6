/** A receive that finds its message fully committed finishes and delivers exactly that message. */
module RingProgress {
  import opened Errors
  import opened Chunking
  import opened ChunkingProofs
  import opened SlotStates
  import opened Cursors
  import opened Ring
  import opened RingInvariant
  import opened RingProducer
  import opened RingClaim
  import opened RingConsumer
  import opened RingReceive
  import opened RingRuns
  import opened RingTheorems

  /** The reservation the consumer stands in is live, and all its remaining slots are committed. */
  ghost predicate ReadyAt(config: Config, log: seq<Entry>, cells: seq<Cell>, done: nat, tail: nat, m: Message) {
    && CurrentOk(config, log, done)
    && m == log[done].message
    && tail < log[done].start + Len(config, log[done]) <= |cells|
    && forall c :: tail <= c < log[done].start + Len(config, log[done]) ==> cells[c].stage == Done
  }

  ghost predicate Ready(config: Config, s: State, m: Message) {
    ReadyAt(config, s.log, s.cells, s.done, s.tail, m)
  }

  /** The slots of the message that are still to be read. */
  ghost function Left(config: Config, log: seq<Entry>, done: nat, tail: nat): int {
    if CurrentOk(config, log, done) then log[done].start + Len(config, log[done]) - tail else 0
  }

  /** How far a copying receive is from the release of its slot. */
  function Position(pc: Receiving): Option<int> {
    match pc
    case SeeHead(Copy) => Some(3)
    case SeeTail(Copy, _) => Some(2)
    case SeeFloor(Copy) => Some(1)
    case Gate(Copy, _) => Some(0)
    case NextChunk(_) => Some(0)
    case ReadSlot(_, _) => Some(-1)
    case PinSlot(_, _, _) => Some(-2)
    case ClearSlot(_) => Some(-3)
    case FreeSlot(_) => Some(-4)
    case Advance(_) => Some(-5)
    case _ => None
  }

  /** The steps left: six for every slot of the message that is still to be read. */
  ghost function Measure(config: Config, s: State): int
    requires Position(s.consumer.pc).Some?
  {
    6 * Left(config, s.log, s.done, s.tail) + Position(s.consumer.pc).value
  }

  ghost predicate Receives(config: Config, s: State, m: Message) {
    Inv(config, s) && Position(s.consumer.pc).Some? && Ready(config, s, m)
  }

  ghost predicate Finished(config: Config, s: State, m: Message, t: State) {
    && t.consumer.pc.Resting?
    && t.delivered == s.delivered + [m]
    && t.done == s.done + 1
    && t.log == s.log
  }

  ghost predicate Closer(config: Config, s: State, m: Message, t: State) {
    && Receives(config, t, m)
    && Position(s.consumer.pc).Some?
    && Measure(config, t) < Measure(config, s)
    && t.delivered == s.delivered && t.done == s.done && t.log == s.log
  }

  lemma ReadyFacts(config: Config, log: seq<Entry>, cells: seq<Cell>, done: nat, tail: nat, m: Message)
    requires ReadyAt(config, log, cells, done, tail, m)
    ensures CurrentOk(config, log, done) && m == log[done].message
    ensures CommittedTail(cells, tail)
    ensures Left(config, log, done, tail) == log[done].start + Len(config, log[done]) - tail > 0
    ensures tail + 1 < log[done].start + Len(config, log[done]) ==> ReadyAt(config, log, cells, done, tail + 1, m)
  {
    hide Sendable, MessageFrames;
  }

  lemma LookStep(config: Config, s: State, m: Message)
    requires Receives(config, s, m)
    requires s.consumer.pc.SeeHead? || s.consumer.pc.SeeTail? || s.consumer.pc.SeeFloor?
    ensures |s.slots| == config.capacity > 0
    ensures Closer(config, s, m, ConsumerStep(config, s))
  {
    hide Inv, Parts, Sendable, MessageFrames, ReadyAt, Left, ReadingOk, AfterOk, CurrentOk;
    ConsumerStepKeeps(config, s);
    InvConsumer(config, s);
  }

  /** At the gate a ready message is found committed. */
  lemma GateFindsIt(config: Config, s: State, m: Message)
    requires Receives(config, s, m)
    requires s.consumer.pc.Gate? || s.consumer.pc.NextChunk?
    ensures |s.slots| == config.capacity > 0
    ensures s.consumer.tailSeen == s.tail && At(config, s, s.tail).state == Committed
  {
    hide Inv, Parts, Sendable, MessageFrames, Idx, ReadyAt, Left, CommittedTail, CurrentOk, ProgressOk;
    TailSeen(config, s);
    ReadyFacts(config, s.log, s.cells, s.done, s.tail, m);
    if s.consumer.pc.Gate? {
      FirstReading(config, s.log, |s.cells|, s.done, s.tail);
    }
    hide ReadingOk;
    CommittedSlotAtTail(config, s, if s.consumer.pc.Gate? then First else s.consumer.pc.progress);
  }

  lemma FirstReading(config: Config, log: seq<Entry>, frontier: nat, done: nat, tail: nat)
    requires CurrentOk(config, log, done) && tail == StartOf(log, frontier, done)
    ensures ReadingOk(config, log, done, tail, First)
  {
    hide Sendable, MessageFrames;
  }

  lemma GateStepCloser(config: Config, s: State, m: Message)
    requires Receives(config, s, m)
    requires s.consumer.pc.Gate? || s.consumer.pc.NextChunk?
    ensures |s.slots| == config.capacity > 0
    ensures Closer(config, s, m, ConsumerStep(config, s))
  {
    hide Inv, Parts, Sendable, MessageFrames, Idx, ReadyAt, Left;
    ConsumerStepKeeps(config, s);
    GateFindsIt(config, s, m);
  }

  lemma CopyStepCloser(config: Config, s: State, m: Message)
    requires Receives(config, s, m)
    requires s.consumer.pc.ReadSlot? || s.consumer.pc.PinSlot? || s.consumer.pc.ClearSlot? || s.consumer.pc.FreeSlot?
    ensures |s.slots| == config.capacity > 0
    ensures Closer(config, s, m, ConsumerStep(config, s))
  {
    hide Inv, Parts, Sendable, MessageFrames, Idx, Digest, AfterSlot, AfterOk, ReadingOk, ReadyAt, Left;
    ConsumerStepKeeps(config, s);
    if s.consumer.pc.PinSlot? {
      PinSlotFacts(config, s);
    }
  }

  /** What the consumer knows when it moves the tail past a slot. */
  lemma AdvanceFacts(config: Config, s: State, m: Message)
    requires Receives(config, s, m)
    requires s.consumer.pc.Advance?
    ensures s.consumer.tailSeen == s.tail
    ensures var end := s.tail + Left(config, s.log, s.done, s.tail);
            if s.consumer.pc.after.Deliver? then s.consumer.pc.after.message == m && s.tail + 1 == end
            else s.tail + 1 < end && ReadyAt(config, s.log, s.cells, s.done, s.tail + 1, m)
                 && Left(config, s.log, s.done, s.tail + 1) == Left(config, s.log, s.done, s.tail) - 1
  {
    hide Inv, Parts, Sendable, MessageFrames, ReadyAt;
    InvConsumer(config, s);
    ReadyFacts(config, s.log, s.cells, s.done, s.tail, m);
  }

  lemma AdvanceStepCloser(config: Config, s: State, m: Message)
    requires Receives(config, s, m)
    requires s.consumer.pc.Advance?
    ensures |s.slots| == config.capacity > 0
    ensures var t := ConsumerStep(config, s);
            if s.consumer.pc.after.Deliver? then Finished(config, s, m, t) else Closer(config, s, m, t)
  {
    hide Inv, Parts, Sendable, MessageFrames, Idx, ReadyAt, Left, NextSeq;
    ConsumerStepKeeps(config, s);
    AdvanceFacts(config, s, m);
  }

  /** Every consumer step of such a receive finishes it or brings it closer to its end. */
  lemma StepCloser(config: Config, s: State, m: Message)
    requires Receives(config, s, m)
    ensures |s.slots| == config.capacity > 0
    ensures var t := ConsumerStep(config, s); Finished(config, s, m, t) || Closer(config, s, m, t)
  {
    hide Inv, Parts, Closer, Finished, ConsumerStep, Ready;
    var pc := s.consumer.pc;
    if pc.SeeHead? || pc.SeeTail? || pc.SeeFloor? {
      LookStep(config, s, m);
    } else if pc.Gate? || pc.NextChunk? {
      GateStepCloser(config, s, m);
    } else if pc.Advance? {
      AdvanceStepCloser(config, s, m);
    } else {
      CopyStepCloser(config, s, m);
    }
  }

  function Consuming(n: nat): (run: seq<Step>)
    ensures |run| == n
  {
    seq(n, _ => Consume)
  }

  lemma {:induction false} Finishes(config: Config, s: State, m: Message) returns (n: nat)
    requires Receives(config, s, m)
    ensures |s.slots| == config.capacity > 0
    ensures Finished(config, s, m, Exec(config, s, Consuming(n)))
    decreases Measure(config, s)
  {
    hide Inv, Parts, Sendable, MessageFrames, ConsumerStep, ReadyAt, Left;
    StepCloser(config, s, m);
    var t := ConsumerStep(config, s);
    if Finished(config, s, m, t) {
      n := 1;
      assert Consuming(1)[1..] == [];
      assert Exec(config, s, Consuming(1)) == Exec(config, t, []);
    } else {
      MeasureBound(config, s, t, m);
      var k := Finishes(config, t, m);
      n := k + 1;
      assert Consuming(n)[1..] == Consuming(k);
      assert Exec(config, s, Consuming(n)) == Exec(config, t, Consuming(k));
    }
  }

  lemma MeasureBound(config: Config, s: State, t: State, m: Message)
    requires Receives(config, s, m) && Closer(config, s, m, t)
    ensures 0 < Measure(config, t) < Measure(config, s)
  {
    hide Inv, Parts, Sendable, MessageFrames, ReadyAt, Left;
    ReadyFacts(config, t.log, t.cells, t.done, t.tail, m);
  }

  /**
   * When every slot of the next message is committed, a receive that starts at rest ends after finitely
   * many of the consumer's own steps, and delivers exactly that message.
   */
  lemma ReceiveDelivers(config: Config, s: State, m: Message) returns (n: nat)
    requires Reachable(config, s)
    requires s.consumer.pc.Resting? && Ready(config, s, m)
    ensures |s.slots| == config.capacity > 0
    ensures Finished(config, s, m, Exec(config, s, [BeginReceive(Copy)] + Consuming(n)))
  {
    hide Inv, Parts, Reachable, Sendable, MessageFrames, ReadyAt;
    ReachableInv(config, s);
    var t := SetPc(s, SeeHead(Copy));
    StartKeeps(config, s, SeeHead(Copy));
    var k := Finishes(config, t, m);
    n := k;
    var run := [BeginReceive(Copy)] + Consuming(n);
    assert run[1..] == Consuming(n);
    assert Exec(config, s, run) == Exec(config, t, Consuming(n));
  }

  // ---- One producer: a published head is enough ----

  lemma LogStep(config: Config, log: seq<Entry>, frontier: nat, i: nat)
    requires LogOk(config, log, frontier) && i < |log|
    ensures Sendable(config, log[i].message)
    ensures log[i].start + Len(config, log[i]) == StartOf(log, frontier, i + 1) <= frontier
  {
    hide Sendable, MessageFrames;
  }

  lemma {:induction false} StartsGrow(config: Config, log: seq<Entry>, frontier: nat, i: nat, j: nat)
    requires LogOk(config, log, frontier)
    requires i < j < |log|
    ensures Sendable(config, log[i].message) && log[i].start + Len(config, log[i]) <= log[j].start
    decreases j - i
  {
    hide Sendable, MessageFrames, LogOk;
    LogStep(config, log, frontier, i);
    if i + 1 < j {
      StartsGrow(config, log, frontier, i + 1, j);
    }
  }

  /** With one producer the published head never splits a message. */
  lemma PublishedIsReady(config: Config, s: State, p: nat)
    requires Reachable(config, s)
    requires !config.multiProducer && p in s.producers
    requires s.consumer.pc.Resting? && s.tail < s.head
    ensures s.done < |s.log|
    ensures Ready(config, s, s.log[s.done].message)
  {
    hide Inv, Parts, Reachable, Sendable, MessageFrames, LogOk, CellsOk;
    ReachableInv(config, s);
    InvConsumer(config, s);
    InvMessages(config, s);
    InvCells(config, s);
    InvDelivered(config, s);
    InvLog(config, s);
    EntryAt(config, s.log, s.cells, s.done, s.tail, 0);
    NextIsBelowHead(config, s, p);
  }

  lemma NextIsBelowHead(config: Config, s: State, p: nat)
    requires Inv(config, s)
    requires !config.multiProducer && p in s.producers
    requires s.done < |s.log| && s.tail == s.log[s.done].start && s.tail < s.head
    requires Sendable(config, s.log[s.done].message)
    ensures s.log[s.done].start + Len(config, s.log[s.done]) <= s.head <= |s.cells|
  {
    hide Inv, Parts, Sendable, MessageFrames, LogOk;
    InvProducer(config, s, p);
    InvMessages(config, s);
    InvCursors(config, s);
    InvDelivered(config, s);
    LogStep(config, s.log, |s.cells|, s.done);
    if s.done + 1 < |s.log| {
      StartsGrow(config, s.log, |s.cells|, s.done, |s.log| - 1);
    }
  }

  /** With one producer, a receive that starts while the published head is past the tail delivers. */
  lemma PublishedIsDelivered(config: Config, s: State, p: nat) returns (n: nat)
    requires Reachable(config, s)
    requires !config.multiProducer && p in s.producers
    requires s.consumer.pc.Resting? && s.tail < s.head
    ensures s.done < |s.log| && |s.slots| == config.capacity > 0
    ensures Finished(config, s, s.log[s.done].message, Exec(config, s, [BeginReceive(Copy)] + Consuming(n)))
  {
    hide Reachable, Ready, Finished;
    PublishedIsReady(config, s, p);
    n := ReceiveDelivers(config, s, s.log[s.done].message);
  }
}
