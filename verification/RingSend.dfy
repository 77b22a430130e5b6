/**
 * A send on the ring, step by step and under every interleaving: when its reservation wins, what it leaves
 * when it does not, and that a reservation that won is written and published to its end.
 */
module RingSend {
  import opened Bytes
  import opened Errors
  import opened Chunking
  import opened ChunkingProofs
  import opened Cursors
  import opened Ring
  import opened RingInvariant
  import opened RingProducer
  import opened RingClaim
  import opened RingConsumer
  import opened RingHistory
  import opened RingRuns
  import opened RingTheorems
  import opened RingProgress
  import opened RingDeadWriter

  // ---- What the other processes leave alone ----

  /** The step is one of producer p's own, or its crash. */
  predicate Own(step: Step, p: nat) {
    (step.Produce? || step.Crash?) && step.p == p
  }

  /** A run in which producer p does not step; the other processes do what they like. */
  predicate Without(run: seq<Step>, p: nat) {
    forall i :: 0 <= i < |run| ==> !Own(run[i], p)
  }

  lemma StepLeavesProducer(config: Config, s: State, step: Step, p: nat)
    requires config.capacity == |s.slots| > 0
    requires p in s.producers
    requires !Own(step, p) && (step.BeginSend? && step.p == p ==> !s.producers[p].pc.Idle?)
    ensures var t := Apply(config, s, step); p in t.producers && t.producers[p] == s.producers[p]
  {
    hide ConsumerStep, ProducerStep, Sendable, CellsGrow;
    StepByConsumer(config, s);
    if step.Produce? && step.p in s.producers && s.producers[step.p].alive {
      StepByProducer(config, s, step.p, step.retry);
    }
  }

  lemma {:induction false} RunLeavesProducer(config: Config, s: State, run: seq<Step>, p: nat)
    requires config.capacity == |s.slots| > 0
    requires p in s.producers && !s.producers[p].pc.Idle?
    requires Without(run, p)
    ensures var t := Exec(config, s, run); p in t.producers && t.producers[p] == s.producers[p]
    decreases |run|
  {
    hide Apply;
    if run != [] {
      StepLeavesProducer(config, s, run[0], p);
      RunLeavesProducer(config, Apply(config, s, run[0]), run[1..], p);
    }
  }

  // ---- The reservation ----

  /** A message of n slots ends at most one lap past the tail and past the oldest live view. */
  predicate Room(config: Config, n: nat, head: nat, tail: nat, floor: Option<nat>) {
    && head + n <= tail + config.capacity
    && (floor.Some? ==> head + n <= floor.value + config.capacity)
  }

  /** Producer p has claimed the next n cursors, from the head on, for exactly these bytes. */
  ghost predicate Claims(config: Config, s: State, p: nat, bytes: seq<byte>, n: nat, t: State)
    requires p in s.producers
  {
    var seqNo := s.producers[p].nextSeq;
    && s.head == |s.cells|
    && t == s.(head := if config.multiProducer then s.head + n else s.head,
               log := s.log + [Entry(s.head, Message(seqNo, bytes), p, false)],
               cells := t.cells,
               producers := s.producers[p := Producer(true, (seqNo + 1) % U64_RANGE, WriteSlot(|s.log|, 0, Check))])
    && |t.cells| == |s.cells| + n
    && (forall c :: 0 <= c < |s.cells| ==> t.cells[c] == s.cells[c])
    && (forall k :: 0 <= k < n ==> t.cells[|s.cells| + k] == Cell(|s.log|, k, Reserved))
  }

  /** Producer p gives up or starts over; nothing else has changed. */
  predicate Withdraws(s: State, p: nat, next: Sending, t: State)
    requires p in s.producers
  {
    t == s.(producers := s.producers[p := s.producers[p].(pc := next)])
  }

  /** The number of slots does not depend on the sequence number. */
  lemma SameSlots(config: Config, bytes: seq<byte>, a: u64, b: u64)
    requires Sendable(config, Message(a, bytes))
    ensures Sendable(config, Message(b, bytes))
    ensures |MessageFrames(config, Message(a, bytes))| == |MessageFrames(config, Message(b, bytes))|
  {
    hide PlanFor;
  }

  lemma ClaimIsExplicit(config: Config, s: State, p: nat, m: Message)
    requires p in s.producers && s.producers[p].alive
    requires Sendable(config, m) && m.seqNo == s.producers[p].nextSeq
    requires s.head == |s.cells|
    ensures Claims(config, s, p, m.payload, |MessageFrames(config, m)|, Claim(config, s, p, m))
  {
    hide Sendable, MessageFrames;
  }

  /** What one attempt makes of the cursors it has loaded. */
  lemma AttemptOutcome(config: Config, s: State, p: nat, retry: bool)
    requires Inv(config, s)
    requires p in s.producers && s.producers[p].alive && s.producers[p].pc.Reserve?
    requires s.producers[p].pc.head <= s.producers[p].pc.tail + config.capacity
    ensures |s.slots| == config.capacity > 0
    ensures var Reserve(bytes, head, tail, floor) := s.producers[p].pc;
            && Sendable(config, Message(0, bytes))
            && var t, n := Apply(config, s, Produce(p, retry)), |MessageFrames(config, Message(0, bytes))|;
               if Room(config, n, head, tail, floor) && s.head == head then Claims(config, s, p, bytes, n, t)
               else
                 Withdraws(s, p, if tail > head + config.capacity then Idle
                                 else if Room(config, n, head, tail, floor) || retry then LoadHead(bytes)
                                 else Idle, t)
  {
    hide Inv, Parts, Sendable, MessageFrames, GuardLen;
    SlotCount(config, s);
    InvProducer(config, s, p);
    InvCursors(config, s);
    var Reserve(bytes, head, tail, floor) := s.producers[p].pc;
    var m := Message(s.producers[p].nextSeq, bytes);
    SameSlots(config, bytes, 0, m.seqNo);
    GuardFits(config, head, tail, floor, 0, |MessageFrames(config, m)|);
    if s.head == head {
      ClaimIsExplicit(config, s, p, m);
    }
  }

  // ---- One attempt, interleaved with everything else ----

  /** One step of producer p's loads, and what the others do after it. */
  lemma LoadThen(config: Config, s: State, p: nat, retry: bool, rest: seq<Step>)
    requires Inv(config, s)
    requires p in s.producers && s.producers[p].alive
    requires s.producers[p].pc.LoadHead? || s.producers[p].pc.LoadTail? || s.producers[p].pc.LoadFloor?
    requires Without(rest, p)
    ensures |s.slots| == config.capacity > 0
    ensures var t := Exec(config, Apply(config, s, Produce(p, retry)), rest);
            && Inv(config, t) && s.tail <= t.tail
            && p in t.producers && t.producers[p].alive && t.producers[p].nextSeq == s.producers[p].nextSeq
            && t.producers[p].pc == (match s.producers[p].pc
                                     case LoadHead(bytes) => LoadTail(bytes, s.head)
                                     case LoadTail(bytes, head) => LoadFloor(bytes, head, s.tail)
                                     case LoadFloor(bytes, head, tail) => Reserve(bytes, head, tail, s.floor)
                                     case _ => Idle)
  {
    hide Inv, Exec, Without, TryReserve, WriteStep, ConsumerStep;
    SlotCount(config, s);
    ApplyKeeps(config, s, Produce(p, retry));
    var u := Apply(config, s, Produce(p, retry));
    RunLeavesProducer(config, u, rest, p);
    ExecKeeps(config, u, rest);
    RunGrows(config, u, rest);
  }

  /**
   * One attempt of a send, with anything the other processes do between its four shared accesses: it loads
   * the head, then the tail, then the floor, and reserves exactly if the message has room behind what it
   * loaded and, when the head can move under it, no other reservation won since. Otherwise it withdraws.
   */
  lemma AttemptReserves(
    config: Config, s: State, p: nat, retry: bool, a: seq<Step>, b: seq<Step>, c: seq<Step>)
    requires Inv(config, s)
    requires p in s.producers && s.producers[p].alive && s.producers[p].pc.LoadHead?
    requires Without(a, p) && Without(b, p) && Without(c, p)
    ensures |s.slots| == config.capacity > 0
    ensures var bytes := s.producers[p].pc.bytes;
            && Sendable(config, Message(0, bytes))
            && var s1 := Exec(config, Apply(config, s, Produce(p, retry)), a);
               var s2 := Exec(config, Apply(config, s1, Produce(p, retry)), b);
               var s3 := Exec(config, Apply(config, s2, Produce(p, retry)), c);
               var t := Apply(config, s3, Produce(p, retry));
               var n := |MessageFrames(config, Message(0, bytes))|;
               && p in s3.producers && s3.producers[p].nextSeq == s.producers[p].nextSeq
               && Inv(config, t)
               && if Room(config, n, s.head, s1.tail, s2.floor) && s3.head == s.head then
                    Claims(config, s3, p, bytes, n, t)
                  else
                    Withdraws(s3, p, if s1.tail > s.head + config.capacity then Idle
                                     else if Room(config, n, s.head, s1.tail, s2.floor) || retry then LoadHead(bytes)
                                     else Idle, t)
  {
    hide Inv, Exec, Apply, Without, Room, Claims, Withdraws, Sendable, MessageFrames;
    SlotCount(config, s);
    LoadThen(config, s, p, retry, a);
    var s1 := Exec(config, Apply(config, s, Produce(p, retry)), a);
    LoadThen(config, s1, p, retry, b);
    var s2 := Exec(config, Apply(config, s1, Produce(p, retry)), b);
    LoadThen(config, s2, p, retry, c);
    var s3 := Exec(config, Apply(config, s2, Produce(p, retry)), c);
    InvCursors(config, s);
    AttemptOutcome(config, s3, p, retry);
    ApplyKeeps(config, s3, Produce(p, retry));
  }

  /**
   * A send that starts at rest, with anything the other processes do between its shared accesses. With `n`
   * the slots of the message, `s1.head`, `s2.tail` and `s3.floor` the words as they are when it loads them,
   * and `s4` the state in which it decides: it claims the `n` cursors from the head on, for exactly its
   * bytes under the producer's next sequence number, if and only if they end at most one lap past that tail
   * and past that floor and the head is still the one it loaded. Otherwise nothing but its own place changes.
   */
  lemma SendReservesExactly(
    config: Config, s: State, p: nat, bytes: seq<byte>, retry: bool,
    a: seq<Step>, b: seq<Step>, c: seq<Step>, d: seq<Step>)
    requires Reachable(config, s)
    requires p in s.producers && s.producers[p].alive && s.producers[p].pc.Idle?
    requires Sendable(config, Message(0, bytes))
    requires Without(a, p) && Without(b, p) && Without(c, p) && Without(d, p)
    ensures |s.slots| == config.capacity > 0
    ensures var s1 := Exec(config, Apply(config, s, BeginSend(p, bytes)), a);
            var s2 := Exec(config, Apply(config, s1, Produce(p, retry)), b);
            var s3 := Exec(config, Apply(config, s2, Produce(p, retry)), c);
            var s4 := Exec(config, Apply(config, s3, Produce(p, retry)), d);
            var t := Apply(config, s4, Produce(p, retry));
            var n := |MessageFrames(config, Message(0, bytes))|;
            && p in s4.producers && s4.producers[p].nextSeq == s.producers[p].nextSeq
            && if Room(config, n, s1.head, s2.tail, s3.floor) && s4.head == s1.head then
                 Claims(config, s4, p, bytes, n, t)
               else
                 Withdraws(s4, p, if s2.tail > s1.head + config.capacity then Idle
                                  else if Room(config, n, s1.head, s2.tail, s3.floor) || retry then LoadHead(bytes)
                                  else Idle, t)
  {
    hide Inv, Exec, Reachable, Without, Room, Claims, Withdraws, Sendable, MessageFrames, ProducerStep, ConsumerStep;
    ReachableInv(config, s);
    ApplyKeeps(config, s, BeginSend(p, bytes));
    var u := Apply(config, s, BeginSend(p, bytes));
    RunLeavesProducer(config, u, a, p);
    ExecKeeps(config, u, a);
    AttemptReserves(config, Exec(config, u, a), p, retry, b, c, d);
  }

  // ---- Writing and publishing what was reserved ----

  /** How many steps of producer p's own a run has. */
  function OwnSteps(run: seq<Step>, p: nat): nat {
    if run == [] then 0 else (if run[0].Produce? && run[0].p == p then 1 else 0) + OwnSteps(run[1..], p)
  }

  /** A run in which producer p neither crashes nor starts another send. */
  predicate Undisturbed(run: seq<Step>, p: nat) {
    forall i :: 0 <= i < |run| ==> !((run[i].Crash? || run[i].BeginSend?) && run[i].p == p)
  }

  /** The steps a send has left: four for every slot, and with one producer the store of the head. */
  function SendLeft(config: Config, pc: Sending, n: nat): int {
    match pc
    case WriteSlot(_, k, phase) =>
      4 * (n - k) + (if config.multiProducer then 0 else 1)
      - (match phase case Check => 0 case Mark => 1 case Fill => 2 case Commit => 3)
    case StoreHead(_) => 1
    case _ => 0
  }

  ghost predicate AllDone(cells: seq<Cell>, start: nat, n: nat) {
    start + n <= |cells| && forall c :: start <= c < start + n ==> cells[c].stage == Done
  }

  /** Producer p is writing, or has written, reservation e. */
  ghost predicate Writes(config: Config, s: State, p: nat, e: nat, entry: Entry) {
    && Inv(config, s) && DeadAreGone(s)
    && p in s.producers && s.producers[p].alive
    && e < |s.log| && s.log[e] == entry && entry.owner == p && !entry.dead
    && Sendable(config, entry.message)
    && (!config.multiProducer ==> |s.log| == e + 1)
    && match s.producers[p].pc
       case WriteSlot(d, _, _) => d == e
       case StoreHead(d) => d == e
       case Idle => AllDone(s.cells, entry.start, Len(config, entry))
       case _ => false
  }

  ghost predicate OneWritten(config: Config, s: State, p: nat, e: nat, entry: Entry, t: State) {
    && Writes(config, s, p, e, entry) && Writes(config, t, p, e, entry)
    && t.producers[p] == s.producers[p].(pc := t.producers[p].pc)
    && var n := Len(config, entry);
       SendLeft(config, t.producers[p].pc, n)
       == if s.producers[p].pc.Idle? then 0 else SendLeft(config, s.producers[p].pc, n) - 1
  }

  lemma WriteIsOwn(config: Config, s: State, p: nat, e: nat, entry: Entry)
    requires Writes(config, s, p, e, entry) && s.producers[p].pc.WriteSlot?
    ensures |s.slots| == config.capacity > 0
    ensures OneWritten(config, s, p, e, entry, WriteStep(config, s, p))
  {
    hide Inv, Parts, Sendable, MessageFrames, Idx, LogOk;
    SlotCount(config, s);
    WriterCursor(config, s, p);
    WriterIsWriting(config, s, p);
    var k, phase := s.producers[p].pc.k, s.producers[p].pc.phase;
    if phase.Check? {
      CheckKeeps(config, s, p);
    } else {
      WriteStepKeeps(config, s, p);
    }
    StepKeepsGone(config, s, Produce(p, false));
    if phase.Commit? && k + 1 == Len(config, entry) {
      OtherCellsDone(config, s, p);
      InvCells(config, s);
    }
  }

  lemma StoreIsOwn(config: Config, s: State, p: nat, e: nat, entry: Entry)
    requires Writes(config, s, p, e, entry) && s.producers[p].pc.StoreHead?
    ensures |s.slots| == config.capacity > 0
    ensures OneWritten(config, s, p, e, entry, ProducerStep(config, s, p, false))
  {
    hide Inv, Parts, Sendable, MessageFrames;
    StoreHeadKeeps(config, s, p);
    StepKeepsGone(config, s, Produce(p, false));
    InvProducer(config, s, p);
    PublishedHead(config, s, p);
  }

  /** Every step of its own brings the send one step closer to its end. */
  lemma OwnStep(config: Config, s: State, p: nat, e: nat, entry: Entry, retry: bool)
    requires Writes(config, s, p, e, entry)
    ensures |s.slots| == config.capacity > 0
    ensures OneWritten(config, s, p, e, entry, Apply(config, s, Produce(p, retry)))
  {
    hide Inv, OneWritten, WriteStep, Sendable, MessageFrames;
    SlotCount(config, s);
    if s.producers[p].pc.WriteSlot? {
      WriteIsOwn(config, s, p, e, entry);
    } else if s.producers[p].pc.StoreHead? {
      StoreIsOwn(config, s, p, e, entry);
    } else {
      RestIsOwn(config, s, p, e, entry);
    }
  }

  lemma RestIsOwn(config: Config, s: State, p: nat, e: nat, entry: Entry)
    requires Writes(config, s, p, e, entry) && s.producers[p].pc.Idle?
    ensures OneWritten(config, s, p, e, entry, s)
  {
    hide Inv, DeadAreGone, Sendable, MessageFrames;
  }

  /** The consumer takes no committed cell back. */
  lemma ConsumeKeepsDone(config: Config, s: State)
    requires Inv(config, s)
    ensures |s.slots| == config.capacity > 0
    ensures var t := ConsumerStep(config, s);
            |t.cells| == |s.cells| && forall c :: 0 <= c < |s.cells| && s.cells[c].stage == Done ==>
                t.cells[c] == s.cells[c]
  {
    hide Inv, Parts, Sendable, MessageFrames, Idx, Digest, Viewable, Consistent;
    SlotCount(config, s);
    InvConsumer(config, s);
  }

  lemma StepKeepsDone(config: Config, s: State, step: Step)
    requires Inv(config, s)
    ensures |s.slots| == config.capacity > 0
    ensures var t := Apply(config, s, step);
            |s.cells| <= |t.cells| && forall c :: 0 <= c < |s.cells| && s.cells[c].stage == Done ==>
                t.cells[c] == s.cells[c]
  {
    hide Inv, ConsumerStep, ProducerStep;
    if step.Consume? {
      ConsumeKeepsDone(config, s);
    } else {
      OthersTouch(config, s, step);
    }
  }

  /** With one producer, no reservation is added by a step that is not its own. */
  lemma OnlyOwnerReserves(config: Config, s: State, step: Step, p: nat)
    requires Inv(config, s) && !config.multiProducer
    requires p in s.producers
    requires step.Produce? ==> step.p != p
    ensures |s.slots| == config.capacity > 0
    ensures |Apply(config, s, step).log| == |s.log|
  {
    hide Inv, ConsumerStep, ProducerStep, CellsGrow;
    SlotCount(config, s);
    StepByConsumer(config, s);
    OneOwner(config, s, p);
  }

  lemma OneOwner(config: Config, s: State, p: nat)
    requires Inv(config, s) && !config.multiProducer
    requires p in s.producers
    ensures forall q :: q in s.producers ==> q == p
  {
    hide ProducerOk, SlotsOk, LogOk, CellsOk, FloorOk, ConsumerOk, DeliveredOk, ProducersOk, OwnedOk, HeadOk, CursorsOk;
  }

  /** The others leave the send where it is. */
  lemma OtherStep(config: Config, s: State, p: nat, e: nat, entry: Entry, step: Step)
    requires Writes(config, s, p, e, entry)
    requires !Own(step, p) && (step.BeginSend? ==> step.p != p)
    ensures |s.slots| == config.capacity > 0
    ensures var t := Apply(config, s, step);
            Writes(config, t, p, e, entry) && t.producers[p] == s.producers[p]
  {
    hide Inv, Apply, Sendable, MessageFrames, Gone;
    SlotCount(config, s);
    StepLeavesProducer(config, s, step, p);
    ApplyKeeps(config, s, step);
    StepKeepsGone(config, s, step);
    StepKeepsDone(config, s, step);
    StepGrows(config, s, step);
    NotGone(Apply(config, s, step), p);
    if !config.multiProducer {
      OnlyOwnerReserves(config, s, step, p);
    }
  }

  lemma NotGone(s: State, p: nat)
    requires p in s.producers && s.producers[p].alive
    ensures !Gone(s, p)
  {
  }

  lemma {:induction false} RunWrites(config: Config, s: State, p: nat, e: nat, entry: Entry, run: seq<Step>)
    requires Writes(config, s, p, e, entry)
    requires Undisturbed(run, p)
    requires OwnSteps(run, p) >= SendLeft(config, s.producers[p].pc, Len(config, entry))
    ensures |s.slots| == config.capacity > 0
    ensures var t := Exec(config, s, run);
            Writes(config, t, p, e, entry) && t.producers[p] == s.producers[p].(pc := Idle)
    decreases |run|
  {
    hide Inv, Apply, DeadAreGone, Sendable, MessageFrames;
    LeftWhileWriting(config, s, p, e, entry);
    if run != [] {
      var t := Apply(config, s, run[0]);
      if run[0].Produce? && run[0].p == p {
        OwnStep(config, s, p, e, entry, run[0].retry);
      } else {
        OtherStep(config, s, p, e, entry, run[0]);
      }
      RunWrites(config, t, p, e, entry, run[1..]);
    }
  }

  lemma LeftWhileWriting(config: Config, s: State, p: nat, e: nat, entry: Entry)
    requires Writes(config, s, p, e, entry)
    ensures |s.slots| == config.capacity > 0
    ensures !s.producers[p].pc.Idle? ==> SendLeft(config, s.producers[p].pc, Len(config, entry)) > 0
  {
    hide Inv, Parts, Sendable, MessageFrames;
    SlotCount(config, s);
    if s.producers[p].pc.WriteSlot? {
      WriterIsWriting(config, s, p);
    }
  }

  /** The consumer has taken the tail slot: it holds it pinned, or has freed it already. */
  predicate TakenTail(s: State, c: nat) {
    c == s.tail && (HoldOf(s.consumer.pc).Reading? || HoldOf(s.consumer.pc).Freed?)
  }

  /** The k-th slot of a reservation is COMMITTED with its frame and number, unless the consumer has come to it. */
  predicate Stands(config: Config, s: State, entry: Entry, k: nat)
    requires config.capacity == |s.slots| > 0
    requires Sendable(config, entry.message) && k < Len(config, entry)
  {
    var c := entry.start + k;
    var slot := At(config, s, c);
    s.tail <= c && !TakenTail(s, c) ==>
      slot.state.Committed? && slot.seqNo == entry.message.seqNo && slot.data == MessageFrames(config, entry.message)[k]
  }

  lemma WrittenSlots(config: Config, s: State, p: nat, e: nat, entry: Entry, k: nat)
    requires Writes(config, s, p, e, entry) && s.producers[p].pc.Idle?
    requires k < Len(config, entry)
    ensures |s.slots| == config.capacity > 0
    ensures Stands(config, s, entry, k)
  {
    hide Inv, Parts, Sendable, MessageFrames, Idx, StampOk;
    SlotCount(config, s);
    var c := entry.start + k;
    if s.tail <= c {
      InvCursors(config, s);
      InvCells(config, s);
      assert CellOk(config, s.log, s.cells, c);
      SlotAt(config, s, c);
    }
  }

  lemma StartsWriting(config: Config, s: State, p: nat)
    requires Inv(config, s) && DeadAreGone(s)
    requires p in s.producers && s.producers[p].alive && s.producers[p].pc.WriteSlot?
    ensures s.producers[p].pc.entry < |s.log|
    ensures var e := s.producers[p].pc.entry;
            && Writes(config, s, p, e, s.log[e])
            && SendLeft(config, s.producers[p].pc, Len(config, s.log[e])) <= 4 * Len(config, s.log[e]) + 1
  {
    hide Inv, Parts, DeadAreGone, Sendable, MessageFrames;
    WriterIsWriting(config, s, p);
  }

  lemma PublishedBehind(config: Config, s: State, p: nat, e: nat, entry: Entry)
    requires Writes(config, s, p, e, entry) && s.producers[p].pc.Idle?
    ensures var end := entry.start + Len(config, entry);
            end <= s.head && (!config.multiProducer ==> s.head == end)
  {
    hide Inv, Parts, DeadAreGone, Sendable, MessageFrames, LogOk;
    InvProducer(config, s, p);
    InvMessages(config, s);
    InvCursors(config, s);
    LogStep(config, s.log, |s.cells|, e);
  }

  /**
   * A reservation that was won is written to its end: on every run in which its producer neither crashes
   * nor starts another send, whatever the others do, four steps of its own for every slot, and one more
   * with one producer, leave it at rest; every slot of the reservation that the consumer has not come to
   * is COMMITTED with its frame and number, and the published head is behind the last one.
   */
  lemma SendCompletes(config: Config, s: State, p: nat, run: seq<Step>)
    requires Reachable(config, s)
    requires p in s.producers && s.producers[p].alive && s.producers[p].pc.WriteSlot?
    requires s.producers[p].pc.entry < |s.log| && Sendable(config, s.log[s.producers[p].pc.entry].message)
    requires Undisturbed(run, p)
    requires OwnSteps(run, p) >= 4 * Len(config, s.log[s.producers[p].pc.entry]) + 1
    ensures |s.slots| == config.capacity > 0
    ensures var t, entry := Exec(config, s, run), s.log[s.producers[p].pc.entry];
            var end := entry.start + Len(config, entry);
            && p in t.producers && t.producers[p] == s.producers[p].(pc := Idle)
            && end <= t.head && (!config.multiProducer ==> t.head == end)
            && forall k: nat :: k < Len(config, entry) ==> Stands(config, t, entry, k)
  {
    hide Inv, Reachable, Sendable, MessageFrames, Exec, Idx, Undisturbed;
    ReachableInv(config, s);
    var e := s.producers[p].pc.entry;
    var entry := s.log[e];
    StartsWriting(config, s, p);
    RunWrites(config, s, p, e, entry, run);
    var t := Exec(config, s, run);
    PublishedBehind(config, t, p, e, entry);
    forall k: nat | k < Len(config, entry)
      ensures Stands(config, t, entry, k)
    {
      WrittenSlots(config, t, p, e, entry, k);
    }
  }
}
