/** What holds in every reachable state of the ring, for every capacity and number of producers. */
module RingTheorems {
  import opened Bytes
  import opened Errors
  import opened Chunking
  import opened ChunkingProofs
  import opened SlotStates
  import opened Cursors
  import opened Ring
  import opened RingInvariant
  import opened RingProducer
  import opened RingClaim
  import opened RingConsumer
  import opened RingView
  import opened RingReclaim
  import opened RingRuns
  import opened RingHistory
  import opened PinScan

  /** Some run from a fresh region ends in this state. */
  ghost predicate Reachable(config: Config, s: State) {
    exists s0: State, run: seq<Step> :: Init(config, s0) && s == Exec(config, s0, run)
  }

  lemma ReachableInv(config: Config, s: State)
    requires Reachable(config, s)
    ensures Inv(config, s) && DeadAreGone(s)
    ensures |s.slots| == config.capacity > 0
  {
    var s0: State, run: seq<Step> :| Init(config, s0) && s == Exec(config, s0, run);
    InitHolds(config, s0);
    ExecKeeps(config, s0, run);
    RunKeepsGone(config, s0, run);
    hide Parts, Inv, Init;
    SlotCount(config, s);
  }

  lemma RunReaches(config: Config, s0: State, run: seq<Step>) returns (t: State)
    requires Init(config, s0)
    ensures config.capacity == |s0.slots| > 0
    ensures t == Exec(config, s0, run) && Reachable(config, t)
  {
    t := Exec(config, s0, run);
    hide Init, Exec;
  }

  lemma CrashFreeInit(config: Config, s0: State)
    requires Init(config, s0)
    ensures config.capacity == |s0.slots| > 0
    ensures forall p :: p in s0.producers ==> s0.producers[p].alive
  {
  }

  // ---- First in, first out ----

  /**
   * What was delivered is, byte for byte and in order, the messages of the first `done` reservations,
   * without the ones given up; a reservation is given up only when its producer crashed before it
   * committed any of it. No receive or release ever fails.
   */
  lemma DeliveryIsFifo(config: Config, s: State)
    requires Reachable(config, s)
    ensures s.done <= |s.log|
    ensures s.delivered == LiveMessages(s.log, s.done)
    ensures forall i :: 0 <= i < |s.log| && s.log[i].dead ==> config.multiProducer && Gone(s, s.log[i].owner)
    ensures !s.consumer.pc.Broken?
    ensures !config.multiProducer ==> forall i :: 0 <= i < |s.log| ==> s.log[i].message.seqNo == i % U64_RANGE
  {
    hide Parts, Inv, Gone, Reachable, Sendable, MessageFrames;
    ReachableInv(config, s);
    InvDelivered(config, s);
    InvConsumer(config, s);
  }

  /** The messages of the first n reservations. */
  function Messages(log: seq<Entry>, n: nat): (messages: seq<Message>)
    requires n <= |log|
    ensures |messages| == n
  {
    seq(n, i requires 0 <= i < n => log[i].message)
  }

  lemma {:induction false} AllLive(log: seq<Entry>, n: nat)
    requires n <= |log|
    requires forall i :: 0 <= i < n ==> !log[i].dead
    ensures LiveMessages(log, n) == Messages(log, n)
  {
    if n > 0 {
      AllLive(log, n - 1);
      assert Messages(log, n) == Messages(log, n - 1) + [log[n - 1].message];
    }
  }

  /**
   * Without crashes, for any number of producers and any interleaving, the delivered messages are
   * exactly the messages of the first `done` reservations in the order in which they won.
   */
  lemma CrashFreeFifo(config: Config, s0: State, run: seq<Step>)
    requires Init(config, s0)
    requires forall i :: 0 <= i < |run| ==> !run[i].Crash?
    ensures var t := Exec(config, s0, run);
            t.done <= |t.log| && t.delivered == Messages(t.log, t.done)
  {
    hide Init;
    var t := RunReaches(config, s0, run);
    CrashFreeInit(config, s0);
    CrashFree(config, s0, run);
    DeliveryIsFifo(config, t);
    AllLive(t.log, t.done);
  }

  /**
   * A run only ever appends to what was delivered, and the reservations it found keep their message,
   * place and owner.
   */
  lemma DeliveredOnce(config: Config, s: State, run: seq<Step>)
    requires Reachable(config, s)
    ensures |s.slots| == config.capacity > 0
    ensures var t := Exec(config, s, run);
            && s.delivered <= t.delivered
            && s.done <= t.done
            && LogGrows(s.log, t.log)
  {
    ReachableInv(config, s);
    RunGrows(config, s, run);
  }

  // ---- Reservations ----

  /**
   * A reservation that wins, whatever the age of the cursors it was decided on, starts at the write
   * frontier, ends at most one lap past the current tail and past every live pin, and all its slots
   * are free already, apart from every slot of a cursor not yet consumed.
   */
  lemma WinningReservation(config: Config, s: State, p: nat, retry: bool)
    requires Reachable(config, s)
    requires p in s.producers && s.producers[p].alive
    requires |s.slots| == config.capacity > 0
    requires |Apply(config, s, Produce(p, retry)).log| > |s.log|
    ensures s.producers[p].pc.Reserve?
    ensures var t := Apply(config, s, Produce(p, retry));
            && t.log == s.log + [Entry(|s.cells|, Message(s.producers[p].nextSeq, s.producers[p].pc.bytes), p, false)]
            && var e := t.log[|s.log|];
               && Sendable(config, e.message)
               && |t.cells| == |s.cells| + Len(config, e)
               && |t.cells| <= s.tail + config.capacity
               && (forall c :: c in s.pins ==> |t.cells| <= c + config.capacity)
               && (forall c :: |s.cells| <= c < |t.cells| ==> At(config, s, c).state == Free)
    ensures var t := Apply(config, s, Produce(p, retry));
            forall c, d :: |s.cells| <= c < |t.cells| && (s.tail <= d < |s.cells| || d in s.pins) ==>
              Idx(d, config.capacity) != Idx(c, config.capacity)
  {
    hide Parts, Inv, Reachable, Sendable, MessageFrames, GuardLen, Consistent, Idx, SlotOk, WriteStep;
    ReachableInv(config, s);
    var m := WinnerFacts(config, s, p, retry);
    ClaimFacts(config, s, p, m);
    var t := Apply(config, s, Produce(p, retry));
    forall c | |s.cells| <= c < |t.cells|
      ensures At(config, s, c).state == Free
    {
      FrontierSlotFree(config, s, c);
    }
    InvFloor(config, s);
    forall c, d | |s.cells| <= c < |t.cells| && (s.tail <= d < |s.cells| || d in s.pins)
      ensures Idx(d, config.capacity) != Idx(c, config.capacity)
    {
      IdxDistinct(d, c, config.capacity);
    }
  }

  lemma WinnerFacts(config: Config, s: State, p: nat, retry: bool) returns (m: Message)
    requires p in s.producers && s.producers[p].alive
    requires |s.slots| == config.capacity > 0
    requires |Apply(config, s, Produce(p, retry)).log| > |s.log|
    ensures var pc := s.producers[p].pc;
            && pc.Reserve?
            && m == Message(s.producers[p].nextSeq, pc.bytes)
            && Sendable(config, m)
            && config.capacity - GuardLen(config, pc.head, pc.tail, pc.floor, 0) >= |MessageFrames(config, m)|
            && (config.multiProducer ==> s.head == pc.head)
            && Apply(config, s, Produce(p, retry)) == Claim(config, s, p, m)
  {
    hide Sendable, MessageFrames, GuardLen, Consistent, WriteStep;
    m := Message(s.producers[p].nextSeq, if s.producers[p].pc.Reserve? then s.producers[p].pc.bytes else []);
    if s.producers[p].pc.WriteSlot? {
      WriteByProducer(config, s, p);
    }
  }

  /** The slot of a claimable cursor is free before it is claimed. */
  lemma FrontierSlotFree(config: Config, s: State, c: nat)
    requires Inv(config, s)
    requires |s.cells| <= c < s.tail + config.capacity
    requires c - config.capacity !in s.pins
    ensures |s.slots| == config.capacity > 0
    ensures At(config, s, c).state == Free
  {
    hide Inv, Parts, Idx, DataOk, StampOk, HeaderOk;
    InvCursors(config, s);
    SlotAt(config, s, c - config.capacity);
    IdxLap(c - config.capacity, config.capacity);
  }

  /** The first write of every reserved slot finds it free: it neither waits nor fails. */
  lemma FirstWriteFindsFree(config: Config, s: State, p: nat, retry: bool)
    requires Reachable(config, s)
    requires p in s.producers && s.producers[p].alive
    requires s.producers[p].pc.WriteSlot? && s.producers[p].pc.phase.Check?
    ensures |s.slots| == config.capacity > 0
    ensures var WriteSlot(e, k, _) := s.producers[p].pc;
            && e < |s.log| && At(config, s, s.log[e].start + k).state == Free
            && Apply(config, s, Produce(p, retry)).producers[p].pc == WriteSlot(e, k, Mark)
  {
    hide Parts, Inv, Reachable, Sendable, MessageFrames, Idx;
    ReachableInv(config, s);
    CheckKeeps(config, s, p);
    WriterCursor(config, s, p);
  }

  // ---- Views ----

  /** A live view: its cursor is pinned, and its release has not begun to clear the slot. */
  predicate Viewed(s: State, c: nat) {
    c in s.pins && !(s.consumer.pc.ReleaseFree? && s.consumer.pc.cursor == c)
  }

  /** A viewed slot is PINNED and holds the frame of the message that was reserved there. */
  lemma ViewedSlot(config: Config, s: State, c: nat)
    requires Reachable(config, s)
    requires Viewed(s, c)
    ensures |s.slots| == config.capacity > 0
    ensures At(config, s, c).state == Pinned
    ensures DataOk(config, s.log, s.cells, c, At(config, s, c))
  {
    hide Inv, Parts, Reachable, DataOk, Idx;
    ReachableInv(config, s);
    PinnedSlot(config, s, c);
  }

  /** However long a view lives, it reads the same bytes. */
  lemma ViewReadsSameBytes(config: Config, s: State, run: seq<Step>, c: nat)
    requires Reachable(config, s)
    requires |s.slots| == config.capacity > 0
    requires Viewed(s, c) && Viewed(Exec(config, s, run), c)
    ensures At(config, Exec(config, s, run), c).data == At(config, s, c).data
  {
    hide Inv, Parts, Reachable, Idx, Sendable, MessageFrames;
    var t := Exec(config, s, run);
    ViewedSlot(config, s, c);
    RunGrows(config, s, run);
    ReachableInv(config, s);
    ExecKeeps(config, s, run);
    PinnedSlot(config, t, c);
    assert MessageAt(config, s.log, s.cells, c) == MessageAt(config, t.log, t.cells, c);
  }

  /** No producer step, in either mode, writes into a pinned slot. */
  lemma ProducerLeavesPins(config: Config, s: State, p: nat, retry: bool, c: nat)
    requires Reachable(config, s)
    requires c in s.pins
    ensures |s.slots| == config.capacity > 0
    ensures At(config, Apply(config, s, Produce(p, retry)), c) == At(config, s, c)
    ensures Apply(config, s, Produce(p, retry)).pins == s.pins
  {
    hide Inv, Parts, Reachable, Sendable, MessageFrames, Idx, WriteStep, TryReserve;
    ReachableInv(config, s);
    if p in s.producers && s.producers[p].alive {
      if s.producers[p].pc.WriteSlot? {
        WriteLeavesPins(config, s, p, c);
      } else {
        StepByProducer(config, s, p, retry);
        ReserveKeepsSlots(config, s, p, retry);
      }
    }
  }

  lemma ReserveKeepsSlots(config: Config, s: State, p: nat, retry: bool)
    requires config.capacity == |s.slots| > 0
    requires p in s.producers && !s.producers[p].pc.WriteSlot?
    ensures ProducerStep(config, s, p, retry).slots == s.slots
  {
    hide Sendable, MessageFrames, GuardLen, Consistent;
  }

  lemma WriteLeavesPins(config: Config, s: State, p: nat, c: nat)
    requires Inv(config, s)
    requires p in s.producers && s.producers[p].alive && s.producers[p].pc.WriteSlot?
    requires c in s.pins
    ensures |s.slots| == config.capacity > 0
    ensures At(config, WriteStep(config, s, p), c) == At(config, s, c)
    ensures WriteStep(config, s, p).pins == s.pins
  {
    hide Inv, Parts, Sendable, MessageFrames, Idx;
    SlotCount(config, s);
    WriterIsWriting(config, s, p);
    PinnedSlot(config, s, c);
    InvFloor(config, s);
    var d := s.log[s.producers[p].pc.entry].start + s.producers[p].pc.k;
    if c == s.tail {
      InvConsumer(config, s);
    }
    IdxDistinct(c, d, config.capacity);
  }

  // ---- The pin floor ----

  /** Between calls of the consumer the floor word is exactly the least pinned cursor, or absent. */
  lemma FloorIsLeastPin(config: Config, s: State)
    requires Reachable(config, s)
    requires s.consumer.pc.Resting?
    ensures IsFloor(s.floor, s.pins)
  {
    hide Inv, Parts, Reachable;
    ReachableInv(config, s);
    InvFloor(config, s);
  }

  /** The tail slot, one full lap past the start of the scan, is pinned by a receive that is under way. */
  predicate MidReceive(config: Config, s: State) {
    HoldOf(s.consumer.pc).Reading? && s.tail >= config.capacity
  }

  lemma {:induction false} ScanIsFloor(config: Config, s: State, at: nat)
    requires Inv(config, s)
    requires at <= s.tail <= at + config.capacity
    requires HoldOf(s.consumer.pc).Reading? ==> s.tail < at + config.capacity
    requires forall c :: c in s.pins ==> at <= c
    ensures |s.slots| == config.capacity > 0
    ensures IsFloor(ScanFloor(config, s.slots, at, s.tail), s.pins - {s.tail})
    decreases s.tail - at
  {
    hide Inv, Parts, Idx;
    SlotCount(config, s);
    InvFloor(config, s);
    if at < s.tail {
      ScanFindsPin(config, s, at);
      if at !in s.pins {
        ScanIsFloor(config, s, at + 1);
      }
    } else {
      assert forall c :: c in s.pins - {s.tail} ==> false;
    }
  }

  /**
   * Wherever the consumer stands, the scan of an opening handle, over one lap behind the tail, finds the
   * least pinned cursor behind the tail, or none, exactly when no receive has the tail slot pinned a full
   * lap or more into the run. Otherwise it finds the cursor one lap behind the tail, which nothing pins.
   */
  lemma OpenScanExactly(config: Config, s: State)
    requires Reachable(config, s)
    ensures |s.slots| == config.capacity > 0
    ensures var floor := ScanFloor(config, s.slots, ScanStart(config, s.tail), s.tail);
            && (IsFloor(floor, s.pins - {s.tail}) <==> !MidReceive(config, s))
            && (MidReceive(config, s) ==> floor == Some(s.tail - config.capacity))
  {
    hide Inv, Parts, Reachable, Idx;
    ReachableInv(config, s);
    InvFloor(config, s);
    InvCursors(config, s);
    if MidReceive(config, s) {
      ScanFindsPin(config, s, s.tail - config.capacity);
    } else {
      ScanIsFloor(config, s, ScanStart(config, s.tail));
    }
  }

  /** Between calls of the consumer the scan of an opening handle recomputes the floor word. */
  lemma OpenScanAgrees(config: Config, s: State)
    requires Reachable(config, s)
    requires s.consumer.pc.Resting?
    ensures |s.slots| == config.capacity > 0
    ensures ScanFloor(config, s.slots, ScanStart(config, s.tail), s.tail) == s.floor
  {
    hide Inv, Parts, Reachable, ScanFloor;
    ReachableInv(config, s);
    FloorIsLeastPin(config, s);
    InvFloor(config, s);
    OpenScanExactly(config, s);
    assert s.pins - {s.tail} == s.pins;
  }

  // ---- The single-producer gate ----

  /**
   * With one producer, a published head past the tail means the tail slot is committed, or held by the
   * consumer's own receive; the frontier stays within one lap of the tail; and cursors loaded apart
   * are always consistent, on both sides.
   */
  lemma SingleProducerGate(config: Config, s: State)
    requires Reachable(config, s)
    requires !config.multiProducer
    ensures |s.slots| == config.capacity > 0
    ensures s.tail <= |s.cells| <= s.tail + config.capacity
    ensures s.head <= |s.cells|
    ensures s.tail < s.head && HoldOf(s.consumer.pc).NoHold? ==> At(config, s, s.tail).state == Committed
    ensures s.consumer.pc.SeeFloor? ==> Consistent(config, s.consumer.headSeen, s.consumer.tailSeen)
    ensures forall p :: p in s.producers && s.producers[p].pc.Reserve? ==>
              Consistent(config, s.producers[p].pc.head, s.producers[p].pc.tail)
  {
    hide Inv, Parts, Reachable, Idx, DataOk, HeaderOk, StampOk, Sendable, MessageFrames;
    ReachableInv(config, s);
    InvCursors(config, s);
    InvConsumer(config, s);
    InvLog(config, s);
    if s.tail < s.head {
      SlotAt(config, s, s.tail);
    }
    forall p | p in s.producers && s.producers[p].pc.Reserve?
      ensures Consistent(config, s.producers[p].pc.head, s.producers[p].pc.tail)
    {
      InvProducer(config, s, p);
    }
  }

  // ---- Reclaiming ----

  /**
   * The reclaim's tail move passes exactly one reservation, given up by a crashed producer; no live
   * reservation is crossed, all its slots are free, and nothing is delivered.
   */
  lemma ReclaimPassesOneDead(config: Config, s: State)
    requires Reachable(config, s)
    requires s.consumer.pc.ReclaimCas?
    ensures |s.slots| == config.capacity > 0
    ensures s.done < |s.log| && Sendable(config, s.log[s.done].message)
    ensures var t := Apply(config, s, Consume);
            && s.log[s.done].dead && Gone(s, s.log[s.done].owner)
            && s.tail == s.log[s.done].start
            && t.tail == s.tail + Len(config, s.log[s.done]) == StartOf(s.log, |s.cells|, s.done + 1)
            && t.done == s.done + 1 && t.delivered == s.delivered && t.log == s.log
            && (forall c :: s.tail <= c < t.tail ==> At(config, t, c).state == Free)
  {
    hide Inv, Parts, Reachable, Idx, Sendable, MessageFrames, Gone;
    ReachableInv(config, s);
    DeadAtTail(config, s);
    FreedReservation(config, s);
    CasFacts(config, s);
    var t := Apply(config, s, Consume);
    assert t.slots == s.slots;
    forall c | s.tail <= c < t.tail
      ensures At(config, t, c).state == Free
    {
      assert At(config, s, c).state == Free;
    }
  }

  lemma DeadAtTail(config: Config, s: State)
    requires Inv(config, s) && DeadAreGone(s)
    requires s.consumer.pc.ReclaimCas?
    ensures s.done < |s.log| && Sendable(config, s.log[s.done].message)
    ensures s.log[s.done].dead && Gone(s, s.log[s.done].owner)
    ensures s.tail == s.log[s.done].start && s.consumer.tailSeen == s.tail
    ensures s.consumer.pc.extent == Len(config, s.log[s.done])
    ensures s.tail + s.consumer.pc.extent == StartOf(s.log, |s.cells|, s.done + 1)
  {
    hide Inv, Parts, Sendable, MessageFrames, Gone, LogOk;
    InvConsumer(config, s);
    InvMessages(config, s);
    AfterReclaim(config, s.log, s.cells, s.done, s.tail, s.consumer.pc.extent);
  }

  lemma FreedReservation(config: Config, s: State)
    requires Inv(config, s)
    requires s.consumer.pc.ReclaimCas?
    ensures |s.slots| == config.capacity > 0
    ensures forall c :: s.tail <= c < s.tail + s.consumer.pc.extent ==> At(config, s, c).state == Free
  {
    hide Inv, Parts, Idx, DataOk, HeaderOk, StampOk, Sendable, MessageFrames, ReclaimStep, ConsumedOk, FloorOk, PinsOk;
    SlotCount(config, s);
    CasFacts(config, s);
    InvCursors(config, s);
    forall c | s.tail <= c < s.tail + s.consumer.pc.extent
      ensures At(config, s, c).state == Free
    {
      SlotAt(config, s, c);
    }
  }
}
