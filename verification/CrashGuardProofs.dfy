/** The guard of a producer handle that resumes after a crash never lets it write into an occupied slot. */
module CrashGuardProofs {
  import opened Errors
  import opened Chunking
  import opened SlotStates
  import opened Cursors
  import opened Ring
  import opened RecoveryTheorems
  import opened Recovery
  import opened CrashGuard
  import RingInvariant
  import RingTheorems

  // ---- The invariant ----

  /** How many slots have been written: the published head, the bias, and the current batch so far. */
  function Frontier(s: Resumed): nat {
    s.head + s.bias + (if s.writer.Writing? then s.writer.k else if s.writer.Publishing? then s.writer.n else 0)
  }

  /** Where the current batch ends. */
  function BatchEnd(s: Resumed): nat {
    if s.writer.Writing? then s.head + s.bias + s.writer.n else Frontier(s)
  }

  ghost predicate WriterOk(config: Config, s: Resumed)
    requires config.capacity == |s.slots| > 0
  {
    match s.writer
    case Loading(n) => 1 <= n <= config.capacity
    case Guarding(n, tail) => 1 <= n <= config.capacity && tail <= s.tail
    case Writing(n, k, marked) =>
      k <= n && (marked ==> k < n && StateAt(config, s, Frontier(s)).Writing?)
    case Refused => false
    case _ => true
  }

  /** The consumed cursors of the last lap are free, and the batch ends within one lap of the tail. */
  ghost predicate Safe(config: Config, s: Resumed)
    requires config.capacity == |s.slots| > 0
  {
    && s.tail <= Frontier(s)
    && BatchEnd(s) <= s.tail + config.capacity
    && s.index == Idx(Frontier(s), config.capacity)
    && (s.reader.Freed? || s.reader.Taking? ==> s.tail < Frontier(s))
    && (s.reader.Freed? ==> StateAt(config, s, s.tail).Free?)
    && WriterOk(config, s)
    && (forall c :: Frontier(s) - config.capacity <= c < s.tail ==>
          StateAt(config, s, c).Free? || (s.writer.Writing? && s.writer.marked && c == Frontier(s) - config.capacity))
  }

  lemma SlotsUnchanged(config: Config, s: Resumed, t: Resumed)
    requires config.capacity == |s.slots| > 0
    requires t.slots == s.slots
    ensures forall c :: StateAt(config, t, c) == StateAt(config, s, c)
  {
  }

  /** A write to the slot of cursor `c` leaves the slots of the other cursors of its lap alone. */
  lemma PutElsewhere(config: Config, s: Resumed, c: nat, d: int, state: SlotState)
    requires config.capacity == |s.slots| > 0
    requires d < c < d + config.capacity || c < d < c + config.capacity
    ensures StateAt(config, Put(s, Idx(c, config.capacity), state), d) == StateAt(config, s, d)
  {
    if c < d {
      IdxDistinct(c, d, config.capacity);
    } else {
      IdxDistinct(d, c, config.capacity);
    }
  }

  /** The slot that is written next is free. */
  lemma NextSlotFree(config: Config, s: Resumed, j: nat)
    requires config.capacity == |s.slots| > 0
    requires Safe(config, s)
    requires s.writer.Writing? ==> !s.writer.marked
    requires Frontier(s) + j < s.tail + config.capacity
    ensures StateAt(config, s, Frontier(s) + j).Free?
  {
    hide Idx;
    IdxLap(Frontier(s) + j - config.capacity, config.capacity);
    assert StateAt(config, s, Frontier(s) + j - config.capacity).Free?;
  }

  /** A passing guard, on a tail of any age, has room for the whole batch behind the current tail. */
  lemma GuardRoom(config: Config, s: Resumed)
    requires config.capacity == |s.slots| > 0
    requires Safe(config, s) && s.writer.Guarding?
    requires config.capacity - GuardLen(config, s.head, s.writer.tail, s.floor, s.bias) >= s.writer.n
    ensures Frontier(s) + s.writer.n <= s.tail + config.capacity
  {
    GuardFits(config, s.head, s.writer.tail, s.floor, s.bias, s.writer.n);
  }

  lemma ProducerSafe(config: Config, s: Resumed)
    requires config.capacity == |s.slots| > 0 && s.index < |s.slots|
    requires Safe(config, s)
    ensures Safe(config, ProducerMove(config, s))
  {
    hide Idx, GuardLen;
    var t := ProducerMove(config, s);
    if s.writer.Guarding? {
      if t.writer.Writing? {
        GuardRoom(config, s);
      }
    } else if s.writer.Writing? && s.writer.k < s.writer.n {
      WriteSafe(config, s);
    }
    if t.slots == s.slots {
      SlotsUnchanged(config, s, t);
    }
  }

  lemma WriteSafe(config: Config, s: Resumed)
    requires config.capacity == |s.slots| > 0 && s.index < |s.slots|
    requires Safe(config, s) && s.writer.Writing? && s.writer.k < s.writer.n
    ensures Safe(config, ProducerMove(config, s))
  {
    hide Idx;
    var n, w := config.capacity, Frontier(s);
    var t := ProducerMove(config, s);
    if !s.writer.marked {
      NextSlotFree(config, s, 0);
    } else {
      IdxShift(w, 1, n);
    }
    if s.reader.Freed? {
      PutElsewhere(config, s, w, s.tail, if s.writer.marked then Committed else SlotState.Writing);
    }
    forall c | Frontier(t) - n <= c < t.tail
      ensures StateAt(config, t, c).Free? || (t.writer.marked && c == Frontier(t) - n)
    {
      if c > w - n {
        PutElsewhere(config, s, w, c, if s.writer.marked then Committed else SlotState.Writing);
      }
    }
  }

  lemma ConsumerSafe(config: Config, s: Resumed)
    requires config.capacity == |s.slots| > 0 && s.index < |s.slots|
    requires Safe(config, s)
    ensures Safe(config, ConsumerMove(config, s))
  {
    hide Idx;
    if s.reader.Waiting? && StateAt(config, s, s.tail).Committed? {
      CommittedIsWritten(config, s);
      TailWriteSafe(config, s, Pinned, Taking);
    } else if s.reader.Taking? {
      TailWriteSafe(config, s, Free, Freed);
    } else if s.reader.Freed? {
      SlotsUnchanged(config, s, ConsumerMove(config, s));
    }
  }

  /** A committed slot under the tail index has been written since the tail last stood there. */
  lemma CommittedIsWritten(config: Config, s: Resumed)
    requires config.capacity == |s.slots| > 0
    requires Safe(config, s)
    requires StateAt(config, s, s.tail).Committed?
    ensures s.tail < Frontier(s)
  {
    hide Idx;
    var w := Frontier(s);
    IdxLap(w - config.capacity, config.capacity);
    assert StateAt(config, s, w - config.capacity) == StateAt(config, s, w);
    assert StateAt(config, s, w).Free? || StateAt(config, s, w).Writing? || w - config.capacity >= s.tail;
  }

  lemma TailWriteSafe(config: Config, s: Resumed, state: SlotState, reader: Reader)
    requires config.capacity == |s.slots| > 0 && s.index < |s.slots|
    requires Safe(config, s)
    requires s.tail < Frontier(s)
    requires reader.Freed? ==> state.Free?
    ensures Safe(config, Put(s, Idx(s.tail, config.capacity), state).(reader := reader))
  {
    hide Idx;
    var t := Put(s, Idx(s.tail, config.capacity), state).(reader := reader);
    forall c | Frontier(s) - config.capacity <= c < s.tail
      ensures StateAt(config, t, c) == StateAt(config, s, c)
    {
      PutElsewhere(config, s, s.tail, c, state);
    }
    if s.writer.Writing? && s.writer.marked {
      PutElsewhere(config, s, s.tail, Frontier(s), state);
    }
  }

  lemma ActSafe(config: Config, s: Resumed, action: Action)
    requires config.capacity == |s.slots| > 0 && s.index < |s.slots|
    requires Safe(config, s)
    ensures Safe(config, Act(config, s, action))
  {
    hide ProducerMove, ConsumerMove, Idx;
    if action.Produce? {
      ProducerSafe(config, s);
    } else if action.Consume? {
      ConsumerSafe(config, s);
    } else {
      SlotsUnchanged(config, s, Act(config, s, action));
    }
  }

  lemma {:induction false} RunSafe(config: Config, s: Resumed, actions: seq<Action>)
    requires config.capacity == |s.slots| > 0 && s.index < |s.slots|
    requires Safe(config, s)
    ensures Safe(config, Run(config, s, actions))
    decreases |actions|
  {
    hide Safe;
    if actions != [] {
      ActSafe(config, s, actions[0]);
      RunSafe(config, Act(config, s, actions[0]), actions[1..]);
    }
  }

  // ---- Resuming on the region a crash left behind ----

  function States(slots: seq<Slot>): (states: seq<SlotState>)
    ensures |states| == |slots|
  {
    seq(|slots|, i requires 0 <= i < |slots| => slots[i].state)
  }

  /** Where the region's consumer stands: it has pinned the tail slot, has freed it, or holds nothing. */
  function ReaderOf(pc: Receiving): Reader {
    var hold := RingInvariant.HoldOf(pc);
    if hold.Reading? then Taking else if hold.Freed? then Reader.Freed else Waiting
  }

  /** The handle that opens a region, beside the region's consumer, with the state it rebuilt. */
  function Resume(head: nat, tail: nat, swept: seq<Slot>, handle: Recovered, reader: Reader): Resumed {
    Resumed(head, tail, handle.floor, States(swept), handle.bias, handle.head, Rested, reader)
  }

  predicate GuardPasses(config: Config, s: Resumed) {
    s.writer.Guarding? && config.capacity - GuardLen(config, s.head, s.writer.tail, s.floor, s.bias) >= s.writer.n
  }

  /** The state of the slot `j` places after the handle's write index. */
  function Ahead(config: Config, s: Resumed, j: nat): SlotState
    requires config.capacity == |s.slots| > 0
  {
    s.slots[(s.index + j) % config.capacity]
  }

  lemma BatchIsFree(config: Config, s: Resumed)
    requires config.capacity == |s.slots| > 0
    requires Safe(config, s) && GuardPasses(config, s)
    ensures forall j :: 0 <= j < s.writer.n ==> Ahead(config, s, j).Free?
  {
    hide Idx;
    GuardRoom(config, s);
    forall j | 0 <= j < s.writer.n
      ensures Ahead(config, s, j).Free?
    {
      NextSlotFree(config, s, j);
      IdxShift(Frontier(s), j, config.capacity);
    }
  }

  /** The handle that a new producer process gets on the region that `s` left behind. */
  function ResumedOn(config: Config, s: State, gone: set<nat>): Resumed
    requires config.capacity == |s.slots| > 0
  {
    var swept := SweptRegion(config, s.slots, gone);
    var handle := Rebuild(config, s.head, s.tail, swept, SweepsWrites(config, s.slots, gone));
    Resume(s.head, s.tail, swept, handle, ReaderOf(s.consumer.pc))
  }

  lemma ResumeSafe(config: Config, s: State, p: nat, gone: set<nat>)
    requires Opened(config, s, p) && Settled(config, s, p, gone)
    ensures |s.slots| == config.capacity > 0
    ensures var resumed := ResumedOn(config, s, gone);
            && resumed.index == Idx(s.head + resumed.bias, config.capacity) < |resumed.slots|
            && resumed.writer.Rested?
            && Safe(config, resumed)
  {
    hide Rebuild, SweptRegion, SweepsWrites, RingTheorems.Reachable, Settled, Idx;
    OpenedRun(config, s, p, gone);
    ResumesInPlaceExactly(config, s, p, gone);
    var swept := SweptRegion(config, s.slots, gone);
    var resumed := ResumedOn(config, s, gone);
    if !RingInvariant.HoldOf(s.consumer.pc).NoHold? {
      HeldIsCommitted(config, s, p);
      SweptLeftBehind(config, s, p, gone, s.tail);
    }
    forall c | Frontier(resumed) - config.capacity <= c < s.tail
      ensures StateAt(config, resumed, c).Free?
    {
      assert swept[Idx(c, config.capacity)].state.Free?;
    }
  }

  /** No send has run into an occupied slot, and if the guard has just passed every slot of the batch is free. */
  predicate GuardHolds(config: Config, s: Resumed)
    requires config.capacity == |s.slots| > 0
  {
    && !s.writer.Refused?
    && (GuardPasses(config, s) ==> forall j :: 0 <= j < s.writer.n ==> Ahead(config, s, j).Free?)
  }

  // ---- A floor that blocks the guard ----

  /** The floor lies a full lap or more behind the head, so no batch of any size passes. */
  predicate Blocked(config: Config, s: Resumed) {
    && s.floor.Some? && s.floor.value + config.capacity <= s.head
    && match s.writer
       case Rested => true
       case Loading(n) => 1 <= n
       case Guarding(n, _) => 1 <= n
       case _ => false
  }

  lemma BlockedRefuses(config: Config, s: Resumed)
    requires Blocked(config, s)
    ensures !GuardPasses(config, s)
  {
    if s.writer.Guarding? {
      GuardFits(config, s.head, s.writer.tail, s.floor, s.bias, s.writer.n);
    }
  }

  lemma {:induction false} StaysBlocked(config: Config, s: Resumed, actions: seq<Action>)
    requires config.capacity == |s.slots| > 0 && s.index < |s.slots|
    requires Blocked(config, s)
    ensures Blocked(config, Run(config, s, actions))
    decreases |actions|
  {
    hide Idx, GuardLen;
    if actions != [] {
      BlockedRefuses(config, s);
      StaysBlocked(config, Act(config, s, actions[0]), actions[1..]);
    }
  }

  /**
   * A region opened while a receive has the tail slot pinned, a full lap or more into the run, leaves a
   * floor that no view owns: the guard of the opened handle never passes again, for any batch.
   */
  lemma OpeningMidReceiveBlocks(config: Config, s: State, p: nat, gone: set<nat>, actions: seq<Action>)
    requires Opened(config, s, p) && RingTheorems.MidReceive(config, s)
    ensures |s.slots| == config.capacity > 0
    ensures var resumed := ResumedOn(config, s, gone);
            && resumed.floor == Some(s.tail - config.capacity)
            && resumed.index < |resumed.slots|
            && !GuardPasses(config, Run(config, resumed, actions))
            && !Run(config, resumed, actions).writer.Refused?
  {
    hide Opened, Idx, GuardPasses, Run, Rebuild, SweptRegion, SweepsWrites;
    RebuiltPlace(config, s, p, gone);
    OpenedTail(config, s, p);
    var resumed := ResumedOn(config, s, gone);
    StaysBlocked(config, resumed, actions);
    BlockedRefuses(config, Run(config, resumed, actions));
  }

  lemma OpenedTail(config: Config, s: State, p: nat)
    requires Opened(config, s, p)
    ensures s.tail <= s.head && p in s.producers
  {
  }

  // ---- When opening is safe ----

  /**
   * Where the consumer may stand when a region is opened: holding no slot; copying the tail slot out, if
   * the opening scan takes that slot for an old pin and blocks the guard, or if nothing is written past
   * the published head; between freeing the tail slot and storing the tail, only if everything written is
   * published and fills the ring.
   */
  ghost predicate OpensSafely(config: Config, s: State, p: nat, gone: set<nat>)
    requires p in s.producers
  {
    Settled(config, s, p, gone) || RingTheorems.MidReceive(config, s)
  }

  /**
   * Whenever the guard of the resumed handle passes, every slot of the new batch is free, in every later
   * state, for every capacity, bias, batch size and interleaving; and no send of the handle ever runs
   * into an occupied slot.
   */
  lemma BiasedGuardIsSafe(config: Config, s: State, p: nat, gone: set<nat>, actions: seq<Action>)
    requires Opened(config, s, p) && OpensSafely(config, s, p, gone)
    ensures |s.slots| == config.capacity > 0
    ensures var resumed := ResumedOn(config, s, gone);
            && resumed.index == Idx(WrittenUpTo(s, p, gone), config.capacity) < |resumed.slots|
            && (Settled(config, s, p, gone) ==> WrittenUpTo(s, p, gone) == s.head + resumed.bias)
            && GuardHolds(config, Run(config, resumed, actions))
  {
    hide Opened, Settled, RingTheorems.MidReceive, Idx, GuardPasses, Run, Ahead, Rebuild, SweptRegion, SweepsWrites;
    OpenedRun(config, s, p, gone);
    OpenedTail(config, s, p);
    if Settled(config, s, p, gone) {
      ResumeSafe(config, s, p, gone);
      ResumesInPlaceExactly(config, s, p, gone);
      var resumed := ResumedOn(config, s, gone);
      hide ResumedOn;
      RunSafe(config, resumed, actions);
      var later := Run(config, resumed, actions);
      if GuardPasses(config, later) {
        BatchIsFree(config, later);
      }
    } else {
      MidReceivePlace(config, s, p, gone);
      OpeningMidReceiveBlocks(config, s, p, gone, actions);
    }
  }

  lemma MidReceivePlace(config: Config, s: State, p: nat, gone: set<nat>)
    requires Opened(config, s, p) && RingTheorems.MidReceive(config, s)
    ensures |s.slots| == config.capacity > 0
    ensures ResumedOn(config, s, gone).index == Idx(WrittenUpTo(s, p, gone), config.capacity)
  {
    hide Opened, Idx, Rebuild, SweptRegion, SweepsWrites;
    RebuiltPlace(config, s, p, gone);
  }

  // ---- What a send of the resumed handle does ----

  function Producing(n: nat): (actions: seq<Action>)
    ensures |actions| == n
  {
    seq(n, _ => Action.Produce)
  }

  lemma ProducingTwo(config: Config, s: Resumed, n: nat)
    requires config.capacity == |s.slots| > 0 && s.index < |s.slots|
    ensures Run(config, s, Producing(n + 2)) == Run(config, ProducerMove(config, ProducerMove(config, s)), Producing(n))
  {
    hide ProducerMove;
    assert Producing(n + 2)[1..] == Producing(n + 1) && Producing(n + 1)[1..] == Producing(n);
  }

  /** The slots from one cursor up to another have been committed, and no other slot has changed. */
  ghost predicate Fills(config: Config, s: Resumed, from: nat, to: nat, t: Resumed) {
    && config.capacity == |s.slots| == |t.slots| > 0
    && (forall c :: from <= c < to ==> StateAt(config, t, c).Committed?)
    && (forall c :: to - config.capacity <= c < from ==> StateAt(config, t, c) == StateAt(config, s, c))
  }

  /** One slot of the batch is written in two steps. */
  lemma WritesOne(config: Config, s: Resumed)
    requires config.capacity == |s.slots| > 0 && s.index < |s.slots|
    requires Safe(config, s) && s.writer.Writing? && !s.writer.marked && s.writer.k < s.writer.n
    ensures var Writing(n, k, _) := s.writer;
            && ProducerMove(config, ProducerMove(config, s))
               == s.(slots := s.slots[Idx(Frontier(s), config.capacity) := SlotState.Committed],
                     index := Idx(Frontier(s) + 1, config.capacity), writer := Writer.Writing(n, k + 1, false))
            && Safe(config, ProducerMove(config, ProducerMove(config, s)))
  {
    hide Idx;
    NextSlotFree(config, s, 0);
    IdxShift(Frontier(s), 1, config.capacity);
    ProducerSafe(config, s);
    ProducerSafe(config, ProducerMove(config, s));
  }

  lemma BatchFits(config: Config, s: Resumed)
    requires config.capacity == |s.slots| > 0
    requires Safe(config, s) && s.writer.Writing?
    ensures s.writer.n <= s.writer.k + config.capacity
  {
  }

  lemma {:induction false} WritesBatch(config: Config, s: Resumed)
    requires config.capacity == |s.slots| > 0 && s.index < |s.slots|
    requires Safe(config, s) && s.writer.Writing? && !s.writer.marked && s.writer.k <= s.writer.n
    ensures var left, end := s.writer.n - s.writer.k, s.head + s.bias + s.writer.n;
            var t := Run(config, s, Producing(2 * left + 2));
            && t == s.(head := s.head + s.writer.n, slots := t.slots, index := Idx(end, config.capacity),
                       writer := Rested)
            && Fills(config, s, Frontier(s), end, t)
    decreases s.writer.n - s.writer.k
  {
    hide Idx, Safe, Run;
    BatchFits(config, s);
    var left := s.writer.n - s.writer.k;
    ProducingTwo(config, s, 2 * left);
    if left > 0 {
      WritesOne(config, s);
      var u := ProducerMove(config, ProducerMove(config, s));
      WritesBatch(config, u);
      FillsFirst(config, s, u, Run(config, u, Producing(2 * left)));
    } else {
      Publishes(config, s);
    }
  }

  lemma Publishes(config: Config, s: Resumed)
    requires config.capacity == |s.slots| > 0 && s.index < |s.slots|
    requires Safe(config, s) && s.writer.Writing? && !s.writer.marked && s.writer.k == s.writer.n
    ensures Run(config, ProducerMove(config, ProducerMove(config, s)), Producing(0))
         == s.(head := s.head + s.writer.n, index := Idx(s.head + s.bias + s.writer.n, config.capacity),
               writer := Rested)
  {
    hide Idx;
  }

  lemma FillsFirst(config: Config, s: Resumed, u: Resumed, t: Resumed)
    requires config.capacity == |s.slots| > 0 && s.writer.Writing?
    requires s.writer.k < s.writer.n <= s.writer.k + config.capacity
    requires u.slots == s.slots[Idx(Frontier(s), config.capacity) := SlotState.Committed]
    requires Fills(config, u, Frontier(s) + 1, s.head + s.bias + s.writer.n, t)
    ensures Fills(config, s, Frontier(s), s.head + s.bias + s.writer.n, t)
  {
    hide Idx;
    var from, to := Frontier(s), s.head + s.bias + s.writer.n;
    assert StateAt(config, t, from) == StateAt(config, u, from);
    forall c | from <= c < to
      ensures StateAt(config, t, c).Committed?
    {
      assert c == from || StateAt(config, t, c).Committed?;
    }
    forall c | to - config.capacity <= c < from
      ensures StateAt(config, t, c) == StateAt(config, s, c)
    {
      IdxDistinct(c, from, config.capacity);
      assert StateAt(config, t, c) == StateAt(config, u, c);
    }
  }

  /**
   * A send of a resumed handle at rest: if the batch and the bias fit behind the tail and the floor, it
   * commits exactly its slots, from where the handle writes on, and publishes a head that stays as far
   * behind as before; otherwise it is refused and changes nothing.
   */
  lemma SendsExactly(config: Config, s: Resumed, n: nat)
    requires config.capacity == |s.slots| > 0 && s.index < |s.slots|
    requires Safe(config, s) && s.writer.Rested?
    requires 1 <= n <= config.capacity
    ensures if n + s.bias <= config.capacity && s.head + n + s.bias <= Limit(s.tail, s.floor) + config.capacity then
              var t := Run(config, s, [Send(n)] + Producing(2 * n + 4));
              && t == s.(head := s.head + n, slots := t.slots, index := Idx(s.head + s.bias + n, config.capacity))
              && Fills(config, s, s.head + s.bias, s.head + s.bias + n, t)
            else Run(config, s, [Send(n)] + Producing(2)) == s
  {
    hide Idx, GuardLen, Safe, Run;
    GuardFits(config, s.head, s.tail, s.floor, s.bias, n);
    var u := s.(writer := Loading(n));
    var w := ProducerMove(config, ProducerMove(config, u));
    ActSafe(config, s, Send(n));
    ProducerSafe(config, u);
    ProducerSafe(config, ProducerMove(config, u));
    BeginsSend(config, s, n, 2);
    BeginsSend(config, s, n, 2 * n + 4);
    ProducingTwo(config, u, 0);
    ProducingTwo(config, u, 2 * n + 2);
    RunsNothing(config, w);
    if w.writer.Writing? {
      WritesBatch(config, w);
    }
  }

  lemma BeginsSend(config: Config, s: Resumed, n: nat, k: nat)
    requires config.capacity == |s.slots| > 0 && s.index < |s.slots|
    requires s.writer.Rested? && 1 <= n <= config.capacity
    ensures Run(config, s, [Send(n)] + Producing(k)) == Run(config, s.(writer := Loading(n)), Producing(k))
  {
    assert ([Send(n)] + Producing(k))[1..] == Producing(k);
  }

  lemma RunsNothing(config: Config, s: Resumed)
    requires config.capacity == |s.slots| > 0 && s.index < |s.slots|
    ensures Run(config, s, Producing(0)) == s
  {
  }
}
