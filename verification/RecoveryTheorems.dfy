/** A handle that opens a single-producer region rebuilds exactly where the region stands. */
module RecoveryTheorems {
  import opened Bytes
  import opened Errors
  import opened Chunking
  import opened ChunkingProofs
  import opened SlotStates
  import opened Cursors
  import opened Ring
  import opened RingInvariant
  import opened RingProducer
  import opened RingClaim
  import opened RingConsumer
  import opened RingTheorems
  import opened RingClean
  import opened PinScan
  import opened SequenceOrder
  import opened Recovery

  // ---- Scanning a ring whose occupied slots are one run of cursors ----

  /** Exactly the slots of the cursors from `tail` up to `w` are occupied; the others are free. */
  ghost predicate OccupiedRun(slots: seq<Slot>, tail: nat, w: nat) {
    && |slots| > 0
    && tail <= w <= tail + |slots|
    && forall c :: w - |slots| <= c < w ==>
         if c < tail then slots[Idx(c, |slots|)].state.Free? else Occupies(slots[Idx(c, |slots|)])
  }

  /** Every index is the index of one cursor of the lap before `w`. */
  lemma CursorOf(i: nat, w: nat, n: nat) returns (c: int)
    requires i < n
    ensures w - n <= c < w && Idx(c, n) == i
  {
    var q := (w - 1 - i) / n;
    c := n * q + i;
    assert w - 1 - i == n * q + (w - 1 - i) % n;
    ModUnique(c, n, q, i);
  }

  lemma {:induction false} StepsOfRun(slots: seq<Slot>, tail: nat, w: nat, j: nat)
    requires OccupiedRun(slots, tail, w)
    requires j <= w - tail
    ensures StepsToFree(slots, Idx(tail, |slots|), j) == w - tail
    decreases w - tail - j
  {
    hide Idx;
    var n := |slots|;
    IdxShift(tail, j, n);
    if j < w - tail {
      assert Occupies(slots[Idx(tail + j, n)]);
      StepsOfRun(slots, tail, w, j + 1);
    } else if j < n {
      IdxLap(w - n, n);
      assert slots[Idx(w - n, n)].state.Free?;
    }
  }

  /** The inferred write position is the index of the first cursor after the run, also on a full ring. */
  lemma HeadOfRun(slots: seq<Slot>, tail: nat, w: nat)
    requires OccupiedRun(slots, tail, w)
    ensures InferredHead(slots, Idx(tail, |slots|)) == Idx(w, |slots|)
  {
    hide Idx;
    StepsOfRun(slots, tail, w, 0);
    IdxShift(tail, w - tail, |slots|);
  }

  ghost function OccupiedIndices(slots: seq<Slot>): set<nat> {
    set i: nat | i < |slots| && Occupies(slots[i])
  }

  lemma {:induction false} CountIsSize(slots: seq<Slot>)
    ensures |OccupiedOf(slots)| == |OccupiedIndices(slots)|
  {
    if slots == [] {
      assert OccupiedIndices(slots) == {};
    } else {
      var i := |slots| - 1;
      CountIsSize(slots[..i]);
      assert OccupiedIndices(slots) == OccupiedIndices(slots[..i]) + (if Occupies(slots[i]) then {i} else {});
    }
  }

  ghost function RunIndices(tail: nat, w: nat, n: nat): set<nat>
    requires n > 0
  {
    set c: nat | tail <= c < w :: Idx(c, n)
  }

  lemma {:induction false} RunSize(tail: nat, w: nat, n: nat)
    requires n > 0 && tail <= w <= tail + n
    ensures |RunIndices(tail, w, n)| == w - tail
  {
    hide Idx;
    if tail < w {
      RunSize(tail, w - 1, n);
      assert RunIndices(tail, w, n) == RunIndices(tail, w - 1, n) + {Idx(w - 1, n)};
      forall c: nat | tail <= c < w - 1
        ensures Idx(c, n) != Idx(w - 1, n)
      {
        IdxDistinct(c, w - 1, n);
      }
    } else {
      assert RunIndices(tail, w, n) == {};
    }
  }

  /** The scan finds exactly as many occupied slots as the run is long. */
  lemma CountOfRun(slots: seq<Slot>, tail: nat, w: nat)
    requires OccupiedRun(slots, tail, w)
    ensures |OccupiedOf(slots)| == w - tail
  {
    hide Idx;
    var n := |slots|;
    CountIsSize(slots);
    RunSize(tail, w, n);
    forall i: nat | i < n
      ensures i in OccupiedIndices(slots) <==> i in RunIndices(tail, w, n)
    {
      var c := CursorOf(i, w, n);
      if i in RunIndices(tail, w, n) {
        var d: nat :| tail <= d < w && Idx(d, n) == i;
        if c < d {
          IdxDistinct(c, d, n);
        } else if d < c {
          IdxDistinct(d, c, n);
        }
      }
    }
    assert OccupiedIndices(slots) == RunIndices(tail, w, n);
  }

  lemma {:induction false} HeadersOf(slots: seq<Slot>)
    ensures forall k :: 0 <= k < |OccupiedOf(slots)| ==>
              var h := OccupiedOf(slots)[k];
              && h.index < |slots| && Occupies(slots[h.index])
              && h.state == slots[h.index].state && h.seqNo == slots[h.index].seqNo
    ensures forall i: nat :: i < |slots| && Occupies(slots[i]) ==>
              exists k :: 0 <= k < |OccupiedOf(slots)| && OccupiedOf(slots)[k].index == i
  {
    if slots != [] {
      var i := |slots| - 1;
      HeadersOf(slots[..i]);
      if Occupies(slots[i]) {
        assert OccupiedOf(slots)[|OccupiedOf(slots)| - 1].index == i;
      }
      forall j: nat | j < |slots| && Occupies(slots[j])
        ensures exists k :: 0 <= k < |OccupiedOf(slots)| && OccupiedOf(slots)[k].index == j
      {
        if j < i {
          var k :| 0 <= k < |OccupiedOf(slots[..i])| && OccupiedOf(slots[..i])[k].index == j;
          assert OccupiedOf(slots)[k].index == j;
        }
      }
    }
  }

  lemma PinnedInAppend(headers: seq<Header>, h: Header)
    ensures PinnedIn(headers + [h]) == PinnedIn(headers) + (if h.state.Pinned? then 1 else 0)
  {
    assert (headers + [h])[..|headers|] == headers;
  }

  lemma OccupiedOfStep(slots: seq<Slot>)
    requires slots != []
    ensures var i := |slots| - 1;
            OccupiedOf(slots) == OccupiedOf(slots[..i])
                                 + (if Occupies(slots[i]) then [Header(i, slots[i].state, slots[i].seqNo)] else [])
  {
  }

  /** The scan counts a pinned slot once: here there is none, or only the one at index `t`. */
  lemma {:induction false} PinnedCount(slots: seq<Slot>, t: nat)
    requires forall i :: 0 <= i < |slots| && i != t ==> !slots[i].state.Pinned?
    ensures PinnedIn(OccupiedOf(slots)) == if t < |slots| && slots[t].state.Pinned? then 1 else 0
  {
    if slots != [] {
      var i := |slots| - 1;
      PinnedCount(slots[..i], t);
      OccupiedOfStep(slots);
      hide OccupiedOf, PinnedIn;
      if Occupies(slots[i]) {
        PinnedInAppend(OccupiedOf(slots[..i]), Header(i, slots[i].state, slots[i].seqNo));
      } else {
        assert OccupiedOf(slots) == OccupiedOf(slots[..i]);
      }
    }
  }

  lemma {:induction false} NoFloor(config: Config, slots: seq<Slot>, at: nat, tail: nat)
    requires config.capacity == |slots| > 0
    requires forall c :: at <= c < tail ==> !slots[Idx(c, config.capacity)].state.Pinned?
    ensures ScanFloor(config, slots, at, tail) == None
    decreases tail - at
  {
    if at < tail {
      NoFloor(config, slots, at + 1, tail);
    }
  }

  /** The scan's newest number, when every occupied slot carries its reservation's number. */
  lemma {:induction false} NewestOfRun(slots: seq<Slot>, newest: nat)
    requires newest + 1 < HALF
    requires exists i: nat :: i < |slots| && Occupies(slots[i]) && slots[i].seqNo == newest
    requires forall i :: 0 <= i < |slots| && Occupies(slots[i]) ==> slots[i].seqNo <= newest
    ensures FoldNewest(0, SeqNos(OccupiedOf(slots))) == newest + 1
  {
    HeadersOf(slots);
    hide OccupiedOf, FoldNewest, Furthest;
    var headers := OccupiedOf(slots);
    var seqs := SeqNos(headers);
    var offsets: seq<nat> := seqs;
    FoldIsNewest(0, 0, offsets, seqs);
    FurthestIsMax(0, offsets);
    var i: nat :| i < |slots| && Occupies(slots[i]) && slots[i].seqNo == newest;
    var k :| 0 <= k < |headers| && headers[k].index == i;
    assert offsets[k] == newest;
  }

  // ---- The region a single producer leaves behind ----

  /** How far the producer's current message has been committed: its slots before this cursor are COMMITTED. */
  function CommittedUpTo(s: State, p: nat): nat
    requires p in s.producers
  {
    var pc := s.producers[p].pc;
    if pc.WriteSlot? && pc.entry < |s.log| then s.log[pc.entry].start + pc.k else |s.cells|
  }

  /** Whether the producer has a slot in state WRITING. */
  predicate MidSlot(s: State, p: nat)
    requires p in s.producers
  {
    var pc := s.producers[p].pc;
    pc.WriteSlot? && pc.entry < |s.log| && (pc.phase.Fill? || pc.phase.Commit?)
  }

  /**
   * A single producer's region, without live views and with the tail not past the published head. Its
   * producer may have stopped at any moment, and its consumer may stand anywhere in a call.
   */
  ghost predicate Opened(config: Config, s: State, p: nat) {
    && Reachable(config, s)
    && !config.multiProducer
    && s.pins == {}
    && p in s.producers
    && s.tail <= s.head
  }

  /** The same while the consumer holds no slot: from the start of a receive up to the pin of a slot, or at rest. */
  ghost predicate Unheld(config: Config, s: State, p: nat) {
    Opened(config, s, p) && HoldOf(s.consumer.pc).NoHold?
  }

  /** What a slot of the last claimed lap looks like, whatever the moment at which the producer stopped. */
  predicate LeftBehind(s: State, p: nat, c: int, slot: Slot)
    requires p in s.producers
  {
    var committed := CommittedUpTo(s, p);
    if c < s.tail then slot.state.Free?
    else if c == s.tail && !HoldOf(s.consumer.pc).NoHold? then
      slot.state == if HoldOf(s.consumer.pc).Freed? then Free else Pinned
    else if c < committed then
      slot.state.Committed? && 0 <= c < |s.cells| && s.cells[c].entry < |s.log|
      && slot.seqNo == s.cells[c].entry % U64_RANGE
    else if c == committed && MidSlot(s, p) then
      slot.state.Writing? && 0 <= c < |s.cells| && s.cells[c].entry < |s.log|
      && slot.seqNo == s.cells[c].entry % U64_RANGE
      && slot.writer.Some? && slot.writer.value.pid == p
    else slot.state.Free?
  }

  /** Without views, a slot the consumer holds is the committed one at the tail, being copied or just freed. */
  lemma HeldIsTail(config: Config, s: State)
    requires Inv(config, s)
    requires !config.multiProducer && s.pins == {}
    requires !HoldOf(s.consumer.pc).NoHold?
    ensures HoldOf(s.consumer.pc) == Reading(false) || HoldOf(s.consumer.pc).Freed?
    ensures CommittedTail(s.cells, s.tail)
  {
    hide Inv, Parts, AfterOk;
    InvFloor(config, s);
    InvConsumer(config, s);
  }

  /** Where the single producer stopped, inside or between its messages. */
  lemma SingleWriter(config: Config, s: State, p: nat)
    requires Inv(config, s)
    requires !config.multiProducer && p in s.producers
    ensures s.head <= CommittedUpTo(s, p) <= |s.cells|
    ensures var pc := s.producers[p].pc;
            pc.WriteSlot? ==>
              && pc.entry < |s.log| && !s.log[pc.entry].dead && s.log[pc.entry].owner == p
              && Sendable(config, s.log[pc.entry].message) && pc.k < Len(config, s.log[pc.entry])
              && s.log[pc.entry].start + Len(config, s.log[pc.entry]) == |s.cells|
              && s.head == s.log[pc.entry].start
              && (forall c :: s.head <= c < |s.cells| ==>
                    s.cells[c].stage == StageAt(s.head, pc.k, pc.phase, c))
    ensures !s.producers[p].pc.WriteSlot? ==> forall c :: s.head <= c < |s.cells| ==> s.cells[c].stage == Done
  {
    hide Inv, Parts, Sendable, MessageFrames, StageAt, LogOk;
    InvProducer(config, s, p);
    InvDelivered(config, s);
    InvMessages(config, s);
    InvCursors(config, s);
    if s.producers[p].pc.WriteSlot? {
      LastEntry(config, s.log, |s.cells|, s.producers[p].pc.entry);
    }
  }

  lemma LastEntry(config: Config, log: seq<Entry>, frontier: nat, e: nat)
    requires LogOk(config, log, frontier)
    requires e + 1 == |log|
    ensures Sendable(config, log[e].message) && log[e].start + Len(config, log[e]) == frontier
  {
    hide Sendable, MessageFrames;
    assert log[e].start + Len(config, log[e]) == StartOf(log, frontier, e + 1);
  }

  /** The stages of the claimed cursors of a single producer. */
  lemma SingleStage(config: Config, s: State, p: nat, c: nat)
    requires Inv(config, s)
    requires !config.multiProducer && p in s.producers
    requires c < |s.cells|
    ensures var committed := CommittedUpTo(s, p);
            if c < committed then s.cells[c].stage == Done
            else if c == committed && MidSlot(s, p) then
              && (s.cells[c].stage == Marked || s.cells[c].stage == Filled)
              && s.cells[c].entry == s.producers[p].pc.entry
            else s.cells[c].stage == Reserved
  {
    hide Inv, Parts, Sendable, MessageFrames;
    SingleWriter(config, s, p);
    InvLog(config, s);
    InvCells(config, s);
  }

  lemma SlotLeftBehind(config: Config, s: State, p: nat, c: int)
    requires Inv(config, s)
    requires !config.multiProducer && p in s.producers && s.pins == {}
    requires |s.cells| - config.capacity <= c < |s.cells|
    ensures |s.slots| == config.capacity > 0
    ensures LeftBehind(s, p, c, At(config, s, c))
  {
    hide Inv, Parts, Sendable, MessageFrames, Idx, DataOk;
    SlotAt(config, s, c);
    if !HoldOf(s.consumer.pc).NoHold? {
      HeldIsTail(config, s);
    }
    if c >= s.tail {
      SingleWriter(config, s, p);
      SingleStage(config, s, p, c);
      InvDelivered(config, s);
    }
  }

  /** A slot the consumer holds lies before everything the producer has not committed. */
  lemma HeldIsCommitted(config: Config, s: State, p: nat)
    requires Opened(config, s, p)
    requires !HoldOf(s.consumer.pc).NoHold?
    ensures s.tail < CommittedUpTo(s, p) <= |s.cells| <= s.tail + config.capacity
    ensures HoldOf(s.consumer.pc) == Reading(false) || HoldOf(s.consumer.pc).Freed?
  {
    hide Inv, Parts, Reachable, Sendable, MessageFrames;
    ReachableInv(config, s);
    HeldIsTail(config, s);
    SingleStage(config, s, p, s.tail);
    SingleWriter(config, s, p);
    InvCursors(config, s);
  }

  // ---- What the opening handle rebuilds ----

  /** The run of occupied cursors after the sweep: an unfinished slot stays unless its writer is gone. */
  function WrittenUpTo(s: State, p: nat, gone: set<nat>): nat
    requires p in s.producers
  {
    CommittedUpTo(s, p) + (if MidSlot(s, p) && p !in gone then 1 else 0)
  }

  lemma SweptSlot(config: Config, slots: seq<Slot>, gone: set<nat>, i: nat)
    requires i < |slots| && !config.multiProducer
    requires slots[i].state.Pinned? ==> slots[i].writer.None?
    ensures SweptRegion(config, slots, gone)[i] ==
            if slots[i].state.Writing? && StampGone(slots[i], gone) then EMPTY_SLOT else slots[i]
  {
  }

  /** Whether a slot of the run is occupied: every one from the tail on, but for a tail slot just freed. */
  predicate StillOccupied(s: State, c: int) {
    c > s.tail || (c == s.tail && !HoldOf(s.consumer.pc).Freed?)
  }

  /** The swept slot of a cursor of the lap before the end of the run. */
  lemma SweptLeftBehind(config: Config, s: State, p: nat, gone: set<nat>, c: int)
    requires Opened(config, s, p)
    requires config.capacity == |s.slots| > 0
    requires WrittenUpTo(s, p, gone) - config.capacity <= c < WrittenUpTo(s, p, gone) <= |s.cells|
    ensures var slot := SweptRegion(config, s.slots, gone)[Idx(c, config.capacity)];
            && (slot.state.Pinned? <==> c == s.tail && HoldOf(s.consumer.pc).Reading?)
            && (if StillOccupied(s, c) then Occupies(slot) else slot.state.Free?)
            && (c >= s.tail && HoldOf(s.consumer.pc).NoHold? ==>
                  0 <= c < |s.cells| && s.cells[c].entry < |s.log| && slot.seqNo == s.cells[c].entry % U64_RANGE)
            && (c >= s.tail ==> (slot.state.Writing? <==> c == CommittedUpTo(s, p)))
  {
    hide Inv, Parts, Reachable, Sendable, MessageFrames, Idx, SweptRegion;
    ReachableInv(config, s);
    PinnedIsUnstamped(config, s);
    InvCursors(config, s);
    SingleWriter(config, s, p);
    if !HoldOf(s.consumer.pc).NoHold? {
      HeldIsCommitted(config, s, p);
    }
    var n := config.capacity;
    if c >= |s.cells| - n {
      SlotLeftBehind(config, s, p, c);
      SweptSlot(config, s.slots, gone, Idx(c, n));
    } else {
      SlotLeftBehind(config, s, p, c + n);
      IdxLap(c, n);
      SweptSlot(config, s.slots, gone, Idx(c + n, n));
    }
  }

  /** Where the run of occupied slots starts: at the tail, or behind a tail slot that has just been freed. */
  function RunStart(s: State): nat {
    if HoldOf(s.consumer.pc).Freed? then s.tail + 1 else s.tail
  }

  lemma OpenedRun(config: Config, s: State, p: nat, gone: set<nat>)
    requires Opened(config, s, p)
    ensures |s.slots| == config.capacity > 0
    ensures var w, swept := WrittenUpTo(s, p, gone), SweptRegion(config, s.slots, gone);
            && s.head <= w <= |s.cells| <= s.tail + config.capacity
            && OccupiedRun(swept, RunStart(s), w)
            && (forall i :: 0 <= i < |swept| ==>
                  (swept[i].state.Pinned? <==> i == Idx(s.tail, config.capacity) && HoldOf(s.consumer.pc).Reading?))
  {
    hide Inv, Parts, Reachable, Sendable, MessageFrames, Idx, SweptRegion;
    ReachableInv(config, s);
    InvCursors(config, s);
    SingleWriter(config, s, p);
    if !HoldOf(s.consumer.pc).NoHold? {
      HeldIsCommitted(config, s, p);
    }
    var w, swept, n := WrittenUpTo(s, p, gone), SweptRegion(config, s.slots, gone), config.capacity;
    forall c | w - n <= c < w
      ensures if c < RunStart(s) then swept[Idx(c, n)].state.Free? else Occupies(swept[Idx(c, n)])
    {
      SweptLeftBehind(config, s, p, gone, c);
    }
    forall i | 0 <= i < |swept|
      ensures swept[i].state.Pinned? <==> i == Idx(s.tail, n) && HoldOf(s.consumer.pc).Reading?
    {
      var c := CursorOf(i, w, n);
      SweptLeftBehind(config, s, p, gone, c);
      if HoldOf(s.consumer.pc).Reading? {
        if c < s.tail {
          IdxDistinct(c, s.tail, n);
        } else if c > s.tail {
          IdxDistinct(s.tail, c, n);
        }
      }
    }
  }

  /** An occupied slot of the swept region is the slot of one cursor of the run. */
  lemma OccupiedCursor(config: Config, s: State, p: nat, gone: set<nat>, i: nat) returns (c: nat)
    requires Unheld(config, s, p)
    requires |s.slots| == config.capacity > 0
    requires i < |s.slots| && Occupies(SweptRegion(config, s.slots, gone)[i])
    ensures s.tail <= c < WrittenUpTo(s, p, gone) <= |s.cells|
    ensures Idx(c, config.capacity) == i
    ensures s.cells[c].entry < |s.log|
    ensures SweptRegion(config, s.slots, gone)[i].seqNo == s.cells[c].entry % U64_RANGE
    ensures SweptRegion(config, s.slots, gone)[i].state.Writing? <==> c == CommittedUpTo(s, p)
  {
    hide Inv, Parts, Reachable, Sendable, MessageFrames, Idx, SweptRegion;
    OpenedRun(config, s, p, gone);
    c := CursorOf(i, WrittenUpTo(s, p, gone), config.capacity);
    SweptLeftBehind(config, s, p, gone, c);
  }

  /** Something is readable exactly when the tail slot is committed; it is the consumer's next slot. */
  lemma UnheldReadable(config: Config, s: State, p: nat, gone: set<nat>)
    requires Unheld(config, s, p)
    ensures |s.slots| == config.capacity > 0
    ensures var swept := SweptRegion(config, s.slots, gone);
            && (Readable(OccupiedOf(swept)) <==> s.tail < CommittedUpTo(s, p))
            && (s.tail < CommittedUpTo(s, p) ==> swept[Idx(s.tail, config.capacity)].seqNo == s.consumer.expected)
  {
    hide Inv, Parts, Reachable, Sendable, MessageFrames, Idx, SweptRegion, OccupiedOf, LogOk, CellsOk;
    ReachableInv(config, s);
    OpenedRun(config, s, p, gone);
    SingleWriter(config, s, p);
    var swept := SweptRegion(config, s.slots, gone);
    var headers := OccupiedOf(swept);
    HeadersOf(swept);
    if s.tail < CommittedUpTo(s, p) {
      var i := Idx(s.tail, config.capacity);
      SweptLeftBehind(config, s, p, gone, s.tail);
      var k :| 0 <= k < |headers| && headers[k].index == i;
      TailEntry(config, s);
    } else {
      forall k | 0 <= k < |headers|
        ensures headers[k].state.Writing?
      {
        var c := OccupiedCursor(config, s, p, gone, headers[k].index);
        assert c == s.tail;
      }
    }
  }

  /** A consumer that holds nothing stands in its next message, before a slot of it. */
  lemma TailEntry(config: Config, s: State)
    requires Inv(config, s)
    requires !config.multiProducer && s.pins == {} && HoldOf(s.consumer.pc).NoHold?
    requires s.tail < |s.cells|
    ensures s.cells[s.tail].entry == s.done
    ensures s.consumer.expected == s.done % U64_RANGE
  {
    hide Inv, Parts, Sendable, MessageFrames, LogOk, CellsOk, ProgressOk;
    InvConsumer(config, s);
    InvMessages(config, s);
    InvCells(config, s);
    StandsInMessage(config, s);
    EntryAt(config, s.log, s.cells, s.done, s.tail, s.tail - StartOf(s.log, |s.cells|, s.done));
  }

  lemma StandsInMessage(config: Config, s: State)
    requires Inv(config, s)
    requires !config.multiProducer && HoldOf(s.consumer.pc).NoHold?
    ensures s.done <= |s.log|
    ensures var k := s.tail - StartOf(s.log, |s.cells|, s.done);
            && k >= 0
            && (k > 0 ==>
                  s.done < |s.log| && Sendable(config, s.log[s.done].message) && k < Len(config, s.log[s.done]))
  {
    hide Inv, Parts, Sendable, MessageFrames, ProgressOk, CommittedTail;
    InvConsumer(config, s);
  }

  /** Reservations follow each other in cursor order. */
  lemma {:induction false} EntriesInOrder(config: Config, log: seq<Entry>, cells: seq<Cell>, c: nat, d: nat)
    requires LogOk(config, log, |cells|) && CellsOk(config, log, cells)
    requires c <= d < |cells|
    ensures cells[c].entry <= cells[d].entry < |log|
    decreases d - c
  {
    hide Sendable, MessageFrames;
    assert CellOk(config, log, cells, d);
    if c < d {
      EntriesInOrder(config, log, cells, c, d - 1);
      assert CellOk(config, log, cells, d - 1);
      var e := cells[d - 1].entry;
      if d < log[e].start + Len(config, log[e]) {
        assert cells[d].entry == e;
      } else {
        assert log[e].start + Len(config, log[e]) == StartOf(log, |cells|, e + 1);
        assert cells[d].entry == e + 1;
      }
    }
  }

  /** The fold over the occupied slots finds the number after the newest slot's. */
  lemma UnheldNextSeq(config: Config, s: State, p: nat, gone: set<nat>)
    requires Unheld(config, s, p)
    requires s.tail < WrittenUpTo(s, p, gone)
    requires |s.log| < HALF
    ensures |s.slots| == config.capacity > 0
    ensures 0 < WrittenUpTo(s, p, gone) <= |s.cells|
    ensures FoldNewest(0, SeqNos(OccupiedOf(SweptRegion(config, s.slots, gone))))
         == s.cells[WrittenUpTo(s, p, gone) - 1].entry + 1
  {
    hide Inv, Parts, Reachable, Sendable, MessageFrames, Idx, SweptRegion, OccupiedOf, LogOk, CellsOk;
    ReachableInv(config, s);
    OpenedRun(config, s, p, gone);
    InvMessages(config, s);
    InvCells(config, s);
    var swept, w := SweptRegion(config, s.slots, gone), WrittenUpTo(s, p, gone);
    var newest := s.cells[w - 1].entry;
    SweptLeftBehind(config, s, p, gone, w - 1);
    var last := Idx(w - 1, config.capacity);
    assert Occupies(swept[last]) && swept[last].seqNo == newest;
    forall i | 0 <= i < |swept| && Occupies(swept[i])
      ensures swept[i].seqNo <= newest
    {
      var c := OccupiedCursor(config, s, p, gone, i);
      EntriesInOrder(config, s.log, s.cells, c, w - 1);
    }
    NewestOfRun(swept, newest);
  }

  /** The index, the bias and the depth that a handle rebuilds, wherever the consumer stands. */
  lemma RebuiltPlace(config: Config, s: State, p: nat, gone: set<nat>)
    requires Opened(config, s, p)
    ensures |s.slots| == config.capacity > 0
    ensures var w, swept := WrittenUpTo(s, p, gone), SweptRegion(config, s.slots, gone);
            var handle := Rebuild(config, s.head, s.tail, swept, SweepsWrites(config, s.slots, gone));
            var pool := w - s.tail - (if HoldOf(s.consumer.pc).NoHold? then 0 else 1);
            && handle.head == (if HoldOf(s.consumer.pc).Freed? then Idx(s.tail, config.capacity)
                               else Idx(w, config.capacity))
            && handle.tail == Idx(s.tail, config.capacity)
            && handle.bias == (if pool < s.head - s.tail then 0 else pool - (s.head - s.tail))
            && handle.len == s.head - s.tail + handle.bias
            && handle.floor == (if MidReceive(config, s) then Some(s.tail - config.capacity) else None)
  {
    hide Inv, Parts, Reachable, Sendable, MessageFrames, Idx, SweptRegion, OccupiedOf, Readable, StepsToFree, ScanFloor,
         FoldNewest, PinnedIn, SweepsWrites;
    OpenedRun(config, s, p, gone);
    var w, swept, n := WrittenUpTo(s, p, gone), SweptRegion(config, s.slots, gone), config.capacity;
    CountOfRun(swept, RunStart(s), w);
    PinnedCount(swept, Idx(s.tail, n));
    if HoldOf(s.consumer.pc).Freed? {
      HeldIsCommitted(config, s, p);
      SweptLeftBehind(config, s, p, gone, s.tail);
      FreeTailIsHead(swept, Idx(s.tail, n));
    } else {
      HeadOfRun(swept, s.tail, w);
    }
    if !HoldOf(s.consumer.pc).NoHold? {
      HeldIsCommitted(config, s, p);
      SweptLeftBehind(config, s, p, gone, s.tail);
    }
    ScanOfOpened(config, s, p, gone);
  }

  /** The search for the write position stops at once on a tail slot that has just been freed. */
  lemma FreeTailIsHead(slots: seq<Slot>, tail: nat)
    requires tail < |slots| && slots[tail].state.Free?
    ensures InferredHead(slots, tail) == tail
  {
  }

  /** Without views the scan finds no floor, unless it meets the tail slot of a receive under way. */
  lemma ScanOfOpened(config: Config, s: State, p: nat, gone: set<nat>)
    requires Opened(config, s, p)
    ensures |s.slots| == config.capacity > 0
    ensures ScanFloor(config, SweptRegion(config, s.slots, gone), ScanStart(config, s.tail), s.tail)
         == if MidReceive(config, s) then Some(s.tail - config.capacity) else None
  {
    hide Inv, Parts, Reachable, Sendable, MessageFrames, Idx, SweptRegion, ScanFloor;
    OpenedRun(config, s, p, gone);
    var w, n, swept := WrittenUpTo(s, p, gone), config.capacity, SweptRegion(config, s.slots, gone);
    if MidReceive(config, s) {
      IdxLap(s.tail - n, n);
      ScanFirst(config, swept, s.tail - n, s.tail);
    } else {
      forall c | ScanStart(config, s.tail) <= c < s.tail
        ensures !swept[Idx(c, n)].state.Pinned?
      {
        if HoldOf(s.consumer.pc).Reading? {
          IdxDistinct(c, s.tail, n);
        }
      }
      NoFloor(config, swept, ScanStart(config, s.tail), s.tail);
    }
  }

  lemma ScanFirst(config: Config, slots: seq<Slot>, at: nat, tail: nat)
    requires config.capacity == |slots| > 0
    requires at < tail && slots[Idx(at, config.capacity)].state.Pinned?
    ensures ScanFloor(config, slots, at, tail) == Some(at)
  {
  }

  /**
   * Whatever the moment at which the single producer stopped, a handle that opens the region while the
   * consumer holds no slot resumes behind everything it finds written: `bias` slots past the published
   * head, none of them lost to the guard, with the message sequence that follows the newest slot and the
   * sequence the consumer expects.
   */
  lemma RecoverAfterCrash(config: Config, s: State, p: nat, gone: set<nat>)
    requires Unheld(config, s, p)
    ensures |s.slots| == config.capacity > 0
    ensures var w, swept := WrittenUpTo(s, p, gone), SweptRegion(config, s.slots, gone);
            var handle := Rebuild(config, s.head, s.tail, swept, SweepsWrites(config, s.slots, gone));
            && s.head <= w <= |s.cells|
            && OccupiedRun(swept, s.tail, w)
            && handle.head == Idx(w, config.capacity)
            && handle.tail == Idx(s.tail, config.capacity)
            && handle.bias == w - s.head
            && handle.len == w - s.tail
            && handle.floor == None
            && (s.tail < CommittedUpTo(s, p) ==> handle.expected == s.consumer.expected)
            && (s.tail >= CommittedUpTo(s, p) ==> handle.resync)
            && (s.tail < w && |s.log| < HALF ==> w > 0 && handle.nextSeq == s.cells[w - 1].entry + 1)
  {
    hide Inv, Parts, Reachable, Sendable, MessageFrames, Idx, SweptRegion, OccupiedOf, Readable, InferredHead,
         ScanFloor, FoldNewest, PinnedIn, SweepsWrites;
    OpenedRun(config, s, p, gone);
    RebuiltPlace(config, s, p, gone);
    UnheldReadable(config, s, p, gone);
    if s.tail < WrittenUpTo(s, p, gone) && |s.log| < HALF {
      UnheldNextSeq(config, s, p, gone);
    }
  }

  /**
   * Where the consumer stands decides whether a region can be opened: holding no slot always; copying the
   * tail slot out only if nothing is written past the published head; between freeing the tail slot and
   * storing the tail only if besides the ring is full.
   */
  ghost predicate Settled(config: Config, s: State, p: nat, gone: set<nat>)
    requires p in s.producers
  {
    var hold, w := HoldOf(s.consumer.pc), WrittenUpTo(s, p, gone);
    hold.NoHold? || (w == s.head && (hold.Freed? ==> w == s.tail + config.capacity))
  }

  /**
   * A handle resumes at the index `bias` slots past the published head, where `bias` is the number of
   * slots written past it, exactly when the consumer stands at such a place.
   */
  lemma ResumesInPlaceExactly(config: Config, s: State, p: nat, gone: set<nat>)
    requires Opened(config, s, p)
    ensures |s.slots| == config.capacity > 0
    ensures var w, swept := WrittenUpTo(s, p, gone), SweptRegion(config, s.slots, gone);
            var handle := Rebuild(config, s.head, s.tail, swept, SweepsWrites(config, s.slots, gone));
            handle.head == Idx(w, config.capacity) && handle.bias == w - s.head <==> Settled(config, s, p, gone)
  {
    hide Inv, Parts, Reachable, Sendable, MessageFrames, Idx, SweptRegion, Rebuild, SweepsWrites;
    OpenedRun(config, s, p, gone);
    RebuiltPlace(config, s, p, gone);
    var w := WrittenUpTo(s, p, gone);
    if !HoldOf(s.consumer.pc).NoHold? {
      HeldIsCommitted(config, s, p);
      if w < s.tail + config.capacity {
        IdxDistinct(s.tail, w, config.capacity);
      } else {
        IdxLap(s.tail, config.capacity);
      }
    }
  }

  /**
   * Reopening a quiescent, crash-free, non-empty region without pins rebuilds exactly the live handles'
   * write index, read index, depth, next send sequence and next expected sequence, with no bias.
   */
  lemma ReopenFidelity(config: Config, s: State, p: nat, gone: set<nat>)
    requires Opened(config, s, p) && s.consumer.pc.Resting?
    requires s.producers[p].pc.Idle?
    requires s.tail < s.head && |s.log| < HALF
    ensures |s.slots| == config.capacity > 0
    ensures var handle :=
              Rebuild(config, s.head, s.tail, SweptRegion(config, s.slots, gone), SweepsWrites(config, s.slots, gone));
            && handle.head == Idx(s.head, config.capacity)
            && handle.tail == Idx(s.tail, config.capacity)
            && handle.len == s.head - s.tail
            && handle.bias == 0
            && handle.nextSeq == s.producers[p].nextSeq
            && handle.expected == s.consumer.expected
            && !handle.resync
            && handle.headCursor == s.head && handle.tailCursor == s.tail && handle.floor == s.floor
  {
    hide Inv, Parts, Reachable, Sendable, MessageFrames, Idx, SweptRegion, Rebuild, SweepsWrites;
    ReachableInv(config, s);
    RecoverAfterCrash(config, s, p, gone);
    InvProducer(config, s, p);
    InvFloor(config, s);
    LastCell(config, s);
    NothingUnfinished(config, s, p, gone);
    UnheldReadable(config, s, p, gone);
    hide OccupiedOf, Readable;
    RebuildCursors(config, s.head, s.tail, SweptRegion(config, s.slots, gone), SweepsWrites(config, s.slots, gone));
  }

  lemma RebuildCursors(config: Config, head: nat, tail: nat, slots: seq<Slot>, reclaimed: bool)
    requires config.capacity == |slots| > 0
    ensures var handle := Rebuild(config, head, tail, slots, reclaimed);
            && handle.headCursor == head && handle.tailCursor == tail
            && (handle.resync <==> reclaimed || !Readable(OccupiedOf(slots)))
  {
    hide OccupiedOf, Idx, ScanFloor, FoldNewest, PinnedIn, Readable;
  }

  /** An idle producer has left no unfinished slot. */
  lemma NothingUnfinished(config: Config, s: State, p: nat, gone: set<nat>)
    requires Opened(config, s, p)
    requires s.producers[p].pc.Idle?
    ensures !SweepsWrites(config, s.slots, gone)
  {
    hide Inv, Parts, Reachable, Sendable, MessageFrames, Idx;
    ReachableInv(config, s);
    forall i | 0 <= i < |s.slots|
      ensures !s.slots[i].state.Writing?
    {
      var c := CursorOf(i, |s.cells|, config.capacity);
      SlotLeftBehind(config, s, p, c);
    }
  }

  /** The last claimed cursor belongs to the last reservation. */
  lemma LastCell(config: Config, s: State)
    requires Inv(config, s)
    requires |s.cells| > 0
    ensures s.cells[|s.cells| - 1].entry + 1 == |s.log|
  {
    hide Inv, Parts, Sendable, MessageFrames;
    InvCells(config, s);
    InvMessages(config, s);
    var c := |s.cells| - 1;
    assert CellOk(config, s.log, s.cells, c);
    var e := |s.log| - 1;
    LastEntry(config, s.log, |s.cells|, e);
  }
}
