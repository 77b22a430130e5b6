/** Opening a region: sweeping dead slots, rescanning the pin floor, rebuilding a handle's state. */
module Recovery {
  import opened Bytes
  import opened Errors
  import opened Chunking
  import opened SlotStates
  import opened Cursors
  import opened Ring
  import opened SequenceOrder
  import opened PinScan

  // ---- What the scan sees ----

  predicate Occupies(slot: Slot) {
    slot.state.Committed? || slot.state.Pinned? || slot.state.Writing?
  }

  datatype Header = Header(index: nat, state: SlotState, seqNo: u64)

  /** The occupied slots in index order (`occupied_slot_headers`). */
  function OccupiedOf(slots: seq<Slot>): (headers: seq<Header>)
    ensures |headers| <= |slots|
  {
    if slots == [] then []
    else
      var i := |slots| - 1;
      OccupiedOf(slots[..i]) + (if Occupies(slots[i]) then [Header(i, slots[i].state, slots[i].seqNo)] else [])
  }

  function PinnedIn(headers: seq<Header>): (n: nat)
    ensures n <= |headers|
  {
    if headers == [] then 0
    else
      var i := |headers| - 1;
      PinnedIn(headers[..i]) + (if headers[i].state.Pinned? then 1 else 0)
  }

  function SeqNos(headers: seq<Header>): (seqs: seq<u64>)
    ensures |seqs| == |headers|
  {
    seq(|headers|, i requires 0 <= i < |headers| => headers[i].seqNo)
  }

  /** Whether the process that stamped the slot is provably gone. */
  predicate StampGone(slot: Slot, gone: set<nat>) {
    slot.writer.Some? && slot.writer.value.pid in gone
  }

  /** Slots in the given state left behind by a process that is gone become free. */
  function Swept(slots: seq<Slot>, state: SlotState, gone: set<nat>): (swept: seq<Slot>)
    ensures |swept| == |slots|
  {
    seq(|slots|, i requires 0 <= i < |slots| =>
      if slots[i].state == state && StampGone(slots[i], gone) then EMPTY_SLOT else slots[i])
  }

  /** How many slots a sweep frees. */
  function SweepCount(slots: seq<Slot>, state: SlotState, gone: set<nat>): (count: nat)
    ensures count > 0 <==> exists i :: 0 <= i < |slots| && slots[i].state == state && StampGone(slots[i], gone)
  {
    if slots == [] then 0
    else
      var i := |slots| - 1;
      SweepCount(slots[..i], state, gone) + (if slots[i].state == state && StampGone(slots[i], gone) then 1 else 0)
  }

  /** What the whole sweep of an opening handle leaves. */
  function SweptRegion(config: Config, slots: seq<Slot>, gone: set<nat>): (swept: seq<Slot>)
    ensures |swept| == |slots|
  {
    Swept(if config.multiProducer then slots else Swept(slots, Writing, gone), Pinned, gone)
  }

  /** How many slots the whole sweep of an opening handle frees. */
  function SweptCount(config: Config, slots: seq<Slot>, gone: set<nat>): nat {
    if config.multiProducer then SweepCount(slots, Pinned, gone)
    else SweepCount(slots, Writing, gone) + SweepCount(Swept(slots, Writing, gone), Pinned, gone)
  }

  /** Whether the sweep finds an unfinished write of a dead producer; the next read then resynchronises. */
  predicate SweepsWrites(config: Config, slots: seq<Slot>, gone: set<nat>) {
    !config.multiProducer && exists i :: 0 <= i < |slots| && slots[i].state.Writing? && StampGone(slots[i], gone)
  }

  /** The steps from `tail` to the first free slot, or the whole ring. */
  function StepsToFree(slots: seq<Slot>, tail: nat, j: nat): (steps: nat)
    requires tail < |slots| && j <= |slots|
    ensures j <= steps <= |slots|
    decreases |slots| - j
  {
    if j == |slots| || slots[(tail + j) % |slots|].state.Free? then j else StepsToFree(slots, tail, j + 1)
  }

  /** The first free index from the tail on, or the tail itself on a full ring (`infer_head_from_tail`). */
  function InferredHead(slots: seq<Slot>, tail: nat): (head: nat)
    requires tail < |slots|
    ensures head < |slots|
  {
    (tail + StepsToFree(slots, tail, 0)) % |slots|
  }

  predicate Readable(headers: seq<Header>) {
    exists i :: 0 <= i < |headers| && !headers[i].state.Writing?
  }

  /** The state a handle rebuilds. */
  datatype Recovered = Recovered(
    head: nat, tail: nat, len: nat, headCursor: nat, tailCursor: nat, floor: Option<nat>,
    bias: nat, nextSeq: u64, expected: u64, resync: bool)

  /** What `recover_from_storage` computes from the cursor words and the swept slots. */
  function Rebuild(config: Config, head: nat, tail: nat, slots: seq<Slot>, reclaimed: bool): Recovered
    requires config.capacity == |slots| > 0
  {
    var headers := OccupiedOf(slots);
    var cursorLen := if head < tail then 0 else if head - tail < config.capacity then head - tail else config.capacity;
    var pool := if head < tail then |headers| else |headers| - PinnedIn(headers);
    var bias := if pool < cursorLen then 0 else pool - cursorLen;
    var readable := Readable(headers);
    var tailIndex := Idx(tail, config.capacity);
    Recovered(
      InferredHead(slots, tailIndex),
      tailIndex,
      if cursorLen + bias < config.capacity then cursorLen + bias else config.capacity,
      head, tail, ScanFloor(config, slots, ScanStart(config, tail), tail),
      bias,
      FoldNewest(0, SeqNos(headers)),
      if readable then slots[tailIndex].seqNo else 0,
      reclaimed || !readable)
  }

  // ---- The handle ----

  class PersistentSlotRegion {
    var head: nat
    var tail: nat
    var floor: Option<nat>
    const slots: array<Slot>

    constructor (head: nat, tail: nat, floor: Option<nat>, slots: array<Slot>)
      ensures this.head == head && this.tail == tail && this.floor == floor && this.slots == slots
    {
      this.head := head;
      this.tail := tail;
      this.floor := floor;
      this.slots := slots;
    }

    /** Frees the slots in `state` whose owner is gone (`reclaim_dead_writing`, `reclaim_dead_pinned`). */
    method Sweep(state: SlotState, gone: set<nat>) returns (count: nat)
      modifies slots
      ensures slots[..] == Swept(old(slots[..]), state, gone)
      ensures count == SweepCount(old(slots[..]), state, gone)
    {
      count := 0;
      for index := 0 to slots.Length
        invariant forall i :: 0 <= i < slots.Length ==>
                    slots[i] == if i < index then Swept(old(slots[..]), state, gone)[i] else old(slots[i])
        invariant count == SweepCount(old(slots[..])[..index], state, gone)
      {
        assert old(slots[..])[..index + 1][..index] == old(slots[..])[..index];
        if slots[index].state == state && StampGone(slots[index], gone) {
          slots[index] := EMPTY_SLOT;
          count := count + 1;
        }
      }
      assert old(slots[..])[..slots.Length] == old(slots[..]);
    }

    /** The occupied slots, in index order. */
    method OccupiedSlotHeaders() returns (headers: seq<Header>)
      ensures headers == OccupiedOf(slots[..])
    {
      headers := [];
      for index := 0 to slots.Length
        invariant headers == OccupiedOf(slots[..index])
      {
        assert slots[..index + 1][..index] == slots[..index];
        if Occupies(slots[index]) {
          headers := headers + [Header(index, slots[index].state, slots[index].seqNo)];
        }
      }
      assert slots[..slots.Length] == slots[..];
    }

    /** The first free slot stepping forward from the tail (`infer_head_from_tail`). */
    method InferHeadFromTail(tail: nat) returns (head: nat)
      requires tail < slots.Length
      ensures head == InferredHead(slots[..], tail)
    {
      head := tail;
      for j := 0 to slots.Length
        invariant head == (tail + j) % slots.Length
        invariant StepsToFree(slots[..], tail, 0) == StepsToFree(slots[..], tail, j)
      {
        if slots[head].state.Free? {
          return;
        }
        head := (head + 1) % slots.Length;
        NextIndex(tail, j, slots.Length);
        if head == tail {
          BackAtTail(tail, j + 1, slots.Length);
          return;
        }
      }
    }
  }

  class PersistentShmChannel {
    const config: Config
    const region: PersistentSlotRegion
    var head: nat
    var tail: nat
    var len: nat
    var headCursor: nat
    var tailCursor: nat
    var floorCursor: Option<nat>
    var recoveryBias: nat
    var nextSeq: u64
    var expectedRecvSeq: u64
    var resyncExpected: bool
    var reclaimedSlots: nat

    constructor (config: Config, region: PersistentSlotRegion)
      ensures this.config == config && this.region == region
      ensures nextSeq == 0 && expectedRecvSeq == 0 && !resyncExpected
    {
      this.config, this.region := config, region;
      head, tail, len := 0, 0, 0;
      headCursor, tailCursor, floorCursor := 0, 0, None;
      recoveryBias, nextSeq, expectedRecvSeq := 0, 0, 0;
      resyncExpected, reclaimedSlots := false, 0;
    }

    function State(): Recovered
      reads this
    {
      Recovered(head, tail, len, headCursor, tailCursor, floorCursor, recoveryBias, nextSeq, expectedRecvSeq,
          resyncExpected)
    }

    /** `scan_pin_floor`. */
    method ScanPinFloor(tailCursor: nat) returns (floor: Option<nat>)
      requires region.slots.Length == config.capacity > 0
      ensures floor == ScanFloor(config, region.slots[..], ScanStart(config, tailCursor), tailCursor)
    {
      var cursor := ScanStart(config, tailCursor);
      while cursor < tailCursor
        invariant cursor <= tailCursor
        invariant ScanFloor(config, region.slots[..], ScanStart(config, tailCursor), tailCursor)
               == ScanFloor(config, region.slots[..], cursor, tailCursor)
      {
        if region.slots[Idx(cursor, config.capacity)].state == Pinned {
          return Some(cursor);
        }
        cursor := cursor + 1;
      }
      return None;
    }

    /** How many of the occupied slots are pinned. */
    method CountPinned(headers: seq<Header>) returns (count: nat)
      ensures count == PinnedIn(headers)
    {
      count := 0;
      for i := 0 to |headers|
        invariant count == PinnedIn(headers[..i])
      {
        assert headers[..i + 1][..i] == headers[..i];
        if headers[i].state.Pinned? {
          count := count + 1;
        }
      }
      assert headers[..|headers|] == headers;
    }

    /** Frees what dead processes left: unfinished writes of a single producer, and dead consumers' pins. */
    method SweepDead(gone: set<nat>)
      modifies `reclaimedSlots, `resyncExpected, region.slots
      ensures region.slots[..] == SweptRegion(config, old(region.slots[..]), gone)
      ensures resyncExpected == (old(resyncExpected) || SweepsWrites(config, old(region.slots[..]), gone))
      ensures reclaimedSlots == old(reclaimedSlots) + SweptCount(config, old(region.slots[..]), gone)
    {
      if !config.multiProducer {
        var count := region.Sweep(Writing, gone);
        reclaimedSlots := reclaimedSlots + count;
        resyncExpected := resyncExpected || count > 0;
      }
      var released := region.Sweep(Pinned, gone);
      reclaimedSlots := reclaimedSlots + released;
    }

    /** The handle's state from the scan and the cursor words. */
    method RebuildFrom(occupied: seq<Header>, resync: bool) returns (state: Recovered)
      requires region.slots.Length == config.capacity > 0
      requires occupied == OccupiedOf(region.slots[..])
      requires Consistent(config, region.head, region.tail)
      requires nextSeq == 0
      requires floorCursor == ScanFloor(config, region.slots[..], ScanStart(config, region.tail), region.tail)
      ensures state == Rebuild(config, region.head, region.tail, region.slots[..], resync)
    {
      hide OccupiedOf, StepsToFree, ScanFloor, FoldNewest, PinnedIn, SeqNos, Idx, Readable, InferredHead;
      var headC, tailC := region.head, region.tail;
      var tailIndex := Idx(tailC, config.capacity);
      var headIndex := region.InferHeadFromTail(tailIndex);
      var pinned := CountPinned(occupied);
      var next := NextSequence(nextSeq, SeqNos(occupied));
      var readable := Readable(occupied);
      var expected := if readable then region.slots[tailIndex].seqNo else 0;
      var ahead := headC >= tailC;
      var cursorLen := if ahead then headC - tailC else 0;
      var pool := if ahead then |occupied| - pinned else |occupied|;
      var bias := if pool < cursorLen then 0 else pool - cursorLen;
      var len := if cursorLen + bias < config.capacity then cursorLen + bias else config.capacity;
      return Recovered(headIndex, tailIndex, len, headC, tailC, floorCursor, bias, next, expected, resync || !readable);
    }

    method Adopt(state: Recovered)
      modifies `head, `tail, `len, `headCursor, `tailCursor, `floorCursor, `recoveryBias, `nextSeq, `expectedRecvSeq,
               `resyncExpected
      ensures State() == state
    {
      head, tail, len := state.head, state.tail, state.len;
      headCursor, tailCursor, floorCursor := state.headCursor, state.tailCursor, state.floor;
      recoveryBias, nextSeq, expectedRecvSeq := state.bias, state.nextSeq, state.expected;
      resyncExpected := state.resync;
    }

    /** `recover_from_storage`: one sweep, one scan, and the handle stands where the region stands. */
    method RecoverFromStorage(gone: set<nat>) returns (r: Result<()>)
      requires region.slots.Length == config.capacity > 0
      requires nextSeq == 0 && !resyncExpected
      modifies this, region, region.slots
      ensures region.slots[..] == SweptRegion(config, old(region.slots[..]), gone)
      ensures region.head == old(region.head) && region.tail == old(region.tail)
      ensures region.floor == ScanFloor(config, region.slots[..], ScanStart(config, region.tail), region.tail)
      ensures r == if Consistent(config, region.head, region.tail) then Ok(())
                   else Err(Channel(InvalidConfig("ring cursors are inconsistent")))
      ensures r.Ok? ==> State() == Rebuild(config, region.head, region.tail, region.slots[..],
                                           SweepsWrites(config, old(region.slots[..]), gone))
      ensures reclaimedSlots == old(reclaimedSlots) + SweptCount(config, old(region.slots[..]), gone)
    {
      hide SweptRegion, SweepsWrites, SweptCount, ScanFloor, Rebuild;
      SweepDead(gone);
      var occupied := region.OccupiedSlotHeaders();
      var floor := ScanPinFloor(region.tail);
      if region.floor != floor {
        region.floor := floor;
      }
      floorCursor := region.floor;
      if !Consistent(config, region.head, region.tail) {
        return Err(Channel(InvalidConfig("ring cursors are inconsistent")));
      }
      var state := RebuildFrom(occupied, resyncExpected);
      Adopt(state);
      return Ok(());
    }
  }

  lemma NextIndex(tail: nat, j: nat, n: nat)
    requires n > 0
    ensures ((tail + j) % n + 1) % n == (tail + j + 1) % n
  {
    IdxShift(tail + j, 1, n);
  }

  /** Walking forward from an index comes back to it only after the whole ring. */
  lemma BackAtTail(tail: nat, j: nat, n: nat)
    requires tail < n && 0 < j <= n
    requires (tail + j) % n == tail
    ensures j == n
  {
    if j < n {
      IdxDistinct(tail, tail + j, n);
    }
  }
}
