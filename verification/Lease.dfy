/**
 * The lease protocol: a producer that only allocates, writes, publishes and aborts leases.
 *
 * A lease reserves the slot behind the newest one without telling anybody; publishing seals it and
 * counts one more published message, in any order. Loads, header writes and cursor stores of both
 * sides are separate steps, interleaved with a consumer that copies messages out or takes views of them
 * and releases the views in any order. The pin floor is not kept here: a producer that loads it may find
 * any value, so that what is proved holds for a floor of any staleness.
 */
module Lease {
  import opened Bytes
  import opened Errors
  import opened Crc
  import opened FrameCodec
  import opened Chunking
  import opened SlotStates
  import opened Cursors

  /** A slot with its frame header and payload areas apart: a lease writes its payload in place. */
  datatype LeaseSlot = LeaseSlot(state: SlotState, seqNo: u64, header: seq<byte>, payload: seq<byte>)

  const CLEAR_SLOT := LeaseSlot(Free, 0, [], [])

  datatype Sealing = Open | Sealed | Published

  /** A lease in the history: the bytes written into it so far, and how far its publishing has come. */
  datatype Lease = Lease(payload: seq<byte>, sealing: Sealing)

  datatype Allocating =
    | Resting
    | LoadTail(size: nat)
    | LoadFloor(size: nat, tail: nat)
    | Guard(size: nat, tail: nat, floor: Option<nat>)
    | CheckFree(size: nat)
    | MarkWriting(size: nat)
    | SealHeader(lease: nat)
    | SealCommit(lease: nat)
    | StorePublished
    | AbortClear
    | AbortFree

  datatype Receiving =
    | Waiting
    | Reading(seqNo: u64, data: seq<byte>)
    | Clearing(message: Message)
    | Freeing(message: Message)
    | Passing(message: Message)
    | Looking(seqNo: u64)
    | Showing(message: Message)
    | Keeping(message: Message)
    | Checking(cursor: nat)
    | Dropping(cursor: nat)
    | Opening(cursor: nat)
    | Failed(error: Error)

  /**
   * The shared words and slots, both sides' own state, and the history: the leases that were allocated
   * and not aborted, the cursors that live views pin, how many slots the consumer has freed or left to a
   * view, and the messages it delivered.
   */
  datatype State = State(
    head: nat, tail: nat, slots: seq<LeaseSlot>,
    index: nat, nextSeq: u64, producer: Allocating,
    expected: u64, consumer: Receiving,
    leases: seq<Lease>, pins: set<nat>, freed: nat, delivered: seq<Message>)

  datatype Step =
    | Alloc(size: nat)
    | Write(lease: nat, offset: nat, bytes: seq<byte>)
    | Publish(lease: nat)
    | Abort
    | Produce(retry: bool, floor: Option<nat>)
    | Consume(view: bool)
    | Release(cursor: nat)

  predicate Shape(config: Config, s: State) {
    config.capacity == |s.slots| > 0 && s.index < config.capacity
  }

  function At(config: Config, s: State, cursor: int): LeaseSlot
    requires config.capacity == |s.slots| > 0
  {
    s.slots[Idx(cursor, config.capacity)]
  }

  function Put(config: Config, s: State, cursor: int, slot: LeaseSlot): (t: State)
    requires Shape(config, s)
    ensures Shape(config, t)
  {
    s.(slots := s.slots[Idx(cursor, config.capacity) := slot])
  }

  function SetLease(s: State, i: nat, lease: Lease): State
    requires i < |s.leases|
  {
    s.(leases := s.leases[i := lease])
  }

  /** Overwrites part of a payload in place. */
  function Patch(payload: seq<byte>, offset: nat, bytes: seq<byte>): (patched: seq<byte>)
    requires offset + |bytes| <= |payload|
    ensures |patched| == |payload|
  {
    payload[..offset] + bytes + payload[offset + |bytes|..]
  }

  /** The frame header that seals a payload. */
  function SealedHeader(seqNo: u64, payload: seq<byte>): seq<byte>
    requires |payload| <= USIZE_MAX
  {
    var header := HeaderBytes(BytesKind, 0, seqNo, 0, 0, Checksum32(payload), |payload|, []);
    if header.Ok? then header.value else []
  }

  // ---- The producer ----

  /** Whether the i-th lease can still be written and published. */
  predicate OpenLease(s: State, i: nat) {
    i < |s.leases| && s.leases[i].sealing.Open?
  }

  /** One step of the producer; a load of the pin floor finds the given value. */
  function ProducerMove(config: Config, s: State, retry: bool, floor: Option<nat>): (t: State)
    requires Shape(config, s)
    ensures Shape(config, t)
  {
    match s.producer
    case Resting => s
    case LoadTail(size) => s.(producer := LoadFloor(size, s.tail))
    case LoadFloor(size, tail) => s.(producer := Guard(size, tail, floor))
    case Guard(size, tail, seen) =>
      if !Consistent(config, s.head, tail) then s.(producer := Resting)
      else if config.capacity - GuardLen(config, s.head, tail, seen, 0) < 1 then
        s.(producer := if retry then LoadTail(size) else Resting)
      else s.(producer := CheckFree(size))
    case CheckFree(size) =>
      // The guard counts published messages only, on a floor that may be stale; the slot itself must agree.
      s.(producer := if s.slots[s.index].state.Free? then MarkWriting(size) else Resting)
    case MarkWriting(size) =>
      s.(slots := s.slots[s.index := LeaseSlot(Writing, s.nextSeq, [], Zeros(size))],
         index := (s.index + 1) % config.capacity,
         nextSeq := NextSeq(s.nextSeq),
         leases := s.leases + [Lease(Zeros(size), Open)],
         producer := Resting)
    case SealHeader(i) =>
      if !OpenLease(s, i) || |s.leases[i].payload| > USIZE_MAX then s
      else
        var slot := At(config, s, i);
        var header := SealedHeader(slot.seqNo, if |slot.payload| <= USIZE_MAX then slot.payload else []);
        SetLease(Put(config, s, i, slot.(header := header)), i,
            s.leases[i].(sealing := Sealed)).(producer := SealCommit(i))
    case SealCommit(i) =>
      if i >= |s.leases| then s
      else
        SetLease(Put(config, s, i, At(config, s, i).(state := Committed)), i, s.leases[i].(sealing := Published)).(
          producer := StorePublished)
    case StorePublished => s.(head := s.head + 1, producer := Resting)
    case AbortClear =>
      if s.leases == [] then s
      else
        var newest := |s.leases| - 1;
        Put(config, s, newest, At(config, s, newest).(header := [], payload := [])).(producer := AbortFree)
    case AbortFree =>
      if s.leases == [] then s
      else
        var newest := |s.leases| - 1;
        Put(config, s, newest, CLEAR_SLOT).(
          index := (s.index + config.capacity - 1) % config.capacity,
          nextSeq := At(config, s, newest).seqNo,
          leases := s.leases[..newest],
          producer := Resting)
  }

  // ---- The consumer ----

  /** What a receive makes of the frame at the tail. */
  function Take(expected: u64, seqNo: u64, data: seq<byte>): Result<Message> {
    if seqNo != expected then Err(Channel(SequenceMismatch(expected, seqNo)))
    else
      var frame :- CheckFirst(seqNo, data);
      if IsChunked(frame) then Err(Channel(CorruptedMessage)) else Ok(Message(seqNo, frame.payload))
  }

  /** One step of the consumer; a receive copies the message out or asks for a view. */
  function ConsumerMove(config: Config, s: State, view: bool): (t: State)
    requires Shape(config, s)
    ensures Shape(config, t)
  {
    match s.consumer
    case Waiting =>
      var slot := At(config, s, s.tail);
      if !slot.state.Committed? then s
      else s.(consumer := if view then Looking(slot.seqNo) else Reading(slot.seqNo, slot.header + slot.payload))
    case Reading(seqNo, data) =>
      var pinned := Put(config, s, s.tail, At(config, s, s.tail).(state := Pinned));
      (match Take(s.expected, seqNo, data)
       case Ok(m) => pinned.(consumer := Clearing(m))
       case Err(error) => pinned.(consumer := Failed(error)))
    case Clearing(m) =>
      Put(config, s, s.tail, At(config, s, s.tail).(header := [], payload := [])).(consumer := Freeing(m))
    case Freeing(m) => Put(config, s, s.tail, CLEAR_SLOT).(freed := s.freed + 1, consumer := Passing(m))
    case Passing(m) =>
      s.(tail := s.tail + 1, expected := NextSeq(s.expected), delivered := s.delivered + [m], consumer := Waiting)
    case Looking(seqNo) =>
      var slot := At(config, s, s.tail);
      (match CheckView(Some(s.expected), seqNo, slot.header + slot.payload)
       case Ok(m) => s.(consumer := Showing(m))
       case Err(error) => s.(consumer := Failed(error)))
    case Showing(m) =>
      var pinned := Put(config, s, s.tail, At(config, s, s.tail).(state := Pinned));
      pinned.(pins := s.pins + {s.tail}, consumer := Keeping(m))
    case Keeping(m) =>
      s.(tail := s.tail + 1, freed := s.freed + 1, expected := NextSeq(s.expected), delivered := s.delivered + [m],
         consumer := Waiting)
    case Checking(c) =>
      if At(config, s, c).state.Pinned? then s.(consumer := Dropping(c))
      else s.(consumer := Failed(Channel(InvalidConfig("slot is not pinned"))))
    case Dropping(c) => Put(config, s, c, At(config, s, c).(header := [], payload := [])).(consumer := Opening(c))
    case Opening(c) => Put(config, s, c, CLEAR_SLOT).(pins := s.pins - {c}, consumer := Waiting)
    case Failed(_) => s
  }

  // ---- Runs ----

  function Apply(config: Config, s: State, step: Step): (t: State)
    requires Shape(config, s)
    ensures Shape(config, t)
  {
    match step
    case Alloc(size) => if s.producer.Resting? && size <= config.slotSize then s.(producer := LoadTail(size)) else s
    case Write(i, offset, bytes) =>
      if s.producer.Resting? && OpenLease(s, i) && offset + |bytes| <= |s.leases[i].payload|
         && |At(config, s, i).payload| == |s.leases[i].payload| then
        var slot := At(config, s, i);
        SetLease(Put(config, s, i, slot.(payload := Patch(slot.payload, offset, bytes))), i,
                 s.leases[i].(payload := Patch(s.leases[i].payload, offset, bytes)))
      else s
    case Publish(i) => if s.producer.Resting? && OpenLease(s, i) then s.(producer := SealHeader(i)) else s
    case Abort =>
      // Only the newest lease, and only while it is unpublished.
      if s.producer.Resting? && s.leases != [] && OpenLease(s, |s.leases| - 1) then s.(producer := AbortClear) else s
    case Produce(retry, floor) => ProducerMove(config, s, retry, floor)
    case Consume(view) => ConsumerMove(config, s, view)
    case Release(cursor) => if s.consumer.Waiting? && cursor in s.pins then s.(consumer := Checking(cursor)) else s
  }

  function Exec(config: Config, s: State, run: seq<Step>): (t: State)
    requires Shape(config, s)
    ensures Shape(config, t)
    decreases |run|
  {
    if run == [] then s else Exec(config, Apply(config, s, run[0]), run[1..])
  }

  predicate Init(config: Config, s: State) {
    && config.Valid() && config.slotSize + FRAME_HEADER_LEN <= USIZE_MAX
    && |s.slots| == config.capacity && (forall i :: 0 <= i < |s.slots| ==> s.slots[i] == CLEAR_SLOT)
    && s == State(0, 0, s.slots, 0, 0, Resting, 0, Waiting, [], {}, 0, [])
  }
}
