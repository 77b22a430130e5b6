/**
 * The shared-memory ring as a step system.
 *
 * One consumer and either one producer or any number of them share the words `head`, `tail` and
 * `floor` and the slots. Every shared load, compare-and-swap, slot-header write, payload write and
 * cursor store is one step; a run is any interleaving of steps. A step whose process is not at the
 * matching point leaves the state as it is, so every sequence of steps is a run.
 */
module Ring {
  import opened Bytes
  import opened Errors
  import opened FrameCodec
  import opened Chunking
  import opened ChunkingProofs
  import opened SlotStates
  import opened Cursors

  // ---- Shared memory ----

  /** A writer's identity and the number of slots its message claims. */
  datatype Identity = Identity(pid: nat, reserved: nat)

  datatype Slot = Slot(state: SlotState, seqNo: u64, writer: Option<Identity>, data: seq<byte>)

  const EMPTY_SLOT := Slot(Free, 0, None, [])

  // ---- Producers ----

  datatype Phase = Check | Mark | Fill | Commit

  datatype Sending =
    | Idle
    | LoadHead(bytes: seq<byte>)
    | LoadTail(bytes: seq<byte>, head: nat)
    | LoadFloor(bytes: seq<byte>, head: nat, tail: nat)
    | Reserve(bytes: seq<byte>, head: nat, tail: nat, floor: Option<nat>)
    | WriteSlot(entry: nat, k: nat, phase: Phase)
    | StoreHead(entry: nat)

  datatype Producer = Producer(alive: bool, nextSeq: u64, pc: Sending)

  // ---- The consumer ----

  datatype Op = Copy | View

  /** Where a receive stands inside its message. */
  datatype Progress = First | Rest(seqNo: u64, total: nat, messageLen: nat, index: nat, acc: seq<byte>)

  /** What a receive does once the slot it has read is released. */
  datatype After = Deliver(message: Message) | More(progress: Progress)

  datatype Receiving =
    | Resting
    | SeeHead(op: Op)
    | SeeTail(op: Op, head: nat)
    | SeeFloor(op: Op)
    | Gate(op: Op, mayReclaim: bool)
    | NextChunk(progress: Progress)
    | ReadSlot(progress: Progress, seqNo: u64)
    | PinSlot(progress: Progress, seqNo: u64, data: seq<byte>)
    | ClearSlot(after: After)
    | FreeSlot(after: After)
    | Advance(after: After)
    | ViewSlot(seqNo: u64)
    | ViewPin(message: Message)
    | ViewFloor(message: Message)
    | ViewFloorCas(message: Message, seen: Option<nat>)
    | ViewAdvance(message: Message)
    | ReleaseCheck(cursor: nat)
    | ReleaseClear(cursor: nat)
    | ReleaseFree(cursor: nat)
    | UnpinFloor(cursor: nat)
    | UnpinTail(cursor: nat, entryFloor: Option<nat>)
    | UnpinScan(entryFloor: Option<nat>, tail: nat, at: nat)
    | UnpinCas(entryFloor: Option<nat>, next: Option<nat>)
    | ReclaimRead(op: Op)
    | ReclaimVerify(op: Op, pid: nat, extent: nat, j: nat)
    | ReclaimFree(op: Op, extent: nat, j: nat)
    | ReclaimCas(op: Op, extent: nat)
    | Broken(error: ChannelError)

  datatype Consumer = Consumer(expected: u64, resync: bool, headSeen: nat, tailSeen: nat, pc: Receiving)

  // ---- History ----

  /** A reservation, in the order in which the reservations won. */
  datatype Entry = Entry(start: nat, message: Message, owner: nat, dead: bool)

  datatype Stage = Reserved | Marked | Filled | Done

  /** A claimed cursor: the k-th slot of a reservation and how far its write has come. */
  datatype Cell = Cell(entry: nat, k: nat, stage: Stage)

  /**
   * The shared words and slots, the processes' own states, and the history of the run: the
   * reservations, the claimed cursors, the live pins, and what was delivered.
   */
  datatype State = State(
    head: nat, tail: nat, floor: Option<nat>, slots: seq<Slot>,
    producers: map<nat, Producer>, consumer: Consumer,
    log: seq<Entry>, cells: seq<Cell>, pins: set<nat>, done: nat, delivered: seq<Message>)

  datatype Step =
    | Join(p: nat, nextSeq: u64)
    | BeginSend(p: nat, bytes: seq<byte>)
    | Produce(p: nat, retry: bool)
    | Crash(p: nat)
    | BeginReceive(op: Op)
    | BeginRelease(cursor: nat)
    | Consume

  // ---- Producer steps ----

  function SetProducer(s: State, p: nat, pc: Sending): State
    requires p in s.producers
  {
    s.(producers := s.producers[p := s.producers[p].(pc := pc)])
  }

  function NewCells(entry: nat, n: nat): (cells: seq<Cell>)
    ensures |cells| == n
  {
    seq(n, k requires 0 <= k < n => Cell(entry, k, Reserved))
  }

  /** Claims the next |frames| cursors for the message; multi-producer mode moves the shared head. */
  function Claim(config: Config, s: State, p: nat, m: Message): State
    requires p in s.producers
    requires Sendable(config, m)
  {
    var n := |MessageFrames(config, m)|;
    var producer := Producer(true, NextSeq(m.seqNo), WriteSlot(|s.log|, 0, Check));
    s.(head := if config.multiProducer then s.head + n else s.head,
       log := s.log + [Entry(|s.cells|, m, p, false)],
       cells := s.cells + NewCells(|s.log|, n),
       producers := s.producers[p := producer])
  }

  /** The guard, and in multi-producer mode the compare-and-swap of the head. */
  function TryReserve(config: Config, s: State, p: nat, retry: bool): (t: State)
    requires p in s.producers && s.producers[p].pc.Reserve?
    ensures |t.slots| == |s.slots|
  {
    var producer := s.producers[p];
    var pc := producer.pc;
    var m := Message(producer.nextSeq, pc.bytes);
    if !Consistent(config, pc.head, pc.tail) || !Sendable(config, m) then SetProducer(s, p, Idle)
    else if config.capacity - GuardLen(config, pc.head, pc.tail, pc.floor, 0) < |MessageFrames(config, m)| then
      // Raise, DropNewest and an expired Block give up; Block polls the cursors again.
      SetProducer(s, p, if retry then LoadHead(pc.bytes) else Idle)
    else if config.multiProducer && s.head != pc.head then SetProducer(s, p, LoadHead(pc.bytes))
    else Claim(config, s, p, m)
  }

  function SetSlot(config: Config, s: State, cursor: int, slot: Slot): (t: State)
    requires config.capacity == |s.slots| > 0
    ensures |t.slots| == |s.slots|
  {
    s.(slots := s.slots[Idx(cursor, config.capacity) := slot])
  }

  function SetStage(s: State, cursor: nat, stage: Stage): State
    requires cursor < |s.cells|
  {
    s.(cells := s.cells[cursor := s.cells[cursor].(stage := stage)])
  }

  /** One step of writing the k-th frame of a reservation. */
  function WriteStep(config: Config, s: State, p: nat): (t: State)
    requires config.capacity == |s.slots| > 0
    requires p in s.producers && s.producers[p].pc.WriteSlot?
    ensures |t.slots| == |s.slots|
  {
    var WriteSlot(e, k, phase) := s.producers[p].pc;
    if e >= |s.log| || !Sendable(config, s.log[e].message) then s
    else
      var m := s.log[e].message;
      var frames := MessageFrames(config, m);
      var cursor := s.log[e].start + k;
      if k >= |frames| || cursor >= |s.cells| then s
      else
        var slot := s.slots[Idx(cursor, config.capacity)];
        match phase
        case Check =>
          if slot.state == Free then SetProducer(s, p, WriteSlot(e, k, Mark)) else s
        case Mark =>
          var marked := Slot(Writing, m.seqNo, Some(Identity(p, |frames|)), slot.data);
          SetProducer(SetStage(SetSlot(config, s, cursor, marked), cursor, Marked), p, WriteSlot(e, k, Fill))
        case Fill =>
          SetProducer(SetStage(SetSlot(config, s, cursor, slot.(data := frames[k])), cursor, Filled), p,
                      WriteSlot(e, k, Commit))
        case Commit =>
          var committed := Slot(Committed, m.seqNo, None, slot.data);
          var next :=
            if k + 1 < |frames| then WriteSlot(e, k + 1, Check)
            else if config.multiProducer then Idle
            else StoreHead(e);
          SetProducer(SetStage(SetSlot(config, s, cursor, committed), cursor, Done), p, next)
  }

  function ProducerStep(config: Config, s: State, p: nat, retry: bool): (t: State)
    requires config.capacity == |s.slots| > 0
    requires p in s.producers
    ensures |t.slots| == |s.slots|
  {
    match s.producers[p].pc
    case Idle => s
    case LoadHead(bytes) => SetProducer(s, p, LoadTail(bytes, s.head))
    case LoadTail(bytes, head) => SetProducer(s, p, LoadFloor(bytes, head, s.tail))
    case LoadFloor(bytes, head, tail) => SetProducer(s, p, Reserve(bytes, head, tail, s.floor))
    case Reserve(_, _, _, _) => TryReserve(config, s, p, retry)
    case WriteSlot(_, _, _) => WriteStep(config, s, p)
    case StoreHead(e) =>
      if e < |s.log| && Sendable(config, s.log[e].message) then
        SetProducer(s, p, Idle).(head := s.log[e].start + |MessageFrames(config, s.log[e].message)|)
      else s
  }

  // ---- Consumer steps ----

  /** The message is complete, or the receive goes on with its next chunk. */
  function AfterChunk(progress: Progress): Result<After>
    requires progress.Rest?
  {
    if progress.index < progress.total then Ok(More(progress))
    else if |progress.acc| != progress.messageLen then Err(Channel(CorruptedMessage))
    else Ok(Deliver(Message(progress.seqNo, progress.acc)))
  }

  /** What `recv_with_seq` makes of the first slot of a message. */
  function DigestFirst(config: Config, consumer: Consumer, seqNo: u64, data: seq<byte>): Result<After> {
    if !consumer.resync && !config.multiProducer && seqNo != consumer.expected then
      Err(Channel(SequenceMismatch(consumer.expected, seqNo)))
    else
      var frame :- CheckFirst(seqNo, data);
      if !IsChunked(frame) then Ok(Deliver(Message(seqNo, frame.payload)))
      else
        var info :- ChunkInfoOf(frame);
        if info.index != 0 then Err(Channel(CorruptedMessage))
        else AfterChunk(Rest(seqNo, info.total, info.messageLen, 1, frame.payload))
  }

  /** What `recv_chunked_message` makes of a later slot. */
  function DigestRest(progress: Progress, seqNo: u64, data: seq<byte>): Result<After>
    requires progress.Rest?
  {
    if seqNo != progress.seqNo then Err(Channel(SequenceMismatch(progress.seqNo, seqNo)))
    else
      var frame :- DecodeFrame(data);
      var _ :- ValidateChunk(frame, progress.seqNo, ChunkInfo(progress.index, progress.total, progress.messageLen));
      AfterChunk(progress.(index := progress.index + 1, acc := progress.acc + frame.payload))
  }

  function Digest(config: Config, consumer: Consumer, progress: Progress, seqNo: u64, data: seq<byte>): Result<After> {
    if progress.First? then DigestFirst(config, consumer, seqNo, data) else DigestRest(progress, seqNo, data)
  }

  /** What `recv_view` makes of the slot: the message it can show, or the refusal. */
  function Viewable(config: Config, consumer: Consumer, seqNo: u64, data: seq<byte>): Result<Message> {
    CheckView(if consumer.resync || config.multiProducer then None else Some(consumer.expected), seqNo, data)
  }

  function SetPc(s: State, pc: Receiving): State {
    s.(consumer := s.consumer.(pc := pc))
  }

  function Fail(s: State, error: Error): State {
    SetPc(s, Broken(if error.Channel? then error.channel else CorruptedMessage))
  }

  /** Records a complete message and moves the expected sequence number past it. */
  function Finish(s: State, m: Message): State {
    s.(consumer := s.consumer.(pc := Resting, resync := false,
                                    expected := NextSeq(if s.consumer.resync then m.seqNo else s.consumer.expected)),
       done := s.done + 1,
       delivered := s.delivered + [m])
  }

  function AdvanceTail(s: State): State {
    s.(tail := if s.tail < s.consumer.tailSeen + 1 then s.consumer.tailSeen + 1 else s.tail,
       consumer := s.consumer.(tailSeen := s.consumer.tailSeen + 1))
  }

  function At(config: Config, s: State, cursor: int): Slot
    requires config.capacity == |s.slots| > 0
  {
    s.slots[Idx(cursor, config.capacity)]
  }

  /** Loading the shared words at the start of a receive (`refresh_cursors`). */
  function RefreshStep(config: Config, s: State): (t: State)
    requires config.capacity == |s.slots| > 0
    ensures |t.slots| == |s.slots|
  {
    var c := s.consumer;
    match c.pc
    case SeeHead(op) => SetPc(s.(consumer := c.(headSeen := s.head)), SeeTail(op, s.head))
    case SeeTail(op, head) => SetPc(s.(consumer := c.(tailSeen := s.tail)), SeeFloor(op))
    case SeeFloor(op) =>
      if !Consistent(config, c.headSeen, c.tailSeen) then
        SetPc(s, Broken(InvalidConfig("ring cursors are inconsistent")))
      else SetPc(s, Gate(op, true))
    case _ => s
  }

  /** Only a committed slot passes: the gate at the start, and the poll for each later chunk. */
  function GateStep(config: Config, s: State): (t: State)
    requires config.capacity == |s.slots| > 0
    ensures |t.slots| == |s.slots|
  {
    var c := s.consumer;
    match c.pc
    case Gate(op, mayReclaim) =>
      var slot := At(config, s, c.tailSeen);
      if slot.state != Committed then SetPc(s, if config.multiProducer && mayReclaim then ReclaimRead(op) else Resting)
      else SetPc(s, if op.Copy? then ReadSlot(First, slot.seqNo) else ViewSlot(slot.seqNo))
    case NextChunk(progress) =>
      // The grace poll for the next chunk ends when the slot is committed.
      var slot := At(config, s, c.tailSeen);
      if slot.state == Committed then SetPc(s, ReadSlot(progress, slot.seqNo)) else s
    case _ => s
  }

  /** Reading one slot out, releasing it, and moving the tail past it (`recv_with_seq`). */
  function CopyStep(config: Config, s: State): (t: State)
    requires config.capacity == |s.slots| > 0
    ensures |t.slots| == |s.slots|
  {
    var c := s.consumer;
    match c.pc
    case ReadSlot(progress, seqNo) => SetPc(s, PinSlot(progress, seqNo, At(config, s, c.tailSeen).data))
    case PinSlot(progress, seqNo, data) =>
      var pinned := SetSlot(config, s, c.tailSeen, At(config, s, c.tailSeen).(state := Pinned, writer := None));
      (match Digest(config, c, progress, seqNo, data)
       case Ok(after) => SetPc(pinned, ClearSlot(after))
       case Err(error) => Fail(pinned, error))
    case ClearSlot(after) =>
      SetPc(SetSlot(config, s, c.tailSeen, At(config, s, c.tailSeen).(data := [])), FreeSlot(after))
    case FreeSlot(after) =>
      SetPc(SetSlot(config, s, c.tailSeen, Slot(Free, 0, None, At(config, s, c.tailSeen).data)), Advance(after))
    case Advance(after) =>
      var advanced := AdvanceTail(s);
      (match after
       case Deliver(m) => Finish(advanced, m)
       case More(progress) => SetPc(advanced, NextChunk(progress)))
    case _ => s
  }

  /** Pinning the tail slot for a view, then lowering the floor, then moving the tail (`recv_view`). */
  function ViewStep(config: Config, s: State): (t: State)
    requires config.capacity == |s.slots| > 0
    ensures |t.slots| == |s.slots|
  {
    var c := s.consumer;
    match c.pc
    case ViewSlot(seqNo) =>
      (match Viewable(config, c, seqNo, At(config, s, c.tailSeen).data)
       case Ok(m) => SetPc(s, ViewPin(m))
       case Err(error) =>
         // The refusal of a chunked message leaves it for recv.
         if error.Channel? && error.channel.InvalidConfig? then SetPc(s, Resting) else Fail(s, error))
    case ViewPin(m) =>
      var pinned := SetSlot(config, s, c.tailSeen, At(config, s, c.tailSeen).(state := Pinned, writer := None));
      SetPc(pinned.(pins := s.pins + {c.tailSeen}), ViewFloor(m))
    case ViewFloor(m) =>
      if s.floor.Some? && s.floor.value <= c.tailSeen then SetPc(s, ViewAdvance(m))
      else SetPc(s, ViewFloorCas(m, s.floor))
    case ViewFloorCas(m, seen) =>
      if s.floor == seen then SetPc(s.(floor := Some(c.tailSeen)), ViewAdvance(m)) else SetPc(s, ViewFloor(m))
    case ViewAdvance(m) => Finish(AdvanceTail(s), m)
    case _ => s
  }

  /** Releasing a view: PINNED to FREE (`release_pinned`). */
  function ReleaseStep(config: Config, s: State): (t: State)
    requires config.capacity == |s.slots| > 0
    ensures |t.slots| == |s.slots|
  {
    match s.consumer.pc
    case ReleaseCheck(cursor) =>
      if At(config, s, cursor).state == Pinned then SetPc(s, ReleaseClear(cursor))
      else SetPc(s, Broken(InvalidConfig("slot is not pinned")))
    case ReleaseClear(cursor) =>
      SetPc(SetSlot(config, s, cursor, At(config, s, cursor).(data := [])), ReleaseFree(cursor))
    case ReleaseFree(cursor) =>
      var freed := SetSlot(config, s, cursor, Slot(Free, 0, None, At(config, s, cursor).data));
      SetPc(freed.(pins := s.pins - {cursor}), UnpinFloor(cursor))
    case _ => s
  }

  /** Recomputing the pin floor after a release, one header read at a time (`unpin_floor`). */
  function UnpinStep(config: Config, s: State): (t: State)
    requires config.capacity == |s.slots| > 0
    ensures |t.slots| == |s.slots|
  {
    match s.consumer.pc
    case UnpinFloor(cursor) =>
      if s.floor.Some? && s.floor.value != cursor then SetPc(s, Resting)
      else SetPc(s, UnpinTail(cursor, s.floor))
    case UnpinTail(cursor, entryFloor) =>
      var lo := if s.tail < config.capacity then 0 else s.tail - config.capacity;
      var start := if entryFloor == Some(cursor) && lo < cursor + 1 then cursor + 1 else lo;
      SetPc(s, UnpinScan(entryFloor, s.tail, start))
    case UnpinScan(entryFloor, tail, at) =>
      if at >= tail then SetPc(s, UnpinCas(entryFloor, None))
      else if At(config, s, at).state == Pinned then SetPc(s, UnpinCas(entryFloor, Some(at)))
      else SetPc(s, UnpinScan(entryFloor, tail, at + 1))
    case UnpinCas(entryFloor, next) =>
      SetPc(s.(floor := if s.floor == entryFloor then next else s.floor), Resting)
    case _ => s
  }

  /** Whether the process behind an identity is provably gone; the liveness probe is taken as sound. */
  predicate Gone(s: State, pid: nat) {
    pid in s.producers && !s.producers[pid].alive
  }

  /** `try_reclaim_at_tail_mpsc`, after the gate found the tail slot not committed. */
  function ReclaimStep(config: Config, s: State): (t: State)
    requires config.capacity == |s.slots| > 0
    ensures |t.slots| == |s.slots|
  {
    var c := s.consumer;
    match c.pc
    case ReclaimRead(op) =>
      var window := c.headSeen - c.tailSeen;
      var slot := At(config, s, c.tailSeen);
      if window <= 0 || window > config.capacity || slot.state != Writing || slot.writer.None? then SetPc(s, Resting)
      else
        var Identity(pid, extent) := slot.writer.value;
        if !Gone(s, pid) || extent == 0 || extent > window then SetPc(s, Resting)
        else SetPc(s, ReclaimVerify(op, pid, extent, 0))
    case ReclaimVerify(op, pid, extent, j) =>
      if j >= extent then
        // Everything is verified: from here on the reservation counts as dead.
        var log := if s.done < |s.log| then s.log[s.done := s.log[s.done].(dead := true)] else s.log;
        SetPc(s.(log := log), ReclaimFree(op, extent, 0))
      else
        var slot := At(config, s, c.tailSeen + j);
        if slot.state == Free || (slot.state == Writing && slot.writer.Some? && slot.writer.value.pid == pid) then
          SetPc(s, ReclaimVerify(op, pid, extent, j + 1))
        else SetPc(s, Resting)
    case ReclaimFree(op, extent, j) =>
      if j >= extent then SetPc(s, ReclaimCas(op, extent))
      else
        var freed := SetSlot(config, s, c.tailSeen + j, EMPTY_SLOT);
        SetPc(if c.tailSeen + j < |s.cells| then SetStage(freed, c.tailSeen + j, Reserved) else freed,
              ReclaimFree(op, extent, j + 1))
    case ReclaimCas(op, extent) =>
      if s.tail != c.tailSeen then SetPc(s, Resting)
      else
        s.(tail := s.tail + extent, done := s.done + 1,
           consumer := c.(tailSeen := c.tailSeen + extent, resync := true, pc := Gate(op, false)))
    case _ => s
  }

  function ConsumerStep(config: Config, s: State): (t: State)
    requires config.capacity == |s.slots| > 0
    ensures |t.slots| == |s.slots|
  {
    match s.consumer.pc
    case SeeHead(_) | SeeTail(_, _) | SeeFloor(_) => RefreshStep(config, s)
    case Gate(_, _) | NextChunk(_) => GateStep(config, s)
    case ReadSlot(_, _) | PinSlot(_, _, _) | ClearSlot(_) | FreeSlot(_) | Advance(_) => CopyStep(config, s)
    case ViewSlot(_) | ViewPin(_) | ViewFloor(_) | ViewFloorCas(_, _) | ViewAdvance(_) => ViewStep(config, s)
    case ReleaseCheck(_) | ReleaseClear(_) | ReleaseFree(_) => ReleaseStep(config, s)
    case UnpinFloor(_) | UnpinTail(_, _) | UnpinScan(_, _, _) | UnpinCas(_, _) => UnpinStep(config, s)
    case ReclaimRead(_) | ReclaimVerify(_, _, _, _) | ReclaimFree(_, _, _) | ReclaimCas(_, _) => ReclaimStep(config, s)
    case Resting => s
    case Broken(_) => s
  }

  // ---- Runs ----

  /** Whether a crash at this point leaves a reservation with nothing committed, or no reservation. */
  predicate CrashPoint(pc: Sending) {
    !pc.StoreHead? && (pc.WriteSlot? ==> pc.k == 0)
  }

  function Apply(config: Config, s: State, step: Step): (t: State)
    requires config.capacity == |s.slots| > 0
    ensures |t.slots| == |s.slots|
  {
    match step
    case Join(p, nextSeq) =>
      // One more producer handle; a single-producer region has one from the start.
      if p in s.producers || !config.multiProducer then s
      else s.(producers := s.producers[p := Producer(true, nextSeq, Idle)])
    case BeginSend(p, bytes) =>
      if p in s.producers && s.producers[p].alive && s.producers[p].pc.Idle?
         && Sendable(config, Message(0, bytes)) then SetProducer(s, p, LoadHead(bytes))
      else s
    case Produce(p, retry) =>
      if p in s.producers && s.producers[p].alive then ProducerStep(config, s, p, retry) else s
    case Crash(p) =>
      if config.multiProducer && p in s.producers && CrashPoint(s.producers[p].pc) then
        s.(producers := s.producers[p := s.producers[p].(alive := false)])
      else s
    case BeginReceive(op) => if s.consumer.pc.Resting? then SetPc(s, SeeHead(op)) else s
    case BeginRelease(cursor) =>
      if s.consumer.pc.Resting? && cursor in s.pins then SetPc(s, ReleaseCheck(cursor)) else s
    case Consume => ConsumerStep(config, s)
  }

  /** A fresh region and its consumer; a single-producer region has its one producer from the start. */
  predicate Init(config: Config, s: State) {
    && config.Valid()
    && config.slotSize + FRAME_HEADER_LEN <= USIZE_MAX
    && s.head == 0 && s.tail == 0 && s.floor.None?
    && |s.slots| == config.capacity && (forall i :: 0 <= i < |s.slots| ==> s.slots[i] == EMPTY_SLOT)
    && s.producers == (if config.multiProducer then map[] else map[0 := Producer(true, 0, Idle)])
    && s.consumer == Consumer(0, false, 0, 0, Resting)
    && s.log == [] && s.cells == [] && s.pins == {} && s.done == 0 && s.delivered == []
  }

  /** The state after a run. */
  function Exec(config: Config, s: State, run: seq<Step>): (t: State)
    requires config.capacity == |s.slots| > 0
    ensures |t.slots| == |s.slots|
    decreases |run|
  {
    if run == [] then s
    else Exec(config, Apply(config, s, run[0]), run[1..])
  }
}
