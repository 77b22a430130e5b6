/** What every reachable state of the ring satisfies. */
module RingInvariant {
  import opened Bytes
  import opened Errors
  import opened FrameCodec
  import opened Chunking
  import opened ChunkingProofs
  import opened SlotStates
  import opened Cursors
  import opened Ring

  predicate ConfigOk(config: Config) {
    config.Valid() && config.slotSize + FRAME_HEADER_LEN <= USIZE_MAX
  }

  // ---- The reservations tile the claimed cursors ----

  /** The number of slots of a reservation. */
  function Len(config: Config, e: Entry): (n: nat)
    requires Sendable(config, e.message)
    ensures 1 <= n <= config.capacity
  {
    |MessageFrames(config, e.message)|
  }

  /** The first cursor of the i-th reservation; after the last one, the write frontier. */
  function StartOf(log: seq<Entry>, frontier: nat, i: nat): nat {
    if i < |log| then log[i].start else frontier
  }

  ghost predicate LogOk(config: Config, log: seq<Entry>, frontier: nat) {
    && (forall i :: 0 <= i < |log| ==> Sendable(config, log[i].message))
    && StartOf(log, frontier, 0) == 0
    && (forall i :: 0 <= i < |log| ==> log[i].start + Len(config, log[i]) == StartOf(log, frontier, i + 1))
    && (forall i :: 0 <= i < |log| ==> log[i].start + Len(config, log[i]) <= frontier)
  }

  ghost predicate CellOk(config: Config, log: seq<Entry>, cells: seq<Cell>, c: int) {
    && 0 <= c < |cells|
    && cells[c].entry < |log|
    && Sendable(config, log[cells[c].entry].message)
    && cells[c].k < Len(config, log[cells[c].entry])
    && c == log[cells[c].entry].start + cells[c].k
  }

  ghost predicate CellsOk(config: Config, log: seq<Entry>, cells: seq<Cell>) {
    && (forall c :: 0 <= c < |cells| ==> CellOk(config, log, cells, c))
    && (forall i, c :: 0 <= i < |log| && Sendable(config, log[i].message) && c < |cells|
                       && log[i].start <= c < log[i].start + Len(config, log[i]) ==>
          cells[c].entry == i)
  }

  /** The message whose frame belongs at a claimed cursor, and that frame. */
  function MessageAt(config: Config, log: seq<Entry>, cells: seq<Cell>, c: int): (m: Message)
    requires CellOk(config, log, cells, c)
    ensures Sendable(config, m)
  {
    log[cells[c].entry].message
  }

  function FrameAtCursor(config: Config, log: seq<Entry>, cells: seq<Cell>, c: int): seq<byte>
    requires CellOk(config, log, cells, c)
  {
    MessageFrames(config, MessageAt(config, log, cells, c))[cells[c].k]
  }

  // ---- Shared words ----

  /** The tail, the write frontier and the published head never drift more than one lap apart. */
  predicate CursorsOk(config: Config, head: nat, tail: nat, frontier: nat) {
    && tail <= frontier <= tail + config.capacity
    && head <= frontier <= head + config.capacity
    && (config.multiProducer ==> head == frontier)
  }

  /** In single-producer mode everything below the published head is committed. */
  ghost predicate HeadOk(config: Config, head: nat, cells: seq<Cell>) {
    !config.multiProducer ==> forall c :: 0 <= c < head && c < |cells| ==> cells[c].stage == Done
  }

  ghost predicate OneProducer(config: Config, producers: map<nat, Producer>) {
    !config.multiProducer ==> forall p, q :: p in producers && q in producers ==> p == q
  }

  /** No pinned cursor has been lapped; the tail itself is pinned only while a view is being made. */
  ghost predicate PinsOk(config: Config, pins: set<nat>, tail: nat, frontier: nat, pc: Receiving) {
    && (forall c :: c in pins ==> frontier - config.capacity <= c <= tail && c < frontier)
    && (tail in pins <==> PinningTail(pc))
  }

  /** Everything before the tail is committed, or belongs to a reclaimed reservation. */
  ghost predicate ConsumedOk(log: seq<Entry>, cells: seq<Cell>, tail: nat) {
    forall c :: 0 <= c < |cells| && c < tail ==>
      cells[c].stage == Done || (cells[c].entry < |log| && log[cells[c].entry].dead)
  }

  // ---- Slots ----

  /** What the consumer is doing with a slot: reading the tail, having freed it, or releasing a view. */
  datatype Hold = NoHold | Reading(intact: bool) | Freed | Releasing(cursor: int)

  predicate PinningTail(pc: Receiving) {
    pc.ViewFloor? || pc.ViewFloorCas? || pc.ViewAdvance?
  }

  function HoldOf(pc: Receiving): Hold {
    if pc.ClearSlot? || pc.FreeSlot? then Reading(false)
    else if PinningTail(pc) then Reading(true)
    else if pc.Advance? then Freed
    else if pc.ReleaseFree? then Releasing(pc.cursor)
    else NoHold
  }

  ghost predicate DataOk(config: Config, log: seq<Entry>, cells: seq<Cell>, c: int, slot: Slot) {
    CellOk(config, log, cells, c) && slot.data == FrameAtCursor(config, log, cells, c)
  }

  ghost predicate HeaderOk(config: Config, log: seq<Entry>, cells: seq<Cell>, c: int, slot: Slot) {
    CellOk(config, log, cells, c) && slot.seqNo == MessageAt(config, log, cells, c).seqNo
  }

  ghost predicate StampOk(config: Config, log: seq<Entry>, cells: seq<Cell>, c: int, slot: Slot) {
    && CellOk(config, log, cells, c)
    && var e := log[cells[c].entry];
       slot.writer == Some(Identity(e.owner, Len(config, e)))
  }

  /** A slot the consumer has passed is free, unless a view pins it. */
  ghost predicate PassedSlotOk(
    config: Config, log: seq<Entry>, cells: seq<Cell>, pins: set<nat>, hold: Hold, c: int, slot: Slot)
  {
    if c in pins then
      slot.state == Pinned && (hold != Releasing(c) ==> DataOk(config, log, cells, c, slot))
    else slot.state == Free
  }

  /** A slot the consumer has not passed is as far as its writer, or the reading consumer, has come. */
  ghost predicate ClaimedSlotOk(
    config: Config, log: seq<Entry>, cells: seq<Cell>, c: int, slot: Slot, hold: Hold)
    requires 0 <= c < |cells|
  {
    match cells[c].stage
    case Reserved => slot.state == Free
    case Marked =>
      slot.state == Writing && HeaderOk(config, log, cells, c, slot) && StampOk(config, log, cells, c, slot)
    case Filled =>
      && slot.state == Writing && HeaderOk(config, log, cells, c, slot) && StampOk(config, log, cells, c, slot)
      && DataOk(config, log, cells, c, slot)
    case Done =>
      if hold.Freed? then slot.state == Free
      else if hold.Reading? then slot.state == Pinned && (hold.intact ==> DataOk(config, log, cells, c, slot))
      else slot.state == Committed && HeaderOk(config, log, cells, c, slot) && DataOk(config, log, cells, c, slot)
  }

  ghost predicate SlotOk(
    config: Config, log: seq<Entry>, cells: seq<Cell>, tail: nat, pins: set<nat>, hold: Hold, c: int, slot: Slot)
  {
    if c < tail then PassedSlotOk(config, log, cells, pins, hold, c, slot)
    else c < |cells| && ClaimedSlotOk(config, log, cells, c, slot, if c == tail then hold else NoHold)
  }

  /** Each of the last `capacity` claimed cursors owns one slot, and that slot is in order. */
  ghost predicate SlotsOk(
    config: Config, slots: seq<Slot>, log: seq<Entry>, cells: seq<Cell>, tail: nat, pins: set<nat>, hold: Hold)
  {
    && |slots| == config.capacity > 0
    && forall c :: |cells| - config.capacity <= c < |cells| ==>
         SlotOk(config, log, cells, tail, pins, hold, c, slots[Idx(c, config.capacity)])
  }

  // ---- Producers ----

  predicate SendableBytes(config: Config, bytes: seq<byte>) {
    Sendable(config, Message(0, bytes))
  }

  predicate LoadedOk(config: Config, sharedHead: nat, sharedTail: nat, frontier: nat, head: nat, tail: nat) {
    && tail <= sharedTail
    && head <= frontier
    && (!config.multiProducer ==> head == sharedHead == frontier <= tail + config.capacity)
  }

  /** How far the write of cursor `c` has come when its reservation is at slot `k`, phase `phase`. */
  function StageAt(start: nat, k: nat, phase: Phase, c: nat): Stage {
    if c < start + k then Done
    else if c > start + k then Reserved
    else if phase.Fill? then Marked
    else if phase.Commit? then Filled
    else Reserved
  }

  /** The reservation of a producer is written exactly as far as its program counter says. */
  ghost predicate WritingOk(
    config: Config, log: seq<Entry>, cells: seq<Cell>, head: nat, p: nat, e: nat, k: nat, phase: Phase)
  {
    && e < |log|
    && log[e].owner == p
    && (!log[e].dead ==>
          && Sendable(config, log[e].message)
          && k < Len(config, log[e])
          && log[e].start + Len(config, log[e]) <= |cells|
          && (forall c :: log[e].start <= c < log[e].start + Len(config, log[e]) ==>
                cells[c].stage == StageAt(log[e].start, k, phase, c))
          && (!config.multiProducer ==> head == log[e].start && e + 1 == |log|))
  }

  ghost predicate ProducerOk(
    config: Config, log: seq<Entry>, cells: seq<Cell>, head: nat, tail: nat, pins: set<nat>, p: nat, producer: Producer)
  {
    && (!producer.alive ==> config.multiProducer && CrashPoint(producer.pc))
    && (!config.multiProducer ==> producer.nextSeq == |log| % U64_RANGE)
    && match producer.pc
       case Idle => !config.multiProducer ==> head == |cells|
       case LoadHead(bytes) => SendableBytes(config, bytes) && (!config.multiProducer ==> head == |cells|)
       case LoadTail(bytes, h) =>
         SendableBytes(config, bytes) && h <= |cells| && (!config.multiProducer ==> h == head == |cells|)
       case LoadFloor(bytes, h, t) => SendableBytes(config, bytes) && LoadedOk(config, head, tail, |cells|, h, t)
       case Reserve(bytes, h, t, f) =>
         && SendableBytes(config, bytes)
         && LoadedOk(config, head, tail, |cells|, h, t)
         && (forall c :: c in pins ==> Limit(t, f) <= c)
       case WriteSlot(e, k, phase) =>
         WritingOk(config, log, cells, head, p, e, k, phase) && (log[e].dead ==> !producer.alive)
       case StoreHead(e) =>
         && !config.multiProducer
         && e + 1 == |log|
         && Sendable(config, log[e].message)
         && log[e].start + Len(config, log[e]) == |cells|
         && head == log[e].start
         && (forall c :: 0 <= c < |cells| ==> cells[c].stage == Done)
  }

  ghost predicate ProducersOk(
    config: Config, producers: map<nat, Producer>, log: seq<Entry>, cells: seq<Cell>, head: nat, tail: nat,
        pins: set<nat>)
  {
    forall p :: p in producers ==> ProducerOk(config, log, cells, head, tail, pins, p, producers[p])
  }

  /** Every unfinished cell of a live reservation is being written by its owner. */
  ghost predicate OwnedOk(producers: map<nat, Producer>, log: seq<Entry>, cells: seq<Cell>) {
    forall c :: 0 <= c < |cells| && cells[c].stage != Done && cells[c].entry < |log| && !log[cells[c].entry].dead ==>
      var owner := log[cells[c].entry].owner;
      owner in producers && producers[owner].pc.WriteSlot? && producers[owner].pc.entry == cells[c].entry
  }

  // ---- The consumer ----

  /** The pin floor word is the least pinned cursor, or absent when nothing is pinned. */
  ghost predicate IsFloor(floor: Option<nat>, pins: set<nat>) {
    match floor
    case None => pins == {}
    case Some(f) => f in pins && forall c :: c in pins ==> f <= c
  }

  ghost predicate FloorOk(config: Config, floor: Option<nat>, pins: set<nat>, tail: nat, pc: Receiving) {
    match pc
    case ViewFloor(_) => IsFloor(floor, pins - {tail})
    case ViewFloorCas(_, seen) => IsFloor(floor, pins - {tail}) && seen == floor && seen.None?
    case ReleaseCheck(c) => IsFloor(floor, pins) && c in pins
    case ReleaseClear(c) => IsFloor(floor, pins) && c in pins
    case ReleaseFree(c) => IsFloor(floor, pins) && c in pins
    case UnpinFloor(c) => IsFloor(floor, pins + {c}) && c !in pins && c < tail
    case UnpinTail(c, entry) => floor == entry == Some(c) && c < tail && forall d :: d in pins ==> c < d
    case UnpinScan(entry, t, at) =>
      && floor == entry && entry.Some?
      && t == tail && t <= at + config.capacity
      && (forall d :: d in pins ==> at <= d && entry.value < d)
    case UnpinCas(entry, next) =>
      floor == entry && entry.Some? && IsFloor(next, pins) && forall d :: d in pins ==> entry.value < d
    case _ => IsFloor(floor, pins)
  }

  function Index(progress: Progress): nat {
    if progress.First? then 0 else progress.index
  }

  /** The receive has gathered exactly the first slots of the message it stands in. */
  ghost predicate ProgressOk(config: Config, m: Message, progress: Progress) {
    progress.Rest? ==>
      && Sendable(config, m)
      && progress.seqNo == m.seqNo
      && progress.total == |MessageFrames(config, m)| > 1
      && progress.messageLen == |m.payload|
      && 0 < progress.index < progress.total
      && progress.acc == Prefix(config, m, progress.index)
  }

  ghost predicate CurrentOk(config: Config, log: seq<Entry>, done: nat) {
    done < |log| && !log[done].dead && Sendable(config, log[done].message)
  }

  ghost predicate ReadingOk(config: Config, log: seq<Entry>, done: nat, tail: nat, progress: Progress) {
    && CurrentOk(config, log, done)
    && ProgressOk(config, log[done].message, progress)
    && tail == log[done].start + Index(progress)
    && Index(progress) < Len(config, log[done])
  }

  ghost predicate CommittedTail(cells: seq<Cell>, tail: nat) {
    tail < |cells| && cells[tail].stage == Done
  }

  ghost predicate AfterOk(config: Config, log: seq<Entry>, done: nat, tail: nat, after: After) {
    && CurrentOk(config, log, done)
    && match after
       case Deliver(m) => m == log[done].message && tail + 1 == log[done].start + Len(config, log[done])
       case More(progress) =>
         && progress.Rest?
         && ProgressOk(config, log[done].message, progress)
         && tail + 1 == log[done].start + progress.index
  }

  ghost predicate ViewingOk(config: Config, log: seq<Entry>, cells: seq<Cell>, done: nat, tail: nat, m: Message) {
    && CurrentOk(config, log, done)
    && m == log[done].message
    && Len(config, log[done]) == 1
    && tail == log[done].start
    && CommittedTail(cells, tail)
  }

  /** The reservation at the tail belongs to a dead producer that committed none of it. */
  ghost predicate DeadTail(
    config: Config, log: seq<Entry>, producers: map<nat, Producer>, done: nat, tail: nat, pid: nat, extent: nat)
  {
    && config.multiProducer
    && CurrentOk(config, log, done)
    && tail == log[done].start
    && log[done].owner == pid
    && extent == Len(config, log[done])
    && pid in producers && !producers[pid].alive
    && producers[pid].pc.WriteSlot? && producers[pid].pc.entry == done
  }

  ghost predicate ReclaimingOk(
    config: Config, log: seq<Entry>, cells: seq<Cell>, done: nat, tail: nat, extent: nat, freed: nat)
  {
    && config.multiProducer
    && done < |log| && log[done].dead && Sendable(config, log[done].message)
    && tail == log[done].start
    && extent == Len(config, log[done])
    && freed <= extent
    && tail + extent <= |cells|
    && (forall c :: tail <= c < tail + extent ==> cells[c].stage != Done)
    && (forall c :: tail <= c < tail + extent && (c < tail + freed || c > tail) ==> cells[c].stage == Reserved)
  }

  ghost predicate ConsumerOk(
    config: Config, c: Consumer, log: seq<Entry>, cells: seq<Cell>, producers: map<nat, Producer>, tail: nat, done: nat)
  {
    && done <= |log|
    && c.headSeen <= |cells|
    && (!config.multiProducer ==> c.expected == done % U64_RANGE)
    && match c.pc
       case SeeTail(_, head) =>
         tail == StartOf(log, |cells|, done) && head == c.headSeen && tail <= head + config.capacity
       case SeeFloor(_) =>
         tail == StartOf(log, |cells|, done) && c.tailSeen == tail && Consistent(config, c.headSeen, c.tailSeen)
       case Gate(_, _) => tail == StartOf(log, |cells|, done) && c.tailSeen == tail
       case ReclaimRead(_) => tail == StartOf(log, |cells|, done) && c.tailSeen == tail && config.multiProducer
       case ReclaimVerify(_, pid, extent, j) =>
         c.tailSeen == tail && j <= extent && DeadTail(config, log, producers, done, tail, pid, extent)
       case ReclaimFree(_, extent, j) => c.tailSeen == tail && ReclaimingOk(config, log, cells, done, tail, extent, j)
       case ReclaimCas(_, extent) => c.tailSeen == tail && ReclaimingOk(config, log, cells, done, tail, extent, extent)
       case NextChunk(progress) => c.tailSeen == tail && progress.Rest? && ReadingOk(config, log, done, tail, progress)
       case ReadSlot(progress, seqNo) =>
         && c.tailSeen == tail && ReadingOk(config, log, done, tail, progress) && CommittedTail(cells, tail)
         && seqNo == log[done].message.seqNo
       case PinSlot(progress, seqNo, data) =>
         && c.tailSeen == tail && ReadingOk(config, log, done, tail, progress) && CommittedTail(cells, tail)
         && seqNo == log[done].message.seqNo
         && data == MessageFrames(config, log[done].message)[Index(progress)]
       case ClearSlot(after) =>
         c.tailSeen == tail && AfterOk(config, log, done, tail, after) && CommittedTail(cells, tail)
       case FreeSlot(after) =>
         c.tailSeen == tail && AfterOk(config, log, done, tail, after) && CommittedTail(cells, tail)
       case Advance(after) =>
         c.tailSeen == tail && AfterOk(config, log, done, tail, after) && CommittedTail(cells, tail)
       case ViewSlot(seqNo) =>
         && c.tailSeen == tail && ReadingOk(config, log, done, tail, First) && CommittedTail(cells, tail)
         && seqNo == log[done].message.seqNo
       case ViewPin(m) => c.tailSeen == tail && ViewingOk(config, log, cells, done, tail, m)
       case ViewFloor(m) => c.tailSeen == tail && ViewingOk(config, log, cells, done, tail, m)
       case ViewFloorCas(m, _) => c.tailSeen == tail && ViewingOk(config, log, cells, done, tail, m)
       case ViewAdvance(m) => c.tailSeen == tail && ViewingOk(config, log, cells, done, tail, m)
       case Broken(_) => false
       case _ => tail == StartOf(log, |cells|, done)
  }

  // ---- What was delivered ----

  /** The messages of the first n reservations that were not reclaimed. */
  function LiveMessages(log: seq<Entry>, n: nat): seq<Message>
    requires n <= |log|
  {
    if n == 0 then []
    else LiveMessages(log, n - 1) + (if log[n - 1].dead then [] else [log[n - 1].message])
  }

  predicate Reclaiming(pc: Receiving) {
    pc.ReclaimFree? || pc.ReclaimCas?
  }

  ghost predicate DeliveredOk(config: Config, log: seq<Entry>, done: nat, delivered: seq<Message>, reclaiming: bool) {
    && done <= |log|
    && delivered == LiveMessages(log, done)
    && (forall i :: done <= i < |log| && log[i].dead ==> i == done && reclaiming)
    && (!config.multiProducer ==> forall i :: 0 <= i < |log| ==>
          !log[i].dead && log[i].message.seqNo == i % U64_RANGE)
  }

  ghost predicate Inv(config: Config, s: State) {
    Parts(config, s) == true
  }

  ghost predicate Parts(config: Config, s: State) {
    && ConfigOk(config)
    && LogOk(config, s.log, |s.cells|)
    && CellsOk(config, s.log, s.cells)
    && CursorsOk(config, s.head, s.tail, |s.cells|)
    && HeadOk(config, s.head, s.cells)
    && OneProducer(config, s.producers)
    && PinsOk(config, s.pins, s.tail, |s.cells|, s.consumer.pc)
    && ConsumedOk(s.log, s.cells, s.tail)
    && SlotsOk(config, s.slots, s.log, s.cells, s.tail, s.pins, HoldOf(s.consumer.pc))
    && ProducersOk(config, s.producers, s.log, s.cells, s.head, s.tail, s.pins)
    && OwnedOk(s.producers, s.log, s.cells)
    && FloorOk(config, s.floor, s.pins, s.tail, s.consumer.pc)
    && ConsumerOk(config, s.consumer, s.log, s.cells, s.producers, s.tail, s.done)
    && DeliveredOk(config, s.log, s.done, s.delivered, Reclaiming(s.consumer.pc))
  }
}
