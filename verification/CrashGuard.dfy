/**
 * A producer handle that resumes after a crash, with `bias` slots occupied past the published head.
 *
 * The handle writes at its own index, publishes heads that stay `bias` behind what it has written, and
 * counts the bias in its guard. Loads, guard, slot writes and the head store are separate steps,
 * interleaved with a consumer that takes committed slots from the tail. The pin floor stays what the
 * opening scan made it, since this consumer makes no views.
 */
module CrashGuard {
  import opened Errors
  import opened Chunking
  import opened SlotStates
  import opened Cursors

  datatype Writer =
    | Rested
    | Loading(n: nat)
    | Guarding(n: nat, tail: nat)
    | Writing(n: nat, k: nat, marked: bool)
    | Publishing(n: nat)
    | Refused

  /** The consumer waits at the tail, has pinned its slot, or has freed it. */
  datatype Reader = Waiting | Taking | Freed

  datatype Resumed = Resumed(
    head: nat, tail: nat, floor: Option<nat>, slots: seq<SlotState>, bias: nat, index: nat, writer: Writer,
    reader: Reader)

  datatype Action = Send(n: nat) | Produce | Consume | Abandon

  function StateAt(config: Config, s: Resumed, cursor: int): SlotState
    requires config.capacity == |s.slots| > 0
  {
    s.slots[Idx(cursor, config.capacity)]
  }

  function Put(s: Resumed, index: nat, state: SlotState): Resumed
    requires index < |s.slots|
  {
    s.(slots := s.slots[index := state])
  }

  function ProducerMove(config: Config, s: Resumed): (t: Resumed)
    requires config.capacity == |s.slots| > 0 && s.index < |s.slots|
    ensures |t.slots| == |s.slots| && t.index < |t.slots|
  {
    match s.writer
    case Rested => s
    case Refused => s
    case Loading(n) => s.(writer := Guarding(n, s.tail))
    case Guarding(n, tail) =>
      if config.capacity - GuardLen(config, s.head, tail, s.floor, s.bias) < n then s.(writer := Rested)
      else s.(writer := Writer.Writing(n, 0, false))
    case Writing(n, k, marked) =>
      if k >= n then s.(writer := Publishing(n))
      else if !marked then
        // A slot that is not free makes the send fail.
        if s.slots[s.index].Free? then Put(s, s.index, SlotState.Writing).(writer := Writer.Writing(n, k, true))
        else s.(writer := Refused)
      else
        Put(s, s.index, Committed).(
          index := (s.index + 1) % config.capacity, writer := Writer.Writing(n, k + 1, false))
    case Publishing(n) => s.(head := s.head + n, writer := Rested)
  }

  function ConsumerMove(config: Config, s: Resumed): (t: Resumed)
    requires config.capacity == |s.slots| > 0
    ensures |t.slots| == |s.slots| && t.index == s.index
  {
    match s.reader
    case Waiting =>
      if StateAt(config, s, s.tail).Committed? then
        Put(s, Idx(s.tail, config.capacity), Pinned).(reader := Taking)
      else s
    case Taking => Put(s, Idx(s.tail, config.capacity), Free).(reader := Freed)
    case Freed => s.(tail := s.tail + 1, reader := Waiting)
  }

  function Act(config: Config, s: Resumed, action: Action): (t: Resumed)
    requires config.capacity == |s.slots| > 0 && s.index < |s.slots|
    ensures |t.slots| == |s.slots| && t.index < |t.slots|
  {
    match action
    case Send(n) => if s.writer.Rested? && 1 <= n <= config.capacity then s.(writer := Loading(n)) else s
    case Produce => ProducerMove(config, s)
    case Consume => ConsumerMove(config, s)
    case Abandon =>
      // A chunk that cannot be used is freed without moving the tail.
      if s.reader.Freed? then s.(reader := Waiting) else s
  }

  function Run(config: Config, s: Resumed, actions: seq<Action>): (t: Resumed)
    requires config.capacity == |s.slots| > 0 && s.index < |s.slots|
    ensures |t.slots| == |s.slots| && t.index < |t.slots|
    decreases |actions|
  {
    if actions == [] then s else Run(config, Act(config, s, actions[0]), actions[1..])
  }
}
