/** What the single-handle channel is: a first-in first-out queue bounded in slots, not in messages. */
module SpscFifo {
  import opened Bytes
  import opened Errors
  import opened Chunking
  import opened ChunkingProofs
  import opened SlotStates
  import opened Cursors
  import opened SlotRegion

  /** The state a caller can observe: the queued messages and the sequence counters. */
  datatype Fifo = Fifo(
    queue: seq<Message>, nextSeq: u64, expected: u64, lastReceived: Option<u64>, closed: bool)

  /** The queued messages carry consecutive sequence numbers modulo 2^64. */
  predicate Numbered(f: Fifo) {
    && (forall i :: 0 <= i < |f.queue| ==> f.queue[i].seqNo == (f.expected + i) % U64_RANGE)
    && f.nextSeq == (f.expected + |f.queue|) % U64_RANGE
  }

  predicate AllSendable(config: Config, queue: seq<Message>) {
    forall i :: 0 <= i < |queue| ==> Sendable(config, queue[i])
  }

  /** The committed slots that hold a message. */
  function MessageSlots(config: Config, m: Message): (slots: seq<SlotView>)
    requires Sendable(config, m)
    ensures |slots| == |MessageFrames(config, m)|
  {
    seq(|MessageFrames(config, m)|, k requires 0 <= k < |MessageFrames(config, m)| =>
      SlotView(Committed, m.seqNo, MessageFrames(config, m)[k]))
  }

  /** The committed slots of a whole queue, oldest message first. */
  function QueueSlots(config: Config, queue: seq<Message>): seq<SlotView>
    requires AllSendable(config, queue)
  {
    if queue == [] then []
    else MessageSlots(config, queue[0]) + QueueSlots(config, queue[1..])
  }

  function SlotTotal(config: Config, queue: seq<Message>): nat
    requires AllSendable(config, queue)
  {
    |QueueSlots(config, queue)|
  }

  lemma QueueSlotsCons(config: Config, queue: seq<Message>)
    requires AllSendable(config, queue) && queue != []
    ensures QueueSlots(config, queue) == MessageSlots(config, queue[0]) + QueueSlots(config, queue[1..])
  {
  }

  lemma SendableParts(config: Config, queue: seq<Message>, m: Message)
    requires AllSendable(config, queue) && Sendable(config, m)
    ensures AllSendable(config, queue + [m])
    ensures queue != [] ==> Sendable(config, queue[0]) && AllSendable(config, queue[1..])
  {
    hide Sendable;
  }

  lemma QueueSlotsOne(config: Config, m: Message)
    requires Sendable(config, m)
    ensures AllSendable(config, [m]) && QueueSlots(config, [m]) == MessageSlots(config, m)
  {
    hide Sendable, MessageSlots;
    assert [m][1..] == [];
  }

  lemma {:induction false} QueueSlotsAppend(config: Config, queue: seq<Message>, m: Message)
    requires AllSendable(config, queue) && Sendable(config, m)
    ensures AllSendable(config, queue + [m])
    ensures QueueSlots(config, queue + [m]) == QueueSlots(config, queue) + MessageSlots(config, m)
  {
    hide Sendable, MessageSlots, AllSendable;
    SendableParts(config, queue, m);
    if queue == [] {
      assert queue + [m] == [m];
      QueueSlotsOne(config, m);
      assert QueueSlots(config, queue) == [];
    } else {
      hide QueueSlots;
      QueueSlotsAppend(config, queue[1..], m);
      assert (queue + [m])[1..] == queue[1..] + [m];
      QueueSlotsCons(config, queue + [m]);
      QueueSlotsCons(config, queue);
      SlotsAssoc(MessageSlots(config, queue[0]), QueueSlots(config, queue[1..]), MessageSlots(config, m));
    }
  }

  lemma SlotsAssoc(a: seq<SlotView>, b: seq<SlotView>, c: seq<SlotView>)
    ensures a + (b + c) == (a + b) + c
  {
  }

  // ---- The operations ----

  function Append(f: Fifo, m: Message): Fifo {
    f.(queue := f.queue + [m], nextSeq := NextSeq(f.nextSeq))
  }

  function Drop(f: Fifo, d: nat): Fifo
    requires d <= |f.queue|
  {
    f.(queue := f.queue[d..], expected := (f.expected + d) % U64_RANGE)
  }

  /** Dropping the d oldest messages makes room for `needed` slots, and d - 1 would not. */
  predicate ShortestDrop(config: Config, queue: seq<Message>, needed: nat, d: nat)
    requires AllSendable(config, queue)
  {
    && 0 < d <= |queue|
    && SlotTotal(config, queue[d..]) + needed <= config.capacity
    && SlotTotal(config, queue[d - 1..]) + needed > config.capacity
  }

  /** What a send does: a refused or dropped message changes nothing at all. */
  ghost predicate Sends(config: Config, before: Fifo, bytes: seq<byte>, r: Result<()>, after: Fifo)
    requires AllSendable(config, before.queue)
    requires |bytes| <= USIZE_MAX
  {
    var m := Message(before.nextSeq, bytes);
    if before.closed then r == Err(Channel(Closed)) && after == before
    else match PlanFor(config, |bytes|)
      case Err(e) => r == Err(e) && after == before
      case Ok(plan) =>
        if SlotTotal(config, before.queue) + plan.neededSlots <= config.capacity then
          r == Ok(()) && after == Append(before, m)
        else match config.backpressure
          case Raise => r == Err(Channel(BufferFull)) && after == before
          case Block => r == Err(Channel(BufferFull)) && after == before
          case DropNewest => r == Ok(()) && after == before
          case DropOldest =>
            && r == Ok(())
            && exists d ::
                 ShortestDrop(config, before.queue, plan.neededSlots, d) && after == Append(Drop(before, d), m)
  }

  /** What a receive does: it yields exactly the oldest message, and fails only on an empty channel. */
  ghost predicate Receives(before: Fifo, r: Result<Message>, after: Fifo) {
    if before.queue == [] then
      r == Err(Channel(if before.closed then Closed else BufferEmpty)) && after == before
    else
      && r == Ok(before.queue[0])
      && after == Drop(before, 1).(lastReceived := Some(before.queue[0].seqNo))
  }

  // ---- Histories ----

  datatype Call = Send(bytes: seq<byte>, sent: Result<()>) | Recv(received: Result<Message>) | Close

  ghost predicate Does(config: Config, before: Fifo, call: Call, after: Fifo)
    requires AllSendable(config, before.queue)
  {
    match call
    case Send(bytes, sent) => |bytes| <= USIZE_MAX && Sends(config, before, bytes, sent, after)
    case Recv(received) => Receives(before, received, after)
    case Close => after == before.(closed := true)
  }

  /** A history: the calls, and the state before the first and after each of them. */
  ghost predicate History(config: Config, states: seq<Fifo>, calls: seq<Call>) {
    && |states| == |calls| + 1
    && states[0] == Fifo([], 0, 0, None, false)
    && forall i :: 0 <= i < |calls| ==>
         AllSendable(config, states[i].queue) && Does(config, states[i], calls[i], states[i + 1])
  }

  /** Whether the call put its message into the queue. */
  predicate Accepted(before: Fifo, call: Call, after: Fifo) {
    call.Send? && call.sent.Ok? && after.nextSeq != before.nextSeq
  }

  /** The payloads of all accepted sends, oldest first. */
  function AcceptedPayloads(states: seq<Fifo>, calls: seq<Call>, n: nat): seq<seq<byte>>
    requires n <= |calls| && |states| == |calls| + 1
  {
    if n == 0 then []
    else
      AcceptedPayloads(states, calls, n - 1)
      + (if Accepted(states[n - 1], calls[n - 1], states[n]) then [calls[n - 1].bytes] else [])
  }

  function ReceivedPayloads(calls: seq<Call>, n: nat): seq<seq<byte>>
    requires n <= |calls|
  {
    if n == 0 then []
    else
      ReceivedPayloads(calls, n - 1)
      + (if calls[n - 1].Recv? && calls[n - 1].received.Ok? then [calls[n - 1].received.value.payload] else [])
  }

  function Payloads(queue: seq<Message>): (payloads: seq<seq<byte>>)
    ensures |payloads| == |queue|
  {
    seq(|queue|, i requires 0 <= i < |queue| => queue[i].payload)
  }

  lemma NextSeqMoves(seqNo: u64)
    ensures NextSeq(seqNo) != seqNo
  {
  }

  lemma NumberedAppend(f: Fifo, bytes: seq<byte>)
    requires Numbered(f)
    ensures Numbered(Append(f, Message(f.nextSeq, bytes)))
  {
    ModShift(f.expected + |f.queue|, 1);
  }

  lemma NumberedDrop(f: Fifo, d: nat)
    requires Numbered(f) && d <= |f.queue|
    ensures Numbered(Drop(f, d))
    ensures Drop(f, d).nextSeq == f.nextSeq
  {
    var g := Drop(f, d);
    forall i | 0 <= i < |g.queue|
      ensures g.queue[i].seqNo == (g.expected + i) % U64_RANGE
    {
      assert g.queue[i] == f.queue[d + i];
      ModShift(f.expected + d, i);
    }
    ModShift(f.expected + d, |g.queue|);
  }

  /** The queue is the newest part of the accepted payloads, in order, and the next number counts them. */
  ghost predicate NewestOf(f: Fifo, accepted: seq<seq<byte>>) {
    && Numbered(f)
    && |f.queue| <= |accepted|
    && Payloads(f.queue) == accepted[|accepted| - |f.queue|..]
    && f.nextSeq == |accepted| % U64_RANGE
  }

  /**
   * At every moment of every history the queue is the newest part of what was accepted, in order and
   * with every byte, whatever the backpressure mode dropped.
   */
  lemma {:induction false} QueueIsSuffix(config: Config, states: seq<Fifo>, calls: seq<Call>, n: nat)
    requires History(config, states, calls)
    requires n <= |calls|
    ensures NewestOf(states[n], AcceptedPayloads(states, calls, n))
  {
    hide Does, Sendable;
    if n > 0 {
      hide NewestOf;
      QueueIsSuffix(config, states, calls, n - 1);
      SuffixStep(config, states[n - 1], calls[n - 1], states[n], AcceptedPayloads(states, calls, n - 1));
    }
  }

  lemma SuffixAppend(f: Fifo, bytes: seq<byte>, accepted: seq<seq<byte>>)
    requires NewestOf(f, accepted)
    ensures NewestOf(Append(f, Message(f.nextSeq, bytes)), accepted + [bytes])
  {
    hide Numbered;
    NumberedAppend(f, bytes);
    ModShift(|accepted|, 1);
    var g := Append(f, Message(f.nextSeq, bytes));
    assert Payloads(g.queue) == Payloads(f.queue) + [bytes];
  }

  lemma SuffixDrop(f: Fifo, d: nat, accepted: seq<seq<byte>>)
    requires NewestOf(f, accepted) && d <= |f.queue|
    ensures NewestOf(Drop(f, d), accepted)
  {
    hide Numbered;
    NumberedDrop(f, d);
    assert Payloads(Drop(f, d).queue) == Payloads(f.queue)[d..];
  }

  lemma SuffixStep(config: Config, before: Fifo, call: Call, after: Fifo, accepted: seq<seq<byte>>)
    requires AllSendable(config, before.queue) && Does(config, before, call, after)
    requires NewestOf(before, accepted)
    ensures NewestOf(after, accepted + (if Accepted(before, call, after) then [call.bytes] else []))
  {
    hide PlanFor, Sendable, SlotTotal;
    NextSeqMoves(before.nextSeq);
    assert accepted + [] == accepted;
    if call.Recv? && before.queue != [] {
      SuffixDrop(before, 1, accepted);
      assert NewestOf(Drop(before, 1), accepted);
    } else if call.Send? && after != before {
      hide NewestOf;
      var d: nat := DroppedBy(config, before, call, after);
      SuffixDrop(before, d, accepted);
      SuffixAppend(Drop(before, d), call.bytes, accepted);
    }
  }

  lemma DroppedBy(config: Config, before: Fifo, call: Call, after: Fifo) returns (d: nat)
    requires AllSendable(config, before.queue) && Does(config, before, call, after)
    requires call.Send? && after != before
    ensures d <= |before.queue| && call.sent.Ok?
    ensures after == Append(Drop(before, d), Message(before.nextSeq, call.bytes))
  {
    hide PlanFor, Sendable, SlotTotal;
    var m := Message(before.nextSeq, call.bytes);
    if after == Append(Drop(before, 0), m) {
      d := 0;
    } else {
      var needed := PlanFor(config, |call.bytes|).value.neededSlots;
      d :| ShortestDrop(config, before.queue, needed, d) && after == Append(Drop(before, d), m);
    }
  }

  /**
   * Unless the mode drops old messages, every accepted message is received or still queued: the
   * received payloads followed by the queued ones are exactly the accepted ones.
   */
  lemma {:induction false} NothingLost(config: Config, states: seq<Fifo>, calls: seq<Call>, n: nat)
    requires History(config, states, calls)
    requires !config.backpressure.DropOldest?
    requires n <= |calls|
    ensures AcceptedPayloads(states, calls, n) == ReceivedPayloads(calls, n) + Payloads(states[n].queue)
  {
    hide Does, Sendable;
    if n > 0 {
      var before, call, after := states[n - 1], calls[n - 1], states[n];
      NothingLost(config, states, calls, n - 1);
      KeepStep(config, before, call, after);
      var got := if call.Recv? && call.received.Ok? then [call.received.value.payload] else [];
      var put := if Accepted(before, call, after) then [call.bytes] else [];
      Reassociate(ReceivedPayloads(calls, n - 1), Payloads(before.queue), put, got, Payloads(after.queue));
    }
  }

  lemma Reassociate(a: seq<seq<byte>>, b: seq<seq<byte>>, c: seq<seq<byte>>, d: seq<seq<byte>>, e: seq<seq<byte>>)
    requires d + e == b + c
    ensures (a + b) + c == (a + d) + e
  {
    assert (a + b) + c == a + (b + c);
    assert (a + d) + e == a + (d + e);
  }

  lemma KeepStep(config: Config, before: Fifo, call: Call, after: Fifo)
    requires AllSendable(config, before.queue) && Does(config, before, call, after)
    requires !config.backpressure.DropOldest?
    ensures (if call.Recv? && call.received.Ok? then [call.received.value.payload] else []) + Payloads(after.queue)
         == Payloads(before.queue) + (if Accepted(before, call, after) then [call.bytes] else [])
  {
    hide PlanFor, Sendable, SlotTotal, AllSendable;
    NextSeqMoves(before.nextSeq);
  }
}
