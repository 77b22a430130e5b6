/** The single-handle channel: a ring of slots over byte storage that refines the slot-bounded queue. */
module ShmSpsc {
  import opened Bytes
  import opened Errors
  import opened FrameCodec
  import opened Chunking
  import opened ChunkingProofs
  import opened SlotStates
  import opened Cursors
  import opened SlotRegion
  import opened SlotRing
  import opened SpscFifo

  /** The slots from the tail on hold the frames of the queued messages. */
  ghost predicate Represents(config: Config, window: seq<SlotView>, f: Fifo) {
    AllSendable(config, f.queue) && Numbered(f) && window == QueueSlots(config, f.queue)
  }

  /** The oldest message's slots come first, and its first frame tells how many they are. */
  lemma OldestFirst(config: Config, window: seq<SlotView>, f: Fifo)
    requires Represents(config, window, f)
    requires config.slotSize + FRAME_HEADER_LEN <= USIZE_MAX
    ensures window == [] <==> f.queue == []
    ensures f.queue != [] ==>
              var m := f.queue[0];
              && Sendable(config, m)
              && window == MessageSlots(config, m) + QueueSlots(config, f.queue[1..])
              && window[0] == SlotView(Committed, m.seqNo, MessageFrames(config, m)[0])
              && m.seqNo == f.expected
  {
    hide Sendable, MessageFrames;
    if f.queue != [] {
      QueueSlotsCons(config, f.queue);
    }
  }

  /** Taking the oldest message's slots out leaves the rest of the queue. */
  lemma RepresentsDrop(config: Config, window: seq<SlotView>, f: Fifo)
    requires Represents(config, window, f)
    requires f.queue != []
    ensures Sendable(config, f.queue[0])
    ensures var n := |MessageFrames(config, f.queue[0])|;
            && n <= |window|
            && window[..n] == MessageSlots(config, f.queue[0])
            && (forall i :: 0 <= i < n ==> window[i].state == Committed)
            && Represents(config, window[n..], Drop(f, 1))
  {
    hide Sendable, MessageFrames, Numbered;
    QueueSlotsCons(config, f.queue);
    NumberedDrop(f, 1);
    assert MessageSlots(config, f.queue[0]) + QueueSlots(config, f.queue[1..]) == window;
  }

  lemma RepresentsAppend(config: Config, window: seq<SlotView>, f: Fifo, bytes: seq<byte>)
    requires Represents(config, window, f)
    requires Sendable(config, Message(f.nextSeq, bytes))
    ensures var m := Message(f.nextSeq, bytes);
            Represents(config, window + MessageSlots(config, m), Append(f, m))
  {
    hide Sendable, MessageFrames, MessageSlots, Numbered, QueueSlots;
    QueueSlotsAppend(config, f.queue, Message(f.nextSeq, bytes));
    NumberedAppend(f, bytes);
  }

  lemma RepresentsTotal(config: Config, window: seq<SlotView>, f: Fifo)
    requires Represents(config, window, f)
    ensures AllSendable(config, f.queue) && SlotTotal(config, f.queue) == |window|
    ensures f.queue == [] <==> window == []
  {
    hide Sendable, MessageFrames;
    if f.queue != [] {
      QueueSlotsCons(config, f.queue);
    }
  }

  /** Dropping one message fewer than d would leave too little room. */
  ghost predicate TooFew(config: Config, queue: seq<Message>, needed: nat, d: nat) {
    && 0 < d <= |queue|
    && AllSendable(config, queue[d - 1..])
    && SlotTotal(config, queue[d - 1..]) + needed > config.capacity
  }

  lemma DropsShortest(config: Config, window: seq<SlotView>, f: Fifo, g: Fifo, needed: nat, d: nat)
    requires AllSendable(config, f.queue)
    requires TooFew(config, f.queue, needed, d)
    requires g == Drop(f, d) && Represents(config, window, g)
    requires |window| + needed <= config.capacity
    ensures ShortestDrop(config, f.queue, needed, d)
  {
    hide Sendable;
    RepresentsTotal(config, window, g);
  }

  lemma DropZero(f: Fifo)
    ensures Drop(f, 0) == f
  {
    assert f.queue[0..] == f.queue;
  }

  /** Room for the message, made by dropping the shortest run of oldest messages in DropOldest mode. */
  ghost predicate Prepares(config: Config, before: Fifo, needed: nat, r: Result<bool>, after: Fifo) {
    && AllSendable(config, before.queue)
    && if SlotTotal(config, before.queue) + needed <= config.capacity then r == Ok(true) && after == before
       else match config.backpressure
         case Raise => r == Err(Channel(BufferFull)) && after == before
         case Block => r == Err(Channel(BufferFull)) && after == before
         case DropNewest => r == Ok(false) && after == before
         case DropOldest =>
           r == Ok(true) && exists d :: ShortestDrop(config, before.queue, needed, d) && after == Drop(before, d)
  }

  /** Preparing room and then appending is a send; when no room is prepared, the send ends there. */
  lemma PreparedSend(
    config: Config, before: Fifo, bytes: seq<byte>, plan: SendPlan, r: Result<bool>, mid: Fifo, answer: Result<()>,
        after: Fifo)
    requires |bytes| <= USIZE_MAX
    requires !before.closed && PlanFor(config, |bytes|) == Ok(plan)
    requires Prepares(config, before, plan.neededSlots, r, mid)
    requires r.Err? ==> answer.Err? && answer.error == r.error && after == mid
    requires r == Ok(false) ==> answer == Ok(()) && after == mid
    requires r == Ok(true) ==> answer == Ok(()) && after == Append(mid, Message(before.nextSeq, bytes))
    ensures AllSendable(config, before.queue)
    ensures Sends(config, before, bytes, answer, after)
    ensures r != Ok(true) ==> after == before
    ensures r == Ok(true) ==> after != before && mid.nextSeq == before.nextSeq
  {
    hide PlanFor, Sendable, SlotTotal, AllSendable;
    NextSeqMoves(before.nextSeq);
  }

  /** What a reader makes of the first frame of a message. */
  lemma FirstFrame(config: Config, m: Message)
    requires Sendable(config, m)
    requires config.slotSize + FRAME_HEADER_LEN <= USIZE_MAX
    ensures var decoded := DecodeFrame(MessageFrames(config, m)[0]);
            && decoded.Ok?
            && var frame := decoded.value;
               && ValidBytesFrame(frame) && frame.header.seqNo == m.seqNo
               && (IsChunked(frame) <==> |MessageFrames(config, m)| > 1)
               && (IsChunked(frame) ==> ChunkInfoOf(frame) == Ok(ChunkInfo(0, |MessageFrames(config, m)|, |m.payload|)))
               && frame.payload == Prefix(config, m, 1)
  {
    hide Sendable, MessageFrames, DecodeFrame, ChunkInfoOf, ValidBytesFrame, IsChunked, ValidateChunk, Part, Prefix;
    FrameCarriesPart(config, m, 0);
    PrefixStep(config, m, 0);
    assert CarriesPart(config, m, 0, DecodeFrame(MessageFrames(config, m)[0]).value);
    assert Prefix(config, m, 0) == [];
  }

  /** The window starts with the remaining slots of a chunked message, the first of them `first`. */
  ghost predicate Chunks(
    config: Config, m: Message, index: nat, first: SlotState, window: seq<SlotView>, rest: seq<SlotView>)
  {
    && Sendable(config, m)
    && index <= |MessageFrames(config, m)|
    && |window| == |MessageFrames(config, m)| - index + |rest|
    && window[|MessageFrames(config, m)| - index..] == rest
    && (forall k :: index <= k < |MessageFrames(config, m)| ==>
          window[k - index] == SlotView(if k == index then first else Committed, m.seqNo, MessageFrames(config, m)[k]))
  }

  lemma ChunksNext(
    config: Config, m: Message, index: nat, first: SlotState, window: seq<SlotView>, rest: seq<SlotView>)
    requires Chunks(config, m, index, first, window, rest)
    requires index < |MessageFrames(config, m)|
    ensures window != [] && Chunks(config, m, index + 1, Committed, window[1..], rest)
  {
    hide Sendable, MessageFrames;
  }

  lemma ChunksPinned(
    config: Config, m: Message, index: nat, window: seq<SlotView>, rest: seq<SlotView>)
    requires Chunks(config, m, index, Committed, window, rest)
    requires index < |MessageFrames(config, m)|
    ensures window != [] && window[0] == SlotView(Committed, m.seqNo, MessageFrames(config, m)[index])
    ensures Chunks(config, m, index, Pinned, window[0 := window[0].(state := Pinned)], rest)
  {
    hide Sendable, MessageFrames;
  }

  /** A chunked message at the front of the queue, its first slot pinned by the reader. */
  ghost predicate StartsChunked(
    config: Config, seqNo: u64, first: Frame, m: Message, window: seq<SlotView>, rest: seq<SlotView>)
  {
    && Sendable(config, m)
    && Chunks(config, m, 0, Pinned, window, rest)
    && |MessageFrames(config, m)| > 1
    && seqNo == m.seqNo
    && ChunkInfoOf(first) == Ok(ChunkInfo(0, |MessageFrames(config, m)|, |m.payload|))
    && first.payload == Prefix(config, m, 1)
  }

  /** The k-th chunk passes the reader's checks and carries its part. */
  lemma LaterFrame(config: Config, m: Message, k: nat)
    requires Sendable(config, m) && k < |MessageFrames(config, m)| && |MessageFrames(config, m)| > 1
    requires config.slotSize + FRAME_HEADER_LEN <= USIZE_MAX
    ensures var n := |MessageFrames(config, m)|;
            var decoded := DecodeFrame(MessageFrames(config, m)[k]);
            && decoded.Ok?
            && ValidateChunk(decoded.value, m.seqNo, ChunkInfo(k, n, |m.payload|)) == Ok(())
            && Prefix(config, m, k) + decoded.value.payload == Prefix(config, m, k + 1)
  {
    hide Sendable, MessageFrames, DecodeFrame, ChunkInfoOf, ValidBytesFrame, IsChunked, ValidateChunk, Part, Prefix;
    FrameCarriesPart(config, m, k);
    PrefixStep(config, m, k);
    assert CarriesPart(config, m, k, DecodeFrame(MessageFrames(config, m)[k]).value);
  }

  /** The front of a represented queue, with its first slot pinned, read as chunks. */
  lemma FrontIsChunks(config: Config, window: seq<SlotView>, f: Fifo)
    requires Represents(config, window, f) && f.queue != []
    ensures Sendable(config, f.queue[0])
    ensures var n := |MessageFrames(config, f.queue[0])|;
            && 0 < n <= |window|
            && Chunks(config, f.queue[0], 0, Pinned, window[0 := window[0].(state := Pinned)], window[n..])
  {
    hide Sendable, MessageFrames;
    QueueSlotsCons(config, f.queue);
  }

  /** A message at the front of the window, its first slot pinned and its first frame checked. */
  ghost predicate StartsMessage(
    config: Config, seqNo: u64, first: Frame, m: Message, window: seq<SlotView>, rest: seq<SlotView>)
  {
    && Sendable(config, m)
    && Chunks(config, m, 0, Pinned, window, rest)
    && seqNo == m.seqNo
    && (IsChunked(first) <==> |MessageFrames(config, m)| > 1)
    && (IsChunked(first) ==> ChunkInfoOf(first) == Ok(ChunkInfo(0, |MessageFrames(config, m)|, |m.payload|)))
    && first.payload == Prefix(config, m, 1)
  }

  ghost function RestOf(config: Config, window: seq<SlotView>, m: Message): seq<SlotView>
    requires Sendable(config, m) && |MessageFrames(config, m)| <= |window|
  {
    window[|MessageFrames(config, m)|..]
  }

  /** What a receive finds at the front of a non-empty queue. */
  lemma FrontMessage(config: Config, window: seq<SlotView>, f: Fifo)
    requires Represents(config, window, f) && f.queue != []
    requires config.slotSize + FRAME_HEADER_LEN <= USIZE_MAX
    ensures var m := f.queue[0];
            && Sendable(config, m) && |MessageFrames(config, m)| <= |window|
            && window != [] && window[0].state == Committed && window[0].seqNo == m.seqNo == f.expected
            && Represents(config, RestOf(config, window, m), Drop(f, 1))
            && var checked := CheckFirst(m.seqNo, window[0].frame);
               && checked.Ok?
               && StartsMessage(config, m.seqNo, checked.value, m, window[0 := window[0].(state := Pinned)],
                                RestOf(config, window, m))
  {
    hide Sendable, MessageFrames, AllSendable, QueueSlots, MessageSlots, Numbered, Represents, DecodeFrame, ChunkInfoOf,
         ValidBytesFrame, IsChunked, Prefix, Chunks;
    OldestFirst(config, window, f);
    FirstFrame(config, f.queue[0]);
    RepresentsDrop(config, window, f);
    FrontIsChunks(config, window, f);
  }

  class ShmSpscChannel {
    const config: Config
    const region: FixedSlotRegion
    var head: nat
    var tail: nat
    var len: nat
    var nextSeq: u64
    var expectedRecvSeq: u64
    var lastReceivedSeq: Option<u64>
    var closed: bool
    ghost var queue: seq<Message>

    /** What every call keeps, even on storage whose contents were damaged. */
    ghost predicate Shaped()
      reads this, region.slots, region.storage.data
    {
      && config.Valid()
      && config.slotSize + FRAME_HEADER_LEN <= region.storage.slotSize
      && region.Valid()
      && region.slots.Length == config.capacity
      && tail < config.capacity && len <= config.capacity
      && Shape(region.View(), head, tail, len)
    }

    ghost function Contents(): seq<SlotView>
      requires Shaped()
      reads this, region.slots, region.storage.data
    {
      Window(region.View(), tail, len)
    }

    ghost function State(): Fifo
      reads this
    {
      Fifo(queue, nextSeq, expectedRecvSeq, lastReceivedSeq, closed)
    }

    /** The channel holds exactly the frames of its queue. */
    ghost predicate Valid()
      reads this, region.slots, region.storage.data
    {
      Shaped() && Represents(config, Contents(), State())
    }

    constructor (config: Config, region: FixedSlotRegion)
      requires config.Valid()
      requires region.Valid() && region.slots.Length == config.capacity
      requires config.slotSize + FRAME_HEADER_LEN <= region.storage.slotSize
      requires forall i :: 0 <= i < config.capacity ==> region.View()[i] == FREE_VIEW
      ensures Valid() && State() == Fifo([], 0, 0, None, false)
      ensures this.config == config && this.region == region
    {
      this.config := config;
      this.region := region;
      head, tail, len := 0, 0, 0;
      nextSeq, expectedRecvSeq, lastReceivedSeq := 0, 0, None;
      closed := false;
      queue := [];
    }

    /** `ShmSpscChannel::new`. */
    static method New(config: Config) returns (r: Result<ShmSpscChannel>)
      ensures r.Ok? <==> config.Valid() && config.slotSize + FRAME_HEADER_LEN <= USIZE_MAX
                         && config.capacity * (config.slotSize + FRAME_HEADER_LEN) <= USIZE_MAX
      ensures r.Err? ==> r.error.Channel? && r.error.channel.InvalidConfig?
      ensures r.Ok? ==> fresh(r.value) && r.value.Valid() && r.value.config == config
                        && r.value.State() == Fifo([], 0, 0, None, false)
      ensures r.Ok? ==> fresh(r.value.region.slots) && fresh(r.value.region.storage.data)
    {
      hide Represents, Shape, Window;
      if config.capacity == 0 {
        return Err(Channel(InvalidConfig("capacity must be greater than zero")));
      }
      if config.slotSize == 0 {
        return Err(Channel(InvalidConfig("slot_size must be greater than zero")));
      }
      if config.slotSize + FRAME_HEADER_LEN > USIZE_MAX {
        return Err(Channel(InvalidConfig("slot_size is too large")));
      }
      var storage := MemorySlotStorage.New(config.capacity, config.slotSize + FRAME_HEADER_LEN);
      if storage.Err? {
        return Err(storage.error);
      }
      var region := new FixedSlotRegion(storage.value);
      var channel := new ShmSpscChannel(config, region);
      return Ok(channel);
    }

    // ---- Sending ----

    /** `send`. */
    method Send(bytes: seq<byte>) returns (r: Result<()>)
      requires Shaped()
      requires |bytes| <= USIZE_MAX
      modifies this, region.slots, region.storage.data
      ensures Shaped()
      ensures old(Valid()) ==> Valid() && Sends(config, old(State()), bytes, r, State())
      ensures old(Valid()) && State() == old(State()) ==>
                region.View() == old(region.View()) && tail == old(tail) && len == old(len)
    {
      hide Shape, Window, FreeOutside, Wrap, Sendable, MessageFrames, AllSendable, QueueSlots, Represents, Numbered,
           MaxMessageSize, MessageSlots, Sends, Prepares, PlanFor;
      ghost var before := State();
      ghost var valid := Valid();
      if valid {
        AllQueued(config, Contents(), before);
      }
      var plan := PlanFor(config, |bytes|);
      if closed || plan.Err? {
        r := Err(if closed then Channel(Closed) else plan.error);
        SendRefused(config, before, bytes, r);
        return;
      }
      PlanFits(config, Message(nextSeq, bytes));
      var prepared := PrepareSendSlots(plan.value.neededSlots);
      ghost var mid := State();
      if prepared.Err? || !prepared.value {
        r := if prepared.Err? then Err(prepared.error) else Ok(());
      } else {
        r := AppendMessage(bytes, plan.value);
      }
      if valid {
        PreparedSend(config, before, bytes, plan.value, prepared, mid, r, State());
      }
    }

    /** Encodes the message under the next sequence number and commits its frames. */
    method AppendMessage(bytes: seq<byte>, plan: SendPlan) returns (r: Result<()>)
      requires Shaped()
      requires |bytes| <= USIZE_MAX
      requires Sendable(config, Message(nextSeq, bytes)) && plan == Plan(config, Message(nextSeq, bytes))
      requires len + plan.neededSlots <= config.capacity
      modifies `head, `len, `nextSeq, `queue, region.slots, region.storage.data
      ensures Shaped() && r == Ok(())
      ensures old(Valid()) ==> Valid() && State() == Append(old(State()), Message(old(nextSeq), bytes))
    {
      hide Shape, Window, FreeOutside, Wrap, Sendable, MessageFrames, AllSendable, QueueSlots, Represents, Numbered,
           PlanFor, MessageSlots, EncodedMessage, MaxMessageSize, NextSeq;
      var m := Message(nextSeq, bytes);
      if Valid() {
        RepresentsAppend(config, Contents(), State(), bytes);
      }
      nextSeq := NextSeq(nextSeq);
      PlanErrorsUnreachable(config, m);
      var frames := EncodeMessageFrames(config, plan, m.seqNo, bytes);
      r := WriteFrames(m, frames.value);
      queue := queue + [m];
    }

    /** Writes the frames of a message at the head; there is room for all of them. */
    method WriteFrames(m: Message, frames: seq<seq<byte>>) returns (r: Result<()>)
      requires Shaped()
      requires Sendable(config, m) && frames == MessageFrames(config, m)
      requires len + |frames| <= config.capacity
      modifies `head, `len, region.slots, region.storage.data
      ensures Shaped() && r == Ok(())
      ensures Contents() == old(Contents()) + MessageSlots(config, m)
    {
      hide Shape, Window, FreeOutside, Wrap, Sendable, MessageFrames, AllSendable, QueueSlots, MessageSlots;
      ghost var slots := MessageSlots(config, m);
      for i := 0 to |frames|
        invariant Shaped()
        invariant len == old(len) + i
        invariant Contents() == old(Contents()) + slots[..i]
      {
        FrameFits(config, m, i);
        MessageSlotAt(config, m, i);
        Push(region.View(), head, tail, len, slots[i]);
        var written := region.WriteCommitted(head, m.seqNo, frames[i]);
        head := (head + 1) % config.capacity;
        len := len + 1;
      }
      return Ok(());
    }

    // ---- Making room ----

    method PrepareSendSlots(needed: nat) returns (r: Result<bool>)
      requires Shaped()
      requires 0 < needed
      modifies `tail, `len, `expectedRecvSeq, `queue, region.slots, region.storage.data
      ensures Shaped()
      ensures r == Ok(true) ==> len + needed <= config.capacity
      ensures needed <= config.capacity && old(Valid()) ==>
                Valid() && Prepares(config, old(State()), needed, r, State())
      ensures old(Valid()) && State() == old(State()) ==>
                region.View() == old(region.View()) && tail == old(tail) && len == old(len)
    {
      if needed > config.capacity {
        return Err(Channel(MessageTooLarge(needed, config.capacity)));
      }
      if config.capacity - len >= needed {
        return Ok(true);
      }
      match config.backpressure {
        case Raise =>
          return Err(Channel(BufferFull));
        case Block =>
          // Nothing else holds this channel, so waiting for space ends at the deadline.
          return Err(Channel(BufferFull));
        case DropNewest =>
          return Ok(false);
        case DropOldest =>
          r := DropUntilRoom(needed);
      }
    }

    method DropUntilRoom(needed: nat) returns (r: Result<bool>)
      requires Shaped()
      requires needed <= config.capacity < len + needed
      modifies `tail, `len, `expectedRecvSeq, `queue, region.slots, region.storage.data
      ensures Shaped()
      ensures r == Ok(true) ==> len + needed <= config.capacity
      ensures old(Valid()) ==>
                && Valid() && r == Ok(true)
                && AllSendable(config, old(queue))
                && exists d :: ShortestDrop(config, old(queue), needed, d) && State() == Drop(old(State()), d)
    {
      hide Shape, Window, FreeOutside, Wrap, Sendable, MessageFrames, AllSendable, QueueSlots, Represents, Drop,
           SlotTotal, ShortestDrop, TooFew;
      ghost var before := State();
      ghost var valid := Valid();
      ghost var d := 0;
      DropZero(before);
      while config.capacity - len < needed
        invariant Shaped()
        invariant valid ==> d <= |before.queue| && Valid() && State() == Drop(before, d)
        invariant valid && d > 0 ==> TooFew(config, before.queue, needed, d)
        invariant d == 0 ==> len + needed > config.capacity
        decreases len
      {
        ghost var window := Contents();
        if valid {
          MustDrop(config, window, before, State(), needed, d);
        }
        var dropped := DropOldestMessage();
        if dropped.Err? {
          return Err(dropped.error);
        }
        d := d + 1;
      }
      if valid {
        AllQueued(config, old(Contents()), before);
        DropsShortest(config, Contents(), before, State(), needed, d);
      }
      return Ok(true);
    }

    /** Releases the slots of the oldest message without reading it out (`drop_oldest_message`). */
    method DropOldestMessage() returns (r: Result<()>)
      requires Shaped()
      modifies `tail, `len, `expectedRecvSeq, `queue, region.slots, region.storage.data
      ensures Shaped()
      ensures r.Ok? && old(len) > 0 ==> len < old(len)
      ensures old(Valid()) && old(queue) != [] ==> Valid() && r == Ok(()) && State() == Drop(old(State()), 1)
    {
      hide Shape, Window, FreeOutside, Wrap, Sendable, MessageFrames, AllSendable, QueueSlots, Represents, MessageSlots;
      if len == 0 {
        assert Valid() ==> queue == [] by {
          if Valid() {
            RepresentsTotal(config, Contents(), State());
          }
        }
        return Ok(());
      }
      ghost var window := Contents();
      ghost var valid := Valid() && queue != [];
      if valid {
        OldestFirst(config, window, State());
        RepresentsDrop(config, window, State());
      }
      var count := OldestLength();
      if count.Err? {
        return Err(count.error);
      }
      r := ReleaseFront(count.value);
      if r.Err? {
        return;
      }
      expectedRecvSeq := NextSeq(expectedRecvSeq);
      queue := if queue == [] then [] else queue[1..];
    }

    /** How many slots the message at the tail takes, read off its first frame. */
    method OldestLength() returns (r: Result<nat>)
      requires Shaped()
      ensures r.Ok? ==> r.value > 0
      ensures Valid() && queue != [] ==>
                Sendable(config, queue[0]) && r == Ok(|MessageFrames(config, queue[0])|)
    {
      hide Shape, Window, FreeOutside, Wrap, Sendable, MessageFrames, AllSendable, QueueSlots, Represents,
           MessageSlots, DecodeFrame, ChunkInfoOf, IsChunked;
      ShapeBounds(region.View(), head, tail, len);
      if Valid() && queue != [] {
        OldestFirst(config, Contents(), State());
        FirstFrame(config, queue[0]);
      }
      var snapshot := region.PeekCommitted(tail);
      if snapshot.Err? {
        return Err(snapshot.error);
      }
      var frame := DecodeFrame(snapshot.value.data);
      if frame.Err? {
        return Err(frame.error);
      }
      if !IsChunked(frame.value) {
        return Ok(1);
      }
      var info := ChunkInfoOf(frame.value);
      if info.Err? {
        return Err(info.error);
      }
      if info.value.index != 0 {
        return Err(Channel(CorruptedMessage));
      }
      TotalIsPositive(frame.value);
      return Ok(info.value.total);
    }

    /** Releases the slot at the tail if it is committed, and moves past it. */
    method ReleaseTailCommitted() returns (r: Result<()>)
      requires Shaped()
      modifies `tail, `len, region.slots, region.storage.data
      ensures Shaped()
      ensures r.Ok? ==> len + 1 == old(len) && Contents() == old(Contents())[1..]
      ensures old(len) > 0 && old(Contents())[0].state == Committed ==> r == Ok(())
    {
      hide Shape, Window, FreeOutside, Wrap, Sendable, MessageFrames, AllSendable, QueueSlots;
      ShapeBounds(region.View(), head, tail, len);
      ghost var view := region.View();
      var released := region.ReleaseCommitted(tail);
      if released.Err? {
        return Err(released.error);
      }
      Pop(view, head, tail, len);
      tail := (tail + 1) % config.capacity;
      len := len - 1;
      return Ok(());
    }

    /** Releases the first n slots of the window while they are committed. */
    method ReleaseFront(n: nat) returns (r: Result<()>)
      requires Shaped()
      modifies `tail, `len, region.slots, region.storage.data
      ensures Shaped()
      ensures r.Ok? ==> len + n == old(len)
      ensures n <= old(len) && (forall i :: 0 <= i < n ==> old(Contents())[i].state == Committed) ==>
                r == Ok(()) && Contents() == old(Contents())[n..]
    {
      hide Shape, Window, FreeOutside, Wrap, Sendable, MessageFrames, AllSendable, QueueSlots;
      ghost var slots := Contents();
      ghost var good := n <= len && forall i :: 0 <= i < n ==> slots[i].state == Committed;
      for i := 0 to n
        invariant Shaped()
        invariant len + i == old(len)
        invariant good ==> Contents() == slots[i..]
      {
        var released := ReleaseTailCommitted();
        if released.Err? {
          return Err(released.error);
        }
        assert good ==> slots[i..][1..] == slots[i + 1..];
      }
      return Ok(());
    }

    // ---- Receiving ----

    /** `close`. */
    method Close()
      requires Shaped()
      modifies `closed
      ensures Shaped()
      ensures old(Valid()) ==> Valid() && State() == old(State()).(closed := true)
    {
      hide Shape, Window, FreeOutside, Wrap, Sendable, MessageFrames, AllSendable, QueueSlots, Numbered;
      ghost var before := State();
      closed := true;
      NumberedClosed(before);
    }

    /** Releases the pinned tail slot and moves past it (`advance_tail_after_read`). */
    method AdvanceTailAfterRead() returns (r: Result<()>)
      requires Shaped()
      modifies `tail, `len, region.slots, region.storage.data
      ensures Shaped()
      ensures r == if old(len) > 0 && old(Contents())[0].state == Pinned then Ok(())
                   else Err(Channel(InvalidConfig("slot is not pinned")))
      ensures r.Ok? ==> Contents() == old(Contents())[1..]
      ensures r.Err? ==> Contents() == old(Contents())
    {
      hide Shape, Window, FreeOutside, Wrap, Sendable, MessageFrames, AllSendable, QueueSlots;
      ShapeBounds(region.View(), head, tail, len);
      ghost var view := region.View();
      var released := region.ReleasePinned(tail);
      if released.Err? {
        return Err(released.error);
      }
      Pop(view, head, tail, len);
      tail := (tail + 1) % config.capacity;
      len := len - 1;
      return Ok(());
    }

    /** Releases the pinned tail slot without moving past it, after a chunk that cannot be used. */
    method ReleaseTail()
      requires Shaped()
      modifies region.slots, region.storage.data
      ensures Shaped()
      ensures region.View() == if old(region.View())[tail].state == Pinned then old(region.View())[tail := FREE_VIEW]
                               else old(region.View())
    {
      hide Shape, Window, FreeOutside, Wrap, Sendable, MessageFrames, AllSendable, QueueSlots;
      ghost var view := region.View();
      var released := region.ReleasePinned(tail);
      if released.Ok? {
        Front(view, head, tail, len, FREE_VIEW);
      }
    }

    /** Reads one later chunk out of the tail slot. */
    method RecvChunk(seqNo: u64, expected: ChunkInfo, ghost genuine: bool, ghost m: Message, ghost rest: seq<SlotView>)
      returns (r: Result<seq<byte>>)
      requires Shaped()
      requires genuine ==>
                 && Sendable(config, m)
                 && Chunks(config, m, expected.index, Committed, Contents(), rest)
                 && expected.index < |MessageFrames(config, m)| && |MessageFrames(config, m)| > 1
                 && seqNo == m.seqNo
                 && expected == ChunkInfo(expected.index, |MessageFrames(config, m)|, |m.payload|)
      modifies `tail, `len, region.slots, region.storage.data
      ensures Shaped()
      ensures genuine ==>
                && r.Ok?
                && Prefix(config, m, expected.index) + r.value == Prefix(config, m, expected.index + 1)
                && Chunks(config, m, expected.index + 1, Committed, Contents(), rest)
    {
      hide Shape, Window, FreeOutside, Wrap, Sendable, MessageFrames, AllSendable, QueueSlots, Chunks, DecodeFrame,
           ValidateChunk, Prefix;
      if genuine {
        LaterFrame(config, m, expected.index);
        ChunksPinned(config, m, expected.index, Contents(), rest);
        ChunksNext(config, m, expected.index, Pinned, Contents()[0 := Contents()[0].(state := Pinned)], rest);
      }
      ShapeBounds(region.View(), head, tail, len);
      ghost var view := region.View();
      var read := region.ReadCommitted(tail);
      if read.Err? {
        return Err(read.error);
      }
      Front(view, head, tail, len, view[tail].(state := Pinned));
      var snapshot := read.value;
      if snapshot.seqNo != seqNo {
        ReleaseTail();
        return Err(Channel(SequenceMismatch(seqNo, snapshot.seqNo)));
      }
      var frame := DecodeFrame(snapshot.data);
      if frame.Err? {
        ReleaseTail();
        return Err(frame.error);
      }
      var valid := ValidateChunk(frame.value, seqNo, expected);
      if valid.Err? {
        ReleaseTail();
        return Err(valid.error);
      }
      var advanced := AdvanceTailAfterRead();
      if advanced.Err? {
        return Err(advanced.error);
      }
      return Ok(frame.value.payload);
    }

    /** `recv_chunked_message`. */
    method RecvChunkedMessage(
      seqNo: u64, first: Frame, ghost genuine: bool, ghost m: Message, ghost rest: seq<SlotView>)
      returns (r: Result<seq<byte>>)
      requires Shaped()
      requires genuine ==> StartsChunked(config, seqNo, first, m, Contents(), rest)
      modifies `tail, `len, region.slots, region.storage.data
      ensures Shaped()
      ensures genuine ==> r == Ok(m.payload) && Contents() == rest
    {
      hide Shape, Window, FreeOutside, Wrap, Sendable, MessageFrames, AllSendable, QueueSlots, Chunks, ChunkInfoOf,
           Prefix;
      var info := ChunkInfoOf(first);
      if info.Err? {
        ReleaseTail();
        return Err(info.error);
      }
      if info.value.index != 0 {
        ReleaseTail();
        return Err(Channel(CorruptedMessage));
      }
      TotalIsPositive(first);
      if genuine {
        ChunksHead(config, m, 0, Pinned, Contents(), rest);
        ChunksNext(config, m, 0, Pinned, Contents(), rest);
      }
      var payload := first.payload;
      var advanced := AdvanceTailAfterRead();
      if advanced.Err? {
        return Err(advanced.error);
      }
      for index := 1 to info.value.total
        invariant Shaped()
        invariant genuine ==> Sendable(config, m) && |MessageFrames(config, m)| == info.value.total > 1
        invariant genuine ==> Chunks(config, m, index, Committed, Contents(), rest)
        invariant genuine ==> payload == Prefix(config, m, index)
      {
        var part := RecvChunk(seqNo, ChunkInfo(index, info.value.total, info.value.messageLen), genuine, m, rest);
        if part.Err? {
          return Err(part.error);
        }
        payload := payload + part.value;
      }
      if genuine {
        ChunksEnd(config, m, info.value.total, Committed, Contents(), rest);
      }
      if |payload| != info.value.messageLen {
        return Err(Channel(CorruptedMessage));
      }
      return Ok(payload);
    }

    /** The payload of the message whose checked first frame is pinned at the tail. */
    method RecvPayload(seqNo: u64, first: Frame, ghost genuine: bool, ghost m: Message, ghost rest: seq<SlotView>)
      returns (r: Result<seq<byte>>)
      requires Shaped()
      requires genuine ==> StartsMessage(config, seqNo, first, m, Contents(), rest)
      modifies `tail, `len, region.slots, region.storage.data
      ensures Shaped()
      ensures genuine ==> r == Ok(m.payload) && Contents() == rest
    {
      hide Shape, Window, FreeOutside, Wrap, Sendable, MessageFrames, AllSendable, QueueSlots, Chunks, ChunkInfoOf,
           Prefix, IsChunked;
      if IsChunked(first) {
        r := RecvChunkedMessage(seqNo, first, genuine, m, rest);
      } else {
        if genuine {
          ChunksHead(config, m, 0, Pinned, Contents(), rest);
          ChunksNext(config, m, 0, Pinned, Contents(), rest);
          ChunksEnd(config, m, 1, Committed, Contents()[1..], rest);
        }
        var advanced := AdvanceTailAfterRead();
        if advanced.Err? {
          return Err(advanced.error);
        }
        return Ok(first.payload);
      }
    }

    /** `recv_with_seq`. */
    method RecvWithSeq() returns (r: Result<Message>)
      requires Shaped()
      modifies `tail, `len, `expectedRecvSeq, `lastReceivedSeq, `queue, region.slots, region.storage.data
      ensures Shaped()
      ensures old(Valid()) ==> Valid() && Receives(old(State()), r, State())
    {
      hide Shape, Window, FreeOutside, Wrap, Sendable, MessageFrames, AllSendable, QueueSlots, Represents,
           MessageSlots, CheckFirst, Chunks, StartsMessage, Drop, RestOf, NextSeq;
      ghost var before := State();
      ghost var window := Contents();
      ghost var genuine := Valid() && queue != [];
      if Valid() {
        RepresentsTotal(config, window, before);
      }
      if len == 0 {
        return Err(Channel(if closed then Closed else BufferEmpty));
      }
      if genuine {
        FrontMessage(config, window, before);
      }
      ghost var m := if genuine then queue[0] else Message(0, []);
      ghost var rest := if genuine then RestOf(config, window, m) else [];
      ShapeBounds(region.View(), head, tail, len);
      ghost var view := region.View();
      var read := region.ReadCommitted(tail);
      if read.Err? {
        return Err(read.error);
      }
      Front(view, head, tail, len, view[tail].(state := Pinned));
      var snapshot := read.value;
      if snapshot.seqNo != expectedRecvSeq {
        return Err(Channel(SequenceMismatch(expectedRecvSeq, snapshot.seqNo)));
      }
      var checked := CheckFirst(snapshot.seqNo, snapshot.data);
      if checked.Err? {
        var advanced := AdvanceTailAfterRead();
        expectedRecvSeq := NextSeq(expectedRecvSeq);
        return Err(checked.error);
      }
      var payload := RecvPayload(snapshot.seqNo, checked.value, genuine, m, rest);
      if payload.Err? {
        return Err(payload.error);
      }
      expectedRecvSeq := NextSeq(expectedRecvSeq);
      lastReceivedSeq := Some(snapshot.seqNo);
      queue := if queue == [] then [] else queue[1..];
      if genuine {
        ReceivedState(config, rest, before, State());
      }
      return Ok(Message(snapshot.seqNo, payload.value));
    }
  }

  lemma ReceivedState(config: Config, rest: seq<SlotView>, before: Fifo, after: Fifo)
    requires before.queue != []
    requires Represents(config, rest, Drop(before, 1))
    requires after == before.(queue := before.queue[1..], expected := NextSeq(before.expected),
                              lastReceived := Some(before.queue[0].seqNo))
    ensures after == Drop(before, 1).(lastReceived := Some(before.queue[0].seqNo))
    ensures Represents(config, rest, after)
  {
    hide Sendable, QueueSlots;
  }

  lemma ChunksHead(
    config: Config, m: Message, index: nat, first: SlotState, window: seq<SlotView>, rest: seq<SlotView>)
    requires Chunks(config, m, index, first, window, rest)
    requires index < |MessageFrames(config, m)|
    ensures window != [] && window[0] == SlotView(first, m.seqNo, MessageFrames(config, m)[index])
  {
    hide Sendable, MessageFrames;
  }

  lemma ChunksEnd(
    config: Config, m: Message, index: nat, first: SlotState, window: seq<SlotView>, rest: seq<SlotView>)
    requires Chunks(config, m, index, first, window, rest)
    requires index == |MessageFrames(config, m)|
    ensures window == rest && Prefix(config, m, index) == m.payload
  {
    hide Sendable, MessageFrames;
  }

  lemma NumberedClosed(f: Fifo)
    ensures Numbered(f) ==> Numbered(f.(closed := true))
  {
  }

  lemma MessageSlotAt(config: Config, m: Message, k: nat)
    requires Sendable(config, m) && k < |MessageFrames(config, m)|
    ensures MessageSlots(config, m)[k] == SlotView(Committed, m.seqNo, MessageFrames(config, m)[k])
  {
    hide Sendable, MessageFrames;
  }

  lemma SendRefused(config: Config, before: Fifo, bytes: seq<byte>, r: Result<()>)
    requires |bytes| <= USIZE_MAX
    requires before.closed || PlanFor(config, |bytes|).Err?
    requires r == if before.closed then Err(Channel(Closed)) else Err(PlanFor(config, |bytes|).error)
    ensures AllSendable(config, before.queue) ==> Sends(config, before, bytes, r, before)
  {
    hide Sendable, PlanFor;
  }

  lemma PlanFits(config: Config, m: Message)
    requires config.Valid() && |m.payload| <= USIZE_MAX && PlanFor(config, |m.payload|).Ok?
    ensures Sendable(config, m)
    ensures Plan(config, m) == PlanFor(config, |m.payload|).value
    ensures 1 <= Plan(config, m).neededSlots <= config.capacity
    ensures |MessageFrames(config, m)| == Plan(config, m).neededSlots
  {
  }

  lemma AllQueued(config: Config, window: seq<SlotView>, f: Fifo)
    requires Represents(config, window, f)
    ensures AllSendable(config, f.queue)
  {
    hide Sendable, QueueSlots;
  }

  /** While there is too little room, the queue is not empty and one more message has to go. */
  lemma MustDrop(config: Config, window: seq<SlotView>, f: Fifo, g: Fifo, needed: nat, d: nat)
    requires d <= |f.queue| && g == Drop(f, d)
    requires Represents(config, window, g)
    requires needed <= config.capacity < |window| + needed
    ensures g.queue != [] && d + 1 <= |f.queue|
    ensures TooFew(config, f.queue, needed, d + 1)
    ensures Drop(g, 1) == Drop(f, d + 1)
  {
    hide Sendable, QueueSlots;
    RepresentsTotal(config, window, g);
    DropMore(f, d);
  }

  lemma TotalIsPositive(frame: Frame)
    requires ChunkInfoOf(frame).Ok?
    ensures ChunkInfoOf(frame).value.total > 0
  {
  }

  lemma DropMore(f: Fifo, d: nat)
    requires d < |f.queue|
    ensures Drop(Drop(f, d), 1) == Drop(f, d + 1)
  {
    ModShift(f.expected + d, 1);
  }
}
