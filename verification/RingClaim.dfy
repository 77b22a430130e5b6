/** A reservation that wins keeps the ring invariant: it fits behind the tail and the live pins. */
module RingClaim {
  import opened Bytes
  import opened Chunking
  import opened ChunkingProofs
  import opened SlotStates
  import opened Cursors
  import opened Ring
  import opened RingInvariant
  import opened RingProducer

  /** Appending a reservation and its cells. */
  ghost predicate Extends(
    config: Config, log: seq<Entry>, cells: seq<Cell>, log': seq<Entry>, cells': seq<Cell>, e: Entry)
  {
    && Sendable(config, e.message)
    && log' == log + [e]
    && e.start == |cells| && !e.dead
    && cells' == cells + NewCells(|log|, Len(config, e))
  }

  lemma ExtendKeepsLog(
    config: Config, log: seq<Entry>, cells: seq<Cell>, log': seq<Entry>, cells': seq<Cell>, e: Entry)
    requires LogOk(config, log, |cells|)
    requires Extends(config, log, cells, log', cells', e)
    ensures LogOk(config, log', |cells'|)
  {
    hide Sendable, MessageFrames;
    forall i | 0 <= i < |log'|
      ensures log'[i].start + Len(config, log'[i]) == StartOf(log', |cells'|, i + 1)
    {
      if i < |log| {
        assert log'[i] == log[i];
        assert log[i].start + Len(config, log[i]) == StartOf(log, |cells|, i + 1);
      }
    }
  }

  lemma ExtendKeepsCells(
    config: Config, log: seq<Entry>, cells: seq<Cell>, log': seq<Entry>, cells': seq<Cell>, e: Entry)
    requires LogOk(config, log, |cells|)
    requires CellsOk(config, log, cells)
    requires Extends(config, log, cells, log', cells', e)
    ensures CellsOk(config, log', cells')
  {
    hide Sendable, MessageFrames;
    forall c | 0 <= c < |cells'|
      ensures CellOk(config, log', cells', c)
    {
      if c < |cells| {
        assert CellOk(config, log, cells, c);
        assert cells'[c] == cells[c];
      } else {
        assert cells'[c] == Cell(|log|, c - |cells|, Reserved);
      }
    }
  }

  lemma ExtendKeepsSlot(
    config: Config, log: seq<Entry>, cells: seq<Cell>, log': seq<Entry>, cells': seq<Cell>, e: Entry,
    tail: nat, pins: set<nat>, hold: Hold, c: int, slot: Slot)
    requires Extends(config, log, cells, log', cells', e)
    requires SlotOk(config, log, cells, tail, pins, hold, c, slot)
    requires c < |cells|
    ensures SlotOk(config, log', cells', tail, pins, hold, c, slot)
  {
    hide Sendable, MessageFrames;
    if 0 <= c && CellOk(config, log, cells, c) {
      assert cells'[c] == cells[c];
      assert log'[cells[c].entry] == log[cells[c].entry];
      assert CellOk(config, log', cells', c);
      assert MessageAt(config, log, cells, c) == MessageAt(config, log', cells', c);
      assert FrameAtCursor(config, log, cells, c) == FrameAtCursor(config, log', cells', c);
    }
  }

  /** A newly claimed cursor finds the slot of the previous lap free. */
  lemma NewSlotOk(
    config: Config, log: seq<Entry>, cells: seq<Cell>, log': seq<Entry>, cells': seq<Cell>, e: Entry,
    tail: nat, pins: set<nat>, hold: Hold, c: nat, slot: Slot)
    requires Extends(config, log, cells, log', cells', e)
    requires |cells| <= c < |cells'| <= tail + config.capacity
    requires tail <= |cells|
    requires c - config.capacity !in pins
    requires SlotOk(config, log, cells, tail, pins, hold, c - config.capacity, slot)
    ensures slot.state == Free
    ensures SlotOk(config, log', cells', tail, pins, hold, c, slot)
  {
    hide Sendable, MessageFrames;
    assert cells'[c] == Cell(|log|, c - |cells|, Reserved);
  }

  lemma ExtendKeepsSlots(
    config: Config, slots: seq<Slot>, log: seq<Entry>, cells: seq<Cell>, log': seq<Entry>, cells': seq<Cell>, e: Entry,
    tail: nat, pins: set<nat>, hold: Hold)
    requires Extends(config, log, cells, log', cells', e)
    requires SlotsOk(config, slots, log, cells, tail, pins, hold)
    requires tail <= |cells|
    requires |cells'| <= tail + config.capacity
    requires forall c :: c in pins ==> |cells'| - config.capacity <= c
    ensures SlotsOk(config, slots, log', cells', tail, pins, hold)
  {
    hide Sendable, MessageFrames, SlotOk, Idx;
    var n := config.capacity;
    forall c | |cells'| - n <= c < |cells'|
      ensures SlotOk(config, log', cells', tail, pins, hold, c, slots[Idx(c, n)])
    {
      if c < |cells| {
        ExtendKeepsSlot(config, log, cells, log', cells', e, tail, pins, hold, c, slots[Idx(c, n)]);
      } else {
        IdxLap(c - n, n);
        NewSlotOk(config, log, cells, log', cells', e, tail, pins, hold, c, slots[Idx(c - n, n)]);
      }
    }
  }

  lemma ExtendKeepsProducer(
    config: Config, log: seq<Entry>, cells: seq<Cell>, log': seq<Entry>, cells': seq<Cell>, e: Entry,
    head: nat, head': nat, tail: nat, pins: set<nat>, q: nat, producer: Producer)
    requires Extends(config, log, cells, log', cells', e)
    requires config.multiProducer
    requires ProducerOk(config, log, cells, head, tail, pins, q, producer)
    ensures ProducerOk(config, log', cells', head', tail, pins, q, producer)
  {
    hide Sendable, MessageFrames, StageAt;
    if producer.pc.WriteSlot? {
      assert log'[producer.pc.entry] == log[producer.pc.entry];
    }
  }

  /** What the consumer knows about the reservation it stands in only looks at that reservation. */
  lemma ExtendKeepsCurrent(config: Config, log: seq<Entry>, log': seq<Entry>, done: nat, tail: nat)
    requires log <= log'
    ensures CurrentOk(config, log, done) ==> done < |log| && CurrentOk(config, log', done)
    ensures forall progress :: ReadingOk(config, log, done, tail, progress) ==>
              done < |log| && ReadingOk(config, log', done, tail, progress)
    ensures forall after :: AfterOk(config, log, done, tail, after) ==>
              done < |log| && AfterOk(config, log', done, tail, after)
  {
    hide Sendable, MessageFrames, ProgressOk, Index;
  }

  lemma ExtendKeepsReclaiming(
    config: Config, log: seq<Entry>, cells: seq<Cell>, log': seq<Entry>, cells': seq<Cell>,
    done: nat, tail: nat, extent: nat, freed: nat)
    requires log <= log' && cells <= cells'
    requires ReclaimingOk(config, log, cells, done, tail, extent, freed)
    ensures ReclaimingOk(config, log', cells', done, tail, extent, freed)
  {
    hide Sendable, MessageFrames;
  }

  lemma ExtendKeepsConsumer(
    config: Config, log: seq<Entry>, cells: seq<Cell>, log': seq<Entry>, cells': seq<Cell>, e: Entry,
    c: Consumer, producers: map<nat, Producer>, producers': map<nat, Producer>, tail: nat, done: nat)
    requires Extends(config, log, cells, log', cells', e)
    requires ConsumerOk(config, c, log, cells, producers, tail, done)
    requires forall p :: p in producers && !producers[p].alive ==> p in producers' && producers'[p] == producers[p]
    ensures ConsumerOk(config, c, log', cells', producers', tail, done)
  {
    hide Sendable, MessageFrames, Consistent, Index, ReclaimingOk, ReadingOk, AfterOk, CurrentOk;
    assert StartOf(log', |cells'|, done) == StartOf(log, |cells|, done);
    assert tail < |cells| ==> cells'[tail] == cells[tail];
    if c.pc.ReclaimFree? {
      ExtendKeepsReclaiming(config, log, cells, log', cells', done, tail, c.pc.extent, c.pc.j);
    } else if c.pc.ReclaimCas? {
      ExtendKeepsReclaiming(config, log, cells, log', cells', done, tail, c.pc.extent, c.pc.extent);
    } else {
      assert done < |log| ==> log'[done] == log[done];
      ExtendKeepsCurrent(config, log, log', done, tail);
    }
  }

  lemma {:induction false} LivePrefix(log: seq<Entry>, more: seq<Entry>, n: nat)
    requires n <= |log|
    ensures LiveMessages(log + more, n) == LiveMessages(log, n)
  {
    if n > 0 {
      LivePrefix(log, more, n - 1);
      assert (log + more)[n - 1] == log[n - 1];
    }
  }

  lemma ExtendKeepsDelivered(
    config: Config, log: seq<Entry>, cells: seq<Cell>, log': seq<Entry>, cells': seq<Cell>, e: Entry,
    done: nat, delivered: seq<Message>, reclaiming: bool)
    requires Extends(config, log, cells, log', cells', e)
    requires DeliveredOk(config, log, done, delivered, reclaiming)
    requires !config.multiProducer ==> e.message.seqNo == |log| % U64_RANGE
    ensures DeliveredOk(config, log', done, delivered, reclaiming)
  {
    hide Sendable, MessageFrames;
    LivePrefix(log, [e], done);
  }

  lemma ClaimFacts(config: Config, s: State, p: nat, m: Message)
    requires Inv(config, s)
    requires p in s.producers && s.producers[p].alive && s.producers[p].pc.Reserve?
    requires m == Message(s.producers[p].nextSeq, s.producers[p].pc.bytes) && Sendable(config, m)
    requires var pc := s.producers[p].pc;
             && config.capacity - GuardLen(config, pc.head, pc.tail, pc.floor, 0) >= |MessageFrames(config, m)|
             && (config.multiProducer ==> s.head == pc.head)
    ensures var n := |MessageFrames(config, m)|;
            && |s.cells| + n <= s.tail + config.capacity
            && s.tail <= |s.cells|
            && (forall c :: c in s.pins ==> |s.cells| + n <= c + config.capacity)
            && (!config.multiProducer ==> s.head == |s.cells| && m.seqNo == |s.log| % U64_RANGE)
            && (config.multiProducer ==> s.head == |s.cells|)
  {
    hide Inv, Parts, MessageFrames, Sendable, GuardLen, Limit;
    var pc := s.producers[p].pc;
    GuardFits(config, pc.head, pc.tail, pc.floor, 0, |MessageFrames(config, m)|);
    LimitBelowTail(pc.tail, pc.floor);
    InvProducer(config, s, p);
    InvCursors(config, s);
  }

  lemma InvCursors(config: Config, s: State)
    requires Inv(config, s)
    ensures CursorsOk(config, s.head, s.tail, |s.cells|)
  {
    hide ProducerOk, SlotsOk, LogOk, CellsOk, FloorOk, ConsumerOk, DeliveredOk, ProducersOk, OwnedOk, HeadOk, CursorsOk;
  }

  lemma ClaimKeeps(config: Config, s: State, p: nat, m: Message)
    requires Inv(config, s)
    requires p in s.producers && s.producers[p].alive && s.producers[p].pc.Reserve?
    requires m == Message(s.producers[p].nextSeq, s.producers[p].pc.bytes) && Sendable(config, m)
    requires var pc := s.producers[p].pc;
             && config.capacity - GuardLen(config, pc.head, pc.tail, pc.floor, 0) >= |MessageFrames(config, m)|
             && (config.multiProducer ==> s.head == pc.head)
    ensures Inv(config, Claim(config, s, p, m))
  {
    hide Sendable, MessageFrames, SlotsOk, LogOk, CellsOk, ConsumerOk, DeliveredOk, GuardLen, FloorOk,
         ProducersOk, OwnedOk, HoldOf, HeadOk, CursorsOk, PinsOk, ConsumedOk, OneProducer, ProducerOk;
    var t := Claim(config, s, p, m);
    var e := Entry(|s.cells|, m, p, false);
    ClaimFacts(config, s, p, m);
    assert Extends(config, s.log, s.cells, t.log, t.cells, e);
    ClaimKeepsHistory(config, s, t, e);
    ClaimKeepsProducers(config, s, p, m);
    assert OwnedOk(t.producers, t.log, t.cells) by {
      ClaimEntries(config, s);
      ClaimKeepsOwned(config, s, p, m);
    }
    ClaimKeepsWords(config, s, p, m);
  }

  lemma ClaimEntries(config: Config, s: State)
    requires CellsOk(config, s.log, s.cells)
    ensures forall c :: 0 <= c < |s.cells| ==> s.cells[c].entry < |s.log|
  {
    hide Sendable, MessageFrames;
    forall c | 0 <= c < |s.cells|
      ensures s.cells[c].entry < |s.log|
    {
      assert CellOk(config, s.log, s.cells, c);
    }
  }

  /** The history and the slots after a claim. */
  lemma ClaimKeepsHistory(config: Config, s: State, t: State, e: Entry)
    requires Inv(config, s)
    requires Extends(config, s.log, s.cells, t.log, t.cells, e)
    requires t.slots == s.slots && t.tail == s.tail && t.pins == s.pins && t.consumer == s.consumer
    requires t.done == s.done && t.delivered == s.delivered
    requires |t.cells| <= s.tail + config.capacity && s.tail <= |s.cells|
    requires forall c :: c in s.pins ==> |t.cells| <= c + config.capacity
    requires forall p :: p in s.producers && !s.producers[p].alive ==>
        p in t.producers && t.producers[p] == s.producers[p]
    requires !config.multiProducer ==> e.message.seqNo == |s.log| % U64_RANGE
    ensures LogOk(config, t.log, |t.cells|)
    ensures CellsOk(config, t.log, t.cells)
    ensures SlotsOk(config, t.slots, t.log, t.cells, t.tail, t.pins, HoldOf(t.consumer.pc))
    ensures ConsumerOk(config, t.consumer, t.log, t.cells, t.producers, t.tail, t.done)
    ensures DeliveredOk(config, t.log, t.done, t.delivered, Reclaiming(t.consumer.pc))
  {
    hide Sendable, MessageFrames, SlotsOk, LogOk, CellsOk, ConsumerOk, DeliveredOk, FloorOk, ProducersOk, OwnedOk,
         HoldOf, HeadOk, CursorsOk, PinsOk, ConsumedOk, OneProducer, ProducerOk, Extends;
    ExtendKeepsLog(config, s.log, s.cells, t.log, t.cells, e);
    ExtendKeepsCells(config, s.log, s.cells, t.log, t.cells, e);
    ExtendKeepsSlots(config, s.slots, s.log, s.cells, t.log, t.cells, e, s.tail, s.pins, HoldOf(s.consumer.pc));
    ExtendKeepsConsumer(config, s.log, s.cells, t.log, t.cells, e, s.consumer, s.producers, t.producers, s.tail,
        s.done);
    ExtendKeepsDelivered(config, s.log, s.cells, t.log, t.cells, e, s.done, s.delivered, Reclaiming(s.consumer.pc));
  }

  lemma ClaimKeepsWords(config: Config, s: State, p: nat, m: Message)
    requires Inv(config, s)
    requires p in s.producers
    requires Sendable(config, m)
    requires var n := |MessageFrames(config, m)|;
             && |s.cells| + n <= s.tail + config.capacity
             && (forall c :: c in s.pins ==> |s.cells| + n <= c + config.capacity)
             && (!config.multiProducer ==> s.head == |s.cells|)
    ensures var t := Claim(config, s, p, m);
            && CursorsOk(config, t.head, t.tail, |t.cells|)
            && HeadOk(config, t.head, t.cells)
            && OneProducer(config, t.producers)
            && PinsOk(config, t.pins, t.tail, |t.cells|, t.consumer.pc)
            && ConsumedOk(t.log, t.cells, t.tail)
  {
    hide Sendable, MessageFrames, SlotsOk, LogOk, CellsOk, ConsumerOk, DeliveredOk, FloorOk, ProducersOk, OwnedOk;
    var t := Claim(config, s, p, m);
    assert forall c :: 0 <= c < |s.cells| ==> t.cells[c] == s.cells[c];
  }

  lemma ClaimKeepsOwned(config: Config, s: State, p: nat, m: Message)
    requires OwnedOk(s.producers, s.log, s.cells)
    requires Sendable(config, m)
    requires p in s.producers && !s.producers[p].pc.WriteSlot?
    requires forall c :: 0 <= c < |s.cells| ==> s.cells[c].entry < |s.log|
    ensures var t := Claim(config, s, p, m); OwnedOk(t.producers, t.log, t.cells)
  {
    hide Sendable, MessageFrames;
    var t := Claim(config, s, p, m);
    forall c | 0 <= c < |t.cells| && t.cells[c].stage != Done && t.cells[c].entry < |t.log|
               && !t.log[t.cells[c].entry].dead
      ensures var owner := t.log[t.cells[c].entry].owner;
              owner in t.producers && t.producers[owner].pc.WriteSlot?
              && t.producers[owner].pc.entry == t.cells[c].entry
    {
      if c < |s.cells| {
        assert t.cells[c] == s.cells[c];
        assert t.log[s.cells[c].entry] == s.log[s.cells[c].entry];
      } else {
        assert t.cells[c] == Cell(|s.log|, c - |s.cells|, Reserved);
      }
    }
  }

  lemma ClaimKeepsProducers(config: Config, s: State, p: nat, m: Message)
    requires Inv(config, s)
    requires p in s.producers && s.producers[p].alive && s.producers[p].pc.Reserve?
    requires m == Message(s.producers[p].nextSeq, s.producers[p].pc.bytes) && Sendable(config, m)
    requires !config.multiProducer ==> s.head == |s.cells| && m.seqNo == |s.log| % U64_RANGE
    ensures var t := Claim(config, s, p, m);
            ProducersOk(config, t.producers, t.log, t.cells, t.head, t.tail, t.pins)
  {
    hide Sendable, MessageFrames;
    var t := Claim(config, s, p, m);
    var e := Entry(|s.cells|, m, p, false);
    assert Extends(config, s.log, s.cells, t.log, t.cells, e) by {
      hide Inv, Parts;
    }
    assert OneProducer(config, s.producers) by {
      hide SlotsOk, LogOk, CellsOk, FloorOk, ConsumerOk, DeliveredOk, ProducersOk, OwnedOk;
    }
    forall q | q in t.producers
      ensures ProducerOk(config, t.log, t.cells, t.head, t.tail, t.pins, q, t.producers[q])
    {
      hide Inv, Parts;
      if q != p {
        InvProducer(config, s, q);
        hide ProducerOk;
        ExtendKeepsProducer(config, s.log, s.cells, t.log, t.cells, e, s.head, t.head, s.tail, s.pins, q,
            s.producers[q]);
      } else {
        NewReservationOk(config, s, p, m);
      }
    }
  }

  lemma NewReservationOk(config: Config, s: State, p: nat, m: Message)
    requires Sendable(config, m)
    requires p in s.producers && s.producers[p].alive
    requires !config.multiProducer ==> s.head == |s.cells| && m.seqNo == |s.log| % U64_RANGE
    ensures var t := Claim(config, s, p, m);
            ProducerOk(config, t.log, t.cells, t.head, t.tail, t.pins, p, t.producers[p])
  {
    hide Sendable, MessageFrames;
    var t := Claim(config, s, p, m);
    forall c | |s.cells| <= c < |t.cells|
      ensures t.cells[c].stage == Reserved
    {
      assert t.cells[c] == Cell(|s.log|, c - |s.cells|, Reserved);
    }
  }

  lemma TryReserveKeeps(config: Config, s: State, p: nat, retry: bool)
    requires Inv(config, s)
    requires p in s.producers && s.producers[p].alive && s.producers[p].pc.Reserve?
    ensures Inv(config, TryReserve(config, s, p, retry))
  {
    hide Inv, Parts, Sendable, MessageFrames, GuardLen, Claim;
    var producer := s.producers[p];
    var t := TryReserve(config, s, p, retry);
    var m := Message(producer.nextSeq, producer.pc.bytes);
    if t == SetProducer(s, p, Idle) {
      LocalKeepsFor(config, s, p, Idle);
    } else if t == SetProducer(s, p, LoadHead(producer.pc.bytes)) {
      LocalKeepsFor(config, s, p, LoadHead(producer.pc.bytes));
    } else {
      ClaimKeeps(config, s, p, m);
    }
  }

  /** A reservation attempt can always be given up or started over. */
  lemma LocalKeepsFor(config: Config, s: State, p: nat, pc: Sending)
    requires Inv(config, s)
    requires p in s.producers && s.producers[p].alive && s.producers[p].pc.Reserve?
    requires pc.Idle? || pc == LoadHead(s.producers[p].pc.bytes)
    ensures Inv(config, SetProducer(s, p, pc))
  {
    hide Inv, Parts, Sendable, MessageFrames;
    InvProducer(config, s, p);
    LocalKeeps(config, s, p, s.producers[p].(pc := pc));
  }

  /** Publishing the head of a single-producer batch. */
  lemma StoreHeadKeeps(config: Config, s: State, p: nat)
    requires Inv(config, s)
    requires p in s.producers && s.producers[p].alive && s.producers[p].pc.StoreHead?
    ensures |s.slots| == config.capacity > 0
    ensures Inv(config, ProducerStep(config, s, p, false))
  {
    hide Sendable, MessageFrames, SlotsOk, LogOk, CellsOk, ConsumerOk, DeliveredOk, FloorOk,
         ProducersOk, OwnedOk, HeadOk, CursorsOk, PinsOk, ConsumedOk, OneProducer, ProducerOk;
    SlotCount(config, s);
    var pc := s.producers[p].pc;
    var published := SetProducer(s, p, Idle).(head := |s.cells|);
    assert ProducerStep(config, s, p, false) == published by {
      hide Inv, Parts;
      InvProducer(config, s, p);
      PublishedHead(config, s, p);
    }
    assert HeadOk(config, published.head, published.cells)
        && CursorsOk(config, published.head, published.tail, |published.cells|)
        && OneProducer(config, published.producers)
        && ProducersOk(config, published.producers, published.log, published.cells, published.head, published.tail,
                       published.pins)
        && OwnedOk(published.producers, published.log, published.cells) by {
      PublishKeeps(config, s, p);
    }
    assert ConsumerOk(config, s.consumer, s.log, s.cells, published.producers, s.tail, s.done) by {
      PublishKeepsConsumer(config, s, p);
    }
  }

  lemma PublishedHead(config: Config, s: State, p: nat)
    requires p in s.producers && s.producers[p].pc.StoreHead?
    requires ProducerOk(config, s.log, s.cells, s.head, s.tail, s.pins, p, s.producers[p])
    ensures var e := s.producers[p].pc.entry;
            && e < |s.log| && Sendable(config, s.log[e].message)
            && s.log[e].start + |MessageFrames(config, s.log[e].message)| == |s.cells|
            && !config.multiProducer
            && (forall c :: 0 <= c < |s.cells| ==> s.cells[c].stage == Done)
            && s.producers[p].nextSeq == |s.log| % U64_RANGE
  {
    hide Sendable, MessageFrames;
  }

  lemma PublishKeeps(config: Config, s: State, p: nat)
    requires Inv(config, s)
    requires p in s.producers && s.producers[p].alive && s.producers[p].pc.StoreHead?
    ensures var published := SetProducer(s, p, Idle).(head := |s.cells|);
            && HeadOk(config, published.head, published.cells)
            && CursorsOk(config, published.head, published.tail, |published.cells|)
            && OneProducer(config, published.producers)
            && ProducersOk(config, published.producers, published.log, published.cells, published.head, published.tail,
                           published.pins)
            && OwnedOk(published.producers, published.log, published.cells)
  {
    hide Sendable, MessageFrames, SlotsOk, LogOk, CellsOk, ConsumerOk, DeliveredOk, FloorOk, PinsOk, ConsumedOk,
         ProducersOk;
    InvProducer(config, s, p);
    PublishedHead(config, s, p);
    var published := SetProducer(s, p, Idle).(head := |s.cells|);
    OnlyProducer(config, published, p);
  }

  /** In single-producer mode the one producer's state decides. */
  lemma OnlyProducer(config: Config, s: State, p: nat)
    requires !config.multiProducer && OneProducer(config, s.producers)
    requires p in s.producers
    requires ProducerOk(config, s.log, s.cells, s.head, s.tail, s.pins, p, s.producers[p])
    ensures ProducersOk(config, s.producers, s.log, s.cells, s.head, s.tail, s.pins)
  {
    hide ProducerOk;
  }

  lemma PublishKeepsConsumer(config: Config, s: State, p: nat)
    requires Inv(config, s)
    requires p in s.producers && s.producers[p].alive
    ensures ConsumerOk(config, s.consumer, s.log, s.cells, SetProducer(s, p, Idle).producers, s.tail, s.done)
  {
    hide Sendable, MessageFrames, SlotsOk, LogOk, CellsOk, DeliveredOk, FloorOk, PinsOk, ConsumedOk, ProducersOk,
         OwnedOk, HeadOk, CursorsOk, OneProducer, ReadingOk, AfterOk, ViewingOk, ReclaimingOk, CurrentOk;
  }

  /** Every step of a live producer keeps the invariant. */
  lemma ProducerStepKeeps(config: Config, s: State, p: nat, retry: bool)
    requires Inv(config, s)
    requires p in s.producers && s.producers[p].alive
    ensures |s.slots| == config.capacity > 0
    ensures Inv(config, ProducerStep(config, s, p, retry))
  {
    hide Inv, Parts, TryReserve, WriteStep, Sendable, MessageFrames;
    SlotCount(config, s);
    var pc := s.producers[p].pc;
    if pc.LoadHead? || pc.LoadTail? || pc.LoadFloor? {
      LoadKeeps(config, s, p, retry);
    } else if pc.Reserve? {
      TryReserveKeeps(config, s, p, retry);
    } else if pc.WriteSlot? {
      if pc.phase.Check? {
        CheckKeeps(config, s, p);
      } else {
        WriteStepKeeps(config, s, p);
      }
    } else if pc.StoreHead? {
      StoreHeadKeeps(config, s, p);
    }
  }
}
