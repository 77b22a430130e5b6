/** Any number of one-slot messages sent and received in turn on a single-producer ring. */
module RingRounds {
  import opened Bytes
  import opened Errors
  import opened Chunking
  import opened ChunkingProofs
  import opened Cursors
  import opened Ring
  import opened RingInvariant
  import opened RingConsumer
  import opened RingReceive
  import opened RingTheorems
  import opened RingGrace

  /** `sent` messages were sent and `received` of them received; nobody is in a call and nothing is viewed. */
  ghost predicate AtRest(config: Config, s: State, sent: nat, received: nat) {
    && ReachableBy(config, false, s)
    && 0 in s.producers && s.producers[0].alive && s.producers[0].pc.Idle?
    && s.consumer.pc.Resting? && s.pins == {}
    && s.head == |s.cells| == sent && s.tail == received
  }

  lemma RestFacts(config: Config, s: State, sent: nat, received: nat)
    requires AtRest(config, s, sent, received)
    ensures Reachable(config, s) && Inv(config, s) && config.capacity == |s.slots| > 0
    ensures s.floor.None?
    ensures sent == received ==> s.done == |s.log|
  {
    hide Inv, Parts, Reachable, ReachableBy, Sendable, MessageFrames, LogOk;
    ByInv(config, false, s);
    InvFloor(config, s);
    InvConsumer(config, s);
    InvMessages(config, s);
    if s.done < |s.log| {
      LogEnds(config, s.log, |s.cells|, s.done);
    }
  }

  lemma LogEnds(config: Config, log: seq<Entry>, frontier: nat, i: nat)
    requires LogOk(config, log, frontier) && i < |log|
    ensures log[i].start < frontier
  {
    hide Sendable, MessageFrames;
  }

  lemma EmptyIsOneSlot(config: Config, seqNo: u64)
    requires ConfigOk(config)
    ensures Sendable(config, Message(seqNo, [])) && |MessageFrames(config, Message(seqNo, []))| == 1
  {
    OneFrame(config, Message(seqNo, []));
  }

  // ---- One send ----

  /** Producer 0 is writing the one slot of its newest reservation, at phase `phase`. */
  ghost predicate Sending(config: Config, s: State, n: nat, phase: Phase) {
    && ReachableBy(config, false, s)
    && 0 in s.producers && s.producers[0].alive
    && s.log != [] && s.producers[0].pc == WriteSlot(|s.log| - 1, 0, phase)
    && s.consumer.pc.Resting? && s.pins == {}
    && s.head == n && |s.cells| == n + 1 && s.tail == n
    && var e := s.log[|s.log| - 1];
       e.start == n && Sendable(config, e.message) && |MessageFrames(config, e.message)| == 1
  }

  lemma Loads(config: Config, s: State, n: nat) returns (t: State)
    requires !config.multiProducer && AtRest(config, s, n, n)
    ensures ReachableBy(config, false, t) && config.capacity == |t.slots| > 0
    ensures 0 in s.producers && 0 in t.producers
    ensures t.producers[0] == s.producers[0].(pc := Reserve([], n, n, None))
    ensures t == s.(producers := t.producers)
  {
    hide ReachableBy, Reachable, Inv, MessageFrames, TryReserve, WriteStep, ConsumerStep;
    RestFacts(config, s, n, n);
    ConfigHolds(config, s);
    EmptyIsOneSlot(config, 0);
    hide Sendable;
    t := Go(config, false, s, BeginSend(0, []));
    t := Go(config, false, t, Produce(0, false));
    t := Go(config, false, t, Produce(0, false));
    t := Go(config, false, t, Produce(0, false));
  }

  lemma ConfigHolds(config: Config, s: State)
    requires Inv(config, s)
    ensures ConfigOk(config)
  {
  }

  lemma Reserves(config: Config, s: State, n: nat) returns (t: State)
    requires !config.multiProducer && AtRest(config, s, n, n)
    ensures Sending(config, t, n, Check)
  {
    hide ReachableBy, Reachable, Inv, MessageFrames, Sendable, WriteStep, ConsumerStep;
    RestFacts(config, s, n, n);
    ConfigHolds(config, s);
    t := Loads(config, s, n);
    EmptyIsOneSlot(config, t.producers[0].nextSeq);
    t := Go(config, false, t, Produce(0, false));
  }

  /** One step of writing the slot. */
  lemma Writes(config: Config, s: State, n: nat, phase: Phase) returns (t: State)
    requires !config.multiProducer && Sending(config, s, n, phase)
    ensures config.capacity == |s.slots| > 0 && t == Apply(config, s, Produce(0, false))
    ensures match phase
            case Check => Sending(config, t, n, Mark)
            case Mark => Sending(config, t, n, Fill)
            case Fill => Sending(config, t, n, Commit)
            case Commit =>
              && ReachableBy(config, false, t) && 0 in t.producers && t.producers[0].alive
              && t.producers[0].pc == StoreHead(|s.log| - 1)
              && t == s.(slots := t.slots, cells := t.cells, producers := t.producers) && |t.cells| == |s.cells|
  {
    hide ReachableBy, Reachable, Inv, MessageFrames, Sendable, ConsumerStep, TryReserve, Idx;
    ByInv(config, false, s);
    if phase.Check? {
      FirstWriteFindsFree(config, s, 0, false);
    }
    t := Go(config, false, s, Produce(0, false));
  }

  /** One message is sent. */
  lemma SendsOne(config: Config, s: State, n: nat) returns (t: State)
    requires !config.multiProducer && AtRest(config, s, n, n)
    ensures AtRest(config, t, n + 1, n)
  {
    hide ReachableBy, Reachable, Inv, MessageFrames, Sendable, ConsumerStep, TryReserve, WriteStep, Idx;
    t := Reserves(config, s, n);
    t := Writes(config, t, n, Check);
    t := Writes(config, t, n, Mark);
    t := Writes(config, t, n, Fill);
    t := Writes(config, t, n, Commit);
    t := Go(config, false, t, Produce(0, false));
  }

  // ---- One receive ----

  /** The consumer has read the frame at the tail. */
  lemma Reads(config: Config, s: State, n: nat) returns (t: State)
    requires !config.multiProducer && AtRest(config, s, n + 1, n)
    ensures ReachableBy(config, false, t) && config.capacity == |t.slots| > 0
    ensures t == s.(consumer := t.consumer)
    ensures t.consumer.pc.PinSlot? && t.consumer.pc.progress.First? && t.consumer.tailSeen == n
  {
    hide ReachableBy, Reachable, Inv, MessageFrames, Sendable, ProducerStep, ViewStep, ReclaimStep, Idx;
    RestFacts(config, s, n + 1, n);
    SingleProducerGate(config, s);
    t := Go(config, false, s, BeginReceive(Copy));
    t := Go(config, false, t, Consume);
    t := Go(config, false, t, Consume);
    t := Go(config, false, t, Consume);
    t := Go(config, false, t, Consume);
    t := Go(config, false, t, Consume);
  }

  /** The consumer has the tail slot pinned, and has its message complete. */
  lemma Pins(config: Config, s: State, n: nat) returns (t: State)
    requires !config.multiProducer && AtRest(config, s, n + 1, n)
    ensures ReachableBy(config, false, t) && config.capacity == |t.slots| > 0
    ensures t == s.(slots := t.slots, consumer := t.consumer)
    ensures t.consumer.pc.ClearSlot? && t.consumer.pc.after.Deliver? && t.consumer.tailSeen == n
  {
    hide ReachableBy, Reachable, Inv, MessageFrames, Sendable, ProducerStep, ViewStep, ReclaimStep, RefreshStep,
         GateStep, Digest, Idx, ReadingOk, AfterOk;
    t := Reads(config, s, n);
    ByInv(config, false, t);
    PinSlotFacts(config, t);
    LastSlot(config, t);
    t := Go(config, false, t, Consume);
  }

  /** With a single claimed slot from the tail on, the message at the tail has one slot. */
  lemma LastSlot(config: Config, s: State)
    requires Inv(config, s)
    requires s.consumer.pc.PinSlot? && s.consumer.pc.progress.First?
    requires |s.cells| == s.tail + 1
    ensures s.done < |s.log| && Sendable(config, s.log[s.done].message)
    ensures AfterSlot(config, s.log[s.done].message, 0).Deliver?
  {
    hide Inv, Parts, MessageFrames, Sendable;
    InvConsumer(config, s);
    InvMessages(config, s);
  }

  /** One message is received. */
  lemma ReceivesOne(config: Config, s: State, n: nat) returns (t: State)
    requires !config.multiProducer && AtRest(config, s, n + 1, n)
    ensures AtRest(config, t, n + 1, n + 1)
  {
    hide ReachableBy, Reachable, Inv, MessageFrames, Sendable, ProducerStep, ViewStep, ReclaimStep, RefreshStep,
         GateStep, Digest, Idx;
    t := Pins(config, s, n);
    t := Go(config, false, t, Consume);
    t := Go(config, false, t, Consume);
    t := Go(config, false, t, Consume);
  }

  /** Any number of messages can be sent and received in turn. */
  lemma {:induction false} Rounds(config: Config, n: nat) returns (s: State)
    requires ConfigOk(config) && !config.multiProducer
    ensures AtRest(config, s, n, n)
  {
    hide ReachableBy;
    if n == 0 {
      s := State.State(0, 0, None, seq(config.capacity, _ => EMPTY_SLOT), map[0 := Producer(true, 0, Idle)],
                       Consumer(0, false, 0, 0, Resting), [], [], {}, 0, []);
      FreshReachable(config, false, s);
    } else {
      s := Rounds(config, n - 1);
      s := SendsOne(config, s, n - 1);
      s := ReceivesOne(config, s, n - 1);
    }
  }
}
