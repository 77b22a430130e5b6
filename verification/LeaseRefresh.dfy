/**
 * When the cursors that a leasing producer loads are consistent, and when its next refresh fails with
 * "ring cursors are inconsistent".
 */
module LeaseRefresh {
  import opened Bytes
  import opened Errors
  import opened Chunking
  import opened SlotStates
  import opened Cursors
  import opened Lease
  import opened LeaseProofs
  import opened LeaseTheorems

  // ---- Runs under a policy ----

  /** The number of leases that are allocated and not yet published. */
  function Outstanding(s: State): int {
    |s.leases| - s.head
  }

  /** The policy: a new lease is asked for only while at most `most` leases are unpublished, if there is a limit. */
  predicate Follows(most: Option<nat>, s: State, step: Step) {
    step.Alloc? && s.producer.Resting? && most.Some? ==> Outstanding(s) <= most.value
  }

  ghost predicate RunFollows(config: Config, most: Option<nat>, s: State, run: seq<Step>)
    requires Shape(config, s)
    decreases |run|
  {
    run != [] ==> Follows(most, s, run[0]) && RunFollows(config, most, Apply(config, s, run[0]), run[1..])
  }

  ghost predicate ReachableUnder(config: Config, most: Option<nat>, s: State) {
    exists s0: State, run: seq<Step> ::
      Init(config, s0) && RunFollows(config, most, s0, run) && s == Exec(config, s0, run)
  }

  lemma UnderInv(config: Config, most: Option<nat>, s: State)
    requires ReachableUnder(config, most, s)
    ensures Reachable(config, s) && Shape(config, s) && Inv(config, s)
  {
    ReachableInv(config, s);
  }

  lemma {:induction false} ExecAppend(config: Config, most: Option<nat>, s: State, run: seq<Step>, step: Step)
    requires Shape(config, s)
    requires RunFollows(config, most, s, run) && Follows(most, Exec(config, s, run), step)
    ensures Exec(config, s, run + [step]) == Apply(config, Exec(config, s, run), step)
    ensures RunFollows(config, most, s, run + [step])
    decreases |run|
  {
    hide Apply, Follows;
    if run == [] {
      assert run + [step] == [step];
      assert Exec(config, s, [step]) == Exec(config, Apply(config, s, step), [step][1..]);
    } else {
      assert (run + [step])[1..] == run[1..] + [step];
      ExecAppend(config, most, Apply(config, s, run[0]), run[1..], step);
    }
  }

  lemma StepUnder(config: Config, most: Option<nat>, s: State, step: Step) returns (t: State)
    requires ReachableUnder(config, most, s)
    requires Follows(most, s, step)
    ensures Shape(config, s) && t == Apply(config, s, step)
    ensures ReachableUnder(config, most, t)
  {
    UnderInv(config, most, s);
    hide Apply, Inv, Follows;
    var s0: State, run: seq<Step> :|
      Init(config, s0) && RunFollows(config, most, s0, run) && s == Exec(config, s0, run);
    ExecAppend(config, most, s0, run, step);
    t := Apply(config, s, step);
    assert t == Exec(config, s0, run + [step]);
  }

  lemma FreshUnder(config: Config, most: Option<nat>, s: State)
    requires Init(config, s)
    ensures Shape(config, s) && ReachableUnder(config, most, s)
  {
    assert s == Exec(config, s, []) && RunFollows(config, most, s, []);
  }

  // ---- Single calls ----

  /** An allocation whose guard passes reaches the check of the slot itself. */
  lemma GuardSucceeds(config: Config, most: Option<nat>, s: State, size: nat, floor: Option<nat>) returns (t: State)
    requires ReachableUnder(config, most, s) && Shape(config, s)
    requires s.producer.Resting? && size <= config.slotSize
    requires Follows(most, s, Alloc(size))
    requires Consistent(config, s.head, s.tail) && s.head < Limit(s.tail, floor) + config.capacity
    ensures ReachableUnder(config, most, t) && Shape(config, t)
    ensures t == s.(producer := CheckFree(size))
  {
    hide ReachableUnder;
    t := StepUnder(config, most, s, Alloc(size));
    t := StepUnder(config, most, t, Produce(false, None));
    t := StepUnder(config, most, t, Produce(false, floor));
    t := StepUnder(config, most, t, Produce(false, None));
  }

  /** An allocation with room in the guard and a free slot succeeds. */
  lemma AllocSucceeds(config: Config, most: Option<nat>, s: State, size: nat, floor: Option<nat>) returns (t: State)
    requires ReachableUnder(config, most, s) && Shape(config, s)
    requires s.producer.Resting? && size <= config.slotSize
    requires Follows(most, s, Alloc(size))
    requires Consistent(config, s.head, s.tail) && s.head < Limit(s.tail, floor) + config.capacity
    requires s.slots[s.index].state.Free?
    ensures ReachableUnder(config, most, t) && Shape(config, t)
    ensures t == s.(slots := s.slots[s.index := LeaseSlot(Writing, s.nextSeq, [], Zeros(size))],
                    index := (s.index + 1) % config.capacity, nextSeq := NextSeq(s.nextSeq),
                    leases := s.leases + [Lease(Zeros(size), Open)])
  {
    hide ReachableUnder, Zeros, NextSeq;
    t := GuardSucceeds(config, most, s, size, floor);
    t := StepUnder(config, most, t, Produce(false, None));
    t := StepUnder(config, most, t, Produce(false, None));
  }

  /** An allocation without room in the guard, or on a slot that is not free, is refused and changes nothing. */
  lemma AllocRefused(config: Config, most: Option<nat>, s: State, size: nat, floor: Option<nat>) returns (t: State)
    requires ReachableUnder(config, most, s) && Shape(config, s)
    requires s.producer.Resting? && size <= config.slotSize
    requires Follows(most, s, Alloc(size))
    requires Consistent(config, s.head, s.tail)
    requires s.head >= Limit(s.tail, floor) + config.capacity || !s.slots[s.index].state.Free?
    ensures ReachableUnder(config, most, t) && Shape(config, t)
    ensures t == s
  {
    hide ReachableUnder;
    if s.head < Limit(s.tail, floor) + config.capacity {
      t := GuardSucceeds(config, most, s, size, floor);
    } else {
      t := StepUnder(config, most, s, Alloc(size));
      t := StepUnder(config, most, t, Produce(false, None));
      t := StepUnder(config, most, t, Produce(false, floor));
    }
    t := StepUnder(config, most, t, Produce(false, None));
  }

  /** Publishing an open lease succeeds in four steps. */
  lemma PublishSucceeds(config: Config, most: Option<nat>, s: State, i: nat) returns (t: State)
    requires ReachableUnder(config, most, s) && Shape(config, s)
    requires s.producer.Resting? && OpenLease(s, i) && |s.leases[i].payload| <= USIZE_MAX
    ensures ReachableUnder(config, most, t) && Shape(config, t)
    ensures t == s.(head := s.head + 1, slots := t.slots, leases := s.leases[i := s.leases[i].(sealing := Published)])
    ensures |t.slots| == |s.slots| && forall j :: 0 <= j < |s.slots| && j != Idx(i, config.capacity) ==>
        t.slots[j] == s.slots[j]
    ensures At(config, t, i).state.Committed?
  {
    hide ReachableUnder, SealedHeader, Idx;
    var u := StepUnder(config, most, s, Publish(i));
    u := StepUnder(config, most, u, Produce(false, None));
    u := StepUnder(config, most, u, Produce(false, None));
    t := StepUnder(config, most, u, Produce(false, None));
    assert t.leases == s.leases[i := s.leases[i].(sealing := Published)];
  }

  /** A receive of a committed lease reaches the point where its slot is free but the tail is not yet stored. */
  lemma ReceiveFrees(config: Config, most: Option<nat>, s: State) returns (t: State)
    requires ReachableUnder(config, most, s) && Shape(config, s)
    requires s.consumer.Waiting? && At(config, s, s.tail).state.Committed?
    ensures ReachableUnder(config, most, t) && Shape(config, t)
    ensures t.consumer.Passing? && t == s.(slots := t.slots, freed := s.freed + 1, consumer := t.consumer)
    ensures t.slots == s.slots[Idx(s.tail, config.capacity) := CLEAR_SLOT]
  {
    hide ReachableUnder, Reachable, Take, Idx;
    t := StepUnder(config, most, s, Consume(false));
    t := StepUnder(config, most, t, Consume(false));
    UnderInv(config, most, t);
    DeliversInAllocOrder(config, t);
    t := StepUnder(config, most, t, Consume(false));
    t := StepUnder(config, most, t, Consume(false));
  }

  /** A receive of a committed lease delivers it in five steps, frees its slot and moves the tail past it. */
  lemma ReceiveSucceeds(config: Config, most: Option<nat>, s: State) returns (t: State)
    requires ReachableUnder(config, most, s) && Shape(config, s)
    requires s.consumer.Waiting? && At(config, s, s.tail).state.Committed?
    ensures ReachableUnder(config, most, t) && Shape(config, t)
    ensures s.tail < |s.leases| && s.leases[s.tail].sealing.Published?
    ensures t == s.(tail := s.tail + 1, slots := s.slots[Idx(s.tail, config.capacity) := CLEAR_SLOT],
                    expected := (s.tail + 1) % U64_RANGE, freed := s.freed + 1,
                    delivered := s.delivered + [Message(s.tail % U64_RANGE, s.leases[s.tail].payload)])
  {
    hide ReachableUnder, Reachable, Idx, SlotsOk, ProducerOk;
    t := ReceiveFrees(config, most, s);
    t := StepUnder(config, most, t, Consume(false));
    UnderInv(config, most, s);
    UnderInv(config, most, t);
    DeliversInAllocOrder(config, t);
    assert t.delivered == s.delivered + [t.delivered[s.tail]];
  }

  /** The checks of a view of a committed lease pass. */
  lemma LookSucceeds(config: Config, most: Option<nat>, s: State) returns (t: State)
    requires ReachableUnder(config, most, s) && Shape(config, s)
    requires s.consumer.Waiting? && At(config, s, s.tail).state.Committed?
    ensures ReachableUnder(config, most, t) && Shape(config, t)
    ensures t.consumer.Showing? && t == s.(consumer := t.consumer)
  {
    hide ReachableUnder, Reachable, CheckView, Idx;
    t := StepUnder(config, most, s, Consume(true));
    t := StepUnder(config, most, t, Consume(true));
    UnderInv(config, most, t);
    DeliversInAllocOrder(config, t);
  }

  /** A view of a committed lease is granted in four steps and leaves its slot pinned. */
  lemma ViewSucceeds(config: Config, most: Option<nat>, s: State) returns (t: State)
    requires ReachableUnder(config, most, s) && Shape(config, s)
    requires s.consumer.Waiting? && At(config, s, s.tail).state.Committed?
    ensures ReachableUnder(config, most, t) && Shape(config, t)
    ensures s.tail < |s.leases| && s.leases[s.tail].sealing.Published?
    ensures t == s.(tail := s.tail + 1, slots := t.slots, expected := (s.tail + 1) % U64_RANGE,
                    pins := s.pins + {s.tail}, freed := s.freed + 1,
                    delivered := s.delivered + [Message(s.tail % U64_RANGE, s.leases[s.tail].payload)])
    ensures t.slots == s.slots[Idx(s.tail, config.capacity) := At(config, s, s.tail).(state := Pinned)]
    ensures At(config, t, s.tail).state.Pinned?
  {
    hide ReachableUnder, Reachable, Idx, SlotsOk, ProducerOk;
    t := LookSucceeds(config, most, s);
    t := StepUnder(config, most, t, Consume(true));
    t := StepUnder(config, most, t, Consume(true));
    UnderInv(config, most, s);
    UnderInv(config, most, t);
    DeliversInAllocOrder(config, t);
    assert t.delivered == s.delivered + [t.delivered[s.tail]];
  }

  /** The release of a view succeeds in three steps and clears exactly its slot. */
  lemma ReleaseSucceeds(config: Config, most: Option<nat>, s: State, c: nat) returns (t: State)
    requires ReachableUnder(config, most, s) && Shape(config, s)
    requires s.consumer.Waiting? && c in s.pins
    ensures ReachableUnder(config, most, t) && Shape(config, t)
    ensures t == s.(slots := s.slots[Idx(c, config.capacity) := CLEAR_SLOT], pins := s.pins - {c})
  {
    hide ReachableUnder, Reachable, Idx, Contents;
    UnderInv(config, most, s);
    ViewedLease(config, s, c);
    t := StepUnder(config, most, s, Release(c));
    t := StepUnder(config, most, t, Consume(false));
    t := StepUnder(config, most, t, Consume(false));
    t := StepUnder(config, most, t, Consume(false));
  }

  /** Aborting the newest lease, still open, succeeds in two steps: the slot is free, and the lease is gone. */
  lemma AbortSucceeds(config: Config, most: Option<nat>, s: State) returns (t: State)
    requires ReachableUnder(config, most, s) && Shape(config, s)
    requires s.producer.Resting? && s.leases != [] && OpenLease(s, |s.leases| - 1)
    ensures ReachableUnder(config, most, t) && Shape(config, t)
    ensures var newest := |s.leases| - 1;
            t == s.(slots := s.slots[Idx(newest, config.capacity) := CLEAR_SLOT], index := Idx(newest, config.capacity),
                    nextSeq := newest % U64_RANGE, leases := s.leases[..newest])
  {
    hide ReachableUnder, Reachable, Idx, Inv;
    t := StepUnder(config, most, s, Abort);
    t := StepUnder(config, most, t, Produce(false, None));
    UnderInv(config, most, t);
    AbortUndoesAlloc(config, t, false, None);
    t := StepUnder(config, most, t, Produce(false, None));
  }

  // ---- The shared cursors ----

  /**
   * The cursors are inconsistent exactly while the consumer stands between freeing a slot and storing the
   * tail, the producer has already taken that slot again, and everything it has allocated is published.
   */
  lemma InconsistentExactly(config: Config, s: State)
    requires Reachable(config, s)
    ensures !Consistent(config, s.head, s.tail)
        <==> s.consumer.Passing? && s.head == |s.leases| == s.freed + config.capacity
  {
    hide SlotsOk, Reachable, ProducerOk, DeliveredOk;
    ReachableInv(config, s);
    CountPrefix(s.leases, s.freed);
  }

  /** The refresh of an allocation finds inconsistent cursors. */
  predicate RefreshFails(config: Config, s: State) {
    s.producer.Guard? && !Consistent(config, s.head, s.producer.tail)
  }

  /**
   * What such a policy keeps: the leases stay within one lap of the tail word itself. The guard ensures
   * that, because it sees every lease, or because the single slot of the ring is the lease it waits for.
   */
  predicate Roomy(config: Config, most: nat, s: State) {
    && |s.leases| <= s.tail + config.capacity
    && match s.producer
       case LoadTail(_) => most == 0 ==> Outstanding(s) == 0
       case LoadFloor(_, tail) => LoadedRoom(config, most, s, tail)
       case Guard(_, tail, _) => LoadedRoom(config, most, s, tail)
       case CheckFree(_) => s.head < s.tail + config.capacity && (most == 0 ==> Outstanding(s) == 0)
       case MarkWriting(_) => s.head < s.tail + config.capacity && (most == 0 ==> Outstanding(s) == 0)
       case _ => true
  }

  predicate LoadedRoom(config: Config, most: nat, s: State, tail: nat) {
    tail <= s.head && tail <= s.tail && |s.leases| <= tail + config.capacity && (most == 0 ==> Outstanding(s) == 0)
  }

  /** Between its calls the producer has published exactly `head` leases, among them all that were consumed. */
  lemma PublishedBounds(config: Config, s: State)
    requires Inv(config, s)
    ensures s.tail <= s.freed <= PublishedCount(s.leases) <= |s.leases|
    ensures s.head <= |s.leases|
    ensures !s.producer.StorePublished? ==> s.head == PublishedCount(s.leases)
    ensures s.producer.MarkWriting? ==> |s.leases| < s.freed + config.capacity
  {
    hide SlotsOk, DeliveredOk, PinsOk;
    CountPrefix(s.leases, s.freed);
  }

  lemma RoomyKeeps(config: Config, most: nat, s: State, step: Step)
    requires Inv(config, s)
    requires Roomy(config, most, s) && Follows(Some(most), s, step)
    requires most == 0 || config.capacity == 1
    ensures Shape(config, s) && Roomy(config, most, Apply(config, s, step))
  {
    hide Inv, Idx, SealedHeader, Patch, Zeros, CheckView, Take, PublishedCount;
    InvShape(config, s);
    PublishedBounds(config, s);
    if step.Consume? {
      ConsumerKeepsRoom(config, s, step.view);
      hide Roomy, ConsumerMove;
    }
  }

  /** The consumer only moves the tail, and only forward. */
  lemma ConsumerKeepsRoom(config: Config, s: State, view: bool)
    requires Shape(config, s)
    ensures var t := ConsumerMove(config, s, view);
            && t.head == s.head && t.producer == s.producer && t.leases == s.leases
            && s.tail <= t.tail
    ensures forall most :: Roomy(config, most, s) ==> Roomy(config, most, ConsumerMove(config, s, view))
  {
    hide Idx, CheckView, Take;
  }

  lemma {:induction false} RunRoomy(config: Config, most: nat, s: State, run: seq<Step>)
    requires Inv(config, s) && Shape(config, s)
    requires Roomy(config, most, s) && RunFollows(config, Some(most), s, run)
    requires most == 0 || config.capacity == 1
    ensures Roomy(config, most, Exec(config, s, run))
    decreases |run|
  {
    hide Inv, Apply, Roomy, Follows;
    if run != [] {
      RoomyKeeps(config, most, s, run[0]);
      ApplyKeeps(config, s, run[0]);
      RunRoomy(config, most, Apply(config, s, run[0]), run[1..]);
    }
  }

  lemma RefreshSucceeds(config: Config, most: nat, s: State)
    requires ReachableUnder(config, Some(most), s)
    requires most == 0 || config.capacity == 1
    ensures !RefreshFails(config, s)
  {
    var s0: State, run: seq<Step> :|
      Init(config, s0) && RunFollows(config, Some(most), s0, run) && s == Exec(config, s0, run);
    hide Inv, RunFollows;
    InitHolds(config, s0);
    RunRoomy(config, most, s0, run);
    UnderInv(config, Some(most), s);
    PublishedBounds(config, s);
  }

  // ---- A schedule on which the refresh fails, for every ring of two slots or more ----

  /** The producer has allocated `n` leases, `published` of them are published, and nothing was received. */
  predicate Loaded(config: Config, s: State, n: nat, published: nat) {
    && |s.leases| == n
    && s.head == published <= n
    && (forall i :: 0 <= i < n ==> s.leases[i] == Lease([], if i < published then Published else Open))
    && s.producer.Resting? && s.consumer.Waiting?
    && s.tail == 0 && s.freed == 0 && s.pins == {}
  }

  lemma NextIsFree(config: Config, s: State)
    requires Inv(config, s) && s.freed == 0 && s.pins == {} && |s.leases| < config.capacity
    ensures s.slots[s.index].state.Free?
  {
    hide Idx;
    var c := |s.leases| - config.capacity;
    IdxLap(c, config.capacity);
    SlotOfInv(config, s, c);
  }

  /** One more lease, published at once. */
  lemma LoadOne(config: Config, most: nat, s: State, n: nat) returns (t: State)
    requires ReachableUnder(config, Some(most), s) && Shape(config, s)
    requires Loaded(config, s, n, n) && n < config.capacity
    ensures ReachableUnder(config, Some(most), t) && Shape(config, t) && Loaded(config, t, n + 1, n + 1)
  {
    hide ReachableUnder, Inv, Idx;
    UnderInv(config, Some(most), s);
    NextIsFree(config, s);
    t := AllocSucceeds(config, Some(most), s, 0, None);
    t := PublishSucceeds(config, Some(most), t, n);
  }

  lemma {:induction false} LoadMany(config: Config, most: nat, n: nat) returns (s: State)
    requires ConfigOk(config) && n <= config.capacity
    ensures ReachableUnder(config, Some(most), s) && Shape(config, s) && Loaded(config, s, n, n)
  {
    hide ReachableUnder;
    if n == 0 {
      var slots := seq(config.capacity, _ => CLEAR_SLOT);
      s := State.State(0, 0, slots, 0, 0, Resting, 0, Waiting, [], {}, 0, []);
      FreshUnder(config, Some(most), s);
    } else {
      s := LoadMany(config, most, n - 1);
      s := LoadOne(config, most, s, n - 1);
    }
  }

  /** A full ring of leases of which the newest is not published. */
  lemma LoadAll(config: Config, most: nat) returns (s: State)
    requires ConfigOk(config) && config.capacity >= 2 && most >= 1
    ensures ReachableUnder(config, Some(most), s) && Shape(config, s)
    ensures Loaded(config, s, config.capacity, config.capacity - 1)
  {
    hide ReachableUnder, Inv, Idx;
    s := LoadMany(config, most, config.capacity - 1);
    UnderInv(config, Some(most), s);
    NextIsFree(config, s);
    s := AllocSucceeds(config, Some(most), s, 0, None);
  }

  lemma FirstIsCommitted(config: Config, s: State, n: nat, published: nat)
    requires Inv(config, s) && Loaded(config, s, n, published)
    requires 0 < published && n <= config.capacity
    ensures At(config, s, 0).state.Committed?
  {
    hide Idx;
    SlotOfInv(config, s, 0);
  }

  /**
   * As soon as one unpublished lease is tolerated when the next is asked for, some run makes a refresh
   * fail: the slot the consumer has just freed is leased again and everything is published before the
   * tail is stored.
   */
  lemma RefreshCanFail(config: Config, most: nat) returns (s: State)
    requires ConfigOk(config) && config.capacity >= 2 && most >= 1
    ensures ReachableUnder(config, Some(most), s)
    ensures RefreshFails(config, s)
    ensures s.head == s.tail + config.capacity + 1
  {
    hide ReachableUnder, Inv, Idx;
    var policy, n := Some(most), config.capacity;
    s := LoadAll(config, most);
    UnderInv(config, policy, s);
    FirstIsCommitted(config, s, n, n - 1);
    s := ReceiveFrees(config, policy, s);
    IndexOfLeases(config, policy, s);
    IdxLap(0, n);
    s := AllocSucceeds(config, policy, s, 0, None);
    s := PublishSucceeds(config, policy, s, n - 1);
    s := PublishSucceeds(config, policy, s, n);
    s := StepUnder(config, policy, s, Alloc(0));
    s := StepUnder(config, policy, s, Produce(false, None));
    s := StepUnder(config, policy, s, Produce(false, None));
  }

  lemma IndexOfLeases(config: Config, most: Option<nat>, s: State)
    requires ReachableUnder(config, most, s)
    ensures config.capacity > 0 && s.index == Idx(|s.leases|, config.capacity)
  {
    hide ReachableUnder, SlotsOk, ConsumerOk, DeliveredOk, Idx;
    UnderInv(config, most, s);
  }

  /**
   * No refresh ever fails, on any run of a producer that asks for a lease only while at most `most` of its
   * leases are unpublished, exactly when that limit is zero or the ring has a single slot.
   */
  lemma RefreshNeverFailsExactly(config: Config, most: nat)
    requires ConfigOk(config)
    ensures (forall s :: ReachableUnder(config, Some(most), s) ==> !RefreshFails(config, s))
        <==> most == 0 || config.capacity == 1
  {
    hide ReachableUnder, RefreshFails;
    if most == 0 || config.capacity == 1 {
      forall s | ReachableUnder(config, Some(most), s)
        ensures !RefreshFails(config, s)
      {
        RefreshSucceeds(config, most, s);
      }
    } else {
      var s := RefreshCanFail(config, most);
    }
  }

  // ---- The check of the slot behind the guard ----

  /**
   * The guard alone does not protect a view, not even on the exact pin floor: it counts published leases,
   * so in every ring of two slots or more it can pass while the slot to be leased is pinned. The check of
   * that slot then refuses the allocation, and the view keeps its slot.
   */
  lemma GuardMissesView(config: Config) returns (s: State)
    requires ConfigOk(config) && config.capacity >= 2
    ensures Reachable(config, s) && Shape(config, s)
    ensures s.producer.CheckFree? && s.pins == {0} && s.index == Idx(0, config.capacity)
    ensures config.capacity - GuardLen(config, s.head, s.tail, Some(0), 0) >= 1
    ensures At(config, s, 0).state.Pinned?
    ensures Apply(config, s, Produce(false, None)) == s.(producer := Resting)
  {
    hide ReachableUnder, Inv, Idx, Reachable;
    var policy, n := Some(1), config.capacity;
    s := LoadAll(config, 1);
    UnderInv(config, policy, s);
    FirstIsCommitted(config, s, n, n - 1);
    s := ViewSucceeds(config, policy, s);
    s := GuardSucceeds(config, policy, s, 0, Some(0));
    UnderInv(config, policy, s);
    IndexOfLeases(config, policy, s);
    IdxLap(0, n);
    assert s.slots[s.index] == At(config, s, 0);
  }
}
