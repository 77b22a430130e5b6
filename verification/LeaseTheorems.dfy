/** What the lease protocol guarantees in every reachable state, whatever views the consumer holds. */
module LeaseTheorems {
  import opened Bytes
  import opened Errors
  import opened Chunking
  import opened Cursors
  import opened Lease
  import opened LeaseProofs

  /**
   * The consumer delivers the leases in the order of their allocation, numbered consecutively, each
   * published and with exactly the bytes it held when it was sealed; and no receive fails.
   */
  lemma DeliversInAllocOrder(config: Config, s: State)
    requires Reachable(config, s)
    ensures |s.delivered| == s.tail <= |s.leases|
    ensures forall i :: 0 <= i < |s.delivered| ==>
              s.delivered[i] == Message(i % U64_RANGE, s.leases[i].payload) && s.leases[i].sealing.Published?
    ensures !s.consumer.Failed?
    ensures |s.leases| <= s.freed + config.capacity
  {
    hide SlotsOk, Reachable;
    ReachableInv(config, s);
  }

  /** Whatever the consumer is reading has been published. */
  lemma ReadsOnlyPublished(config: Config, s: State)
    requires Reachable(config, s)
    requires s.consumer.Reading? || s.consumer.Clearing? || s.consumer.Freeing? || s.consumer.Passing?
             || s.consumer.Looking? || s.consumer.Showing? || s.consumer.Keeping?
    ensures PublishedAt(s.leases, s.tail)
  {
    hide SlotsOk, Reachable;
    ReachableInv(config, s);
  }

  lemma StepKeepsSealed(config: Config, s: State, step: Step, i: nat)
    requires Inv(config, s)
    requires i < |s.leases| && !s.leases[i].sealing.Open?
    ensures Shape(config, s)
    ensures var t := Apply(config, s, step);
            && i < |t.leases| && !t.leases[i].sealing.Open?
            && t.leases[i].payload == s.leases[i].payload
            && (s.leases[i].sealing.Published? ==> t.leases[i].sealing.Published?)
  {
    hide SlotsOk, ConsumerOk, DeliveredOk, Take, SealedHeader, GuardLen, Consistent, Idx, Patch;
  }

  /** A sealed buffer is never written again: its bytes stay the same in every later state. */
  lemma {:induction false} SealedIsFrozen(config: Config, s: State, run: seq<Step>, i: nat)
    requires Inv(config, s)
    requires i < |s.leases| && !s.leases[i].sealing.Open?
    ensures Shape(config, s)
    ensures var t := Exec(config, s, run);
            i < |t.leases| && !t.leases[i].sealing.Open? && t.leases[i].payload == s.leases[i].payload
    decreases |run|
  {
    InvShape(config, s);
    hide Inv, Apply;
    if run != [] {
      StepKeepsSealed(config, s, run[0], i);
      ApplyKeeps(config, s, run[0]);
      SealedIsFrozen(config, Apply(config, s, run[0]), run[1..], i);
    }
  }

  /**
   * Once as many leases are left as before an allocation, because the newer ones were aborted, the
   * producer stands exactly where it stood: same write index, same next sequence number.
   */
  lemma AbortRestoresProducer(config: Config, s: State, run: seq<Step>)
    requires Reachable(config, s)
    requires Shape(config, s)
    requires var t := Exec(config, s, run); |t.leases| == |s.leases|
    ensures var t := Exec(config, s, run); t.index == s.index && t.nextSeq == s.nextSeq
  {
    ReachableInv(config, s);
    ExecKeeps(config, s, run);
    hide Exec, SlotsOk, ConsumerOk, DeliveredOk, Reachable, Idx;
  }

  /** An abort frees the newest slot and steps the producer back by one. */
  lemma AbortUndoesAlloc(config: Config, s: State, retry: bool, floor: Option<nat>)
    requires Reachable(config, s)
    requires Shape(config, s)
    requires s.producer.AbortFree?
    ensures var t := Apply(config, s, Produce(retry, floor));
            && s.leases != [] && t.leases == s.leases[..|s.leases| - 1]
            && t.index == Idx(|t.leases|, config.capacity) && t.nextSeq == |t.leases| % U64_RANGE
            && At(config, t, |t.leases|) == CLEAR_SLOT
            && t.head == s.head && t.tail == s.tail && t.delivered == s.delivered
  {
    ReachableInv(config, s);
    AbortFreeKeeps(config, s, retry, floor);
    hide Inv, Reachable, Idx;
    AbortHasLease(config, s);
  }

  lemma AbortHasLease(config: Config, s: State)
    requires Inv(config, s) && s.producer.AbortFree?
    ensures s.leases != []
  {
    hide SlotsOk, ConsumerOk, DeliveredOk;
  }

  // ---- Views ----

  /** A live view: its cursor is pinned, and its release has not begun to clear the slot. */
  predicate Viewed(s: State, c: nat) {
    c in s.pins && GripOf(s.consumer) != Letting(c)
  }

  /** A viewed slot is PINNED and holds the sealed frame of its lease, whose cursor is less than a lap old. */
  lemma ViewedLease(config: Config, s: State, c: nat)
    requires Reachable(config, s)
    requires Viewed(s, c)
    ensures config.capacity == |s.slots| > 0
    ensures At(config, s, c).state.Pinned?
    ensures PublishedAt(s.leases, c) && Contents(s.leases[c], c, At(config, s, c))
    ensures |s.leases| <= c + config.capacity
  {
    hide Contents, Idx, Reachable;
    ReachableInv(config, s);
    SlotOfInv(config, s, c);
  }

  /** However long a view lives, and whatever is allocated meanwhile, it reads the same bytes. */
  lemma ViewReadsSameBytes(config: Config, s: State, run: seq<Step>, c: nat)
    requires Reachable(config, s)
    requires Shape(config, s)
    requires Viewed(s, c) && Viewed(Exec(config, s, run), c)
    ensures At(config, Exec(config, s, run), c).payload == At(config, s, c).payload
  {
    hide Reachable, Idx, Inv;
    var t := Exec(config, s, run);
    ReachableInv(config, s);
    ViewedLease(config, s, c);
    SealedIsFrozen(config, s, run, c);
    ExecKeeps(config, s, run);
    PinnedHolds(config, t, c);
  }

  lemma PinnedHolds(config: Config, s: State, c: nat)
    requires Inv(config, s)
    requires Viewed(s, c)
    ensures config.capacity == |s.slots| > 0
    ensures c < |s.leases| && Contents(s.leases[c], c, At(config, s, c))
  {
    hide Contents, Idx;
    SlotOfInv(config, s, c);
  }

  /** No producer step writes the slot of a pinned cursor, whatever value a load of the floor finds. */
  lemma ProducerLeavesViews(config: Config, s: State, step: Step, c: nat)
    requires Reachable(config, s)
    requires c in s.pins
    requires !step.Consume?
    ensures config.capacity == |s.slots| > 0
    ensures At(config, Apply(config, s, step), c) == At(config, s, c)
    ensures Apply(config, s, step).pins == s.pins
  {
    hide Reachable, Inv, Idx, Patch, ProducerMove;
    ReachableInv(config, s);
    if step.Write? && OpenLease(s, step.lease) {
      Apart(config, s, c, step.lease);
    } else if step.Produce? {
      MoveLeavesViews(config, s, step.retry, step.floor, c);
    }
  }

  lemma MoveLeavesViews(config: Config, s: State, retry: bool, floor: Option<nat>, c: nat)
    requires Inv(config, s)
    requires c in s.pins
    ensures config.capacity == |s.slots| > 0 && s.index < config.capacity
    ensures At(config, ProducerMove(config, s, retry, floor), c) == At(config, s, c)
    ensures ProducerMove(config, s, retry, floor).pins == s.pins
  {
    hide Idx, SealedHeader, Consistent, GuardLen, Zeros, SlotsOk, ConsumerOk, DeliveredOk, PublishedCount;
    match s.producer {
      case MarkWriting(_) => Apart(config, s, c, |s.leases|);
      case SealHeader(i) => Apart(config, s, c, i);
      case SealCommit(i) => Apart(config, s, c, i);
      case AbortClear => Apart(config, s, c, |s.leases| - 1);
      case AbortFree => Apart(config, s, c, |s.leases| - 1);
      case _ =>
    }
  }

  /** A cursor the producer may write does not share the slot of a view. */
  lemma Apart(config: Config, s: State, c: nat, d: nat)
    requires Inv(config, s)
    requires c in s.pins
    requires d <= |s.leases| && !PublishedAt(s.leases, d)
    requires d == |s.leases| ==> d - config.capacity !in s.pins
    ensures Idx(c, config.capacity) != Idx(d, config.capacity)
  {
    hide Idx, SlotsOk, ProducerOk, DeliveredOk;
    IdxDistinct(c, d, config.capacity);
  }
}
