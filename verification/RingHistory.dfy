/** How the history of a run grows: nothing recorded is ever changed, except that a reservation may die. */
module RingHistory {
  import opened Chunking
  import opened ChunkingProofs
  import opened Cursors
  import opened Ring
  import opened RingInvariant
  import opened RingProducer
  import opened RingReclaim
  import opened RingRuns

  // ---- What later states keep ----

  ghost predicate LogGrows(before: seq<Entry>, after: seq<Entry>) {
    && |before| <= |after|
    && forall i :: 0 <= i < |before| ==>
         && after[i].start == before[i].start
         && after[i].message == before[i].message
         && after[i].owner == before[i].owner
         && (before[i].dead ==> after[i].dead)
  }

  ghost predicate CellsGrow(before: seq<Cell>, after: seq<Cell>) {
    && |before| <= |after|
    && forall c :: 0 <= c < |before| ==> after[c].entry == before[c].entry && after[c].k == before[c].k
  }

  ghost predicate Grows(s: State, t: State) {
    && LogGrows(s.log, t.log)
    && CellsGrow(s.cells, t.cells)
    && s.tail <= t.tail
    && s.done <= t.done
    && s.delivered <= t.delivered
    && forall p :: Gone(s, p) ==> Gone(t, p)
  }

  /** All a producer's step can touch: its own state, the head, slots, and the history it adds to. */
  ghost predicate ByProducer(s: State, t: State, p: nat) {
    && t == s.(head := t.head, slots := t.slots, producers := t.producers, log := t.log, cells := t.cells)
    && p in s.producers && p in t.producers && t.producers[p].alive
    && t.producers == s.producers[p := t.producers[p]]
    && (t.log == s.log || (s.producers[p].pc.Reserve? && exists e: Entry :: !e.dead && t.log == s.log + [e]))
    && CellsGrow(s.cells, t.cells)
  }

  lemma WriteByProducer(config: Config, s: State, p: nat)
    requires config.capacity == |s.slots| > 0
    requires p in s.producers && s.producers[p].alive && s.producers[p].pc.WriteSlot?
    ensures ByProducer(s, WriteStep(config, s, p), p)
  {
    hide Sendable, MessageFrames, Idx;
  }

  lemma ReserveByProducer(config: Config, s: State, p: nat, retry: bool)
    requires p in s.producers && s.producers[p].alive && s.producers[p].pc.Reserve?
    ensures ByProducer(s, TryReserve(config, s, p, retry), p)
  {
    hide Sendable, MessageFrames, GuardLen, Consistent;
  }

  lemma StepByProducer(config: Config, s: State, p: nat, retry: bool)
    requires config.capacity == |s.slots| > 0
    requires p in s.producers && s.producers[p].alive
    ensures ByProducer(s, ProducerStep(config, s, p, retry), p)
  {
    hide Sendable, MessageFrames, WriteStep, TryReserve;
    if s.producers[p].pc.WriteSlot? {
      WriteByProducer(config, s, p);
    } else if s.producers[p].pc.Reserve? {
      ReserveByProducer(config, s, p, retry);
    }
  }

  predicate Burying(s: State) {
    s.consumer.pc.ReclaimVerify? && s.consumer.pc.j >= s.consumer.pc.extent && s.done < |s.log|
  }

  /** All a consumer's step can touch; the reservations change only when one is buried. */
  ghost predicate ByConsumer(s: State, t: State) {
    && t.head == s.head && t.producers == s.producers
    && (t.log == s.log || (Burying(s) && t.log == s.log[s.done := s.log[s.done].(dead := true)]))
    && |t.cells| == |s.cells| && CellsGrow(s.cells, t.cells)
    && s.tail <= t.tail
    && s.done <= t.done
    && s.delivered <= t.delivered
  }

  lemma ReclaimByConsumer(config: Config, s: State)
    requires config.capacity == |s.slots| > 0
    ensures ByConsumer(s, ReclaimStep(config, s))
  {
    hide Idx;
  }

  lemma CopyByConsumer(config: Config, s: State)
    requires config.capacity == |s.slots| > 0
    ensures ByConsumer(s, CopyStep(config, s))
  {
    hide Idx, Digest;
  }

  lemma ViewByConsumer(config: Config, s: State)
    requires config.capacity == |s.slots| > 0
    ensures ByConsumer(s, ViewStep(config, s))
  {
    hide Idx, Viewable;
  }

  lemma StepByConsumer(config: Config, s: State)
    requires config.capacity == |s.slots| > 0
    ensures ByConsumer(s, ConsumerStep(config, s))
  {
    hide Idx, Digest, Viewable, Consistent, ReclaimStep, CopyStep, ViewStep;
    ReclaimByConsumer(config, s);
    CopyByConsumer(config, s);
    ViewByConsumer(config, s);
  }

  lemma StepGrows(config: Config, s: State, step: Step)
    requires config.capacity == |s.slots| > 0
    ensures Grows(s, Apply(config, s, step))
  {
    hide ConsumerStep, ProducerStep, Sendable;
    StepByConsumer(config, s);
    if step.Produce? && step.p in s.producers && s.producers[step.p].alive {
      StepByProducer(config, s, step.p, step.retry);
    }
  }

  lemma GrowsOn(s: State, t: State, u: State)
    requires Grows(s, t) && Grows(t, u)
    ensures Grows(s, u)
  {
    hide Gone;
  }

  /**
   * Over a whole run the reservations only grow, the tail and the number of consumed reservations never
   * go back, and what was delivered is never revised.
   */
  lemma {:induction false} RunGrows(config: Config, s: State, run: seq<Step>)
    requires config.capacity == |s.slots| > 0
    ensures Grows(s, Exec(config, s, run))
    decreases |run|
  {
    if run != [] {
      var t := Apply(config, s, run[0]);
      StepGrows(config, s, run[0]);
      RunGrows(config, t, run[1..]);
      hide Apply, Grows;
      GrowsOn(s, t, Exec(config, t, run[1..]));
    }
  }

  // ---- Who dies ----

  /** Only the reservation of a crashed producer is ever given up. */
  ghost predicate DeadAreGone(s: State) {
    forall i :: 0 <= i < |s.log| && s.log[i].dead ==> Gone(s, s.log[i].owner)
  }

  /** A step that marks a reservation dead is the end of a reclaim's verification. */
  lemma OnlyReclaimBuries(config: Config, s: State, step: Step, i: nat)
    requires config.capacity == |s.slots| > 0
    requires i < |s.log| && !s.log[i].dead
    ensures var t := Apply(config, s, step);
            i < |t.log| && (t.log[i].dead ==> s.consumer.pc.ReclaimVerify? && s.consumer.pc.j >= s.consumer.pc.extent
                                              && i == s.done && step.Consume?)
  {
    hide ConsumerStep, ProducerStep, Sendable, CellsGrow;
    StepByConsumer(config, s);
    if step.Produce? && step.p in s.producers && s.producers[step.p].alive {
      StepByProducer(config, s, step.p, step.retry);
    }
  }

  lemma NewEntriesLive(config: Config, s: State, step: Step, i: nat)
    requires config.capacity == |s.slots| > 0
    requires |s.log| <= i < |Apply(config, s, step).log|
    ensures !Apply(config, s, step).log[i].dead
  {
    hide ConsumerStep, ProducerStep, Sendable, CellsGrow;
    StepByConsumer(config, s);
    if step.Produce? && step.p in s.producers && s.producers[step.p].alive {
      StepByProducer(config, s, step.p, step.retry);
    }
  }

  lemma StepKeepsGone(config: Config, s: State, step: Step)
    requires Inv(config, s)
    requires DeadAreGone(s)
    ensures |s.slots| == config.capacity > 0
    ensures DeadAreGone(Apply(config, s, step))
  {
    hide Inv, Parts, Apply, Gone;
    SlotCount(config, s);
    StepGrows(config, s, step);
    var t := Apply(config, s, step);
    forall i | 0 <= i < |t.log| && t.log[i].dead
      ensures Gone(t, t.log[i].owner)
    {
      if i >= |s.log| {
        NewEntriesLive(config, s, step, i);
      } else if !s.log[i].dead {
        OnlyReclaimBuries(config, s, step, i);
        DeadStages(config, s);
      }
    }
  }

  lemma {:induction false} RunKeepsGone(config: Config, s: State, run: seq<Step>)
    requires Inv(config, s)
    requires DeadAreGone(s)
    ensures |s.slots| == config.capacity > 0
    ensures DeadAreGone(Exec(config, s, run))
    decreases |run|
  {
    hide Inv, Parts, Apply, DeadAreGone;
    SlotCount(config, s);
    if run != [] {
      StepKeepsGone(config, s, run[0]);
      ApplyKeeps(config, s, run[0]);
      RunKeepsGone(config, Apply(config, s, run[0]), run[1..]);
    }
  }

  /** Without a crash every producer stays alive. */
  lemma {:induction false} CrashFree(config: Config, s: State, run: seq<Step>)
    requires config.capacity == |s.slots| > 0
    requires forall p :: p in s.producers ==> s.producers[p].alive
    requires forall i :: 0 <= i < |run| ==> !run[i].Crash?
    ensures var t := Exec(config, s, run); forall p :: p in t.producers ==> t.producers[p].alive
    decreases |run|
  {
    if run != [] {
      hide Apply;
      AliveStep(config, s, run[0]);
      CrashFree(config, Apply(config, s, run[0]), run[1..]);
      assert Exec(config, s, run) == Exec(config, Apply(config, s, run[0]), run[1..]);
    }
  }

  lemma AliveStep(config: Config, s: State, step: Step)
    requires config.capacity == |s.slots| > 0
    requires forall p :: p in s.producers ==> s.producers[p].alive
    requires !step.Crash?
    ensures var t := Apply(config, s, step); forall p :: p in t.producers ==> t.producers[p].alive
  {
    hide ConsumerStep, ProducerStep, Sendable, CellsGrow;
    var t := Apply(config, s, step);
    forall p | p in t.producers
      ensures t.producers[p].alive
    {
      if step.Produce? && step.p in s.producers {
        StepByProducer(config, s, step.p, step.retry);
      } else {
        StepByConsumer(config, s);
      }
    }
  }
}
