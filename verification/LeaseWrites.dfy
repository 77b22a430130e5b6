/** What the buffer of a lease holds: at every byte, the last write that was allowed there. */
module LeaseWrites {
  import opened Bytes
  import opened FrameCodec
  import opened FrameLayout
  import opened Chunking
  import opened Cursors
  import opened Lease
  import opened LeaseProofs
  import opened LeaseTheorems

  // ---- One write ----

  /** A write is allowed into an open lease, within its bounds, while the producer is in no other call. */
  predicate Allowed(s: State, i: nat, offset: nat, bytes: seq<byte>) {
    s.producer.Resting? && OpenLease(s, i) && offset + |bytes| <= |s.leases[i].payload|
  }

  /** The second buffer is the first one with exactly these bytes overwritten. */
  predicate Overwrites(before: seq<byte>, offset: nat, bytes: seq<byte>, after: seq<byte>) {
    && |after| == |before|
    && forall k :: 0 <= k < |before| ==>
         after[k] == if offset <= k < offset + |bytes| then bytes[k - offset] else before[k]
  }

  lemma PatchOverwrites(payload: seq<byte>, offset: nat, bytes: seq<byte>)
    requires offset + |bytes| <= |payload|
    ensures Overwrites(payload, offset, bytes, Patch(payload, offset, bytes))
  {
  }

  /** The slot of an open lease holds the lease's bytes, unless the lease is being aborted. */
  lemma OpenSlot(config: Config, s: State, i: nat)
    requires Inv(config, s) && OpenLease(s, i) && !s.producer.AbortFree?
    ensures At(config, s, i).payload == s.leases[i].payload
  {
    hide SlotsOk, ProducerOk, ConsumerOk, DeliveredOk, Idx;
    UnpublishedIsAhead(config, s, i);
    SlotAt(config, s, i);
  }

  /**
   * An allowed write overwrites exactly its range of the lease's buffer, in the shared slot itself, and
   * touches no other lease and no other slot; a write that is not allowed changes nothing.
   */
  lemma WriteIsExact(config: Config, s: State, i: nat, offset: nat, bytes: seq<byte>)
    requires Reachable(config, s)
    ensures Shape(config, s)
    ensures var t := Apply(config, s, Write(i, offset, bytes));
            if Allowed(s, i, offset, bytes) then
              && t == s.(slots := t.slots, leases := t.leases)
              && |t.leases| == |s.leases| && t.leases[i].sealing.Open?
              && Overwrites(s.leases[i].payload, offset, bytes, t.leases[i].payload)
              && At(config, t, i) == At(config, s, i).(payload := t.leases[i].payload)
              && (forall j :: 0 <= j < |s.leases| && j != i ==> t.leases[j] == s.leases[j])
              && (forall j :: 0 <= j < |s.slots| && j != Idx(i, config.capacity) ==> t.slots[j] == s.slots[j])
            else t == s
  {
    hide Inv, Reachable, Idx, Patch, Overwrites;
    ReachableInv(config, s);
    if Allowed(s, i, offset, bytes) {
      OpenSlot(config, s, i);
      PatchOverwrites(s.leases[i].payload, offset, bytes);
    }
  }

  // ---- Whole runs ----

  /** The step writes byte k of lease i. */
  predicate Covers(s: State, step: Step, i: nat, k: nat) {
    && step.Write? && step.lease == i
    && Allowed(s, i, step.offset, step.bytes)
    && step.offset <= k < step.offset + |step.bytes|
  }

  /** The step sets byte k of lease i: it allocates the lease, or writes that byte. */
  predicate Sets(config: Config, s: State, step: Step, i: nat, k: nat)
    requires Shape(config, s)
  {
    Covers(s, step, i, k) || |s.leases| == i < |Apply(config, s, step).leases|
  }

  /** What the step leaves in that byte: what it writes there, and zero when it allocates the lease. */
  function SetTo(step: Step, k: nat): byte {
    if step.Write? && step.offset <= k < step.offset + |step.bytes| then step.bytes[k - step.offset] else 0
  }

  /** The state before the j-th step of a run. */
  function Before(config: Config, s: State, run: seq<Step>, j: nat): (t: State)
    requires Shape(config, s) && j <= |run|
    ensures Shape(config, t)
  {
    Exec(config, s, run[..j])
  }

  lemma {:induction false} ExecLast(config: Config, s: State, run: seq<Step>, step: Step)
    requires Shape(config, s)
    ensures Exec(config, s, run + [step]) == Apply(config, Exec(config, s, run), step)
    decreases |run|
  {
    hide Apply;
    if run == [] {
      assert run + [step] == [step];
      assert Exec(config, s, [step]) == Exec(config, Apply(config, s, step), [step][1..]);
    } else {
      assert (run + [step])[1..] == run[1..] + [step];
      ExecLast(config, Apply(config, s, run[0]), run[1..], step);
    }
  }

  lemma BeforeNext(config: Config, s: State, run: seq<Step>, j: nat)
    requires Shape(config, s) && j < |run|
    ensures Before(config, s, run, j + 1) == Apply(config, Before(config, s, run, j), run[j])
  {
    hide Apply, Exec;
    assert run[..j + 1] == run[..j] + [run[j]];
    ExecLast(config, s, run[..j], run[j]);
  }

  /** The j-th step is the last of the first n that sets byte k of lease i. */
  predicate LastSet(config: Config, s: State, run: seq<Step>, n: nat, i: nat, k: nat, j: nat)
    requires Shape(config, s) && n <= |run|
  {
    && j < n
    && Sets(config, Before(config, s, run, j), run[j], i, k)
    && forall l :: j < l < n ==> !Sets(config, Before(config, s, run, l), run[l], i, k)
  }

  /** A step that does not set a byte leaves it as it is. */
  lemma UnsetStays(config: Config, s: State, step: Step, i: nat, k: nat)
    requires Inv(config, s)
    ensures Shape(config, s)
    ensures var t := Apply(config, s, step);
            !Sets(config, s, step, i, k) && i < |t.leases| && k < |t.leases[i].payload| ==>
              i < |s.leases| && k < |s.leases[i].payload| && t.leases[i].payload[k] == s.leases[i].payload[k]
  {
    hide Inv, Idx, Take, CheckView, SealedHeader, GuardLen, Consistent;
    InvShape(config, s);
  }

  /** A step that sets a byte leaves there what it sets. */
  lemma SetHolds(config: Config, s: State, step: Step, i: nat, k: nat)
    requires Inv(config, s)
    ensures Shape(config, s)
    ensures var t := Apply(config, s, step);
            Sets(config, s, step, i, k) && i < |t.leases| && k < |t.leases[i].payload| ==>
              t.leases[i].payload[k] == SetTo(step, k)
  {
    hide Inv, Idx, Take, CheckView, SealedHeader, GuardLen, Consistent;
    InvShape(config, s);
    if Covers(s, step, i, k) {
      OpenSlot(config, s, i);
    }
  }

  lemma {:induction false} LastSetHolds(config: Config, s: State, run: seq<Step>, n: nat, i: nat, k: nat, j: nat)
    requires Inv(config, s) && Shape(config, s) && n <= |run|
    requires LastSet(config, s, run, n, i, k, j)
    requires var t := Before(config, s, run, n); i < |t.leases| && k < |t.leases[i].payload|
    ensures Before(config, s, run, n).leases[i].payload[k] == SetTo(run[j], k)
    decreases n
  {
    hide Inv, Apply, Exec, SetTo, Sets;
    var u := Before(config, s, run, n - 1);
    ExecKeeps(config, s, run[..n - 1]);
    BeforeNext(config, s, run, n - 1);
    if j == n - 1 {
      SetHolds(config, u, run[j], i, k);
    } else {
      UnsetStays(config, u, run[n - 1], i, k);
      LastSetHolds(config, s, run, n - 1, i, k, j);
    }
  }

  /** A lease that a run has allocated has a last step that sets each of its bytes. */
  lemma {:induction false} LastSetExists(config: Config, s: State, run: seq<Step>, n: nat, i: nat, k: nat)
    returns (j: nat)
    requires Inv(config, s) && Shape(config, s) && s.leases == [] && n <= |run|
    requires var t := Before(config, s, run, n); i < |t.leases| && k < |t.leases[i].payload|
    ensures LastSet(config, s, run, n, i, k, j)
    decreases n
  {
    hide Inv, Apply, Sets;
    assert n > 0;
    hide Exec;
    var u := Before(config, s, run, n - 1);
    ExecKeeps(config, s, run[..n - 1]);
    BeforeNext(config, s, run, n - 1);
    if Sets(config, u, run[n - 1], i, k) {
      j := n - 1;
    } else {
      UnsetStays(config, u, run[n - 1], i, k);
      j := LastSetExists(config, s, run, n - 1, i, k);
    }
  }

  /**
   * After any run, byte k of a lease is what the last step that set it has left there: the byte of the last
   * allowed write that covers it, or zero when none has since the lease was allocated. Such a step exists.
   */
  lemma HoldsLastWrite(config: Config, s: State, run: seq<Step>, i: nat, k: nat) returns (j: nat)
    requires Init(config, s) && Shape(config, s)
    requires var t := Exec(config, s, run); i < |t.leases| && k < |t.leases[i].payload|
    ensures LastSet(config, s, run, |run|, i, k, j)
    ensures Exec(config, s, run).leases[i].payload[k] == SetTo(run[j], k)
  {
    hide Exec, LastSet, SetTo;
    InitHolds(config, s);
    hide Inv;
    assert run[..|run|] == run;
    j := LastSetExists(config, s, run, |run|, i, k);
    LastSetHolds(config, s, run, |run|, i, k, j);
  }

  /** What the consumer is given is, byte for byte, what was last written into the lease before it was sealed. */
  lemma DeliversLastWrite(config: Config, s: State, run: seq<Step>, i: nat, k: nat) returns (j: nat)
    requires Init(config, s) && Shape(config, s)
    requires var t := Exec(config, s, run); i < |t.delivered| && k < |t.delivered[i].payload|
    ensures LastSet(config, s, run, |run|, i, k, j)
    ensures Exec(config, s, run).delivered[i].payload[k] == SetTo(run[j], k)
  {
    hide Exec, Init, LastSet, SetTo;
    var t := Exec(config, s, run);
    assert Reachable(config, t);
    DeliversInAllocOrder(config, t);
    j := HoldsLastWrite(config, s, run, i, k);
  }

  /** What publishing leaves in the slot is, byte for byte, the frame of a single-slot message with those bytes. */
  lemma PublishedIsFrame(config: Config, s: State, i: nat)
    requires Reachable(config, s)
    requires PublishedAt(s.leases, i) && s.freed <= i && !(GripOf(s.consumer).Taking? && i == s.freed)
    ensures config.capacity == |s.slots| > 0
    ensures var slot := At(config, s, i);
            BytesFrame(slot.header + slot.payload, 0, i % U64_RANGE, [], s.leases[i].payload)
  {
    hide Reachable, Idx, FrameBytes, HeaderBytes, HeaderLayout;
    ReachableInv(config, s);
    SlotOfPublished(config, s, i);
    SealedFrame(i % U64_RANGE, s.leases[i].payload);
    EncodedLayout(BytesKind, 0, i % U64_RANGE, 0, 0, [], s.leases[i].payload);
  }

  lemma SlotOfPublished(config: Config, s: State, i: nat)
    requires Inv(config, s)
    requires PublishedAt(s.leases, i) && s.freed <= i && !(GripOf(s.consumer).Taking? && i == s.freed)
    ensures config.capacity == |s.slots| > 0 && Contents(s.leases[i], i, At(config, s, i))
  {
    hide SlotsOk, ProducerOk, ConsumerOk, DeliveredOk, Idx;
    SlotAt(config, s, i);
  }
}
