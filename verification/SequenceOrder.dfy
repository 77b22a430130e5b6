/** The wrapping order on 64-bit sequence numbers, and the recovery fold that looks for the newest one. */
module SequenceOrder {
  import opened Bytes
  import opened Cursors

  const HALF: nat := 0x8000_0000_0000_0000

  /** `left` comes before `right` when right is ahead by less than half the range (`sequence_precedes`). */
  predicate Precedes(left: u64, right: u64) {
    left != right && (right - left) % U64_RANGE < HALF
  }

  /** The number at offset i of the window that starts at `base`. */
  function AtOffset(base: u64, i: nat): u64 {
    (base + i) % U64_RANGE
  }

  lemma WrappedDifference(base: u64, i: nat, j: nat)
    requires i < HALF && j < HALF
    ensures (AtOffset(base, j) - AtOffset(base, i)) % U64_RANGE == if i <= j then j - i else j - i + U64_RANGE
    ensures AtOffset(base, i) == AtOffset(base, j) <==> i == j
  {
    var bi, bj := (base + i) / U64_RANGE, (base + j) / U64_RANGE;
    assert 0 <= bi <= 1 && 0 <= bj <= 1;
  }

  /**
   * Inside a window shorter than half the range the wrapping order is the order of the offsets; so it
   * is irreflexive, transitive and total there, wherever the window lies.
   */
  lemma PrecedesIsOrder(base: u64, i: nat, j: nat)
    requires i < HALF && j < HALF
    ensures Precedes(AtOffset(base, i), AtOffset(base, j)) <==> i < j
    ensures AtOffset(base, i) == AtOffset(base, j) <==> i == j
  {
    WrappedDifference(base, i, j);
  }

  /** Outside such a window the relation is not transitive: three numbers can precede each other in a circle. */
  lemma PrecedesIsNotTransitive()
    ensures var third: u64 := 0x5555_5555_5555_5555;
            Precedes(0, third) && Precedes(third, 2 * third) && Precedes(2 * third, 0)
  {
  }

  /** Two numbers exactly half the range apart do not precede each other at all. */
  lemma HalfApart(a: u64)
    ensures var b: u64 := (a + HALF) % U64_RANGE; a != b && !Precedes(a, b) && !Precedes(b, a)
  {
  }

  /** One step of the recovery scan: the number after an occupied slot's, if it is newer. */
  function Newer(current: u64, seqNo: u64): u64 {
    if Precedes(current, NextSeq(seqNo)) then NextSeq(seqNo) else current
  }

  /** The fold over the occupied slots in scan order. */
  function FoldNewest(start: u64, seqs: seq<u64>): u64 {
    if seqs == [] then start
    else Newer(FoldNewest(start, seqs[..|seqs| - 1]), seqs[|seqs| - 1])
  }

  /** The fold as the source runs it: a loop with one variable. */
  method NextSequence(start: u64, seqs: seq<u64>) returns (next: u64)
    ensures next == FoldNewest(start, seqs)
  {
    next := start;
    for i := 0 to |seqs|
      invariant next == FoldNewest(start, seqs[..i])
    {
      assert seqs[..i + 1][..i] == seqs[..i];
      var candidate := NextSeq(seqs[i]);
      if Precedes(next, candidate) {
        next := candidate;
      }
    }
    assert seqs[..|seqs|] == seqs;
  }

  /** The offsets of a list of occupied slots inside one window. */
  predicate Window(base: u64, offsets: seq<nat>, seqs: seq<u64>) {
    && |offsets| == |seqs|
    && forall i :: 0 <= i < |seqs| ==> offsets[i] + 1 < HALF && seqs[i] == AtOffset(base, offsets[i])
  }

  /** The largest offset after any of the slots, or the start's. */
  function Furthest(start: nat, offsets: seq<nat>): nat {
    if offsets == [] then start
    else
      var rest := Furthest(start, offsets[..|offsets| - 1]);
      var last := offsets[|offsets| - 1] + 1;
      if rest < last then last else rest
  }

  lemma {:induction false} FurthestIsMax(start: nat, offsets: seq<nat>)
    ensures start <= Furthest(start, offsets)
    ensures forall i :: 0 <= i < |offsets| ==> offsets[i] + 1 <= Furthest(start, offsets)
    ensures Furthest(start, offsets) == start || exists i :: 0 <= i < |offsets| && offsets[i] + 1 == Furthest(start,
        offsets)
  {
    if offsets != [] {
      var rest := offsets[..|offsets| - 1];
      FurthestIsMax(start, rest);
      assert forall i :: 0 <= i < |rest| ==> offsets[i] == rest[i];
    }
  }

  lemma SuccessorAt(base: u64, i: nat)
    ensures NextSeq(AtOffset(base, i)) == AtOffset(base, i + 1)
  {
  }

  /**
   * Started inside the window, the fold returns the newest number after any occupied slot, for lists of
   * any length.
   */
  lemma {:induction false} FoldIsNewest(base: u64, start: nat, offsets: seq<nat>, seqs: seq<u64>)
    requires start < HALF
    requires Window(base, offsets, seqs)
    ensures Furthest(start, offsets) < HALF
    ensures FoldNewest(AtOffset(base, start), seqs) == AtOffset(base, Furthest(start, offsets))
  {
    if seqs != [] {
      var n := |seqs| - 1;
      FoldIsNewest(base, start, offsets[..n], seqs[..n]);
      SuccessorAt(base, offsets[n]);
      PrecedesIsOrder(base, Furthest(start, offsets[..n]), offsets[n] + 1);
    }
  }

  lemma MaxIsUnique(start: nat, a: seq<nat>, b: seq<nat>)
    requires forall x :: x in a <==> x in b
    ensures Furthest(start, a) == Furthest(start, b)
  {
    FurthestIsMax(start, a);
    FurthestIsMax(start, b);
    forall i | 0 <= i < |a|
      ensures a[i] + 1 <= Furthest(start, b)
    {
      assert a[i] in b;
    }
    forall i | 0 <= i < |b|
      ensures b[i] + 1 <= Furthest(start, a)
    {
      assert b[i] in a;
    }
  }

  /** The order in which the slots are scanned does not matter, nor how often a number occurs. */
  lemma FoldIgnoresOrder(
    base: u64, start: nat, offsets: seq<nat>, seqs: seq<u64>, offsets': seq<nat>, seqs': seq<u64>)
    requires start < HALF
    requires Window(base, offsets, seqs) && Window(base, offsets', seqs')
    requires forall x :: x in offsets <==> x in offsets'
    ensures FoldNewest(AtOffset(base, start), seqs) == FoldNewest(AtOffset(base, start), seqs')
  {
    FoldIsNewest(base, start, offsets, seqs);
    FoldIsNewest(base, start, offsets', seqs');
    MaxIsUnique(start, offsets, offsets');
  }

  /**
   * An opening handle starts the fold at zero. When the newest number is half the range or more, that
   * start lies outside the window and the newest number can be missed.
   */
  lemma FoldFromZeroCanMiss()
    ensures FoldNewest(0, [HALF - 1]) == 0
    ensures NextSeq(HALF - 1) == HALF
  {
    assert [HALF - 1][..0] == [];
  }

  // ---- The fold of an opening handle ----

  /** A slot whose successor the fold takes when it still stands at zero. */
  predicate LeavesZero(seqNo: u64) {
    0 < NextSeq(seqNo) < HALF
  }

  function FirstLeaving(seqs: seq<u64>): (i: nat)
    ensures i <= |seqs|
    ensures i < |seqs| ==> LeavesZero(seqs[i])
    ensures forall k :: 0 <= k < i ==> !LeavesZero(seqs[k])
  {
    if seqs == [] then 0
    else
      var i := FirstLeaving(seqs[..|seqs| - 1]);
      if i < |seqs| - 1 || LeavesZero(seqs[|seqs| - 1]) then i else |seqs|
  }

  lemma NewerFromZero(seqNo: u64)
    ensures Newer(0, seqNo) == if LeavesZero(seqNo) then NextSeq(seqNo) else 0
  {
  }

  /** From zero the fold ignores every slot before the first one in the lower half, and then works. */
  lemma {:induction false} FoldFromZero(base: u64, offsets: seq<nat>, seqs: seq<u64>)
    requires Window(base, offsets, seqs)
    ensures var f := FirstLeaving(seqs);
            if f == |seqs| then FoldNewest(0, seqs) == 0
            else && offsets[f] + 1 < HALF
                 && FoldNewest(0, seqs) == AtOffset(base, Furthest(offsets[f] + 1, offsets[f..]))
                 && Furthest(offsets[f] + 1, offsets[f..]) < HALF
  {
    hide AtOffset, Precedes, NextSeq, LeavesZero;
    if seqs != [] {
      var n := |seqs| - 1;
      var f := FirstLeaving(seqs);
      FoldFromZero(base, offsets[..n], seqs[..n]);
      NewerFromZero(seqs[n]);
      SuccessorAt(base, offsets[n]);
      if f < n {
        assert offsets[f..][..n - f] == offsets[..n][f..];
        PrecedesIsOrder(base, Furthest(offsets[f] + 1, offsets[f..][..n - f]), offsets[n] + 1);
      } else if f == n {
        assert offsets[f..] == [offsets[n]];
        assert [offsets[n]][..0] == [];
      }
    }
  }

  /** The successor of the k-th slot is the newest number exactly when its offset is the largest. */
  lemma NewestAt(base: u64, offsets: seq<nat>, seqs: seq<u64>, k: nat)
    requires Window(base, offsets, seqs) && k < |seqs|
    ensures NextSeq(seqs[k]) == AtOffset(base, offsets[k] + 1)
    ensures NextSeq(seqs[k]) == AtOffset(base, Furthest(0, offsets)) <==> offsets[k] + 1 == Furthest(0, offsets)
  {
    SuccessorAt(base, offsets[k]);
    FurthestBelow(base, offsets, seqs, 0);
    PrecedesIsOrder(base, offsets[k] + 1, Furthest(0, offsets));
  }

  /**
   * The exact condition: an opening handle finds the newest number if and only if that number lies in
   * the lower half of the range, or its slot is scanned at or after one whose successor does.
   */
  lemma FoldFromZeroExactly(base: u64, offsets: seq<nat>, seqs: seq<u64>)
    requires Window(base, offsets, seqs) && seqs != []
    ensures var newest := AtOffset(base, Furthest(0, offsets));
            FoldNewest(0, seqs) == newest
            <==> newest < HALF
                 || exists i, j :: 0 <= i <= j < |seqs| && LeavesZero(seqs[i]) && NextSeq(seqs[j]) == newest
  {
    var f := FirstLeaving(seqs);
    FoldFromZero(base, offsets, seqs);
    hide AtOffset, Precedes, NextSeq, FoldNewest, Furthest, LeavesZero, FirstLeaving;
    forall k | 0 <= k < |seqs|
      ensures NextSeq(seqs[k]) == AtOffset(base, Furthest(0, offsets)) <==> offsets[k] + 1 == Furthest(0, offsets)
    {
      NewestAt(base, offsets, seqs, k);
    }
    if f < |seqs| {
      FromFirst(base, offsets, seqs, f);
    } else {
      NoneLeaves(base, offsets, seqs);
    }
  }

  lemma FurthestBelow(base: u64, offsets: seq<nat>, seqs: seq<u64>, start: nat)
    requires Window(base, offsets, seqs) && start < HALF
    ensures Furthest(start, offsets) < HALF
  {
    FoldIsNewest(base, start, offsets, seqs);
  }

  /** When no slot is in the lower half, the newest number is zero or in the upper half. */
  lemma NoneLeaves(base: u64, offsets: seq<nat>, seqs: seq<u64>)
    requires Window(base, offsets, seqs) && seqs != []
    requires FirstLeaving(seqs) == |seqs|
    ensures var newest := AtOffset(base, Furthest(0, offsets)); newest == 0 || newest >= HALF
  {
    hide AtOffset, Precedes, NextSeq, Furthest, FirstLeaving;
    FurthestIsMax(0, offsets);
    var i :| 0 <= i < |offsets| && offsets[i] + 1 == Furthest(0, offsets);
    NewestAt(base, offsets, seqs, i);
    assert !LeavesZero(seqs[i]);
  }

  /** The maximum from position f on is the overall maximum exactly when that is reached there. */
  lemma TailReachesMax(offsets: seq<nat>, f: nat)
    requires f < |offsets|
    ensures var m, r := Furthest(0, offsets), Furthest(offsets[f] + 1, offsets[f..]);
            && r <= m
            && (r == m <==> exists j :: f <= j < |offsets| && offsets[j] + 1 == m)
  {
    var r := Furthest(offsets[f] + 1, offsets[f..]);
    FurthestIsMax(0, offsets);
    FurthestIsMax(offsets[f] + 1, offsets[f..]);
    forall j | f <= j < |offsets|
      ensures offsets[j] + 1 <= r
    {
      assert offsets[f..][j - f] == offsets[j];
    }
    if r != offsets[f] + 1 {
      var k :| 0 <= k < |offsets[f..]| && offsets[f..][k] + 1 == r;
      assert offsets[f + k] + 1 == r;
    }
  }

  lemma FromFirst(base: u64, offsets: seq<nat>, seqs: seq<u64>, f: nat)
    requires Window(base, offsets, seqs)
    requires f == FirstLeaving(seqs) < |seqs|
    requires FoldNewest(0, seqs) == AtOffset(base, Furthest(offsets[f] + 1, offsets[f..]))
    requires Furthest(offsets[f] + 1, offsets[f..]) < HALF
    ensures var newest := AtOffset(base, Furthest(0, offsets));
            && (FoldNewest(0, seqs) == newest <==>
               exists j :: f <= j < |seqs| && offsets[j] + 1 == Furthest(0, offsets))
            && (newest < HALF ==> exists j :: f <= j < |seqs| && offsets[j] + 1 == Furthest(0, offsets))
            && LeavesZero(seqs[f])
            && (forall k :: 0 <= k < f ==> !LeavesZero(seqs[k]))
  {
    hide AtOffset, Precedes, NextSeq, FoldNewest, Furthest, FirstLeaving;
    var m := Furthest(0, offsets);
    FurthestBelow(base, offsets, seqs, 0);
    TailReachesMax(offsets, f);
    PrecedesIsOrder(base, Furthest(offsets[f] + 1, offsets[f..]), m);
    FurthestIsMax(0, offsets);
    NewestAt(base, offsets, seqs, f);
    ZeroIsNotAfter(base, offsets[f] + 1, m);
    var i :| 0 <= i < |offsets| && offsets[i] + 1 == m;
    NewestAt(base, offsets, seqs, i);
  }

  /** A number of the lower half cannot come before zero in one window. */
  lemma ZeroIsNotAfter(base: u64, i: nat, m: nat)
    requires i <= m < HALF
    requires 0 < AtOffset(base, i) < HALF
    ensures AtOffset(base, m) != 0
  {
    var bi, bm := (base + i) / U64_RANGE, (base + m) / U64_RANGE;
    assert 0 <= bi <= 1 && 0 <= bm <= 1;
  }
}
