/** A window of slots that starts at `tail` and wraps around, and how writes at its ends change it. */
module SlotRing {
  import opened SlotRegion

  /** The slot `j` places after `tail` on a ring of `capacity` slots. */
  function Wrap(tail: nat, j: nat, capacity: nat): (index: nat)
    requires tail < capacity && j <= capacity
    ensures index < capacity
  {
    if tail + j < capacity then tail + j else tail + j - capacity
  }

  /** Advancing an index by one modulo the capacity is the next place on the ring. */
  lemma WrapNext(tail: nat, j: nat, capacity: nat)
    requires tail < capacity && j < capacity
    ensures (Wrap(tail, j, capacity) + 1) % capacity == Wrap(tail, j + 1, capacity)
  {
  }

  lemma WrapShift(tail: nat, j: nat, capacity: nat)
    requires tail < capacity && j < capacity
    ensures Wrap(Wrap(tail, 1, capacity), j, capacity) == if j + 1 == capacity then tail else Wrap(tail, j + 1,
        capacity)
  {
  }

  /** The `len` slots from `tail` on. */
  function Window(view: seq<SlotView>, tail: nat, len: nat): (window: seq<SlotView>)
    requires tail < |view| && len <= |view|
    ensures |window| == len
  {
    seq(len, j requires 0 <= j < len => view[Wrap(tail, j, |view|)])
  }

  /** Every slot outside the window is free. */
  predicate FreeOutside(view: seq<SlotView>, tail: nat, len: nat)
    requires tail < |view| && len <= |view|
  {
    forall j :: len <= j < |view| ==> view[Wrap(tail, j, |view|)] == FREE_VIEW
  }

  /** A write at the head of the window appends to it. */
  lemma WindowPush(view: seq<SlotView>, tail: nat, len: nat, slot: SlotView)
    requires tail < |view| && len < |view|
    requires FreeOutside(view, tail, len)
    ensures view[Wrap(tail, len, |view|)] == FREE_VIEW
    ensures var after := view[Wrap(tail, len, |view|) := slot];
            && FreeOutside(after, tail, len + 1)
            && Window(after, tail, len + 1) == Window(view, tail, len) + [slot]
  {
  }

  /** A write at the tail of the window replaces its first slot. */
  lemma WindowFront(view: seq<SlotView>, tail: nat, len: nat, slot: SlotView)
    requires tail < |view| && 0 < len <= |view|
    requires FreeOutside(view, tail, len)
    ensures var after := view[tail := slot];
            && FreeOutside(after, tail, len)
            && Window(after, tail, len) == Window(view, tail, len)[0 := slot]
  {
  }

  /** Freeing the tail slot and moving the tail drops the first slot of the window. */
  lemma WindowPop(view: seq<SlotView>, tail: nat, len: nat)
    requires tail < |view| && 0 < len <= |view|
    requires FreeOutside(view, tail, len)
    ensures var after, next := view[tail := FREE_VIEW], Wrap(tail, 1, |view|);
            && FreeOutside(after, next, len - 1)
            && Window(after, next, len - 1) == Window(view, tail, len)[1..]
  {
    var after, next := view[tail := FREE_VIEW], Wrap(tail, 1, |view|);
    forall j | 0 <= j < |view|
      ensures Wrap(next, j, |view|) == if j + 1 == |view| then tail else Wrap(tail, j + 1, |view|)
    {
      WrapShift(tail, j, |view|);
    }
  }

  /** A slot under the tail that is not free means that the window is not empty. */
  lemma OccupiedTail(view: seq<SlotView>, tail: nat, len: nat)
    requires tail < |view| && len <= |view|
    requires FreeOutside(view, tail, len)
    requires view[tail] != FREE_VIEW
    ensures len > 0 && Window(view, tail, len)[0] == view[tail]
  {
    assert Wrap(tail, 0, |view|) == tail;
  }

  /** The head stands right behind the window, and every slot outside the window is free. */
  predicate Shape(view: seq<SlotView>, head: nat, tail: nat, len: nat)
    requires tail < |view| && len <= |view|
  {
    head == Wrap(tail, len, |view|) && FreeOutside(view, tail, len)
  }

  lemma ShapeBounds(view: seq<SlotView>, head: nat, tail: nat, len: nat)
    requires tail < |view| && len <= |view|
    requires Shape(view, head, tail, len)
    ensures head < |view|
    ensures len > 0 ==> view[tail] == Window(view, tail, len)[0]
  {
  }

  /** Committing a slot at the head. */
  lemma Push(view: seq<SlotView>, head: nat, tail: nat, len: nat, slot: SlotView)
    requires tail < |view| && len < |view|
    requires Shape(view, head, tail, len)
    ensures head < |view| && view[head] == FREE_VIEW
    ensures Shape(view[head := slot], (head + 1) % |view|, tail, len + 1)
    ensures Window(view[head := slot], tail, len + 1) == Window(view, tail, len) + [slot]
  {
    WindowPush(view, tail, len, slot);
    WrapNext(tail, len, |view|);
  }

  /** Releasing the slot at the tail and moving past it. */
  lemma Pop(view: seq<SlotView>, head: nat, tail: nat, len: nat)
    requires tail < |view| && len <= |view|
    requires Shape(view, head, tail, len)
    requires view[tail] != FREE_VIEW
    ensures len > 0
    ensures (tail + 1) % |view| < |view|
    ensures Shape(view[tail := FREE_VIEW], head, (tail + 1) % |view|, len - 1)
    ensures Window(view[tail := FREE_VIEW], (tail + 1) % |view|, len - 1) == Window(view, tail, len)[1..]
  {
    OccupiedTail(view, tail, len);
    WindowPop(view, tail, len);
    WrapNext(tail, 0, |view|);
  }

  /** Changing the slot at the tail in place. */
  lemma Front(view: seq<SlotView>, head: nat, tail: nat, len: nat, slot: SlotView)
    requires tail < |view| && len <= |view|
    requires Shape(view, head, tail, len)
    requires view[tail] != FREE_VIEW
    ensures len > 0 && view[tail] == Window(view, tail, len)[0]
    ensures Shape(view[tail := slot], head, tail, len)
    ensures Window(view[tail := slot], tail, len) == Window(view, tail, len)[0 := slot]
  {
    OccupiedTail(view, tail, len);
    WindowFront(view, tail, len, slot);
  }
}
