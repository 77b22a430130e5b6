/** What an opening handle makes of the views of consumers that are gone. */
module RecoveryPins {
  import opened Errors
  import opened Chunking
  import opened Cursors
  import opened Ring
  import opened RingInvariant
  import opened RingProducer
  import opened RingClaim
  import opened RingConsumer
  import opened RingView
  import opened RingTheorems
  import opened PinScan
  import opened Recovery

  /** The cursor of a live pin has the slot. */
  ghost predicate PinnedBy(config: Config, s: State, c: nat, i: nat) {
    config.capacity > 0 && c in s.pins && Idx(c, config.capacity) == i
  }

  /** The slots of the region when every view has left the identity of the process that made it in its slot. */
  ghost function Stamped(config: Config, s: State, who: map<nat, nat>): (slots: seq<Slot>)
    requires s.pins <= who.Keys
    ensures |slots| == |s.slots|
  {
    seq(|s.slots|, i requires 0 <= i < |s.slots| =>
      if exists c: nat :: PinnedBy(config, s, c, i) then
        var c: nat :| PinnedBy(config, s, c, i);
        s.slots[i].(writer := Some(Identity(who[c], 1)))
      else s.slots[i])
  }

  /** No two live pins share a slot. */
  lemma PinsApart(config: Config, s: State, c: nat, d: nat)
    requires Inv(config, s) && c in s.pins && d in s.pins
    requires Idx(c, config.capacity) == Idx(d, config.capacity)
    ensures c == d
  {
    hide Inv, Parts, Idx;
    InvFloor(config, s);
    if c < d {
      IdxDistinct(c, d, config.capacity);
    } else if d < c {
      IdxDistinct(d, c, config.capacity);
    }
  }

  lemma StampedAt(config: Config, s: State, who: map<nat, nat>, c: nat)
    requires Inv(config, s) && s.pins <= who.Keys && c in s.pins
    ensures |s.slots| == config.capacity > 0
    ensures Stamped(config, s, who)[Idx(c, config.capacity)]
         == At(config, s, c).(writer := Some(Identity(who[c], 1)))
  {
    hide Inv, Parts, Idx;
    SlotCount(config, s);
    var i := Idx(c, config.capacity);
    assert PinnedBy(config, s, c, i);
    forall d: nat | PinnedBy(config, s, d, i)
      ensures d == c
    {
      PinsApart(config, s, c, d);
    }
  }

  /** The pins of processes that are still there. */
  function LivePins(pins: set<nat>, who: map<nat, nat>, gone: set<nat>): (live: set<nat>)
    requires pins <= who.Keys
  {
    set c | c in pins && who[c] !in gone
  }

  /** The sweep of a slot that a view has pinned. */
  lemma SweptPin(config: Config, s: State, who: map<nat, nat>, gone: set<nat>, c: nat)
    requires Inv(config, s) && s.pins <= who.Keys && c in s.pins
    ensures |s.slots| == config.capacity > 0
    ensures var slots, i := Stamped(config, s, who), Idx(c, config.capacity);
            && slots[i].state.Pinned?
            && SweptRegion(config, slots, gone)[i] == if who[c] in gone then EMPTY_SLOT else slots[i]
  {
    hide Inv, Parts, Idx, DataOk, Stamped;
    PinnedSlot(config, s, c);
    StampedAt(config, s, who, c);
  }

  /** Stamping and sweeping pin nothing that was not pinned. */
  lemma UnpinnedStays(config: Config, s: State, who: map<nat, nat>, gone: set<nat>, i: nat)
    requires s.pins <= who.Keys && i < |s.slots|
    requires !s.slots[i].state.Pinned?
    ensures !SweptRegion(config, Stamped(config, s, who), gone)[i].state.Pinned?
  {
  }

  /** After the sweep, within one lap behind the tail, exactly the live views still pin their slots. */
  lemma SweptHeader(config: Config, s: State, who: map<nat, nat>, gone: set<nat>, at: nat)
    requires Inv(config, s) && s.pins <= who.Keys
    requires !MidReceive(config, s)
    requires at < s.tail <= at + config.capacity
    ensures |s.slots| == config.capacity > 0
    ensures SweptRegion(config, Stamped(config, s, who), gone)[Idx(at, config.capacity)].state.Pinned?
        <==> at in LivePins(s.pins, who, gone)
  {
    hide Inv, Parts, Idx, SweptRegion, Stamped;
    SlotCount(config, s);
    ScanFindsPin(config, s, at);
    if at in s.pins {
      SweptPin(config, s, who, gone, at);
    } else {
      UnpinnedStays(config, s, who, gone, Idx(at, config.capacity));
    }
  }

  lemma {:induction false} SweptScan(config: Config, s: State, who: map<nat, nat>, gone: set<nat>, at: nat)
    requires Inv(config, s) && s.pins <= who.Keys
    requires !MidReceive(config, s)
    requires at <= s.tail <= at + config.capacity
    requires forall c :: c in LivePins(s.pins, who, gone) ==> at <= c
    ensures |s.slots| == config.capacity > 0
    ensures IsFloor(ScanFloor(config, SweptRegion(config, Stamped(config, s, who), gone), at, s.tail),
                    LivePins(s.pins, who, gone) - {s.tail})
    decreases s.tail - at
  {
    hide Inv, Parts, Idx, SweptRegion, Stamped, LivePins;
    SlotCount(config, s);
    var live := LivePins(s.pins, who, gone);
    LiveAtTail(config, s, who, gone);
    if at < s.tail {
      SweptHeader(config, s, who, gone, at);
      if at !in live {
        SweptScan(config, s, who, gone, at + 1);
      }
    } else {
      assert forall c :: c in live - {s.tail} ==> false;
    }
  }

  /** No pin is ahead of the tail, and none is more than a lap behind it. */
  lemma LiveAtTail(config: Config, s: State, who: map<nat, nat>, gone: set<nat>)
    requires Inv(config, s) && s.pins <= who.Keys
    ensures forall c :: c in LivePins(s.pins, who, gone) ==> ScanStart(config, s.tail) <= c <= s.tail
    ensures ScanStart(config, s.tail) <= s.tail <= ScanStart(config, s.tail) + config.capacity
  {
    hide Inv, Parts;
    InvFloor(config, s);
    InvCursors(config, s);
  }

  /**
   * Whoever holds the views, an opening handle frees exactly the pinned slots of consumers that are gone,
   * keeps every other view as it is, and rescans the floor to the least pin that is left, or none: the dead
   * consumer's pins no longer hold the ring back. (While a receive has the tail slot pinned one lap into the
   * run, the scan can be misled as it is without any sweep.)
   */
  lemma OpeningFreesDeadPins(config: Config, s: State, who: map<nat, nat>, gone: set<nat>)
    requires Reachable(config, s) && s.pins <= who.Keys
    ensures |s.slots| == config.capacity > 0
    ensures var slots := Stamped(config, s, who);
            var swept := SweptRegion(config, slots, gone);
            && (forall c :: c in s.pins ==>
                  swept[Idx(c, config.capacity)]
                  == if who[c] in gone then EMPTY_SLOT else At(config, s, c).(writer := Some(Identity(who[c], 1))))
            && (forall i :: 0 <= i < |slots| && !s.slots[i].state.Pinned? && !s.slots[i].state.Writing? ==>
                  swept[i] == s.slots[i])
            && (!MidReceive(config, s) ==>
                  IsFloor(ScanFloor(config, swept, ScanStart(config, s.tail), s.tail),
                          LivePins(s.pins, who, gone) - {s.tail}))
  {
    hide Inv, Parts, Reachable, Idx, SweptRegion, Stamped, LivePins;
    ReachableInv(config, s);
    var slots := Stamped(config, s, who);
    var swept := SweptRegion(config, slots, gone);
    forall c | c in s.pins
      ensures swept[Idx(c, config.capacity)]
           == if who[c] in gone then EMPTY_SLOT else At(config, s, c).(writer := Some(Identity(who[c], 1)))
    {
      SweptPin(config, s, who, gone, c);
      StampedAt(config, s, who, c);
    }
    forall i | 0 <= i < |slots| && !s.slots[i].state.Pinned? && !s.slots[i].state.Writing?
      ensures swept[i] == s.slots[i]
    {
      IdleStays(config, s, who, gone, i);
    }
    LiveAtTail(config, s, who, gone);
    if !MidReceive(config, s) {
      SweptScan(config, s, who, gone, ScanStart(config, s.tail));
    }
  }

  lemma IdleStays(config: Config, s: State, who: map<nat, nat>, gone: set<nat>, i: nat)
    requires Inv(config, s) && s.pins <= who.Keys && i < |s.slots|
    requires !s.slots[i].state.Pinned? && !s.slots[i].state.Writing?
    ensures SweptRegion(config, Stamped(config, s, who), gone)[i] == s.slots[i]
  {
    hide Inv, Parts, Idx, DataOk;
    SlotCount(config, s);
    forall c: nat | PinnedBy(config, s, c, i)
      ensures false
    {
      PinnedSlot(config, s, c);
    }
  }
}
