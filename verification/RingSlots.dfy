/** Facts about the window of claimed cursors and the slots they stand for. */
module RingSlots {
  import opened Chunking
  import opened ChunkingProofs
  import opened Cursors
  import opened Ring
  import opened RingInvariant

  /** Writing the slot of one cursor of a window leaves the slots of the others alone. */
  lemma SlotsSet(slots: seq<Slot>, base: int, c: int, slot: Slot)
    requires base <= c < base + |slots|
    ensures var n := |slots|;
            forall d :: base <= d < base + n ==>
              slots[Idx(c, n) := slot][Idx(d, n)] == if d == c then slot else slots[Idx(d, n)]
  {
    var n := |slots|;
    forall d | base <= d < base + n && d != c
      ensures Idx(c, n) != Idx(d, n)
    {
      if c < d {
        IdxDistinct(c, d, n);
      } else {
        IdxDistinct(d, c, n);
      }
    }
  }

  /** Changing the stage of one cell keeps every cell in its reservation. */
  lemma StageKeepsCells(config: Config, log: seq<Entry>, cells: seq<Cell>, c: nat, stage: Stage)
    requires CellsOk(config, log, cells)
    requires c < |cells|
    ensures CellsOk(config, log, cells[c := cells[c].(stage := stage)])
  {
    hide Sendable, MessageFrames;
    var after := cells[c := cells[c].(stage := stage)];
    forall d | 0 <= d < |after|
      ensures CellOk(config, log, after, d)
    {
      assert CellOk(config, log, cells, d);
    }
  }

  /** A slot in order stays in order when the stage of another cell changes. */
  lemma OtherSlotOk(
    config: Config, log: seq<Entry>, cells: seq<Cell>, after: seq<Cell>, tail: nat, pins: set<nat>, hold: Hold,
    d: int, slot: Slot)
    requires |cells| == |after|
    requires 0 <= d ==> d < |cells| ==> after[d] == cells[d]
    requires SlotOk(config, log, cells, tail, pins, hold, d, slot)
    ensures SlotOk(config, log, after, tail, pins, hold, d, slot)
  {
    hide Sendable, MessageFrames;
    if 0 <= d < |cells| && CellOk(config, log, cells, d) {
      assert CellOk(config, log, after, d);
      assert MessageAt(config, log, cells, d) == MessageAt(config, log, after, d);
      assert FrameAtCursor(config, log, cells, d) == FrameAtCursor(config, log, after, d);
    }
  }

  /** A write to the slot of one unpassed cursor, with the stage it reaches. */
  lemma WriteKeepsSlots(
    config: Config, slots: seq<Slot>, log: seq<Entry>, cells: seq<Cell>, tail: nat, pins: set<nat>, hold: Hold,
    c: nat, slot: Slot, stage: Stage)
    requires SlotsOk(config, slots, log, cells, tail, pins, hold)
    requires tail <= c < |cells| <= tail + config.capacity
    requires SlotOk(config, log, cells[c := cells[c].(stage := stage)], tail, pins, hold, c, slot)
    ensures SlotsOk(config, slots[Idx(c, config.capacity) := slot], log, cells[c := cells[c].(stage := stage)],
                    tail, pins, hold)
  {
    var n := config.capacity;
    var after := cells[c := cells[c].(stage := stage)];
    var written := slots[Idx(c, n) := slot];
    SlotsSet(slots, |cells| - n, c, slot);
    forall d | |after| - n <= d < |after|
      ensures SlotOk(config, log, after, tail, pins, hold, d, written[Idx(d, n)])
    {
      hide Idx, SlotOk;
      if d != c {
        OtherSlotOk(config, log, cells, after, tail, pins, hold, d, slots[Idx(d, n)]);
      }
    }
  }
}
