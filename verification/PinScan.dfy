/** The scan for the least pinned cursor in the lap behind the tail. */
module PinScan {
  import opened Errors
  import opened Chunking
  import opened SlotStates
  import opened Cursors
  import opened Ring

  /** The first cursor of the lap behind the tail. */
  function ScanStart(config: Config, tail: nat): nat {
    if tail < config.capacity then 0 else tail - config.capacity
  }

  /** The first cursor from `at` up to `tail` whose slot header says PINNED (`scan_pin_floor`). */
  function ScanFloor(config: Config, slots: seq<Slot>, at: nat, tail: nat): Option<nat>
    requires config.capacity == |slots| > 0
    decreases tail - at
  {
    if at >= tail then None
    else if slots[Idx(at, config.capacity)].state == Pinned then Some(at)
    else ScanFloor(config, slots, at + 1, tail)
  }
}
