/** Byte storage cut into fixed slots, and the slot state machine on top of it. */
module SlotRegion {
  import opened Bytes
  import opened Errors
  import opened Chunking
  import opened SlotStates

  // ---- Offsets ----

  lemma SlotBounds(capacity: nat, size: nat, index: nat)
    requires index < capacity
    ensures 0 <= index * size <= index * size + size <= capacity * size
  {
    MulMonotone(index + 1, capacity, size);
    assert (index + 1) * size == index * size + size;
  }

  /** Different slots do not overlap. */
  lemma SlotsApart(size: nat, i: nat, j: nat)
    requires i < j
    ensures i * size + size <= j * size
  {
    MulMonotone(i + 1, j, size);
    assert (i + 1) * size == i * size + size;
  }

  // ---- Storage ----

  class MemorySlotStorage {
    const capacity: usize
    const slotSize: usize
    const data: array<byte>

    ghost predicate Valid() {
      && capacity > 0 && slotSize > 0
      && capacity * slotSize <= USIZE_MAX
      && data.Length == capacity * slotSize
    }

    /** The bytes of one slot. */
    ghost function Slot(i: nat): (s: seq<byte>)
      requires Valid() && i < capacity
      reads data
      ensures |s| == slotSize
    {
      SlotBounds(capacity, slotSize, i);
      data[i * slotSize..i * slotSize + slotSize]
    }

    constructor (capacity: usize, slotSize: usize)
      requires capacity > 0 && slotSize > 0
      requires capacity * slotSize <= USIZE_MAX
      ensures Valid() && fresh(data)
      ensures this.capacity == capacity && this.slotSize == slotSize
    {
      this.capacity := capacity;
      this.slotSize := slotSize;
      data := new byte[capacity * slotSize](_ => 0);
    }

    static method New(capacity: usize, slotSize: usize) returns (r: Result<MemorySlotStorage>)
      ensures r.Ok? <==> capacity > 0 && slotSize > 0 && capacity * slotSize <= USIZE_MAX
      ensures r.Ok? ==> fresh(r.value) && fresh(r.value.data) && r.value.Valid()
                        && r.value.capacity == capacity && r.value.slotSize == slotSize
      ensures r.Err? ==> r.error.Channel? && r.error.channel.InvalidConfig?
    {
      if capacity == 0 {
        return Err(Channel(InvalidConfig("capacity must be greater than zero")));
      }
      if slotSize == 0 {
        return Err(Channel(InvalidConfig("slot_size must be greater than zero")));
      }
      if capacity * slotSize > USIZE_MAX {
        return Err(Channel(InvalidConfig("storage size overflow")));
      }
      var storage := new MemorySlotStorage(capacity, slotSize);
      return Ok(storage);
    }

    method WriteSlot(index: usize, bytes: seq<byte>) returns (r: Result<()>)
      requires Valid()
      modifies data
      ensures |bytes| > slotSize ==> r == Err(Channel(MessageTooLarge(|bytes|, slotSize)))
      ensures |bytes| <= slotSize && index >= capacity ==>
                r == Err(Channel(InvalidConfig("slot index out of range")))
      ensures |bytes| <= slotSize && index < capacity ==>
                && r == Ok(())
                && Slot(index) == bytes + old(Slot(index))[|bytes|..]
      ensures forall i :: 0 <= i < capacity && (r.Err? || i != index) ==> Slot(i) == old(Slot(i))
    {
      if |bytes| > slotSize {
        return Err(Channel(MessageTooLarge(|bytes|, slotSize)));
      }
      if index >= capacity {
        return Err(Channel(InvalidConfig("slot index out of range")));
      }
      SlotBounds(capacity, slotSize, index);
      var offset := index * slotSize;
      ghost var before := data[..];
      forall j | 0 <= j < |bytes| {
        data[offset + j] := bytes[j];
      }
      Overwritten(before, data[..], index, bytes);
      return Ok(());
    }

    /** Overwriting the front of one slot changes that slot only. */
    lemma Overwritten(before: seq<byte>, after: seq<byte>, index: nat, bytes: seq<byte>)
      requires Valid() && index < capacity && |bytes| <= slotSize
      requires |before| == |after| == data.Length
      requires forall j :: 0 <= j < |after| ==>
                 after[j] == if index * slotSize <= j < index * slotSize + |bytes| then bytes[j - index * slotSize]
                             else before[j]
      ensures forall i :: 0 <= i < capacity ==>
                && 0 <= i * slotSize <= i * slotSize + slotSize <= data.Length
                && after[i * slotSize..i * slotSize + slotSize] ==
                   if i == index then bytes + before[i * slotSize..i * slotSize + slotSize][|bytes|..]
                   else before[i * slotSize..i * slotSize + slotSize]
    {
      forall i | 0 <= i < capacity
        ensures 0 <= i * slotSize <= i * slotSize + slotSize <= data.Length
        ensures after[i * slotSize..i * slotSize + slotSize] ==
                   if i == index then bytes + before[i * slotSize..i * slotSize + slotSize][|bytes|..]
                   else before[i * slotSize..i * slotSize + slotSize]
      {
        SlotBounds(capacity, slotSize, i);
        if i < index {
          SlotsApart(slotSize, i, index);
        } else if index < i {
          SlotsApart(slotSize, index, i);
        }
      }
    }

    method ReadSlot(index: usize, len: usize) returns (r: Result<seq<byte>>)
      requires Valid()
      ensures len > slotSize ==> r == Err(Channel(MessageTooLarge(len, slotSize)))
      ensures len <= slotSize && index >= capacity ==>
                r == Err(Channel(InvalidConfig("slot index out of range")))
      ensures len <= slotSize && index < capacity ==> r == Ok(Slot(index)[..len])
    {
      if len > slotSize {
        return Err(Channel(MessageTooLarge(len, slotSize)));
      }
      if index >= capacity {
        return Err(Channel(InvalidConfig("slot index out of range")));
      }
      SlotBounds(capacity, slotSize, index);
      assert data[index * slotSize..index * slotSize + len] == Slot(index)[..len];
      return Ok(data[index * slotSize..index * slotSize + len]);
    }

    method ClearSlot(index: usize) returns (r: Result<()>)
      requires Valid()
      modifies data
      ensures index >= capacity ==> r == Err(Channel(InvalidConfig("slot index out of range")))
      ensures index < capacity ==> r == Ok(()) && Slot(index) == Zeros(slotSize)
      ensures forall i :: 0 <= i < capacity && (r.Err? || i != index) ==> Slot(i) == old(Slot(i))
    {
      if index >= capacity {
        return Err(Channel(InvalidConfig("slot index out of range")));
      }
      SlotBounds(capacity, slotSize, index);
      var offset := index * slotSize;
      ghost var before := data[..];
      forall j | 0 <= j < slotSize {
        data[offset + j] := 0;
      }
      Overwritten(before, data[..], index, Zeros(slotSize));
      return Ok(());
    }
  }

  // ---- The slot state machine ----

  datatype FixedSlot = FixedSlot(state: SlotState, seqNo: u64, payloadLen: nat)

  const DEFAULT_SLOT := FixedSlot(Free, 0, 0)

  /** A slot as its readers see it: its header and the frame it holds. */
  datatype SlotView = SlotView(state: SlotState, seqNo: u64, frame: seq<byte>)

  const FREE_VIEW := SlotView(Free, 0, [])

  datatype Snapshot = Snapshot(state: SlotState, seqNo: u64, payloadLen: nat, data: seq<byte>)

  class FixedSlotRegion {
    const storage: MemorySlotStorage
    const slots: array<FixedSlot>

    ghost predicate Valid()
      reads slots
    {
      && storage.Valid()
      && slots.Length == storage.capacity
      && forall i :: 0 <= i < slots.Length ==>
           && slots[i].payloadLen <= storage.slotSize
           && (slots[i].state == Free ==> slots[i] == DEFAULT_SLOT)
    }

    ghost function ViewOf(i: nat): SlotView
      requires Valid() && i < slots.Length
      reads slots, storage.data
    {
      SlotView(slots[i].state, slots[i].seqNo, storage.Slot(i)[..slots[i].payloadLen])
    }

    /** All slots as their readers see them. */
    ghost function View(): (view: seq<SlotView>)
      requires Valid()
      reads slots, storage.data
      ensures |view| == slots.Length
      ensures forall i :: 0 <= i < |view| ==> view[i] == ViewOf(i)
    {
      seq(slots.Length, i requires 0 <= i < slots.Length && Valid() reads slots, storage.data => ViewOf(i))
    }

    constructor (storage: MemorySlotStorage)
      requires storage.Valid()
      ensures Valid() && fresh(slots) && this.storage == storage
      ensures View() == seq(storage.capacity, _ => FREE_VIEW)
    {
      this.storage := storage;
      slots := new FixedSlot[storage.capacity](_ => DEFAULT_SLOT);
    }

    method WriteCommitted(index: usize, seqNo: u64, frame: seq<byte>) returns (r: Result<()>)
      requires Valid()
      modifies slots, storage.data
      ensures Valid()
      ensures r == if |frame| > storage.slotSize then Err(Channel(MessageTooLarge(|frame|, storage.slotSize)))
                   else if index >= slots.Length then Err(Channel(InvalidConfig("slot index out of range")))
                   else if old(View())[index].state != Free then Err(Channel(BufferFull))
                   else Ok(())
      ensures r.Err? ==> View() == old(View())
      ensures r.Ok? ==> View() == old(View())[index := SlotView(Committed, seqNo, frame)]
    {
      if |frame| > storage.slotSize {
        return Err(Channel(MessageTooLarge(|frame|, storage.slotSize)));
      }
      if index >= slots.Length {
        return Err(Channel(InvalidConfig("slot index out of range")));
      }
      if slots[index].state != Free {
        return Err(Channel(BufferFull));
      }
      slots[index] := FixedSlot(Writing, seqNo, |frame|);
      var _ := storage.WriteSlot(index, frame);
      slots[index] := slots[index].(state := Committed);
      return Ok(());
    }

    /** Reads a committed slot and pins it. */
    method ReadCommitted(index: usize) returns (r: Result<Snapshot>)
      requires Valid()
      modifies slots
      ensures Valid()
      ensures index >= slots.Length ==> r == Err(Channel(InvalidConfig("slot index out of range")))
      ensures index < slots.Length ==>
                var seen := old(View())[index];
                r == if seen.state != Committed then Err(Channel(BufferEmpty))
                     else Ok(Snapshot(Pinned, seen.seqNo, |seen.frame|, seen.frame))
      ensures r.Err? ==> View() == old(View())
      ensures r.Ok? ==> View() == old(View())[index := old(View())[index].(state := Pinned)]
    {
      if index >= slots.Length {
        return Err(Channel(InvalidConfig("slot index out of range")));
      }
      var slot := slots[index];
      if slot.state != Committed {
        return Err(Channel(BufferEmpty));
      }
      var data := storage.ReadSlot(index, slot.payloadLen);
      slots[index] := slot.(state := Pinned);
      return Ok(Snapshot(Pinned, slot.seqNo, slot.payloadLen, data.value));
    }

    method PeekCommitted(index: usize) returns (r: Result<Snapshot>)
      requires Valid()
      ensures index >= slots.Length ==> r == Err(Channel(InvalidConfig("slot index out of range")))
      ensures index < slots.Length ==>
                var seen := View()[index];
                r == if seen.state != Committed then Err(Channel(BufferEmpty))
                     else Ok(Snapshot(Committed, seen.seqNo, |seen.frame|, seen.frame))
    {
      if index >= slots.Length {
        return Err(Channel(InvalidConfig("slot index out of range")));
      }
      var slot := slots[index];
      if slot.state != Committed {
        return Err(Channel(BufferEmpty));
      }
      var data := storage.ReadSlot(index, slot.payloadLen);
      return Ok(Snapshot(Committed, slot.seqNo, slot.payloadLen, data.value));
    }

    method ReleasePinned(index: usize) returns (r: Result<()>)
      requires Valid()
      modifies slots, storage.data
      ensures Valid()
      ensures r == if index >= slots.Length then Err(Channel(InvalidConfig("slot index out of range")))
                   else if old(View())[index].state != Pinned then Err(Channel(InvalidConfig("slot is not pinned")))
                   else Ok(())
      ensures View() == if r.Ok? then old(View())[index := FREE_VIEW] else old(View())
      ensures r.Ok? ==> storage.Slot(index) == Zeros(storage.slotSize)
    {
      if index >= slots.Length {
        return Err(Channel(InvalidConfig("slot index out of range")));
      }
      if slots[index].state != Pinned {
        return Err(Channel(InvalidConfig("slot is not pinned")));
      }
      ReleaseSlot(index);
      return Ok(());
    }

    method ReleaseCommitted(index: usize) returns (r: Result<()>)
      requires Valid()
      modifies slots, storage.data
      ensures Valid()
      ensures r == if index >= slots.Length then Err(Channel(InvalidConfig("slot index out of range")))
                   else if old(View())[index].state != Committed
                   then Err(Channel(InvalidConfig("slot is not committed")))
                   else Ok(())
      ensures View() == if r.Ok? then old(View())[index := FREE_VIEW] else old(View())
      ensures r.Ok? ==> storage.Slot(index) == Zeros(storage.slotSize)
    {
      if index >= slots.Length {
        return Err(Channel(InvalidConfig("slot index out of range")));
      }
      if slots[index].state != Committed {
        return Err(Channel(InvalidConfig("slot is not committed")));
      }
      ReleaseSlot(index);
      return Ok(());
    }

    method ReleaseSlot(index: usize)
      requires Valid()
      requires index < slots.Length
      modifies slots, storage.data
      ensures Valid()
      ensures View() == old(View())[index := FREE_VIEW]
      ensures storage.Slot(index) == Zeros(storage.slotSize)
    {
      var _ := storage.ClearSlot(index);
      slots[index] := DEFAULT_SLOT;
    }
  }
}
