/** The states of a slot, shared by the in-memory region and the persistent ring. */
module SlotStates {
  datatype SlotState = Free | Writing | Committed | Pinned | Corrupted
}
