/** The error values of the source and the result type that carries them. */
module Errors {
  import opened Bytes

  datatype ChannelError =
    | Closed
    | BufferFull
    | BufferEmpty
    | MessageTooLarge(len: nat, slotSize: nat)
    | CorruptedMessage
    | SequenceMismatch(expected: u64, actual: u64)
    | InvalidConfig(reason: string)

  datatype ProtocolError =
    | FrameTooShort(len: nat, minimum: nat)
    | InvalidMagic(magic: u32)
    | UnsupportedVersion(version: u16)
    | InvalidFrameKind(kind: u16)
    | InvalidHeaderLength(headerLen: nat, minimum: nat)
    | InvalidPayloadLength(declaredPayload: u64, available: nat)
    | InvalidMetadataLength(offset: nat, declared: nat)
    | HeaderLengthOverflow

  datatype Error = Channel(channel: ChannelError) | Protocol(protocol: ProtocolError)

  datatype Result<+T> = Ok(value: T) | Err(error: Error) {
    predicate IsFailure() {
      Err?
    }

    function PropagateFailure<U>(): Result<U>
      requires Err?
    {
      Err(error)
    }

    function Extract(): T
      requires Ok?
    {
      value
    }
  }

  datatype Option<+T> = None | Some(value: T)
}
