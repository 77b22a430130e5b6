/** How a message is split into frames, and how a received frame is checked. */
module Chunking {
  import opened Bytes
  import opened Errors
  import opened Crc
  import opened FrameCodec

  const FLAG_CHUNKED: u16 := 1
  const FLAG_CHUNK_START: u16 := 2
  const FLAG_CHUNK_END: u16 := 4
  const TLV_CHUNK_INDEX: u16 := 100
  const TLV_CHUNK_TOTAL: u16 := 101
  const TLV_CHUNK_MESSAGE_LEN: u16 := 102
  const CHUNK_METADATA_LEN: nat := 42

  datatype Backpressure = Block | Raise | DropNewest | DropOldest

  datatype Config = Config(
    capacity: usize, slotSize: usize, backpressure: Backpressure, hasTimeout: bool, multiProducer: bool)
  {
    predicate Valid() {
      capacity > 0 && slotSize > 0
    }
  }

  datatype SendPlan = SendPlan(chunkPayloadSize: nat, neededSlots: nat)

  datatype Message = Message(seqNo: u64, payload: seq<byte>)

  datatype ChunkInfo = ChunkInfo(index: nat, total: nat, messageLen: nat)

  // ---- Planning ----

  /** The longest message a configuration accepts; a product that overflows falls back to one slot. */
  function MaxMessageSize(config: Config): nat {
    var chunkPayloadSize := if config.slotSize >= CHUNK_METADATA_LEN then config.slotSize - CHUNK_METADATA_LEN else 0;
    var chunked := config.capacity * chunkPayloadSize;
    if chunked > USIZE_MAX || chunked < config.slotSize then config.slotSize else chunked
  }

  function PlanFor(config: Config, len: usize): Result<SendPlan> {
    if len <= config.slotSize then Ok(SendPlan(config.slotSize, 1))
    else if config.slotSize <= CHUNK_METADATA_LEN then Err(Channel(MessageTooLarge(len, MaxMessageSize(config))))
    else
      var size := config.slotSize - CHUNK_METADATA_LEN;
      if len + (size - 1) > USIZE_MAX then Err(Channel(InvalidConfig("message size overflow")))
      else
        var needed := (len + (size - 1)) / size;
        if config.capacity * size > USIZE_MAX then Err(Channel(InvalidConfig("message size overflow")))
        else if needed > config.capacity || len > config.capacity * size then
          Err(Channel(MessageTooLarge(len, MaxMessageSize(config))))
        else Ok(SendPlan(size, needed))
  }

  // ---- Encoding ----

  function ChunkFlags(index: nat, total: nat): u16 {
    FLAG_CHUNKED + (if index == 0 then FLAG_CHUNK_START else 0) + (if index + 1 == total then FLAG_CHUNK_END else 0)
  }

  function ChunkMetadata(index: usize, total: usize, messageLen: usize): (items: seq<Metadata>)
    ensures TlvLen(items) == CHUNK_METADATA_LEN
  {
    var items := [Metadata(TLV_CHUNK_INDEX, Le(index, 8)),
                  Metadata(TLV_CHUNK_TOTAL, Le(total, 8)),
                  Metadata(TLV_CHUNK_MESSAGE_LEN, Le(messageLen, 8))];
    assert items[1..][1..] == [items[2]];
    assert items[1..][1..][1..] == [];
    assert TlvLen(items[1..][1..]) == TLV_HEADER_LEN + 8;
    assert TlvLen(items[1..]) == 2 * (TLV_HEADER_LEN + 8);
    items
  }

  /** The number of chunks of `size` bytes that cover `len` bytes. */
  function ChunkCount(len: nat, size: nat): nat
    requires size > 0
  {
    (len + (size - 1)) / size
  }

  function ChunkStart(len: nat, size: nat, index: nat): nat {
    if index * size < len then index * size else len
  }

  function Chunk(bytes: seq<byte>, size: nat, index: nat): seq<byte> {
    ChunkBounds(|bytes|, size, index);
    bytes[ChunkStart(|bytes|, size, index)..ChunkStart(|bytes|, size, index + 1)]
  }

  lemma ChunkBounds(len: nat, size: nat, index: nat)
    ensures ChunkStart(len, size, index) <= ChunkStart(len, size, index + 1) <= len
    ensures ChunkStart(len, size, index + 1) - ChunkStart(len, size, index) <= size
  {
    assert (index + 1) * size == index * size + size;
  }

  lemma DivBounds(x: nat, d: nat)
    requires d > 0
    ensures x / d * d <= x < x / d * d + d
  {
    assert x == d * (x / d) + x % d;
  }

  lemma MulMonotone(a: int, b: int, c: nat)
    requires a <= b
    ensures a * c <= b * c
  {
    assert b * c == a * c + (b - a) * c;
    assert (b - a) * c >= 0;
  }

  lemma ChunkCountBounds(len: nat, size: nat)
    requires size > 0
    ensures var n := ChunkCount(len, size);
            && len <= n * size
            && n <= len
            && (len > 0 ==> n > 0 && (n - 1) * size < len)
  {
    var n := ChunkCount(len, size);
    DivBounds(len + (size - 1), size);
    assert (n - 1) * size == n * size - size;
    if len > 0 {
      assert n == 0 ==> n * size == 0;
      MulMonotone(1, size, n - 1);
    } else if n > 0 {
      MulMonotone(1, n, size);
    }
  }

  function WholeFrame(seqNo: u64, bytes: seq<byte>): (r: Result<seq<byte>>)
    requires |bytes| <= USIZE_MAX
    ensures r.Ok? && |r.value| == FRAME_HEADER_LEN + |bytes|
  {
    FrameBytes(BytesKind, 0, seqNo, 0, 0, [], bytes)
  }

  function ChunkFrame(total: usize, seqNo: u64, messageLen: usize, index: usize, chunk: seq<byte>)
    : (r: Result<seq<byte>>)
    requires |chunk| <= USIZE_MAX
    ensures r.Ok? && |r.value| == FRAME_HEADER_LEN + CHUNK_METADATA_LEN + |chunk|
  {
    FrameBytes(BytesKind, ChunkFlags(index, total), seqNo, 0, 0, ChunkMetadata(index, total, messageLen), chunk)
  }

  /** The frames of every chunk, in order. */
  function ChunkFrames(total: usize, size: nat, seqNo: u64, bytes: seq<byte>): (frames: seq<seq<byte>>)
    requires size > 0
    requires |bytes| <= USIZE_MAX
    ensures |frames| == ChunkCount(|bytes|, size)
  {
    seq(ChunkCount(|bytes|, size), i requires 0 <= i < ChunkCount(|bytes|, size) =>
      ChunkCountBounds(|bytes|, size); ChunkFrame(total, seqNo, |bytes|, i, Chunk(bytes, size, i)).value)
  }

  /** What the encoder answers for an arbitrary plan, its two internal plan errors included. */
  function EncodedMessage(config: Config, plan: SendPlan, seqNo: u64, bytes: seq<byte>): Result<seq<seq<byte>>>
    requires plan.chunkPayloadSize > 0
    requires plan.neededSlots <= USIZE_MAX
    requires |bytes| <= USIZE_MAX
  {
    if plan.neededSlots == 1 then Ok([WholeFrame(seqNo, bytes).value])
    else
      var frames := ChunkFrames(plan.neededSlots, plan.chunkPayloadSize, seqNo, bytes);
      if |frames| != plan.neededSlots then Err(Channel(InvalidConfig("chunk plan mismatch")))
      else if exists i :: 0 <= i < |frames| && |frames[i]| > config.slotSize + FRAME_HEADER_LEN then
        Err(Channel(InvalidConfig("chunk frame exceeds slot size")))
      else Ok(frames)
  }

  method EncodeMessageFrames(config: Config, plan: SendPlan, seqNo: u64, bytes: seq<byte>)
    returns (r: Result<seq<seq<byte>>>)
    requires plan.chunkPayloadSize > 0
    requires plan.neededSlots <= USIZE_MAX
    requires |bytes| <= USIZE_MAX
    ensures r == EncodedMessage(config, plan, seqNo, bytes)
  {
    if plan.neededSlots == 1 {
      var frame := EncodeFrame(BytesKind, 0, seqNo, 0, 0, [], bytes);
      // A header without metadata is 50 bytes long, so encoding it cannot fail.
      return Ok([frame.value]);
    }
    var frames := EncodeChunks(plan.neededSlots, plan.chunkPayloadSize, seqNo, bytes);
    if |frames| != plan.neededSlots {
      return Err(Channel(InvalidConfig("chunk plan mismatch")));
    }
    if exists i :: 0 <= i < |frames| && |frames[i]| > config.slotSize + FRAME_HEADER_LEN {
      return Err(Channel(InvalidConfig("chunk frame exceeds slot size")));
    }
    return Ok(frames);
  }

  method EncodeChunks(total: usize, size: nat, seqNo: u64, bytes: seq<byte>) returns (frames: seq<seq<byte>>)
    requires size > 0
    requires |bytes| <= USIZE_MAX
    ensures frames == ChunkFrames(total, size, seqNo, bytes)
  {
    hide ChunkFrame, ChunkFrames, ChunkCount;
    ghost var all := ChunkFrames(total, size, seqNo, bytes);
    frames := [];
    for index := 0 to ChunkCount(|bytes|, size)
      invariant frames == all[..index]
    {
      ChunkFrameAt(total, size, seqNo, bytes, index);
      var frame := EncodeChunk(total, seqNo, |bytes|, index, Chunk(bytes, size, index));
      frames := frames + [frame];
    }
  }

  lemma ChunkFrameAt(total: usize, size: nat, seqNo: u64, bytes: seq<byte>, index: nat)
    requires size > 0
    requires |bytes| <= USIZE_MAX
    requires index < ChunkCount(|bytes|, size)
    ensures index <= USIZE_MAX
    ensures |Chunk(bytes, size, index)| <= USIZE_MAX
    ensures ChunkFrames(total, size, seqNo, bytes)[index]
         == ChunkFrame(total, seqNo, |bytes|, index, Chunk(bytes, size, index)).value
  {
    ChunkCountBounds(|bytes|, size);
  }

  method EncodeChunk(total: usize, seqNo: u64, messageLen: usize, index: usize, chunk: seq<byte>)
    returns (frame: seq<byte>)
    requires |chunk| <= USIZE_MAX
    ensures frame == ChunkFrame(total, seqNo, messageLen, index, chunk).value
  {
    var metadata := ChunkMetadata(index, total, messageLen);
    var r := EncodeFrame(BytesKind, ChunkFlags(index, total), seqNo, 0, 0, metadata, chunk);
    // The header of a chunk frame is 92 bytes long, so encoding it cannot fail.
    return r.value;
  }

  // ---- Receiving ----

  function IsChunked(frame: Frame): bool {
    frame.header.flags % 2 == 1
  }

  /** The first metadata item of type `ty`, decoded as an eight-byte number. */
  function MetadataUsize(items: seq<Metadata>, ty: u16): Result<usize> {
    if items == [] then Err(Channel(CorruptedMessage))
    else if items[0].ty != ty then MetadataUsize(items[1..], ty)
    else if |items[0].value| != 8 then Err(Channel(CorruptedMessage))
    else
      FromLeBound(items[0].value); Pow256Values();
      Ok(FromLe(items[0].value))
  }

  function ChunkInfoOf(frame: Frame): Result<ChunkInfo> {
    var index :- MetadataUsize(frame.metadata, TLV_CHUNK_INDEX);
    var total :- MetadataUsize(frame.metadata, TLV_CHUNK_TOTAL);
    var messageLen :- MetadataUsize(frame.metadata, TLV_CHUNK_MESSAGE_LEN);
    if total == 0 || index >= total then Err(Channel(CorruptedMessage))
    else Ok(ChunkInfo(index, total, messageLen))
  }

  predicate ValidBytesFrame(frame: Frame) {
    frame.header.kind == BytesKind && Checksum32(frame.payload) == frame.header.checksum
  }

  /** The checks on the first frame of a message (`recv_with_seq`). */
  function CheckFirst(seqNo: u64, data: seq<byte>): Result<Frame> {
    var frame :- DecodeFrame(data);
    if !ValidBytesFrame(frame) then Err(Channel(CorruptedMessage))
    else if seqNo != frame.header.seqNo then Err(Channel(SequenceMismatch(seqNo, frame.header.seqNo)))
    else Ok(frame)
  }

  /** The checks on the slot a view is asked for, against the expected sequence number if there is one (`recv_view`). */
  function CheckView(expected: Option<u64>, seqNo: u64, data: seq<byte>): Result<Message> {
    if |data| < FRAME_HEADER_LEN then Err(Channel(CorruptedMessage))
    else
      var decoded :- DecodeFrameHeader(data[..FRAME_HEADER_LEN]);
      var header := decoded.0;
      if header.headerLen != FRAME_HEADER_LEN || header.flags != 0 || header.kind != BytesKind then
        Err(Channel(InvalidConfig("zero-copy views require single-slot unchunked messages; use recv()")))
      else if header.seqNo != seqNo then Err(Channel(SequenceMismatch(seqNo, header.seqNo)))
      else if expected.Some? && seqNo != expected.value then Err(Channel(SequenceMismatch(expected.value, seqNo)))
      else if header.payloadLen != |data| - FRAME_HEADER_LEN then Err(Channel(CorruptedMessage))
      else if Checksum32(data[FRAME_HEADER_LEN..]) != header.checksum then Err(Channel(CorruptedMessage))
      else Ok(Message(seqNo, data[FRAME_HEADER_LEN..]))
  }

  /** Whether a later chunk of a message is the one the reader expects (`validate_chunk`). */
  function ValidateChunk(frame: Frame, seqNo: u64, expected: ChunkInfo): Result<()> {
    if !ValidBytesFrame(frame) then Err(Channel(CorruptedMessage))
    else if frame.header.seqNo != seqNo || !IsChunked(frame) then Err(Channel(CorruptedMessage))
    else
      var info :- ChunkInfoOf(frame);
      if info != expected then Err(Channel(CorruptedMessage))
      else
        var hasStart := frame.header.flags / 2 % 2 == 1;
        var hasEnd := frame.header.flags / 4 % 2 == 1;
        if hasStart != (info.index == 0) || hasEnd != (info.index + 1 == info.total) then
          Err(Channel(CorruptedMessage))
        else Ok(())
  }
}
