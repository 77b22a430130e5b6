/** Which messages are accepted, how they split, and that received frames rebuild them. */
module ChunkingProofs {
  import opened Bytes
  import opened Errors
  import opened FrameCodec
  import opened FrameRoundTrip
  import opened Chunking

  // ---- Acceptance ----

  lemma PlanOfChunks(config: Config, len: usize)
    requires len > config.slotSize > CHUNK_METADATA_LEN
    ensures var size := config.slotSize - CHUNK_METADATA_LEN;
            && ChunkCount(len, size) >= 2
            && (ChunkCount(len, size) <= config.capacity <==> len <= config.capacity * size)
  {
    var size := config.slotSize - CHUNK_METADATA_LEN;
    var n := ChunkCount(len, size);
    ChunkCountBounds(len, size);
    if n <= config.capacity {
      MulMonotone(n, config.capacity, size);
    } else {
      MulMonotone(config.capacity, n - 1, size);
    }
    assert n < 2 ==> n * size <= size by {
      assert n == 0 || n == 1 || n >= 2;
    }
  }

  /**
   * A message is accepted exactly when it is no longer than the advertised maximum, provided that
   * rounding its length up to whole chunks does not overflow a usize.
   */
  lemma AcceptedIff(config: Config, len: usize)
    requires config.Valid()
    ensures PlanFor(config, len).Ok?
        <==> len <= MaxMessageSize(config)
             && (len <= config.slotSize || len + (config.slotSize - CHUNK_METADATA_LEN - 1) <= USIZE_MAX)
  {
    if len > config.slotSize > CHUNK_METADATA_LEN {
      PlanOfChunks(config, len);
    }
  }

  /**
   * No byte slice is longer than half a usize. For such a length the rounding cannot overflow, whatever
   * the slot size: the advertised maximum alone decides.
   */
  lemma AcceptedIffWithinMaximum(config: Config, len: usize)
    requires config.Valid()
    requires len <= USIZE_MAX / 2
    ensures PlanFor(config, len).Ok? <==> len <= MaxMessageSize(config)
  {
    AcceptedIff(config, len);
  }

  /**
   * The plan of an accepted message: one slot for what fits one, and otherwise the least number of slots,
   * each giving up 42 bytes to the chunk's metadata, that cover it.
   */
  lemma PlanExactly(config: Config, len: usize, n: nat)
    requires config.Valid() && n > 0
    ensures len <= config.slotSize ==> PlanFor(config, len) == Ok(SendPlan(config.slotSize, 1))
    ensures len > config.slotSize ==>
              (PlanFor(config, len) == Ok(SendPlan(if config.slotSize > 42 then config.slotSize - 42 else 0, n))
               <==> && config.slotSize > 42 && n <= config.capacity
                    && (n - 1) * (config.slotSize - 42) < len <= n * (config.slotSize - 42)
                    && len + (config.slotSize - 43) <= USIZE_MAX
                    && config.capacity * (config.slotSize - 42) <= USIZE_MAX)
  {
    if len > config.slotSize > 42 {
      var size := config.slotSize - 42;
      var count := ChunkCount(len, size);
      PlanOfChunks(config, len);
      ChunkCountBounds(len, size);
      if (n - 1) * size < len <= n * size {
        LeastCover(len, size, n, count);
      }
    }
  }

  /** Two counts that both just cover a length are the same. */
  lemma LeastCover(len: nat, size: nat, n: nat, count: nat)
    requires size > 0 && n > 0 && count > 0
    requires (n - 1) * size < len <= n * size && (count - 1) * size < len <= count * size
    ensures n == count
  {
    if n < count {
      MulMonotone(n, count - 1, size);
    } else if count < n {
      MulMonotone(count, n - 1, size);
    }
  }

  /**
   * A message is refused as too large, with its length and the maximum, exactly when it is longer than the
   * maximum; only where the sizes themselves overflow a usize is the configuration named as the fault.
   */
  lemma TooLargeExactly(config: Config, len: usize)
    requires config.Valid()
    ensures var plan, refusal := PlanFor(config, len), Err(Channel(MessageTooLarge(len, MaxMessageSize(config))));
            && (plan == refusal <==>
                  && len > MaxMessageSize(config)
                  && (config.slotSize > 42 ==>
                        len + (config.slotSize - 43) <= USIZE_MAX
                        && config.capacity * (config.slotSize - 42) <= USIZE_MAX))
            && (plan.Err? && plan != refusal <==>
                  && len > config.slotSize > 42
                  && (len + (config.slotSize - 43) > USIZE_MAX
                      || config.capacity * (config.slotSize - 42) > USIZE_MAX))
  {
    if len > config.slotSize > CHUNK_METADATA_LEN {
      PlanOfChunks(config, len);
    }
  }

  // ---- The frames of an accepted message ----

  predicate Sendable(config: Config, m: Message) {
    config.Valid() && |m.payload| <= USIZE_MAX && PlanFor(config, |m.payload|).Ok?
  }

  function Plan(config: Config, m: Message): SendPlan
    requires Sendable(config, m)
  {
    PlanFor(config, |m.payload|).value
  }

  function MessageFrames(config: Config, m: Message): (frames: seq<seq<byte>>)
    requires Sendable(config, m)
    ensures |frames| == Plan(config, m).neededSlots
    ensures 1 <= |frames| <= config.capacity
  {
    var plan := Plan(config, m);
    if |m.payload| <= config.slotSize then [WholeFrame(m.seqNo, m.payload).value]
    else
      PlanOfChunks(config, |m.payload|);
      ChunkFrames(plan.neededSlots, plan.chunkPayloadSize, m.seqNo, m.payload)
  }

  /** The part of the message that its k-th slot carries. */
  function Part(config: Config, m: Message, k: nat): seq<byte>
    requires Sendable(config, m)
    requires k < |MessageFrames(config, m)|
  {
    if |m.payload| <= config.slotSize then m.payload
    else Chunk(m.payload, Plan(config, m).chunkPayloadSize, k)
  }

  lemma OneFrame(config: Config, m: Message)
    requires Sendable(config, m)
    ensures |MessageFrames(config, m)| == 1 <==> |m.payload| <= config.slotSize
  {
    if |m.payload| > config.slotSize {
      PlanOfChunks(config, |m.payload|);
    }
  }

  lemma WholePart(config: Config, m: Message)
    requires Sendable(config, m) && |m.payload| <= config.slotSize
    ensures Part(config, m, 0) == m.payload
  {
    hide MessageFrames, Sendable;
  }

  lemma PartFits(config: Config, m: Message, k: nat)
    requires Sendable(config, m)
    requires k < |MessageFrames(config, m)|
    ensures |m.payload| <= config.slotSize ==> |Part(config, m, k)| <= config.slotSize
    ensures |m.payload| > config.slotSize ==> |Part(config, m, k)| + CHUNK_METADATA_LEN <= config.slotSize
  {
    hide MessageFrames, MaxMessageSize, ChunkStart;
    if |m.payload| > config.slotSize {
      ChunkBounds(|m.payload|, Plan(config, m).chunkPayloadSize, k);
    }
  }

  lemma FrameAt(config: Config, m: Message, k: nat)
    requires Sendable(config, m)
    requires k < |MessageFrames(config, m)|
    ensures var frames := MessageFrames(config, m);
            var part := Part(config, m, k);
            && |part| <= USIZE_MAX
            && k < |frames| <= USIZE_MAX
            && Ok(frames[k]) == if |m.payload| <= config.slotSize then WholeFrame(m.seqNo, part)
                                else ChunkFrame(|frames|, m.seqNo, |m.payload|, k, part)
  {
    PartFits(config, m, k);
    hide ChunkFrame, WholeFrame, Chunk, ChunkFrames, ChunkCount, MaxMessageSize;
    if |m.payload| > config.slotSize {
      PlanOfChunks(config, |m.payload|);
      var plan := Plan(config, m);
      ChunkFrameAt(plan.neededSlots, plan.chunkPayloadSize, m.seqNo, m.payload, k);
    }
  }

  /** Every frame of an accepted message fits its slot. */
  lemma FrameFits(config: Config, m: Message, k: nat)
    requires Sendable(config, m)
    requires k < |MessageFrames(config, m)|
    ensures FRAME_HEADER_LEN <= |MessageFrames(config, m)[k]| <= config.slotSize + FRAME_HEADER_LEN
  {
    hide MessageFrames, Part, PlanFor;
    FrameAt(config, m, k);
    PartFits(config, m, k);
  }

  /** Neither internal plan error can happen: an accepted message encodes to its planned frames. */
  lemma PlanErrorsUnreachable(config: Config, m: Message)
    requires Sendable(config, m)
    ensures Plan(config, m).chunkPayloadSize > 0
    ensures Plan(config, m).neededSlots <= USIZE_MAX
    ensures EncodedMessage(config, Plan(config, m), m.seqNo, m.payload) == Ok(MessageFrames(config, m))
  {
    hide ChunkFrame, WholeFrame, ChunkFrames, ChunkCount, MaxMessageSize;
    var frames := MessageFrames(config, m);
    if |m.payload| > config.slotSize {
      PlanOfChunks(config, |m.payload|);
    }
    forall k | 0 <= k < |frames|
      ensures |frames[k]| <= config.slotSize + FRAME_HEADER_LEN
    {
      FrameFits(config, m, k);
    }
  }

  // ---- What a reader gets back ----

  function Concat(parts: seq<seq<byte>>): seq<byte> {
    if parts == [] then [] else Concat(parts[..|parts| - 1]) + parts[|parts| - 1]
  }

  /** The message bytes carried by the first k slots. */
  function Prefix(config: Config, m: Message, k: nat): (s: seq<byte>)
    requires Sendable(config, m)
    requires k <= |MessageFrames(config, m)|
    ensures k == 0 ==> s == []
    ensures k == |MessageFrames(config, m)| ==> s == m.payload
  {
    if |m.payload| <= config.slotSize then (if k == 0 then [] else m.payload)
    else
      var size := Plan(config, m).chunkPayloadSize;
      PlanOfChunks(config, |m.payload|);
      ChunkCountBounds(|m.payload|, size);
      ChunkBounds(|m.payload|, size, k);
      m.payload[..ChunkStart(|m.payload|, size, k)]
  }

  lemma PrefixStep(config: Config, m: Message, k: nat)
    requires Sendable(config, m)
    requires k < |MessageFrames(config, m)|
    ensures Prefix(config, m, k + 1) == Prefix(config, m, k) + Part(config, m, k)
  {
    if |m.payload| > config.slotSize {
      var size := Plan(config, m).chunkPayloadSize;
      ChunkBounds(|m.payload|, size, k);
      Slices(m.payload, 0, ChunkStart(|m.payload|, size, k), ChunkStart(|m.payload|, size, k + 1));
    }
  }

  /** The payloads of the frames of an accepted message concatenate back to the message. */
  lemma {:induction false} PartsConcatenate(config: Config, m: Message, k: nat)
    requires Sendable(config, m)
    requires k <= |MessageFrames(config, m)|
    ensures Concat(seq(k, i requires 0 <= i < k => Part(config, m, i))) == Prefix(config, m, k)
    ensures k == |MessageFrames(config, m)| ==>
              Concat(seq(k, i requires 0 <= i < k => Part(config, m, i))) == m.payload
  {
    if k > 0 {
      hide Part, Prefix, MessageFrames;
      var parts := seq(k, i requires 0 <= i < k => Part(config, m, i));
      PartsConcatenate(config, m, k - 1);
      assert parts[..k - 1] == seq(k - 1, i requires 0 <= i < k - 1 => Part(config, m, i));
      PrefixStep(config, m, k - 1);
    }
  }

  lemma FindUsize(before: seq<Metadata>, ty: u16, v: usize, after: seq<Metadata>)
    requires forall i :: 0 <= i < |before| ==> before[i].ty != ty
    ensures MetadataUsize(before + [Metadata(ty, Le(v, 8))] + after, ty) == Ok(v)
  {
    var items := before + [Metadata(ty, Le(v, 8))] + after;
    if before == [] {
      Pow256Values();
      FromLeOfLe(v, 8);
    } else {
      assert items[1..] == before[1..] + [Metadata(ty, Le(v, 8))] + after;
      FindUsize(before[1..], ty, v, after);
    }
  }

  lemma ChunkInfoRead(frame: Frame, index: usize, total: usize, messageLen: usize)
    requires frame.metadata == ChunkMetadata(index, total, messageLen)
    requires index < total
    ensures ChunkInfoOf(frame) == Ok(ChunkInfo(index, total, messageLen))
  {
    var a, b, c := Metadata(TLV_CHUNK_INDEX, Le(index, 8)), Metadata(TLV_CHUNK_TOTAL, Le(total, 8)),
                   Metadata(TLV_CHUNK_MESSAGE_LEN, Le(messageLen, 8));
    assert frame.metadata == [] + [a] + [b, c] == [a] + [b] + [c] == [a, b] + [c] + [];
    FindUsize([], TLV_CHUNK_INDEX, index, [b, c]);
    FindUsize([a], TLV_CHUNK_TOTAL, total, [c]);
    FindUsize([a, b], TLV_CHUNK_MESSAGE_LEN, messageLen, []);
  }

  /** What the k-th frame of a message decodes to. */
  predicate CarriesPart(config: Config, m: Message, k: nat, frame: Frame)
    requires Sendable(config, m)
    requires k < |MessageFrames(config, m)|
  {
    var n := |MessageFrames(config, m)|;
    && ValidBytesFrame(frame)
    && frame.header.seqNo == m.seqNo
    && frame.payload == Part(config, m, k)
    && (n == 1 ==> !IsChunked(frame) && frame.header.flags == 0 && frame.header.headerLen == FRAME_HEADER_LEN)
    && (n > 1 ==>
          && IsChunked(frame)
          && frame.header.headerLen != FRAME_HEADER_LEN
          && ChunkInfoOf(frame) == Ok(ChunkInfo(k, n, |m.payload|))
          && ValidateChunk(frame, m.seqNo, ChunkInfo(k, n, |m.payload|)) == Ok(()))
  }

  /**
   * Every frame of an accepted message decodes, passes the reader's checks, and carries its own part
   * of the message; a chunk's index, total and length metadata are the ones `validate_chunk` expects.
   */
  lemma FrameCarriesPart(config: Config, m: Message, k: nat)
    requires Sendable(config, m)
    requires k < |MessageFrames(config, m)|
    requires config.slotSize + FRAME_HEADER_LEN <= USIZE_MAX
    ensures DecodeFrame(MessageFrames(config, m)[k]).Ok?
    ensures CarriesPart(config, m, k, DecodeFrame(MessageFrames(config, m)[k]).value)
  {
    hide MessageFrames, Part, PlanFor, WholeFrame, ChunkFrame, DecodeFrame;
    var frames, part := MessageFrames(config, m), Part(config, m, k);
    OneFrame(config, m);
    FrameAt(config, m, k);
    FrameFits(config, m, k);
    if |m.payload| <= config.slotSize {
      DecodeWhole(m.seqNo, part);
    } else {
      DecodeChunk(|frames|, m.seqNo, |m.payload|, k, part);
    }
  }

  lemma DecodeWhole(seqNo: u64, bytes: seq<byte>)
    requires FRAME_HEADER_LEN + |bytes| <= USIZE_MAX
    ensures DecodeFrame(WholeFrame(seqNo, bytes).value).Ok?
    ensures var f := DecodeFrame(WholeFrame(seqNo, bytes).value).value;
            && ValidBytesFrame(f) && !IsChunked(f) && f.header.flags == 0
            && f.header.seqNo == seqNo && f.payload == bytes && f.header.headerLen == FRAME_HEADER_LEN
  {
    hide DecodeFrame, FrameBytes;
    var frame := WholeFrame(seqNo, bytes).value;
    DecodeOfEncode(BytesKind, 0, seqNo, 0, 0, [], bytes, []);
    NothingAfter(frame);
  }

  lemma NothingAfter(bytes: seq<byte>)
    ensures bytes + [] == bytes
  {
  }

  lemma ChunkFlagBits(index: nat, total: nat)
    ensures var flags := ChunkFlags(index, total);
            && flags % 2 == 1
            && (flags / 2 % 2 == 1 <==> index == 0)
            && (flags / 4 % 2 == 1 <==> index + 1 == total)
  {
  }

  lemma DecodeChunk(total: usize, seqNo: u64, messageLen: usize, index: usize, chunk: seq<byte>)
    requires index < total
    requires FRAME_HEADER_LEN + CHUNK_METADATA_LEN + |chunk| <= USIZE_MAX
    ensures DecodeFrame(ChunkFrame(total, seqNo, messageLen, index, chunk).value).Ok?
    ensures var f := DecodeFrame(ChunkFrame(total, seqNo, messageLen, index, chunk).value).value;
            && ValidBytesFrame(f) && IsChunked(f) && f.header.headerLen != FRAME_HEADER_LEN
            && f.header.seqNo == seqNo && f.payload == chunk
            && ChunkInfoOf(f) == Ok(ChunkInfo(index, total, messageLen))
            && ValidateChunk(f, seqNo, ChunkInfo(index, total, messageLen)) == Ok(())
  {
    hide DecodeFrame, FrameBytes, ChunkFlags, ChunkMetadata, ChunkInfoOf;
    var flags, metadata := ChunkFlags(index, total), ChunkMetadata(index, total, messageLen);
    var frame := ChunkFrame(total, seqNo, messageLen, index, chunk).value;
    DecodeOfEncode(BytesKind, flags, seqNo, 0, 0, metadata, chunk, []);
    NothingAfter(frame);
    var f := DecodeFrame(frame).value;
    ChunkInfoRead(f, index, total, messageLen);
    ChunkFlagBits(index, total);
  }

  // ---- Views ----

  /** The fixed header decodes the same with and without what follows it. */
  lemma HeaderAlone(frame: seq<byte>)
    requires |frame| >= FRAME_HEADER_LEN
    ensures DecodeFrameHeader(frame[..FRAME_HEADER_LEN]) == DecodeFrameHeader(frame)
  {
    forall offset: nat, k: nat | offset + k <= FRAME_HEADER_LEN
      ensures ReadLe(frame[..FRAME_HEADER_LEN], offset, k) == ReadLe(frame, offset, k)
    {
      ReadSlice(frame, 0, FRAME_HEADER_LEN, offset, k);
      assert frame[0..FRAME_HEADER_LEN] == frame[..FRAME_HEADER_LEN];
    }
  }

  /** A view is granted on a whole frame without metadata, and refused on a chunk. */
  lemma CheckViewOfFrame(expected: Option<u64>, seqNo: u64, data: seq<byte>)
    requires |data| >= FRAME_HEADER_LEN
    requires DecodeFrame(data).Ok?
    requires var f := DecodeFrame(data).value;
             && ValidBytesFrame(f) && f.header.seqNo == seqNo
             && (f.header.headerLen == FRAME_HEADER_LEN ==>
                   f.header.flags == 0 && FRAME_HEADER_LEN + |f.payload| == |data|)
    requires expected.Some? ==> expected.value == seqNo
    ensures var f, seen := DecodeFrame(data).value, CheckView(expected, seqNo, data);
            if f.header.headerLen == FRAME_HEADER_LEN then
              seen == Ok(Message(seqNo, f.payload)) && f.payload == data[FRAME_HEADER_LEN..]
            else seen.Err? && seen.error.Channel? && seen.error.channel.InvalidConfig?
  {
    hide DecodeFrameHeader, MetadataFrom;
    HeaderAlone(data);
    var f := DecodeFrame(data).value;
    if f.header.headerLen == FRAME_HEADER_LEN {
      assert f.payload == data[FRAME_HEADER_LEN..];
    }
  }
}
