/** The frame format, byte by byte. */
module FrameLayout {
  import opened Bytes
  import opened Errors
  import opened Crc
  import opened FrameCodec
  import opened Chunking
  import opened ChunkingProofs
  import opened Cursors

  /** The k bytes from `offset` on are the number v, least significant byte first. */
  predicate Field(bytes: seq<byte>, offset: nat, k: nat, v: nat) {
    offset + k <= |bytes| && forall i :: 0 <= i < k ==> bytes[offset + i] == v / Pow256(i) % 256
  }

  /** The bytes from `offset` on are exactly these. */
  predicate Holds(bytes: seq<byte>, offset: nat, part: seq<byte>) {
    offset + |part| <= |bytes| && forall i :: 0 <= i < |part| ==> bytes[offset + i] == part[i]
  }

  lemma {:induction false} LeByte(v: nat, k: nat, i: nat)
    requires i < k
    ensures Le(v, k)[i] == v / Pow256(i) % 256
  {
    if i > 0 {
      LeByte(v / 256, k - 1, i - 1);
      DivDiv(v, Pow256(i - 1));
    }
  }

  lemma DivDiv(v: nat, b: nat)
    requires b > 0
    ensures v / 256 / b == v / (256 * b)
  {
    var w := v / 256;
    var q, r := w / b, w % b;
    assert w == b * q + r;
    assert 256 * (b * q) == (256 * b) * q;
    QuotientUnique(v, 256 * b, q, 256 * r + v % 256);
  }

  lemma QuotientUnique(v: nat, n: nat, q: nat, r: nat)
    requires r < n && v == n * q + r
    ensures v / n == q
  {
    var p := v / n;
    assert v == n * p + v % n;
    if p < q {
      MulStep(n, p, q);
    } else if q < p {
      MulStep(n, q, p);
    }
  }

  lemma LeIsField(v: nat, k: nat)
    ensures Field(Le(v, k), 0, k, v)
  {
    forall i | 0 <= i < k
      ensures Le(v, k)[i] == v / Pow256(i) % 256
    {
      LeByte(v, k, i);
    }
  }

  lemma FieldInside(pre: seq<byte>, bytes: seq<byte>, post: seq<byte>, offset: nat, k: nat, v: nat)
    requires Field(bytes, offset, k, v)
    ensures Field(pre + bytes + post, |pre| + offset, k, v)
  {
    forall i | 0 <= i < k
      ensures (pre + bytes + post)[|pre| + offset + i] == v / Pow256(i) % 256
    {
      assert (pre + bytes + post)[|pre| + offset + i] == bytes[offset + i];
    }
  }

  /** Five consecutive fields. */
  lemma FiveInARow(v: seq<nat>, k: seq<nat>)
    requires |v| == |k| == 5
    ensures var bytes := Le(v[0], k[0]) + Le(v[1], k[1]) + Le(v[2], k[2]) + Le(v[3], k[3]) + Le(v[4], k[4]);
            && Field(bytes, 0, k[0], v[0])
            && Field(bytes, k[0], k[1], v[1])
            && Field(bytes, k[0] + k[1], k[2], v[2])
            && Field(bytes, k[0] + k[1] + k[2], k[3], v[3])
            && Field(bytes, k[0] + k[1] + k[2] + k[3], k[4], v[4])
  {
    hide Field;
    var a, b, c, d, e := Le(v[0], k[0]), Le(v[1], k[1]), Le(v[2], k[2]), Le(v[3], k[3]), Le(v[4], k[4]);
    LeIsField(v[0], k[0]);
    LeIsField(v[1], k[1]);
    LeIsField(v[2], k[2]);
    LeIsField(v[3], k[3]);
    LeIsField(v[4], k[4]);
    assert a + b + c + d + e == [] + a + (b + c + d + e)
                             == a + b + (c + d + e) == (a + b) + c + (d + e) == (a + b + c) + d + e
                             == (a + b + c + d) + e + [];
    FieldInside([], a, b + c + d + e, 0, k[0], v[0]);
    FieldInside(a, b, c + d + e, 0, k[1], v[1]);
    FieldInside(a + b, c, d + e, 0, k[2], v[2]);
    FieldInside(a + b + c, d, e, 0, k[3], v[3]);
    FieldInside(a + b + c + d, e, [], 0, k[4], v[4]);
  }

  /** The length of the encoded metadata: a type, a length and the value for every item. */
  function MetadataBytes(metadata: seq<Metadata>): nat {
    if metadata == [] then 0 else 6 + |metadata[0].value| + MetadataBytes(metadata[1..])
  }

  /** The items one after the other: the type in two bytes, the length of the value in four, the value. */
  predicate ItemsFrom(bytes: seq<byte>, offset: nat, metadata: seq<Metadata>)
    decreases |metadata|
  {
    metadata != [] ==>
      && Field(bytes, offset, 2, metadata[0].ty)
      && Field(bytes, offset + 2, 4, |metadata[0].value|)
      && Holds(bytes, offset + 6, metadata[0].value)
      && ItemsFrom(bytes, offset + 6 + |metadata[0].value|, metadata[1..])
  }

  /** The number of a frame kind on the wire. */
  function KindNumber(kind: FrameKind): byte {
    if kind.BytesKind? then 1 else if kind.Ndarray? then 2 else if kind.Arrow? then 3 else 4
  }

  /** The layout of a frame header: fourteen bytes of introduction, five numbers, then the metadata. */
  predicate HeaderLayout(
    bytes: seq<byte>, kind: FrameKind, flags: u16, seqNo: u64, timestampNs: u64, schemaHash: u64, checksum: u32,
    payloadLen: u64, metadata: seq<Metadata>)
  {
    && |bytes| >= 50
    && bytes[..10] == [0x4e, 0x4c, 0x53, 0x44, 2, 0, flags % 256, flags / 256, KindNumber(kind), 0]
    && Field(bytes, 10, 4, 50 + MetadataBytes(metadata))
    && Field(bytes, 14, 8, payloadLen)
    && Field(bytes, 22, 8, seqNo)
    && Field(bytes, 30, 8, timestampNs)
    && Field(bytes, 38, 8, schemaHash)
    && Field(bytes, 46, 4, checksum)
    && ItemsFrom(bytes, 50, metadata)
  }

  lemma Two(v: u16)
    ensures Le(v, 2) == [v % 256, v / 256]
  {
    assert Le(v / 256, 1) == [v / 256 % 256] + Le(v / 256 / 256, 0);
  }

  lemma IntroBytes(h: FrameHeader)
    ensures HeaderIntro(h)[..10]
         == [0x4e, 0x4c, 0x53, 0x44, 2, 0, h.flags % 256, h.flags / 256, KindNumber(h.kind), 0]
    ensures Field(HeaderIntro(h), 10, 4, h.headerLen)
  {
    var a, b, c, d, e := Le(FRAME_MAGIC, 4), Le(FRAME_VERSION, 2), Le(h.flags, 2), Le(KindCode(h.kind), 2),
                         Le(h.headerLen, 4);
    Two(FRAME_VERSION);
    Two(h.flags);
    Two(KindCode(h.kind));
    assert a == [0x4e, 0x4c, 0x53, 0x44] by {
      assert Le(0x4453_4c4e, 4) == [0x4e] + Le(0x44_534c, 3);
      assert Le(0x44_534c, 3) == [0x4c] + Le(0x4453, 2);
      Two(0x4453);
    }
    assert HeaderIntro(h)[..10] == a + b + c + d;
    FiveInARow([FRAME_MAGIC, FRAME_VERSION, h.flags, KindCode(h.kind), h.headerLen], [4, 2, 2, 2, 4]);
  }

  lemma BodyBytes(h: FrameHeader)
    ensures Field(HeaderBody(h), 0, 8, h.payloadLen)
    ensures Field(HeaderBody(h), 8, 8, h.seqNo)
    ensures Field(HeaderBody(h), 16, 8, h.timestampNs)
    ensures Field(HeaderBody(h), 24, 8, h.schemaHash)
    ensures Field(HeaderBody(h), 32, 4, h.checksum)
  {
    hide Field;
    FiveInARow([h.payloadLen, h.seqNo, h.timestampNs, h.schemaHash, h.checksum], [8, 8, 8, 8, 4]);
  }

  lemma {:induction false} LengthOfTlvs(metadata: seq<Metadata>)
    ensures TlvLen(metadata) == MetadataBytes(metadata)
  {
    if metadata != [] {
      LengthOfTlvs(metadata[1..]);
    }
  }

  lemma ItemBytes(pre: seq<byte>, item: Metadata, post: seq<byte>)
    ensures var bytes := pre + Tlv(item) + post;
            && Field(bytes, |pre|, 2, item.ty)
            && Field(bytes, |pre| + 2, 4, |item.value|)
            && Holds(bytes, |pre| + 6, item.value)
  {
    hide Field;
    var ty, len := Le(item.ty, 2), Le(|item.value|, 4);
    var bytes := pre + Tlv(item) + post;
    LeIsField(item.ty, 2);
    LeIsField(|item.value|, 4);
    assert bytes == pre + ty + (len + item.value + post) == (pre + ty) + len + (item.value + post);
    FieldInside(pre, ty, len + item.value + post, 0, 2, item.ty);
    FieldInside(pre + ty, len, item.value + post, 0, 4, |item.value|);
  }

  lemma {:induction false} TlvsAreItems(pre: seq<byte>, metadata: seq<Metadata>, post: seq<byte>)
    ensures ItemsFrom(pre + Tlvs(metadata) + post, |pre|, metadata)
    decreases |metadata|
  {
    if metadata != [] {
      hide Field, Holds, Tlv;
      var item, rest := metadata[0], metadata[1..];
      assert pre + Tlvs(metadata) + post == pre + Tlv(item) + (Tlvs(rest) + post)
                                         == (pre + Tlv(item)) + Tlvs(rest) + post;
      ItemBytes(pre, item, Tlvs(rest) + post);
      TlvsAreItems(pre + Tlv(item), rest, post);
    }
  }

  /** A frame header, whatever follows it, has the layout. */
  lemma HeaderHasLayout(h: FrameHeader, metadata: seq<Metadata>, post: seq<byte>)
    requires h.headerLen == FRAME_HEADER_LEN + TlvLen(metadata)
    ensures HeaderLayout(FixedHeader(h) + Tlvs(metadata) + post, h.kind, h.flags, h.seqNo, h.timestampNs,
                         h.schemaHash, h.checksum, h.payloadLen, metadata)
  {
    hide Field, ItemsFrom, HeaderIntro, HeaderBody, TlvLen, KindNumber;
    var body := Tlvs(metadata) + post;
    LengthOfTlvs(metadata);
    TlvsAreItems(FixedHeader(h), metadata, post);
    assert FixedHeader(h) + Tlvs(metadata) + post == HeaderIntro(h) + (HeaderBody(h) + body)
                                                  == HeaderIntro(h) + HeaderBody(h) + body;
    IntroInPlace(h, HeaderBody(h) + body);
    BodyInPlace(h, HeaderIntro(h), body);
  }

  lemma IntroInPlace(h: FrameHeader, rest: seq<byte>)
    ensures (HeaderIntro(h) + rest)[..10]
         == [0x4e, 0x4c, 0x53, 0x44, 2, 0, h.flags % 256, h.flags / 256, KindNumber(h.kind), 0]
    ensures Field(HeaderIntro(h) + rest, 10, 4, h.headerLen)
  {
    hide Field, HeaderIntro, KindNumber;
    IntroBytes(h);
    assert (HeaderIntro(h) + rest)[..10] == HeaderIntro(h)[..10];
    assert [] + HeaderIntro(h) + rest == HeaderIntro(h) + rest;
    FieldInside([], HeaderIntro(h), rest, 10, 4, h.headerLen);
  }

  lemma BodyInPlace(h: FrameHeader, pre: seq<byte>, post: seq<byte>)
    requires |pre| == 14
    ensures var bytes := pre + HeaderBody(h) + post;
            && Field(bytes, 14, 8, h.payloadLen)
            && Field(bytes, 22, 8, h.seqNo)
            && Field(bytes, 30, 8, h.timestampNs)
            && Field(bytes, 38, 8, h.schemaHash)
            && Field(bytes, 46, 4, h.checksum)
  {
    hide Field, HeaderBody;
    BodyBytes(h);
    FieldInside(pre, HeaderBody(h), post, 0, 8, h.payloadLen);
    FieldInside(pre, HeaderBody(h), post, 8, 8, h.seqNo);
    FieldInside(pre, HeaderBody(h), post, 16, 8, h.timestampNs);
    FieldInside(pre, HeaderBody(h), post, 24, 8, h.schemaHash);
    FieldInside(pre, HeaderBody(h), post, 32, 4, h.checksum);
  }

  /**
   * The encoder succeeds exactly when the header length fits four bytes, and then every byte is fixed: the
   * magic, the version, the flags, the kind and the header length, the five numbers, the metadata items in
   * order from byte 50 on, and the payload behind them.
   */
  lemma EncodedLayout(
    kind: FrameKind, flags: u16, seqNo: u64, timestampNs: u64, schemaHash: u64, metadata: seq<Metadata>,
    payload: seq<byte>)
    requires |payload| <= USIZE_MAX
    ensures var r := FrameBytes(kind, flags, seqNo, timestampNs, schemaHash, metadata, payload);
            var end := 50 + MetadataBytes(metadata);
            if end <= 0xFFFF_FFFF then
              && r.Ok?
              && |r.value| == end + |payload|
              && HeaderLayout(r.value, kind, flags, seqNo, timestampNs, schemaHash, Checksum32(payload), |payload|,
                              metadata)
              && r.value[end..] == payload
            else r == Err(Protocol(HeaderLengthOverflow))
  {
    hide HeaderLayout, FixedHeader, Checksum32;
    LengthOfTlvs(metadata);
    var headerLen := FRAME_HEADER_LEN + TlvLen(metadata);
    if headerLen <= U32_MAX {
      HeaderHasLayout(FrameHeader(flags, kind, headerLen, |payload|, seqNo, timestampNs, schemaHash,
                                  Checksum32(payload)), metadata, payload);
    }
  }

  /** The same for a header whose payload is written separately. */
  lemma EncodedHeaderLayout(
    kind: FrameKind, flags: u16, seqNo: u64, timestampNs: u64, schemaHash: u64, checksum: u32, payloadLen: u64,
    metadata: seq<Metadata>)
    ensures var r := HeaderBytes(kind, flags, seqNo, timestampNs, schemaHash, checksum, payloadLen, metadata);
            var end := 50 + MetadataBytes(metadata);
            if end <= 0xFFFF_FFFF then
              && r.Ok?
              && |r.value| == end
              && HeaderLayout(r.value, kind, flags, seqNo, timestampNs, schemaHash, checksum, payloadLen, metadata)
            else r == Err(Protocol(HeaderLengthOverflow))
  {
    hide HeaderLayout, FixedHeader;
    LengthOfTlvs(metadata);
    var headerLen := FRAME_HEADER_LEN + TlvLen(metadata);
    if headerLen <= U32_MAX {
      var h := FrameHeader(flags, kind, headerLen, payloadLen, seqNo, timestampNs, schemaHash, checksum);
      HeaderHasLayout(h, metadata, []);
      assert FixedHeader(h) + Tlvs(metadata) + [] == FixedHeader(h) + Tlvs(metadata);
    }
  }

  // ---- What the decoder makes of the bytes ----

  function Number2(bytes: seq<byte>, offset: nat): nat
    requires offset + 2 <= |bytes|
  {
    var low: nat, high: nat := bytes[offset], bytes[offset + 1];
    low + 0x100 * high
  }

  function Number4(bytes: seq<byte>, offset: nat): nat
    requires offset + 4 <= |bytes|
  {
    Number2(bytes, offset) + 0x1_0000 * Number2(bytes, offset + 2)
  }

  function Number8(bytes: seq<byte>, offset: nat): nat
    requires offset + 8 <= |bytes|
  {
    Number4(bytes, offset) + 0x1_0000_0000 * Number4(bytes, offset + 4)
  }

  lemma FromLeStep(a: seq<byte>, b: seq<byte>)
    requires |a| == 2
    ensures FromLe(a + b) == a[0] + 0x100 * a[1] + 0x1_0000 * FromLe(b)
  {
    assert (a + b)[1..][1..] == b;
  }

  lemma Reads2(bytes: seq<byte>, offset: nat)
    requires offset + 2 <= |bytes|
    ensures ReadLe(bytes, offset, 2) == Number2(bytes, offset)
  {
    var a := bytes[offset..offset + 2];
    assert a + [] == a;
    FromLeStep(a, []);
  }

  lemma Reads4(bytes: seq<byte>, offset: nat)
    requires offset + 4 <= |bytes|
    ensures ReadLe(bytes, offset, 4) == Number4(bytes, offset)
  {
    Reads2(bytes, offset + 2);
    assert bytes[offset..offset + 4] == bytes[offset..offset + 2] + bytes[offset + 2..offset + 2 + 2];
    FromLeStep(bytes[offset..offset + 2], bytes[offset + 2..offset + 2 + 2]);
  }

  lemma Reads8(bytes: seq<byte>, offset: nat)
    requires offset + 8 <= |bytes|
    ensures ReadLe(bytes, offset, 8) == Number8(bytes, offset)
  {
    Reads4(bytes, offset + 4);
    var high := bytes[offset + 4..offset + 4 + 4];
    assert bytes[offset + 2..offset + 8] == bytes[offset + 2..offset + 4] + high;
    assert bytes[offset..offset + 8] == bytes[offset..offset + 2] + bytes[offset + 2..offset + 8];
    FromLeStep(bytes[offset + 2..offset + 4], high);
    FromLeStep(bytes[offset..offset + 2], bytes[offset + 2..offset + 8]);
  }

  /** Whether the bytes begin a frame of this version. */
  predicate WellMarked(bytes: seq<byte>) {
    && |bytes| >= 50
    && bytes[0] == 0x4e && bytes[1] == 0x4c && bytes[2] == 0x53 && bytes[3] == 0x44
    && bytes[4] == 2 && bytes[5] == 0
    && 1 <= bytes[8] <= 4 && bytes[9] == 0
  }

  /**
   * The decoder accepts a header exactly if the bytes are marked as one, its length covers the fixed part and
   * the two lengths do not overflow; it then yields the numbers in the bytes, and otherwise it names the fault.
   */
  lemma HeaderVerdict(bytes: seq<byte>)
    ensures var r := DecodeFrameHeader(bytes);
            && (r.Ok? <==> WellMarked(bytes) && Number4(bytes, 10) >= 50
                           && Number4(bytes, 10) + Number8(bytes, 14) <= USIZE_MAX)
            && match r
               case Ok((h, total)) =>
                 && h.flags == Number2(bytes, 6) && KindNumber(h.kind) == bytes[8]
                 && h.headerLen == Number4(bytes, 10) && h.payloadLen == Number8(bytes, 14)
                 && h.seqNo == Number8(bytes, 22) && h.timestampNs == Number8(bytes, 30)
                 && h.schemaHash == Number8(bytes, 38) && h.checksum == Number4(bytes, 46)
                 && total == h.headerLen + h.payloadLen
               case Err(Protocol(FrameTooShort(len, minimum))) => len == |bytes| < minimum == 50
               case Err(Protocol(InvalidMagic(magic))) =>
                 |bytes| >= 50 && magic == Number4(bytes, 0) != 0x4453_4c4e
               case Err(Protocol(UnsupportedVersion(version))) =>
                 |bytes| >= 50 && Number4(bytes, 0) == 0x4453_4c4e && version == Number2(bytes, 4) != 2
               case Err(Protocol(InvalidFrameKind(kind))) =>
                 |bytes| >= 50 && kind == Number2(bytes, 8) && (kind == 0 || kind > 4)
               case Err(Protocol(InvalidHeaderLength(len, minimum))) =>
                 WellMarked(bytes) && len == Number4(bytes, 10) < minimum == 50
               case Err(Protocol(HeaderLengthOverflow)) =>
                 WellMarked(bytes) && Number4(bytes, 10) + Number8(bytes, 14) > USIZE_MAX
               case Err(_) => false
  {
    hide ReadLe, FromLe;
    if |bytes| >= 50 {
      Reads4(bytes, 0);
      Reads2(bytes, 4);
      Reads2(bytes, 6);
      Reads2(bytes, 8);
      Reads4(bytes, 10);
      Reads8(bytes, 14);
      Reads8(bytes, 22);
      Reads8(bytes, 30);
      Reads8(bytes, 38);
      Reads4(bytes, 46);
    }
  }

  // ---- The frames of a message ----

  /** The metadata of a chunk: its index, the number of chunks and the length of the message, eight bytes each. */
  predicate ChunkItems(metadata: seq<Metadata>, index: nat, total: nat, messageLen: nat) {
    && |metadata| == 3
    && metadata[0].ty == 100 && metadata[1].ty == 101 && metadata[2].ty == 102
    && (forall i :: 0 <= i < 3 ==> |metadata[i].value| == 8)
    && Field(metadata[0].value, 0, 8, index)
    && Field(metadata[1].value, 0, 8, total)
    && Field(metadata[2].value, 0, 8, messageLen)
  }

  lemma ChunkMetadataItems(index: usize, total: usize, messageLen: usize)
    ensures ChunkItems(ChunkMetadata(index, total, messageLen), index, total, messageLen)
  {
    hide Field;
    LeIsField(index, 8);
    LeIsField(total, 8);
    LeIsField(messageLen, 8);
  }

  /** A frame of version 2, of kind Bytes, without a timestamp or a schema. */
  predicate BytesFrame(frame: seq<byte>, flags: u16, seqNo: u64, metadata: seq<Metadata>, payload: seq<byte>) {
    && |payload| <= USIZE_MAX
    && HeaderLayout(frame, BytesKind, flags, seqNo, 0, 0, Checksum32(payload), |payload|, metadata)
    && |frame| == 50 + MetadataBytes(metadata) + |payload|
    && frame[50 + MetadataBytes(metadata)..] == payload
  }

  /** The k-th of the n pieces of a message: each is `size` bytes long, the last one holds what is left. */
  predicate Piece(bytes: seq<byte>, size: int, n: nat, k: nat, piece: seq<byte>) {
    var start, next := k * size, (k + 1) * size;
    && size > 0 && 0 <= start < |bytes|
    && (k + 1 < n <==> next < |bytes|)
    && var end := if k + 1 < n then next else |bytes|;
       start <= end <= |bytes| && end - start <= size && piece == bytes[start..end]
  }

  /**
   * Every frame of an accepted message, byte by byte. A message that fits a slot is one frame around it. A
   * longer one is cut into pieces 42 bytes shorter than a slot, the last one holding what is left; each frame
   * is flagged as a chunk (1), the first one also as the start (2) and the last one as the end (4).
   */
  lemma MessageLayout(config: Config, m: Message, k: nat) returns (metadata: seq<Metadata>, piece: seq<byte>)
    requires Sendable(config, m)
    requires k < |MessageFrames(config, m)|
    ensures var frames := MessageFrames(config, m);
            if |m.payload| <= config.slotSize then |frames| == 1 && BytesFrame(frames[0], 0, m.seqNo, [], m.payload)
            else
              && Piece(m.payload, config.slotSize - 42, |frames|, k, piece)
              && ChunkItems(metadata, k, |frames|, |m.payload|)
              && BytesFrame(frames[k], 1 + (if k == 0 then 2 else 0) + (if k + 1 == |frames| then 4 else 0),
                            m.seqNo, metadata, piece)
  {
    hide MessageFrames, HeaderLayout, Checksum32, ChunkMetadata, FrameBytes, ChunkItems, Part, Piece;
    var frames := MessageFrames(config, m);
    OneFrame(config, m);
    FrameAt(config, m, k);
    metadata, piece := [], Part(config, m, k);
    if |m.payload| <= config.slotSize {
      WholePart(config, m);
      EncodedLayout(BytesKind, 0, m.seqNo, 0, 0, [], m.payload);
    } else {
      PartIsPiece(config, m, k);
      metadata := ChunkMetadata(k, |frames|, |m.payload|);
      ChunkMetadataItems(k, |frames|, |m.payload|);
      LengthOfTlvs(metadata);
      EncodedLayout(BytesKind, ChunkFlags(k, |frames|), m.seqNo, 0, 0, metadata, piece);
    }
  }

  lemma PartIsPiece(config: Config, m: Message, k: nat)
    requires Sendable(config, m) && |m.payload| > config.slotSize
    requires k < |MessageFrames(config, m)|
    ensures Piece(m.payload, config.slotSize - 42, |MessageFrames(config, m)|, k, Part(config, m, k))
  {
    hide MessageFrames;
    var n, len, size := |MessageFrames(config, m)|, |m.payload|, config.slotSize - 42;
    PlanOfChunks(config, len);
    ChunkCountBounds(len, size);
    MulMonotone(k, n - 1, size);
    if k + 1 < n {
      MulMonotone(k + 1, n - 1, size);
    }
    assert (k + 1) * size == k * size + size;
  }
}
