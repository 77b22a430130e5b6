/** The frame format: a fixed 50-byte header, TLV metadata, then the payload. */
module FrameCodec {
  import opened Bytes
  import opened Errors
  import opened Crc

  const FRAME_MAGIC: u32 := 0x4453_4c4e
  const FRAME_VERSION: u16 := 2
  const FRAME_HEADER_LEN: nat := 50
  const TLV_HEADER_LEN: nat := 6

  datatype FrameKind = BytesKind | Ndarray | Arrow | Control

  function KindCode(kind: FrameKind): u16 {
    match kind
    case BytesKind => 1
    case Ndarray => 2
    case Arrow => 3
    case Control => 4
  }

  function KindFromCode(code: u16): Result<FrameKind> {
    match code
    case 1 => Ok(BytesKind)
    case 2 => Ok(Ndarray)
    case 3 => Ok(Arrow)
    case 4 => Ok(Control)
    case _ => Err(Protocol(InvalidFrameKind(code)))
  }

  datatype FrameHeader = FrameHeader(
    flags: u16, kind: FrameKind, headerLen: u32, payloadLen: u64, seqNo: u64,
    timestampNs: u64, schemaHash: u64, checksum: u32)

  datatype Metadata = Metadata(ty: u16, value: seq<byte>)

  datatype Frame = Frame(header: FrameHeader, metadata: seq<Metadata>, payload: seq<byte>)

  // ---- What the encoder produces ----

  function TlvLen(items: seq<Metadata>): nat {
    if items == [] then 0 else TLV_HEADER_LEN + |items[0].value| + TlvLen(items[1..])
  }

  /** One TLV item; the length field keeps only the low four bytes, as the source's `as u32` does. */
  function Tlv(item: Metadata): (s: seq<byte>)
    ensures |s| == TLV_HEADER_LEN + |item.value|
  {
    Le(item.ty, 2) + Le(|item.value|, 4) + item.value
  }

  function Tlvs(items: seq<Metadata>): (s: seq<byte>)
    ensures |s| == TlvLen(items)
  {
    if items == [] then [] else Tlv(items[0]) + Tlvs(items[1..])
  }

  /** Bytes 0 to 14 of the header: magic, version, flags, kind, header length. */
  function HeaderIntro(h: FrameHeader): (s: seq<byte>)
    ensures |s| == 14
  {
    Le(FRAME_MAGIC, 4) + Le(FRAME_VERSION, 2) + Le(h.flags, 2) + Le(KindCode(h.kind), 2) + Le(h.headerLen, 4)
  }

  /** Bytes 14 to 50 of the header: payload length, sequence, timestamp, schema hash, checksum. */
  function HeaderBody(h: FrameHeader): (s: seq<byte>)
    ensures |s| == 36
  {
    Le(h.payloadLen, 8) + Le(h.seqNo, 8) + Le(h.timestampNs, 8) + Le(h.schemaHash, 8) + Le(h.checksum, 4)
  }

  function FixedHeader(h: FrameHeader): (s: seq<byte>)
    ensures |s| == FRAME_HEADER_LEN
  {
    HeaderIntro(h) + HeaderBody(h)
  }

  function HeaderBytes(
    kind: FrameKind, flags: u16, seqNo: u64, timestampNs: u64, schemaHash: u64, checksum: u32,
    payloadLen: u64, metadata: seq<Metadata>): Result<seq<byte>>
  {
    var headerLen := FRAME_HEADER_LEN + TlvLen(metadata);
    if headerLen > U32_MAX then Err(Protocol(HeaderLengthOverflow))
    else Ok(FixedHeader(FrameHeader(flags, kind, headerLen, payloadLen, seqNo, timestampNs, schemaHash, checksum))
            + Tlvs(metadata))
  }

  function FrameBytes(
    kind: FrameKind, flags: u16, seqNo: u64, timestampNs: u64, schemaHash: u64,
    metadata: seq<Metadata>, payload: seq<byte>): Result<seq<byte>>
    requires |payload| <= USIZE_MAX
  {
    var header :-
      HeaderBytes(kind, flags, seqNo, timestampNs, schemaHash, Checksum32(payload), |payload|, metadata);
    Ok(header + payload)
  }

  // ---- The encoder ----

  method MetadataLen(metadata: seq<Metadata>) returns (r: Result<nat>)
    ensures r == if TlvLen(metadata) <= USIZE_MAX then Ok(TlvLen(metadata)) else Err(Protocol(HeaderLengthOverflow))
  {
    var total := 0;
    for i := 0 to |metadata|
      invariant total + TlvLen(metadata[i..]) == TlvLen(metadata)
      invariant total <= USIZE_MAX
    {
      assert metadata[i..][1..] == metadata[i + 1..];
      if total + TLV_HEADER_LEN + |metadata[i].value| > USIZE_MAX {
        return Err(Protocol(HeaderLengthOverflow));
      }
      total := total + TLV_HEADER_LEN + |metadata[i].value|;
    }
    return Ok(total);
  }

  method PushMetadata(prefix: seq<byte>, metadata: seq<Metadata>) returns (out: seq<byte>)
    ensures out == prefix + Tlvs(metadata)
  {
    out := prefix;
    for i := 0 to |metadata|
      invariant out + Tlvs(metadata[i..]) == prefix + Tlvs(metadata)
    {
      assert metadata[i..][1..] == metadata[i + 1..];
      ghost var before := out;
      out := out + Le(metadata[i].ty, 2);
      out := out + Le(|metadata[i].value|, 4);
      out := out + metadata[i].value;
      assert out == before + Tlv(metadata[i]);
    }
    assert out == out + Tlvs(metadata[|metadata|..]);
  }

  method EncodeFrameHeader(
    kind: FrameKind, flags: u16, seqNo: u64, timestampNs: u64, schemaHash: u64, checksum: u32,
    payloadLen: u64, metadata: seq<Metadata>) returns (r: Result<seq<byte>>)
    ensures r == HeaderBytes(kind, flags, seqNo, timestampNs, schemaHash, checksum, payloadLen, metadata)
  {
    var metadataLen := MetadataLen(metadata);
    if metadataLen.Err? || FRAME_HEADER_LEN + metadataLen.value > U32_MAX {
      return Err(Protocol(HeaderLengthOverflow));
    }
    var headerLen := FRAME_HEADER_LEN + metadataLen.value;
    var out := Le(FRAME_MAGIC, 4);
    out := out + Le(FRAME_VERSION, 2);
    out := out + Le(flags, 2);
    out := out + Le(KindCode(kind), 2);
    out := out + Le(headerLen, 4);
    out := out + Le(payloadLen, 8);
    out := out + Le(seqNo, 8);
    out := out + Le(timestampNs, 8);
    out := out + Le(schemaHash, 8);
    out := out + Le(checksum, 4);
    assert out == FixedHeader(
      FrameHeader(flags, kind, headerLen, payloadLen, seqNo, timestampNs, schemaHash, checksum));
    out := PushMetadata(out, metadata);
    return Ok(out);
  }

  method EncodeFrame(
    kind: FrameKind, flags: u16, seqNo: u64, timestampNs: u64, schemaHash: u64,
    metadata: seq<Metadata>, payload: seq<byte>) returns (r: Result<seq<byte>>)
    requires |payload| <= USIZE_MAX
    ensures r == FrameBytes(kind, flags, seqNo, timestampNs, schemaHash, metadata, payload)
  {
    var header := EncodeFrameHeader(
      kind, flags, seqNo, timestampNs, schemaHash, Checksum32(payload), |payload|, metadata);
    if header.Err? {
      return header;
    }
    return Ok(header.value + payload);
  }

  // ---- The decoder ----

  function ReadU16(bytes: seq<byte>, offset: nat): u16
    requires offset + 2 <= |bytes|
  {
    ReadLeBound(bytes, offset, 2); Pow256Values();
    ReadLe(bytes, offset, 2)
  }

  function ReadU32(bytes: seq<byte>, offset: nat): u32
    requires offset + 4 <= |bytes|
  {
    ReadLeBound(bytes, offset, 4); Pow256Values();
    ReadLe(bytes, offset, 4)
  }

  function ReadU64(bytes: seq<byte>, offset: nat): u64
    requires offset + 8 <= |bytes|
  {
    ReadLeBound(bytes, offset, 8); Pow256Values();
    ReadLe(bytes, offset, 8)
  }

  /** The header and the total frame length, from the first bytes of a frame. */
  function DecodeFrameHeader(bytes: seq<byte>): Result<(FrameHeader, nat)> {
    if |bytes| < FRAME_HEADER_LEN then Err(Protocol(FrameTooShort(|bytes|, FRAME_HEADER_LEN)))
    else if ReadU32(bytes, 0) != FRAME_MAGIC then Err(Protocol(InvalidMagic(ReadU32(bytes, 0))))
    else if ReadU16(bytes, 4) != FRAME_VERSION then Err(Protocol(UnsupportedVersion(ReadU16(bytes, 4))))
    else
      var flags := ReadU16(bytes, 6);
      var kind :- KindFromCode(ReadU16(bytes, 8));
      var headerLen := ReadU32(bytes, 10);
      if headerLen < FRAME_HEADER_LEN then Err(Protocol(InvalidHeaderLength(headerLen, FRAME_HEADER_LEN)))
      else
        var payloadLen := ReadU64(bytes, 14);
        if headerLen + payloadLen > USIZE_MAX then Err(Protocol(HeaderLengthOverflow))
        else
          Ok((FrameHeader(flags, kind, headerLen, payloadLen, ReadU64(bytes, 22), ReadU64(bytes, 30),
                          ReadU64(bytes, 38), ReadU32(bytes, 46)),
              headerLen + payloadLen))
  }

  /** The TLV items from `offset` up to `headerLen`, or the first malformed one's error. */
  function MetadataFrom(bytes: seq<byte>, offset: nat, headerLen: nat): Result<seq<Metadata>>
    requires offset <= headerLen <= |bytes|
    decreases headerLen - offset
  {
    if offset == headerLen then Ok([])
    else if headerLen - offset < TLV_HEADER_LEN then
      Err(Protocol(InvalidMetadataLength(offset, headerLen - offset)))
    else
      var len := ReadU32(bytes, offset + 2);
      var end := offset + TLV_HEADER_LEN + len;
      if end > headerLen then Err(Protocol(InvalidMetadataLength(offset, len)))
      else
        var rest :- MetadataFrom(bytes, end, headerLen);
        Ok([Metadata(ReadU16(bytes, offset), bytes[offset + TLV_HEADER_LEN..end])] + rest)
  }

  method DecodeMetadata(bytes: seq<byte>, headerLen: u32) returns (r: Result<seq<Metadata>>)
    requires FRAME_HEADER_LEN <= headerLen <= |bytes|
    ensures r == MetadataFrom(bytes, FRAME_HEADER_LEN, headerLen)
  {
    var items: seq<Metadata> := [];
    var offset := FRAME_HEADER_LEN;
    assert forall rest: seq<Metadata> :: items + rest == rest;
    while offset < headerLen
      invariant FRAME_HEADER_LEN <= offset <= headerLen
      invariant MetadataFrom(bytes, FRAME_HEADER_LEN, headerLen)
             == match MetadataFrom(bytes, offset, headerLen)
                case Ok(rest) => Ok(items + rest)
                case Err(e) => Err(e)
      decreases headerLen - offset
    {
      if headerLen - offset < TLV_HEADER_LEN {
        return Err(Protocol(InvalidMetadataLength(offset, headerLen - offset)));
      }
      var ty := ReadU16(bytes, offset);
      var len := ReadU32(bytes, offset + 2);
      var valueStart := offset + TLV_HEADER_LEN;
      if valueStart + len > USIZE_MAX || valueStart + len > headerLen {
        return Err(Protocol(InvalidMetadataLength(offset, len)));
      }
      ghost var rest := MetadataFrom(bytes, valueStart + len, headerLen);
      ghost var item := Metadata(ty, bytes[valueStart..valueStart + len]);
      if rest.Ok? {
        assert (items + [item]) + rest.value == items + ([item] + rest.value);
      }
      items := items + [Metadata(ty, bytes[valueStart..valueStart + len])];
      offset := valueStart + len;
    }
    assert items + [] == items;
    return Ok(items);
  }

  function DecodeFrame(bytes: seq<byte>): Result<Frame> {
    var decoded :- DecodeFrameHeader(bytes);
    var header := decoded.0;
    if |bytes| < header.headerLen then Err(Protocol(FrameTooShort(|bytes|, header.headerLen)))
    else
      var available := |bytes| - header.headerLen;
      if header.payloadLen > available then Err(Protocol(InvalidPayloadLength(header.payloadLen, available)))
      else
        var metadata :- MetadataFrom(bytes, FRAME_HEADER_LEN, header.headerLen);
        Ok(Frame(header, metadata, bytes[header.headerLen..header.headerLen + header.payloadLen]))
  }
}
