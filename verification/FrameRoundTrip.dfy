/** The frame encoder and decoder undo each other, in both directions. */
module FrameRoundTrip {
  import opened Bytes
  import opened Errors
  import opened Crc
  import opened FrameCodec

  // ---- Decoding what was encoded ----

  /** Five consecutive fields of the given widths, read back from the front of a byte string. */
  lemma FiveFields(v: seq<nat>, k: seq<nat>, rest: seq<byte>)
    requires |v| == |k| == 5
    requires forall i :: 0 <= i < 5 ==> v[i] < Pow256(k[i])
    ensures var bytes := Le(v[0], k[0]) + Le(v[1], k[1]) + Le(v[2], k[2]) + Le(v[3], k[3]) + Le(v[4], k[4]) + rest;
            && ReadLe(bytes, 0, k[0]) == v[0]
            && ReadLe(bytes, k[0], k[1]) == v[1]
            && ReadLe(bytes, k[0] + k[1], k[2]) == v[2]
            && ReadLe(bytes, k[0] + k[1] + k[2], k[3]) == v[3]
            && ReadLe(bytes, k[0] + k[1] + k[2] + k[3], k[4]) == v[4]
  {
    var a, b, c, d, e := Le(v[0], k[0]), Le(v[1], k[1]), Le(v[2], k[2]), Le(v[3], k[3]), Le(v[4], k[4]);
    FivePieces(a, b, c, d, e, rest);
    FromLeOfLe(v[0], k[0]);
    FromLeOfLe(v[1], k[1]);
    FromLeOfLe(v[2], k[2]);
    FromLeOfLe(v[3], k[3]);
    FromLeOfLe(v[4], k[4]);
  }

  lemma FivePieces(a: seq<byte>, b: seq<byte>, c: seq<byte>, d: seq<byte>, e: seq<byte>, rest: seq<byte>)
    ensures var bytes := a + b + c + d + e + rest;
            && bytes[0..0 + |a|] == a
            && bytes[|a|..|a| + |b|] == b
            && bytes[|a| + |b|..|a| + |b| + |c|] == c
            && bytes[|a| + |b| + |c|..|a| + |b| + |c| + |d|] == d
            && bytes[|a| + |b| + |c| + |d|..|a| + |b| + |c| + |d| + |e|] == e
  {
  }

  lemma IntroFields(h: FrameHeader, rest: seq<byte>)
    ensures var bytes := HeaderIntro(h) + rest;
            && ReadLe(bytes, 0, 4) == FRAME_MAGIC
            && ReadLe(bytes, 4, 2) == FRAME_VERSION
            && ReadLe(bytes, 6, 2) == h.flags
            && ReadLe(bytes, 8, 2) == KindCode(h.kind)
            && ReadLe(bytes, 10, 4) == h.headerLen
  {
    Pow256Values();
    FiveFields([FRAME_MAGIC, FRAME_VERSION, h.flags, KindCode(h.kind), h.headerLen], [4, 2, 2, 2, 4], rest);
  }

  lemma BodyFields(h: FrameHeader, rest: seq<byte>)
    ensures var bytes := HeaderBody(h) + rest;
            && ReadLe(bytes, 0, 8) == h.payloadLen
            && ReadLe(bytes, 8, 8) == h.seqNo
            && ReadLe(bytes, 16, 8) == h.timestampNs
            && ReadLe(bytes, 24, 8) == h.schemaHash
            && ReadLe(bytes, 32, 4) == h.checksum
  {
    Pow256Values();
    FiveFields([h.payloadLen, h.seqNo, h.timestampNs, h.schemaHash, h.checksum], [8, 8, 8, 8, 4], rest);
  }

  lemma ReadShift(pre: seq<byte>, bytes: seq<byte>, offset: nat, k: nat)
    requires offset + k <= |bytes|
    ensures ReadLe(pre + bytes, |pre| + offset, k) == ReadLe(bytes, offset, k)
  {
    assert (pre + bytes)[|pre| + offset..|pre| + offset + k] == bytes[offset..offset + k];
  }

  lemma HeaderOfEncoded(h: FrameHeader, rest: seq<byte>)
    requires FRAME_HEADER_LEN <= h.headerLen
    requires h.headerLen + h.payloadLen <= USIZE_MAX
    ensures DecodeFrameHeader(FixedHeader(h) + rest) == Ok((h, h.headerLen + h.payloadLen))
  {
    var bytes := FixedHeader(h) + rest;
    assert bytes == HeaderIntro(h) + (HeaderBody(h) + rest);
    IntroFields(h, HeaderBody(h) + rest);
    BodyFields(h, rest);
    ReadShift(HeaderIntro(h), HeaderBody(h) + rest, 0, 8);
    ReadShift(HeaderIntro(h), HeaderBody(h) + rest, 8, 8);
    ReadShift(HeaderIntro(h), HeaderBody(h) + rest, 16, 8);
    ReadShift(HeaderIntro(h), HeaderBody(h) + rest, 24, 8);
    ReadShift(HeaderIntro(h), HeaderBody(h) + rest, 32, 4);
  }

  lemma TlvFields(item: Metadata)
    requires |item.value| <= U32_MAX
    ensures ReadLe(Tlv(item), 0, 2) == item.ty
    ensures ReadLe(Tlv(item), 2, 4) == |item.value|
    ensures Tlv(item)[TLV_HEADER_LEN..] == item.value
  {
    Pow256Values();
    ThreePieces(Le(item.ty, 2), Le(|item.value|, 4), item.value);
    FromLeOfLe(item.ty, 2);
    FromLeOfLe(|item.value|, 4);
  }

  lemma ThreePieces(a: seq<byte>, b: seq<byte>, c: seq<byte>)
    ensures (a + b + c)[0..|a|] == a
    ensures (a + b + c)[|a|..|a| + |b|] == b
    ensures (a + b + c)[|a| + |b|..] == c
  {
  }

  /** A field of a slice is the field of the whole at the shifted offset. */
  lemma ReadSlice(bytes: seq<byte>, lo: nat, hi: nat, offset: nat, k: nat)
    requires lo <= hi <= |bytes|
    requires offset + k <= hi - lo
    ensures ReadLe(bytes[lo..hi], offset, k) == ReadLe(bytes, lo + offset, k)
  {
    var a, b := bytes[lo..hi][offset..offset + k], bytes[lo + offset..lo + offset + k];
    assert forall i :: 0 <= i < k ==> a[i] == b[i];
    assert a == b;
  }

  /** The decoder's step over one encoded item. */
  lemma MetadataStep(bytes: seq<byte>, offset: nat, item: Metadata, rest: seq<Metadata>, headerLen: nat)
    requires |item.value| <= U32_MAX
    requires offset + |Tlv(item)| <= headerLen <= |bytes|
    requires bytes[offset..offset + |Tlv(item)|] == Tlv(item)
    requires MetadataFrom(bytes, offset + |Tlv(item)|, headerLen) == Ok(rest)
    ensures MetadataFrom(bytes, offset, headerLen) == Ok([item] + rest)
  {
    hide ReadLe;
    var end := offset + |Tlv(item)|;
    TlvFields(item);
    ReadSlice(bytes, offset, end, 0, 2);
    ReadSlice(bytes, offset, end, 2, 4);
    assert bytes[offset + TLV_HEADER_LEN..end] == bytes[offset..end][TLV_HEADER_LEN..];
    assert ReadU16(bytes, offset) == item.ty;
    assert ReadU32(bytes, offset + 2) == |item.value|;
  }

  lemma {:induction false} MetadataOfEncoded(bytes: seq<byte>, offset: nat, items: seq<Metadata>, headerLen: nat)
    requires TlvLen(items) <= U32_MAX
    requires headerLen == offset + TlvLen(items)
    requires headerLen <= |bytes|
    requires bytes[offset..headerLen] == Tlvs(items)
    ensures MetadataFrom(bytes, offset, headerLen) == Ok(items)
    decreases |items|
  {
    if items != [] {
      var item, others := items[0], items[1..];
      var mid := offset + |Tlv(item)|;
      assert bytes[offset..mid] == Tlvs(items)[..|Tlv(item)|] == Tlv(item);
      assert bytes[mid..headerLen] == Tlvs(items)[|Tlv(item)|..] == Tlvs(others);
      hide MetadataFrom, Tlv, Tlvs;
      MetadataOfEncoded(bytes, mid, others, headerLen);
      MetadataStep(bytes, offset, item, others, headerLen);
      HeadTail(items);
    }
  }

  lemma HeadTail(items: seq<Metadata>)
    requires items != []
    ensures [items[0]] + items[1..] == items
  {
  }

  lemma Regroup(a: seq<byte>, b: seq<byte>, c: seq<byte>, d: seq<byte>)
    ensures a + (b + c) + d == a + (b + (c + d)) == (a + b) + c + d == (a + b) + (c + d)
  {
  }

  /**
   * Decoding an encoded frame, whatever bytes follow it, returns the header fields, the metadata
   * list and the payload that were encoded.
   */
  lemma DecodeOfEncode(
    kind: FrameKind, flags: u16, seqNo: u64, timestampNs: u64, schemaHash: u64,
    metadata: seq<Metadata>, payload: seq<byte>, trailing: seq<byte>)
    requires |payload| <= USIZE_MAX
    requires FrameBytes(kind, flags, seqNo, timestampNs, schemaHash, metadata, payload).Ok?
    // An encoded frame is a byte vector, so its length is a usize.
    requires |FrameBytes(kind, flags, seqNo, timestampNs, schemaHash, metadata, payload).value| <= USIZE_MAX
    ensures FRAME_HEADER_LEN + TlvLen(metadata) <= U32_MAX
    ensures DecodeFrame(FrameBytes(kind, flags, seqNo, timestampNs, schemaHash, metadata, payload).value + trailing)
         == Ok(Frame(
                 FrameHeader(flags, kind, FRAME_HEADER_LEN + TlvLen(metadata), |payload|, seqNo, timestampNs,
                             schemaHash, Checksum32(payload)),
                 metadata, payload))
  {
    var h := FrameHeader(flags, kind, FRAME_HEADER_LEN + TlvLen(metadata), |payload|, seqNo, timestampNs,
                         schemaHash, Checksum32(payload));
    DecodeOfParts(h, metadata, payload, trailing);
  }

  lemma DecodeOfParts(h: FrameHeader, metadata: seq<Metadata>, payload: seq<byte>, trailing: seq<byte>)
    requires h.headerLen == FRAME_HEADER_LEN + TlvLen(metadata)
    requires h.payloadLen == |payload|
    requires h.headerLen + h.payloadLen <= USIZE_MAX
    ensures DecodeFrame(FixedHeader(h) + Tlvs(metadata) + payload + trailing) == Ok(Frame(h, metadata, payload))
  {
    hide FixedHeader, Tlvs;
    var header, tlvs, rest := FixedHeader(h), Tlvs(metadata), payload + trailing;
    var bytes := header + tlvs + payload + trailing;
    Regroup(header, tlvs, payload, trailing);
    HeaderOfEncoded(h, tlvs + rest);
    Middle(header, tlvs, rest);
    MetadataOfEncoded(bytes, FRAME_HEADER_LEN, metadata, h.headerLen);
    Middle(header + tlvs, payload, trailing);
  }

  lemma Middle(a: seq<byte>, b: seq<byte>, c: seq<byte>)
    ensures (a + b + c)[|a|..|a| + |b|] == b
  {
  }

  // ---- Encoding what was decoded ----

  lemma LeOfRead(bytes: seq<byte>, offset: nat, k: nat)
    requires offset + k <= |bytes|
    ensures Le(ReadLe(bytes, offset, k), k) == bytes[offset..offset + k]
  {
    LeOfFromLe(bytes[offset..offset + k]);
  }

  lemma HeaderOfDecoded(bytes: seq<byte>)
    requires DecodeFrameHeader(bytes).Ok?
    ensures FixedHeader(DecodeFrameHeader(bytes).value.0) == bytes[..FRAME_HEADER_LEN]
  {
    IntroOfDecoded(bytes);
    BodyOfDecoded(bytes);
    assert bytes[..FRAME_HEADER_LEN] == bytes[0..14] + bytes[14..50];
  }

  lemma IntroOfDecoded(bytes: seq<byte>)
    requires DecodeFrameHeader(bytes).Ok?
    ensures HeaderIntro(DecodeFrameHeader(bytes).value.0) == bytes[0..14]
  {
    hide Le, ReadLe;
    var h := DecodeFrameHeader(bytes).value.0;
    LeOfRead(bytes, 0, 4);
    LeOfRead(bytes, 4, 2);
    LeOfRead(bytes, 6, 2);
    LeOfRead(bytes, 8, 2);
    LeOfRead(bytes, 10, 4);
    FiveSlices(bytes, 0, 4, 6, 8, 10, 14);
  }

  lemma BodyOfDecoded(bytes: seq<byte>)
    requires DecodeFrameHeader(bytes).Ok?
    ensures HeaderBody(DecodeFrameHeader(bytes).value.0) == bytes[14..50]
  {
    hide Le, ReadLe;
    LeOfRead(bytes, 14, 8);
    LeOfRead(bytes, 22, 8);
    LeOfRead(bytes, 30, 8);
    LeOfRead(bytes, 38, 8);
    LeOfRead(bytes, 46, 4);
    FiveSlices(bytes, 14, 22, 30, 38, 46, 50);
  }

  lemma FiveSlices(bytes: seq<byte>, a: nat, b: nat, c: nat, d: nat, e: nat, f: nat)
    requires a <= b <= c <= d <= e <= f <= |bytes|
    ensures bytes[a..b] + bytes[b..c] + bytes[c..d] + bytes[d..e] + bytes[e..f] == bytes[a..f]
  {
    assert bytes[a..b] + bytes[b..c] == bytes[a..c];
    assert bytes[a..c] + bytes[c..d] == bytes[a..d];
    assert bytes[a..d] + bytes[d..e] == bytes[a..e];
  }

  lemma Slices(bytes: seq<byte>, a: nat, b: nat, c: nat)
    requires a <= b <= c <= |bytes|
    ensures bytes[a..b] + bytes[b..c] == bytes[a..c]
  {
  }

  lemma TlvsCons(item: Metadata, rest: seq<Metadata>)
    ensures Tlvs([item] + rest) == Tlv(item) + Tlvs(rest)
  {
    assert ([item] + rest)[1..] == rest;
  }

  lemma TlvOfDecoded(bytes: seq<byte>, offset: nat, item: Metadata)
    requires offset + TLV_HEADER_LEN + |item.value| <= |bytes|
    requires ReadLe(bytes, offset, 2) == item.ty
    requires ReadLe(bytes, offset + 2, 4) == |item.value|
    requires bytes[offset + TLV_HEADER_LEN..offset + TLV_HEADER_LEN + |item.value|] == item.value
    ensures Tlv(item) == bytes[offset..offset + TLV_HEADER_LEN + |item.value|]
  {
    hide Le;
    LeOfRead(bytes, offset, 2);
    LeOfRead(bytes, offset + 2, 4);
    var start := offset + TLV_HEADER_LEN;
    assert bytes[offset..offset + 2] + bytes[offset + 2..start] == bytes[offset..start];
    assert bytes[offset..start] + bytes[start..start + |item.value|] == bytes[offset..start + |item.value|];
  }

  lemma {:induction false} TlvsOfDecoded(bytes: seq<byte>, offset: nat, headerLen: nat)
    requires offset <= headerLen <= |bytes|
    requires MetadataFrom(bytes, offset, headerLen).Ok?
    ensures Tlvs(MetadataFrom(bytes, offset, headerLen).value) == bytes[offset..headerLen]
    decreases headerLen - offset
  {
    hide ReadLe;
    if offset < headerLen {
      var end := offset + TLV_HEADER_LEN + ReadU32(bytes, offset + 2);
      var items := MetadataFrom(bytes, offset, headerLen).value;
      TlvsOfDecoded(bytes, end, headerLen);
      var rest := MetadataFrom(bytes, end, headerLen).value;
      var item := Metadata(ReadU16(bytes, offset), bytes[offset + TLV_HEADER_LEN..end]);
      TlvOfDecoded(bytes, offset, item);
      TlvsCons(item, rest);
      Slices(bytes, offset, end, headerLen);
    }
  }

  /**
   * Re-encoding an accepted frame's header fields and metadata reproduces its first `headerLen`
   * bytes, so the payload completes its first `headerLen + payloadLen` bytes. Re-encoding it with a
   * recomputed checksum does so exactly when the stored checksum is the payload's.
   */
  lemma EncodeOfDecode(bytes: seq<byte>, f: Frame)
    requires DecodeFrame(bytes) == Ok(f)
    ensures f.header.headerLen + f.header.payloadLen <= |bytes|
    ensures |f.payload| == f.header.payloadLen
    ensures var total := f.header.headerLen + f.header.payloadLen;
            var h := HeaderBytes(f.header.kind, f.header.flags, f.header.seqNo, f.header.timestampNs,
                                 f.header.schemaHash, f.header.checksum, f.header.payloadLen, f.metadata);
            h.Ok? && h.value + f.payload == bytes[..total]
    ensures var total := f.header.headerLen + f.header.payloadLen;
            FrameBytes(f.header.kind, f.header.flags, f.header.seqNo, f.header.timestampNs,
                       f.header.schemaHash, f.metadata, f.payload) == Ok(bytes[..total])
            <==> f.header.checksum == Checksum32(f.payload)
  {
    PartsOfDecoded(bytes);
    FrameOfParts(f, bytes[..f.header.headerLen + f.header.payloadLen]);
  }

  /**
   * The decoder does not look at the checksum: every header and payload decode with any stored checksum,
   * and with a wrong one the encoder does not reproduce the frame.
   */
  lemma WrongChecksumIsAccepted(h: FrameHeader, metadata: seq<Metadata>, payload: seq<byte>)
    requires h.headerLen == FRAME_HEADER_LEN + TlvLen(metadata)
    requires h.payloadLen == |payload|
    requires h.headerLen + h.payloadLen <= USIZE_MAX
    requires h.checksum != Checksum32(payload)
    ensures var bytes := FixedHeader(h) + Tlvs(metadata) + payload;
            && DecodeFrame(bytes) == Ok(Frame(h, metadata, payload))
            && FrameBytes(h.kind, h.flags, h.seqNo, h.timestampNs, h.schemaHash, metadata, payload) != Ok(bytes)
  {
    hide DecodeFrame, FixedHeader, Tlvs, FrameBytes;
    var bytes := FixedHeader(h) + Tlvs(metadata) + payload;
    DecodeOfParts(h, metadata, payload, []);
    assert bytes + [] == bytes;
    FrameOfParts(Frame(h, metadata, payload), bytes);
  }

  lemma FrameOfParts(f: Frame, encoded: seq<byte>)
    requires |f.payload| == f.header.payloadLen
    requires FRAME_HEADER_LEN + TlvLen(f.metadata) == f.header.headerLen
    requires FixedHeader(f.header) + Tlvs(f.metadata) + f.payload == encoded
    ensures FrameBytes(f.header.kind, f.header.flags, f.header.seqNo, f.header.timestampNs,
                       f.header.schemaHash, f.metadata, f.payload) == Ok(encoded)
            <==> f.header.checksum == Checksum32(f.payload)
  {
    var again := f.header.(checksum := Checksum32(f.payload));
    var rest := Tlvs(f.metadata) + f.payload;
    ChecksumDecides(f.header, again.checksum, rest);
    Assoc(FixedHeader(again), Tlvs(f.metadata), f.payload);
    Assoc(FixedHeader(f.header), Tlvs(f.metadata), f.payload);
    HeaderOfFields(again, f.metadata);
    assert FixedHeader(again) + Tlvs(f.metadata) + f.payload == FixedHeader(again) + rest;
  }

  lemma Assoc(a: seq<byte>, b: seq<byte>, c: seq<byte>)
    ensures a + b + c == a + (b + c)
  {
  }

  lemma HeaderOfFields(h: FrameHeader, metadata: seq<Metadata>)
    requires FRAME_HEADER_LEN + TlvLen(metadata) == h.headerLen
    ensures HeaderBytes(h.kind, h.flags, h.seqNo, h.timestampNs, h.schemaHash, h.checksum, h.payloadLen, metadata)
         == Ok(FixedHeader(h) + Tlvs(metadata))
  {
  }

  lemma PartsOfDecoded(bytes: seq<byte>)
    requires DecodeFrame(bytes).Ok?
    ensures var f := DecodeFrame(bytes).value;
            var total := f.header.headerLen + f.header.payloadLen;
            && total <= |bytes|
            && |f.payload| == f.header.payloadLen
            && FRAME_HEADER_LEN + TlvLen(f.metadata) == f.header.headerLen
            && FixedHeader(f.header) + Tlvs(f.metadata) + f.payload == bytes[..total]
  {
    var f := DecodeFrame(bytes).value;
    var mid := f.header.headerLen;
    var total := mid + f.header.payloadLen;
    HeaderOfDecoded(bytes);
    TlvsOfDecoded(bytes, FRAME_HEADER_LEN, mid);
    Slices(bytes, 0, FRAME_HEADER_LEN, mid);
    Slices(bytes, 0, mid, total);
  }

  /** Two headers that differ in the checksum alone encode differently. */
  lemma ChecksumDecides(h: FrameHeader, checksum: u32, rest: seq<byte>)
    ensures FixedHeader(h.(checksum := checksum)) + rest == FixedHeader(h) + rest <==> h.checksum == checksum
  {
    var again := h.(checksum := checksum);
    if FixedHeader(again) + rest == FixedHeader(h) + rest {
      assert FixedHeader(h) == (FixedHeader(h) + rest)[..FRAME_HEADER_LEN];
      assert FixedHeader(again) == (FixedHeader(again) + rest)[..FRAME_HEADER_LEN];
      assert HeaderBody(h) == FixedHeader(h)[14..];
      assert HeaderBody(again) == FixedHeader(again)[14..];
      BodyFields(h, []);
      BodyFields(again, []);
    }
  }
}
