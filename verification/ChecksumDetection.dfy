/** What the frame checksum detects, and the check values that fix it. */
module ChecksumDetection {
  import opened Bits
  import opened Bytes
  import opened Errors
  import opened Crc
  import opened FrameCodec
  import opened FrameLayout
  import opened Chunking
  import opened ChunkingProofs

  /** One division step loses nothing: the top bit of the result tells which bit was shifted out. */
  lemma BitInjective(a: u32, b: u32)
    requires ShiftBit(a) == ShiftBit(b)
    ensures a == b
  {
    hide Xor;
    if a % 2 == b % 2 {
      XorCancels(POLYNOMIAL, a / 2, b / 2);
    } else {
      TopBits(a / 2);
      TopBits(b / 2);
    }
  }

  /** Half a word has no top bit; the polynomial has it. */
  lemma TopBits(x: u32)
    requires x < 0x8000_0000
    ensures !Bit(x, 31) && Bit(Xor(x, POLYNOMIAL), 31)
  {
    hide Xor;
    assert Power2(31) == 0x8000_0000 by {
      Power2Values();
    }
    SmallBits(x, 31);
    LargeBit(POLYNOMIAL, 31);
    XorBit(x, POLYNOMIAL, 31);
  }

  lemma {:induction false} ShiftInjective(a: u32, b: u32, bits: nat)
    requires ShiftBits(a, bits) == ShiftBits(b, bits)
    ensures a == b
    decreases bits
  {
    hide ShiftBit;
    if bits > 0 {
      ShiftInjective(ShiftBit(a), ShiftBit(b), bits - 1);
      BitInjective(a, b);
    }
  }

  lemma {:induction false} FoldInjective(a: u32, b: u32, bytes: seq<byte>)
    requires Fold(a, bytes) == Fold(b, bytes)
    ensures a == b
    decreases |bytes|
  {
    hide ShiftBits, Xor;
    if bytes != [] {
      FoldInjective(ShiftBits(Xor(a, bytes[0]), 8), ShiftBits(Xor(b, bytes[0]), 8), bytes[1..]);
      ShiftInjective(Xor(a, bytes[0]), Xor(b, bytes[0]), 8);
      XorCancels(bytes[0], a, b);
    }
  }

  /** The two byte strings have equal length and differ in the p-th byte alone. */
  predicate DifferAt(a: seq<byte>, b: seq<byte>, p: nat) {
    && |a| == |b| && p < |a| && a[p] != b[p]
    && forall i :: 0 <= i < |a| && i != p ==> a[i] == b[i]
  }

  lemma {:induction false} FoldDiffers(crc: u32, a: seq<byte>, b: seq<byte>, p: nat)
    requires DifferAt(a, b, p)
    ensures Fold(crc, a) != Fold(crc, b)
    decreases p
  {
    hide ShiftBits, Xor;
    if p > 0 {
      FoldDiffers(ShiftBits(Xor(crc, a[0]), 8), a[1..], b[1..], p - 1);
    } else if Fold(crc, a) == Fold(crc, b) {
      assert a[1..] == b[1..];
      FoldInjective(ShiftBits(Xor(crc, a[0]), 8), ShiftBits(Xor(crc, b[0]), 8), a[1..]);
      ShiftInjective(Xor(crc, a[0]), Xor(crc, b[0]), 8);
      XorCancels(crc, a[0], b[0]);
    }
  }

  /** One changed byte, whatever the change, changes the checksum. */
  lemma ChecksumSeparates(a: seq<byte>, b: seq<byte>, p: nat)
    requires DifferAt(a, b, p)
    ensures Checksum32(a) != Checksum32(b)
  {
    hide Fold, Xor;
    FoldDiffers(0xFFFF_FFFF, a, b, p);
    XorCancels(0xFFFF_FFFF, Fold(0xFFFF_FFFF, a), Fold(0xFFFF_FFFF, b));
  }

  lemma ComplementsWord(x: u32)
    ensures Xor(0xFFFF_FFFF, x) == Xor(x, 0xFFFF_FFFF) == 0xFFFF_FFFF - x
  {
    hide XorBits, Power2;
    Power2Values();
    assert Power2(0) == 1 by {
      PowerOfZero();
    }
    XorOnes(0, x, 32, 32);
    XorCommutes(x, 0xFFFF_FFFF, 32);
  }

  lemma PowerOfZero()
    ensures Power2(0) == 1
  {
  }

  /** The exclusive ors that the check values below run through. */
  lemma SomeWords()
    ensures Xor(0xFF_FFFF, 0x7F) == 0xFF_FF80
    ensures Xor(0xFF_FFFF, POLYNOMIAL) == 0xED47_7CDF
    ensures Xor(0xFFFF, POLYNOMIAL) == 0xEDB8_7CDF
  {
    hide XorBits, Power2;
    Power2Values();
    XorOnes(0, 0x7F, 24, 32);
    XorOnes(0xED, 0xB8_8320, 24, 32);
    XorOnes(0xEDB8, 0x8320, 16, 32);
  }

  /** Zero bits are shifted out without touching the rest. */
  lemma {:induction false} ShiftsZeros(v: nat, k: nat, n: nat)
    requires v * Power2(k) < 0x1_0000_0000 && v < 0x1_0000_0000
    ensures ShiftBits(v * Power2(k), k + n) == ShiftBits(v, n)
    decreases k
  {
    hide Xor;
    if k > 0 {
      var p := Power2(k - 1);
      assert v * (2 * p) == 2 * (v * p);
      assert ShiftBit(v * Power2(k)) == v * p;
      ShiftsZeros(v, k - 1, n);
    }
  }

  lemma ShiftsByte(v: nat)
    requires v * 128 < 0x1_0000_0000
    ensures v * 256 < 0x1_0000_0000 ==> ShiftBits(v * 256, 8) == v
    ensures v % 2 == 1 ==> ShiftBits(v * 128, 8) == Xor(v / 2, POLYNOMIAL)
  {
    hide Xor, Power2;
    Power2Values();
    if v * 256 < 0x1_0000_0000 {
      ShiftsZeros(v, 8, 0);
    }
    ShiftsZeros(v, 7, 1);
  }

  /** Values of CRC-32 (IEEE) that only its polynomial, bit order, start value and final complement have. */
  lemma CheckValues()
    ensures Checksum32([]) == 0
    ensures Checksum32([0x7F]) == 0x12B8_8320
    ensures Checksum32([0xFF, 0x7F]) == 0x1247_8320
  {
    hide Xor, ShiftBits;
    SomeWords();
    ComplementsWord(0xFFFF_FFFF);
    ComplementsWord(0x7F);
    ComplementsWord(0xFF);
    ComplementsWord(0xED47_7CDF);
    ComplementsWord(0xEDB8_7CDF);
    ShiftsByte(0xFF_FFFF);
    ShiftsByte(0x1FF_FFFF);
    ShiftsByte(0x1_FFFF);
    assert [0x7F][1..] == [] && [0xFF, 0x7F][1..] == [0x7F];
    assert Fold(0xFF_FFFF, [0x7F]) == Fold(0xEDB8_7CDF, []);
    assert Fold(0xFFFF_FFFF, [0x7F]) == Fold(0xED47_7CDF, []);
  }

  // ---- What a receive makes of a damaged frame ----

  /** A number changes with any one of its bytes, and with none outside it. */
  lemma NumberChanges(a: seq<byte>, b: seq<byte>, p: nat, offset: nat)
    requires DifferAt(a, b, p)
    ensures offset + 2 <= |a| ==> (Number2(a, offset) != Number2(b, offset) <==> offset <= p < offset + 2)
    ensures offset + 4 <= |a| ==> (Number4(a, offset) != Number4(b, offset) <==> offset <= p < offset + 4)
    ensures offset + 8 <= |a| ==> (Number8(a, offset) != Number8(b, offset) <==> offset <= p < offset + 8)
  {
    if offset + 2 <= |a| {
      PairChanges(a, b, p, offset);
    }
    if offset + 4 <= |a| {
      PairChanges(a, b, p, offset + 2);
    }
    if offset + 8 <= |a| {
      PairChanges(a, b, p, offset + 4);
      PairChanges(a, b, p, offset + 6);
    }
  }

  lemma PairChanges(a: seq<byte>, b: seq<byte>, p: nat, offset: nat)
    requires DifferAt(a, b, p) && offset + 2 <= |a|
    ensures Number2(a, offset) != Number2(b, offset) <==> offset <= p < offset + 2
  {
    assert p != offset ==> a[offset] == b[offset];
    assert p != offset + 1 ==> a[offset + 1] == b[offset + 1];
  }

  /** The frame of a single-slot message, as the decoder sees it. */
  lemma WholeHeader(seqNo: u64, payload: seq<byte>)
    requires FRAME_HEADER_LEN + |payload| <= USIZE_MAX
    ensures var data := WholeFrame(seqNo, payload).value;
            && |data| == 50 + |payload| && data[50..] == payload
            && WellMarked(data) && data[8] == 1
            && Number2(data, 6) == 0 && Number4(data, 10) == 50 && Number8(data, 14) == |payload|
            && Number8(data, 22) == seqNo && Number4(data, 46) == Checksum32(payload)
  {
    hide DecodeFrameHeader, FrameBytes, Checksum32, MetadataFrom, Number2, Number4, Number8;
    var data := WholeFrame(seqNo, payload).value;
    DecodeWhole(seqNo, payload);
    HeaderVerdict(data);
    EncodedLayout(BytesKind, 0, seqNo, 0, 0, [], payload);
  }

  /** A header of its bare length, followed by as many bytes as it says, decodes to exactly those. */
  lemma WholeDecodes(data: seq<byte>)
    requires WellMarked(data) && |data| <= USIZE_MAX
    requires Number4(data, 10) == 50 && Number8(data, 14) == |data| - 50
    ensures DecodeFrame(data).Ok?
    ensures var f := DecodeFrame(data).value;
            && f.payload == data[50..] && KindNumber(f.header.kind) == data[8]
            && f.header.seqNo == Number8(data, 22) && f.header.checksum == Number4(data, 46)
  {
    hide DecodeFrameHeader, Number2, Number4, Number8;
    HeaderVerdict(data);
  }

  /** A header that claims to be longer leaves too little for the payload. */
  lemma LongerHeaderFails(data: seq<byte>)
    requires |data| >= 50 && Number8(data, 14) == |data| - 50
    requires Number4(data, 10) != 50
    ensures DecodeFrame(data).Err?
  {
    hide DecodeFrameHeader, Number2, Number4, Number8, WellMarked, MetadataFrom;
    HeaderVerdict(data);
  }

  /** The header bytes that the checks on a received frame do not look at: flags, timestamp and schema hash. */
  predicate Ignored(p: nat) {
    6 <= p < 8 || 30 <= p < 46
  }

  /**
   * One damaged byte in the frame of a single-slot message, whatever the damage and wherever it is but in the
   * payload length: the checks on a received frame notice it exactly if it is not among the ignored bytes.
   * Damage to the payload or to the stored checksum is always reported as corruption, damage to the number as
   * a mismatch, and what passes the checks carries the undamaged payload.
   */
  lemma DamageIsNoticed(seqNo: u64, payload: seq<byte>, damaged: seq<byte>, p: nat)
    requires FRAME_HEADER_LEN + |payload| <= USIZE_MAX
    requires DifferAt(WholeFrame(seqNo, payload).value, damaged, p)
    requires !(14 <= p < 22)
    ensures var r := CheckFirst(seqNo, damaged);
            && (r.Ok? <==> Ignored(p))
            && (r.Ok? ==> r.value.payload == payload)
            && (p >= 46 ==> r == Err(Channel(CorruptedMessage)))
            && (22 <= p < 30 ==> r == Err(Channel(SequenceMismatch(seqNo, Number8(damaged, 22)))))
  {
    hide DecodeFrame, FrameBytes, Checksum32, Number2, Number4, Number8, WholeFrame;
    var data := WholeFrame(seqNo, payload).value;
    WholeHeader(seqNo, payload);
    NumberChanges(data, damaged, p, 10);
    NumberChanges(data, damaged, p, 14);
    NumberChanges(data, damaged, p, 22);
    NumberChanges(data, damaged, p, 46);
    assert forall i :: 0 <= i < 50 && i != p ==> damaged[i] == data[i];
    if p < 6 || p == 9 || (p == 8 && !WellMarked(damaged)) {
      Unmarked(damaged);
    } else if 10 <= p < 14 {
      LongerHeaderFails(damaged);
    } else {
      WholeDecodes(damaged);
      PayloadDamage(data, damaged, p);
    }
  }

  lemma Unmarked(data: seq<byte>)
    requires !WellMarked(data)
    ensures DecodeFrame(data).Err?
  {
    hide DecodeFrameHeader, Number2, Number4, Number8, MetadataFrom;
    HeaderVerdict(data);
  }

  lemma PayloadDamage(data: seq<byte>, damaged: seq<byte>, p: nat)
    requires DifferAt(data, damaged, p) && |data| >= 50
    ensures p < 50 ==> damaged[50..] == data[50..]
    ensures p >= 50 ==> Checksum32(damaged[50..]) != Checksum32(data[50..])
  {
    if p >= 50 {
      ChecksumSeparates(data[50..], damaged[50..], p - 50);
    }
  }
}
