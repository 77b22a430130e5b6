/** CRC-32 (IEEE 802.3, clause 3.2.9), the frame checksum. */
module Crc {
  import opened Bits
  import opened Bytes

  const POLYNOMIAL: u32 := 0xEDB8_8320

  /** One division step: the bit shifted out decides whether the polynomial is taken off. */
  function ShiftBit(crc: u32): u32 {
    if crc % 2 == 1 then Xor(crc / 2, POLYNOMIAL) else crc / 2
  }

  function ShiftBits(crc: u32, bits: nat): u32
    decreases bits
  {
    if bits == 0 then crc else ShiftBits(ShiftBit(crc), bits - 1)
  }

  function Fold(crc: u32, bytes: seq<byte>): u32
    decreases bytes
  {
    if bytes == [] then crc else Fold(ShiftBits(Xor(crc, bytes[0]), 8), bytes[1..])
  }

  function Checksum32(bytes: seq<byte>): u32 {
    Xor(Fold(0xFFFF_FFFF, bytes), 0xFFFF_FFFF)
  }
}
