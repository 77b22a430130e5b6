/** Bytes, machine integers and their little-endian encodings. */
module Bytes {

  type byte = x: int | 0 <= x < 0x100
  type u16 = x: int | 0 <= x < 0x1_0000
  type u32 = x: int | 0 <= x < 0x1_0000_0000
  type u64 = x: int | 0 <= x < 0x1_0000_0000_0000_0000

  // The source targets 64-bit hosts, where usize and u64 have the same range.
  type usize = u64

  const U32_MAX: nat := 0xFFFF_FFFF
  const USIZE_MAX: nat := 0xFFFF_FFFF_FFFF_FFFF
  const U64_RANGE: nat := 0x1_0000_0000_0000_0000

  /** A cleared area. */
  function Zeros(size: nat): (zeros: seq<byte>)
    ensures |zeros| == size
  {
    seq(size, _ => 0)
  }

  function Pow256(k: nat): (p: nat)
    ensures p >= 1
  {
    if k == 0 then 1 else 256 * Pow256(k - 1)
  }

  /** The low k bytes of v, least significant first (`to_le_bytes`). */
  function Le(v: nat, k: nat): (s: seq<byte>)
    ensures |s| == k
  {
    if k == 0 then [] else [v % 256] + Le(v / 256, k - 1)
  }

  /** The number a little-endian byte string denotes (`from_le_bytes`). */
  function FromLe(s: seq<byte>): (v: nat)
  {
    if s == [] then 0 else s[0] + 256 * FromLe(s[1..])
  }

  lemma {:induction false} FromLeBound(s: seq<byte>)
    ensures FromLe(s) < Pow256(|s|)
  {
    if s != [] {
      FromLeBound(s[1..]);
    }
  }

  /** Decoding an encoded number that fits gives it back. */
  lemma {:induction false} FromLeOfLe(v: nat, k: nat)
    requires v < Pow256(k)
    ensures FromLe(Le(v, k)) == v
  {
    if k > 0 {
      FromLeOfLe(v / 256, k - 1);
      assert Le(v, k)[1..] == Le(v / 256, k - 1);
    }
  }

  /** Encoding a decoded byte string gives the byte string back. */
  lemma {:induction false} LeOfFromLe(s: seq<byte>)
    ensures Le(FromLe(s), |s|) == s
  {
    if s != [] {
      LeOfFromLe(s[1..]);
      var rest := FromLe(s[1..]);
      assert (s[0] + 256 * rest) % 256 == s[0];
      assert (s[0] + 256 * rest) / 256 == rest;
    }
  }

  lemma Pow256Values()
    ensures Pow256(2) == 0x1_0000
    ensures Pow256(4) == 0x1_0000_0000
    ensures Pow256(8) == U64_RANGE
  {
    assert Pow256(2) == 256 * Pow256(1) == 256 * (256 * Pow256(0));
    assert Pow256(3) == 256 * Pow256(2);
    assert Pow256(4) == 256 * Pow256(3);
    assert Pow256(5) == 256 * Pow256(4);
    assert Pow256(6) == 256 * Pow256(5);
    assert Pow256(7) == 256 * Pow256(6);
  }

  /** Reads a k-byte little-endian field at `offset`. */
  function ReadLe(bytes: seq<byte>, offset: nat, k: nat): (v: nat)
    requires offset + k <= |bytes|
  {
    FromLe(bytes[offset..offset + k])
  }

  lemma ReadLeBound(bytes: seq<byte>, offset: nat, k: nat)
    requires offset + k <= |bytes|
    ensures ReadLe(bytes, offset, k) < Pow256(k)
  {
    FromLeBound(bytes[offset..offset + k]);
  }
}
