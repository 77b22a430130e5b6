/** Exclusive or of machine words, on their numbers. */
module Bits {
  import opened Bytes

  /** Bit i of a number, the least significant one first. */
  predicate Bit(v: nat, i: nat) {
    if i == 0 then v % 2 == 1 else Bit(v / 2, i - 1)
  }

  function Power2(k: nat): (p: nat)
    ensures p >= 1
  {
    if k == 0 then 1 else 2 * Power2(k - 1)
  }

  lemma Power2Values()
    ensures Power2(7) == 0x80 && Power2(8) == 0x100 && Power2(16) == 0x1_0000 && Power2(24) == 0x100_0000
    ensures Power2(32) == 0x1_0000_0000
  {
    assert Power2(8) == 256;
    assert Power2(16) == 256 * Power2(8);
    assert Power2(24) == 256 * Power2(16);
    assert Power2(32) == 256 * Power2(24);
  }

  /** Exclusive or of the low k bits. */
  function XorBits(a: nat, b: nat, k: nat): nat {
    if k == 0 then 0 else (if a % 2 == b % 2 then 0 else 1) + 2 * XorBits(a / 2, b / 2, k - 1)
  }

  lemma {:induction false} XorBound(a: nat, b: nat, k: nat)
    ensures XorBits(a, b, k) < Power2(k)
  {
    if k > 0 {
      XorBound(a / 2, b / 2, k - 1);
    }
  }

  /** Exclusive or of two 32-bit words. */
  function Xor(a: u32, b: u32): u32 {
    Power2Values(); XorBound(a, b, 32);
    XorBits(a, b, 32)
  }

  lemma {:induction false} XorBitsBit(a: nat, b: nat, k: nat, i: nat)
    requires i < k
    ensures Bit(XorBits(a, b, k), i) <==> (Bit(a, i) != Bit(b, i))
  {
    if i > 0 {
      XorBitsBit(a / 2, b / 2, k - 1, i - 1);
      assert XorBits(a, b, k) / 2 == XorBits(a / 2, b / 2, k - 1);
    }
  }

  /** A bit of the result is set exactly where the two words differ. */
  lemma XorBit(a: u32, b: u32, i: nat)
    requires i < 32
    ensures Bit(Xor(a, b), i) <==> (Bit(a, i) != Bit(b, i))
  {
    hide XorBits;
    XorBitsBit(a, b, 32, i);
  }

  lemma {:induction false} XorBitsCancels(a: nat, b: nat, c: nat, k: nat)
    requires b < Power2(k) && c < Power2(k)
    ensures XorBits(a, b, k) == XorBits(a, c, k) ==> b == c
    ensures XorBits(b, a, k) == XorBits(c, a, k) ==> b == c
  {
    if k > 0 {
      XorBitsCancels(a / 2, b / 2, c / 2, k - 1);
    }
  }

  /** Exclusive or with a fixed word loses nothing. */
  lemma XorCancels(a: u32, b: u32, c: u32)
    ensures Xor(a, b) == Xor(a, c) ==> b == c
    ensures Xor(b, a) == Xor(c, a) ==> b == c
  {
    hide XorBits, Power2;
    Power2Values();
    XorBitsCancels(a, b, c, 32);
  }

  lemma {:induction false} SmallBits(v: nat, i: nat)
    requires v < Power2(i)
    ensures !Bit(v, i)
  {
    if i > 0 {
      SmallBits(v / 2, i - 1);
    }
  }

  lemma {:induction false} LargeBit(v: nat, i: nat)
    requires Power2(i) <= v < 2 * Power2(i)
    ensures Bit(v, i)
  {
    if i > 0 {
      LargeBit(v / 2, i - 1);
    }
  }

  lemma {:induction false} XorZero(v: nat, k: nat)
    requires v < Power2(k)
    ensures XorBits(v, 0, k) == XorBits(0, v, k) == v
  {
    if k > 0 {
      XorZero(v / 2, k - 1);
    }
  }

  function Shifted(v: nat, j: nat): nat {
    if j == 0 then v else 2 * Shifted(v, j - 1)
  }

  lemma {:induction false} ShiftedTimes(v: nat, j: nat)
    ensures Shifted(v, j) == v * Power2(j)
  {
    if j > 0 {
      ShiftedTimes(v, j - 1);
      var p := Power2(j - 1);
      assert v * (2 * p) == 2 * (v * p);
    }
  }

  lemma {:induction false} XorShifted(high: nat, low: nat, j: nat, k: nat)
    requires j <= k && low < Power2(j) && high < Power2(k - j)
    ensures XorBits(Power2(j) - 1, Shifted(high, j) + low, k) == Shifted(high, j) + (Power2(j) - 1 - low)
    decreases j
  {
    hide XorBits;
    if j == 0 {
      XorZero(high, k);
    } else {
      XorShifted(high, low / 2, j - 1, k - 1);
      XorOneMore(Shifted(high, j - 1), low, Power2(j - 1), k);
    }
  }

  lemma XorOneMore(high: nat, low: nat, p: nat, k: nat)
    requires p > 0 && k > 0
    requires XorBits(p - 1, high + low / 2, k - 1) == high + (p - 1 - low / 2)
    ensures XorBits(2 * p - 1, 2 * high + low, k) == 2 * high + (2 * p - 1 - low)
  {
    assert (2 * p - 1) / 2 == p - 1 && (2 * high + low) / 2 == high + low / 2;
  }

  /** Exclusive or with j ones complements the low j bits. */
  lemma XorOnes(high: nat, low: nat, j: nat, k: nat)
    requires j <= k && low < Power2(j) && high < Power2(k - j)
    ensures XorBits(Power2(j) - 1, high * Power2(j) + low, k) == high * Power2(j) + (Power2(j) - 1 - low)
  {
    hide XorBits, Power2, Shifted;
    XorShifted(high, low, j, k);
    ShiftedTimes(high, j);
  }

  lemma {:induction false} XorCommutes(a: nat, b: nat, k: nat)
    ensures XorBits(a, b, k) == XorBits(b, a, k)
  {
    if k > 0 {
      XorCommutes(a / 2, b / 2, k - 1);
    }
  }
}
