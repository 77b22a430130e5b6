/** Cursors: counts of slots that only grow, their ring indices, and the send guard. */
module Cursors {
  import opened Bytes
  import opened Errors
  import opened Chunking

  /** The slot a cursor value stands for. */
  function Idx(cursor: int, capacity: nat): (index: nat)
    requires capacity > 0
    ensures index < capacity
  {
    cursor % capacity
  }

  /** `refresh_cursors` accepts a head at most one capacity ahead of or behind the tail. */
  predicate Consistent(config: Config, head: nat, tail: nat) {
    head - tail <= config.capacity && tail - head <= config.capacity
  }

  /** The oldest cursor whose slot the send guard must not reuse. */
  function Limit(tail: nat, floor: Option<nat>): nat {
    if floor.None? || tail <= floor.value then tail else floor.value
  }

  /** `guard_len` with the recovery bias of a handle. */
  function GuardLen(config: Config, head: nat, tail: nat, floor: Option<nat>, bias: nat): nat {
    var limit := Limit(tail, floor);
    var span := (if head > limit then head - limit else 0) + bias;
    if span < config.capacity then span else config.capacity
  }

  function NextSeq(seqNo: u64): u64 {
    (seqNo + 1) % U64_RANGE
  }

  lemma ModShift(a: nat, b: nat)
    ensures (a % U64_RANGE + b) % U64_RANGE == (a + b) % U64_RANGE
  {
  }

  /** A passing guard leaves room up to one lap past the limit. */
  lemma GuardFits(config: Config, head: nat, tail: nat, floor: Option<nat>, bias: nat, n: nat)
    requires 1 <= n
    ensures config.capacity - GuardLen(config, head, tail, floor, bias) >= n
            <==> n + bias <= config.capacity && head + n + bias <= Limit(tail, floor) + config.capacity
  {
  }

  lemma LimitBelowTail(tail: nat, floor: Option<nat>)
    ensures Limit(tail, floor) <= tail
  {
  }

  // ---- Indices ----

  lemma MulStep(n: nat, a: int, b: int)
    requires a < b
    ensures n * a + n <= n * b
  {
    MulMonotone(a + 1, b, n);
    assert (a + 1) * n == a * n + n;
  }

  lemma ModUnique(x: int, n: nat, q: int, r: nat)
    requires r < n
    requires x == n * q + r
    ensures x % n == r
  {
    var q', r' := x / n, x % n;
    assert x == n * q' + r';
    if q < q' {
      MulStep(n, q, q');
    } else if q' < q {
      MulStep(n, q', q);
    }
  }

  /** Two cursors less than one lap apart stand for different slots. */
  lemma IdxDistinct(c: int, d: int, n: nat)
    requires c < d < c + n
    ensures Idx(c, n) != Idx(d, n)
  {
    assert c == n * (c / n) + Idx(c, n);
    assert d == n * (d / n) + Idx(d, n);
    if c / n < d / n {
      MulStep(n, c / n, d / n);
    } else if d / n < c / n {
      MulStep(n, d / n, c / n);
    }
  }

  /** A cursor and the one a lap later stand for the same slot. */
  lemma IdxLap(c: int, n: nat)
    requires n > 0
    ensures Idx(c, n) == Idx(c + n, n)
  {
    var q := c / n;
    assert c == n * q + c % n;
    assert n * (q + 1) == n * q + n;
    ModUnique(c + n, n, q + 1, c % n);
  }

  lemma IdxShift(c: nat, j: nat, n: nat)
    requires n > 0
    ensures (Idx(c, n) + j) % n == Idx(c + j, n)
  {
    var q, q' := c / n, (Idx(c, n) + j) / n;
    var r := (Idx(c, n) + j) % n;
    assert c == n * q + Idx(c, n);
    assert Idx(c, n) + j == n * q' + r;
    assert n * (q + q') == n * q + n * q';
    ModUnique(c + j, n, q + q', r);
  }
}
