/** The sharded fan-out: FNV-1a routing, round-robin and broadcast over FIFO shards. */
module FanOut {
  import opened Bits
  import opened Bytes
  import opened Errors
  import opened Chunking
  import opened Cursors

  type Payload = seq<byte>

  // ---- The routing hash ----

  const RANGE: nat := 0x1_0000_0000
  const FNV_OFFSET: u32 := 0x811C_9DC5
  const FNV_PRIME: u32 := 0x0100_0193
  // The inverse of the prime modulo 2^32.
  const FNV_INVERSE: u32 := 0x359C_449B
  const INVERSE_LAPS: nat := 0x359c99

  function FnvStep(value: u32, b: byte): u32 {
    Xor(value, b) * FNV_PRIME % RANGE
  }

  function FnvFrom(value: u32, data: Payload): u32
    decreases |data|
  {
    if data == [] then value else FnvFrom(FnvStep(value, data[0]), data[1..])
  }

  function Fnv(data: Payload): u32 {
    FnvFrom(FNV_OFFSET, data)
  }

  /** `_fnv1a32`. */
  method Fnv1a32(data: Payload) returns (value: u32)
    ensures value == Fnv(data)
  {
    hide Xor;
    value := FNV_OFFSET;
    for i := 0 to |data|
      invariant FnvFrom(FNV_OFFSET, data) == FnvFrom(value, data[i..])
    {
      assert data[i..][1..] == data[i + 1..];
      value := Xor(value, data[i]);
      value := value * FNV_PRIME % RANGE;
    }
  }

  /** The prime is odd, so multiplying by it can be undone. */
  lemma PrimeIsInvertible(x: u32)
    ensures x * FNV_PRIME % RANGE * FNV_INVERSE % RANGE == x
  {
    var a, r := x * FNV_PRIME / RANGE, x * FNV_PRIME % RANGE;
    assert FNV_PRIME * FNV_INVERSE == 1 + INVERSE_LAPS * RANGE;
    assert r == x * FNV_PRIME - a * RANGE;
    assert r * FNV_INVERSE == x * (FNV_PRIME * FNV_INVERSE) - a * (RANGE * FNV_INVERSE);
    ModUnique(r * FNV_INVERSE, RANGE, x * INVERSE_LAPS - a * FNV_INVERSE, x);
  }

  lemma StepByValue(v: u32, w: u32, b: byte)
    requires FnvStep(v, b) == FnvStep(w, b)
    ensures v == w
  {
    hide Xor;
    PrimeIsInvertible(Xor(v, b));
    PrimeIsInvertible(Xor(w, b));
    XorCancels(b, v, w);
  }

  lemma StepByByte(v: u32, b: byte, c: byte)
    requires FnvStep(v, b) == FnvStep(v, c)
    ensures b == c
  {
    hide Xor;
    PrimeIsInvertible(Xor(v, b));
    PrimeIsInvertible(Xor(v, c));
    XorCancels(v, b, c);
  }

  lemma {:induction false} FromByValue(v: u32, w: u32, data: Payload)
    requires FnvFrom(v, data) == FnvFrom(w, data)
    ensures v == w
    decreases |data|
  {
    hide FnvStep;
    if data != [] {
      FromByValue(FnvStep(v, data[0]), FnvStep(w, data[0]), data[1..]);
      StepByValue(v, w, data[0]);
    }
  }

  lemma {:induction false} FromByByte(v: u32, a: Payload, b: Payload, p: nat)
    requires |a| == |b| && p < |a|
    requires forall i :: 0 <= i < |a| && i != p ==> a[i] == b[i]
    requires FnvFrom(v, a) == FnvFrom(v, b)
    ensures a[p] == b[p]
    decreases p
  {
    hide FnvStep;
    if p == 0 {
      assert a[1..] == b[1..];
      FromByValue(FnvStep(v, a[0]), FnvStep(v, b[0]), a[1..]);
      StepByByte(v, a[0], b[0]);
    } else {
      FromByByte(FnvStep(v, a[0]), a[1..], b[1..], p - 1);
    }
  }

  /** Keys of equal length that differ in exactly one byte have different digests. */
  lemma FnvSeparates(a: Payload, b: Payload, p: nat)
    requires |a| == |b| && p < |a|
    requires a[p] != b[p]
    requires forall i :: 0 <= i < |a| && i != p ==> a[i] == b[i]
    ensures Fnv(a) != Fnv(b)
  {
    if Fnv(a) == Fnv(b) {
      FromByByte(FNV_OFFSET, a, b, p);
    }
  }

  /** The shard of a routing key (`shard_for`). */
  function ShardFor(key: Payload, shards: nat): (index: nat)
    requires shards > 0
    ensures index < shards
  {
    Fnv(key) % shards
  }

  lemma XorOfA()
    ensures Xor(0x811C_9DC5, 0x61) == 0x811C_9DA4
  {
    Power2Values();
    assert Power2(25) == 2 * Power2(24);
    XorZero(0x102_393B, 25);
    assert XorBits(0x204_7277, 0x1, 26) == 0x204_7276;
    assert XorBits(0x408_E4EE, 0x3, 27) == 0x408_E4ED;
    assert XorBits(0x811_C9DC, 0x6, 28) == 0x811_C9DA;
    assert XorBits(0x1023_93B8, 0xC, 29) == 0x1023_93B4;
    assert XorBits(0x2047_2771, 0x18, 30) == 0x2047_2769;
    assert XorBits(0x408E_4EE2, 0x30, 31) == 0x408E_4ED2;
  }

  /** The digests of the empty key and of "a", which fix the offset, the prime and the order of the two steps. */
  lemma FnvValues(shards: nat)
    requires shards > 0
    ensures Fnv([]) == 0x811C_9DC5 && ShardFor([], shards) == 0x811C_9DC5 % shards
    ensures Fnv([0x61]) == 0xE40C_292C && ShardFor([0x61], shards) == 0xE40C_292C % shards
  {
    hide Xor;
    XorOfA();
    assert [0x61][1..] == [];
    assert FnvStep(FNV_OFFSET, 0x61) == 0xE40C_292C;
    assert FnvFrom(FNV_OFFSET, [0x61]) == FnvFrom(0xE40C_292C, []);
  }

  // ---- The fan-out ----

  datatype Strategy = RoundRobin | Hash | Broadcast

  /** One send in the history: its payload and the shards that took it. */
  datatype Sent = Sent(data: Payload, shards: set<nat>)

  /** The payloads that shard i took, in the order of the sends. */
  function Routed(log: seq<Sent>, i: nat): seq<Payload> {
    if log == [] then []
    else
      var last := log[|log| - 1];
      Routed(log[..|log| - 1], i) + (if i in last.shards then [last.data] else [])
  }

  /** The first n shards. */
  function FirstShards(n: nat): (first: set<nat>)
    ensures forall i: nat :: i in first <==> i < n
  {
    if n == 0 then {} else FirstShards(n - 1) + {n - 1}
  }

  class ShardedChannel {
    const strategy: Strategy
    const shards: array<seq<Payload>>
    var sendTurn: nat
    var recvTurn: nat
    ghost var log: seq<Sent>
    ghost var received: seq<seq<Payload>>

    /** What every shard took is what was received from it and what it still holds. */
    ghost predicate Valid()
      reads this, shards
    {
      && shards.Length > 0
      && |received| == shards.Length
      && (forall i :: 0 <= i < shards.Length ==> received[i] + shards[i] == Routed(log, i))
      && (forall j :: 0 <= j < |log| ==> log[j].shards <= Targets(j, log[j].data))
      && (strategy.RoundRobin? ==> sendTurn == |log|)
    }

    /** The shards that the j-th send may go to; a hash send without a key uses its payload. */
    ghost function Targets(j: nat, data: Payload): set<nat>
      requires shards.Length > 0
    {
      if strategy.RoundRobin? then {j % shards.Length} else FirstShards(shards.Length)
    }

    constructor (shardCount: nat, strategy: Strategy)
      requires shardCount > 0
      ensures Valid() && this.strategy == strategy && log == []
      ensures shards.Length == shardCount && fresh(shards)
      ensures forall i :: 0 <= i < shardCount ==> shards[i] == []
    {
      this.strategy := strategy;
      shards := new seq<Payload>[shardCount](_ => []);
      sendTurn, recvTurn := 0, 0;
      log := [];
      received := seq(shardCount, _ => []);
    }

    /** A broadcast stopped at the first shard that raises; the earlier ones took the message or dropped it. */
    ghost predicate StopsAtFirst(raising: set<nat>, dropping: set<nat>, taken: set<nat>) {
      exists k: nat :: k in raising && k < shards.Length && FirstShards(k) !! raising
                       && taken == FirstShards(k) - dropping
    }

    /** Appends to one shard, unless its channel raises an error or quietly drops the newest message. */
    method Offer(index: nat, data: Payload, raising: set<nat>, dropping: set<nat>)
      returns (used: Option<nat>, ghost taken: set<nat>)
      requires index < shards.Length
      modifies shards
      ensures used == if index in raising then None else Some(1)
      ensures taken == if index in raising + dropping then {} else {index}
      ensures forall i :: 0 <= i < shards.Length ==>
                shards[i] == old(shards[i]) + (if i in taken then [data] else [])
    {
      taken := {};
      if index in raising {
        return None, {};
      }
      if index in dropping {
        return Some(1), {};
      }
      shards[index] := shards[index] + [data];
      return Some(1), {index};
    }

    /** Appends to every shard in order, up to the first one that raises; the ones that drop are passed over. */
    method OfferAll(data: Payload, raising: set<nat>, dropping: set<nat>)
      returns (used: Option<nat>, ghost taken: set<nat>)
      modifies shards
      ensures used.Some? <==> FirstShards(shards.Length) !! raising
      ensures used.Some? ==> used.value == shards.Length && taken == FirstShards(shards.Length) - dropping
      ensures used.None? ==> StopsAtFirst(raising, dropping, taken)
      ensures forall i :: 0 <= i < shards.Length ==>
                shards[i] == old(shards[i]) + (if i in taken then [data] else [])
    {
      taken := {};
      for index := 0 to shards.Length
        invariant taken == FirstShards(index) - dropping && FirstShards(index) !! raising
        invariant forall i :: 0 <= i < shards.Length ==>
                    shards[i] == old(shards[i]) + (if i in taken then [data] else [])
      {
        if index in raising {
          return None, taken;
        }
        if index !in dropping {
          shards[index] := shards[index] + [data];
          taken := taken + {index};
        }
        assert FirstShards(index + 1) == FirstShards(index) + {index};
      }
      return Some(shards.Length), taken;
    }

    /** Picks the shards for one message and offers it to them. */
    method Route(data: Payload, key: Option<Payload>, raising: set<nat>, dropping: set<nat>)
      returns (used: Option<nat>, ghost taken: set<nat>)
      requires shards.Length > 0
      modifies `sendTurn, shards
      ensures sendTurn == if strategy.RoundRobin? then old(sendTurn) + 1 else old(sendTurn)
      ensures forall i :: 0 <= i < shards.Length ==>
                shards[i] == old(shards[i]) + (if i in taken then [data] else [])
      ensures taken <= FirstShards(shards.Length)
      ensures !strategy.Broadcast? ==>
                var index := if strategy.RoundRobin? then old(sendTurn) % shards.Length
                             else ShardFor(if key.Some? then key.value else data, shards.Length);
                && taken == (if index in raising + dropping then {} else {index})
                && used == (if index in raising then None else Some(1))
      ensures strategy.Broadcast? ==>
                && (used.Some? <==> FirstShards(shards.Length) !! raising)
                && (used.Some? ==> used.value == shards.Length && taken == FirstShards(shards.Length) - dropping)
                && (used.None? ==> StopsAtFirst(raising, dropping, taken))
    {
      match strategy {
        case RoundRobin =>
          var index := sendTurn % shards.Length;
          sendTurn := sendTurn + 1;
          used, taken := Offer(index, data, raising, dropping);
        case Hash =>
          var digest := Fnv1a32(if key.Some? then key.value else data);
          used, taken := Offer(digest % shards.Length, data, raising, dropping);
        case Broadcast =>
          used, taken := OfferAll(data, raising, dropping);
      }
    }

    /**
     * Routes one message; the channels of the shards in `raising` refuse it with an error, those in
     * `dropping` return normally without it. The result is the number of shards used, or nothing when an
     * error is raised; `taken` are the shards that took the message.
     */
    method Send(data: Payload, key: Option<Payload>, raising: set<nat>, dropping: set<nat>)
      returns (used: Option<nat>, ghost taken: set<nat>)
      requires Valid()
      modifies this, shards
      ensures Valid()
      ensures log == old(log) + [Sent(data, taken)]
      ensures received == old(received) && recvTurn == old(recvTurn)
      ensures !strategy.Broadcast? ==>
                var index := if strategy.RoundRobin? then old(sendTurn) % shards.Length
                             else ShardFor(if key.Some? then key.value else data, shards.Length);
                && taken == (if index in raising + dropping then {} else {index})
                && used == (if index in raising then None else Some(1))
      ensures strategy.Broadcast? ==>
                && (used.Some? <==> FirstShards(shards.Length) !! raising)
                && (used.Some? ==> used.value == shards.Length && taken == FirstShards(shards.Length) - dropping)
                && (used.None? ==> StopsAtFirst(raising, dropping, taken))
    {
      hide Routed, FirstShards, ShardFor;
      used, taken := Route(data, key, raising, dropping);
      RoutedAppends(log, Sent(data, taken));
      forall i | 0 <= i < shards.Length
        ensures received[i] + shards[i] == Routed(log + [Sent(data, taken)], i)
      {
        Assoc(received[i], old(shards[i]), if i in taken then [data] else []);
      }
      log := log + [Sent(data, taken)];
    }

    /** The shards in the order in which the next receive polls them (`_poll_order`). */
    method PollOrder() returns (order: seq<nat>)
      requires shards.Length > 0
      modifies `recvTurn
      ensures recvTurn == old(recvTurn) + 1
      ensures order == Rotation(old(recvTurn) % shards.Length, shards.Length)
    {
      var base := recvTurn % shards.Length;
      recvTurn := recvTurn + 1;
      order := seq(shards.Length, i requires 0 <= i < shards.Length => (base + i) % shards.Length);
    }

    /** Polls every shard once and takes the oldest message of the first one that has any (`recv_any`). */
    method RecvAny() returns (r: Option<(nat, Payload)>)
      requires Valid()
      modifies this, shards
      ensures Valid()
      ensures log == old(log) && recvTurn == old(recvTurn) + 1
      ensures r.None? ==> forall i :: 0 <= i < shards.Length ==> old(shards[i]) == [] && shards[i] == []
      ensures r.Some? ==>
                && r.value.0 < shards.Length
                && old(shards[r.value.0]) == [r.value.1] + shards[r.value.0]
                && received == old(received)[r.value.0 := old(received)[r.value.0] + [r.value.1]]
                && (forall i :: 0 <= i < shards.Length && i != r.value.0 ==> shards[i] == old(shards[i]))
                && FirstBusy(old(shards[..]), Rotation(old(recvTurn) % shards.Length, shards.Length), r.value.0)
    {
      var order := PollOrder();
      for k := 0 to |order|
        invariant forall i :: 0 <= i < shards.Length ==> shards[i] == old(shards[i])
        invariant log == old(log) && received == old(received) && sendTurn == old(sendTurn)
        invariant forall j :: 0 <= j < k ==> shards[order[j]] == []
      {
        var index := order[k];
        if shards[index] != [] {
          var payload := shards[index][0];
          shards[index] := shards[index][1..];
          received := received[index := received[index] + [payload]];
          assert old(shards[index]) == [payload] + shards[index];
          assert received[index] + shards[index] == old(received[index] + shards[index]);
          assert order[k] == index;
          return Some((index, payload));
        }
      }
      forall i | 0 <= i < shards.Length
        ensures shards[i] == []
      {
        var k := RotationCovers(old(recvTurn) % shards.Length, shards.Length, i);
        assert order[k] == i;
      }
      return None;
    }
  }

  /** The shard is polled, it holds a message, and every shard polled before it is empty. */
  ghost predicate FirstBusy(shards: seq<seq<Payload>>, order: seq<nat>, index: nat)
    requires forall k :: 0 <= k < |order| ==> order[k] < |shards|
  {
    exists k :: 0 <= k < |order| && order[k] == index && shards[index] != []
                && forall j :: 0 <= j < k ==> shards[order[j]] == []
  }

  /** The indices from `base` on, wrapping around once. */
  function Rotation(base: nat, n: nat): (order: seq<nat>)
    requires base < n
    ensures |order| == n
    ensures forall k :: 0 <= k < n ==> order[k] < n
  {
    seq(n, i requires 0 <= i < n => (base + i) % n)
  }

  /** Every index is polled. */
  lemma RotationCovers(base: nat, n: nat, i: nat) returns (k: nat)
    requires base < n && i < n
    ensures k < n && Rotation(base, n)[k] == i
  {
    k := if i >= base then i - base else i + n - base;
    ModUnique(base + k, n, if i >= base then 0 else 1, i);
  }

  /** No index is polled twice. */
  lemma RotationDistinct(base: nat, n: nat, j: nat, k: nat)
    requires base < n && j < k < n
    ensures Rotation(base, n)[j] != Rotation(base, n)[k]
  {
    IdxDistinct(base + j, base + k, n);
  }

  lemma Assoc(a: seq<Payload>, b: seq<Payload>, c: seq<Payload>)
    ensures a + (b + c) == (a + b) + c
  {
  }

  lemma RoutedAppends(log: seq<Sent>, sent: Sent)
    ensures forall i :: Routed(log + [sent], i) == Routed(log, i) + (if i in sent.shards then [sent.data] else [])
  {
    assert (log + [sent])[..|log|] == log;
  }

  // ---- Round robin ----

  /** No send was taken by another shard than the one whose turn it was; some may have been refused. */
  predicate TurnsOnly(log: seq<Sent>, n: nat)
    requires n > 0
  {
    forall j :: 0 <= j < |log| ==> log[j].shards <= {j % n}
  }

  /** Every send was taken by the shard whose turn it was. */
  predicate Turns(log: seq<Sent>, n: nat)
    requires n > 0
  {
    forall j :: 0 <= j < |log| ==> log[j].shards == {j % n}
  }

  /** How many of the first `count` turns fall to shard i. */
  function TurnsOf(count: nat, i: nat, n: nat): nat
    requires i < n
  {
    if count <= i then 0 else (count - i - 1) / n + 1
  }

  lemma TurnsStep(count: nat, i: nat, n: nat)
    requires i < n
    ensures TurnsOf(count + 1, i, n) == TurnsOf(count, i, n) + (if count % n == i then 1 else 0)
    ensures count % n == i ==> TurnsOf(count, i, n) == count / n
  {
    var q, r := count / n, count % n;
    assert count == n * q + r;
    if count < n {
      ModUnique(count, n, 0, count);
    } else {
      TurnsDivision(q, r, i, n);
    }
  }

  lemma TurnsDivision(q: nat, r: nat, i: nat, n: nat)
    requires r < n && i < n && q >= 1
    ensures (n * q + r - i) / n == if r >= i then q else q - 1
    ensures n * q + r - i - 1 >= 0
    ensures (n * q + r - i - 1) / n == if r > i then q else q - 1
  {
    MulMonotone(1, q, n);
    DivUnique(n * q + r - i, n, if r >= i then q else q - 1, if r >= i then r - i else r - i + n);
    DivUnique(n * q + r - i - 1, n, if r > i then q else q - 1, if r > i then r - i - 1 else r - i - 1 + n);
  }

  lemma DivUnique(x: nat, n: nat, q: nat, r: nat)
    requires r < n && x == n * q + r
    ensures x / n == q
  {
    var y := x / n;
    ModUnique(x, n, q, r);
    assert n * y == n * q;
    if y < q {
      MulStep(n, y, q);
    } else if q < y {
      MulStep(n, q, y);
    }
  }

  /**
   * After any number of round-robin sends shard i has taken exactly the messages whose positions are
   * congruent to i, in order.
   */
  lemma {:induction false} RoundRobinPositions(log: seq<Sent>, i: nat, n: nat)
    requires i < n && Turns(log, n)
    ensures |Routed(log, i)| == TurnsOf(|log|, i, n)
    ensures forall j :: 0 <= j < |log| && j % n == i ==>
              j / n < |Routed(log, i)| && Routed(log, i)[j / n] == log[j].data
  {
    if log != [] {
      var last := |log| - 1;
      RoundRobinPositions(log[..last], i, n);
      TurnsStep(last, i, n);
    }
  }

  lemma TurnBelow(count: nat, i: nat, n: nat, q: nat)
    requires i < n && q < TurnsOf(count, i, n)
    ensures q * n + i < count
  {
    DivBounds(count - i - 1, n);
    MulMonotone(q, (count - i - 1) / n, n);
  }

  /** The sends whose turn falls to shard i, in order: positions i, i + n, i + 2n and so on. */
  function TurnsFor(log: seq<Sent>, i: nat, n: nat): (sends: seq<Sent>)
    requires i < n
    ensures |sends| == TurnsOf(|log|, i, n)
  {
    seq(TurnsOf(|log|, i, n), q requires 0 <= q < TurnsOf(|log|, i, n) => TurnBelow(|log|, i, n, q); log[q * n + i])
  }

  /** The payloads of the sends that were taken. */
  function Taken(sends: seq<Sent>): seq<Payload> {
    if sends == [] then []
    else
      var last := sends[|sends| - 1];
      Taken(sends[..|sends| - 1]) + (if last.shards == {} then [] else [last.data])
  }

  lemma TurnsForStep(log: seq<Sent>, last: Sent, i: nat, n: nat)
    requires i < n
    ensures TurnsFor(log + [last], i, n) == TurnsFor(log, i, n) + (if |log| % n == i then [last] else [])
  {
    var before, after := TurnsFor(log, i, n), TurnsFor(log + [last], i, n);
    TurnsStep(|log|, i, n);
    forall q | 0 <= q < |before|
      ensures after[q] == before[q]
    {
      TurnBelow(|log|, i, n, q);
    }
    if |log| % n == i {
      var q := |log| / n;
      assert |log| == q * n + i;
      assert after[q] == last;
    }
  }

  /**
   * Whatever is refused, with an error or quietly, shard i has taken exactly the messages among the turns
   * congruent to i that were not, in order.
   */
  lemma {:induction false} RoundRobinAccepted(log: seq<Sent>, i: nat, n: nat)
    requires i < n && TurnsOnly(log, n)
    ensures Routed(log, i) == Taken(TurnsFor(log, i, n))
  {
    hide TurnsFor, TurnsOf;
    if log == [] {
      NoTurns(i, n);
    } else {
      var last := |log| - 1;
      RoundRobinAccepted(log[..last], i, n);
      assert log == log[..last] + [log[last]];
      TurnsForStep(log[..last], log[last], i, n);
      TakenAppends(TurnsFor(log[..last], i, n), log[last]);
      OnlyOne(log[last].shards, last % n);
      if last % n != i {
        assert TurnsFor(log, i, n) == TurnsFor(log[..last], i, n);
      }
    }
  }

  lemma NoTurns(i: nat, n: nat)
    requires i < n
    ensures Taken(TurnsFor([], i, n)) == []
  {
  }

  lemma OnlyOne(shards: set<nat>, x: nat)
    requires shards <= {x}
    ensures shards == {} || shards == {x}
  {
    if y :| y in shards {
      assert y == x;
    }
  }

  lemma TakenAppends(sends: seq<Sent>, last: Sent)
    ensures Taken(sends + [last]) == Taken(sends) + (if last.shards == {} then [] else [last.data])
  {
    assert (sends + [last])[..|sends|] == sends;
  }

  /** Reading one message from each shard in turn rebuilds the whole stream. */
  lemma Rebuilds(log: seq<Sent>, n: nat)
    requires n > 0 && Turns(log, n)
    ensures forall j :: 0 <= j < |log| ==>
              && j % n < n && j / n < |Routed(log, j % n)|
              && Routed(log, j % n)[j / n] == log[j].data
  {
    forall j | 0 <= j < |log|
      ensures j % n < n && j / n < |Routed(log, j % n)| && Routed(log, j % n)[j / n] == log[j].data
    {
      RoundRobinPositions(log, j % n, n);
    }
  }

  lemma TurnsAreEven(count: nat, i: nat, j: nat, n: nat)
    requires i <= j < n
    ensures TurnsOf(count, j, n) <= TurnsOf(count, i, n) <= TurnsOf(count, j, n) + 1
  {
    if count > j {
      var x := count - j - 1;
      var q, r := x / n, x % n;
      assert x == n * q + r;
      if r + (j - i) < n {
        DivUnique(count - i - 1, n, q, r + (j - i));
      } else {
        assert n * (q + 1) == n * q + n;
        DivUnique(count - i - 1, n, q + 1, r + (j - i) - n);
      }
    } else if count > i {
      DivUnique(count - i - 1, n, 0, count - i - 1);
    }
  }

  /** The loads of two shards differ by at most one. */
  lemma LoadsAreEven(log: seq<Sent>, i: nat, j: nat, n: nat)
    requires i <= j < n && Turns(log, n)
    ensures |Routed(log, j)| <= |Routed(log, i)| <= |Routed(log, j)| + 1
  {
    hide TurnsOf, Routed;
    RoundRobinPositions(log, i, n);
    RoundRobinPositions(log, j, n);
    TurnsAreEven(|log|, i, j, n);
  }

  // ---- Broadcast and hash ----

  /** When every send was taken by every shard, each shard saw the whole stream. */
  lemma {:induction false} BroadcastSeesAll(log: seq<Sent>, i: nat, n: nat)
    requires i < n
    requires forall j :: 0 <= j < |log| ==> i in log[j].shards
    ensures |Routed(log, i)| == |log|
    ensures forall j :: 0 <= j < |log| ==> Routed(log, i)[j] == log[j].data
  {
    if log != [] {
      BroadcastSeesAll(log[..|log| - 1], i, n);
    }
  }
}
