/** A region that is opened while the consumer stands in the wrong place gets a producer that misjudges the ring. */
module OpeningExactly {
  import opened Errors
  import opened Chunking
  import opened Cursors
  import opened Ring
  import opened RecoveryTheorems
  import opened Recovery
  import opened CrashGuard
  import opened CrashGuardProofs
  import opened PinScan
  import opened SequenceOrder
  import RingInvariant
  import RingTheorems
  import RingGrace
  import RingRounds

  // ---- Building runs ----

  predicate Shaped(config: Config, s: Resumed) {
    config.capacity == |s.slots| > 0 && s.index < |s.slots|
  }

  ghost predicate Leads(config: Config, s: Resumed, t: Resumed)
    requires Shaped(config, s)
  {
    exists actions: seq<Action> :: Run(config, s, actions) == t
  }

  lemma {:induction false} RunAppend(config: Config, s: Resumed, actions: seq<Action>, action: Action)
    requires Shaped(config, s)
    ensures Run(config, s, actions + [action]) == Act(config, Run(config, s, actions), action)
    decreases |actions|
  {
    hide Act;
    if actions == [] {
      assert actions + [action] == [action];
      assert Run(config, s, [action]) == Run(config, Act(config, s, action), [action][1..]);
    } else {
      assert (actions + [action])[1..] == actions[1..] + [action];
      RunAppend(config, Act(config, s, actions[0]), actions[1..], action);
    }
  }

  lemma Go(config: Config, s: Resumed, t: Resumed, action: Action) returns (u: Resumed)
    requires Shaped(config, s) && Leads(config, s, t)
    ensures Shaped(config, t) && u == Act(config, t, action)
    ensures Shaped(config, u) && Leads(config, s, u)
  {
    hide Act;
    var actions :| Run(config, s, actions) == t;
    RunAppend(config, s, actions, action);
    u := Act(config, t, action);
    assert Run(config, s, actions + [action]) == u;
  }

  /** Nothing but the slot of cursor `c` differs. */
  ghost predicate OnlySlot(config: Config, t: Resumed, u: Resumed, c: nat)
    requires Shaped(config, t) && Shaped(config, u)
  {
    forall d: nat :: Idx(d, config.capacity) != Idx(c, config.capacity) ==>
      StateAt(config, u, d) == StateAt(config, t, d)
  }

  /** A send of one slot with room in the guard and a free slot succeeds. */
  lemma SendOne(config: Config, s: Resumed, t: Resumed, c: nat) returns (u: Resumed)
    requires Shaped(config, s) && Leads(config, s, t) && Shaped(config, t)
    requires t.writer.Rested? && t.index == Idx(c, config.capacity) && StateAt(config, t, c).Free?
    requires config.capacity - GuardLen(config, t.head, t.tail, t.floor, t.bias) >= 1
    ensures Shaped(config, u) && Leads(config, s, u)
    ensures u == t.(slots := u.slots, index := Idx(c + 1, config.capacity), head := t.head + 1)
    ensures StateAt(config, u, c).Committed? && OnlySlot(config, t, u, c)
  {
    hide Leads, GuardLen, Idx;
    u := Go(config, s, t, Send(1));
    u := Go(config, s, u, Action.Produce);
    u := Go(config, s, u, Action.Produce);
    u := Go(config, s, u, Action.Produce);
    u := Go(config, s, u, Action.Produce);
    u := Go(config, s, u, Action.Produce);
    u := Go(config, s, u, Action.Produce);
    IdxShift(c, 1, config.capacity);
  }

  /** The consumer takes a committed slot from the tail. */
  lemma TakeOne(config: Config, s: Resumed, t: Resumed) returns (u: Resumed)
    requires Shaped(config, s) && Leads(config, s, t) && Shaped(config, t)
    requires t.reader.Waiting? && StateAt(config, t, t.tail).Committed?
    ensures Shaped(config, u) && Leads(config, s, u)
    ensures u == t.(slots := u.slots, tail := t.tail + 1)
    ensures OnlySlot(config, t, u, t.tail)
  {
    hide Leads, Idx;
    u := Go(config, s, t, Action.Consume);
    u := Go(config, s, u, Action.Consume);
    u := Go(config, s, u, Action.Consume);
  }

  /** A guard that passes for `n` slots although the `j`-th of them is not free. */
  lemma GuardErrs(config: Config, s: Resumed, t: Resumed, c: nat, n: nat, j: nat) returns (u: Resumed)
    requires Shaped(config, s) && Leads(config, s, t) && Shaped(config, t)
    requires t.writer.Rested? && j < n <= config.capacity
    requires config.capacity - GuardLen(config, t.head, t.tail, t.floor, t.bias) >= n
    requires t.index == Idx(c, config.capacity) && !StateAt(config, t, c + j).Free?
    ensures Shaped(config, u) && Leads(config, s, u)
    ensures !GuardHolds(config, u)
  {
    hide Leads, GuardLen, Idx;
    IdxShift(c, j, config.capacity);
    u := Go(config, s, t, Send(n));
    u := Go(config, s, u, Action.Produce);
    assert Ahead(config, u, j) == Ahead(config, t, j);
  }

  // ---- The openings that fail ----

  /** The consumer has the tail slot pinned: the opened handle counts one slot too few past the head. */
  lemma OpenedWhilePinned(config: Config, s: State, p: nat, gone: set<nat>) returns (u: Resumed)
    requires Opened(config, s, p) && !OpensSafely(config, s, p, gone)
    requires RingInvariant.HoldOf(s.consumer.pc).Reading?
    ensures |s.slots| == config.capacity > 0 && Shaped(config, ResumedOn(config, s, gone))
    ensures Leads(config, ResumedOn(config, s, gone), u) && Shaped(config, u) && !GuardHolds(config, u)
  {
    hide RingTheorems.Reachable, Idx, Rebuild, SweptRegion, SweepsWrites, Leads, GuardLen, GuardHolds;
    OpenedRun(config, s, p, gone);
    HeldIsCommitted(config, s, p);
    RebuiltPlace(config, s, p, gone);
    var resumed := ResumedOn(config, s, gone);
    var w := WrittenUpTo(s, p, gone);
    var n := s.tail + config.capacity - w + 1;
    StartLeads(config, resumed);
    GuardFits(config, resumed.head, resumed.tail, None, resumed.bias, n);
    IdxLap(s.tail, config.capacity);
    SweptLeftBehind(config, s, p, gone, s.tail);
    u := GuardErrs(config, resumed, resumed, w, n, n - 1);
  }

  lemma StartLeads(config: Config, s: Resumed)
    requires Shaped(config, s)
    ensures Leads(config, s, s)
  {
    assert Run(config, s, []) == s;
  }

  /** What a handle finds when the consumer has freed the tail slot and not yet stored the tail. */
  lemma OpenedFreed(config: Config, s: State, p: nat, gone: set<nat>)
    requires Opened(config, s, p)
    requires RingInvariant.HoldOf(s.consumer.pc).Freed?
    ensures |s.slots| == config.capacity > 0 && Shaped(config, ResumedOn(config, s, gone))
    ensures var r, w := ResumedOn(config, s, gone), WrittenUpTo(s, p, gone);
            && s.head <= w && s.tail < w <= s.tail + config.capacity
            && r.head == s.head && r.tail == s.tail && r.floor.None?
            && r.index == Idx(s.tail, config.capacity)
            && r.bias == (if w == s.head then 0 else w - 1 - s.head)
            && r.writer.Rested? && r.reader.Freed?
            && StateAt(config, r, s.tail).Free?
            && (w > s.tail + 1 ==> !StateAt(config, r, s.tail + 1).Free?)
            && (w == s.tail + 1 ==> forall i :: 0 <= i < |r.slots| ==> r.slots[i].Free?)
  {
    hide RingTheorems.Reachable, Idx, Rebuild, SweptRegion, SweepsWrites;
    OpenedRun(config, s, p, gone);
    HeldIsCommitted(config, s, p);
    RebuiltPlace(config, s, p, gone);
    var w, n := WrittenUpTo(s, p, gone), config.capacity;
    SweptLeftBehind(config, s, p, gone, s.tail);
    if w > s.tail + 1 {
      SweptLeftBehind(config, s, p, gone, s.tail + 1);
    } else {
      forall i | 0 <= i < n
        ensures SweptRegion(config, s.slots, gone)[i].state.Free?
      {
        var c := CursorOf(i, w, n);
        SweptLeftBehind(config, s, p, gone, c);
      }
    }
  }

  /** More than the freed slot was written: the handle starts to write one slot too early, or counts one too few. */
  lemma OpenedBeforeOthers(config: Config, s: State, p: nat, gone: set<nat>) returns (u: Resumed)
    requires Opened(config, s, p) && !OpensSafely(config, s, p, gone)
    requires RingInvariant.HoldOf(s.consumer.pc).Freed?
    requires WrittenUpTo(s, p, gone) > s.tail + 1
    ensures |s.slots| == config.capacity > 0 && Shaped(config, ResumedOn(config, s, gone))
    ensures Leads(config, ResumedOn(config, s, gone), u) && Shaped(config, u) && !GuardHolds(config, u)
  {
    hide Opened, Idx, ResumedOn, Leads, GuardLen, GuardHolds;
    OpenedTail(config, s, p);
    OpenedFreed(config, s, p, gone);
    var resumed := ResumedOn(config, s, gone);
    StartLeads(config, resumed);
    u := Go(config, resumed, resumed, Action.Consume);
    if WrittenUpTo(s, p, gone) == s.tail + config.capacity && s.head == s.tail {
      GuardFits(config, u.head, u.tail, None, u.bias, 1);
      IdxDistinct(s.tail, s.tail + 1, config.capacity);
      u := SendOne(config, resumed, u, s.tail);
      GuardFits(config, u.head, u.tail, None, u.bias, 1);
      u := GuardErrs(config, resumed, u, s.tail + 1, 1, 0);
    } else {
      GuardFits(config, u.head, u.tail, None, u.bias, 2);
      u := GuardErrs(config, resumed, u, s.tail, 2, 1);
    }
  }

  /** Only the freed slot was written, and it was published: the handle is one slot behind its own head. */
  lemma OpenedBehindHead(config: Config, r: Resumed) returns (u: Resumed)
    requires Shaped(config, r) && config.capacity >= 2
    requires r.writer.Rested? && r.reader.Freed? && r.floor.None? && r.bias == 0
    requires r.head == r.tail + 1 && r.index == Idx(r.tail, config.capacity)
    requires forall i :: 0 <= i < |r.slots| ==> r.slots[i].Free?
    ensures Leads(config, r, u) && Shaped(config, u) && !GuardHolds(config, u)
  {
    hide Idx, Leads, GuardLen, GuardHolds;
    var n, t := config.capacity, r.tail;
    StartLeads(config, r);
    u := Go(config, r, r, Action.Consume);
    GuardFits(config, u.head, u.tail, None, 0, 1);
    IdxDistinct(t, t + 1, n);
    u := SendOne(config, r, u, t);
    GuardFits(config, u.head, u.tail, None, 0, 1);
    u := SendOne(config, r, u, t + 1);
    u := TakeOne(config, r, u);
    GuardFits(config, u.head, u.tail, None, 0, n - 1);
    IdxLap(t, n);
    u := GuardErrs(config, r, u, t + 2, n - 1, n - 2);
  }

  /** Only the freed slot was written, and its head was not published: the handle writes where the tail has passed. */
  lemma OpenedBehindTail(config: Config, r: Resumed) returns (u: Resumed)
    requires Shaped(config, r)
    requires r.writer.Rested? && r.reader.Freed? && r.floor.None? && r.bias == 0
    requires r.head == r.tail && r.index == Idx(r.tail, config.capacity)
    requires forall i :: 0 <= i < |r.slots| ==> r.slots[i].Free?
    ensures Leads(config, r, u) && Shaped(config, u) && !GuardHolds(config, u)
  {
    hide Idx, Leads, GuardLen, GuardHolds;
    var n, t := config.capacity, r.tail;
    StartLeads(config, r);
    u := Go(config, r, r, Action.Consume);
    GuardFits(config, u.head, u.tail, None, 0, 1);
    u := SendOne(config, r, u, t);
    GuardFits(config, u.head, u.tail, None, 0, n);
    IdxLap(t, n);
    u := GuardErrs(config, r, u, t + 1, n, n - 1);
  }

  /** Every opening at such a place leads to a guard that passes over a slot that is not free. */
  lemma OpeningFails(config: Config, s: State, p: nat, gone: set<nat>) returns (u: Resumed)
    requires Opened(config, s, p) && !OpensSafely(config, s, p, gone)
    ensures |s.slots| == config.capacity > 0 && Shaped(config, ResumedOn(config, s, gone))
    ensures Leads(config, ResumedOn(config, s, gone), u) && Shaped(config, u) && !GuardHolds(config, u)
  {
    hide RingTheorems.Reachable, Idx, ResumedOn, Leads, GuardHolds;
    HeldIsCommitted(config, s, p);
    if RingInvariant.HoldOf(s.consumer.pc).Reading? {
      u := OpenedWhilePinned(config, s, p, gone);
    } else {
      OpenedFreed(config, s, p, gone);
      if WrittenUpTo(s, p, gone) > s.tail + 1 {
        u := OpenedBeforeOthers(config, s, p, gone);
      } else if s.head == s.tail + 1 {
        u := OpenedBehindHead(config, ResumedOn(config, s, gone));
      } else {
        u := OpenedBehindTail(config, ResumedOn(config, s, gone));
      }
    }
  }

  lemma OpenedIsShaped(config: Config, s: State, p: nat, gone: set<nat>)
    requires Opened(config, s, p)
    ensures |s.slots| == config.capacity > 0 && Shaped(config, ResumedOn(config, s, gone))
    ensures p in s.producers
  {
    OpenedRun(config, s, p, gone);
    hide OccupiedOf, ScanFloor, FoldNewest, PinnedIn, Readable, StepsToFree, SweptRegion;
  }

  /** The guard of the handle is right in every later state. */
  ghost predicate GuardAlwaysHolds(config: Config, s: Resumed)
    requires Shaped(config, s)
  {
    forall actions :: GuardHolds(config, Run(config, s, actions))
  }

  /**
   * The guard of a handle opened on the region is right on every later run, and no send of it meets an
   * occupied slot, exactly when the consumer stood at a safe place at the opening.
   */
  lemma OpensSafelyExactly(config: Config, s: State, p: nat, gone: set<nat>)
    requires Opened(config, s, p)
    ensures p in s.producers
    ensures |s.slots| == config.capacity > 0 && Shaped(config, ResumedOn(config, s, gone))
    ensures GuardAlwaysHolds(config, ResumedOn(config, s, gone)) <==> OpensSafely(config, s, p, gone)
  {
    hide Opened, OpensSafely, ResumedOn, GuardHolds, Run;
    OpenedIsShaped(config, s, p, gone);
    var resumed := ResumedOn(config, s, gone);
    if OpensSafely(config, s, p, gone) {
      forall actions
        ensures GuardHolds(config, Run(config, resumed, actions))
      {
        BiasedGuardIsSafe(config, s, p, gone, actions);
      }
    } else {
      var u := OpeningFails(config, s, p, gone);
      var actions :| Run(config, resumed, actions) == u;
    }
  }

  /**
   * Such a place is reachable on every single-producer ring: the consumer has freed the slot of the first
   * message, before its producer published the head and before the tail is stored.
   */
  lemma OpeningCanFail(config: Config) returns (s: State)
    requires RingInvariant.ConfigOk(config) && !config.multiProducer
    ensures Opened(config, s, 0) && RingInvariant.HoldOf(s.consumer.pc).Freed?
    ensures |s.slots| == config.capacity > 0 && Shaped(config, ResumedOn(config, s, {}))
    ensures !GuardAlwaysHolds(config, ResumedOn(config, s, {}))
  {
    hide RingGrace.ReachableBy, RingTheorems.Reachable, ResumedOn, GuardAlwaysHolds, RingInvariant.Inv;
    s := RingGrace.CommitsFirst(config, false, []);
    s := RingGrace.TakesFirst(config, false, s, Message(0, []));
    RingGrace.ByInv(config, false, s);
    HeldIsCommitted(config, s, 0);
    OpensSafelyExactly(config, s, 0, {});
  }

  /**
   * So is the place where the opening scan errs, on every single-producer ring: after as many messages as
   * the ring has slots, a receive has pinned the slot of one more.
   */
  lemma MidReceiveIsReached(config: Config) returns (s: State)
    requires RingInvariant.ConfigOk(config) && !config.multiProducer
    ensures Opened(config, s, 0) && RingTheorems.MidReceive(config, s)
  {
    hide RingGrace.ReachableBy, RingTheorems.Reachable, RingInvariant.Inv;
    s := RingRounds.Rounds(config, config.capacity);
    s := RingRounds.SendsOne(config, s, config.capacity);
    s := RingRounds.Pins(config, s, config.capacity);
    RingGrace.ByInv(config, false, s);
  }
}
