// The byte counters of a job: the per-second download quota that the tasks share
// (client/src/download_task.cc) and the collector that moves the counter into a total once a second
// (client/src/client.cc). Each atomic access to a counter is one step; steps interleave freely.
module Meter {
  import opened Arithmetic
  import opened Prelude
  import opened Bags

  const INT_MAX := 0x7fff_ffff

  /** The speed limit, the largest chunk, and how many tasks the thread pool runs at once. */
  datatype Limits = Limits(limit: nat, largest: nat, threads: nat)

  /** Where one task is in its loop; `left` bytes of its chunk are still missing. */
  datatype Slot =
    | Off
    | Loop(left: nat)
    | Gated(left: nat)
    | Reserved(left: nat, ask: nat)
    | Got(left: nat, n: nat)

  /** The collector: asleep, holding the value it read, or having added it to the total. */
  datatype Phase = Sleeping | Snapped(v: nat) | Totalled(v: nat)

  /**
   * `used` is the shared counter of this second and `total` the total. The rest records what really
   * happened: bytes moved since the last reset, bytes moved ever, bytes a reset threw away.
   */
  datatype State = State(used: nat, total: nat, slots: seq<Slot>, phase: Phase,
                         second: nat, moved: nat, dropped: int)

  const START := State(0, 0, [], Sleeping, 0, 0, 0)

  /**
   * A move of one task inside its loop. `Offer` is an upload's request, which no quota limits; `Drop`
   * leaves the loop by an exception, and `Quit` gives the thread back.
   */
  datatype Move = Gate | Reserve | Offer | Receive(n: nat) | Add | Drop | Quit

  datatype Action =
    | Begin(size: nat)
    | Task(i: nat, m: Move)
    | Snapshot
    | AddTotal
    | Reset

  // ----- the quota arithmetic -----

  function AsUInt64(x: int): nat {
    x % 0x1_0000_0000_0000_0000
  }

  /** The low 32 bits read as a signed number. */
  function AsInt32(x: int): int {
    var low := x % 0x1_0000_0000;
    if low <= INT_MAX then low else low - 0x1_0000_0000
  }

  /** The difference of two unsigned 64-bit counters stored in an int. */
  function Quota(limit: nat, used: nat): int {
    AsInt32(AsUInt64(limit - used))
  }

  /** Storing the 64-bit difference in an int keeps its low half, whatever it is. */
  lemma LowHalf(d: int)
    ensures AsInt32(AsUInt64(d)) == AsInt32(d)
  {
    var q := d / 0x1_0000_0000_0000_0000;
    SameRemainder(0x1_0000_0000, AsUInt64(d), 0x1_0000_0000 * q);
  }

  /** The stored quota is the real difference exactly when that difference is an int. */
  lemma QuotaExact(limit: nat, used: nat)
    ensures Quota(limit, used) == limit - used <==> -0x8000_0000 <= limit - used <= 0x7fff_ffff
  {
    hide AsUInt64;
    LowHalf(limit - used);
  }

  /** Short of an overflow of the overshoot, a positive quota is no more than what is left, for any limit. */
  lemma QuotaBelow(limit: nat, used: nat)
    requires used <= limit + INT_MAX + 1
    ensures Quota(limit, used) <= INT_MAX
    ensures Quota(limit, used) > 0 ==> Quota(limit, used) <= limit - used
  {
    hide AsUInt64;
    var d := limit - used;
    LowHalf(d);
    if d >= 0 {
      assert d % 0x1_0000_0000 <= d;
    }
  }

  // ----- steps -----

  function Weight(slot: Slot): nat {
    match slot
    case Reserved(_, ask) => ask
    case Got(_, n) => n
    case _ => 0
  }

  function Pending(slot: Slot): nat {
    if slot.Got? then slot.n else 0
  }

  function Busy(slot: Slot): nat {
    if slot.Off? then 0 else 1
  }

  function Weights(slots: seq<Slot>): seq<nat> {
    seq(|slots|, i requires 0 <= i < |slots| => Weight(slots[i]))
  }

  function Pendings(slots: seq<Slot>): seq<nat> {
    seq(|slots|, i requires 0 <= i < |slots| => Pending(slots[i]))
  }

  function Busies(slots: seq<Slot>): seq<nat> {
    seq(|slots|, i requires 0 <= i < |slots| => Busy(slots[i]))
  }

  function Active(slots: seq<Slot>): nat {
    Sum(Busies(slots))
  }

  /** Bytes that a move takes off the socket. */
  function Taken(slot: Slot, m: Move): nat {
    if m.Receive? && slot.Reserved? && 1 <= m.n <= slot.ask then m.n else 0
  }

  /** Bytes that a move adds to the shared counter. */
  function Added(slot: Slot, m: Move): nat {
    if m.Add? && slot.Got? && slot.n <= slot.left then slot.n else 0
  }

  /** One slot's own move; a move that does not apply leaves it as it is. */
  function MoveSlot(lim: Limits, used: nat, slot: Slot, m: Move): Slot {
    match m
    case Gate => if slot.Loop? && slot.left > 0 && used <= lim.limit then Gated(slot.left) else slot
    case Reserve =>
      if !slot.Gated? then slot
      else
        var quota := Quota(lim.limit, used);
        if quota <= 0 then Loop(slot.left) else Reserved(slot.left, Min(quota, slot.left))
    case Offer => if slot.Loop? && slot.left > 0 then Reserved(slot.left, slot.left) else slot
    case Receive(n) => if slot.Reserved? && 1 <= n <= slot.ask then Got(slot.left, n) else slot
    case Add => if slot.Got? && slot.n <= slot.left then Loop(slot.left - slot.n) else slot
    case Drop => if slot.Got? || slot.Off? then slot else Loop(slot.left)
    case Quit => if slot.Got? then slot else Off
  }

  function TaskStep(lim: Limits, s: State, i: nat, m: Move): State
    requires i < |s.slots|
  {
    var slot := s.slots[i];
    s.(slots := s.slots[i := MoveSlot(lim, s.used, slot, m)],
       second := s.second + Taken(slot, m), moved := s.moved + Taken(slot, m), used := s.used + Added(slot, m))
  }

  function Step(lim: Limits, s: State, a: Action): State {
    match a
    case Begin(size) =>
      if Active(s.slots) < lim.threads then s.(slots := s.slots + [Loop(size)]) else s
    case Task(i, m) => if i < |s.slots| then TaskStep(lim, s, i, m) else s
    case Snapshot => if s.phase.Sleeping? then s.(phase := Snapped(s.used)) else s
    case AddTotal => if s.phase.Snapped? then s.(phase := Totalled(s.phase.v), total := s.total + s.phase.v) else s
    case Reset =>
      if s.phase.Totalled? then
        s.(phase := Sleeping, used := 0, second := 0, dropped := s.dropped + s.used - s.phase.v)
      else s
  }

  function Exec(lim: Limits, s: State, acts: seq<Action>): State {
    if acts == [] then s else Step(lim, Exec(lim, s, acts[..|acts| - 1]), acts[|acts| - 1])
  }

  /** Nothing has been counted: the collector may be at any point, but what it has read is 0. */
  predicate Quiet(s: State) {
    s == START.(phase := s.phase) && (!s.phase.Sleeping? ==> s.phase.v == 0)
  }

  lemma QuietIsReached(lim: Limits, s: State) returns (acts: seq<Action>)
    requires Quiet(s)
    ensures forall i :: 0 <= i < |acts| ==> Metered(lim, acts[i])
    ensures Exec(lim, START, acts) == s
  {
    var snapped := Step(lim, START, Snapshot);
    assert [Snapshot][..0] == [] && [Snapshot, AddTotal][..1] == [Snapshot];
    assert Exec(lim, START, [Snapshot]) == snapped;
    assert Exec(lim, START, [Snapshot, AddTotal]) == Step(lim, snapped, AddTotal);
    acts := match s.phase
      case Sleeping => []
      case Snapped(_) => [Snapshot]
      case Totalled(_) => [Snapshot, AddTotal];
  }

  /** Three readings of the slots after one of them changes. */
  lemma SlotSums(slots: seq<Slot>, i: nat, slot: Slot)
    requires i < |slots|
    ensures Weight(slots[i]) <= Sum(Weights(slots)) && Pending(slots[i]) <= Sum(Pendings(slots))
    ensures Busy(slots[i]) <= Active(slots)
    ensures Sum(Weights(slots[i := slot])) == Sum(Weights(slots)) - Weight(slots[i]) + Weight(slot)
    ensures Sum(Pendings(slots[i := slot])) == Sum(Pendings(slots)) - Pending(slots[i]) + Pending(slot)
    ensures Active(slots[i := slot]) == Active(slots) - Busy(slots[i]) + Busy(slot)
  {
    SumUpdate(Weights(slots), i, Weight(slot));
    SumUpdate(Pendings(slots), i, Pending(slot));
    SumUpdate(Busies(slots), i, Busy(slot));
    assert Weights(slots[i := slot]) == Weights(slots)[i := Weight(slot)];
    assert Pendings(slots[i := slot]) == Pendings(slots)[i := Pending(slot)];
    assert Busies(slots[i := slot]) == Busies(slots)[i := Busy(slot)];
  }

  lemma SlotAppend(slots: seq<Slot>, slot: Slot)
    ensures Sum(Weights(slots + [slot])) == Sum(Weights(slots)) + Weight(slot)
    ensures Sum(Pendings(slots + [slot])) == Sum(Pendings(slots)) + Pending(slot)
    ensures Active(slots + [slot]) == Active(slots) + Busy(slot)
  {
    SumAppend(Weights(slots), Weight(slot));
    SumAppend(Pendings(slots), Pending(slot));
    SumAppend(Busies(slots), Busy(slot));
    assert Weights(slots + [slot]) == Weights(slots) + [Weight(slot)];
    assert Pendings(slots + [slot]) == Pendings(slots) + [Pending(slot)];
    assert Busies(slots + [slot]) == Busies(slots) + [Busy(slot)];
  }

  // ----- the overshoot of the quota -----

  /** A single request never asks for more than this. */
  function MaxAsk(lim: Limits): nat {
    Min(Min(lim.limit, INT_MAX), lim.largest)
  }

  function Bound(lim: Limits): int {
    lim.limit + MaxAsk(lim) * (lim.threads - 1)
  }

  /** The largest overshoot still has the right sign once stored in an int. */
  ghost predicate Fits(lim: Limits) {
    lim.threads >= 1 && MaxAsk(lim) * (lim.threads - 1) <= INT_MAX + 1
  }

  predicate SlotOk(lim: Limits, slot: Slot) {
    match slot
    case Off => true
    case Loop(left) => left <= lim.largest
    case Gated(left) => 0 < left <= lim.largest
    case Reserved(left, ask) => left <= lim.largest && 1 <= ask <= left && ask <= MaxAsk(lim)
    case Got(left, n) => left <= lim.largest && 1 <= n <= left && n <= MaxAsk(lim)
  }

  ghost predicate QuotaInv(lim: Limits, s: State) {
    && (forall i :: 0 <= i < |s.slots| ==> SlotOk(lim, s.slots[i]))
    && Active(s.slots) <= lim.threads
    && s.used + Sum(Weights(s.slots)) <= Bound(lim)
    && s.second <= s.used + Sum(Pendings(s.slots))
  }

  lemma ScaledGap(m: nat, a: nat, b: int)
    requires a <= b
    ensures m * a <= m * b
  {
    assert m * b == m * a + m * (b - a);
  }

  /** All requests but one slot's own fit in one less than the number of threads. */
  lemma OthersBound(lim: Limits, slots: seq<Slot>, i: nat)
    requires forall j :: 0 <= j < |slots| ==> SlotOk(lim, slots[j])
    requires i < |slots| && !slots[i].Off? && Active(slots) <= lim.threads
    ensures Sum(Weights(slots)) - Weight(slots[i]) <= MaxAsk(lim) * (lim.threads - 1)
  {
    var rest := slots[i := Off];
    SlotSums(slots, i, Off);
    RequestsScaled(lim, rest);
    ScaledGap(MaxAsk(lim), Active(rest), lim.threads - 1);
  }

  lemma RequestsScaled(lim: Limits, slots: seq<Slot>)
    requires forall j :: 0 <= j < |slots| ==> SlotOk(lim, slots[j])
    ensures Sum(Weights(slots)) <= MaxAsk(lim) * Active(slots)
  {
    forall j | 0 <= j < |slots| ensures Weights(slots)[j] <= MaxAsk(lim) * Busies(slots)[j] {
      assert SlotOk(lim, slots[j]);
    }
    SumScaled(Weights(slots), Busies(slots), MaxAsk(lim));
  }

  /** Inside the invariant the stored quota is the real difference, provided that the limit is an int. */
  lemma QuotaSound(lim: Limits, s: State)
    requires Fits(lim) && QuotaInv(lim, s) && lim.limit <= INT_MAX
    ensures Quota(lim.limit, s.used) == lim.limit - s.used
  {
    hide Quota;
    QuotaExact(lim.limit, s.used);
  }

  lemma {:induction false} PendingWithinWeight(slots: seq<Slot>)
    ensures Sum(Pendings(slots)) <= Sum(Weights(slots))
  {
    if slots != [] {
      var n := |slots| - 1;
      PendingWithinWeight(slots[..n]);
      assert Pendings(slots)[..n] == Pendings(slots[..n]);
      assert Weights(slots)[..n] == Weights(slots[..n]);
    }
  }

  /** A metered step: no upload's unlimited offer, and no task on a chunk above the largest. */
  predicate Metered(lim: Limits, a: Action) {
    !(a.Task? && a.m.Offer?) && (a.Begin? ==> a.size <= lim.largest)
  }

  lemma ReserveKeepsQuota(lim: Limits, s: State, i: nat)
    requires Fits(lim) && QuotaInv(lim, s) && i < |s.slots| && s.slots[i].Gated?
    ensures QuotaInv(lim, TaskStep(lim, s, i, Reserve))
  {
    hide Quota;
    SlotSums(s.slots, i, MoveSlot(lim, s.used, s.slots[i], Reserve));
    assert SlotOk(lim, s.slots[i]);
    QuotaBelow(lim.limit, s.used);
    OthersBound(lim, s.slots, i);
  }

  lemma TaskStepKeepsQuota(lim: Limits, s: State, i: nat, m: Move)
    requires Fits(lim) && QuotaInv(lim, s) && i < |s.slots| && !m.Offer?
    ensures QuotaInv(lim, TaskStep(lim, s, i, m))
  {
    if m.Reserve? && s.slots[i].Gated? {
      ReserveKeepsQuota(lim, s, i);
    } else {
      SlotSums(s.slots, i, MoveSlot(lim, s.used, s.slots[i], m));
      assert SlotOk(lim, s.slots[i]);
    }
  }

  lemma StepKeepsQuota(lim: Limits, s: State, a: Action)
    requires Fits(lim) && QuotaInv(lim, s) && Metered(lim, a)
    ensures QuotaInv(lim, Step(lim, s, a))
  {
    match a
    case Begin(size) => SlotAppend(s.slots, Loop(size));
    case Task(i, m) => if i < |s.slots| { TaskStepKeepsQuota(lim, s, i, m); }
    case Snapshot =>
    case AddTotal =>
    case Reset =>
  }

  lemma {:induction false} RunsKeepQuota(lim: Limits, acts: seq<Action>)
    requires Fits(lim)
    requires forall i :: 0 <= i < |acts| ==> Metered(lim, acts[i])
    ensures QuotaInv(lim, Exec(lim, START, acts))
  {
    if acts == [] {
      ScaledGap(MaxAsk(lim), 0, lim.threads - 1);
    } else {
      RunsKeepQuota(lim, acts[..|acts| - 1]);
      StepKeepsQuota(lim, Exec(lim, START, acts[..|acts| - 1]), acts[|acts| - 1]);
    }
  }

  lemma QuotaInvBounds(lim: Limits, s: State)
    requires Fits(lim) && QuotaInv(lim, s)
    ensures s.second <= Bound(lim)
  {
    PendingWithinWeight(s.slots);
  }

  lemma OneThreadBound(lim: Limits)
    requires lim.threads == 1
    ensures Bound(lim) == lim.limit
  {
  }

  /**
   * Whatever the interleaving, the bytes received in the current second exceed the limit by at most
   * one request of every thread but one.
   */
  lemma OvershootBound(lim: Limits, acts: seq<Action>, s: State)
    requires Fits(lim) && s == Exec(lim, START, acts)
    requires forall i :: 0 <= i < |acts| ==> Metered(lim, acts[i])
    ensures s.second <= Bound(lim)
    ensures lim.threads == 1 ==> s.second <= lim.limit
  {
    RunsKeepQuota(lim, acts);
    QuotaInvBounds(lim, s);
    if lim.threads == 1 {
      OneThreadBound(lim);
    }
  }

  /** For a limit that is an int, the quota that a task computes is the real one, its sign included. */
  lemma QuotaIsReal(lim: Limits, acts: seq<Action>)
    requires Fits(lim) && lim.limit <= INT_MAX
    requires forall i :: 0 <= i < |acts| ==> Metered(lim, acts[i])
    ensures var s := Exec(lim, START, acts);
            Quota(lim.limit, s.used) == lim.limit - s.used
  {
    RunsKeepQuota(lim, acts);
    QuotaSound(lim, Exec(lim, START, acts));
  }

  // ----- accounting -----

  predicate Counted(slot: Slot) {
    (slot.Got? ==> slot.n <= slot.left) && (slot.Reserved? ==> slot.ask <= slot.left)
  }

  /** What the collector has already moved into the total but not yet taken from the counter. */
  function Overlap(phase: Phase): nat {
    if phase.Totalled? then phase.v else 0
  }

  /** Every byte moved is in the total, in the counter, in a task about to add it, or was dropped by a reset. */
  ghost predicate AccountInv(s: State) {
    && (forall i :: 0 <= i < |s.slots| ==> Counted(s.slots[i]))
    && s.total + s.used - Overlap(s.phase) + Sum(Pendings(s.slots)) + s.dropped == s.moved
    && s.dropped >= 0
    && (!s.phase.Sleeping? ==> s.phase.v <= s.used)
  }

  lemma TaskStepKeepsAccount(lim: Limits, s: State, i: nat, m: Move)
    requires AccountInv(s) && i < |s.slots|
    ensures AccountInv(TaskStep(lim, s, i, m))
  {
    assert Counted(s.slots[i]);
    SlotSums(s.slots, i, MoveSlot(lim, s.used, s.slots[i], m));
  }

  lemma StepKeepsAccount(lim: Limits, s: State, a: Action)
    requires AccountInv(s)
    ensures AccountInv(Step(lim, s, a))
  {
    match a
    case Begin(size) => SlotAppend(s.slots, Loop(size));
    case Task(i, m) => if i < |s.slots| { TaskStepKeepsAccount(lim, s, i, m); }
    case Snapshot =>
    case AddTotal =>
    case Reset =>
  }

  lemma {:induction false} RunsKeepAccount(lim: Limits, acts: seq<Action>)
    ensures AccountInv(Exec(lim, START, acts))
  {
    if acts != [] {
      RunsKeepAccount(lim, acts[..|acts| - 1]);
      StepKeepsAccount(lim, Exec(lim, START, acts[..|acts| - 1]), acts[|acts| - 1]);
    }
  }

  /** Totals never overcount, for downloads and uploads alike, in any interleaving. */
  lemma TotalsNeverOvercount(lim: Limits, acts: seq<Action>, s: State)
    requires s == Exec(lim, START, acts)
    ensures if s.phase.Totalled? then s.total + s.used - s.phase.v <= s.moved else s.total + s.used <= s.moved
  {
    RunsKeepAccount(lim, acts);
  }

  /** A step that adds to the counter while the collector holds a value it has read. */
  ghost predicate LateAdd(s: State, a: Action) {
    !s.phase.Sleeping? && a.Task? && a.i < |s.slots| && Added(s.slots[a.i], a.m) > 0
  }

  /** A run in which no task adds between the collector's read and its reset. */
  ghost predicate Timely(lim: Limits, acts: seq<Action>) {
    acts == [] ||
    (Timely(lim, acts[..|acts| - 1]) && !LateAdd(Exec(lim, START, acts[..|acts| - 1]), acts[|acts| - 1]))
  }

  ghost predicate NothingDropped(s: State) {
    s.dropped == 0 && (!s.phase.Sleeping? ==> s.used == s.phase.v)
  }

  lemma TimelyStep(lim: Limits, s: State, a: Action)
    requires NothingDropped(s) && !LateAdd(s, a)
    ensures NothingDropped(Step(lim, s, a))
  {
  }

  lemma {:induction false} TimelyRunsDropNothing(lim: Limits, acts: seq<Action>)
    requires Timely(lim, acts)
    ensures NothingDropped(Exec(lim, START, acts))
  {
    if acts != [] {
      TimelyRunsDropNothing(lim, acts[..|acts| - 1]);
      TimelyStep(lim, Exec(lim, START, acts[..|acts| - 1]), acts[|acts| - 1]);
    }
  }

  lemma BooksBalance(s: State)
    requires AccountInv(s) && NothingDropped(s)
    ensures s.total + s.used - Overlap(s.phase) + Sum(Pendings(s.slots)) == s.moved
  {
  }

  /** On such a run the books balance exactly. */
  lemma TimelyRunsBalance(lim: Limits, acts: seq<Action>, s: State)
    requires Timely(lim, acts) && s == Exec(lim, START, acts)
    ensures s.total + s.used - Overlap(s.phase) + Sum(Pendings(s.slots)) == s.moved
  {
    TimelyRunsDropNothing(lim, acts);
    RunsKeepAccount(lim, acts);
    BooksBalance(s);
  }

  /** A reset throws away exactly the bytes added since the counter was read. */
  lemma ResetDrops(lim: Limits, acts: seq<Action>, s: State)
    requires s == Exec(lim, START, acts) && s.phase.Totalled?
    ensures s.used >= s.phase.v
    ensures var t := Step(lim, s, Reset);
            t.moved - (t.total + t.used + Sum(Pendings(t.slots))) == s.dropped + (s.used - s.phase.v)
  {
    RunsKeepAccount(lim, acts);
  }
}
