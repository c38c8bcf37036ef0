// A whole round of a task's receive loop (client/src/download_task.cc:103-125) as four steps of the shared counters,
// with whatever the other threads do between them.
module MeterRounds {
  import opened Meter

  /** What a round makes of a slot, with the values that the gate and the quota read. */
  function Round(lim: Limits, slot: Slot, atGate: nat, atQuota: nat, n: nat): Slot {
    var gated := MoveSlot(lim, atGate, slot, Gate);
    var reserved := MoveSlot(lim, atQuota, gated, Reserve);
    MoveSlot(lim, 0, MoveSlot(lim, 0, reserved, Receive(n)), Add)
  }

  /** Steps of the other tasks and of the collector. */
  predicate Elsewhere(i: nat, acts: seq<Action>) {
    forall k :: 0 <= k < |acts| && acts[k].Task? ==> acts[k].i != i
  }

  lemma {:induction false} OthersLeaveSlot(lim: Limits, s: State, acts: seq<Action>, i: nat)
    requires i < |s.slots| && Elsewhere(i, acts)
    ensures i < |Exec(lim, s, acts).slots| && Exec(lim, s, acts).slots[i] == s.slots[i]
  {
    if acts != [] {
      var n := |acts| - 1;
      OthersLeaveSlot(lim, s, acts[..n], i);
    }
  }

  lemma {:induction false} ExecAppend(lim: Limits, s: State, first: seq<Action>, rest: seq<Action>)
    ensures Exec(lim, s, first + rest) == Exec(lim, Exec(lim, s, first), rest)
  {
    hide Step;
    if rest == [] {
      assert first + rest == first;
    } else {
      var n := |rest| - 1;
      ExecAppend(lim, s, first, rest[..n]);
      assert (first + rest)[..|first + rest| - 1] == first + rest[..n];
    }
  }

  /** A move of task `i`, and then the others. */
  function Leg(i: nat, m: Move, others: seq<Action>): seq<Action> {
    [Action.Task(i, m)] + others
  }

  lemma LegMoves(lim: Limits, s: State, i: nat, m: Move, others: seq<Action>)
    requires i < |s.slots| && Elsewhere(i, others)
    ensures var t := Exec(lim, s, Leg(i, m, others));
            i < |t.slots| && t.slots[i] == MoveSlot(lim, s.used, s.slots[i], m)
  {
    var move := Action.Task(i, m);
    ExecAppend(lim, s, [move], others);
    assert Exec(lim, s, [move]) == Step(lim, s, move) by {
      assert [move][..0] == [];
    }
    OthersLeaveSlot(lim, Step(lim, s, move), others, i);
  }

  /**
   * If a task's round has moved its slot as the loop does, with the readings of some run of the counters, then there is
   * a longer run in which it did, and the bytes of the second stay within the bound.
   */
  lemma RoundWithinBound(lim: Limits, before: seq<Action>, i: nat, left: nat, n: nat, others: seq<seq<Action>>)
    returns (acts: seq<Action>)
    requires Fits(lim) && |others| == 4 && n <= left
    requires forall k :: 0 <= k < |before| ==> Metered(lim, before[k])
    requires forall j :: 0 <= j < 4 ==>
               Elsewhere(i, others[j]) && forall k :: 0 <= k < |others[j]| ==> Metered(lim, others[j][k])
    requires var s := Exec(lim, START, before);
             && i < |s.slots| && s.slots[i] == Loop(left)
             && Round(lim, Loop(left), s.used, Exec(lim, s, Leg(i, Gate, others[0])).used, n) == Loop(left - n)
    ensures acts == before + Leg(i, Gate, others[0]) + Leg(i, Reserve, others[1]) + Leg(i, Receive(n), others[2])
                    + Leg(i, Add, others[3])
    ensures var t := Exec(lim, START, acts);
            && i < |t.slots| && t.slots[i] == Loop(left - n)
            && t.second <= Bound(lim)
  {
    hide Exec, Leg, MoveSlot, Fits, Bound, Metered, Elsewhere;
    var s := Exec(lim, START, before);
    var gated, reserved := Leg(i, Gate, others[0]), Leg(i, Reserve, others[1]);
    var got, added := Leg(i, Receive(n), others[2]), Leg(i, Add, others[3]);
    acts := before + gated + reserved + got + added;
    LegMoves(lim, s, i, Gate, others[0]);
    LegMoves(lim, Exec(lim, s, gated), i, Reserve, others[1]);
    LegMoves(lim, Exec(lim, Exec(lim, s, gated), reserved), i, Receive(n), others[2]);
    LegMoves(lim, Exec(lim, Exec(lim, Exec(lim, s, gated), reserved), got), i, Add, others[3]);
    ExecAppend(lim, START, before, gated);
    ExecAppend(lim, START, before + gated, reserved);
    ExecAppend(lim, START, before + gated + reserved, got);
    ExecAppend(lim, START, before + gated + reserved + got, added);
    BlindMoves(lim, Exec(lim, Exec(lim, Exec(lim, s, gated), reserved), got).used,
               Exec(lim, Exec(lim, s, gated), reserved).used, MoveSlot(lim, Exec(lim, s, gated).used,
               MoveSlot(lim, s.used, Loop(left), Gate), Reserve), n);
    AllMetered(lim, before, i, n, others);
    OvershootBound(lim, acts, Exec(lim, START, acts));
  }

  /** Receiving and adding do not look at the counter. */
  lemma BlindMoves(lim: Limits, a: nat, b: nat, slot: Slot, n: nat)
    ensures MoveSlot(lim, a, MoveSlot(lim, b, slot, Receive(n)), Add) ==
            MoveSlot(lim, 0, MoveSlot(lim, 0, slot, Receive(n)), Add)
  {
    hide Quota;
  }

  lemma AllMetered(lim: Limits, before: seq<Action>, i: nat, n: nat, others: seq<seq<Action>>)
    requires |others| == 4
    requires forall k :: 0 <= k < |before| ==> Metered(lim, before[k])
    requires forall j :: 0 <= j < 4 ==> forall k :: 0 <= k < |others[j]| ==> Metered(lim, others[j][k])
    ensures var acts := before + Leg(i, Gate, others[0]) + Leg(i, Reserve, others[1]) + Leg(i, Receive(n), others[2])
                        + Leg(i, Add, others[3]);
            forall k :: 0 <= k < |acts| ==> Metered(lim, acts[k])
  {
    LegMetered(lim, before, i, Gate, others[0]);
    LegMetered(lim, before + Leg(i, Gate, others[0]), i, Reserve, others[1]);
    LegMetered(lim, before + Leg(i, Gate, others[0]) + Leg(i, Reserve, others[1]), i, Receive(n), others[2]);
    LegMetered(lim, before + Leg(i, Gate, others[0]) + Leg(i, Reserve, others[1]) + Leg(i, Receive(n), others[2]), i,
               Add, others[3]);
  }

  lemma LegMetered(lim: Limits, before: seq<Action>, i: nat, m: Move, others: seq<Action>)
    requires forall k :: 0 <= k < |before| ==> Metered(lim, before[k])
    requires forall k :: 0 <= k < |others| ==> Metered(lim, others[k])
    requires !m.Offer?
    ensures var acts := before + Leg(i, m, others);
            forall k :: 0 <= k < |acts| ==> Metered(lim, acts[k])
  {
  }
}
