// What a job still does after it was stopped, paused or removed: it pops no further chunk, starts at most the task that
// it was about to start, and receives no more than its tasks were about to ask for (client/src/job.cc,
// client/src/download_task.cc).
module JobHalt {
  import opened Bags
  import opened ChunkQueue
  import opened JobMachine
  import opened JobFrames
  import opened JobTheorems
  import Meter
  import SockPool

  predicate Halted(flags: Flags) {
    flags.removed || flags.stopped || flags.paused
  }

  /** The flags are not changed. */
  predicate FlagsStay(acts: seq<Action>) {
    forall i :: 0 <= i < |acts| ==> !acts[i].SetFlags?
  }

  // ----- the scheduler -----

  /** The scheduler has passed the tests of the flags, and has not yet come back to them. */
  predicate InPass(pc: Pc) {
    pc.Cleared? || HasChunk(pc)
  }

  /** Tasks started, starts that threw, and the one that may be about to start. */
  function Starts(s: State): nat {
    |s.tasks| + |s.lost| + if InPass(s.pc) then 1 else 0
  }

  /** A halted job goes from one state to the other. */
  predicate WindsDown(s: State, u: State) {
    && u.flags == s.flags && Starts(u) <= Starts(s) && |s.tasks| <= |u.tasks|
    && (!InPass(s.pc) ==> !InPass(u.pc) && s.queue <= u.queue && |u.tasks| == |s.tasks| && u.lost == s.lost)
  }

  lemma HaltedTaskStep(cfg: Config, s: State, t: nat, m: TaskMove)
    requires t < |s.tasks|
    ensures WindsDown(s, TaskStep(cfg, s, t, m))
  {
    hide TaskStep, Make, Countable;
    TaskStepFrame(cfg, s, t, m);
    TaskStepOwn(cfg, s, t, m);
    TaskStepQueueShape(cfg, s, t, m);
  }

  lemma HaltedOtherStep(cfg: Config, s: State, a: Action)
    requires !a.Run? && !a.SetFlags? && Halted(s.flags)
    ensures WindsDown(s, Step(cfg, s, a))
  {
    hide Meter.Step, SockPool.Step, SockPool.GetIdle, SockPool.Load, FirstMin, SetBitmap, Make, Countable, IsTop,
      Without, TaskStep;
  }

  lemma HaltedStep(cfg: Config, s: State, a: Action)
    requires !a.SetFlags? && Halted(s.flags)
    ensures WindsDown(s, Step(cfg, s, a))
  {
    hide WindsDown, TaskStep;
    if a.Run? {
      if a.t < |s.tasks| {
        HaltedTaskStep(cfg, s, a.t, a.m);
      } else {
        NothingWindsDown(s);
      }
    } else {
      HaltedOtherStep(cfg, s, a);
    }
  }

  lemma NothingWindsDown(s: State)
    ensures WindsDown(s, s)
  {
  }

  lemma WindsOn(s: State, u: State, v: State)
    requires WindsDown(s, u) && WindsDown(u, v)
    ensures WindsDown(s, v)
  {
  }

  /**
   * While a job is stopped, paused or removed, it starts at most one more task, and that only if it had passed the
   * tests of the flags before. From the head of its loop it pops no chunk, starts no task and loses none.
   */
  lemma {:induction false} HaltedJobStartsNothing(cfg: Config, s: State, acts: seq<Action>)
    requires Halted(s.flags) && FlagsStay(acts)
    ensures WindsDown(s, Exec(cfg, s, acts))
    ensures s.pc == Top ==> var u := Exec(cfg, s, acts);
                            s.queue <= u.queue && |u.tasks| == |s.tasks| && u.lost == s.lost
  {
    hide Step;
    if acts == [] {
      NothingWindsDown(s);
    } else {
      var n := |acts| - 1;
      HaltedJobStartsNothing(cfg, s, acts[..n]);
      HaltedStep(cfg, Exec(cfg, s, acts[..n]), acts[n]);
      WindsOn(s, Exec(cfg, s, acts[..n]), Exec(cfg, s, acts));
    }
  }

  /** And it waits there, unless it is removed. */
  lemma {:induction false} HaltedJobWaits(cfg: Config, s: State, acts: seq<Action>)
    requires s.pc == Top && !s.flags.removed && (s.flags.stopped || s.flags.paused) && FlagsStay(acts)
    ensures Exec(cfg, s, acts).pc == Top
  {
    hide Step;
    if acts != [] {
      var n := |acts| - 1;
      HaltedJobWaits(cfg, s, acts[..n]);
      HaltedJobStartsNothing(cfg, s, acts[..n]);
      WaitsAtTop(cfg, Exec(cfg, s, acts[..n]), acts[n]);
    }
  }

  lemma WaitsAtTop(cfg: Config, s: State, a: Action)
    requires s.pc == Top && !s.flags.removed && (s.flags.stopped || s.flags.paused) && !a.SetFlags?
    ensures Step(cfg, s, a).pc == Top
  {
    hide TaskStep, Meter.Step, SockPool.Step, SockPool.GetIdle;
    if a.Run? && a.t < |s.tasks| {
      TaskStepFrame(cfg, s, a.t, a.m);
    }
  }

  // ----- the tasks -----

  /** What a slot may still take off its socket without passing the gate again. */
  function Granted(slot: Meter.Slot): nat {
    match slot
    case Gated(left) => left
    case Reserved(_, ask) => ask
    case _ => 0
  }

  function Grants(slots: seq<Meter.Slot>): seq<nat> {
    seq(|slots|, i requires 0 <= i < |slots| => Granted(slots[i]))
  }

  /** Bytes received, and bytes that may still be. */
  function Reach(s: State): nat {
    s.meter.moved + Sum(Grants(s.meter.slots))
  }

  lemma MoveGrants(lim: Meter.Limits, used: nat, slot: Meter.Slot, m: Meter.Move)
    requires !m.Gate? && !m.Offer?
    ensures Meter.Taken(slot, m) + Granted(Meter.MoveSlot(lim, used, slot, m)) <= Granted(slot)
  {
    hide Meter.Quota;
  }

  lemma MeterStepReach(lim: Meter.Limits, s: Meter.State, a: Meter.Action)
    requires a.Task? ==> !a.m.Gate? && !a.m.Offer?
    ensures Meter.Step(lim, s, a).moved + Sum(Grants(Meter.Step(lim, s, a).slots)) <= s.moved + Sum(Grants(s.slots))
  {
    hide Meter.MoveSlot, Meter.Taken, Meter.Added, Sum;
    var u := Meter.Step(lim, s, a);
    if a.Task? && a.i < |s.slots| {
      MoveGrants(lim, s.used, s.slots[a.i], a.m);
      SumUpdate(Grants(s.slots), a.i, Granted(u.slots[a.i]));
      assert Grants(u.slots) == Grants(s.slots)[a.i := Granted(u.slots[a.i])];
    } else if u.slots != s.slots {
      SumAppend(Grants(s.slots), 0);
      assert Grants(u.slots) == Grants(s.slots) + [0];
    }
  }

  lemma HaltedTaskReach(cfg: Config, s: State, t: nat, m: TaskMove)
    requires t < |s.tasks| && Halted(s.flags)
    ensures Reach(TaskStep(cfg, s, t, m)) <= Reach(s)
  {
    hide Meter.Step, SockPool.Step, Overwrite, SetBit, Make, Countable, Mapped, OffsetOf, ChecksumOf, Sum, Grants;
    var move := match m
      case Throw => Meter.Action.Task(t, Meter.Drop)
      case Reserve => Meter.Action.Task(t, Meter.Reserve)
      case Receive(data) => Meter.Action.Task(t, Meter.Receive(|data|))
      case Count => Meter.Action.Task(t, Meter.Add)
      case _ => Meter.Action.Task(t, Meter.Quit);
    var u := TaskStep(cfg, s, t, m);
    MeterStepReach(cfg.lim, s.meter, move);
    assert u.meter == s.meter || u.meter == Meter.Step(cfg.lim, s.meter, move);
  }

  lemma HaltedReach(cfg: Config, s: State, a: Action)
    requires !a.SetFlags? && Halted(s.flags)
    ensures Reach(Step(cfg, s, a)) <= Reach(s)
  {
    hide TaskStep, Reach;
    if a.Run? {
      if a.t < |s.tasks| {
        HaltedTaskReach(cfg, s, a.t, a.m);
      }
    } else {
      OtherReach(cfg, s, a);
    }
  }

  lemma OtherReach(cfg: Config, s: State, a: Action)
    requires !a.Run?
    ensures Reach(Step(cfg, s, a)) <= Reach(s)
  {
    hide Step, Meter.Step, Meter.Active, Sum, Grants, ValidId;
    OtherStepMeter(cfg, s, a);
    match a {
      case Snapshot => MeterStepReach(cfg.lim, s.meter, Meter.Snapshot);
      case AddTotal => MeterStepReach(cfg.lim, s.meter, Meter.AddTotal);
      case Reset => MeterStepReach(cfg.lim, s.meter, Meter.Reset);
      case Start => if CanStart(cfg, s) {
        MeterStepReach(cfg.lim, s.meter, Meter.Begin(SizeOf(cfg, s.pc.c.id)));
      }
      case _ =>
    }
  }

  /** A task that finds the job stopped or removed, with bytes still missing, throws and does nothing else. */
  lemma StoppedTaskThrows(cfg: Config, s: State, t: nat, m: TaskMove)
    requires t < |s.tasks| == |s.meter.slots| && s.tasks[t].phase.Receiving? && Looping(s.meter.slots[t])
    requires s.flags.stopped || s.flags.removed
    ensures TaskStep(cfg, s, t, m) == if m.Throw? then s.(tasks := s.tasks[t := s.tasks[t].(phase := Threw)]) else s
  {
    hide Meter.Quota;
    assert s.meter.slots[t := s.meter.slots[t]] == s.meter.slots;
  }

  /** While the job is paused and nothing else, it waits instead. */
  lemma PausedTaskWaits(cfg: Config, s: State, t: nat, m: TaskMove)
    requires t < |s.tasks| == |s.meter.slots| && s.tasks[t].phase.Receiving? && Looping(s.meter.slots[t])
    requires s.flags.paused && !s.flags.stopped && !s.flags.removed
    ensures TaskStep(cfg, s, t, m) == s
  {
    hide Meter.Quota;
    assert s.meter.slots[t := s.meter.slots[t]] == s.meter.slots;
  }

  /**
   * After a job was stopped, paused or removed, its tasks receive at most what those that had passed the gate may ask
   * for: nothing at all if every task was at the head of its loop, or done.
   */
  lemma {:induction false} HaltedJobReceives(cfg: Config, s: State, acts: seq<Action>)
    requires Halted(s.flags) && FlagsStay(acts)
    ensures Exec(cfg, s, acts).meter.moved <= s.meter.moved + Sum(Grants(s.meter.slots))
    ensures Reach(Exec(cfg, s, acts)) <= Reach(s)
  {
    hide Step;
    if acts != [] {
      var n := |acts| - 1;
      HaltedJobReceives(cfg, s, acts[..n]);
      HaltedJobStartsNothing(cfg, s, acts[..n]);
      HaltedReach(cfg, Exec(cfg, s, acts[..n]), acts[n]);
    }
  }
}
