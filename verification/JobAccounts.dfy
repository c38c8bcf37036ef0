// The byte accounting of a job: what its tasks have received is in the total, in the counter of this second, about to
// be added to it, or was thrown away by a reset of the collector (client/src/client.cc:804-807).
module JobAccounts {
  import opened Bags
  import opened ChunkQueue
  import opened JobMachine
  import opened JobFrames
  import opened JobSafety
  import opened JobTheorems
  import Meter
  import SockPool

  // ----- the counters and the buffers -----

  function Lengths(tasks: seq<Task>): seq<nat> {
    seq(|tasks|, i requires 0 <= i < |tasks| => |tasks[i].buf|)
  }

  /** All bytes that the job's tasks have received so far. */
  function Received(s: State): nat {
    Sum(Lengths(s.tasks))
  }

  /** There is a slot for each task, and every byte moved is in a task's buffer. */
  ghost predicate InBuffers(cfg: Config, s: State) {
    MeterFits(cfg, s) && s.meter.moved == Received(s)
  }

  lemma LengthsUpdate(tasks: seq<Task>, t: nat, task: Task)
    requires t < |tasks|
    ensures Sum(Lengths(tasks[t := task])) == Sum(Lengths(tasks)) - |tasks[t].buf| + |task.buf|
  {
    SumUpdate(Lengths(tasks), t, |task.buf|);
    assert Lengths(tasks[t := task]) == Lengths(tasks)[t := |task.buf|];
  }

  /** A task's buffer grows by what its step takes off the socket. */
  lemma TaskStepReceives(cfg: Config, s: State, t: nat, m: TaskMove)
    requires t < |s.tasks| == |s.meter.slots|
    ensures var u := TaskStep(cfg, s, t, m);
            && |u.tasks| == |s.tasks|
            && u.meter.moved - s.meter.moved == |u.tasks[t].buf| - |s.tasks[t].buf|
  {
    hide SockPool.Step, Overwrite, SetBit, Make, Countable, Mapped, ValidId, OffsetOf, ChecksumOf, SizeOf, Meter.Quota;
  }

  lemma TaskStepInBuffers(cfg: Config, s: State, t: nat, m: TaskMove)
    requires t < |s.tasks| && InBuffers(cfg, s)
    ensures InBuffers(cfg, TaskStep(cfg, s, t, m))
  {
    hide TaskStep, TaskFit, Sum, Lengths;
    var u := TaskStep(cfg, s, t, m);
    TaskStepKeepsFit(cfg, s, t, m);
    TaskStepOwn(cfg, s, t, m);
    TaskStepReceives(cfg, s, t, m);
    LengthsUpdate(s.tasks, t, u.tasks[t]);
  }

  lemma OtherStepInBuffers(cfg: Config, s: State, a: Action)
    requires !a.Run? && InBuffers(cfg, s)
    ensures InBuffers(cfg, Step(cfg, s, a))
  {
    hide Step, TaskFit, Sum, Meter.Active;
    var u := Step(cfg, s, a);
    OtherStepKeepsFit(cfg, s, a);
    OtherStepTasks(cfg, s, a);
    OtherStepMeter(cfg, s, a);
    if u.tasks != s.tasks {
      SumAppend(Lengths(s.tasks), 0);
      assert Lengths(u.tasks) == Lengths(s.tasks) + [0];
    }
  }

  lemma {:induction false} RunsInBuffers(cfg: Config, s0: State, acts: seq<Action>)
    requires s0.tasks == [] && Meter.Quiet(s0.meter)
    ensures InBuffers(cfg, Exec(cfg, s0, acts))
  {
    hide Step, InBuffers;
    if acts == [] {
      NothingReceived(cfg, s0);
    } else {
      var n := |acts| - 1;
      var s := Exec(cfg, s0, acts[..n]);
      RunsInBuffers(cfg, s0, acts[..n]);
      StepInBuffers(cfg, s, acts[n]);
    }
  }

  lemma NothingReceived(cfg: Config, s0: State)
    requires s0.tasks == [] && Meter.Quiet(s0.meter)
    ensures InBuffers(cfg, s0)
  {
  }

  lemma StepInBuffers(cfg: Config, s: State, a: Action)
    requires InBuffers(cfg, s)
    ensures InBuffers(cfg, Step(cfg, s, a))
  {
    hide TaskStep, InBuffers;
    if a.Run? {
      if a.t < |s.tasks| {
        TaskStepInBuffers(cfg, s, a.t, a.m);
      }
    } else {
      OtherStepInBuffers(cfg, s, a);
    }
  }

  // ----- the books of a job -----

  /** Every byte that a task has received is in the total, in the counter, about to be added, or was dropped. */
  lemma JobBooks(cfg: Config, s0: State, acts: seq<Action>)
    requires Begins(cfg, s0)
    ensures var s := Exec(cfg, s0, acts);
            && s.meter.dropped >= 0
            && s.meter.total + s.meter.used - Meter.Overlap(s.meter.phase) + Sum(Meter.Pendings(s.meter.slots))
               + s.meter.dropped == Received(s)
  {
    hide Exec, Meter.Exec, SizesFit, Received;
    RunsInBuffers(cfg, s0, acts);
    var moves := MeterOfRun(cfg, s0, acts);
    Meter.RunsKeepAccount(cfg.lim, moves);
  }

  /** So a job's total never counts more than its tasks have received. */
  lemma JobTotalsNeverOvercount(cfg: Config, s0: State, acts: seq<Action>)
    requires Begins(cfg, s0)
    ensures var s := Exec(cfg, s0, acts);
            s.meter.total + s.meter.used - Meter.Overlap(s.meter.phase) <= Received(s)
  {
    hide Exec, Begins, Received, Meter.Pendings;
    JobBooks(cfg, s0, acts);
  }

  /** A task counts what it has received while the collector holds a value that it has read. */
  predicate LateCount(s: State, a: Action) {
    && !s.meter.phase.Sleeping? && a.Run? && a.m.Count?
    && a.t < |s.tasks| && s.tasks[a.t].phase.Receiving? && SlotOf(s, a.t).Got?
  }

  /** No task counts between the collector's reading and its reset. */
  ghost predicate TimelyJob(cfg: Config, s0: State, acts: seq<Action>) {
    forall k: nat :: k < |acts| ==> !LateCount(Exec(cfg, s0, acts[..k]), acts[k])
  }

  lemma TimelyJobStep(cfg: Config, s: State, a: Action)
    requires SizesFit(cfg) && Meter.NothingDropped(s.meter) && !LateCount(s, a)
    ensures Meter.NothingDropped(Step(cfg, s, a).meter)
  {
    hide Step, Meter.Step, Meter.NothingDropped, SizesFit, Meter.Metered;
    var moves := StepMeter(cfg, s, a);
    if moves != [] {
      Meter.TimelyStep(cfg.lim, s.meter, moves[0]);
    }
  }

  lemma {:induction false} TimelyJobDropsNothing(cfg: Config, s0: State, acts: seq<Action>)
    requires SizesFit(cfg) && Meter.Quiet(s0.meter) && TimelyJob(cfg, s0, acts)
    ensures Meter.NothingDropped(Exec(cfg, s0, acts).meter)
  {
    hide Step, LateCount, SizesFit;
    if acts != [] {
      var n := |acts| - 1;
      assert TimelyJob(cfg, s0, acts[..n]) by {
        forall k: nat | k < n ensures !LateCount(Exec(cfg, s0, acts[..n][..k]), acts[..n][k]) {
          assert acts[..n][..k] == acts[..k];
        }
      }
      TimelyJobDropsNothing(cfg, s0, acts[..n]);
      assert !LateCount(Exec(cfg, s0, acts[..n]), acts[n]);
      TimelyJobStep(cfg, Exec(cfg, s0, acts[..n]), acts[n]);
    }
  }

  /** On such a run of a job nothing is dropped: what the tasks have received is all accounted for. */
  lemma JobTimelyBalances(cfg: Config, s0: State, acts: seq<Action>)
    requires Begins(cfg, s0) && TimelyJob(cfg, s0, acts)
    ensures var s := Exec(cfg, s0, acts);
            s.meter.total + s.meter.used - Meter.Overlap(s.meter.phase) + Sum(Meter.Pendings(s.meter.slots))
            == Received(s)
  {
    hide Exec, SizesFit, TimelyJob, Received, Meter.Pendings;
    TimelyJobDropsNothing(cfg, s0, acts);
    JobBooks(cfg, s0, acts);
  }

  // ----- at the end of a job -----

  lemma {:induction false} NothingPending(slots: seq<Meter.Slot>)
    requires forall i :: 0 <= i < |slots| ==> !slots[i].Got?
    ensures Sum(Meter.Pendings(slots)) == 0
  {
    if slots != [] {
      var n := |slots| - 1;
      NothingPending(slots[..n]);
      assert Meter.Pendings(slots)[..n] == Meter.Pendings(slots[..n]);
    }
  }

  /** Once all tasks are over, a joined job has lost from its total exactly what resets dropped. */
  lemma JoinedBooks(cfg: Config, s0: State, acts: seq<Action>)
    requires Begins(cfg, s0) && AllOver(Exec(cfg, s0, acts).tasks)
    ensures var s := Exec(cfg, s0, acts);
            && s.meter.total + s.meter.used - Meter.Overlap(s.meter.phase) + s.meter.dropped == Received(s)
            && (TimelyJob(cfg, s0, acts) ==> s.meter.dropped == 0)
  {
    hide Exec, Received, TimelyJob, Meter.Overlap, SizesFit;
    var s := Exec(cfg, s0, acts);
    JobBooks(cfg, s0, acts);
    RunsInBuffers(cfg, s0, acts);
    forall i | 0 <= i < |s.meter.slots| ensures !s.meter.slots[i].Got? {
      assert TaskFit(cfg, s.tasks[i], s.meter.slots[i]);
    }
    NothingPending(s.meter.slots);
    if TimelyJob(cfg, s0, acts) {
      TimelyJobDropsNothing(cfg, s0, acts);
    }
  }
}
