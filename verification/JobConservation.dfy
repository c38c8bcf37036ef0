// Chunks are never duplicated and never forgotten: on every run of JobMachine each missing chunk is
// in exactly one place, and each task is reported exactly once.
module JobConservation {
  import opened Bags
  import opened ChunkQueue
  import opened JobMachine
  import opened JobFrames
  import Meter
  import SockPool

  // ----- where a chunk can be -----

  /** The task still owes a report. */
  predicate Unreported(p: Phase) {
    p.Exchanging? || p.Receiving? || p.Writing? || p.Returned? || p.Threw?
  }

  function Owes(t: Task, id: ChunkId): nat {
    if Unreported(t.phase) && t.id == id then 1 else 0
  }

  function Owing(tasks: seq<Task>, id: ChunkId): seq<nat> {
    seq(|tasks|, i requires 0 <= i < |tasks| => Owes(tasks[i], id))
  }

  function Holds(pc: Pc, id: ChunkId): nat {
    if HasChunk(pc) && pc.c.id == id then 1 else 0
  }

  function LostOnes(lost: seq<Lost>, id: ChunkId): seq<nat> {
    seq(|lost|, i requires 0 <= i < |lost| => if lost[i].id == id then 1 else 0)
  }

  ghost function Queued(q: seq<ChunkInfo>, id: ChunkId): nat {
    multiset(Ids(q))[id]
  }

  /** In how many places a chunk is: the queue, the scheduler's hand, unreported tasks, failed starts. */
  ghost function Places(s: State, id: ChunkId): nat {
    Queued(s.queue, id) + Holds(s.pc, id) + Sum(Owing(s.tasks, id)) + Sum(LostOnes(s.lost, id))
  }

  ghost predicate BitsShape(cfg: Config, store: Store) {
    forall f :: f in cfg.files ==> f in store.bits && |store.bits[f]| == |cfg.files[f]|
  }

  predicate Unset(cfg: Config, store: Store, id: ChunkId) {
    ValidId(cfg, id) && !IsSet(store, id)
  }

  /** A chunk whose bit is not set is in one place; any other chunk is in none. */
  ghost predicate Conserved(cfg: Config, s: State) {
    forall id :: Places(s, id) == if Unset(cfg, s.store, id) then 1 else 0
  }

  // ----- reports -----

  /** The reported flag and the report counts follow the phase. */
  predicate ReportedOnce(t: Task) {
    && (t.reported <==> t.phase.Notified? || t.phase.Settled? || t.phase.Over?)
    && (Unreported(t.phase) ==> t.successes == 0 && t.failures == 0)
    && (t.phase.Requeued? || t.phase.Notified? ==> t.successes == 0 && t.failures == 1)
    && (t.phase.Settled? || t.phase.Over? ==> t.successes + t.failures == 1)
  }

  ghost predicate AllReportedOnce(tasks: seq<Task>) {
    forall i :: 0 <= i < |tasks| ==> ReportedOnce(tasks[i])
  }

  // ----- task steps -----

  lemma OwingUpdate(tasks: seq<Task>, t: nat, task: Task, id: ChunkId)
    requires t < |tasks|
    ensures Owes(tasks[t], id) <= Sum(Owing(tasks, id))
    ensures Sum(Owing(tasks[t := task], id)) == Sum(Owing(tasks, id)) - Owes(tasks[t], id) + Owes(task, id)
  {
    SumUpdate(Owing(tasks, id), t, Owes(task, id));
    assert Owing(tasks[t := task], id) == Owing(tasks, id)[t := Owes(task, id)];
  }

  /** The step puts the chunk of its failed task back into the queue. */
  predicate Requeues(s: State, t: nat, m: TaskMove)
    requires t < |s.tasks|
  {
    m.Requeue? && s.tasks[t].phase.Threw? && Countable(s.store.owners, s.tasks[t].id)
  }

  /** A task stops owing its chunk exactly when it credits or requeues it. */
  lemma TaskStepReports(cfg: Config, s: State, t: nat, m: TaskMove)
    requires t < |s.tasks| && ReportedOnce(s.tasks[t])
    ensures var u := TaskStep(cfg, s, t, m);
            && ReportedOnce(u.tasks[t])
            && (Credits(s, t, m) || Requeues(s, t, m) ==> Unreported(s.tasks[t].phase) && !Unreported(u.tasks[t].phase))
            && (!Credits(s, t, m) && !Requeues(s, t, m) ==>
                  (Unreported(u.tasks[t].phase) <==> Unreported(s.tasks[t].phase)))
  {
    hide Meter.Step, SockPool.Step, Overwrite, SetBit, Make, Countable;
  }

  lemma TaskStepQueue(cfg: Config, s: State, t: nat, m: TaskMove, id: ChunkId)
    requires t < |s.tasks|
    ensures Queued(TaskStep(cfg, s, t, m).queue, id) ==
            Queued(s.queue, id) + if Requeues(s, t, m) && id == s.tasks[t].id then 1 else 0
  {
    hide Queued, Make, Countable, Meter.Step, SockPool.Step, Overwrite, SetBit;
    if Requeues(s, t, m) {
      QueuedPush(s.queue, Make(s.store.owners, Failed, s.tasks[t].id), id);
      MadeFor(s.store.owners, Failed, s.tasks[t].id);
    } else {
      TaskStepFrame(cfg, s, t, m);
    }
  }

  lemma MadeFor(owners: Owners, status: Status, id: ChunkId)
    requires Countable(owners, id)
    ensures Make(owners, status, id).id == id
  {
  }

  /** A task step takes a chunk out of its place only by setting its bit. */
  lemma TaskStepPlaces(cfg: Config, s: State, t: nat, m: TaskMove, id: ChunkId)
    requires t < |s.tasks| && ReportedOnce(s.tasks[t])
    ensures Places(TaskStep(cfg, s, t, m), id) ==
            Places(s, id) - if Credits(s, t, m) && id == s.tasks[t].id then 1 else 0
  {
    hide TaskStep, Owing, Queued, Holds, LostOnes, Unreported, Countable, Sum;
    var u := TaskStep(cfg, s, t, m);
    TaskStepFrame(cfg, s, t, m);
    TaskStepOwn(cfg, s, t, m);
    TaskStepReports(cfg, s, t, m);
    TaskStepQueue(cfg, s, t, m, id);
    OwingUpdate(s.tasks, t, u.tasks[t], id);
  }

  lemma TaskStepConserves(cfg: Config, s: State, t: nat, m: TaskMove)
    requires t < |s.tasks| && AllReportedOnce(s.tasks)
    requires BitsShape(cfg, s.store) && Conserved(cfg, s)
    ensures var u := TaskStep(cfg, s, t, m);
            BitsShape(cfg, u.store) && Conserved(cfg, u) && AllReportedOnce(u.tasks)
  {
    hide TaskStep, Places, Credits, Requeues;
    var u := TaskStep(cfg, s, t, m);
    assert ReportedOnce(s.tasks[t]);
    var id := s.tasks[t].id;
    TaskStepBits(cfg, s, t, m);
    TaskStepOwn(cfg, s, t, m);
    TaskStepReports(cfg, s, t, m);
    forall x ensures Places(u, x) == Places(s, x) - if Credits(s, t, m) && x == id then 1 else 0 {
      TaskStepPlaces(cfg, s, t, m, x);
    }
    if Credits(s, t, m) {
      assert Places(u, id) >= 0;
      assert Places(s, id) >= 1;
      SetBitSets(cfg, s.store, u.store, id);
    } else {
      UnsetByBits(cfg, s.store, u.store);
    }
  }

  lemma UnsetByBits(cfg: Config, before: Store, after: Store)
    requires after.bits == before.bits
    ensures BitsShape(cfg, before) <==> BitsShape(cfg, after)
    ensures forall x :: Unset(cfg, after, x) <==> Unset(cfg, before, x)
  {
  }

  /** Setting one bit changes that chunk's state and no other. */
  lemma SetBitSets(cfg: Config, before: Store, after: Store, id: ChunkId)
    requires BitsShape(cfg, before) && Unset(cfg, before, id) && after.bits == SetBit(before.bits, id)
    ensures BitsShape(cfg, after) && IsSet(after, id)
    ensures forall x :: Unset(cfg, after, x) <==> Unset(cfg, before, x) && x != id
  {
    assert id.file in cfg.files;
  }

  // ----- the other steps -----

  lemma PopPlaces(s: State, i: nat, id: ChunkId)
    requires s.pc.Cleared? && i < |s.queue| && IsTop(s.queue, i)
    ensures Places(PopStep(s, i), id) == Places(s, id)
  {
    hide IsTop, Owing, LostOnes, Without, Ids, Sum, Rank;
    QueuedWithout(s.queue, i, id);
  }

  lemma QueuedWithout(q: seq<ChunkInfo>, i: nat, id: ChunkId)
    requires i < |q|
    ensures Queued(Without(q, i), id) == Queued(q, id) - if q[i].id == id then 1 else 0
  {
    IdsWithout(q, i);
  }

  lemma QueuedPush(q: seq<ChunkInfo>, c: ChunkInfo, id: ChunkId)
    ensures Queued(q + [c], id) == Queued(q, id) + if c.id == id then 1 else 0
  {
    IdsPush(q, c);
  }

  lemma GaugePlaces(s: State, id: ChunkId)
    ensures Places(GaugeStep(s), id) == Places(s, id)
  {
    hide FirstMin, SockPool.Load, Owing, LostOnes, Ids, Sum, Holders, Rank;
    if s.pc.Gauging? && s.pc.c.clients == [] && Countable(s.store.owners, s.pc.c.id) {
      QueuedPush(s.queue, Make(s.store.owners, NoOwner, s.pc.c.id), id);
    }
  }

  lemma OwingAppend(tasks: seq<Task>, task: Task, id: ChunkId)
    ensures Sum(Owing(tasks + [task], id)) == Sum(Owing(tasks, id)) + Owes(task, id)
  {
    SumAppend(Owing(tasks, id), Owes(task, id));
    assert Owing(tasks + [task], id) == Owing(tasks, id) + [Owes(task, id)];
  }

  lemma StartPlaces(cfg: Config, s: State, id: ChunkId)
    requires CanStart(cfg, s)
    ensures Places(StartStep(cfg, s), id) == Places(s, id)
  {
    hide Meter.Step, Meter.Active, LostOnes, Ids, Sum, Owing, Queued, ValidId, SizeOf;
    OwingAppend(s.tasks, NewTask(s.pc), id);
  }

  lemma StartThrowsPlaces(s: State, id: ChunkId)
    ensures Places(StartThrowsStep(s), id) == Places(s, id)
  {
    hide Owing, Ids;
    if s.pc.Ready? {
      var l := Lost(s.pc.c.id, s.pc.peer, s.pc.sock);
      SumAppend(LostOnes(s.lost, id), if l.id == id then 1 else 0);
      assert LostOnes(s.lost + [l], id) == LostOnes(s.lost, id) + [if l.id == id then 1 else 0];
    }
  }

  lemma OtherStepPlaces(cfg: Config, s: State, a: Action, id: ChunkId)
    requires !a.Run?
    ensures Places(Step(cfg, s, a), id) == Places(s, id)
  {
    hide TaskStep, Queued, Owing, LostOnes, Sum, FirstMin, Countable, SockPool.Step, SockPool.GetIdle,
      Meter.Step;
    if a.Pop? {
      if s.pc.Cleared? && a.i < |s.queue| && IsTop(s.queue, a.i) {
        PopPlaces(s, a.i, id);
      }
    } else if a.Gauge? {
      GaugePlaces(s, id);
    } else if a.Start? {
      if CanStart(cfg, s) {
        StartPlaces(cfg, s, id);
      }
    } else if a.StartThrows? {
      StartThrowsPlaces(s, id);
    } else {
      OtherStepTasks(cfg, s, a);
      OtherStepQueue(cfg, s, a);
      OtherStepHand(cfg, s, a);
    }
  }

  lemma OtherStepConserves(cfg: Config, s: State, a: Action)
    requires !a.Run? && AllReportedOnce(s.tasks) && BitsShape(cfg, s.store) && Conserved(cfg, s)
    ensures var u := Step(cfg, s, a);
            BitsShape(cfg, u.store) && Conserved(cfg, u) && AllReportedOnce(u.tasks)
  {
    hide Step, Places;
    var u := Step(cfg, s, a);
    OtherStepStore(cfg, s, a);
    OtherStepTasks(cfg, s, a);
    forall x ensures Places(u, x) == Places(s, x) {
      OtherStepPlaces(cfg, s, a, x);
    }
    UnsetByBits(cfg, s.store, u.store);
  }

  /** The three facts together, kept by every step. */
  ghost predicate Accounted(cfg: Config, s: State) {
    AllReportedOnce(s.tasks) && BitsShape(cfg, s.store) && Conserved(cfg, s)
  }

  lemma {:induction false} StepConserves(cfg: Config, s: State, a: Action)
    requires Accounted(cfg, s)
    ensures Accounted(cfg, Step(cfg, s, a))
  {
    hide TaskStep, Places, Conserved, BitsShape, AllReportedOnce;
    if a.Run? {
      if a.t < |s.tasks| {
        TaskStepConserves(cfg, s, a.t, a.m);
      }
    } else {
      OtherStepConserves(cfg, s, a);
    }
  }

  // ----- what conservation says of one chunk -----

  /** A task that owes a report is the only one on its chunk, whose bit is not set. */
  lemma OneTaskPerChunk(cfg: Config, s: State, i: nat)
    requires Conserved(cfg, s) && i < |s.tasks| && Unreported(s.tasks[i].phase)
    ensures Unset(cfg, s.store, s.tasks[i].id)
    ensures forall j :: 0 <= j < |s.tasks| && j != i && Unreported(s.tasks[j].phase) ==> s.tasks[j].id != s.tasks[i].id
  {
    var id := s.tasks[i].id;
    OwingUpdate(s.tasks, i, s.tasks[i], id);
    assert Places(s, id) >= 1;
    forall j | 0 <= j < |s.tasks| && j != i && Unreported(s.tasks[j].phase) ensures s.tasks[j].id != id {
      if s.tasks[j].id == id {
        SumPair(Owing(s.tasks, id), if i < j then i else j, if i < j then j else i);
        assert false;
      }
    }
  }
}
