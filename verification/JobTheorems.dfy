// What holds on every run of a job: safety of the bitmap, conservation of chunks, one report per task,
// exclusive sockets, the quota bound, the order of the queue, and what a finished job has achieved.
module JobTheorems {
  import opened Prelude
  import opened Bags
  import opened ChunkQueue
  import opened JobMachine
  import opened JobFrames
  import opened JobConservation
  import opened JobSockets
  import opened JobSafety
  import Meter
  import SockPool

  // ----- the start of a job -----

  /**
   * The job is about to enter its loop: the queue was filled from the bitmaps, whose set bits (none, or
   * those of a reloaded job) are true of the files on disk; the pool may be in use by others.
   */
  ghost predicate Begins(cfg: Config, s: State) {
    && s.pc == Top && s.tasks == [] && s.lost == [] && Meter.Quiet(s.meter)
    && Initial(s.queue, cfg.files.Keys, s.store.bits, s.store.owners)
    && SizesFit(cfg) && BitsShape(cfg, s.store) && BitsVerified(cfg, s.store)
    && SockPool.Inv(s.socks.net) && s.socks.outside == s.socks.net.held.Keys
  }

  /** With clear bitmaps there is nothing to verify beforehand. */
  lemma ClearBitsAreTrue(cfg: Config, store: Store)
    requires forall f, i :: f in store.bits && 0 <= i < |store.bits[f]| ==> !store.bits[f][i]
    ensures BitsVerified(cfg, store)
  {
  }

  lemma BeginsConserved(cfg: Config, s: State)
    requires Begins(cfg, s)
    ensures Accounted(cfg, s)
  {
    forall id ensures Places(s, id) == if Unset(cfg, s.store, id) then 1 else 0 {
      assert Missing(cfg.files.Keys, s.store.bits, id) <==> Unset(cfg, s.store, id) by {
        assert ValidId(cfg, id) ==> id.file in cfg.files;
      }
    }
  }

  lemma BeginsSocksOk(cfg: Config, s: State)
    requires Begins(cfg, s)
    ensures SocksOk(s)
  {
    hide SockPool.Inv, Initial, BitsShape, BitsVerified;
  }

  // ----- order of the queue, and the end of the loop -----

  /** After the loop ended on an empty queue, only failed chunks can come back. */
  ghost predicate EndOk(s: State) {
    && WellRanked(s.queue)
    && (s.pc.Drained? || s.pc == Joined(true) ==> forall i :: 0 <= i < |s.queue| ==> s.queue[i].status == Failed)
    && (s.pc.Joined? ==> AllOver(s.tasks))
  }

  lemma WithoutKeeps(q: seq<ChunkInfo>, i: nat)
    requires i < |q| && WellRanked(q)
    ensures WellRanked(Without(q, i))
  {
  }

  lemma PushKeepsRank(q: seq<ChunkInfo>, owners: Owners, status: Status, id: ChunkId)
    requires WellRanked(q) && Countable(owners, id)
    ensures WellRanked(q + [Make(owners, status, id)])
  {
  }

  lemma TaskStepQueueShape(cfg: Config, s: State, t: nat, m: TaskMove)
    requires t < |s.tasks|
    ensures TaskStep(cfg, s, t, m).queue ==
            if Requeues(s, t, m) then s.queue + [Make(s.store.owners, Failed, s.tasks[t].id)] else s.queue
    ensures s.tasks[t].phase.Over? ==> TaskStep(cfg, s, t, m).tasks[t].phase.Over?
  {
    hide Meter.Step, SockPool.Step, Overwrite, SetBit, Make, Countable;
  }

  lemma TaskStepKeepsEnd(cfg: Config, s: State, t: nat, m: TaskMove)
    requires t < |s.tasks| && EndOk(s)
    ensures EndOk(TaskStep(cfg, s, t, m))
  {
    hide TaskStep, WellRanked, Countable, Rank;
    TaskStepFrame(cfg, s, t, m);
    TaskStepOwn(cfg, s, t, m);
    TaskStepQueueShape(cfg, s, t, m);
    if Requeues(s, t, m) {
      PushKeepsRank(s.queue, s.store.owners, Failed, s.tasks[t].id);
    }
  }

  lemma PopKeepsEnd(s: State, i: nat)
    requires EndOk(s)
    ensures EndOk(PopStep(s, i))
  {
    hide WellRanked, AllOver, Without;
    if i < |s.queue| {
      WithoutKeeps(s.queue, i);
    }
  }

  lemma GaugeKeepsEnd(s: State)
    requires EndOk(s)
    ensures EndOk(GaugeStep(s))
  {
    hide WellRanked, AllOver, FirstMin, SockPool.Load, Make, Countable;
    if s.pc.Gauging? && Countable(s.store.owners, s.pc.c.id) {
      PushKeepsRank(s.queue, s.store.owners, NoOwner, s.pc.c.id);
    }
  }

  /** The loop is left, and the threads are joined, only by the steps that do so. */
  lemma OtherStepEnd(cfg: Config, s: State, a: Action)
    requires !a.Run? && !a.Pop?
    ensures var u := Step(cfg, s, a);
            && (u.pc.Drained? ==> s.pc.Drained?)
            && (u.pc.Joined? ==> u.pc == s.pc || (AllOver(s.tasks) && (u.pc.drained ==> s.pc.Drained?)))
            && (s.pc.Joined? ==> u.pc == s.pc)
  {
    hide Meter.Step, SockPool.Step, SockPool.GetIdle, SockPool.Load, FirstMin, SetBitmap, Make, Countable, IsTop,
      TaskStep, AllOver;
  }

  lemma StartNeedsReady(cfg: Config, s: State, a: Action)
    requires !a.Run?
    ensures s.pc.Joined? || s.pc.Drained? || s.pc.Removed? ==> Step(cfg, s, a).tasks == s.tasks
  {
    hide Step;
    OtherStepTasks(cfg, s, a);
  }

  lemma OtherStepKeepsEnd(cfg: Config, s: State, a: Action)
    requires !a.Run? && EndOk(s)
    ensures EndOk(Step(cfg, s, a))
  {
    if a.Pop? {
      PopKeepsEnd(s, a.i);
    } else if a.Gauge? {
      GaugeKeepsEnd(s);
    } else {
      StillStepKeepsEnd(cfg, s, a);
    }
  }

  lemma StillStepKeepsEnd(cfg: Config, s: State, a: Action)
    requires !a.Run? && !a.Pop? && !a.Gauge? && EndOk(s)
    ensures EndOk(Step(cfg, s, a))
  {
    hide Step, WellRanked, AllOver;
    OtherStepEnd(cfg, s, a);
    OtherStepQueue(cfg, s, a);
    OtherStepTasks(cfg, s, a);
    StartNeedsReady(cfg, s, a);
    JoinedKeepsTasks(cfg, s, a);
  }

  lemma JoinedKeepsTasks(cfg: Config, s: State, a: Action)
    requires !a.Run?
    ensures Step(cfg, s, a).pc.Joined? ==> Step(cfg, s, a).tasks == s.tasks
  {
    hide Meter.Step, SockPool.Step, SockPool.GetIdle, SockPool.Load, FirstMin, SetBitmap, Make, Countable, IsTop,
      TaskStep, AllOver;
  }

  // ----- all runs -----

  /** The whole invariant of a job. */
  ghost predicate Good(cfg: Config, s: State) {
    Sound(cfg, s) && SocksOk(s) && EndOk(s)
  }

  lemma BeginsGood(cfg: Config, s: State)
    requires Begins(cfg, s)
    ensures Good(cfg, s)
  {
    hide SockPool.Inv, Accounted, SocksOk;
    BeginsConserved(cfg, s);
    BeginsSocksOk(cfg, s);
    InitialIsRanked(s.queue, cfg.files.Keys, s.store.bits, s.store.owners);
  }

  lemma StepKeepsGood(cfg: Config, s: State, a: Action)
    requires GoodLayout(cfg) && Good(cfg, s)
    ensures Good(cfg, Step(cfg, s, a))
  {
    hide Sound, SocksOk, EndOk, GoodLayout, TaskStep;
    StepKeepsSound(cfg, s, a);
    StepKeepsSocks(cfg, s, a);
    if a.Run? {
      if a.t < |s.tasks| {
        TaskStepKeepsEnd(cfg, s, a.t, a.m);
      }
    } else {
      OtherStepKeepsEnd(cfg, s, a);
    }
  }

  lemma {:induction false} RunsAreGood(cfg: Config, s0: State, acts: seq<Action>)
    requires GoodLayout(cfg) && Begins(cfg, s0)
    ensures Good(cfg, Exec(cfg, s0, acts))
  {
    hide Good, Begins, GoodLayout, Step;
    if acts == [] {
      BeginsGood(cfg, s0);
    } else {
      RunsAreGood(cfg, s0, acts[..|acts| - 1]);
      StepKeepsGood(cfg, Exec(cfg, s0, acts[..|acts| - 1]), acts[|acts| - 1]);
    }
  }

  lemma {:induction false} RunsKeepSocks(cfg: Config, s: State, acts: seq<Action>)
    requires SocksOk(s)
    ensures SocksOk(Exec(cfg, s, acts))
  {
    hide Step, SocksOk;
    if acts != [] {
      RunsKeepSocks(cfg, s, acts[..|acts| - 1]);
      StepKeepsSocks(cfg, Exec(cfg, s, acts[..|acts| - 1]), acts[|acts| - 1]);
    }
  }

  /** Some run leads from one state to the other. */
  ghost predicate Goes(cfg: Config, s: State, u: State) {
    exists acts :: u == Exec(cfg, s, acts)
  }

  lemma GoesNowhere(cfg: Config, s: State)
    ensures Goes(cfg, s, s)
  {
    assert Exec(cfg, s, []) == s;
  }

  lemma Then(cfg: Config, start: State, s: State, a: Action)
    requires Goes(cfg, start, s)
    ensures Goes(cfg, start, Step(cfg, s, a))
  {
    hide Step;
    var acts :| s == Exec(cfg, start, acts);
    assert (acts + [a])[..|acts|] == acts;
    assert Exec(cfg, start, acts + [a]) == Step(cfg, s, a);
  }

  lemma GoesOn(cfg: Config, s: State, u: State, v: State)
    requires Goes(cfg, s, u) && Goes(cfg, u, v)
    ensures Goes(cfg, s, v)
  {
    hide Exec;
    var first :| u == Exec(cfg, s, first);
    var rest :| v == Exec(cfg, u, rest);
    ExecAppend(cfg, s, first, rest);
  }

  lemma {:induction false} ExecAppend(cfg: Config, s: State, first: seq<Action>, rest: seq<Action>)
    ensures Exec(cfg, s, first + rest) == Exec(cfg, Exec(cfg, s, first), rest)
  {
    hide Step;
    if rest == [] {
      assert first + rest == first;
    } else {
      var n := |rest| - 1;
      ExecAppend(cfg, s, first, rest[..n]);
      assert (first + rest)[..|first + rest| - 1] == first + rest[..n];
    }
  }

  /** A state that some run of the job reaches. */
  ghost predicate Reachable(cfg: Config, s: State) {
    exists s0, acts :: Begins(cfg, s0) && s == Exec(cfg, s0, acts)
  }

  lemma ReachableIsGood(cfg: Config, s: State)
    requires GoodLayout(cfg) && Reachable(cfg, s)
    ensures Good(cfg, s)
  {
    hide Begins, GoodLayout, Good, Exec;
    var s0, acts :| Begins(cfg, s0) && s == Exec(cfg, s0, acts);
    RunsAreGood(cfg, s0, acts);
  }

  // ----- credits -----

  /**
   * Task `t` was credited with the chunk: what it received has the chunk's size and checksum, was written through the
   * mapping of a file with bytes, and is on disk as far as the file goes.
   */
  ghost predicate Brought(cfg: Config, s: State, t: nat, id: ChunkId) {
    && t < |s.tasks| && s.tasks[t].id == id && s.tasks[t].successes == 1
    && Genuine(cfg, id, s.tasks[t].buf)
    && Mapped(cfg, s.store, id, SizeOf(cfg, id))
    && Stored(s.store, id.file, OffsetOf(cfg, id), s.tasks[t].buf)
  }

  /** Task `t` has been reported as a success for the chunk. */
  predicate Credited(s: State, t: nat, id: ChunkId) {
    t < |s.tasks| && s.tasks[t].id == id && s.tasks[t].successes > 0
  }

  /** A bit is set together with the credit of a task, and the credit stays. */
  lemma StepCredits(cfg: Config, s: State, a: Action, id: ChunkId)
    ensures IsSet(Step(cfg, s, a).store, id) && !IsSet(s.store, id) ==> a.Run? && Credited(Step(cfg, s, a), a.t, id)
    ensures forall t: nat :: Credited(s, t, id) ==> Credited(Step(cfg, s, a), t, id)
  {
    hide TaskStep, Step;
    if a.Run? {
      RunCredits(cfg, s, a.t, a.m, id);
    } else {
      OtherStepStore(cfg, s, a);
      OtherStepTasks(cfg, s, a);
    }
  }

  lemma RunCredits(cfg: Config, s: State, i: nat, m: TaskMove, id: ChunkId)
    ensures var u := Step(cfg, s, Run(i, m));
            && (IsSet(u.store, id) && !IsSet(s.store, id) ==> Credited(u, i, id))
            && (forall t: nat :: Credited(s, t, id) ==> Credited(u, t, id))
  {
    hide TaskStep;
    if i < |s.tasks| {
      TaskStepOwn(cfg, s, i, m);
      TaskStepBits(cfg, s, i, m);
      TaskStepSuccess(cfg, s, i, m);
    }
  }

  /** A bit that was clear at the start was set for some task. */
  lemma {:induction false} RunCredited(cfg: Config, s0: State, acts: seq<Action>, id: ChunkId) returns (t: nat)
    requires !IsSet(s0.store, id) && IsSet(Exec(cfg, s0, acts).store, id)
    ensures Credited(Exec(cfg, s0, acts), t, id)
  {
    hide Step, IsSet, Credited;
    assert acts != [];
    var n := |acts| - 1;
    var s := Exec(cfg, s0, acts[..n]);
    StepCredits(cfg, s, acts[n], id);
    if IsSet(s.store, id) {
      t := RunCredited(cfg, s0, acts[..n], id);
    } else {
      t := acts[n].t;
    }
  }

  /** No two tasks are credited with one chunk. */
  ghost predicate CreditedOnce(s: State, id: ChunkId) {
    forall t: nat, r: nat :: Credited(s, t, id) && Credited(s, r, id) ==> t == r
  }

  /** Only a clear chunk is credited. */
  lemma CreditIsNew(cfg: Config, s: State, a: Action, t: nat, id: ChunkId)
    requires Credited(Step(cfg, s, a), t, id) && !Credited(s, t, id) && Good(cfg, s)
    ensures a.Run? && t == a.t && !IsSet(s.store, id)
  {
    hide TaskStep, Step, SocksOk, EndOk, MeterFits, DiskOk, BitsShape, Places, IsSet, ValidId;
    if a.Run? {
      if a.t < |s.tasks| {
        RunStep(cfg, s, a.t, a.m);
        TaskStepOwn(cfg, s, a.t, a.m);
        TaskStepSuccess(cfg, s, a.t, a.m);
        assert ReportedOnce(s.tasks[a.t]);
        if Credits(s, a.t, a.m) {
          OneTaskPerChunk(cfg, s, a.t);
        }
      } else {
        RunNobody(cfg, s, a.t, a.m);
      }
    } else {
      OtherStepTasks(cfg, s, a);
    }
  }

  lemma RunStep(cfg: Config, s: State, t: nat, m: TaskMove)
    requires t < |s.tasks|
    ensures Step(cfg, s, Run(t, m)) == TaskStep(cfg, s, t, m)
  {
    hide TaskStep;
  }

  lemma RunNobody(cfg: Config, s: State, t: nat, m: TaskMove)
    requires t >= |s.tasks|
    ensures Step(cfg, s, Run(t, m)) == s
  {
    hide TaskStep;
  }

  lemma {:induction false} RunsCreditOnce(cfg: Config, s0: State, acts: seq<Action>, id: ChunkId)
    requires GoodLayout(cfg) && Begins(cfg, s0)
    ensures CreditedOnce(Exec(cfg, s0, acts), id)
  {
    hide Step, IsSet, Credited, Begins, Good, GoodLayout;
    if acts == [] {
      NoneCredited(cfg, s0, id);
    } else {
      var n := |acts| - 1;
      var s, u := Exec(cfg, s0, acts[..n]), Exec(cfg, s0, acts);
      RunsCreditOnce(cfg, s0, acts[..n], id);
      RunsAreGood(cfg, s0, acts[..n]);
      forall t: nat, r: nat | Credited(u, t, id) && Credited(u, r, id) ensures t == r {
        CreditsMeet(cfg, s, acts[n], t, r, id);
      }
    }
  }

  lemma NoneCredited(cfg: Config, s0: State, id: ChunkId)
    requires Begins(cfg, s0)
    ensures CreditedOnce(s0, id)
  {
  }

  lemma CreditsMeet(cfg: Config, s: State, a: Action, t: nat, r: nat, id: ChunkId)
    requires Credited(Step(cfg, s, a), t, id) && Credited(Step(cfg, s, a), r, id)
    requires CreditedOnce(s, id) && Good(cfg, s)
    ensures t == r
  {
    hide Step, IsSet, Good, Brought, Credited;
    if !Credited(s, t, id) {
      CreditIsNew(cfg, s, a, t, id);
    }
    if !Credited(s, r, id) {
      CreditIsNew(cfg, s, a, r, id);
    }
    if Credited(s, t, id) {
      CreditedBrought(cfg, s, t, id);
    }
    if Credited(s, r, id) {
      CreditedBrought(cfg, s, r, id);
    }
  }

  lemma CreditedBrought(cfg: Config, s: State, t: nat, id: ChunkId)
    requires Credited(s, t, id) && Good(cfg, s)
    ensures Brought(cfg, s, t, id) && IsSet(s.store, id)
  {
    hide SocksOk, EndOk, MeterFits, BitsVerified, Conserved, BitsShape, Mapped, OffsetOf, SizeOf, ChecksumOf, Stored,
      IsSet;
    assert ReportedOnce(s.tasks[t]);
    assert s.tasks[t].buf[..|s.tasks[t].buf|] == s.tasks[t].buf;
  }

  // ----- the theorems -----

  /** The file on disk reaches to the end of the chunk's place. */
  predicate LongEnough(cfg: Config, store: Store, id: ChunkId) {
    id.file in store.disk && OffsetOf(cfg, id) + SizeOf(cfg, id) <= |store.disk[id.file]|
  }

  /** The bytes on disk at the chunk's place are all there and have its checksum. */
  predicate TrueOfDisk(cfg: Config, store: Store, id: ChunkId) {
    var at, size := OffsetOf(cfg, id), SizeOf(cfg, id);
    LongEnough(cfg, store, id) && cfg.hash(store.disk[id.file][at..at + size]) == ChecksumOf(cfg, id)
  }

  /**
   * A set bit means that the chunk's place holds, as far as the file goes, bytes that have the chunk's checksum; so
   * a set bit is true of the disk exactly when the file was long enough for the chunk at the start. For a chunk that
   * was clear at the start, those bytes are what a credited task has received.
   */
  lemma SetBitsAreVerified(cfg: Config, s0: State, acts: seq<Action>, id: ChunkId)
    requires ValidId(cfg, id) && IsSet(Exec(cfg, s0, acts).store, id)
    requires GoodLayout(cfg) && Begins(cfg, s0)
    ensures Verified(cfg, Exec(cfg, s0, acts).store, id)
    ensures TrueOfDisk(cfg, Exec(cfg, s0, acts).store, id) <==> LongEnough(cfg, s0.store, id)
    ensures !IsSet(s0.store, id) ==> exists t: nat :: Brought(cfg, Exec(cfg, s0, acts), t, id)
  {
    hide Begins, Exec, GoodLayout, SocksOk, EndOk, Accounted, MeterFits, IsSet, Verified, OffsetOf, SizeOf, ValidId,
      Credited, Brought, CreditsSet, TaskDisk;
    var s := Exec(cfg, s0, acts);
    RunsAreGood(cfg, s0, acts);
    assert Verified(cfg, s.store, id);
    RunsKeepFiles(cfg, s0, acts);
    if LongEnough(cfg, s.store, id) {
      VerifiedIsTrue(cfg, s.store, id);
    }
    if !IsSet(s0.store, id) {
      var t := RunCredited(cfg, s0, acts, id);
      CreditedBrought(cfg, s, t, id);
    }
  }

  /**
   * A chunk that was clear at the start is set exactly when a task was credited with it. There is then one such task,
   * and the file has bytes and its mapping has room for the chunk.
   */
  lemma SetIffBrought(cfg: Config, s0: State, acts: seq<Action>, id: ChunkId)
    requires ValidId(cfg, id) && !IsSet(s0.store, id)
    requires GoodLayout(cfg) && Begins(cfg, s0)
    ensures IsSet(Exec(cfg, s0, acts).store, id) <==> exists t: nat :: Brought(cfg, Exec(cfg, s0, acts), t, id)
    ensures var s := Exec(cfg, s0, acts);
            forall t: nat, r: nat :: Brought(cfg, s, t, id) && Brought(cfg, s, r, id) ==> t == r
    ensures IsSet(Exec(cfg, s0, acts).store, id) ==> Mapped(cfg, s0.store, id, SizeOf(cfg, id))
  {
    hide Begins, Exec, GoodLayout, Good, IsSet, OffsetOf, SizeOf, ValidId, Stored, Verified, Genuine;
    var s := Exec(cfg, s0, acts);
    RunsAreGood(cfg, s0, acts);
    RunsKeepFiles(cfg, s0, acts);
    RunsCreditOnce(cfg, s0, acts, id);
    if IsSet(s.store, id) {
      SetBitsAreVerified(cfg, s0, acts, id);
      var t: nat :| Brought(cfg, s, t, id);
    }
    forall t: nat | Brought(cfg, s, t, id) ensures IsSet(s.store, id) && Credited(s, t, id) {
      CreditedBrought(cfg, s, t, id);
    }
  }

  lemma VerifiedIsTrue(cfg: Config, store: Store, id: ChunkId)
    requires Verified(cfg, store, id) && LongEnough(cfg, store, id)
    ensures TrueOfDisk(cfg, store, id)
  {
    hide OffsetOf, SizeOf, ChecksumOf;
    var data :| Genuine(cfg, id, data) && Stored(store, id.file, OffsetOf(cfg, id), data);
    var at := OffsetOf(cfg, id);
    assert store.disk[id.file][at..at + |data|] == data;
  }

  /** The same for a reachable state, whose files are as long as they were. */
  lemma SetBitIsVerified(cfg: Config, s: State, id: ChunkId)
    requires ValidId(cfg, id) && IsSet(s.store, id)
    requires GoodLayout(cfg) && Reachable(cfg, s)
    ensures Verified(cfg, s.store, id)
    ensures TrueOfDisk(cfg, s.store, id) <==> LongEnough(cfg, s.store, id)
  {
    hide Begins, Exec, GoodLayout, IsSet, TrueOfDisk, OffsetOf, SizeOf, ValidId, Verified;
    var s0, acts :| Begins(cfg, s0) && s == Exec(cfg, s0, acts);
    SetBitsAreVerified(cfg, s0, acts, id);
    RunsKeepFiles(cfg, s0, acts);
  }

  /**
   * A task that misses no more bytes holds exactly as many as its chunk has, and the comparison decides: it goes on to
   * write what passes for the chunk, and throws with anything else.
   */
  lemma VerdictIsGenuine(cfg: Config, s: State, t: nat)
    requires t < |s.tasks| && s.tasks[t].phase.Receiving? && SlotOf(s, t) == Meter.Loop(0)
    requires GoodLayout(cfg) && Reachable(cfg, s)
    ensures ValidId(cfg, s.tasks[t].id) && |s.tasks[t].buf| == SizeOf(cfg, s.tasks[t].id)
    ensures var u := TaskStep(cfg, s, t, Verify);
            && |u.tasks| == |s.tasks| && u.store == s.store
            && u.tasks[t].phase == if Genuine(cfg, s.tasks[t].id, s.tasks[t].buf) then Writing(0) else Threw
  {
    hide Reachable, GoodLayout, SocksOk, EndOk, DiskOk, Accounted, ChecksumOf;
    ReachableIsGood(cfg, s);
    assert TaskFit(cfg, s.tasks[t], s.meter.slots[t]);
  }

  /** Each chunk not yet on disk is in exactly one place, and each chunk on disk in none. */
  lemma ChunksAreConserved(cfg: Config, s: State, id: ChunkId)
    requires GoodLayout(cfg) && Reachable(cfg, s)
    ensures Queued(s.queue, id) + Holds(s.pc, id) + Sum(Owing(s.tasks, id)) + Sum(LostOnes(s.lost, id)) ==
            if ValidId(cfg, id) && !IsSet(s.store, id) then 1 else 0
  {
    hide Reachable, GoodLayout, SocksOk, EndOk, DiskOk, MeterFits, Queued, Holds, Owing, LostOnes, Sum;
    ReachableIsGood(cfg, s);
    assert Places(s, id) == if Unset(cfg, s.store, id) then 1 else 0;
  }

  /** A finished task was reported exactly once, as a success or as a failure. */
  lemma OneReportPerTask(cfg: Config, s: State, t: nat)
    requires t < |s.tasks|
    requires GoodLayout(cfg) && Reachable(cfg, s)
    ensures s.tasks[t].successes + s.tasks[t].failures <= 1
    ensures s.tasks[t].phase.Over? ==> s.tasks[t].successes + s.tasks[t].failures == 1
    ensures Unreported(s.tasks[t].phase) ==>
              s.tasks[t].successes + s.tasks[t].failures == 0
              && !IsSet(s.store, s.tasks[t].id)
              && forall j :: 0 <= j < |s.tasks| && j != t && Unreported(s.tasks[j].phase) ==>
                   s.tasks[j].id != s.tasks[t].id
  {
    hide Reachable, GoodLayout, SocksOk, EndOk, DiskOk, MeterFits, Conserved, BitsShape;
    ReachableIsGood(cfg, s);
    assert ReportedOnce(s.tasks[t]);
    if Unreported(s.tasks[t].phase) {
      OneTaskPerChunk(cfg, s, t);
    }
  }

  /** The finished notification of a task that failed sets no bit and reports nothing. */
  lemma FailedTaskNeverCredits(cfg: Config, s: State, t: nat, m: TaskMove)
    requires t < |s.tasks| && s.tasks[t].failures > 0
    requires GoodLayout(cfg) && Reachable(cfg, s)
    ensures var u := TaskStep(cfg, s, t, m);
            && u.store.bits == s.store.bits
            && |u.tasks| == |s.tasks| && u.tasks[t].successes == 0 && u.tasks[t].failures == 1
  {
    hide Reachable, GoodLayout, SocksOk, EndOk, DiskOk, MeterFits, Conserved, BitsShape, TaskStep, SetBit;
    ReachableIsGood(cfg, s);
    assert ReportedOnce(s.tasks[t]);
    TaskStepBits(cfg, s, t, m);
    TaskStepOwn(cfg, s, t, m);
    FailedTaskStays(cfg, s, t, m);
  }

  lemma FailedTaskStays(cfg: Config, s: State, t: nat, m: TaskMove)
    requires t < |s.tasks| && ReportedOnce(s.tasks[t]) && s.tasks[t].failures > 0
    ensures var u := TaskStep(cfg, s, t, m);
            |u.tasks| == |s.tasks| && u.tasks[t].successes == 0 && u.tasks[t].failures == 1
  {
    hide Meter.Step, SockPool.Step, Overwrite, SetBit, Make, Countable;
  }

  /** Every socket out of the pool has one holder, and an unfinished task is the only holder of its own. */
  lemma SocketsAreExclusive(cfg: Config, s: State, t: nat)
    requires t < |s.tasks| && !s.tasks[t].phase.Over?
    requires GoodLayout(cfg) && Reachable(cfg, s)
    ensures HeldFor(s.socks.net, s.tasks[t].sock, s.tasks[t].peer)
    ensures HasSock(s.pc) ==> s.pc.sock != s.tasks[t].sock
    ensures s.tasks[t].sock !in s.socks.outside
    ensures forall j :: 0 <= j < |s.tasks| && j != t && !s.tasks[j].phase.Over? ==>
                          s.tasks[j].sock != s.tasks[t].sock
  {
    hide Reachable, GoodLayout, Sound, EndOk, SockPool.Inv, JobSockets.Holders;
    ReachableIsGood(cfg, s);
    TaskHoldsAlone(s, t);
  }

  /** When a task releases its socket, the pool finds it and has a condition to signal. */
  lemma ReleaseFindsSocket(cfg: Config, s: State, t: nat)
    requires t < |s.tasks| && s.tasks[t].phase.Settled?
    requires GoodLayout(cfg) && Reachable(cfg, s)
    ensures SockPool.ReturnSock(s.socks.net.pool, s.tasks[t].peer, Some(s.tasks[t].sock)).1 == SockPool.ReturnOk
    ensures s.tasks[t].sock !in ReleaseStep(cfg, s, t).socks.net.held
  {
    hide Reachable, GoodLayout, Sound, EndOk, SockPool.Inv, JobSockets.Holders, SockPool.ReturnSock, SockPool.Step,
      ReleaseStep;
    ReachableIsGood(cfg, s);
    TaskHoldsAlone(s, t);
    SockPool.GiveBackKeeps(s.socks.net, s.tasks[t].peer, s.tasks[t].sock);
    ReleaseShape(cfg, s, t);
    GiveBackHeld(s.socks.net, s.tasks[t].peer, s.tasks[t].sock);
  }

  /** Once all threads are joined, a socket still out of the pool is with another user, or was lost with a start. */
  lemma JoinedReturnsSockets(cfg: Config, s: State, x: Sock)
    requires s.pc.Joined? && x in s.socks.net.held
    requires GoodLayout(cfg) && Reachable(cfg, s)
    ensures x in s.socks.outside || exists i :: 0 <= i < |s.lost| && s.lost[i].sock == x
  {
    hide Reachable, GoodLayout, Sound, SockPool.Inv, WellRanked, PeersKnown;
    ReachableIsGood(cfg, s);
    assert JobSockets.Holders(s, x) == 1;
    NobodyKeeps(s.tasks, x);
    StrayFound(s.lost, x);
  }

  lemma {:induction false} NobodyKeeps(tasks: seq<Task>, x: Sock)
    requires AllOver(tasks)
    ensures Sum(Keeping(tasks, x)) == 0
  {
    if tasks != [] {
      var n := |tasks| - 1;
      NobodyKeeps(tasks[..n], x);
      assert Keeping(tasks, x)[..n] == Keeping(tasks[..n], x);
    }
  }

  lemma {:induction false} StrayFound(lost: seq<Lost>, x: Sock)
    ensures Sum(Stray(lost, x)) > 0 ==> exists i :: 0 <= i < |lost| && lost[i].sock == x
  {
    if lost != [] {
      var n := |lost| - 1;
      StrayFound(lost[..n], x);
      assert Stray(lost, x)[..n] == Stray(lost[..n], x);
      if Sum(Stray(lost[..n], x)) > 0 {
        var i :| 0 <= i < |lost[..n]| && lost[..n][i].sock == x;
        assert lost[i].sock == x;
      }
    }
  }

  /** How often task `t` gave its socket back on a run. */
  function Returns(cfg: Config, s0: State, acts: seq<Action>, t: nat): nat {
    if acts == [] then 0
    else
      var n := |acts| - 1;
      Returns(cfg, s0, acts[..n], t) + if GivesBack(Exec(cfg, s0, acts[..n]), acts[n], t) then 1 else 0
  }

  /** The step in which a settled task returns its socket. */
  predicate GivesBack(s: State, a: Action, t: nat) {
    a == Run(t, Release) && t < |s.tasks| && s.tasks[t].phase.Settled?
  }

  predicate IsOver(s: State, t: nat) {
    t < |s.tasks| && s.tasks[t].phase.Over?
  }

  lemma OverOnce(cfg: Config, s: State, a: Action, t: nat)
    ensures IsOver(Step(cfg, s, a), t) <==> IsOver(s, t) || GivesBack(s, a, t)
    ensures GivesBack(s, a, t) ==> !IsOver(s, t)
  {
    hide Step;
    if a.Run? {
      RunOverOnce(cfg, s, a.t, a.m, t);
    } else {
      OtherStepTasks(cfg, s, a);
    }
  }

  lemma RunOverOnce(cfg: Config, s: State, i: nat, m: TaskMove, t: nat)
    ensures IsOver(Step(cfg, s, Run(i, m)), t) <==> IsOver(s, t) || GivesBack(s, Run(i, m), t)
  {
    hide Meter.Step, SockPool.Step, Overwrite, SetBit, Make, Countable;
  }

  /** A task gives its socket back once, with its last step, on every run; a joined job's tasks have all done so. */
  lemma {:induction false} SocketsReturnedOnce(cfg: Config, s0: State, acts: seq<Action>, t: nat)
    requires s0.tasks == []
    ensures Returns(cfg, s0, acts, t) == if IsOver(Exec(cfg, s0, acts), t) then 1 else 0
  {
    hide Step;
    if acts != [] {
      var n := |acts| - 1;
      SocketsReturnedOnce(cfg, s0, acts[..n], t);
      OverOnce(cfg, Exec(cfg, s0, acts[..n]), acts[n], t);
    }
  }

  /** When get_chunk yields a chunk without owners, nothing better is left in the queue. */
  lemma NoOwnerComesLast(cfg: Config, s: State, i: nat)
    requires s.pc.Cleared? && PopStep(s, i).pc.Popped? && PopStep(s, i).pc.c.status == NoOwner
    requires GoodLayout(cfg) && Reachable(cfg, s)
    ensures forall c :: c in PopStep(s, i).queue ==> c.status != Free && (c.status == Failed ==> c.clients == [])
  {
    hide Reachable, GoodLayout, Sound, SocksOk, WellRanked, Without;
    ReachableIsGood(cfg, s);
    NoOwnerChunksComeLast(s.queue, i);
  }

  // ----- the end of a job -----

  ghost predicate Complete(cfg: Config, s: State) {
    forall id :: ValidId(cfg, id) ==> IsSet(s.store, id)
  }

  lemma {:induction false} NothingOwed(tasks: seq<Task>, id: ChunkId)
    requires AllOver(tasks)
    ensures Sum(Owing(tasks, id)) == 0
  {
    if tasks != [] {
      var n := |tasks| - 1;
      NothingOwed(tasks[..n], id);
      assert Owing(tasks, id)[..n] == Owing(tasks[..n], id);
    }
  }

  lemma LostCounted(lost: seq<Lost>, i: nat)
    requires i < |lost|
    ensures Sum(LostOnes(lost, lost[i].id)) >= 1
  {
    SumUpdate(LostOnes(lost, lost[i].id), i, 0);
  }

  lemma QueueCounted(q: seq<ChunkInfo>, i: nat)
    requires i < |q|
    ensures Queued(q, q[i].id) >= 1
  {
    assert Ids(q)[i] in multiset(Ids(q));
  }

  /** Once joined, the missing chunks are exactly those in the queue and those lost with a failed start. */
  lemma JoinedPlaces(cfg: Config, s: State, id: ChunkId)
    requires Good(cfg, s) && s.pc.Joined?
    ensures Queued(s.queue, id) + Sum(LostOnes(s.lost, id)) == if ValidId(cfg, id) && !IsSet(s.store, id) then 1 else 0
  {
    hide SocksOk, DiskOk, MeterFits, Queued, Owing, LostOnes, Sum, AllOver, WellRanked;
    NothingOwed(s.tasks, id);
    assert Places(s, id) == if Unset(cfg, s.store, id) then 1 else 0;
  }

  /**
   * After joinAll the download is complete exactly when nothing is left in the queue and no task start
   * failed; after a normal exit whatever is left in the queue is a failed chunk.
   */
  lemma JoinedCompleteIff(cfg: Config, s: State)
    requires s.pc.Joined?
    requires GoodLayout(cfg) && Reachable(cfg, s)
    ensures Complete(cfg, s) <==> s.queue == [] && s.lost == []
    ensures s.pc.drained ==> forall i :: 0 <= i < |s.queue| ==> s.queue[i].status == Failed
  {
    hide Reachable, GoodLayout, Sound, SocksOk, Queued, LostOnes, Sum, WellRanked, AllOver, Conserved;
    ReachableIsGood(cfg, s);
    if Complete(cfg, s) {
      if s.queue != [] {
        QueueCounted(s.queue, 0);
        JoinedPlaces(cfg, s, s.queue[0].id);
      }
      if s.lost != [] {
        LostCounted(s.lost, 0);
        JoinedPlaces(cfg, s, s.lost[0].id);
      }
    }
    if s.queue == [] && s.lost == [] {
      forall id | ValidId(cfg, id) ensures IsSet(s.store, id) {
        JoinedPlaces(cfg, s, id);
        NoneQueued(id);
      }
    }
  }

  lemma NoneQueued(id: ChunkId)
    ensures Queued([], id) == 0 && Sum(LostOnes([], id)) == 0
  {
  }

  // ----- the shared counters of a job -----

  lemma TaskStepMeter(cfg: Config, s: State, t: nat, m: TaskMove) returns (moves: seq<Meter.Action>)
    requires t < |s.tasks|
    ensures |moves| <= 1 && (forall i :: 0 <= i < |moves| ==> Meter.Metered(cfg.lim, moves[i]))
    ensures TaskStep(cfg, s, t, m).meter == if moves == [] then s.meter else Meter.Step(cfg.lim, s.meter, moves[0])
    ensures forall i, n: nat :: 0 <= i < |moves| && moves[i] == Meter.Action.Task(n, Meter.Add) ==>
                             n == t && m.Count? && s.tasks[t].phase.Receiving?
  {
    hide Meter.Step, SockPool.Step, Overwrite, SetBit, Make, Countable, ValidId, OffsetOf, SizeOf, ChecksumOf;
    var u := TaskStep(cfg, s, t, m);
    moves := match m
      case Throw => [Meter.Action.Task(t, Meter.Drop)]
      case Gate => [Meter.Action.Task(t, Meter.Gate)]
      case Reserve => [Meter.Action.Task(t, Meter.Reserve)]
      case Receive(data) => [Meter.Action.Task(t, Meter.Receive(|data|))]
      case Count => [Meter.Action.Task(t, Meter.Add)]
      case Release => [Meter.Action.Task(t, Meter.Quit)]
      case _ => [];
    if u.meter == s.meter {
      moves := [];
    }
  }

  lemma StepMeter(cfg: Config, s: State, a: Action) returns (moves: seq<Meter.Action>)
    requires SizesFit(cfg)
    ensures |moves| <= 1 && (forall i :: 0 <= i < |moves| ==> Meter.Metered(cfg.lim, moves[i]))
    ensures Step(cfg, s, a).meter == if moves == [] then s.meter else Meter.Step(cfg.lim, s.meter, moves[0])
    ensures forall i, n: nat :: 0 <= i < |moves| && moves[i] == Meter.Action.Task(n, Meter.Add) ==>
                             a == Run(n, Count) && n < |s.tasks| && s.tasks[n].phase.Receiving?
  {
    hide Meter.Step, TaskStep, Meter.Active, SizeOf, ValidId;
    moves := [];
    if a.Run? {
      if a.t < |s.tasks| {
        moves := TaskStepMeter(cfg, s, a.t, a.m);
      }
    } else {
      OtherStepMeter(cfg, s, a);
      moves := match a
        case Snapshot => [Meter.Snapshot]
        case AddTotal => [Meter.AddTotal]
        case Reset => [Meter.Reset]
        case Start => if s.pc.Ready? && CanStart(cfg, s) then [Meter.Begin(SizeOf(cfg, s.pc.c.id))] else []
        case _ => [];
    }
  }

  /** The counters of a run of the job are those of a metered run of its tasks and the collector. */
  lemma {:induction false} MeterOfRun(cfg: Config, s0: State, acts: seq<Action>) returns (moves: seq<Meter.Action>)
    requires SizesFit(cfg)
    requires Meter.Quiet(s0.meter)
    ensures forall i :: 0 <= i < |moves| ==> Meter.Metered(cfg.lim, moves[i])
    ensures Exec(cfg, s0, acts).meter == Meter.Exec(cfg.lim, Meter.START, moves)
  {
    hide Step, Meter.Step, Meter.Quiet, SizesFit;
    if acts == [] {
      moves := Meter.QuietIsReached(cfg.lim, s0.meter);
    } else {
      var before := MeterOfRun(cfg, s0, acts[..|acts| - 1]);
      var s := Exec(cfg, s0, acts[..|acts| - 1]);
      var more := StepMeter(cfg, s, acts[|acts| - 1]);
      moves := before + more;
      if more == [] {
        assert moves == before;
      } else {
        assert moves[..|moves| - 1] == before && moves[|moves| - 1] == more[0];
      }
    }
  }

  /** The job's receive loops keep to the limit but for one request of every other thread. */
  lemma JobOvershootBound(cfg: Config, s0: State, acts: seq<Action>)
    requires Begins(cfg, s0) && Meter.Fits(cfg.lim)
    ensures Exec(cfg, s0, acts).meter.second <= Meter.Bound(cfg.lim)
  {
    hide Exec, Meter.Fits, Meter.Bound, Meter.Exec, SizesFit;
    var moves := MeterOfRun(cfg, s0, acts);
    Meter.OvershootBound(cfg.lim, moves, Meter.Exec(cfg.lim, Meter.START, moves));
  }

  /** With the default limit of 2^30 bytes and the four threads of the pool, for chunks up to a third of 2^31 bytes. */
  lemma DefaultOvershoot(cfg: Config, s0: State, acts: seq<Action>, largest: nat)
    requires Begins(cfg, s0) && cfg.lim == Meter.Limits(0x4000_0000, largest, 4) && 3 * largest <= 0x8000_0000
    ensures Exec(cfg, s0, acts).meter.second <= 0x4000_0000 + 3 * largest
  {
    hide Begins, Exec;
    JobOvershootBound(cfg, s0, acts);
  }

  // ----- bits only grow -----

  lemma StepKeepsBits(cfg: Config, s: State, a: Action, id: ChunkId)
    requires IsSet(s.store, id)
    ensures IsSet(Step(cfg, s, a).store, id)
  {
    hide TaskStep;
    if a.Run? {
      if a.t < |s.tasks| {
        TaskStepBits(cfg, s, a.t, a.m);
      }
    } else {
      OtherStepKeepsBits(cfg, s, a, id);
    }
  }

  lemma OtherStepKeepsBits(cfg: Config, s: State, a: Action, id: ChunkId)
    requires !a.Run? && IsSet(s.store, id)
    ensures IsSet(Step(cfg, s, a).store, id)
  {
    hide Step;
    OtherStepStore(cfg, s, a);
  }

  // ----- files keep their lengths -----

  ghost predicate SameFiles(before: map<FileId, seq<Byte>>, after: map<FileId, seq<Byte>>) {
    && (forall f :: f in before <==> f in after)
    && (forall f :: f in before ==> |after[f]| == |before[f]|)
  }

  lemma TaskStepKeepsFiles(cfg: Config, s: State, t: nat, m: TaskMove)
    requires t < |s.tasks|
    ensures SameFiles(s.store.disk, TaskStep(cfg, s, t, m).store.disk)
  {
    hide Meter.Step, SockPool.Step, SetBit, Make, Countable, OffsetOf;
  }

  lemma StepKeepsFiles(cfg: Config, s: State, a: Action)
    ensures SameFiles(s.store.disk, Step(cfg, s, a).store.disk)
  {
    hide TaskStep;
    if a.Run? {
      if a.t < |s.tasks| {
        TaskStepKeepsFiles(cfg, s, a.t, a.m);
      }
    } else {
      OtherStepStore(cfg, s, a);
    }
  }

  /** No run creates, grows or shrinks a file. */
  lemma {:induction false} RunsKeepFiles(cfg: Config, s0: State, acts: seq<Action>)
    ensures SameFiles(s0.store.disk, Exec(cfg, s0, acts).store.disk)
  {
    hide Step;
    if acts != [] {
      RunsKeepFiles(cfg, s0, acts[..|acts| - 1]);
      StepKeepsFiles(cfg, Exec(cfg, s0, acts[..|acts| - 1]), acts[|acts| - 1]);
    }
  }
}
