// The overshoot of the quota, as jobs reach it: every run of the counters alone in which tasks work on largest
// chunks is the run of a job that has enough of them, one owner, and failing transfers
// (client/src/download_task.cc, client/src/job.cc).
module JobOvershoot {
  import opened Prelude
  import opened ChunkQueue
  import opened JobMachine
  import opened JobSockets
  import opened JobSafety
  import opened JobTheorems
  import Layout
  import Meter
  import MeterRuns
  import SockPool

  const PEER: ClientId := "p"

  /** The job has one file, whose first `n` chunks have the largest size; there are as many as threads. */
  ghost predicate Roomy(cfg: Config, f: FileId, n: nat) {
    && cfg.files.Keys == {f} && n <= |cfg.files[f]|
    && (forall k :: 0 <= k < n ==> cfg.files[f][k].size == cfg.lim.largest)
    && SizesFit(cfg) && 1 <= cfg.lim.threads <= n && cfg.lim.threads <= SockPool.MAX_CONNECTION_PER_CLIENT + 1
  }

  /** One peer that has every chunk. */
  function Owning(cfg: Config, f: FileId): Owners {
    map[f := [Owner(PEER, seq(|Chunks(cfg, f)|, _ => true))]]
  }

  function Entry(f: FileId, k: nat): ChunkInfo {
    ChunkInfo(Free, ChunkId(f, k), HIGHEST - 1, [PEER])
  }

  /** One idle socket to that peer. */
  function OneSock(): SockPool.Net {
    SockPool.Net(SockPool.Pool(map[PEER := [SockPool.Entry(Some(0), SockPool.Idle)]], {PEER}, 1), map[])
  }

  /** The first `n` chunks are missing, the rest are there. */
  function Opening(cfg: Config, f: FileId, n: nat, disk: map<FileId, seq<Byte>>): State {
    State(Top, seq(n, k requires 0 <= k < n => Entry(f, k)), [], [],
          Store(map[f := seq(|Chunks(cfg, f)|, k => n <= k)], disk, Owning(cfg, f)),
          Socks(OneSock(), {}), Meter.START, Flags(false, false, false))
  }

  // ----- the pool -----

  function UsedCount(list: seq<SockPool.Entry>): nat {
    if list == [] then 0
    else UsedCount(list[..|list| - 1]) + if list[|list| - 1].use == SockPool.Used then 1 else 0
  }

  lemma {:induction false} UsedCountUpdate(list: seq<SockPool.Entry>, i: nat, e: SockPool.Entry)
    requires i < |list|
    ensures UsedCount(list[i := e]) ==
            UsedCount(list) - (if list[i].use == SockPool.Used then 1 else 0) + if e.use == SockPool.Used then 1 else 0
  {
    var n := |list| - 1;
    if i == n {
      assert list[i := e][..n] == list[..n];
    } else {
      UsedCountUpdate(list[..n], i, e);
      assert list[i := e][..n] == list[..n][i := e];
    }
  }

  lemma {:induction false} UsedCountAll(list: seq<SockPool.Entry>)
    requires forall i :: 0 <= i < |list| ==> list[i].use == SockPool.Used
    ensures UsedCount(list) == |list|
  {
    if list != [] {
      UsedCountAll(list[..|list| - 1]);
    }
  }

  /** Every pooled socket is alive, and so many of them are in use. */
  ghost predicate PoolSim(p: SockPool.Pool, used: nat) {
    && PEER in p.lists && PEER in p.conds && p.lists[PEER] != []
    && (forall i :: 0 <= i < |p.lists[PEER]| ==> p.lists[PEER][i].sock.Some?)
    && UsedCount(p.lists[PEER]) == used
  }

  /** While fewer than eleven sockets are in use, another one can be had. */
  lemma AnotherSock(n: SockPool.Net, used: nat)
    requires PoolSim(n.pool, used) && used <= SockPool.MAX_CONNECTION_PER_CLIENT
    ensures SockPool.GetIdle(n.pool, PEER, true).1.Taken?
    ensures PoolSim(SockPool.Step(n, SockPool.Take(PEER, true)).pool, used + 1)
  {
    var list := n.pool.lists[PEER];
    var i := SockPool.FirstIdle(list);
    if i < |list| {
      UsedCountUpdate(list, i, list[i].(use := SockPool.Used));
    } else {
      UsedCountAll(list);
      var e := SockPool.Entry(Some(n.pool.next), SockPool.Used);
      assert (list + [e])[..|list|] == list;
    }
  }

  lemma SockGoesBack(n: SockPool.Net, used: nat, x: Sock)
    requires SockPool.Inv(n) && PoolSim(n.pool, used) && x in n.held && n.held[x] == PEER
    ensures used > 0 && PoolSim(SockPool.Step(n, SockPool.GiveBack(PEER, x)).pool, used - 1)
  {
    var list := n.pool.lists[PEER];
    var j: int :| SockPool.UsedAt(n.pool, PEER, j, x);
    var i := SockPool.FindSock(list, Some(x));
    assert SockPool.At(n.pool, PEER, i, x);
    UsedCountUpdate(list, i, list[i].(use := SockPool.Idle));
  }

  // ----- the relation between a job and its counters -----

  predicate Mine(f: FileId, n: nat, id: ChunkId) {
    id.file == f && id.num < n
  }

  predicate EntrySim(f: FileId, n: nat, c: ChunkInfo) {
    Mine(f, n, c.id) && c.clients == [PEER] && c.status != NoOwner
  }

  predicate TaskSim(f: FileId, n: nat, t: Task, slot: Meter.Slot) {
    && Mine(f, n, t.id) && t.peer == PEER
    && ((t.phase.Over? && slot.Off?) || (t.phase.Receiving? && !slot.Off? && !t.reported))
  }

  ghost predicate TasksSim(f: FileId, n: nat, tasks: seq<Task>, slots: seq<Meter.Slot>) {
    |tasks| == |slots| && forall i :: 0 <= i < |tasks| ==> TaskSim(f, n, tasks[i], slots[i])
  }

  ghost predicate QueueSim(f: FileId, n: nat, q: seq<ChunkInfo>) {
    forall i :: 0 <= i < |q| ==> EntrySim(f, n, q[i])
  }

  /** The scheduler is at its head, every chunk is queued or with a busy task, and so is every socket. */
  ghost predicate Sim(cfg: Config, f: FileId, n: nat, s: State) {
    && s.pc == Top && s.flags == Flags(false, false, false)
    && s.store.owners == Owning(cfg, f)
    && QueueSim(f, n, s.queue) && |s.queue| + Meter.Active(s.meter.slots) == n
    && TasksSim(f, n, s.tasks, s.meter.slots)
    && PoolSim(s.socks.net.pool, Meter.Active(s.meter.slots))
  }

  /** A state of a run that is related to its counters. */
  ghost predicate Related(cfg: Config, f: FileId, n: nat, s: State) {
    Roomy(cfg, f, n) && SocksOk(s) && Sim(cfg, f, n, s)
  }

  lemma {:induction false} TopOf(q: seq<ChunkInfo>) returns (i: nat)
    requires q != []
    ensures i < |q| && IsTop(q, i)
  {
    var n := |q| - 1;
    if n == 0 {
      i := 0;
    } else {
      i := TopOf(q[..n]);
      assert forall j :: 0 <= j < n ==> q[..n][j] == q[j];
      if q[i].priority < q[n].priority {
        i := n;
      }
    }
  }

  // ----- a task starts -----

  lemma PopsOne(cfg: Config, s: State, i: nat)
    requires s.pc == Top && s.flags == Flags(false, false, false) && IsTop(s.queue, i)
    ensures Step(cfg, Step(cfg, s, CheckFlags), Pop(i)) == s.(pc := Popped(s.queue[i]), queue := Without(s.queue, i))
  {
    hide Without;
  }

  lemma PicksPeer(cfg: Config, s: State)
    requires s.pc.Popped? && s.pc.c.status != NoOwner && s.pc.c.clients == [PEER]
    ensures Step(cfg, Step(cfg, Step(cfg, s, Refresh([])), Gauge), Gauge) == s.(pc := Waiting(s.pc.c, PEER))
  {
    hide SockPool.Load;
    var load := SockPool.Load(s.socks.net.pool, PEER);
    var read := s.(pc := Gauging(s.pc.c, [load]));
    assert Step(cfg, Step(cfg, s, Refresh([])), Gauge) == read by {
      assert [] + [load] == [load];
    }
    assert FirstMin([load]) == 0;
  }

  lemma GrabsSock(cfg: Config, s: State)
    requires s.pc.Waiting? && s.pc.peer == PEER
    requires SockPool.GetIdle(s.socks.net.pool, PEER, true).1.Taken?
    ensures Step(cfg, s, TakeSock(true)) ==
            s.(pc := Ready(s.pc.c, PEER, SockPool.GetIdle(s.socks.net.pool, PEER, true).1.sock),
               socks := s.socks.(net := SockPool.Step(s.socks.net, SockPool.Take(PEER, true))))
  {
    hide SockPool.GetIdle;
  }

  lemma StartsTask(cfg: Config, s: State)
    requires CanStart(cfg, s)
    ensures Step(cfg, Step(cfg, s, Start), Run(|s.tasks|, Accept)) ==
            s.(pc := Top, tasks := s.tasks + [NewTask(s.pc).(phase := Receiving)],
               meter := Meter.Step(cfg.lim, s.meter, Meter.Begin(SizeOf(cfg, s.pc.c.id))))
  {
    hide Meter.Step, Meter.Active, ValidId, SizeOf;
    var t := NewTask(s.pc);
    assert (s.tasks + [t])[|s.tasks| := t.(phase := Receiving)] == s.tasks + [t.(phase := Receiving)];
  }

  /** The job after the whole pass. */
  function Launched(cfg: Config, s: State, i: nat): State
    requires i < |s.queue|
  {
    var c, taken := s.queue[i], SockPool.GetIdle(s.socks.net.pool, PEER, true).1;
    s.(queue := Without(s.queue, i),
       tasks := s.tasks + [Task(c.id, PEER, if taken.Taken? then taken.sock else 0, Receiving, [], false, 0, 0)],
       meter := Meter.Step(cfg.lim, s.meter, Meter.Begin(cfg.lim.largest)),
       socks := s.socks.(net := SockPool.Step(s.socks.net, SockPool.Take(PEER, true))))
  }

  lemma LaunchRuns(cfg: Config, f: FileId, n: nat, s: State, i: nat)
    requires i < |s.queue| && IsTop(s.queue, i)
    requires Meter.Active(s.meter.slots) < cfg.lim.threads
    requires Related(cfg, f, n, s)
    ensures Goes(cfg, s, Launched(cfg, s, i))
  {
    hide Step, Goes, SockPool.Step, SockPool.GetIdle, Meter.Step, UsedCount, IsTop, Without, Meter.Active;
    AnotherSock(s.socks.net, Meter.Active(s.meter.slots));
    var c := s.queue[i];
    assert EntrySim(f, n, c);
    GoesNowhere(cfg, s);
    Then(cfg, s, s, CheckFlags);
    Then(cfg, s, Step(cfg, s, CheckFlags), Pop(i));
    PopsOne(cfg, s, i);
    var s1 := s.(pc := Popped(c), queue := Without(s.queue, i));
    Then(cfg, s, s1, Refresh([]));
    Then(cfg, s, Step(cfg, s1, Refresh([])), Gauge);
    Then(cfg, s, Step(cfg, Step(cfg, s1, Refresh([])), Gauge), Gauge);
    PicksPeer(cfg, s1);
    var s2 := s1.(pc := Waiting(c, PEER));
    Then(cfg, s, s2, TakeSock(true));
    GrabsSock(cfg, s2);
    var s3 := Step(cfg, s2, TakeSock(true));
    BigChunk(cfg, f, n, c.id);
    Then(cfg, s, s3, Start);
    Then(cfg, s, Step(cfg, s3, Start), Run(|s3.tasks|, Accept));
    StartsTask(cfg, s3);
  }

  lemma BigChunk(cfg: Config, f: FileId, n: nat, id: ChunkId)
    requires Roomy(cfg, f, n) && Mine(f, n, id)
    ensures ValidId(cfg, id) && SizeOf(cfg, id) == cfg.lim.largest
  {
  }

  lemma LaunchKeepsSim(cfg: Config, f: FileId, n: nat, s: State, i: nat)
    requires Roomy(cfg, f, n) && Sim(cfg, f, n, s) && i < |s.queue|
    requires Meter.Active(s.meter.slots) < cfg.lim.threads
    ensures Sim(cfg, f, n, Launched(cfg, s, i))
  {
    hide SockPool.Step, SockPool.GetIdle, UsedCount, Meter.Active, PoolSim;
    AnotherSock(s.socks.net, Meter.Active(s.meter.slots));
    Meter.SlotAppend(s.meter.slots, Meter.Loop(cfg.lim.largest));
    assert EntrySim(f, n, s.queue[i]);
  }

  /** A task of the counters starts: a task of the job does. */
  lemma LiftBegin(cfg: Config, f: FileId, n: nat, s: State) returns (u: State)
    requires Related(cfg, f, n, s)
    ensures Goes(cfg, s, u) && Sim(cfg, f, n, u)
    ensures u.meter == Meter.Step(cfg.lim, s.meter, Meter.Begin(cfg.lim.largest))
  {
    hide Step, Goes, SockPool.Step, SockPool.GetIdle, UsedCount, Meter.Active, PoolSim, IsTop, QueueSim, TasksSim;
    GoesNowhere(cfg, s);
    if Meter.Active(s.meter.slots) < cfg.lim.threads {
      var i := TopOf(s.queue);
      LaunchRuns(cfg, f, n, s, i);
      LaunchKeepsSim(cfg, f, n, s, i);
      u := Launched(cfg, s, i);
    } else {
      u := s;
    }
  }

  // ----- a task moves -----

  function JobMove(m: Meter.Move): TaskMove {
    match m
    case Gate => Gate
    case Reserve => Reserve
    case Receive(k) => Receive(seq(k, _ => 0))
    case _ => Count
  }

  /** The moves inside the loop. */
  predicate Inside(m: Meter.Move) {
    m.Gate? || m.Reserve? || m.Receive? || m.Add?
  }

  /** A task that is gone does not move. */
  lemma GoneStays(lim: Meter.Limits, m: Meter.State, i: nat, move: Meter.Move)
    requires (i < |m.slots| ==> m.slots[i].Off?) && (Inside(move) || move.Quit?)
    ensures Meter.Step(lim, m, Meter.Action.Task(i, move)) == m
  {
  }

  /** Only the buffer of the task changes, and its slot. */
  lemma MoveIs(cfg: Config, s: State, i: nat, m: Meter.Move)
    requires i < |s.tasks| == |s.meter.slots| && s.tasks[i].phase.Receiving? && Inside(m)
    requires s.flags == Flags(false, false, false)
    ensures var u := Step(cfg, s, Run(i, JobMove(m)));
            && u == s.(tasks := s.tasks[i := u.tasks[i]],
                       meter := Meter.Step(cfg.lim, s.meter, Meter.Action.Task(i, m)))
            && u.tasks[i] == s.tasks[i].(buf := u.tasks[i].buf)
  {
    hide Meter.Quota;
  }

  lemma SlotsAfter(lim: Meter.Limits, m: Meter.State, i: nat, move: Meter.Move)
    requires i < |m.slots| && !m.slots[i].Off? && Inside(move)
    ensures var u := Meter.Step(lim, m, Meter.Action.Task(i, move));
            && u.slots == m.slots[i := u.slots[i]] && !u.slots[i].Off?
            && Meter.Active(u.slots) == Meter.Active(m.slots)
  {
    hide Meter.Quota, Meter.Active;
    Meter.SlotSums(m.slots, i, Meter.MoveSlot(lim, m.used, m.slots[i], move));
  }

  lemma MoveKeepsSim(cfg: Config, f: FileId, n: nat, s: State, u: State, i: nat, m: Meter.Move)
    requires Sim(cfg, f, n, s) && i < |s.tasks| && s.tasks[i].phase.Receiving? && Inside(m)
    requires |u.tasks| == |s.tasks|
    requires u == s.(tasks := s.tasks[i := s.tasks[i].(buf := u.tasks[i].buf)],
                     meter := Meter.Step(cfg.lim, s.meter, Meter.Action.Task(i, m)))
    ensures Sim(cfg, f, n, u)
  {
    hide Meter.Step, Meter.Active, PoolSim, QueueSim;
    assert TaskSim(f, n, s.tasks[i], s.meter.slots[i]);
    SlotsAfter(cfg.lim, s.meter, i, m);
    forall j | 0 <= j < |u.tasks| ensures TaskSim(f, n, u.tasks[j], u.meter.slots[j]) {
      assert TaskSim(f, n, s.tasks[j], s.meter.slots[j]);
    }
  }

  lemma LiftMove(cfg: Config, f: FileId, n: nat, s: State, i: nat, m: Meter.Move) returns (u: State)
    requires Inside(m)
    requires Related(cfg, f, n, s)
    ensures Goes(cfg, s, u) && Sim(cfg, f, n, u)
    ensures u.meter == Meter.Step(cfg.lim, s.meter, Meter.Action.Task(i, m))
  {
    hide Step, Goes, PoolSim, QueueSim, Meter.Active, Roomy, SocksOk;
    GoesNowhere(cfg, s);
    if i >= |s.tasks| {
      u := s;
      GoneStays(cfg.lim, s.meter, i, m);
    } else {
      assert TaskSim(f, n, s.tasks[i], s.meter.slots[i]);
      if s.meter.slots[i].Off? {
        u := s;
        GoneStays(cfg.lim, s.meter, i, m);
      } else {
        u := Step(cfg, s, Run(i, JobMove(m)));
        MoveIs(cfg, s, i, m);
        Then(cfg, s, s, Run(i, JobMove(m)));
        MoveKeepsSim(cfg, f, n, s, u, i, m);
      }
    }
  }

  // ----- a task ends -----

  /** Task `i` has thrown; its slot is back at the head of its loop. */
  function Thrown(s: State, i: nat, left: nat): State
    requires i < |s.tasks| && i < |s.meter.slots|
  {
    s.(tasks := s.tasks[i := s.tasks[i].(phase := Threw)],
       meter := s.meter.(slots := s.meter.slots[i := Meter.Loop(left)]))
  }

  /** A stop flag ends a task at the head of its loop; then the flag is cleared. */
  lemma ThrowsOnStop(cfg: Config, s: State, i: nat, left: nat)
    requires i < |s.tasks| == |s.meter.slots| && s.tasks[i].phase.Receiving? && s.flags == Flags(false, false, false)
    requires s.meter.slots[i] == Meter.Loop(left) && left > 0
    ensures var stop, clear := SetFlags(false, true, false), SetFlags(false, false, false);
            Step(cfg, Step(cfg, Step(cfg, s, stop), Run(i, Throw)), clear) == Thrown(s, i, left)
  {
    assert Meter.Step(cfg.lim, s.meter, Meter.Action.Task(i, Meter.Drop)) == s.meter;
  }

  /** A full buffer does not verify, or the file cannot be mapped. */
  lemma ThrowsWhenFull(cfg: Config, s: State, i: nat)
    requires i < |s.tasks| == |s.meter.slots| && s.tasks[i].phase.Receiving?
    requires s.meter.slots[i] == Meter.Loop(0)
    ensures var u := Step(cfg, s, Run(i, Verify));
            u == Thrown(s, i, 0) || Step(cfg, u, Run(i, Throw)) == Thrown(s, i, 0)
  {
    var m := Meter.Step(cfg.lim, s.meter, Meter.Action.Task(i, Meter.Drop));
    assert m == s.meter;
    var u := Step(cfg, s, Run(i, Verify));
    assert u.tasks[i := u.tasks[i].(phase := Threw)] == s.tasks[i := s.tasks[i].(phase := Threw)];
  }

  /** The connection breaks. */
  lemma ThrowsOnReceive(cfg: Config, s: State, i: nat)
    requires i < |s.tasks| == |s.meter.slots| && s.tasks[i].phase.Receiving? && s.meter.slots[i].Reserved?
    ensures Step(cfg, s, Run(i, Throw)) == Thrown(s, i, s.meter.slots[i].left)
  {
  }

  lemma LoopThrows(cfg: Config, s: State, i: nat)
    requires s.flags == Flags(false, false, false)
    requires i < |s.tasks| == |s.meter.slots| && s.tasks[i].phase.Receiving? && s.meter.slots[i].Loop?
    ensures Goes(cfg, s, Thrown(s, i, s.meter.slots[i].left))
  {
    hide Step, Goes, Thrown;
    GoesNowhere(cfg, s);
    if s.meter.slots[i].left > 0 {
      ThrowsOnStop(cfg, s, i, s.meter.slots[i].left);
      var stop, clear := SetFlags(false, true, false), SetFlags(false, false, false);
      Then(cfg, s, s, stop);
      Then(cfg, s, Step(cfg, s, stop), Run(i, Throw));
      Then(cfg, s, Step(cfg, Step(cfg, s, stop), Run(i, Throw)), clear);
    } else {
      ThrowsWhenFull(cfg, s, i);
      Then(cfg, s, s, Run(i, Verify));
      Then(cfg, s, Step(cfg, s, Run(i, Verify)), Run(i, Throw));
    }
  }

  lemma ReservedThrows(cfg: Config, s: State, i: nat)
    requires i < |s.tasks| == |s.meter.slots| && s.tasks[i].phase.Receiving? && s.meter.slots[i].Reserved?
    ensures Goes(cfg, s, Thrown(s, i, s.meter.slots[i].left))
  {
    hide Step, Goes, Thrown;
    ThrowsOnReceive(cfg, s, i);
    GoesNowhere(cfg, s);
    Then(cfg, s, s, Run(i, Throw));
  }

  /** A task that has passed the gate asks, and then throws in one of the two ways. */
  lemma GatedThrows(cfg: Config, s: State, i: nat) returns (left: nat)
    requires s.flags == Flags(false, false, false)
    requires i < |s.tasks| == |s.meter.slots| && s.tasks[i].phase.Receiving? && s.meter.slots[i].Gated?
    ensures Goes(cfg, s, Thrown(s, i, left))
  {
    hide Goes;
    var u := Step(cfg, s, Run(i, Reserve));
    left := s.meter.slots[i].left;
    GoesNowhere(cfg, s);
    Then(cfg, s, s, Run(i, Reserve));
    AsksOnly(cfg, s, i);
    hide Step;
    if u.meter.slots[i].Loop? {
      LoopThrows(cfg, u, i);
    } else {
      ReservedThrows(cfg, u, i);
    }
    assert Thrown(u, i, left) == Thrown(s, i, left);
    GoesOn(cfg, s, u, Thrown(s, i, left));
  }

  lemma AsksOnly(cfg: Config, s: State, i: nat)
    requires i < |s.tasks| == |s.meter.slots| && s.tasks[i].phase.Receiving? && s.meter.slots[i].Gated?
    ensures var u := Step(cfg, s, Run(i, Reserve));
            && u == s.(meter := s.meter.(slots := s.meter.slots[i := u.meter.slots[i]]))
            && (u.meter.slots[i].Loop? || u.meter.slots[i].Reserved?) && u.meter.slots[i].left == s.meter.slots[i].left
  {
    hide Meter.Quota;
  }

  function FailedEntry(id: ChunkId): ChunkInfo {
    ChunkInfo(Failed, id, HIGHEST - 1 - NORMAL, [PEER])
  }

  lemma OwnersKnow(cfg: Config, f: FileId, n: nat, id: ChunkId)
    requires Roomy(cfg, f, n) && Mine(f, n, id)
    ensures Countable(Owning(cfg, f), id) && Make(Owning(cfg, f), Failed, id) == FailedEntry(id)
    ensures Make(Owning(cfg, f), Free, id) == Entry(f, id.num)
  {
    var list := Owning(cfg, f)[f];
    assert list[..0] == [];
    assert ChunkQueue.Holders(list[..0], id.num) == [];
    assert ChunkQueue.Holders(list, id.num) == [PEER];
  }

  /** The job after the failed task was requeued, reported, and has given everything back. */
  function Finished(s: State, i: nat): State
    requires i < |s.tasks| && i < |s.meter.slots|
  {
    var t := s.tasks[i];
    s.(queue := s.queue + [FailedEntry(t.id)],
       tasks := s.tasks[i := t.(phase := Over, reported := true, failures := t.failures + 1)],
       meter := s.meter.(slots := s.meter.slots[i := Meter.Off]),
       socks := s.socks.(net := SockPool.Step(s.socks.net, SockPool.GiveBack(t.peer, t.sock))))
  }

  lemma ThrownReports(cfg: Config, f: FileId, n: nat, s: State, i: nat)
    requires Roomy(cfg, f, n) && s.store.owners == Owning(cfg, f)
    requires i < |s.tasks| && s.tasks[i].phase.Threw? && Mine(f, n, s.tasks[i].id)
    ensures var t := s.tasks[i];
            Step(cfg, Step(cfg, s, Run(i, Requeue)), Run(i, MarkReported)) ==
            s.(queue := s.queue + [FailedEntry(t.id)],
               tasks := s.tasks[i := t.(phase := Notified, reported := true, failures := t.failures + 1)])
  {
    hide Make, Countable;
    OwnersKnow(cfg, f, n, s.tasks[i].id);
    var t := s.tasks[i];
    var u := s.(queue := s.queue + [FailedEntry(t.id)],
                tasks := s.tasks[i := t.(phase := Requeued, failures := t.failures + 1)]);
    assert Step(cfg, s, Run(i, Requeue)) == u;
  }

  /** The socket, the thread and the slot of task `i` are given back. */
  function Released(s: State, i: nat): State
    requires i < |s.tasks| && i < |s.meter.slots|
  {
    var t := s.tasks[i];
    s.(tasks := s.tasks[i := t.(phase := Over)], meter := s.meter.(slots := s.meter.slots[i := Meter.Off]),
       socks := s.socks.(net := SockPool.Step(s.socks.net, SockPool.GiveBack(t.peer, t.sock))))
  }

  lemma Releases(cfg: Config, s: State, i: nat, left: nat)
    requires i < |s.tasks| == |s.meter.slots| && s.tasks[i].phase.Notified? && s.tasks[i].reported
    requires s.meter.slots[i] == Meter.Loop(left)
    ensures Step(cfg, Step(cfg, s, Run(i, Settle)), Run(i, Release)) ==
            Released(s, i)
  {
    hide SockPool.Step;
    var u := s.(tasks := s.tasks[i := s.tasks[i].(phase := JobMachine.Settled)]);
    assert Step(cfg, s, Run(i, Settle)) == u;
  }

  lemma ThrownFinishes(cfg: Config, f: FileId, n: nat, s: State, i: nat, left: nat)
    requires Roomy(cfg, f, n) && s.store.owners == Owning(cfg, f)
    requires i < |s.tasks| == |s.meter.slots| && Mine(f, n, s.tasks[i].id)
    ensures Goes(cfg, Thrown(s, i, left), Finished(s, i))
  {
    hide Step, Goes, Roomy, Owning, Mine;
    var v := Thrown(s, i, left);
    ThrownReports(cfg, f, n, v, i);
    GoesNowhere(cfg, v);
    Then(cfg, v, v, Run(i, Requeue));
    Then(cfg, v, Step(cfg, v, Run(i, Requeue)), Run(i, MarkReported));
    var w := Step(cfg, Step(cfg, v, Run(i, Requeue)), Run(i, MarkReported));
    Releases(cfg, w, i, left);
    Then(cfg, v, w, Run(i, Settle));
    Then(cfg, v, Step(cfg, w, Run(i, Settle)), Run(i, Release));
    FinishedIs(s, i, left);
  }

  lemma FinishedIs(s: State, i: nat, left: nat)
    requires i < |s.tasks| && i < |s.meter.slots|
    ensures var v, t := Thrown(s, i, left), s.tasks[i];
            var w := v.(queue := v.queue + [FailedEntry(t.id)],
                        tasks := v.tasks[i := v.tasks[i].(phase := Notified, reported := true,
                                                          failures := t.failures + 1)]);
            Finished(s, i) == Released(w, i)
  {
    hide SockPool.Step;
  }

  lemma TaskHolds(s: State, i: nat)
    requires SocksOk(s) && i < |s.tasks| && !s.tasks[i].phase.Over?
    ensures SockPool.Inv(s.socks.net) && HeldFor(s.socks.net, s.tasks[i].sock, s.tasks[i].peer)
  {
    hide SockPool.Inv, OneHolder;
  }

  lemma FinishKeepsSim(cfg: Config, f: FileId, n: nat, s: State, i: nat)
    requires i < |s.tasks| && s.tasks[i].phase.Receiving?
    requires Related(cfg, f, n, s)
    ensures Sim(cfg, f, n, Finished(s, i))
  {
    hide SockPool.Step, UsedCount, Meter.Active, PoolSim, Goes, SocksOk, SockPool.Inv;
    var u := Finished(s, i);
    assert TaskSim(f, n, s.tasks[i], s.meter.slots[i]);
    TaskHolds(s, i);
    SockGoesBack(s.socks.net, Meter.Active(s.meter.slots), s.tasks[i].sock);
    Meter.SlotSums(s.meter.slots, i, Meter.Off);
    assert EntrySim(f, n, FailedEntry(s.tasks[i].id));
    forall j | 0 <= j < |u.tasks| ensures TaskSim(f, n, u.tasks[j], u.meter.slots[j]) {
      assert TaskSim(f, n, s.tasks[j], s.meter.slots[j]);
    }
  }

  lemma QuitIs(lim: Meter.Limits, m: Meter.State, i: nat)
    requires i < |m.slots|
    ensures Meter.Step(lim, m, Meter.Action.Task(i, Meter.Quit)) ==
            if m.slots[i].Got? then m else m.(slots := m.slots[i := Meter.Off])
  {
  }

  lemma LiftQuit(cfg: Config, f: FileId, n: nat, s: State, i: nat) returns (u: State)
    requires Related(cfg, f, n, s)
    ensures Goes(cfg, s, u) && Sim(cfg, f, n, u)
    ensures u.meter == Meter.Step(cfg.lim, s.meter, Meter.Action.Task(i, Meter.Quit))
  {
    hide Step, Goes, PoolSim, QueueSim, Meter.Active, Roomy, Meter.Step, Owning, SockPool.Step;
    u := s;
    GoesNowhere(cfg, s);
    if i >= |s.tasks| {
      GoneStays(cfg.lim, s.meter, i, Meter.Quit);
    } else {
      assert TaskSim(f, n, s.tasks[i], s.meter.slots[i]);
      QuitIs(cfg.lim, s.meter, i);
      if s.meter.slots[i].Off? {
        GoneStays(cfg.lim, s.meter, i, Meter.Quit);
      } else if !s.meter.slots[i].Got? {
        var left := Fails(cfg, s, i);
        ThrownFinishes(cfg, f, n, s, i, left);
        GoesOn(cfg, s, Thrown(s, i, left), Finished(s, i));
        FinishKeepsSim(cfg, f, n, s, i);
        u := Finished(s, i);
      }
    }
  }

  lemma Fails(cfg: Config, s: State, i: nat) returns (left: nat)
    requires s.flags == Flags(false, false, false)
    requires i < |s.tasks| == |s.meter.slots| && s.tasks[i].phase.Receiving?
    requires !s.meter.slots[i].Off? && !s.meter.slots[i].Got?
    ensures Goes(cfg, s, Thrown(s, i, left))
  {
    hide Goes, Thrown;
    left := s.meter.slots[i].left;
    match s.meter.slots[i]
    case Loop(_) => LoopThrows(cfg, s, i);
    case Gated(_) => left := GatedThrows(cfg, s, i);
    case Reserved(_, _) => ReservedThrows(cfg, s, i);
  }

  // ----- whole runs -----

  lemma LiftStep(cfg: Config, f: FileId, n: nat, s: State, a: Meter.Action) returns (u: State)
    requires MeterRuns.Plain(cfg.lim, a)
    requires Related(cfg, f, n, s)
    ensures Goes(cfg, s, u) && Related(cfg, f, n, u) && u.meter == Meter.Step(cfg.lim, s.meter, a)
  {
    hide Goes, SocksOk, Sim, Roomy, Meter.Step;
    if a.Begin? {
      u := LiftBegin(cfg, f, n, s);
    } else if a.m.Quit? {
      u := LiftQuit(cfg, f, n, s, a.i);
    } else {
      u := LiftMove(cfg, f, n, s, a.i, a.m);
    }
    GoesKeepsSocks(cfg, s, u);
  }

  lemma GoesKeepsSocks(cfg: Config, s: State, u: State)
    requires SocksOk(s) && Goes(cfg, s, u)
    ensures SocksOk(u)
  {
    hide Exec, SocksOk;
    var acts :| u == Exec(cfg, s, acts);
    RunsKeepSocks(cfg, s, acts);
  }

  /** Every plain run of the counters is the run of the counters in some run of the job. */
  lemma {:induction false} LiftRun(cfg: Config, f: FileId, n: nat, start: State, acts: seq<Meter.Action>)
    returns (u: State)
    requires Related(cfg, f, n, start) && start.meter == Meter.START && MeterRuns.AllPlain(cfg.lim, acts)
    ensures Goes(cfg, start, u) && Related(cfg, f, n, u) && u.meter == Meter.Exec(cfg.lim, Meter.START, acts)
  {
    hide Related, Goes, Meter.Step, MeterRuns.Plain;
    if acts == [] {
      u := start;
      GoesNowhere(cfg, start);
    } else {
      var s := LiftRun(cfg, f, n, start, acts[..|acts| - 1]);
      u := LiftStep(cfg, f, n, s, acts[|acts| - 1]);
      GoesOn(cfg, start, s, u);
    }
  }

  // ----- the start -----

  lemma OpeningQueue(cfg: Config, f: FileId, n: nat, disk: map<FileId, seq<Byte>>)
    requires Roomy(cfg, f, n)
    ensures var s := Opening(cfg, f, n, disk);
            Initial(s.queue, {f}, s.store.bits, s.store.owners) && QueueSim(f, n, s.queue)
  {
    var s := Opening(cfg, f, n, disk);
    forall k | 0 <= k < n
      ensures Countable(s.store.owners, s.queue[k].id) && s.queue[k] == Make(s.store.owners, Free, s.queue[k].id)
    {
      OwnersKnow(cfg, f, n, ChunkId(f, k));
    }
    forall id ensures multiset(Ids(s.queue))[id] == if Missing({f}, s.store.bits, id) then 1 else 0 {
      hide Countable;
      OpeningIds(f, n, id);
      assert Ids(s.queue) == seq(n, k requires 0 <= k < n => ChunkId(f, k));
    }
  }

  lemma {:induction false} OpeningIds(f: FileId, n: nat, id: ChunkId)
    ensures multiset(seq(n, k requires 0 <= k < n => ChunkId(f, k)))[id] == if Mine(f, n, id) then 1 else 0
  {
    if n > 0 {
      OpeningIds(f, n - 1, id);
      assert seq(n, k requires 0 <= k < n => ChunkId(f, k)) ==
             seq(n - 1, k requires 0 <= k < n - 1 => ChunkId(f, k)) + [ChunkId(f, n - 1)];
    }
  }

  lemma OpeningPool()
    ensures SockPool.Inv(OneSock()) && PoolSim(OneSock().pool, 0)
  {
    var list := [SockPool.Entry(Some(0), SockPool.Idle)];
    assert list[..0] == [];
    assert UsedCount(list) == 0;
  }

  /** The rest of the file, which counts as downloaded, is really there. */
  ghost predicate RestVerified(cfg: Config, f: FileId, n: nat, disk: map<FileId, seq<Byte>>) {
    forall k: nat :: n <= k < |Chunks(cfg, f)| ==>
      Verified(cfg, Store(map[], disk, map[]), ChunkId(f, k))
  }

  lemma OpeningBegins(cfg: Config, f: FileId, n: nat, disk: map<FileId, seq<Byte>>)
    requires Roomy(cfg, f, n) && RestVerified(cfg, f, n, disk)
    ensures var s := Opening(cfg, f, n, disk);
            Begins(cfg, s) && Related(cfg, f, n, s)
  {
    hide SockPool.Inv, Initial, PoolSim, QueueSim, Owning;
    var s := Opening(cfg, f, n, disk);
    OpeningQueue(cfg, f, n, disk);
    OpeningPool();
    assert cfg.files.Keys == {f};
    forall id | ValidId(cfg, id) && IsSet(s.store, id) ensures Verified(cfg, s.store, id) {
      assert id == ChunkId(f, id.num);
      SameDisk(cfg, Store(map[], disk, map[]), s.store);
    }
    assert Begins(cfg, s);
    BeginsSocksOk(cfg, s);
    hide SocksOk, Begins;
  }

  // ----- the theorems -----

  lemma ReachedByJob(cfg: Config, f: FileId, n: nat, disk: map<FileId, seq<Byte>>, moves: seq<Meter.Action>)
    returns (acts: seq<Action>)
    requires Roomy(cfg, f, n) && RestVerified(cfg, f, n, disk) && MeterRuns.AllPlain(cfg.lim, moves)
    ensures Begins(cfg, Opening(cfg, f, n, disk))
    ensures Exec(cfg, Opening(cfg, f, n, disk), acts).meter == Meter.Exec(cfg.lim, Meter.START, moves)
  {
    hide Begins, Exec, SocksOk, Sim, Roomy, Meter.Exec;
    var s := Opening(cfg, f, n, disk);
    OpeningBegins(cfg, f, n, disk);
    var u := LiftRun(cfg, f, n, s, moves);
    acts :| u == Exec(cfg, s, acts);
  }

  /** A job that receives exactly as many bytes in a second as the overshoot bound allows. */
  lemma JobReachesBound(cfg: Config, f: FileId, n: nat, disk: map<FileId, seq<Byte>>) returns (acts: seq<Action>)
    requires Roomy(cfg, f, n) && RestVerified(cfg, f, n, disk) && MeterRuns.Usable(cfg.lim)
    ensures Begins(cfg, Opening(cfg, f, n, disk))
    ensures Exec(cfg, Opening(cfg, f, n, disk), acts).meter.second == Meter.Bound(cfg.lim)
  {
    hide Begins, Exec, Meter.Exec, Meter.Bound, RestVerified, MeterRuns.AllPlain;
    var moves := MeterRuns.OvershootIsReached(cfg.lim);
    acts := ReachedByJob(cfg, f, n, disk, moves);
  }

  /** When the largest overshoot does not fit in an int, a job exceeds the bound. */
  lemma JobBreaksBound(cfg: Config, f: FileId, n: nat, disk: map<FileId, seq<Byte>>) returns (acts: seq<Action>)
    requires Roomy(cfg, f, n) && RestVerified(cfg, f, n, disk) && MeterRuns.Usable(cfg.lim) && !Meter.Fits(cfg.lim)
    ensures Begins(cfg, Opening(cfg, f, n, disk))
    ensures Exec(cfg, Opening(cfg, f, n, disk), acts).meter.second > Meter.Bound(cfg.lim)
  {
    hide Begins, Exec, Meter.Exec, Meter.Bound, RestVerified, MeterRuns.AllPlain, Meter.Fits;
    var moves := MeterRuns.OvershootBreaks(cfg.lim);
    acts := ReachedByJob(cfg, f, n, disk, moves);
  }

  /** So on all runs of such a job the bound holds if and only if the largest overshoot fits in an int. */
  lemma JobBoundIffFits(cfg: Config, f: FileId, n: nat, disk: map<FileId, seq<Byte>>)
    requires Roomy(cfg, f, n) && RestVerified(cfg, f, n, disk) && MeterRuns.Usable(cfg.lim)
    ensures Meter.Fits(cfg.lim) <==>
            forall s0, acts :: Begins(cfg, s0) ==> Exec(cfg, s0, acts).meter.second <= Meter.Bound(cfg.lim)
  {
    hide Begins, Exec, Meter.Bound, Meter.Fits, RestVerified, Roomy, Opening;
    if Meter.Fits(cfg.lim) {
      forall s0, acts | Begins(cfg, s0) ensures Exec(cfg, s0, acts).meter.second <= Meter.Bound(cfg.lim) {
        JobOvershootBound(cfg, s0, acts);
      }
    } else {
      var acts := JobBreaksBound(cfg, f, n, disk);
    }
  }

  /** Every published file with as many full chunks as threads is such a job, its last chunk having been reloaded. */
  lemma PublishedIsRoomy(cfg: Config, f: FileId, original: seq<Byte>)
    requires cfg.lim.largest > 0 && cfg.files.Keys == {f}
    requires cfg.files[f] == Layout.MakeChunks(original, cfg.lim.largest, cfg.hash)
    requires |original| % cfg.lim.largest != 0
    requires 1 <= cfg.lim.threads < |cfg.files[f]| && cfg.lim.threads <= SockPool.MAX_CONNECTION_PER_CLIENT + 1
    ensures Roomy(cfg, f, |cfg.files[f]| - 1) && RestVerified(cfg, f, |cfg.files[f]| - 1, map[f := original])
  {
    var n := |cfg.files[f]| - 1;
    Layout.RecordedShape(original, cfg.lim.largest, cfg.hash);
    Layout.ChunkDescribed(original, cfg.lim.largest, cfg.hash, n);
    var at := OffsetOf(cfg, ChunkId(f, n));
    var piece := original[at..at + SizeOf(cfg, ChunkId(f, n))];
    assert Genuine(cfg, ChunkId(f, n), piece);
    assert Stored(Store(map[], map[f := original], map[]), f, at, piece);
  }
}
