// The job object (client/src/job.cc): its scheduler loop and its task callbacks, over the chunk selector
// and the socket manager it shares with other threads. What the other threads do before each access, and
// what the network answers, is given as a schedule; every run of the loop is shown to be a run of JobMachine.
module Jobs {
  import opened Prelude
  import opened ChunkQueue
  import opened ChunkSelectors
  import opened LocalSockManagers
  import opened JobMachine
  import opened JobFrames
  import opened JobSockets
  import opened JobSafety
  import opened JobConservation
  import opened JobTheorems
  import opened JobRuns
  import opened JobFiles
  import opened Torrents
  import Bags
  import Meter
  import SockPool

  /** What happens up to the next access, and how the network answers it. */
  datatype Turn = Turn(others: seq<Action>, dialed: bool, reply: seq<ClientId>, bitmap: Option<seq<bool>>, starts: bool)

  /** How one pass of the loop, or the whole loop, ends. */
  datatype Pass = Next | Empty | Crash | OutOfTurns
  datatype End = Finished(drained: bool) | Aborted | Unfinished

  /** The task as its two notifications leave it. */
  function Settled(task: Task): Task {
    (if task.reported then task else task.(reported := true, successes := task.successes + 1)).(phase := Over)
  }

  lemma FinishedIs(cfg: Config, s: State, t: nat)
    requires t < |s.tasks| && (s.tasks[t].phase.Returned? || s.tasks[t].phase.Notified?)
    requires s.tasks[t].sock in s.socks.net.held && s.socks.net.held[s.tasks[t].sock] == s.tasks[t].peer
    ensures var task := s.tasks[t];
            var bits := if task.reported then s.store.bits else SetBit(s.store.bits, task.id);
            var pool := SockPool.ReturnSock(s.socks.net.pool, task.peer, Some(task.sock)).0;
            TaskStep(cfg, TaskStep(cfg, s, t, JobMachine.Settle), t, JobMachine.Release) ==
            State(s.pc, s.queue, s.tasks[t := Settled(task)], s.lost, Store(bits, s.store.disk, s.store.owners),
                  Socks(SockPool.Net(pool, s.socks.net.held - {task.sock}), s.socks.outside),
                  Meter.Step(cfg.lim, s.meter, Meter.Action.Task(t, Meter.Quit)), s.flags)
  {
    hide Meter.Step, SockPool.ReturnSock, SetBit;
    var task := s.tasks[t];
    var u := TaskStep(cfg, s, t, JobMachine.Settle);
    assert u.tasks[t].phase.Settled?;
    assert u.tasks[t := u.tasks[t].(phase := Over)] == s.tasks[t := Settled(task)];
  }

  lemma ShakeIs(cfg: Config, s: State, bitmap: Option<seq<bool>>)
    requires s.pc.Shaking? && s.pc.sock in s.socks.net.held && s.socks.net.held[s.pc.sock] == s.pc.peer
    ensures var f := s.pc.c.id.file;
            var pool := SockPool.ReturnSock(s.socks.net.pool, s.pc.peer, Some(s.pc.sock)).0;
            var owners := if bitmap.Some? && f in s.store.owners
                          then s.store.owners[f := SetBitmap(s.store.owners[f], s.pc.peer, bitmap.value)]
                          else s.store.owners;
            Step(cfg, s, ShakeDone(bitmap)) ==
            s.(pc := Refreshing(s.pc.c, s.pc.rest, Ask), store := s.store.(owners := owners),
               socks := s.socks.(net := SockPool.Net(pool, s.socks.net.held - {s.pc.sock})))
  {
    hide SockPool.ReturnSock, SetBitmap;
  }

  class Job {
    const cfg: Config
    const selector: ChunkSelector
    const sockManager: LocalSockManager
    /** The paths of each file; the first is the one that is downloaded. */
    const sameFiles: map<FileId, seq<Path>>
    /** The path of the torrent's first entry of each file. */
    const firstEntry: map<FileId, Path>
    var tasks: seq<Task>
    var disk: map<FileId, seq<Byte>>
    var meter: Meter.State
    var flags: Flags
    var schedule: seq<Turn>
    // where the loop stands, what was lost, and who holds which socket: the steps of the other threads depend on it
    var pc: Pc
    var lost: seq<Lost>
    var held: map<Sock, ClientId>
    var outside: set<Sock>

    constructor (cfg: Config, selector: ChunkSelector, sockManager: LocalSockManager,
                 sameFiles: map<FileId, seq<Path>>, firstEntry: map<FileId, Path>, disk: map<FileId, seq<Byte>>,
                 flags: Flags, schedule: seq<Turn>, held: map<Sock, ClientId>)
      ensures this.cfg == cfg && this.selector == selector && this.sockManager == sockManager
      ensures this.sameFiles == sameFiles && this.firstEntry == firstEntry
      ensures View() == State(Top, selector.chunkQueue, [], [],
                              Store(selector.jobInfo.bitmapMap, disk, selector.jobInfo.ownerInfoMap),
                              Socks(SockPool.Net(sockManager.View(), held), held.Keys), Meter.START, flags)
    {
      this.cfg, this.selector, this.sockManager := cfg, selector, sockManager;
      this.sameFiles, this.firstEntry, this.disk := sameFiles, firstEntry, disk;
      this.flags, this.schedule, this.held, outside := flags, schedule, held, held.Keys;
      tasks, lost, meter, pc := [], [], Meter.START, Top;
    }

    function View(): State
      reads this, selector, selector.jobInfo, sockManager
    {
      State(pc, selector.chunkQueue, tasks, lost,
            Store(selector.jobInfo.bitmapMap, disk, selector.jobInfo.ownerInfoMap),
            Socks(SockPool.Net(sockManager.View(), held), outside), meter, flags)
    }

    // ----- callbacks -----

    /** A task threw: the chunk goes back into the queue. */
    method OnFailed(t: nat)
      requires t < |tasks| && tasks[t].phase.Threw? && Countable(selector.jobInfo.ownerInfoMap, tasks[t].id)
      modifies this`tasks, selector
      ensures View() == TaskStep(cfg, TaskStep(cfg, old(View()), t, Requeue), t, MarkReported)
      ensures var before, id := old(selector.chunkQueue), old(tasks[t]).id;
              && |selector.chunkQueue| == |before| + 1 && selector.chunkQueue[..|before|] == before
              && Tells(selector.chunkQueue[|before|], selector.jobInfo.ownerInfoMap[id.file], Failed, id)
      ensures tasks == old(tasks)[t := tasks[t]] && tasks[t].reported
    {
      hide Make, Countable, Tells;
      selector.ReportFailedChunk(tasks[t].id);
      tasks := tasks[t := tasks[t].(phase := Notified, failures := tasks[t].failures + 1, reported := true)];
    }

    /** A task returned, or threw and was reported: the chunk is credited unless reported, the socket returned. */
    method OnFinished(t: nat)
      requires t < |tasks| && (tasks[t].phase.Returned? || tasks[t].phase.Notified?)
      requires tasks[t].id.file in selector.jobInfo.bitmapMap
      requires tasks[t].id.num < |selector.jobInfo.bitmapMap[tasks[t].id.file]|
      requires tasks[t].sock in held && held[tasks[t].sock] == tasks[t].peer
      modifies this`tasks, this`meter, this`held, selector.jobInfo, sockManager
      ensures View() == TaskStep(cfg, TaskStep(cfg, old(View()), t, JobMachine.Settle), t, JobMachine.Release)
      ensures var bits, id := old(selector.jobInfo.bitmapMap), old(tasks[t]).id;
              selector.jobInfo.bitmapMap ==
              if old(tasks[t]).reported then bits else bits[id.file := bits[id.file][id.num := true]]
      ensures tasks == old(tasks)[t := tasks[t]] && tasks[t].reported && held == old(held) - {old(tasks[t]).sock}
    {
      hide Meter.Step, SockPool.ReturnSock, SockPool.TakenBack, TaskStep;
      FinishedIs(cfg, View(), t);
      var task := tasks[t];
      if !task.reported {
        selector.ReportSuccessChunk(task.id);
        task := task.(reported := true, successes := task.successes + 1);
      }
      var _ := sockManager.ReturnSock(task.peer, Some(task.sock));
      held := held - {task.sock};
      tasks := tasks[t := task.(phase := Over)];
      meter := Meter.Step(cfg.lim, meter, Meter.Action.Task(t, Meter.Quit));
    }

    // ----- other threads -----

    /** Every shared datum takes its value in `u`. */
    method Adopt(u: State)
      modifies this, selector, selector.jobInfo, sockManager
      ensures View() == u && schedule == old(schedule)
    {
      selector.chunkQueue := u.queue;
      selector.jobInfo.bitmapMap := u.store.bits;
      selector.jobInfo.ownerInfoMap := u.store.owners;
      sockManager.clientSockMap := u.socks.net.pool.lists;
      sockManager.conditionMap := u.socks.net.pool.conds;
      sockManager.nextSock := u.socks.net.pool.next;
      tasks, disk, meter, flags := u.tasks, u.store.disk, u.meter, u.flags;
      pc, lost, held, outside := u.pc, u.lost, u.socks.net.held, u.socks.outside;
    }

    /** The other threads run up to the next access; None when the schedule ends here. */
    method NextTurn(ghost start: State) returns (turn: Option<Turn>)
      requires Underway(cfg, start, View())
      modifies this, selector, selector.jobInfo, sockManager
      ensures Underway(cfg, start, View()) && pc == old(pc)
      ensures selector.jobInfo.ownerInfoMap == old(selector.jobInfo.ownerInfoMap)
      ensures turn.None? <==> old(schedule) == []
      ensures if turn.Some? then turn.value == old(schedule)[0] && schedule == old(schedule)[1..]
              else schedule == old(schedule)
    {
      hide Leads, SocksOk, Step;
      if schedule == [] {
        return None;
      }
      turn := Some(schedule[0]);
      schedule := schedule[1..];
      var others := turn.value.others;
      for i := 0 to |others|
        invariant Underway(cfg, start, View()) && pc == old(pc)
        invariant schedule == old(schedule)[1..]
        invariant selector.jobInfo.ownerInfoMap == old(selector.jobInfo.ownerInfoMap)
      {
        if OtherThread(others[i]) {
          OthersKeepPc(cfg, View(), others[i]);
          OthersKeepOwners(cfg, View(), others[i]);
          UnderwayStep(cfg, start, View(), others[i]);
          var u := Step(cfg, View(), others[i]);
          Adopt(u);
        }
      }
    }

    // ----- the accesses of the scheduler, one method each -----

    method ReadFlags()
      requires pc == Top
      modifies this`pc
      ensures View() == Step(cfg, old(View()), CheckFlags)
      ensures pc == JobMachine.Removed <==> flags.removed
      ensures pc == Cleared <==> !flags.removed && !flags.stopped && !flags.paused
      ensures pc == Top || pc == JobMachine.Removed || pc == Cleared
    {
      if flags.removed {
        pc := JobMachine.Removed;
      } else if flags.stopped {
        // waits to be resumed
      } else if flags.paused {
        // waits, with a time limit
      } else {
        pc := Cleared;
      }
    }

    method TakeChunk() returns (c: Option<ChunkInfo>)
      requires pc == Cleared
      modifies this`pc, selector
      ensures exists i: nat :: View() == Step(cfg, old(View()), Pop(i))
      ensures pc == if c.Some? then Popped(c.value) else Drained
      ensures c.None? <==> old(selector.chunkQueue) == []
      ensures c.Some? ==> multiset(old(selector.chunkQueue)) == multiset(selector.chunkQueue) + multiset{c.value}
                          && forall d :: d in old(selector.chunkQueue) ==> d.priority <= c.value.priority
    {
      ghost var before := View();
      c := selector.GetChunk();
      if c.None? {
        pc := Drained;
        assert View() == Step(cfg, before, Pop(0));
      } else {
        pc := Popped(c.value);
        ghost var i: nat :| IsTop(before.queue, i) && c.value == before.queue[i]
                            && selector.chunkQueue == Without(before.queue, i);
        assert View() == Step(cfg, before, Pop(i));
        TakenOut(before.queue, i);
      }
    }

    /** The tracker's answer replaces the owners of the file, unless it is empty or the call failed. */
    method RequestClients(reply: seq<ClientId>)
      requires pc.Popped? && pc.c.status == NoOwner
      modifies this`pc, selector.jobInfo
      ensures View() == Step(cfg, old(View()), Refresh(reply))
      ensures var owners, f := selector.jobInfo.ownerInfoMap, old(pc).c.id.file;
              if reply == [] then owners == old(selector.jobInfo.ownerInfoMap)
              else owners == old(selector.jobInfo.ownerInfoMap)[f := owners[f]]
                   && |owners[f]| == |reply|
                   && forall i :: 0 <= i < |reply| ==> owners[f][i].client == reply[i] && owners[f][i].bitmap == []
      ensures pc == if reply == [] then Gauging(old(pc).c, []) else Refreshing(old(pc).c, reply, Ask)
    {
      if reply == [] {
        pc := Gauging(pc.c, []);
        return;
      }
      var renewed := [];
      for i := 0 to |reply|
        invariant renewed == seq(i, j requires 0 <= j < i => Owner(reply[j], []))
      {
        renewed := renewed + [Owner(reply[i], [])];
      }
      selector.jobInfo.ownerInfoMap := selector.jobInfo.ownerInfoMap[pc.c.id.file := renewed];
      pc := Refreshing(pc.c, reply, Ask);
    }

    method AskConnected()
      requires pc.Refreshing? && pc.rest != [] && pc.dial == Ask
      modifies this`pc
      ensures View() == Step(cfg, old(View()), Advance(false))
      ensures pc == old(pc).(dial := if old(pc).rest[0] in sockManager.clientSockMap then Greeting else Dialing)
    {
      pc := pc.(dial := if pc.rest[0] in sockManager.clientSockMap then Greeting else Dialing);
    }

    method ConnectPeer(dialed: bool)
      requires pc.Refreshing? && pc.rest != [] && pc.dial == Dialing
      modifies this`pc, sockManager
      ensures View() == Step(cfg, old(View()), Advance(dialed))
      ensures pc == old(pc).(dial := Greeting)
      ensures var peer := old(pc).rest[0];
              peer in sockManager.clientSockMap <==> dialed || peer in old(sockManager.clientSockMap)
    {
      hide SockPool.ConnectClient;
      var _ := sockManager.ConnectClient(pc.rest[0], dialed);
      pc := pc.(dial := Greeting);
    }

    /** The handshake asserts that the peer is connected and that it gets a socket. */
    method Greet(dialed: bool)
      requires pc.Refreshing? && pc.rest != [] && pc.dial == Greeting
      modifies this`pc, this`held, sockManager
      ensures View() == Step(cfg, old(View()), Advance(dialed))
      ensures pc == Crashed(old(pc).c)
           || (pc.Shaking? && pc.c == old(pc).c && pc.rest == old(pc).rest[1..] && pc.peer == old(pc).rest[0])
      ensures old(pc).rest[0] !in old(sockManager.clientSockMap) ==> pc.Crashed?
      ensures old(pc).rest[0] in old(sockManager.clientSockMap) ==>
                exists r :: SockPool.HandedOut(old(sockManager.View()), old(pc).rest[0], dialed, sockManager.View(), r)
                            && if r.Taken? then pc.Shaking? && pc.sock == r.sock else pc.Crashed?
      ensures held == if pc.Shaking? then old(held)[pc.sock := pc.peer] else old(held)
    {
      hide SockPool.GetIdle, SockPool.HandedOut;
      var c, peer := pc.c, pc.rest[0];
      if peer !in sockManager.clientSockMap {
        pc := Crashed(c);
        return;
      }
      var taken := sockManager.GetIdleClientSock(peer, dialed);
      if taken.Taken? {
        held := held[taken.sock := peer];
        pc := Shaking(c, pc.rest[1..], peer, taken.sock);
      } else {
        pc := Crashed(c);
      }
    }

    /** The socket goes back; after a good answer the peer's bitmap is stored with its owner entry. */
    method EndHandshake(bitmap: Option<seq<bool>>)
      requires pc.Shaking? && pc.sock in held && held[pc.sock] == pc.peer
      modifies this`pc, this`held, sockManager, selector.jobInfo
      ensures View() == Step(cfg, old(View()), ShakeDone(bitmap))
      ensures var owners, before := selector.jobInfo.ownerInfoMap, old(selector.jobInfo.ownerInfoMap);
              var f := old(pc).c.id.file;
              if bitmap.Some? && f in before then
                && owners == before[f := owners[f]]
                && BitmapStored(before[f], old(pc).peer, bitmap.value, owners[f])
              else owners == before
      ensures held == old(held) - {old(pc).sock}
      ensures pc == Refreshing(old(pc).c, old(pc).rest, Ask)
    {
      hide SockPool.ReturnSock, SockPool.TakenBack, SetBitmap, BitmapStored, Step;
      ShakeIs(cfg, View(), bitmap);
      var f := pc.c.id.file;
      var _ := sockManager.ReturnSock(pc.peer, Some(pc.sock));
      held := held - {pc.sock};
      if bitmap.Some? && f in selector.jobInfo.ownerInfoMap {
        var list := StoreBitmap(selector.jobInfo.ownerInfoMap[f], pc.peer, bitmap.value);
        SetBitmapStores(selector.jobInfo.ownerInfoMap[f], pc.peer, bitmap.value);
        selector.jobInfo.ownerInfoMap := selector.jobInfo.ownerInfoMap[f := list];
      }
      pc := Refreshing(pc.c, pc.rest, Ask);
    }

    method AllGreeted()
      requires pc.Refreshing? && pc.rest == []
      modifies this`pc
      ensures View() == Step(cfg, old(View()), Advance(false))
      ensures pc == Gauging(old(pc).c, [])
    {
      pc := Gauging(pc.c, []);
    }

    method SkipRefresh()
      requires pc.Popped? && pc.c.status != NoOwner
      modifies this`pc
      ensures View() == Step(cfg, old(View()), Refresh([]))
      ensures pc == Gauging(old(pc).c, [])
    {
      pc := Gauging(pc.c, []);
    }

    method PutBackNoOwner()
      requires pc.Gauging? && pc.c.clients == [] && Countable(selector.jobInfo.ownerInfoMap, pc.c.id)
      modifies this`pc, selector
      ensures View() == Step(cfg, old(View()), Gauge)
      ensures pc == Top
      ensures var before, id := old(selector.chunkQueue), old(pc).c.id;
              && |selector.chunkQueue| == |before| + 1 && selector.chunkQueue[..|before|] == before
              && Tells(selector.chunkQueue[|before|], selector.jobInfo.ownerInfoMap[id.file], NoOwner, id)
    {
      hide Make, Countable, Tells;
      selector.ReportNoOwnerChunk(pc.c.id);
      pc := Top;
    }

    method ReadLoad()
      requires pc.Gauging? && |pc.loads| < |pc.c.clients|
      modifies this`pc
      ensures View() == Step(cfg, old(View()), Gauge)
      ensures var peer := old(pc).c.clients[|old(pc).loads|];
              var load := if peer in sockManager.clientSockMap
                          then |sockManager.clientSockMap[peer]| as real / 10.0 else 100.0;
              pc == Gauging(old(pc).c, old(pc).loads + [load])
    {
      var load := sockManager.GetPayloadPercentage(pc.c.clients[|pc.loads|]);
      pc := Gauging(pc.c, pc.loads + [load]);
    }

    method PickPeer()
      requires pc.Gauging? && |pc.loads| == |pc.c.clients| && pc.loads != []
      modifies this`pc
      ensures View() == Step(cfg, old(View()), Gauge)
      ensures pc.Waiting? && pc.c == old(pc).c
      ensures exists k: nat :: SockPool.IsArgMin(old(pc).loads, k) && pc.peer == pc.c.clients[k]
    {
      hide FirstMin;
      var k := MinElement(pc.loads);
      FirstMinIs(pc.loads, k);
      pc := Waiting(pc.c, pc.c.clients[k]);
    }

    method TakePeerSock(dialed: bool)
      requires pc.Waiting?
      modifies this`pc, this`held, sockManager
      ensures View() == Step(cfg, old(View()), TakeSock(dialed))
      ensures pc == old(pc) || pc == Crashed(old(pc).c)
           || (pc.Ready? && pc.c == old(pc).c && pc.peer == old(pc).peer)
      ensures held == if pc.Ready? then old(held)[pc.sock := pc.peer] else old(held)
      ensures exists r :: SockPool.HandedOut(old(sockManager.View()), old(pc).peer, dialed, sockManager.View(), r)
                          && if r.Taken? then pc.Ready? && pc.sock == r.sock
                             else if r.NullPrototype? || old(pc).peer !in old(sockManager.conditionMap)
                             then pc.Crashed?
                             else pc == old(pc)
    {
      hide SockPool.GetIdle, SockPool.HandedOut;
      var c, peer := pc.c, pc.peer;
      var known := peer in sockManager.conditionMap;
      var taken := sockManager.GetIdleClientSock(peer, dialed);
      if taken.Taken? {
        held := held[taken.sock := peer];
        pc := Ready(c, peer, taken.sock);
      } else if taken.NullPrototype? || !known {
        pc := Crashed(c);
      }
    }

    /** has_local_file for the first entry of a file: its path is among those stored for the file. */
    predicate FirstStored(f: FileId)
      reads this
    {
      f in sameFiles && f in firstEntry && firstEntry[f] in sameFiles[f]
    }

    /** The assertion that the first entry is stored fails; the exception ends the thread. */
    method FailAssertion()
      requires pc.Ready?
      modifies this`pc
      ensures View() == Step(cfg, old(View()), StartAsserts)
      ensures pc == Asserted(old(pc).c, old(pc).peer, old(pc).sock)
    {
      pc := Asserted(pc.c, pc.peer, pc.sock);
    }

    /** A thread is free: the task starts, or creating or starting it throws. */
    method StartTask(starts: bool)
      requires CanStart(cfg, View())
      modifies this`pc, this`tasks, this`meter, this`lost
      ensures View() == Step(cfg, old(View()), if starts then Start else StartThrows)
      ensures pc == Top
      ensures var (c, peer, sock) := (old(pc).c, old(pc).peer, old(pc).sock);
              && tasks == old(tasks) + (if starts then [Task(c.id, peer, sock, Exchanging, [], false, 0, 0)] else [])
              && lost == old(lost) + (if starts then [] else [Lost(c.id, peer, sock)])
    {
      hide Meter.Step, Meter.Active, ValidId, SizeOf;
      if starts {
        tasks := tasks + [NewTask(pc)];
        meter := Meter.Step(cfg.lim, meter, Meter.Begin(SizeOf(cfg, pc.c.id)));
      } else {
        lost := lost + [Lost(pc.c.id, pc.peer, pc.sock)];
      }
      pc := Top;
    }

    method EndJoin()
      requires (pc.Drained? || pc.Removed?) && AllOver(tasks)
      modifies this`pc
      ensures View() == Step(cfg, old(View()), Join)
      ensures pc == Joined(old(pc).Drained?)
    {
      pc := Joined(pc.Drained?);
    }

    // ----- the loop -----

    /** The loop was entered in state `start`. */
    ghost predicate InLoop(start: State) {
      start.pc == Top && GoodLayout(cfg) && Begins(cfg, start)
    }

    /** reinit_file_owner_info: asks the tracker, then connects to and greets every owner it names. */
    method ReinitFileOwnerInfo(ghost start: State) returns (pass: Pass)
      requires Underway(cfg, start, View()) && pc.Popped? && pc.c.status == NoOwner
      modifies this, selector, selector.jobInfo, sockManager
      ensures Underway(cfg, start, View()) && |schedule| <= |old(schedule)|
      ensures pass == Next ==> pc == Gauging(old(pc).c, [])
      ensures pass != Empty && !pc.Asserted?
      ensures (pass == OutOfTurns ==> schedule == []) && (pass == Crash ==> Stuck(View()))
      ensures pass == Next ==>
                old(schedule) != []
                && Answered(old(selector.jobInfo.ownerInfoMap), old(pc).c.id.file, old(schedule)[0].reply,
                            selector.jobInfo.ownerInfoMap)
    {
      hide Leads, SocksOk, Step;
      ghost var c := pc.c;
      ghost var before := selector.jobInfo.ownerInfoMap;
      var turn := NextTurn(start);
      if turn.None? {
        return OutOfTurns;
      }
      UnderwayStep(cfg, start, View(), Refresh(turn.value.reply));
      RequestClients(turn.value.reply);
      if pc.Gauging? {
        return Next;
      }
      while pc.rest != []
        invariant Underway(cfg, start, View()) && |schedule| <= |old(schedule)|
        invariant pc.Refreshing? && pc.c == c && pc.dial == Ask
        invariant Answered(before, c.id.file, turn.value.reply, selector.jobInfo.ownerInfoMap)
        decreases |schedule|
      {
        pass := GreetPeer(start);
        if pass != Next {
          return;
        }
      }
      UnderwayStep(cfg, start, View(), Advance(false));
      AllGreeted();
      pass := Next;
    }

    /** Connects to the next owner, if it is not connected. */
    method DialPeer(ghost start: State) returns (turn: Option<Turn>)
      requires Underway(cfg, start, View()) && pc.Refreshing? && pc.rest != [] && pc.dial == Ask
      modifies this, selector, selector.jobInfo, sockManager
      ensures Underway(cfg, start, View()) && |schedule| <= |old(schedule)| && !pc.Asserted?
      ensures if turn.Some? then pc == old(pc).(dial := Greeting) && |schedule| < |old(schedule)| else schedule == []
      ensures selector.jobInfo.ownerInfoMap == old(selector.jobInfo.ownerInfoMap)
    {
      hide Leads, SocksOk, Step;
      UnderwayStep(cfg, start, View(), Advance(false));
      AskConnected();
      turn := NextTurn(start);
      if turn.Some? && pc.dial == Dialing {
        UnderwayStep(cfg, start, View(), Advance(turn.value.dialed));
        ConnectPeer(turn.value.dialed);
        turn := NextTurn(start);
      }
    }

    /** The handshake with a connected owner. */
    method ShakeHand(dialed: bool, ghost start: State) returns (pass: Pass)
      requires Underway(cfg, start, View()) && pc.Refreshing? && pc.rest != [] && pc.dial == Greeting
      modifies this, selector, selector.jobInfo, sockManager
      ensures Underway(cfg, start, View()) && |schedule| <= |old(schedule)|
      ensures pass == Next ==> pc == Refreshing(old(pc).c, old(pc).rest[1..], Ask)
      ensures pass != Empty && !pc.Asserted?
      ensures (pass == OutOfTurns ==> schedule == []) && (pass == Crash ==> Stuck(View()))
      ensures SameClients(old(selector.jobInfo.ownerInfoMap), old(pc).c.id.file, selector.jobInfo.ownerInfoMap)
    {
      hide Leads, SocksOk, Step, BitmapStored, ClientsOf, SockPool.HandedOut, Countable;
      ghost var c, peer := pc.c, pc.rest[0];
      ghost var before := selector.jobInfo.ownerInfoMap;
      UnderwayStep(cfg, start, View(), Advance(dialed));
      Greet(dialed);
      if pc.Crashed? {
        return Crash;
      }
      var turn := NextTurn(start);
      if turn.None? {
        return OutOfTurns;
      }
      HandHolds(View());
      UnderwayStep(cfg, start, View(), ShakeDone(turn.value.bitmap));
      EndHandshake(turn.value.bitmap);
      if turn.value.bitmap.Some? && c.id.file in before {
        StoredKeepsClients(before[c.id.file], peer, turn.value.bitmap.value, selector.jobInfo.ownerInfoMap[c.id.file]);
      }
      pass := Next;
    }

    /** Connects to the next owner if need be, and shakes hands with it. */
    method GreetPeer(ghost start: State) returns (pass: Pass)
      requires Underway(cfg, start, View()) && pc.Refreshing? && pc.rest != [] && pc.dial == Ask
      modifies this, selector, selector.jobInfo, sockManager
      ensures Underway(cfg, start, View()) && |schedule| <= |old(schedule)|
      ensures pass == Next ==> pc == Refreshing(old(pc).c, old(pc).rest[1..], Ask) && |schedule| < |old(schedule)|
      ensures pass != Empty && !pc.Asserted?
      ensures (pass == OutOfTurns ==> schedule == []) && (pass == Crash ==> Stuck(View()))
      ensures SameClients(old(selector.jobInfo.ownerInfoMap), old(pc).c.id.file, selector.jobInfo.ownerInfoMap)
    {
      hide Leads, SocksOk, Step;
      var turn := DialPeer(start);
      if turn.None? {
        return OutOfTurns;
      }
      pass := ShakeHand(turn.value.dialed, start);
    }

    /** Reads the load of every owner, and picks the first least loaded. */
    method ChoosePeer(ghost start: State) returns (pass: Pass)
      requires Underway(cfg, start, View()) && pc.Gauging? && pc.loads == [] && pc.c.clients != [] && InLoop(start)
      modifies this, selector, selector.jobInfo, sockManager
      ensures Underway(cfg, start, View()) && |schedule| <= |old(schedule)|
      ensures pass == Next ==> pc.Waiting? && pc.c == old(pc).c
      ensures pass != Empty && pass != Crash && !pc.Asserted? && (pass == OutOfTurns ==> schedule == [])
    {
      hide Leads, SocksOk, Step;
      var c := pc.c;
      for i := 0 to |c.clients|
        invariant Underway(cfg, start, View()) && |schedule| <= |old(schedule)|
        invariant pc.Gauging? && pc.c == c && |pc.loads| == i
      {
        var turn := NextTurn(start);
        if turn.None? {
          return OutOfTurns;
        }
        UnderwayStep(cfg, start, View(), Gauge);
        ReadLoad();
      }
      UnderwayStep(cfg, start, View(), Gauge);
      PickPeer();
      pass := Next;
    }

    /** Waits for a socket to the peer. */
    method WaitForSock(ghost start: State) returns (pass: Pass)
      requires Underway(cfg, start, View()) && pc.Waiting? && InLoop(start)
      modifies this, selector, selector.jobInfo, sockManager
      ensures Underway(cfg, start, View()) && |schedule| <= |old(schedule)|
      ensures pass == Next ==> pc.Ready? && pc.c == old(pc).c
      ensures pass != Empty && !pc.Asserted?
      ensures (pass == OutOfTurns ==> schedule == []) && (pass == Crash ==> Stuck(View()))
    {
      hide Leads, SocksOk, Step, GoodLayout, Begins;
      ghost var c := pc.c;
      while pc.Waiting?
        invariant Underway(cfg, start, View()) && |schedule| <= |old(schedule)|
        invariant (pc.Waiting? || pc.Ready?) && pc.c == c
        decreases |schedule|, if pc.Waiting? then 1 else 0
      {
        var turn := NextTurn(start);
        if turn.None? {
          return OutOfTurns;
        }
        UnderwayStep(cfg, start, View(), TakeSock(turn.value.dialed));
        TakePeerSock(turn.value.dialed);
        if pc.Crashed? {
          return Crash;
        }
      }
      pass := Next;
    }

    /** Waits for a free thread. */
    method WaitForThread(ghost start: State) returns (turn: Option<Turn>)
      requires Underway(cfg, start, View()) && pc.Ready? && InLoop(start)
      modifies this, selector, selector.jobInfo, sockManager
      ensures Underway(cfg, start, View()) && |schedule| <= |old(schedule)| && pc == old(pc)
      ensures turn.Some? ==> Meter.Active(meter.slots) < cfg.lim.threads
      ensures turn.None? ==> schedule == []
    {
      hide Leads, SocksOk, Step, GoodLayout, Begins;
      turn := NextTurn(start);
      while turn.Some? && Meter.Active(meter.slots) >= cfg.lim.threads
        invariant Underway(cfg, start, View()) && |schedule| <= |old(schedule)| && pc == old(pc)
        invariant turn.None? ==> schedule == []
        decreases |schedule| + if turn.Some? then 1 else 0
      {
        turn := NextTurn(start);
      }
    }

    /**
     * Takes a socket to the peer, asserts that the first entry of the file is stored, and starts the task on a free
     * thread.
     */
    method Launch(ghost start: State) returns (pass: Pass)
      requires Underway(cfg, start, View()) && pc.Waiting? && InLoop(start)
      modifies this, selector, selector.jobInfo, sockManager
      ensures Underway(cfg, start, View()) && |schedule| <= |old(schedule)|
      ensures pass == Next ==> pc == Top && FirstStored(old(pc).c.id.file)
      ensures pc.Asserted? ==> pass == Crash && !FirstStored(pc.c.id.file)
      ensures pass != Empty
      ensures (pass == OutOfTurns ==> schedule == []) && (pass == Crash ==> Stuck(View()))
    {
      hide Leads, SocksOk, Step, GoodLayout, Begins, Meter.Active, Countable;
      pass := WaitForSock(start);
      if pass != Next {
        return;
      }
      if !FirstStored(pc.c.id.file) {
        UnderwayStep(cfg, start, View(), StartAsserts);
        FailAssertion();
        return Crash;
      }
      var turn := WaitForThread(start);
      if turn.None? {
        return OutOfTurns;
      }
      UnderwayIsGood(cfg, start, View());
      HandValid(cfg, View());
      UnderwayStep(cfg, start, View(), if turn.value.starts then Start else StartThrows);
      StartTask(turn.value.starts);
    }

    /** One pass of the loop after the flags let it through. */
    method OnePass(ghost start: State) returns (pass: Pass)
      requires Underway(cfg, start, View()) && pc == Cleared && InLoop(start)
      modifies this, selector, selector.jobInfo, sockManager
      ensures Underway(cfg, start, View()) && |schedule| <= |old(schedule)|
      ensures pass == Next ==> pc == Top
      ensures pass == Empty ==> pc == Drained
      ensures pc.Asserted? ==> pass == Crash && !FirstStored(pc.c.id.file)
      ensures (pass == OutOfTurns ==> schedule == []) && (pass == Crash ==> Stuck(View()))
    {
      hide Leads, SocksOk, Step, GoodLayout, Begins;
      ghost var before := View();
      var c := TakeChunk();
      ghost var i: nat :| View() == Step(cfg, before, Pop(i));
      UnderwayStep(cfg, start, before, Pop(i));
      if c.None? {
        return Empty;
      }
      if c.value.status == NoOwner {
        pass := ReinitFileOwnerInfo(start);
        if pass != Next {
          return;
        }
      } else {
        UnderwayStep(cfg, start, View(), Refresh([]));
        SkipRefresh();
      }
      if c.value.clients == [] {
        // the bitmap test of the ranking asserts that every listed bitmap is long enough
        if !Countable(selector.jobInfo.ownerInfoMap, c.value.id) {
          return Crash;
        }
        UnderwayStep(cfg, start, View(), Gauge);
        PutBackNoOwner();
        return Next;
      }
      pass := ChoosePeer(start);
      if pass == Next {
        pass := Launch(start);
      }
    }

    /** Leaves the loop on removal or an empty queue, and then waits for every task. */
    method Loop(ghost start: State) returns (end: End)
      requires Underway(cfg, start, View()) && pc == Top && InLoop(start)
      modifies this, selector, selector.jobInfo, sockManager
      ensures Underway(cfg, start, View())
      ensures end.Finished? ==> pc == Joined(end.drained)
      ensures pc.Asserted? ==> end == Aborted && !FirstStored(pc.c.id.file)
      ensures (end == Unfinished ==> schedule == []) && (end == Aborted ==> Stuck(View()))
    {
      hide Leads, SocksOk, Step, GoodLayout, Begins, AllOver, Countable;
      while true
        invariant Underway(cfg, start, View()) && pc == Top
        decreases |schedule|
      {
        var turn := NextTurn(start);
        if turn.None? {
          return Unfinished;
        }
        UnderwayStep(cfg, start, View(), CheckFlags);
        ReadFlags();
        if pc == JobMachine.Removed {
          break;
        }
        if pc == Cleared {
          turn := NextTurn(start);
          if turn.None? {
            return Unfinished;
          }
          var pass := OnePass(start);
          if pass == Empty {
            break;
          } else if pass != Next {
            return if pass == Crash then Aborted else Unfinished;
          }
        }
      }
      while !AllOver(tasks)
        invariant Underway(cfg, start, View()) && (pc == Drained || pc == JobMachine.Removed)
        decreases |schedule|
      {
        var turn := NextTurn(start);
        if turn.None? {
          return Unfinished;
        }
      }
      UnderwayStep(cfg, start, View(), Join);
      EndJoin();
      end := Finished(pc.drained);
    }

    // ----- the whole job -----

    /** What is settled before the job runs: the bits are true of the disk, and every file has been created. */
    ghost predicate Prepared()
      reads this, selector, selector.jobInfo, sockManager
    {
      && GoodLayout(cfg) && SizesFit(cfg) && selector.jobInfo.Valid()
      && Needed(selector.jobInfo.fileids) == cfg.files.Keys
      && Early() && BitsShape(cfg, View().store) && BitsVerified(cfg, View().store)
      && HasFirstPaths(sameFiles, disk) && ListsApart(sameFiles)
    }

    /** The scheduler is at its head, and has not started anything. */
    ghost predicate Early()
      reads this, selector, selector.jobInfo, sockManager
    {
      pc == Top && Untouched(View()) && SocksOk(View())
    }

    /** If the file has no list of owners yet, gives it one, and fills it with what the tracker says. */
    method AskOwners(file: FileId) returns (pass: Pass)
      requires Early()
      modifies this, selector, selector.jobInfo, sockManager
      ensures pass == Next ==> Early()
      ensures pass != Empty && !pc.Asserted?
      ensures (pass == OutOfTurns ==> schedule == []) && (pass == Crash ==> Stuck(View()))
      ensures selector.jobInfo.bitmapMap == old(selector.jobInfo.bitmapMap) && disk == old(disk)
      ensures file in selector.jobInfo.ownerInfoMap
      ensures file in old(selector.jobInfo.ownerInfoMap) ==>
                selector.jobInfo.ownerInfoMap == old(selector.jobInfo.ownerInfoMap)
      ensures file !in old(selector.jobInfo.ownerInfoMap) && pass == Next ==>
                old(schedule) != []
                && Answered(old(selector.jobInfo.ownerInfoMap)[file := []], file, old(schedule)[0].reply,
                            selector.jobInfo.ownerInfoMap)
      ensures old(selector.jobInfo.ownerInfoMap).Keys <= selector.jobInfo.ownerInfoMap.Keys
    {
      hide Untouched, SocksOk, Leads, Step;
      if file in selector.jobInfo.ownerInfoMap {
        return Next;
      }
      selector.jobInfo.ownerInfoMap := selector.jobInfo.ownerInfoMap[file := []];
      pc := Popped(ChunkInfo(NoOwner, ChunkId(file, 0), 0, []));
      ghost var start := View();
      NothingInHand(old(View()), start);
      UnderwayStarts(cfg, start);
      pass := ReinitFileOwnerInfo(start);
      AskingIsCalm(cfg, start, View());
      if pass == Next {
        ghost var asked := View();
        pc := Top;
        NothingInHand(asked, View());
      }
    }

    /** Asks for the owners of every file that has no list of them. */
    method AskAllOwners() returns (pass: Pass)
      requires Early()
      modifies this, selector, selector.jobInfo, sockManager
      ensures pass == Next ==> Early()
      ensures pass != Empty && !pc.Asserted?
      ensures (pass == OutOfTurns ==> schedule == []) && (pass == Crash ==> Stuck(View()))
      ensures selector.jobInfo.bitmapMap == old(selector.jobInfo.bitmapMap) && disk == old(disk)
      ensures pass == Next ==> forall f :: f in selector.jobInfo.fileids ==> f in selector.jobInfo.ownerInfoMap
    {
      var fileids := selector.jobInfo.fileids;
      for k := 0 to |fileids|
        invariant Early()
        invariant selector.jobInfo.bitmapMap == old(selector.jobInfo.bitmapMap) && disk == old(disk)
        invariant forall i :: 0 <= i < k ==> fileids[i] in selector.jobInfo.ownerInfoMap
      {
        pass := AskOwners(fileids[k]);
        if pass != Next {
          return;
        }
      }
      pass := Next;
    }

    /** Fills the queue, after which the loop can begin; false when a bitmap is too short to rank a chunk. */
    method FillQueue() returns (ok: bool)
      requires Prepared()
      modifies selector
      ensures ok <==> AllCountable(selector.jobInfo)
      ensures ok ==> Begins(cfg, View()) && InLoop(View())
      ensures ok ==> AllTell(selector.chunkQueue, selector.jobInfo.ownerInfoMap)
      ensures View() == old(View()).(queue := selector.chunkQueue)
    {
      hide GoodLayout, SizesFit, BitsVerified, SockPool.Inv, Initial, Countable, SocksOk, AllTell;
      ok := AllCountable(selector.jobInfo);
      if ok {
        SocksOutside(View());
        selector.InitQueue();
      }
    }

    /** The disk by path, before the copies are made: what is elsewhere on it, and the downloaded files. */
    method DiskByPath(elsewhere: map<Path, seq<Byte>>) returns (files: map<Path, seq<Byte>>)
      requires HasFirstPaths(sameFiles, disk) && ListsApart(sameFiles)
      ensures ByPath(sameFiles, disk, elsewhere, sameFiles.Keys, files)
    {
      files := elsewhere;
      var todo := sameFiles.Keys;
      while todo != {}
        invariant todo <= sameFiles.Keys
        invariant ByPath(sameFiles, disk, elsewhere, sameFiles.Keys - todo, files)
        decreases todo
      {
        var f :| f in todo;
        FirstsApart(sameFiles, disk, f);
        files := files[sameFiles[f][0] := disk[f]];
        todo := todo - {f};
      }
      assert sameFiles.Keys - {} == sameFiles.Keys;
    }

    /** The end of the job: each file is copied to its other paths. */
    method CopyFiles(elsewhere: map<Path, seq<Byte>>) returns (files: map<Path, seq<Byte>>)
      requires HasFirstPaths(sameFiles, disk) && ListsApart(sameFiles)
      ensures CopiesOf(sameFiles, disk, elsewhere, files)
    {
      hide HasFirstPaths, ListsApart, CopiesOf, Copied;
      var before := DiskByPath(elsewhere);
      ReadyToCopy(sameFiles, disk, elsewhere, before);
      files := CopySameFiles(sameFiles, before);
      CopiesMade(sameFiles, disk, elsewhere, before, files);
    }

    /**
     * The whole job, whatever the other threads and the network do. In the end every set bit is true of the disk
     * exactly if the file was long enough for its chunk at the start; no file has changed its length. When the job
     * has finished, it is complete exactly when the queue is empty and no start failed, and every path of a file
     * holds what was downloaded. It is aborted with a chunk and a socket in hand only for a file whose first entry
     * is not stored.
     */
    method Run(elsewhere: map<Path, seq<Byte>>) returns (end: End, files: map<Path, seq<Byte>>)
      requires Prepared()
      modifies this, selector, selector.jobInfo, sockManager
      ensures end.Finished? ==> Reachable(cfg, View()) && pc == Joined(end.drained)
      ensures end.Finished? ==> (Complete(cfg, View()) <==> selector.chunkQueue == [] && lost == [])
      ensures end == Finished(true) ==> forall c :: c in selector.chunkQueue ==> c.status == Failed
      ensures end.Finished? ==> HasFirstPaths(sameFiles, disk) && CopiesOf(sameFiles, disk, elsewhere, files)
      ensures BitsVerified(cfg, View().store) && SameFiles(old(disk), disk)
      ensures BitsTrueIff(cfg, old(View()).store, View().store)
      ensures end == Unfinished ==> schedule == []
      ensures end == Aborted ==> Stuck(View()) || (selector.jobInfo.Valid() && !AllCountable(selector.jobInfo))
      ensures pc.Asserted? ==> end == Aborted && !FirstStored(pc.c.id.file)
    {
      hide Leads, GoodLayout, SizesFit, Reachable, Complete, BitsVerified, SockPool.Inv, Initial, SocksOk, Untouched,
        HasFirstPaths, ListsApart, CopiesOf, Begins, Countable, BitsShape, Good, SameFiles, BitsTrueIff;
      files := elsewhere;
      ghost var store := View().store;
      SameIsSame(disk);
      var pass := AskAllOwners();
      SameBitsVerified(cfg, store, View().store);
      BitsAreTrueIff(cfg, store, View().store);
      if pass != Next {
        return if pass == OutOfTurns then Unfinished else Aborted, files;
      }
      var ok := FillQueue();
      if !ok {
        return Aborted, files;
      }
      ghost var start := View();
      BeginsSocksOk(cfg, start);
      UnderwayStarts(cfg, start);
      end := Loop(start);
      UnderwayIsGood(cfg, start, View());
      GoodIsAccounted(cfg, View());
      UnderwayKeepsFiles(cfg, start, View());
      BitsAreTrueIff(cfg, store, View().store);
      FirstPathsStay(sameFiles, store.disk, disk);
      if end.Finished? {
        JoinedCompleteIff(cfg, View());
        files := CopyFiles(elsewhere);
      }
    }
  }

  /** An assertion of the scheduler has failed, the one on the bitmap test in the ranking included. */
  predicate Stuck(s: State) {
    || s.pc.Crashed? || s.pc.Asserted?
    || (s.pc.Gauging? && s.pc.c.clients == [] && !Countable(s.store.owners, s.pc.c.id))
  }

  function ClientsOf(list: seq<Owner>): seq<ClientId> {
    seq(|list|, i requires 0 <= i < |list| => list[i].client)
  }

  /** The owners of the file are still the same clients, and those of other files have not changed. */
  ghost predicate SameClients(before: Owners, f: FileId, after: Owners) {
    && after.Keys == before.Keys
    && (f in before ==> ClientsOf(after[f]) == ClientsOf(before[f]))
    && (forall g :: g in before && g != f ==> after[g] == before[g])
  }

  /** The tracker's answer names the owners of the file from now on; an empty answer leaves them as they were. */
  ghost predicate Answered(before: Owners, f: FileId, reply: seq<ClientId>, after: Owners) {
    if reply == [] then after == before
    else
      && after.Keys == before.Keys + {f} && ClientsOf(after[f]) == reply
      && (forall g :: g in before && g != f ==> after[g] == before[g])
  }

  lemma StoredKeepsClients(list: seq<Owner>, client: ClientId, bitmap: seq<bool>, after: seq<Owner>)
    requires BitmapStored(list, client, bitmap, after)
    ensures ClientsOf(after) == ClientsOf(list)
  {
    forall i: nat | i < |list| ensures after[i].client == list[i].client {
    }
  }

  /** Every set bit is true of the disk exactly if the files were long enough for its chunk before. */
  ghost predicate BitsTrueIff(cfg: Config, before: Store, after: Store) {
    forall id :: ValidId(cfg, id) && IsSet(after, id) ==>
                   (TrueOfDisk(cfg, after, id) <==> LongEnough(cfg, before, id))
  }

  lemma BitsAreTrueIff(cfg: Config, before: Store, after: Store)
    requires BitsVerified(cfg, after) && SameFiles(before.disk, after.disk)
    ensures BitsTrueIff(cfg, before, after)
  {
    hide OffsetOf, SizeOf, ValidId, ChecksumOf, Verified;
    forall id | ValidId(cfg, id) && IsSet(after, id)
      ensures TrueOfDisk(cfg, after, id) <==> LongEnough(cfg, before, id)
    {
      if LongEnough(cfg, after, id) {
        VerifiedIsTrue(cfg, after, id);
      }
    }
  }

  lemma SameIsSame(disk: map<FileId, seq<Byte>>)
    ensures SameFiles(disk, disk)
  {
  }

  /** A file in the scheduler's hand, and no socket. */
  lemma NothingInHand(s: State, u: State)
    requires SocksOk(s) && Untouched(s) && !HasSock(s.pc) && !HasSock(u.pc)
    requires u == s.(pc := u.pc, store := u.store)
    ensures SocksOk(u) && Untouched(u)
  {
    hide SocksOk;
    QuietHand(s, u);
  }

  lemma SameBitsVerified(cfg: Config, before: Store, after: Store)
    requires BitsVerified(cfg, before) && after.bits == before.bits && after.disk == before.disk
    ensures BitsVerified(cfg, after) && (BitsShape(cfg, before) ==> BitsShape(cfg, after))
  {
    hide OffsetOf, SizeOf, ChecksumOf, ValidId;
  }

  /** The missing chunks can all be ranked: every listed owner has sent a bitmap that is long enough. */
  predicate AllCountable(info: JobInfo)
    requires info.Valid()
    reads info
  {
    forall f | f in info.fileids :: forall n | 0 <= n < info.chunkCount[f] ::
      info.bitmapMap[f][n] || Countable(info.ownerInfoMap, ChunkId(f, n))
  }

  /** There is one position that min_element can return. */
  lemma FirstMinIs(loads: seq<real>, k: nat)
    requires loads != [] && SockPool.IsArgMin(loads, k)
    ensures FirstMin(loads) == k
  {
    hide FirstMin;
    var m := FirstMin(loads);
    assert loads[m] <= loads[k] && loads[k] <= loads[m];
  }

  lemma TakenOut(q: seq<ChunkInfo>, i: nat)
    requires IsTop(q, i)
    ensures multiset(q) == multiset(Without(q, i)) + multiset{q[i]}
    ensures forall d :: d in q ==> d.priority <= q[i].priority
  {
    Bags.RemoveAt(q, i);
  }

  lemma StoredMeans(list: seq<Owner>, client: ClientId, bitmap: seq<bool>, after: seq<Owner>)
    requires BitmapStored(list, client, bitmap, after)
    ensures |after| == |list| && forall i :: 0 <= i < |list| ==> after[i].client == list[i].client
    ensures forall i: nat :: i < |list| ==>
              after[i].bitmap == if FirstAt(list, client, i) then bitmap else list[i].bitmap
    ensures (forall i :: 0 <= i < |list| ==> list[i].client != client) ==> after == list
  {
  }

  /** find_if for the peer. */
  method FindOwner(list: seq<Owner>, client: ClientId) returns (i: nat)
    ensures i <= |list| && (forall j :: 0 <= j < i ==> list[j].client != client)
    ensures i < |list| ==> list[i].client == client
  {
    i := 0;
    while i < |list| && list[i].client != client
      invariant i <= |list| && forall j :: 0 <= j < i ==> list[j].client != client
    {
      i := i + 1;
    }
  }

  lemma StoredAt(list: seq<Owner>, client: ClientId, bitmap: seq<bool>, i: nat)
    requires i <= |list| && (forall j :: 0 <= j < i ==> list[j].client != client)
    requires i < |list| ==> list[i].client == client
    ensures SetBitmap(list, client, bitmap) == if i < |list| then list[i := Owner(client, bitmap)] else list
  {
    var after := SetBitmap(list, client, bitmap);
    SetBitmapStores(list, client, bitmap);
    forall k: nat | k < |list| ensures after[k] == if k == i then Owner(client, bitmap) else list[k] {
    }
  }

  /** Its bitmap is replaced; nothing else changes. */
  method StoreBitmap(list: seq<Owner>, client: ClientId, bitmap: seq<bool>) returns (r: seq<Owner>)
    ensures r == SetBitmap(list, client, bitmap)
    ensures |r| == |list| && forall i :: 0 <= i < |list| ==> r[i].client == list[i].client
    ensures forall i: nat :: i < |list| ==>
              r[i].bitmap == if FirstAt(list, client, i) then bitmap else list[i].bitmap
    ensures (forall i :: 0 <= i < |list| ==> list[i].client != client) ==> r == list
  {
    hide FirstAt, BitmapStored, SetBitmap;
    r := list;
    var i := FindOwner(list, client);
    StoredAt(list, client, bitmap, i);
    if i < |list| {
      r := list[i := list[i].(bitmap := bitmap)];
    }
    SetBitmapStores(list, client, bitmap);
    StoredMeans(list, client, bitmap, r);
  }
}
