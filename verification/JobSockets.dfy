// Sockets are exclusive: on every run of JobMachine each socket handed out by the pool has exactly
// one holder, and a task gives its socket back once, for the peer it was taken for.
module JobSockets {
  import opened Prelude
  import opened Bags
  import opened ChunkQueue
  import opened JobMachine
  import opened JobFrames
  import Meter
  import SockPool

  function Keeps(t: Task, x: Sock): nat {
    if !t.phase.Over? && t.sock == x then 1 else 0
  }

  function Keeping(tasks: seq<Task>, x: Sock): seq<nat> {
    seq(|tasks|, i requires 0 <= i < |tasks| => Keeps(tasks[i], x))
  }

  function InHand(pc: Pc, x: Sock): nat {
    if HasSock(pc) && pc.sock == x then 1 else 0
  }

  function Stray(lost: seq<Lost>, x: Sock): seq<nat> {
    seq(|lost|, i requires 0 <= i < |lost| => if lost[i].sock == x then 1 else 0)
  }

  function Elsewhere(outside: set<Sock>, x: Sock): nat {
    if x in outside then 1 else 0
  }

  /** How many holders a socket has: the scheduler, unfinished tasks, failed starts, other users. */
  function Holders(s: State, x: Sock): nat {
    InHand(s.pc, x) + Sum(Keeping(s.tasks, x)) + Sum(Stray(s.lost, x)) + Elsewhere(s.socks.outside, x)
  }

  predicate HeldFor(net: SockPool.Net, x: Sock, c: ClientId) {
    x in net.held && net.held[x] == c
  }

  ghost predicate OneHolder(s: State) {
    forall x :: Holders(s, x) == if x in s.socks.net.held then 1 else 0
  }

  /** Who holds a socket knows the peer it belongs to. */
  ghost predicate PeersKnown(s: State) {
    && (HasSock(s.pc) ==> HeldFor(s.socks.net, s.pc.sock, s.pc.peer))
    && (forall i :: 0 <= i < |s.tasks| && !s.tasks[i].phase.Over? ==>
                      HeldFor(s.socks.net, s.tasks[i].sock, s.tasks[i].peer))
  }

  ghost predicate SocksOk(s: State) {
    SockPool.Inv(s.socks.net) && OneHolder(s) && PeersKnown(s)
  }

  // ----- pool calls seen by their holders -----

  lemma TakeHeld(net: SockPool.Net, c: ClientId, dialed: bool)
    requires SockPool.Inv(net)
    ensures var next := SockPool.Step(net, SockPool.Take(c, dialed));
            var taken := SockPool.GetIdle(net.pool, c, dialed).1;
            && SockPool.Inv(next) && !taken.NullPrototype?
            && (taken.Taken? ==> taken.sock !in net.held && next.held == net.held[taken.sock := c])
            && (!taken.Taken? ==> next.held == net.held)
  {
    SockPool.TakeKeeps(net, c, dialed);
    hide SockPool.Inv, SockPool.GetIdle;
  }

  lemma GiveBackHeld(net: SockPool.Net, c: ClientId, x: Sock)
    requires SockPool.Inv(net) && HeldFor(net, x, c)
    ensures var next := SockPool.Step(net, SockPool.GiveBack(c, x));
            SockPool.Inv(next) && next.held == net.held - {x}
  {
    SockPool.GiveBackKeeps(net, c, x);
    hide SockPool.Inv, SockPool.ReturnSock;
  }

  lemma ConnectHeld(net: SockPool.Net, c: ClientId, dialed: bool)
    requires SockPool.Inv(net)
    ensures var next := SockPool.Step(net, SockPool.Connect(c, dialed));
            SockPool.Inv(next) && next.held == net.held
  {
    SockPool.ConnectKeeps(net, c, dialed);
    hide SockPool.Inv, SockPool.ConnectClient;
  }

  // ----- exclusivity -----

  lemma KeepingUpdate(tasks: seq<Task>, t: nat, task: Task, x: Sock)
    requires t < |tasks|
    ensures Keeps(tasks[t], x) <= Sum(Keeping(tasks, x))
    ensures Sum(Keeping(tasks[t := task], x)) == Sum(Keeping(tasks, x)) - Keeps(tasks[t], x) + Keeps(task, x)
  {
    SumUpdate(Keeping(tasks, x), t, Keeps(task, x));
    assert Keeping(tasks[t := task], x) == Keeping(tasks, x)[t := Keeps(task, x)];
  }

  lemma HoldersAre(s: State, x: Sock)
    ensures Holders(s, x) ==
            InHand(s.pc, x) + Sum(Keeping(s.tasks, x)) + Sum(Stray(s.lost, x)) + Elsewhere(s.socks.outside, x)
  {
  }

  /** No two unfinished tasks share a socket. */
  lemma TasksExclusive(s: State, i: nat, j: nat)
    requires OneHolder(s)
    requires i < j < |s.tasks| && !s.tasks[i].phase.Over? && !s.tasks[j].phase.Over?
    ensures s.tasks[i].sock != s.tasks[j].sock
  {
    var x := s.tasks[i].sock;
    if s.tasks[j].sock == x {
      SumPair(Keeping(s.tasks, x), i, j);
      HoldersAre(s, x);
      assert false;
    }
  }

  /** A socket held by an unfinished task is in nobody else's hands. */
  lemma TaskHoldsAlone(s: State, i: nat)
    requires OneHolder(s) && i < |s.tasks| && !s.tasks[i].phase.Over?
    ensures HasSock(s.pc) ==> s.pc.sock != s.tasks[i].sock
    ensures s.tasks[i].sock !in s.socks.outside
    ensures forall j :: 0 <= j < |s.tasks| && j != i && !s.tasks[j].phase.Over? ==>
                          s.tasks[j].sock != s.tasks[i].sock
  {
    var x := s.tasks[i].sock;
    KeepingUpdate(s.tasks, i, s.tasks[i], x);
    assert Holders(s, x) <= 1;
    HoldersAre(s, x);
    forall j | 0 <= j < |s.tasks| && j != i && !s.tasks[j].phase.Over?
      ensures s.tasks[j].sock != x
    {
      if i < j {
        TasksExclusive(s, i, j);
      } else {
        TasksExclusive(s, j, i);
      }
    }
  }

  lemma HandHoldsAlone(s: State)
    requires OneHolder(s) && HasSock(s.pc)
    ensures s.pc.sock !in s.socks.outside
    ensures forall j :: 0 <= j < |s.tasks| && !s.tasks[j].phase.Over? ==> s.tasks[j].sock != s.pc.sock
  {
    var x := s.pc.sock;
    assert Holders(s, x) <= 1;
    HoldersAre(s, x);
    forall j | 0 <= j < |s.tasks| && !s.tasks[j].phase.Over? ensures s.tasks[j].sock != x {
      TaskHoldsAlone(s, j);
    }
  }

  lemma OutsideHoldsAlone(s: State, x: Sock)
    requires OneHolder(s) && x in s.socks.outside
    ensures x in s.socks.net.held
    ensures HasSock(s.pc) ==> s.pc.sock != x
    ensures forall j :: 0 <= j < |s.tasks| && !s.tasks[j].phase.Over? ==> s.tasks[j].sock != x
  {
    assert Holders(s, x) <= 1;
    HoldersAre(s, x);
    forall j | 0 <= j < |s.tasks| && !s.tasks[j].phase.Over? ensures s.tasks[j].sock != x {
      TaskHoldsAlone(s, j);
    }
  }

  // ----- steps -----

  lemma TaskStepSocks(cfg: Config, s: State, t: nat, m: TaskMove)
    requires t < |s.tasks| && !m.Release?
    ensures var u := TaskStep(cfg, s, t, m);
            u.tasks[t].phase.Over? <==> s.tasks[t].phase.Over?
  {
    hide Meter.Step, SockPool.Step, Overwrite, SetBit, Make, Countable;
  }

  lemma QuietTaskKeepsSocks(cfg: Config, s: State, t: nat, m: TaskMove)
    requires t < |s.tasks| && !m.Release? && SocksOk(s)
    ensures SocksOk(TaskStep(cfg, s, t, m))
  {
    hide TaskStep, SockPool.Inv, Keeping, Stray, Sum;
    var u := TaskStep(cfg, s, t, m);
    TaskStepFrame(cfg, s, t, m);
    TaskStepOwn(cfg, s, t, m);
    TaskStepSocks(cfg, s, t, m);
    forall x ensures Holders(u, x) == Holders(s, x) {
      KeepingUpdate(s.tasks, t, u.tasks[t], x);
    }
  }

  lemma ReleaseShape(cfg: Config, s: State, t: nat)
    requires t < |s.tasks| && s.tasks[t].phase.Settled?
    ensures var u := ReleaseStep(cfg, s, t);
            && u.tasks == s.tasks[t := s.tasks[t].(phase := Over)]
            && u.pc == s.pc && u.lost == s.lost && u.socks.outside == s.socks.outside
            && u.socks.net == SockPool.Step(s.socks.net, SockPool.GiveBack(s.tasks[t].peer, s.tasks[t].sock))
  {
    hide Meter.Step, SockPool.Step;
  }

  /** onFinished gives the task's socket back, and it is still the task's to give. */
  lemma ReleaseKeepsSocks(cfg: Config, s: State, t: nat)
    requires t < |s.tasks| && SocksOk(s) && s.tasks[t].phase.Settled?
    ensures SocksOk(ReleaseStep(cfg, s, t))
  {
    hide ReleaseStep, SockPool.Inv, SockPool.Step, Keeping, Stray, Sum;
    var u, task := ReleaseStep(cfg, s, t), s.tasks[t];
    ReleaseShape(cfg, s, t);
    GiveBackHeld(s.socks.net, task.peer, task.sock);
    TaskHoldsAlone(s, t);
    forall x ensures Holders(u, x) == if x in u.socks.net.held then 1 else 0 {
      KeepingUpdate(s.tasks, t, u.tasks[t], x);
      assert Holders(s, x) == if x in s.socks.net.held then 1 else 0;
    }
  }

  lemma OutsideKeepsSocks(s: State, op: SockPool.Op)
    requires SocksOk(s)
    ensures SocksOk(OutsideStep(s, op))
  {
    var u := OutsideStep(s, op);
    match op
    case Connect(c, dialed) =>
      ConnectHeld(s.socks.net, c, dialed);
      hide SockPool.Inv, SockPool.Step, SockPool.GetIdle;
      assert forall x :: Holders(u, x) == Holders(s, x);
    case Take(c, dialed) =>
      TakeHeld(s.socks.net, c, dialed);
      OutsideTakeKeeps(s, c, dialed);
    case GiveBack(c, x) =>
      if x in s.socks.outside && HeldFor(s.socks.net, x, c) {
        GiveBackHeld(s.socks.net, c, x);
        OutsideHoldsAlone(s, x);
        OutsideGiveBackKeeps(s, c, x);
      }
  }

  lemma OutsideTakeKeeps(s: State, c: ClientId, dialed: bool)
    requires SocksOk(s)
    ensures SocksOk(OutsideStep(s, SockPool.Take(c, dialed)))
  {
    hide SockPool.Inv, SockPool.Step, SockPool.GetIdle, Keeping, Stray, Sum;
    var u := OutsideStep(s, SockPool.Take(c, dialed));
    TakeHeld(s.socks.net, c, dialed);
    forall x ensures Holders(u, x) == if x in u.socks.net.held then 1 else 0 {
      assert Holders(s, x) == if x in s.socks.net.held then 1 else 0;
    }
  }

  lemma OutsideGiveBackKeeps(s: State, c: ClientId, y: Sock)
    requires SocksOk(s) && y in s.socks.outside && HeldFor(s.socks.net, y, c)
    ensures SocksOk(OutsideStep(s, SockPool.GiveBack(c, y)))
  {
    hide SockPool.Inv, SockPool.Step, SockPool.ReturnSock, Keeping, Stray, Sum;
    var u := OutsideStep(s, SockPool.GiveBack(c, y));
    GiveBackHeld(s.socks.net, c, y);
    OutsideHoldsAlone(s, y);
    forall x ensures Holders(u, x) == if x in u.socks.net.held then 1 else 0 {
      assert Holders(s, x) == if x in s.socks.net.held then 1 else 0;
    }
  }

  /** A scheduler step in which the hand gets a socket that the pool hands out, or none. */
  lemma HandTakes(s: State, u: State, c: ClientId, dialed: bool)
    requires SocksOk(s) && !HasSock(s.pc)
    requires u.tasks == s.tasks && u.lost == s.lost && u.socks.outside == s.socks.outside
    requires u.socks.net == SockPool.Step(s.socks.net, SockPool.Take(c, dialed))
    requires var taken := SockPool.GetIdle(s.socks.net.pool, c, dialed).1;
             HasSock(u.pc) == taken.Taken? && (taken.Taken? ==> u.pc.sock == taken.sock && u.pc.peer == c)
    ensures SocksOk(u)
  {
    hide SockPool.Inv, SockPool.Step, SockPool.GetIdle, Keeping, Stray, Sum;
    TakeHeld(s.socks.net, c, dialed);
    forall x ensures Holders(u, x) == if x in u.socks.net.held then 1 else 0 {
      assert Holders(s, x) == if x in s.socks.net.held then 1 else 0;
    }
  }

  lemma HandGivesBack(s: State, u: State)
    requires SocksOk(s) && HasSock(s.pc) && !HasSock(u.pc)
    requires u.tasks == s.tasks && u.lost == s.lost && u.socks.outside == s.socks.outside
    requires u.socks.net == SockPool.Step(s.socks.net, SockPool.GiveBack(s.pc.peer, s.pc.sock))
    ensures SocksOk(u)
  {
    hide SockPool.Inv, SockPool.Step, Keeping, Stray, Sum;
    GiveBackHeld(s.socks.net, s.pc.peer, s.pc.sock);
    HandHoldsAlone(s);
    forall x ensures Holders(u, x) == if x in u.socks.net.held then 1 else 0 {
      assert Holders(s, x) == if x in s.socks.net.held then 1 else 0;
    }
  }

  lemma HandKeeps(s: State, u: State)
    requires SocksOk(s) && !HasSock(s.pc) && !HasSock(u.pc)
    requires u.tasks == s.tasks && u.lost == s.lost && u.socks.outside == s.socks.outside
    requires SockPool.Inv(u.socks.net) && u.socks.net.held == s.socks.net.held
    ensures SocksOk(u)
  {
    hide SockPool.Inv;
    assert forall x :: Holders(u, x) == Holders(s, x);
  }

  lemma AdvanceKeepsSocks(s: State, dialed: bool)
    requires SocksOk(s)
    ensures SocksOk(AdvanceStep(s, dialed))
  {
    var u := AdvanceStep(s, dialed);
    if s.pc.Refreshing? && s.pc.rest != [] {
      var peer := s.pc.rest[0];
      hide SockPool.Inv, SockPool.Step, SockPool.GetIdle, SocksOk;
      match s.pc.dial
      case Ask => QuietHand(s, u);
      case Dialing => DialKeeps(s, dialed);
      case Greeting => GreetKeeps(s, dialed);
    } else {
      hide SockPool.Inv, SockPool.Step, SockPool.GetIdle, SocksOk;
      QuietHand(s, u);
    }
  }

  /** A step that leaves the pool and the socket in hand alone. */
  lemma QuietHand(s: State, u: State)
    requires SocksOk(s)
    requires HasSock(u.pc) == HasSock(s.pc) && (HasSock(s.pc) ==> u.pc.sock == s.pc.sock && u.pc.peer == s.pc.peer)
    requires u.tasks == s.tasks && u.lost == s.lost && u.socks == s.socks
    ensures SocksOk(u)
  {
    hide SockPool.Inv;
    assert forall x :: Holders(u, x) == Holders(s, x);
  }

  lemma DialKeeps(s: State, dialed: bool)
    requires SocksOk(s) && s.pc.Refreshing? && s.pc.rest != [] && s.pc.dial == Dialing
    ensures SocksOk(AdvanceStep(s, dialed))
  {
    ConnectHeld(s.socks.net, s.pc.rest[0], dialed);
    hide SockPool.Inv, SockPool.Step;
    HandKeeps(s, AdvanceStep(s, dialed));
    hide SocksOk;
  }

  lemma GreetKeeps(s: State, dialed: bool)
    requires SocksOk(s) && s.pc.Refreshing? && s.pc.rest != []
    ensures SocksOk(GreetStep(s, dialed))
  {
    var u := GreetStep(s, dialed);
    hide SockPool.Inv, SockPool.Step, SockPool.GetIdle, SocksOk;
    if SockPool.IsConnected(s.socks.net.pool, s.pc.rest[0]) {
      HandTakes(s, u, s.pc.rest[0], dialed);
    } else {
      QuietHand(s, u);
    }
  }

  lemma ShakeDoneKeepsSocks(s: State, bitmap: Option<seq<bool>>)
    requires SocksOk(s)
    ensures SocksOk(ShakeDoneStep(s, bitmap))
  {
    hide SockPool.Inv, SockPool.Step, SetBitmap, SocksOk;
    if s.pc.Shaking? {
      HandGivesBack(s, ShakeDoneStep(s, bitmap));
    }
  }

  lemma TakeSockKeepsSocks(s: State, dialed: bool)
    requires SocksOk(s)
    ensures SocksOk(TakeSockStep(s, dialed))
  {
    hide SockPool.Inv, SockPool.Step, SockPool.GetIdle, SocksOk;
    if s.pc.Waiting? {
      HandTakes(s, TakeSockStep(s, dialed), s.pc.peer, dialed);
    }
  }

  lemma KeepingAppend(tasks: seq<Task>, task: Task, x: Sock)
    ensures Sum(Keeping(tasks + [task], x)) == Sum(Keeping(tasks, x)) + Keeps(task, x)
  {
    SumAppend(Keeping(tasks, x), Keeps(task, x));
    assert Keeping(tasks + [task], x) == Keeping(tasks, x) + [Keeps(task, x)];
  }

  lemma StrayAppend(lost: seq<Lost>, l: Lost, x: Sock)
    ensures Sum(Stray(lost + [l], x)) == Sum(Stray(lost, x)) + if l.sock == x then 1 else 0
  {
    var one: nat := if l.sock == x then 1 else 0;
    SumAppend(Stray(lost, x), one);
    assert Stray(lost + [l], x) == Stray(lost, x) + [one];
  }

  /** The socket in hand becomes the new task's. */
  lemma StartKeepsSocks(cfg: Config, s: State)
    requires SocksOk(s)
    ensures SocksOk(StartStep(cfg, s))
  {
    hide Meter.Step, Meter.Active, SockPool.Inv, Keeping, Stray, Sum;
    var u := StartStep(cfg, s);
    if CanStart(cfg, s) {
      var task := NewTask(s.pc);
      forall x ensures Holders(u, x) == Holders(s, x) {
        KeepingAppend(s.tasks, task, x);
      }
    }
  }

  lemma StartThrowsKeepsSocks(s: State)
    requires SocksOk(s)
    ensures SocksOk(StartThrowsStep(s))
  {
    hide SockPool.Inv, Keeping, Stray, Sum;
    var u := StartThrowsStep(s);
    if s.pc.Ready? {
      var l := Lost(s.pc.c.id, s.pc.peer, s.pc.sock);
      forall x ensures Holders(u, x) == Holders(s, x) {
        StrayAppend(s.lost, l, x);
      }
    }
  }

  lemma OtherStepKeepsSocks(cfg: Config, s: State, a: Action)
    requires SocksOk(s) && !a.Run?
    ensures SocksOk(Step(cfg, s, a))
  {
    hide SocksOk;
    if a.Outside? {
      OutsideKeepsSocks(s, a.op);
    } else if a.Advance? {
      AdvanceKeepsSocks(s, a.dialed);
    } else if a.ShakeDone? {
      ShakeDoneKeepsSocks(s, a.bitmap);
    } else if a.TakeSock? {
      TakeSockKeepsSocks(s, a.dialed);
    } else if a.Start? {
      StartKeepsSocks(cfg, s);
    } else if a.StartThrows? {
      StartThrowsKeepsSocks(s);
    } else {
      OtherStepSocks(cfg, s, a);
      OtherStepTasks(cfg, s, a);
      OtherStepQueue(cfg, s, a);
      hide Step;
      QuietHand(s, Step(cfg, s, a));
    }
  }

  lemma TaskStepKeepsSocks(cfg: Config, s: State, t: nat, m: TaskMove)
    requires t < |s.tasks| && SocksOk(s)
    ensures SocksOk(TaskStep(cfg, s, t, m))
  {
    hide SocksOk, Meter.Step, SockPool.Step;
    if !m.Release? {
      QuietTaskKeepsSocks(cfg, s, t, m);
    } else if s.tasks[t].phase.Settled? {
      ReleaseKeepsSocks(cfg, s, t);
    }
  }

  lemma StepKeepsSocks(cfg: Config, s: State, a: Action)
    requires SocksOk(s)
    ensures SocksOk(Step(cfg, s, a))
  {
    hide SocksOk, TaskStep;
    if a.Run? {
      if a.t < |s.tasks| {
        TaskStepKeepsSocks(cfg, s, a.t, a.m);
      }
    } else {
      OtherStepKeepsSocks(cfg, s, a);
    }
  }
}
