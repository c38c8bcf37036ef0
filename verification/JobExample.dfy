// A run that ends too early: the queue is empty while a task is still under way, the loop is left, and when
// that task then fails its chunk goes back into a queue that nobody reads (client/src/job.cc:187-190, 281).
module JobExample {
  import opened Prelude
  import opened ChunkQueue
  import opened JobMachine
  import opened JobSafety
  import opened JobTheorems
  import Layout
  import Meter
  import SockPool

  const ID := ChunkId("f", 0)

  function OneChunk(hash: Layout.Hash): Config {
    Config(map["f" := [Layout.Chunk("d", 1)]], hash, Meter.Limits(10, 1, 4), n => n)
  }

  const PEER := [Owner("p", [true])]
  const ENTRY := ChunkInfo(Free, ID, HIGHEST - 1, ["p"])

  function Idle(): SockPool.Net {
    SockPool.Net(SockPool.Pool(map["p" := [SockPool.Entry(Some(0), SockPool.Idle)]], {"p"}, 1), map[])
  }

  /** One missing chunk, one peer that has it, one idle socket to that peer. */
  function Beginning(): State {
    State(Top, [ENTRY], [], [], Store(map["f" := [false]], map["f" := [0]], map["f" := PEER]), Socks(Idle(), {}),
          Meter.START, Flags(false, false, false))
  }

  lemma Ranked()
    ensures Countable(map["f" := PEER], ID) && Make(map["f" := PEER], Free, ID) == ENTRY
    ensures Make(map["f" := PEER], Failed, ID) == ChunkInfo(Failed, ID, HIGHEST - 1 - NORMAL, ["p"])
  {
    assert PEER[..0] == [];
    assert Holders(PEER[..0], 0) == [];
    assert Holders(PEER, 0) == ["p"];
  }

  lemma PoolIsFine()
    ensures SockPool.Inv(Idle())
  {
  }

  lemma QueueIsFine()
    ensures Initial([ENTRY], {"f"}, map["f" := [false]], map["f" := PEER])
  {
    Ranked();
    assert Ids([ENTRY]) == [ID];
    forall id: ChunkId | id.file == "f" && id.num < 1 ensures id == ID {
    }
  }

  lemma ItBegins(hash: Layout.Hash)
    ensures GoodLayout(OneChunk(hash)) && Begins(OneChunk(hash), Beginning())
  {
    hide SockPool.Inv, Initial;
    PoolIsFine();
    QueueIsFine();
    var cfg := OneChunk(hash);
    assert cfg.files.Keys == {"f"};
    ClearBitsAreTrue(cfg, Beginning().store);
  }

  /** The pool while the socket is handed out. */
  function InUse(): SockPool.Pool {
    Idle().pool.(lists := map["p" := [SockPool.Entry(Some(0), SockPool.Used)]])
  }

  /** The one chunk has been handed to a task, and the scheduler is back at the head of its loop. */
  function Started(): State {
    Beginning().(queue := [], tasks := [Task(ID, "p", 0, Exchanging, [], false, 0, 0)],
                 socks := Socks(SockPool.Net(InUse(), map[0 := "p"]), {}),
                 meter := Meter.START.(slots := [Meter.Loop(1)]))
  }

  /** The task has failed after the loop was left. */
  function Ended(): State {
    Beginning().(pc := Joined(true), queue := [ChunkInfo(Failed, ID, HIGHEST - 1 - NORMAL, ["p"])],
                 tasks := [Task(ID, "p", 0, Over, [], true, 0, 1)], meter := Meter.START.(slots := [Meter.Off]))
  }

  lemma Pops(hash: Layout.Hash)
    ensures var cfg := OneChunk(hash);
            Step(cfg, Step(cfg, Beginning(), CheckFlags), Pop(0)) == Beginning().(pc := Popped(ENTRY), queue := [])
  {
    assert IsTop([ENTRY], 0) && Without([ENTRY], 0) == [];
  }

  lemma Gauges(hash: Layout.Hash)
    ensures var cfg := OneChunk(hash);
            var s := Beginning().(pc := Popped(ENTRY), queue := []);
            Step(cfg, Step(cfg, Step(cfg, s, Refresh([])), Gauge), Gauge) == s.(pc := Waiting(ENTRY, "p"))
  {
    var load := SockPool.Load(Idle().pool, "p");
    assert [] + [load] == [load];
    assert FirstMin([load]) == 0;
  }

  lemma Starts(hash: Layout.Hash)
    ensures var cfg := OneChunk(hash);
            var s := Beginning().(pc := Waiting(ENTRY, "p"), queue := []);
            Step(cfg, Step(cfg, s, TakeSock(true)), Start) == Started()
  {
    var cfg := OneChunk(hash);
    var s := Beginning().(pc := Waiting(ENTRY, "p"), queue := []);
    var list := [SockPool.Entry(Some(0), SockPool.Idle)];
    assert SockPool.FirstIdle(list) == 0;
    assert list[0 := list[0].(use := SockPool.Used)] == [SockPool.Entry(Some(0), SockPool.Used)];
    var u := Step(cfg, s, TakeSock(true));
    assert u.pc == Ready(ENTRY, "p", 0);
    assert u.socks == Started().socks;
    assert Meter.Active([]) == 0;
    assert ValidId(cfg, ID) && SizeOf(cfg, ID) == 1;
  }

  lemma Fails(hash: Layout.Hash)
    ensures var cfg := OneChunk(hash);
            var s := Step(cfg, Step(cfg, Started(), CheckFlags), Pop(0));
            Step(cfg, Step(cfg, Step(cfg, s, Run(0, Throw)), Run(0, Requeue)), Run(0, MarkReported)) ==
            Started().(pc := Drained, queue := Ended().queue,
                       tasks := [Task(ID, "p", 0, Notified, [], true, 0, 1)])
  {
    hide SockPool.Step;
    Ranked();
    var cfg := OneChunk(hash);
    var s := Step(cfg, Step(cfg, Started(), CheckFlags), Pop(0));
    assert s == Started().(pc := Drained);
    assert Meter.Step(cfg.lim, s.meter, Meter.Action.Task(0, Meter.Drop)) == s.meter;
    var u := Step(cfg, s, Run(0, Throw));
    assert u == s.(tasks := [Task(ID, "p", 0, Threw, [], false, 0, 0)]);
    assert u.queue + Ended().queue == Ended().queue;
  }

  lemma Joins(hash: Layout.Hash)
    ensures var cfg := OneChunk(hash);
            var s := Started().(pc := Drained, queue := Ended().queue,
                                tasks := [Task(ID, "p", 0, Notified, [], true, 0, 1)]);
            Step(cfg, Step(cfg, Step(cfg, s, Run(0, Settle)), Run(0, Release)), Join) == Ended()
  {
    hide SockPool.Step, SetBit, Overwrite;
    var cfg := OneChunk(hash);
    var s := Started().(pc := Drained, queue := Ended().queue,
                        tasks := [Task(ID, "p", 0, Notified, [], true, 0, 1)]);
    var u := s.(tasks := [Task(ID, "p", 0, Settled, [], true, 0, 1)]);
    assert Step(cfg, s, Run(0, Settle)) == u;
    Returns();
    assert Meter.Step(cfg.lim, s.meter, Meter.Action.Task(0, Meter.Quit)).slots == [Meter.Off];
  }

  lemma Returns()
    ensures SockPool.Step(Started().socks.net, SockPool.GiveBack("p", 0)) == Idle()
  {
    var list := [SockPool.Entry(Some(0), SockPool.Used)];
    assert SockPool.FindSock(list, Some(0)) == 0;
    assert list[0 := list[0].(use := SockPool.Idle)] == [SockPool.Entry(Some(0), SockPool.Idle)];
    var n := Started().socks.net;
    assert n.held - {0} == map[];
  }

  /**
   * So a run can end normally, every thread having been joined, with a chunk in the queue that a connected
   * peer offers and that nobody will fetch.
   */
  lemma LateFailureIsForgotten(hash: Layout.Hash)
    ensures var cfg, s := OneChunk(hash), Ended();
            && GoodLayout(cfg) && Reachable(cfg, s) && s.pc == Joined(true) && s.lost == []
            && |s.queue| == 1 && s.queue[0].status == Failed && s.queue[0].clients == ["p"]
            && !Complete(cfg, s)
  {
    hide Step, Begins, Goes, GoodLayout;
    var cfg := OneChunk(hash);
    ItBegins(hash);
    GoesNowhere(cfg, Beginning());
    Pops(hash);
    Then2(cfg, Beginning(), CheckFlags, Pop(0));
    var s := Beginning().(pc := Popped(ENTRY), queue := []);
    Gauges(hash);
    Then3(cfg, s, Refresh([]), Gauge, Gauge);
    s := Beginning().(pc := Waiting(ENTRY, "p"), queue := []);
    Starts(hash);
    Then2(cfg, s, TakeSock(true), Start);
    Then2(cfg, Started(), CheckFlags, Pop(0));
    s := Step(cfg, Step(cfg, Started(), CheckFlags), Pop(0));
    Fails(hash);
    Then3(cfg, s, Run(0, Throw), Run(0, Requeue), Run(0, MarkReported));
    Joins(hash);
    s := Started().(pc := Drained, queue := Ended().queue, tasks := [Task(ID, "p", 0, Notified, [], true, 0, 1)]);
    Then3(cfg, s, Run(0, Settle), Run(0, Release), Join);
    ReachedFrom(cfg, Beginning(), Ended());
    assert ValidId(cfg, ID) && !IsSet(Ended().store, ID);
  }

  lemma Then2(cfg: Config, s: State, a: Action, b: Action)
    ensures Goes(cfg, Beginning(), s) ==> Goes(cfg, Beginning(), Step(cfg, Step(cfg, s, a), b))
  {
    hide Step, Goes;
    if Goes(cfg, Beginning(), s) {
      Then(cfg, Beginning(), s, a);
      Then(cfg, Beginning(), Step(cfg, s, a), b);
    }
  }

  lemma Then3(cfg: Config, s: State, a: Action, b: Action, c: Action)
    ensures Goes(cfg, Beginning(), s) ==> Goes(cfg, Beginning(), Step(cfg, Step(cfg, Step(cfg, s, a), b), c))
  {
    hide Step, Goes;
    Then2(cfg, s, a, b);
    if Goes(cfg, Beginning(), s) {
      Then(cfg, Beginning(), Step(cfg, Step(cfg, s, a), b), c);
    }
  }

  lemma ReachedFrom(cfg: Config, s: State, u: State)
    ensures Begins(cfg, s) && Goes(cfg, s, u) ==> Reachable(cfg, u)
  {
    hide Begins, Exec;
  }
}
