// Which peer the scheduler picks (client/src/job.cc) while other threads use the pool between its readings
// of the loads.
module JobPeers {
  import opened Prelude
  import opened ChunkQueue
  import opened JobMachine
  import opened JobFrames
  import opened JobSockets
  import opened JobTheorems
  import Meter
  import SockPool

  /** No list of the pool disappears or shrinks. */
  ghost predicate Grows(p: SockPool.Pool, q: SockPool.Pool) {
    forall c :: c in p.lists ==> c in q.lists && |p.lists[c]| <= |q.lists[c]|
  }

  lemma PoolStepGrows(n: SockPool.Net, op: SockPool.Op)
    ensures Grows(n.pool, SockPool.Step(n, op).pool)
  {
  }

  function Pool(s: State): SockPool.Pool {
    s.socks.net.pool
  }

  lemma StepGrowsPool(cfg: Config, s: State, a: Action)
    requires OtherThread(a)
    ensures Grows(Pool(s), Pool(Step(cfg, s, a)))
  {
    hide Grows;
    var net := s.socks.net;
    GrowsSame(net.pool);
    if a.Outside? {
      PoolStepGrows(net, a.op);
      OutsideNet(cfg, s, a.op);
    } else if a.Run? && a.t < |s.tasks| {
      PoolStepGrows(net, SockPool.GiveBack(s.tasks[a.t].peer, s.tasks[a.t].sock));
      TaskNet(cfg, s, a.t, a.m);
    }
  }

  lemma GrowsSame(p: SockPool.Pool)
    ensures Grows(p, p)
  {
  }

  lemma OutsideNet(cfg: Config, s: State, op: SockPool.Op)
    ensures var net := Step(cfg, s, Outside(op)).socks.net;
            net == s.socks.net || net == SockPool.Step(s.socks.net, op)
  {
    hide SockPool.Step, SockPool.GetIdle;
  }

  lemma TaskNet(cfg: Config, s: State, t: nat, m: TaskMove)
    requires t < |s.tasks|
    ensures var net := TaskStep(cfg, s, t, m).socks.net;
            net == s.socks.net || net == SockPool.Step(s.socks.net, SockPool.GiveBack(s.tasks[t].peer, s.tasks[t].sock))
  {
    hide Meter.Step, SockPool.Step, Overwrite, SetBit, Make, Countable;
  }

  /** A load read at some moment between the pools `p` and `q`. */
  ghost predicate Read(p: SockPool.Pool, q: SockPool.Pool, c: ClientId, load: real) {
    || (load == 100.0 && c !in p.lists)
    || (c in q.lists && load <= |q.lists[c]| as real / 10.0 && (c in p.lists ==> |p.lists[c]| as real / 10.0 <= load))
  }

  lemma ReadNow(p: SockPool.Pool, q: SockPool.Pool, c: ClientId)
    requires Grows(p, q)
    ensures Read(p, q, c, SockPool.Load(q, c))
  {
  }

  lemma ReadLater(p: SockPool.Pool, q: SockPool.Pool, r: SockPool.Pool, c: ClientId, load: real)
    requires Read(p, q, c, load) && Grows(q, r)
    ensures Read(p, r, c, load)
  {
  }

  /** The loads of the first owners, as read so far. */
  ghost predicate AllRead(p: SockPool.Pool, q: SockPool.Pool, owners: seq<ClientId>, loads: seq<real>) {
    |loads| <= |owners| && forall j :: 0 <= j < |loads| ==> Read(p, q, owners[j], loads[j])
  }

  lemma AllReadLater(p: SockPool.Pool, q: SockPool.Pool, r: SockPool.Pool, owners: seq<ClientId>, loads: seq<real>)
    requires AllRead(p, q, owners, loads) && Grows(q, r)
    ensures AllRead(p, r, owners, loads)
  {
    forall j | 0 <= j < |loads| ensures Read(p, r, owners[j], loads[j]) {
      ReadLater(p, q, r, owners[j], loads[j]);
    }
  }

  /** The peer has the first smallest of the loads read. */
  ghost predicate Chosen(p: SockPool.Pool, q: SockPool.Pool, owners: seq<ClientId>, loads: seq<real>, peer: ClientId) {
    && AllRead(p, q, owners, loads) && |loads| == |owners|
    && exists k: nat :: SockPool.IsArgMin(loads, k) && owners[k] == peer
  }

  /** Where the scheduler is between the start of its readings and its choice. */
  ghost predicate Gauged(p: SockPool.Pool, s: State, c: ChunkInfo) {
    && Grows(p, Pool(s))
    && match s.pc
       case Gauging(d, loads) => d == c && AllRead(p, Pool(s), c.clients, loads)
       case Waiting(d, peer) => d == c && exists loads :: Chosen(p, Pool(s), c.clients, loads, peer)
       case _ => c.clients == []
  }

  lemma OtherKeepsGauged(cfg: Config, p: SockPool.Pool, s: State, a: Action, c: ChunkInfo)
    requires OtherThread(a) && Gauged(p, s, c)
    ensures Gauged(p, Step(cfg, s, a), c)
  {
    hide Step, AllRead;
    var u := Step(cfg, s, a);
    StepGrowsPool(cfg, s, a);
    OthersKeepPc(cfg, s, a);
    match s.pc
    case Gauging(_, loads) => AllReadLater(p, Pool(s), Pool(u), c.clients, loads);
    case Waiting(_, peer) =>
      var loads :| Chosen(p, Pool(s), c.clients, loads, peer);
      AllReadLater(p, Pool(s), Pool(u), c.clients, loads);
      assert Chosen(p, Pool(u), c.clients, loads, peer);
    case _ =>
  }

  lemma GaugeKeepsGauged(cfg: Config, p: SockPool.Pool, s: State, c: ChunkInfo)
    requires Gauged(p, s, c)
    ensures Gauged(p, Step(cfg, s, Gauge), c)
  {
    hide Make, Countable, Read, Grows, SockPool.Load, FirstMin;
    var u := Step(cfg, s, Gauge);
    if s.pc.Gauging? && c.clients != [] {
      var loads := s.pc.loads;
      if |loads| < |c.clients| {
        ReadNow(p, Pool(s), c.clients[|loads|]);
      } else {
        var k := FirstMin(loads);
        assert u.pc == Waiting(c, c.clients[k]);
        assert Chosen(p, Pool(u), c.clients, loads, c.clients[k]);
      }
    }
  }

  lemma {:induction false} RunKeepsGauged(cfg: Config, s: State, acts: seq<Action>, c: ChunkInfo)
    requires s.pc == Gauging(c, [])
    requires forall i :: 0 <= i < |acts| ==> OtherThread(acts[i]) || acts[i] == Gauge
    ensures Gauged(Pool(s), Exec(cfg, s, acts), c)
  {
    hide Step;
    if acts == [] {
      GrowsSame(Pool(s));
    } else {
      var n := |acts| - 1;
      RunKeepsGauged(cfg, s, acts[..n], c);
      if acts[n] == Gauge {
        GaugeKeepsGauged(cfg, Pool(s), Exec(cfg, s, acts[..n]), c);
      } else {
        OtherKeepsGauged(cfg, Pool(s), Exec(cfg, s, acts[..n]), acts[n], c);
      }
    }
  }

  /**
   * From any state with the socket invariant, as every reachable state is, and whatever other threads do between
   * the readings: if any owner was connected when the scheduler began to read the loads, then the peer it picks is
   * connected, and at the start had no more pooled sockets than any such owner has in the end.
   */
  lemma PeerChoiceUnderInterference(cfg: Config, s: State, acts: seq<Action>, c: ChunkInfo, peer: ClientId, d: ClientId)
    requires SocksOk(s) && d in c.clients && SockPool.IsConnected(Pool(s), d)
    requires forall i :: 0 <= i < |acts| ==> OtherThread(acts[i]) || acts[i] == Gauge
    requires s.pc == Gauging(c, []) && Exec(cfg, s, acts).pc == Waiting(c, peer)
    ensures var u := Exec(cfg, s, acts);
            && SockPool.IsConnected(Pool(u), peer)
            && |SockPool.ListOf(Pool(s), peer)| <= |SockPool.ListOf(Pool(u), d)|
  {
    hide Exec, SocksOk;
    var u := Exec(cfg, s, acts);
    RunKeepsGauged(cfg, s, acts, c);
    RunsKeepSocks(cfg, s, acts);
    SocksHaveInv(u);
    ListBound(u.socks.net, d);
    var loads :| Chosen(Pool(s), Pool(u), c.clients, loads, peer);
    ChosenIsConnected(Pool(s), Pool(u), c.clients, loads, peer, d);
  }

  lemma SocksHaveInv(s: State)
    requires SocksOk(s)
    ensures SockPool.Inv(s.socks.net)
  {
    hide SockPool.Inv, OneHolder, PeersKnown;
  }

  lemma ListBound(n: SockPool.Net, d: ClientId)
    requires SockPool.Inv(n)
    ensures |SockPool.ListOf(n.pool, d)| <= 11
  {
  }

  lemma ChosenIsConnected(p: SockPool.Pool, q: SockPool.Pool, owners: seq<ClientId>, loads: seq<real>, peer: ClientId,
                          d: ClientId)
    requires Chosen(p, q, owners, loads, peer) && Grows(p, q)
    requires d in owners && d in p.lists && |SockPool.ListOf(q, d)| <= 11
    ensures peer in q.lists && |SockPool.ListOf(p, peer)| <= |SockPool.ListOf(q, d)|
  {
    var k: nat :| SockPool.IsArgMin(loads, k) && owners[k] == peer;
    var j :| 0 <= j < |owners| && owners[j] == d;
    assert Read(p, q, d, loads[j]) && Read(p, q, peer, loads[k]);
    assert loads[k] <= loads[j] <= |q.lists[d]| as real / 10.0 <= 1.1;
  }
}
