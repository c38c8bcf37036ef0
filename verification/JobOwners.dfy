// What the owners of a file have told the scheduler, over whole runs: the peer that a task asks for a chunk has offered
// it, and the answer to a handshake is stored with the owner that was greeted (client/src/job.cc,
// client/src/chunk_selector.cc).
module JobOwners {
  import opened Prelude
  import opened ChunkQueue
  import opened JobMachine
  import opened JobFrames
  import opened JobConservation
  import opened JobTheorems
  import Meter
  import SockPool

  /** The chunk can be ranked, and an owner with this id is listed with a bitmap that has it. */
  ghost predicate Offers(owners: Owners, id: ChunkId, c: ClientId) {
    Countable(owners, id)
    && exists i :: 0 <= i < |owners[id.file]| && owners[id.file][i].client == c && owners[id.file][i].bitmap[id.num]
  }

  /** The client has offered the chunk at some moment of the run. */
  ghost predicate HasOffered(cfg: Config, s0: State, acts: seq<Action>, id: ChunkId, c: ClientId) {
    exists m: nat :: m <= |acts| && Offers(Exec(cfg, s0, acts[..m]).store.owners, id, c)
  }

  // ----- the peers of chunks and tasks -----

  /** All these clients are among those that have offered the chunk. */
  ghost predicate AllAmong(offers: iset<(ChunkId, ClientId)>, id: ChunkId, clients: seq<ClientId>) {
    forall c :: c in clients ==> (id, c) in offers
  }

  predicate HasPeer(pc: Pc) {
    pc.Waiting? || pc.Ready? || pc.Asserted?
  }

  ghost predicate QueueAmong(offers: iset<(ChunkId, ClientId)>, q: seq<ChunkInfo>) {
    forall i :: 0 <= i < |q| ==> AllAmong(offers, q[i].id, q[i].clients)
  }

  ghost predicate HandAmong(offers: iset<(ChunkId, ClientId)>, pc: Pc) {
    && (HasChunk(pc) ==> AllAmong(offers, pc.c.id, pc.c.clients))
    && (HasPeer(pc) ==> (pc.c.id, pc.peer) in offers)
  }

  ghost predicate TasksAmong(offers: iset<(ChunkId, ClientId)>, tasks: seq<Task>) {
    forall i :: 0 <= i < |tasks| ==> (tasks[i].id, tasks[i].peer) in offers
  }

  /** The clients listed for chunks, and the peers of tasks, have offered the chunk. */
  ghost predicate Among(offers: iset<(ChunkId, ClientId)>, s: State) {
    QueueAmong(offers, s.queue) && HandAmong(offers, s.pc) && TasksAmong(offers, s.tasks)
  }

  lemma MadeAmong(offers: iset<(ChunkId, ClientId)>, owners: Owners, status: Status, id: ChunkId)
    requires Countable(owners, id) && forall c :: Offers(owners, id, c) ==> (id, c) in offers
    ensures AllAmong(offers, Make(owners, status, id).id, Make(owners, status, id).clients)
  {
    hide Make, Tells;
    var info := Make(owners, status, id);
    MakeTells(owners, status, id);
    TellsNames(info, owners[id.file], status, id);
    TellsId(info, owners[id.file], status, id);
    forall c | c in info.clients ensures (id, c) in offers {
      assert Offers(owners, id, c);
    }
  }

  lemma TellsId(info: ChunkInfo, list: seq<Owner>, status: Status, id: ChunkId)
    requires Testable(list, id.num) && Tells(info, list, status, id)
    ensures info.id == id
  {
  }

  lemma TaskStepAmong(cfg: Config, s: State, t: nat, m: TaskMove, offers: iset<(ChunkId, ClientId)>)
    requires t < |s.tasks| && Among(offers, s)
    requires forall id, c :: Offers(s.store.owners, id, c) ==> (id, c) in offers
    ensures Among(offers, TaskStep(cfg, s, t, m))
  {
    hide TaskStep, Offers, AllAmong, Make, Countable, HandAmong;
    TaskStepFrame(cfg, s, t, m);
    TaskStepOwn(cfg, s, t, m);
    TaskStepQueueShape(cfg, s, t, m);
    if Requeues(s, t, m) {
      MadeAmong(offers, s.store.owners, Failed, s.tasks[t].id);
    }
  }

  lemma PopAmong(s: State, i: nat, offers: iset<(ChunkId, ClientId)>)
    requires Among(offers, s)
    ensures Among(offers, PopStep(s, i))
  {
    hide AllAmong;
    if s.pc.Cleared? && i < |s.queue| && IsTop(s.queue, i) {
      assert AllAmong(offers, s.queue[i].id, s.queue[i].clients);
    }
  }

  lemma GaugeAmong(s: State, offers: iset<(ChunkId, ClientId)>)
    requires Among(offers, s) && forall id, c :: Offers(s.store.owners, id, c) ==> (id, c) in offers
    ensures Among(offers, GaugeStep(s))
  {
    hide Make, Countable, Offers, FirstMin, SockPool.Load;
    if s.pc.Gauging? && s.pc.c.clients == [] && Countable(s.store.owners, s.pc.c.id) {
      MadeAmong(offers, s.store.owners, NoOwner, s.pc.c.id);
    }
  }

  lemma OtherStepAmong(cfg: Config, s: State, a: Action, offers: iset<(ChunkId, ClientId)>)
    requires !a.Run? && !a.Pop? && !a.Gauge? && Among(offers, s)
    ensures Among(offers, Step(cfg, s, a))
  {
    hide Step, AllAmong, CanStart;
    OtherStepTasks(cfg, s, a);
    OtherStepQueue(cfg, s, a);
    OtherStepPeer(cfg, s, a);
    NewTaskPeer(cfg, s);
  }

  /** A chunk in hand was in hand before, and so was its peer. */
  lemma OtherStepPeer(cfg: Config, s: State, a: Action)
    requires !a.Run? && !a.Pop? && !a.Gauge?
    ensures var u := Step(cfg, s, a);
            && (HasChunk(u.pc) ==> HasChunk(s.pc) && u.pc.c == s.pc.c)
            && (HasPeer(u.pc) ==> HasPeer(s.pc) && u.pc.peer == s.pc.peer)
  {
    hide Meter.Step, CanStart, SockPool.Step, SockPool.GetIdle, SockPool.Load, FirstMin, SetBitmap, Make, Countable,
      IsTop, TaskStep;
  }

  lemma NewTaskPeer(cfg: Config, s: State)
    ensures CanStart(cfg, s) ==> s.pc.Ready? && NewTask(s.pc).id == s.pc.c.id && NewTask(s.pc).peer == s.pc.peer
  {
    hide Meter.Active;
  }

  lemma StepAmong(cfg: Config, s: State, a: Action, offers: iset<(ChunkId, ClientId)>)
    requires Among(offers, s) && forall id, c :: Offers(s.store.owners, id, c) ==> (id, c) in offers
    ensures Among(offers, Step(cfg, s, a))
  {
    hide Among, Offers, TaskStep;
    if a.Run? {
      if a.t < |s.tasks| {
        TaskStepAmong(cfg, s, a.t, a.m, offers);
      }
    } else if a.Pop? {
      PopAmong(s, a.i, offers);
    } else if a.Gauge? {
      GaugeAmong(s, offers);
    } else {
      OtherStepAmong(cfg, s, a, offers);
    }
  }

  lemma MoreAmong(few: iset<(ChunkId, ClientId)>, offers: iset<(ChunkId, ClientId)>, s: State)
    requires few <= offers && Among(few, s)
    ensures Among(offers, s)
  {
  }

  lemma BeginsAmong(cfg: Config, s0: State, offers: iset<(ChunkId, ClientId)>)
    requires Begins(cfg, s0) && forall id, c :: Offers(s0.store.owners, id, c) ==> (id, c) in offers
    ensures Among(offers, s0)
  {
    hide Make, Countable, Offers, AllAmong;
    forall i | 0 <= i < |s0.queue| ensures AllAmong(offers, s0.queue[i].id, s0.queue[i].clients) {
      MadeAmong(offers, s0.store.owners, Free, s0.queue[i].id);
    }
  }

  ghost function OffersOf(cfg: Config, s0: State, acts: seq<Action>): iset<(ChunkId, ClientId)> {
    iset id: ChunkId, c: ClientId | HasOffered(cfg, s0, acts, id, c) :: (id, c)
  }

  lemma OffersGrow(cfg: Config, s0: State, acts: seq<Action>)
    requires acts != []
    ensures OffersOf(cfg, s0, acts[..|acts| - 1]) <= OffersOf(cfg, s0, acts)
    ensures forall id, c :: Offers(Exec(cfg, s0, acts[..|acts| - 1]).store.owners, id, c) ==>
                              (id, c) in OffersOf(cfg, s0, acts[..|acts| - 1])
  {
    hide Exec, Offers;
    var n := |acts| - 1;
    forall id, c | HasOffered(cfg, s0, acts[..n], id, c) ensures HasOffered(cfg, s0, acts, id, c) {
      var m: nat :| m <= n && Offers(Exec(cfg, s0, acts[..n][..m]).store.owners, id, c);
      assert acts[..n][..m] == acts[..m];
    }
    forall id, c | Offers(Exec(cfg, s0, acts[..n]).store.owners, id, c) ensures HasOffered(cfg, s0, acts[..n], id, c) {
      assert acts[..n][..n] == acts[..n];
    }
  }

  lemma {:induction false} RunsAmong(cfg: Config, s0: State, acts: seq<Action>)
    requires Begins(cfg, s0)
    ensures Among(OffersOf(cfg, s0, acts), Exec(cfg, s0, acts))
  {
    hide Step, Among, Offers, OffersOf, Begins;
    if acts == [] {
      OffersAtStart(cfg, s0);
      BeginsAmong(cfg, s0, OffersOf(cfg, s0, acts));
    } else {
      var n := |acts| - 1;
      RunsAmong(cfg, s0, acts[..n]);
      OffersGrow(cfg, s0, acts);
      StepAmong(cfg, Exec(cfg, s0, acts[..n]), acts[n], OffersOf(cfg, s0, acts[..n]));
      MoreAmong(OffersOf(cfg, s0, acts[..n]), OffersOf(cfg, s0, acts), Exec(cfg, s0, acts));
    }
  }

  lemma OffersAtStart(cfg: Config, s0: State)
    ensures forall id, c :: Offers(s0.store.owners, id, c) ==> (id, c) in OffersOf(cfg, s0, [])
  {
    hide Offers;
    forall id, c | Offers(s0.store.owners, id, c) ensures HasOffered(cfg, s0, [], id, c) {
      assert Exec(cfg, s0, [][..0]) == s0;
    }
  }

  /**
   * Whatever the other threads do, a task asks for its chunk a peer that was listed, at some earlier moment of the run,
   * with a bitmap that has the chunk. The same is so of the peer that the scheduler is about to ask.
   */
  lemma PeerHasOffered(cfg: Config, s0: State, acts: seq<Action>)
    requires Begins(cfg, s0)
    ensures var s := Exec(cfg, s0, acts);
            && (forall t :: 0 <= t < |s.tasks| ==> HasOffered(cfg, s0, acts, s.tasks[t].id, s.tasks[t].peer))
            && (HasPeer(s.pc) ==> HasOffered(cfg, s0, acts, s.pc.c.id, s.pc.peer))
  {
    hide Begins, Exec, HasOffered, QueueAmong, AllAmong;
    RunsAmong(cfg, s0, acts);
    var s := Exec(cfg, s0, acts);
    forall t | 0 <= t < |s.tasks| ensures HasOffered(cfg, s0, acts, s.tasks[t].id, s.tasks[t].peer) {
      assert (s.tasks[t].id, s.tasks[t].peer) in OffersOf(cfg, s0, acts);
    }
  }

  // ----- handshakes -----

  ghost predicate Listed(list: seq<Owner>, c: ClientId) {
    exists i :: 0 <= i < |list| && list[i].client == c
  }

  /** Whoever is to be greeted, or is being greeted, is an owner of the file. */
  ghost predicate GreetsOwners(s: State) {
    s.pc.Refreshing? || s.pc.Shaking? ==>
      && s.pc.c.id.file in s.store.owners
      && (forall c :: c in s.pc.rest ==> Listed(s.store.owners[s.pc.c.id.file], c))
      && (s.pc.Shaking? ==> Listed(s.store.owners[s.pc.c.id.file], s.pc.peer))
  }

  lemma RefreshGreets(s: State, reply: seq<ClientId>)
    requires GreetsOwners(s)
    ensures GreetsOwners(RefreshStep(s, reply))
  {
    var u := RefreshStep(s, reply);
    if s.pc.Popped? && u.pc.Refreshing? {
      var list := u.store.owners[u.pc.c.id.file];
      forall c | c in reply ensures Listed(list, c) {
        var i :| 0 <= i < |reply| && reply[i] == c;
        assert list[i].client == c;
      }
    }
  }

  lemma SameOwners(list: seq<Owner>, client: ClientId, bitmap: seq<bool>)
    ensures forall c :: Listed(SetBitmap(list, client, bitmap), c) <==> Listed(list, c)
  {
    hide SetBitmap;
    SetBitmapStores(list, client, bitmap);
    var after := SetBitmap(list, client, bitmap);
    forall i: nat | i < |list| ensures after[i].client == list[i].client {
    }
    forall c ensures Listed(after, c) <==> Listed(list, c) {
      if i :| 0 <= i < |list| && list[i].client == c {
        assert after[i].client == c;
      }
    }
  }

  lemma ShakeGreets(s: State, bitmap: Option<seq<bool>>)
    requires GreetsOwners(s)
    ensures GreetsOwners(ShakeDoneStep(s, bitmap))
  {
    hide SetBitmap, SockPool.Step, Listed;
    if s.pc.Shaking? && bitmap.Some? {
      SameOwners(s.store.owners[s.pc.c.id.file], s.pc.peer, bitmap.value);
    }
  }

  lemma AdvanceGreets(s: State, dialed: bool)
    requires GreetsOwners(s)
    ensures GreetsOwners(AdvanceStep(s, dialed))
  {
    hide SockPool.Step, SockPool.GetIdle, Listed;
    if s.pc.Refreshing? && s.pc.rest != [] {
      assert s.pc.rest[0] in s.pc.rest;
      assert forall c :: c in s.pc.rest[1..] ==> c in s.pc.rest;
    }
  }

  lemma OtherGreets(cfg: Config, s: State, a: Action)
    requires !a.Run? && !a.Refresh? && !a.ShakeDone? && !a.Advance? && GreetsOwners(s)
    ensures GreetsOwners(Step(cfg, s, a))
  {
    hide Step, Listed;
    OtherStepStore(cfg, s, a);
    NoNewGreeting(cfg, s, a);
  }

  lemma NoNewGreeting(cfg: Config, s: State, a: Action)
    requires !a.Run? && !a.Refresh? && !a.ShakeDone? && !a.Advance?
    ensures var u := Step(cfg, s, a);
            u.pc.Refreshing? || u.pc.Shaking? ==> u.pc == s.pc
  {
    hide Meter.Step, SockPool.Step, SockPool.GetIdle, SockPool.Load, FirstMin, SetBitmap, Make, Countable, IsTop,
      TaskStep;
  }

  lemma TaskGreets(cfg: Config, s: State, t: nat, m: TaskMove)
    requires t < |s.tasks| && GreetsOwners(s)
    ensures GreetsOwners(TaskStep(cfg, s, t, m))
  {
    hide TaskStep, Listed;
    TaskStepFrame(cfg, s, t, m);
    TaskStepKeepsOwners(cfg, s, t, m);
  }

  lemma TaskStepKeepsOwners(cfg: Config, s: State, t: nat, m: TaskMove)
    requires t < |s.tasks|
    ensures TaskStep(cfg, s, t, m).store.owners == s.store.owners
  {
    hide Meter.Step, SockPool.Step, Overwrite, SetBit, Make, Countable, Mapped;
  }

  lemma {:induction false} RunsGreet(cfg: Config, s0: State, acts: seq<Action>)
    requires GreetsOwners(s0)
    ensures GreetsOwners(Exec(cfg, s0, acts))
  {
    hide GreetsOwners, TaskStep, RefreshStep, AdvanceStep, ShakeDoneStep;
    if acts != [] {
      var n := |acts| - 1;
      var s, a := Exec(cfg, s0, acts[..n]), acts[n];
      RunsGreet(cfg, s0, acts[..n]);
      if a.Run? {
        if a.t < |s.tasks| {
          TaskGreets(cfg, s, a.t, a.m);
        }
      } else if a.Refresh? {
        RefreshGreets(s, a.reply);
      } else if a.ShakeDone? {
        ShakeGreets(s, a.bitmap);
      } else if a.Advance? {
        AdvanceGreets(s, a.dialed);
      } else {
        OtherGreets(cfg, s, a);
      }
    }
  }

  /**
   * On every run that starts at the head of the loop, or with a chunk just taken, the owner that is being greeted is
   * found in the list, as asserted; a good answer becomes the bitmap of the first entry with that id, and no other
   * owner of any file changes.
   */
  lemma AnswerIsStored(cfg: Config, s0: State, acts: seq<Action>, bitmap: seq<bool>)
    requires s0.pc.Top? || s0.pc.Popped?
    requires Exec(cfg, s0, acts).pc.Shaking?
    ensures var s := Exec(cfg, s0, acts);
            var f, owners := s.pc.c.id.file, Step(cfg, s, ShakeDone(Some(bitmap))).store.owners;
            && f in s.store.owners
            && exists i: nat :: FirstAt(s.store.owners[f], s.pc.peer, i)
                           && owners == s.store.owners[f := s.store.owners[f][i := Owner(s.pc.peer, bitmap)]]
  {
    hide Exec, SetBitmap, SockPool.Step, FirstAt;
    RunsGreet(cfg, s0, acts);
    var s := Exec(cfg, s0, acts);
    var list := s.store.owners[s.pc.c.id.file];
    var i := FirstListed(list, s.pc.peer);
    SetBitmapStores(list, s.pc.peer, bitmap);
    OneFirst(list, s.pc.peer, i);
    assert SetBitmap(list, s.pc.peer, bitmap) == list[i := Owner(s.pc.peer, bitmap)];
  }

  lemma OneFirst(list: seq<Owner>, c: ClientId, i: nat)
    requires FirstAt(list, c, i)
    ensures i < |list| && forall j: nat :: FirstAt(list, c, j) ==> j == i
  {
  }

  lemma FirstListed(list: seq<Owner>, c: ClientId) returns (i: nat)
    requires Listed(list, c)
    ensures FirstAt(list, c, i)
  {
    i := 0;
    while list[i].client != c
      invariant i < |list| && forall j :: 0 <= j < i ==> list[j].client != c
      decreases |list| - i
    {
      i := i + 1;
    }
  }
}
