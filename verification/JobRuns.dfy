// Runs of JobMachine as the job object goes through them: first the requests for owners, before the queue is
// filled, and then the loop.
module JobRuns {
  import opened ChunkQueue
  import opened JobMachine
  import opened JobFrames
  import opened JobSockets
  import opened JobSafety
  import opened JobConservation
  import opened JobTheorems
  import Meter
  import SockPool

  /** The steps that can be taken while the owners of a file are asked for and greeted. */
  predicate Calm(a: Action) {
    OtherThread(a) || a.Refresh? || a.Advance? || a.ShakeDone?
  }

  /** Some run leads from one state to the other; if it starts by asking for owners, it does nothing else. */
  ghost predicate Leads(cfg: Config, s: State, u: State) {
    exists acts :: u == Exec(cfg, s, acts) && (s.pc.Popped? ==> AllCalm(acts))
  }

  ghost predicate AllCalm(acts: seq<Action>) {
    forall i :: 0 <= i < |acts| ==> Calm(acts[i])
  }

  lemma LeadsNowhere(cfg: Config, s: State)
    ensures Leads(cfg, s, s)
  {
    assert Exec(cfg, s, []) == s && AllCalm([]);
  }

  /** What there is at each point of a run. */
  ghost predicate Underway(cfg: Config, start: State, s: State) {
    SocksOk(s) && Leads(cfg, start, s)
  }

  lemma UnderwayStarts(cfg: Config, start: State)
    requires SocksOk(start)
    ensures Underway(cfg, start, start)
  {
    hide SocksOk;
    LeadsNowhere(cfg, start);
  }

  lemma UnderwayStep(cfg: Config, start: State, s: State, a: Action)
    requires Underway(cfg, start, s) && (start.pc.Popped? ==> Calm(a))
    ensures Underway(cfg, start, Step(cfg, s, a))
  {
    hide Step, SocksOk, Calm;
    StepKeepsSocks(cfg, s, a);
    var acts :| s == Exec(cfg, start, acts) && (start.pc.Popped? ==> AllCalm(acts));
    assert (acts + [a])[..|acts|] == acts;
    assert Exec(cfg, start, acts + [a]) == Step(cfg, s, a);
    assert start.pc.Popped? ==> AllCalm(acts + [a]);
  }

  /** The socket in the scheduler's hand is handed out to it. */
  lemma HandHolds(s: State)
    requires SocksOk(s) && HasSock(s.pc)
    ensures s.pc.sock in s.socks.net.held && s.socks.net.held[s.pc.sock] == s.pc.peer
  {
    hide SockPool.Inv, OneHolder;
  }

  // ----- before the queue is filled -----

  /** No task has been started, and nothing has been lost or counted. */
  predicate Untouched(s: State) {
    s.tasks == [] && s.lost == [] && Meter.Quiet(s.meter)
  }

  lemma CalmStep(cfg: Config, s: State, a: Action)
    requires Calm(a) && Untouched(s)
    ensures var u := Step(cfg, s, a);
            Untouched(u) && u.store.bits == s.store.bits && u.store.disk == s.store.disk
            && s.store.owners.Keys <= u.store.owners.Keys
  {
    hide Step, Meter.Active, CanStart;
    if !a.Run? {
      OwnersStay(cfg, s, a);
      OtherStepTasks(cfg, s, a);
      OtherStepStore(cfg, s, a);
      OtherStepQueue(cfg, s, a);
      OtherStepMeter(cfg, s, a);
    } else {
      NobodyRuns(cfg, s, a.t, a.m);
    }
  }

  /** A file that has a list of owners keeps one. */
  lemma OwnersStay(cfg: Config, s: State, a: Action)
    requires !a.Run?
    ensures s.store.owners.Keys <= Step(cfg, s, a).store.owners.Keys
  {
    hide Meter.Step, SockPool.Step, SockPool.GetIdle, SockPool.Load, FirstMin, SetBitmap, Make, Countable, IsTop,
      TaskStep;
  }

  lemma NobodyRuns(cfg: Config, s: State, t: nat, m: TaskMove)
    ensures s.tasks == [] ==> Step(cfg, s, Run(t, m)) == s
  {
  }

  lemma {:induction false} CalmRun(cfg: Config, s: State, acts: seq<Action>)
    requires Untouched(s) && AllCalm(acts)
    ensures var u := Exec(cfg, s, acts);
            Untouched(u) && u.store.bits == s.store.bits && u.store.disk == s.store.disk
            && s.store.owners.Keys <= u.store.owners.Keys
  {
    hide Step, Untouched, Calm;
    if acts != [] {
      CalmRun(cfg, s, acts[..|acts| - 1]);
      CalmStep(cfg, Exec(cfg, s, acts[..|acts| - 1]), acts[|acts| - 1]);
    }
  }

  /** While owners are asked for, no bit and no byte on disk changes. */
  lemma AskingIsCalm(cfg: Config, start: State, s: State)
    requires Underway(cfg, start, s) && start.pc.Popped? && Untouched(start)
    ensures Untouched(s) && s.store.bits == start.store.bits && s.store.disk == start.store.disk
    ensures start.store.owners.Keys <= s.store.owners.Keys
  {
    hide SocksOk, Exec, Untouched;
    var acts :| s == Exec(cfg, start, acts) && (start.pc.Popped? ==> AllCalm(acts));
    CalmRun(cfg, start, acts);
  }

  /** Before the first task every socket out of the pool is with other users. */
  lemma SocksOutside(s: State)
    requires SocksOk(s) && !HasSock(s.pc) && s.tasks == [] && s.lost == []
    ensures SockPool.Inv(s.socks.net) && s.socks.outside == s.socks.net.held.Keys
  {
    hide SockPool.Inv;
    forall x ensures x in s.socks.outside <==> x in s.socks.net.held {
      assert JobSockets.Holders(s, x) == if x in s.socks.net.held then 1 else 0;
    }
  }

  // ----- the loop -----

  lemma UnderwayIsGood(cfg: Config, start: State, s: State)
    requires GoodLayout(cfg) && Begins(cfg, start) && Underway(cfg, start, s)
    ensures Reachable(cfg, s) && Good(cfg, s) && Accounted(cfg, s)
  {
    hide Begins, GoodLayout, Good, Exec, SocksOk;
    var acts :| s == Exec(cfg, start, acts) && (start.pc.Popped? ==> AllCalm(acts));
    ReachableIsGood(cfg, s);
    GoodIsAccounted(cfg, s);
  }

  lemma GoodIsAccounted(cfg: Config, s: State)
    requires Good(cfg, s)
    ensures Accounted(cfg, s) && BitsVerified(cfg, s.store)
  {
    hide Accounted, MeterFits, SocksOk, EndOk;
  }

  /** The chunk in the scheduler's hand is one of the job's. */
  lemma HandValid(cfg: Config, s: State)
    requires Accounted(cfg, s) && HasChunk(s.pc)
    ensures ValidId(cfg, s.pc.c.id)
  {
    hide Queued, Owing, LostOnes;
    assert Places(s, s.pc.c.id) == if Unset(cfg, s.store, s.pc.c.id) then 1 else 0;
  }

  lemma UnderwayKeepsFiles(cfg: Config, start: State, s: State)
    requires Underway(cfg, start, s)
    ensures SameFiles(start.store.disk, s.store.disk)
  {
    hide SocksOk, Exec, SameFiles;
    var acts :| s == Exec(cfg, start, acts) && (start.pc.Popped? ==> AllCalm(acts));
    RunsKeepFiles(cfg, start, acts);
  }
}
