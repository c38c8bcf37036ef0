// What each step of JobMachine leaves alone.
module JobFrames {
  import opened ChunkQueue
  import opened JobMachine
  import Meter
  import SockPool

  /** A task step touches its own task, and of the rest only what its move is for. */
  lemma TaskStepFrame(cfg: Config, s: State, t: nat, m: TaskMove)
    requires t < |s.tasks|
    ensures var u := TaskStep(cfg, s, t, m);
            && u.pc == s.pc && u.lost == s.lost && u.flags == s.flags
            && (!m.Copy? && !m.Settle? ==> u.store == s.store)
            && (!m.Release? ==> u.socks == s.socks)
            && (!m.Requeue? ==> u.queue == s.queue)
  {
    hide Meter.Step, SockPool.Step, Overwrite, SetBit, Make, Countable;
  }

  lemma TaskStepOwn(cfg: Config, s: State, t: nat, m: TaskMove)
    requires t < |s.tasks|
    ensures var u := TaskStep(cfg, s, t, m);
            && u.tasks == s.tasks[t := u.tasks[t]]
            && u.tasks[t].id == s.tasks[t].id && u.tasks[t].peer == s.tasks[t].peer
            && u.tasks[t].sock == s.tasks[t].sock
  {
    hide Meter.Step, SockPool.Step, Overwrite, SetBit, Make, Countable;
  }

  /** Setting a bit never clears one, and a partial write sets none. */
  lemma TaskStepBits(cfg: Config, s: State, t: nat, m: TaskMove)
    requires t < |s.tasks|
    ensures var u := TaskStep(cfg, s, t, m);
            u.store.bits == if Credits(s, t, m) then SetBit(s.store.bits, s.tasks[t].id) else s.store.bits
  {
    hide Meter.Step, SockPool.Step, Overwrite, SetBit, Make, Countable;
  }

  /** The step sets the bit of the task's chunk. */
  predicate Credits(s: State, t: nat, m: TaskMove)
    requires t < |s.tasks|
  {
    m.Settle? && (s.tasks[t].phase.Returned? || s.tasks[t].phase.Notified?) && !s.tasks[t].reported
  }

  /** No other step changes a bitmap or the disk; only some change the known owners. */
  lemma OtherStepStore(cfg: Config, s: State, a: Action)
    requires !a.Run?
    ensures var u := Step(cfg, s, a);
            && u.store.bits == s.store.bits && u.store.disk == s.store.disk
            && (!a.Refresh? && !a.ShakeDone? ==> u.store == s.store)
  {
    hide Meter.Step, SockPool.Step, SockPool.GetIdle, SockPool.Load, FirstMin, SetBitmap, Make, Countable, IsTop,
      TaskStep;
  }

  /** The tasks only change when one is started. */
  lemma OtherStepTasks(cfg: Config, s: State, a: Action)
    requires !a.Run?
    ensures Step(cfg, s, a).tasks ==
            if a.Start? && CanStart(cfg, s) then s.tasks + [NewTask(s.pc)] else s.tasks
  {
    hide Meter.Step, SockPool.Step, SockPool.GetIdle, SockPool.Load, FirstMin, SetBitmap, Make, Countable, IsTop,
      TaskStep;
  }

  lemma OtherStepQueue(cfg: Config, s: State, a: Action)
    requires !a.Run?
    ensures var u := Step(cfg, s, a);
            && (!a.Pop? && !a.Gauge? ==> u.queue == s.queue)
            && (!a.StartThrows? ==> u.lost == s.lost)
  {
    hide Meter.Step, SockPool.Step, SockPool.GetIdle, SockPool.Load, FirstMin, SetBitmap, Make, Countable, IsTop,
      TaskStep;
  }

  /** The chunk in hand changes only when one is popped, requeued without owner, or handed to a task. */
  lemma OtherStepHand(cfg: Config, s: State, a: Action)
    requires !a.Run? && !a.Pop? && !a.Gauge? && !a.Start? && !a.StartThrows?
    ensures var u := Step(cfg, s, a);
            HasChunk(u.pc) == HasChunk(s.pc) && (HasChunk(s.pc) ==> u.pc.c == s.pc.c)
  {
    hide Meter.Step, SockPool.Step, SockPool.GetIdle, SockPool.Load, FirstMin, SetBitmap, Make, Countable, IsTop,
      TaskStep;
  }

  lemma OtherStepMeter(cfg: Config, s: State, a: Action)
    requires !a.Run?
    ensures var u := Step(cfg, s, a);
            u.meter == (match a
                        case Snapshot => Meter.Step(cfg.lim, s.meter, Meter.Snapshot)
                        case AddTotal => Meter.Step(cfg.lim, s.meter, Meter.AddTotal)
                        case Reset => Meter.Step(cfg.lim, s.meter, Meter.Reset)
                        case Start => if CanStart(cfg, s)
                                      then Meter.Step(cfg.lim, s.meter, Meter.Begin(SizeOf(cfg, s.pc.c.id)))
                                      else s.meter
                        case _ => s.meter)
  {
    hide Meter.Step, SockPool.Step, SockPool.GetIdle, SockPool.Load, FirstMin, SetBitmap, Make, Countable, IsTop,
      TaskStep, CanStart;
  }

  /** No other step touches the pool, or a socket in the scheduler's hand. */
  lemma OtherStepSocks(cfg: Config, s: State, a: Action)
    requires !a.Run? && !a.Outside? && !a.Advance? && !a.ShakeDone? && !a.TakeSock? && !a.Start? && !a.StartThrows?
    ensures var u := Step(cfg, s, a);
            && u.socks == s.socks && HasSock(u.pc) == HasSock(s.pc)
            && (HasSock(s.pc) ==> u.pc.sock == s.pc.sock && u.pc.peer == s.pc.peer)
  {
    hide Meter.Step, SockPool.Step, SockPool.GetIdle, SockPool.Load, FirstMin, SetBitmap, Make, Countable, IsTop,
      TaskStep;
  }

  /** Only the scheduler changes what is known of the owners. */
  lemma OthersKeepOwners(cfg: Config, s: State, a: Action)
    requires OtherThread(a)
    ensures Step(cfg, s, a).store.owners == s.store.owners
  {
    hide Meter.Step, SockPool.Step, SockPool.GetIdle, Overwrite, SetBit, Make, Countable, Mapped;
  }

  /** Other threads leave the scheduler where it is. */
  lemma OthersKeepPc(cfg: Config, s: State, a: Action)
    requires OtherThread(a)
    ensures Step(cfg, s, a).pc == s.pc && Step(cfg, s, a).lost == s.lost
  {
    hide Meter.Step, SockPool.Step, SockPool.GetIdle, Overwrite, SetBit, Make, Countable;
  }
}
