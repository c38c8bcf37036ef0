// A set bit means verified bytes on disk: on every run of JobMachine the bytes at the offset of a
// chunk whose bit is set have the torrent's checksum, whatever else is being written.
module JobSafety {
  import opened Prelude
  import opened ChunkQueue
  import opened JobMachine
  import opened JobFrames
  import opened JobConservation
  import Layout
  import Meter
  import SockPool

  /** The layout of each file gives its chunks ranges that do not meet. */
  ghost predicate GoodLayout(cfg: Config) {
    forall f :: f in cfg.files ==> Layout.Even(cfg.files[f])
  }

  // ----- the receive loop against the shared counters -----

  /** The bytes received and the bytes still missing make up the chunk. */
  predicate TaskFit(cfg: Config, t: Task, slot: Meter.Slot) {
    && ValidId(cfg, t.id)
    && (t.phase.Exchanging? ==> slot == Meter.Loop(SizeOf(cfg, t.id)) && t.buf == [])
    && (t.phase.Receiving? ==>
          match slot
          case Off => false
          case Loop(left) => |t.buf| + left == SizeOf(cfg, t.id)
          case Gated(left) => |t.buf| + left == SizeOf(cfg, t.id)
          case Reserved(left, ask) => |t.buf| + left == SizeOf(cfg, t.id) && ask <= left
          case Got(left, n) => |t.buf| + left == SizeOf(cfg, t.id) + n && n <= left)
    && (!t.phase.Exchanging? && !t.phase.Receiving? && !t.phase.Over? ==> slot.Loop?)
    && (t.phase.Over? ==> slot.Off?)
  }

  ghost predicate MeterFits(cfg: Config, s: State) {
    && |s.meter.slots| == |s.tasks|
    && forall i :: 0 <= i < |s.tasks| ==> TaskFit(cfg, s.tasks[i], s.meter.slots[i])
  }

  lemma TaskStepSlot(cfg: Config, s: State, t: nat, m: TaskMove)
    requires t < |s.tasks| == |s.meter.slots|
    ensures var u := TaskStep(cfg, s, t, m);
            u.meter.slots == s.meter.slots[t := SlotOf(u, t)]
  {
    hide SockPool.Step, Overwrite, SetBit, Make, Countable, Meter.MoveSlot, Meter.Taken, Meter.Added;
  }

  lemma TaskStepFit(cfg: Config, s: State, t: nat, m: TaskMove)
    requires t < |s.tasks| == |s.meter.slots| && TaskFit(cfg, s.tasks[t], s.meter.slots[t])
    requires !m.Receive? && !m.Copy? && !m.Requeue? && !m.Settle?
    ensures var u := TaskStep(cfg, s, t, m);
            TaskFit(cfg, u.tasks[t], SlotOf(u, t))
  {
    hide SockPool.Step, Meter.Quota, ValidId, SizeOf, ChecksumOf;
  }

  lemma ReceiveFit(cfg: Config, s: State, t: nat, data: seq<Byte>)
    requires t < |s.tasks| == |s.meter.slots| && TaskFit(cfg, s.tasks[t], s.meter.slots[t])
    ensures var u := ReceiveStep(cfg, s, t, data);
            |u.tasks| == |s.tasks| && TaskFit(cfg, u.tasks[t], SlotOf(u, t))
  {
    hide Meter.Quota, ValidId, SizeOf;
  }

  lemma QuietFit(cfg: Config, s: State, t: nat, m: TaskMove)
    requires t < |s.tasks| == |s.meter.slots| && TaskFit(cfg, s.tasks[t], s.meter.slots[t])
    requires m.Copy? || m.Requeue? || m.Settle?
    ensures var u := TaskStep(cfg, s, t, m);
            TaskFit(cfg, u.tasks[t], SlotOf(u, t))
  {
    hide SockPool.Step, Meter.Step, Overwrite, SetBit, Make, Countable, ValidId, SizeOf, OffsetOf;
  }

  lemma TaskStepKeepsFit(cfg: Config, s: State, t: nat, m: TaskMove)
    requires t < |s.tasks| && MeterFits(cfg, s)
    ensures MeterFits(cfg, TaskStep(cfg, s, t, m))
  {
    hide TaskStep, TaskFit;
    var u := TaskStep(cfg, s, t, m);
    TaskStepOwn(cfg, s, t, m);
    TaskStepSlot(cfg, s, t, m);
    TaskStepFits(cfg, s, t, m);
    forall i | 0 <= i < |u.tasks| ensures TaskFit(cfg, u.tasks[i], u.meter.slots[i]) {
      if i != t {
        assert u.tasks[i] == s.tasks[i] && u.meter.slots[i] == s.meter.slots[i];
      }
    }
  }

  lemma TaskStepFits(cfg: Config, s: State, t: nat, m: TaskMove)
    requires t < |s.tasks| == |s.meter.slots| && TaskFit(cfg, s.tasks[t], s.meter.slots[t])
    ensures var u := TaskStep(cfg, s, t, m);
            |u.tasks| == |s.tasks| && TaskFit(cfg, u.tasks[t], SlotOf(u, t))
  {
    hide TaskFit, ReceiveStep, CopyStep, VerifyStep, RequeueStep, SettleStep, ReleaseStep, CanThrow;
    TaskStepOwn(cfg, s, t, m);
    if m.Receive? {
      ReceiveFit(cfg, s, t, m.data);
    } else if m.Copy? || m.Requeue? || m.Settle? {
      QuietFit(cfg, s, t, m);
    } else {
      TaskStepFit(cfg, s, t, m);
    }
  }

  lemma OtherStepKeepsFit(cfg: Config, s: State, a: Action)
    requires !a.Run? && MeterFits(cfg, s)
    ensures MeterFits(cfg, Step(cfg, s, a))
  {
    hide Step, Meter.Active;
    OtherStepTasks(cfg, s, a);
    OtherStepMeter(cfg, s, a);
  }

  // ----- what a task has written -----

  /** Where a file has `data` from position `at` on: the part of it that is inside the file. */
  ghost predicate Stored(store: Store, f: FileId, at: nat, data: seq<Byte>) {
    f in store.disk ==>
      forall i: nat :: i < |data| && at + i < |store.disk[f]| ==> store.disk[f][at + i] == data[i]
  }

  /** As far as the file goes, a chunk's place holds bytes that have the chunk's size and checksum. */
  ghost predicate Verified(cfg: Config, store: Store, id: ChunkId) {
    exists data: seq<Byte> ::
      Genuine(cfg, id, data) && Stored(store, id.file, OffsetOf(cfg, id), data)
  }

  /** Bytes that pass for the chunk. */
  predicate Genuine(cfg: Config, id: ChunkId, data: seq<Byte>) {
    |data| == SizeOf(cfg, id) && cfg.hash(data) == ChecksumOf(cfg, id)
  }

  /** The task has copied its whole chunk: it has just returned, or was credited. */
  predicate HasCopied(t: Task) {
    t.phase.Returned? || t.successes > 0
  }

  /** The first `n` bytes for a chunk were written through the mapping, and are on disk as far as the file goes. */
  ghost predicate CopiedTo(cfg: Config, store: Store, id: ChunkId, buf: seq<Byte>, n: nat) {
    n <= |buf| && Mapped(cfg, store, id, n) && Stored(store, id.file, OffsetOf(cfg, id), buf[..n])
  }

  /** From its first write on, and for good when it was credited, a task's bytes are genuine and on disk. */
  ghost predicate TaskDisk(cfg: Config, store: Store, t: Task) {
    && (t.phase.Writing? || HasCopied(t) ==> Genuine(cfg, t.id, t.buf))
    && (t.phase.Writing? && t.phase.done > 0 ==> CopiedTo(cfg, store, t.id, t.buf, t.phase.done))
    && (HasCopied(t) ==> CopiedTo(cfg, store, t.id, t.buf, |t.buf|))
  }

  ghost predicate BitsVerified(cfg: Config, store: Store) {
    forall id :: ValidId(cfg, id) && IsSet(store, id) ==> Verified(cfg, store, id)
  }

  /** The chunk of a credited task is set. */
  predicate CreditsSet(s: State) {
    forall i :: 0 <= i < |s.tasks| && s.tasks[i].successes > 0 ==> IsSet(s.store, s.tasks[i].id)
  }

  ghost predicate DiskOk(cfg: Config, s: State) {
    && BitsVerified(cfg, s.store) && CreditsSet(s)
    && forall i :: 0 <= i < |s.tasks| ==> TaskDisk(cfg, s.store, s.tasks[i])
  }

  // ----- writes -----

  /** Chunks of one file have ranges that do not meet. */
  lemma ChunksApart(cfg: Config, a: ChunkId, b: ChunkId)
    requires GoodLayout(cfg) && ValidId(cfg, a) && ValidId(cfg, b) && a != b && a.file == b.file
    ensures OffsetOf(cfg, a) + SizeOf(cfg, a) <= OffsetOf(cfg, b)
         || OffsetOf(cfg, b) + SizeOf(cfg, b) <= OffsetOf(cfg, a)
  {
    var chunks := Chunks(cfg, a.file);
    assert a.file in cfg.files;
    if a.num < b.num {
      Layout.RangesDisjoint(chunks, a.num, b.num);
    } else {
      assert b.num < a.num;
      Layout.RangesDisjoint(chunks, b.num, a.num);
    }
  }

  /** One write: `data` goes over the file of chunk `id` from `k` bytes into its place. */
  ghost predicate Written(cfg: Config, before: Store, after: Store, id: ChunkId, k: nat, data: seq<Byte>) {
    && k + |data| <= SizeOf(cfg, id) && id.file in before.disk
    && after.disk == before.disk[id.file := Overwrite(before.disk[id.file], OffsetOf(cfg, id) + k, data)]
  }

  /** A write inside the range of chunk `id` leaves what is stored for another chunk. */
  lemma WriteElsewhere(cfg: Config, before: Store, after: Store, id: ChunkId, k: nat, data: seq<Byte>,
                       other: ChunkId, have: seq<Byte>)
    requires GoodLayout(cfg) && ValidId(cfg, id) && ValidId(cfg, other) && other != id
    requires Written(cfg, before, after, id, k, data)
    requires |have| <= SizeOf(cfg, other) && Stored(before, other.file, OffsetOf(cfg, other), have)
    ensures Stored(after, other.file, OffsetOf(cfg, other), have)
  {
    hide OffsetOf, SizeOf, ValidId, GoodLayout;
    if other.file == id.file {
      ChunksApart(cfg, id, other);
    }
  }

  lemma WriteKeepsVerified(cfg: Config, before: Store, after: Store, id: ChunkId, k: nat, data: seq<Byte>,
                           other: ChunkId)
    requires GoodLayout(cfg) && ValidId(cfg, id) && ValidId(cfg, other) && other != id
    requires Written(cfg, before, after, id, k, data)
    requires Verified(cfg, before, other)
    ensures Verified(cfg, after, other)
  {
    hide Written, OffsetOf, SizeOf, ValidId, ChecksumOf, GoodLayout, Stored;
    var have :| Genuine(cfg, other, have) && Stored(before, other.file, OffsetOf(cfg, other), have);
    WriteElsewhere(cfg, before, after, id, k, data, other, have);
  }

  /** A write changes no length, so nothing about what can be mapped. */
  lemma WriteKeepsMapped(cfg: Config, before: Store, after: Store, id: ChunkId, k: nat, data: seq<Byte>,
                         other: ChunkId, n: nat)
    requires Written(cfg, before, after, id, k, data)
    ensures Mapped(cfg, after, other, n) <==> Mapped(cfg, before, other, n)
  {
    hide OffsetOf, SizeOf;
  }

  lemma WriteKeepsCopied(cfg: Config, before: Store, after: Store, id: ChunkId, k: nat, data: seq<Byte>,
                         other: ChunkId, buf: seq<Byte>, n: nat)
    requires GoodLayout(cfg) && ValidId(cfg, id) && ValidId(cfg, other) && other != id
    requires Written(cfg, before, after, id, k, data)
    requires Genuine(cfg, other, buf) && CopiedTo(cfg, before, other, buf, n)
    ensures CopiedTo(cfg, after, other, buf, n)
  {
    hide Written, OffsetOf, SizeOf, ValidId, ChecksumOf, GoodLayout, Stored, Mapped;
    WriteElsewhere(cfg, before, after, id, k, data, other, buf[..n]);
    WriteKeepsMapped(cfg, before, after, id, k, data, other, n);
  }

  lemma WriteKeepsTask(cfg: Config, before: Store, after: Store, id: ChunkId, k: nat, data: seq<Byte>, t: Task)
    requires GoodLayout(cfg) && ValidId(cfg, id) && ValidId(cfg, t.id)
    requires Unreported(t.phase) || t.successes > 0 ==> t.id != id
    requires Written(cfg, before, after, id, k, data)
    requires TaskDisk(cfg, before, t)
    ensures TaskDisk(cfg, after, t)
  {
    hide Written, ValidId, Genuine, GoodLayout, CopiedTo;
    if t.phase.Writing? && t.phase.done > 0 {
      WriteKeepsCopied(cfg, before, after, id, k, data, t.id, t.buf, t.phase.done);
    }
    if HasCopied(t) {
      WriteKeepsCopied(cfg, before, after, id, k, data, t.id, t.buf, |t.buf|);
    }
  }

  // ----- steps -----

  /** The copy step that really writes. */
  predicate Writes(cfg: Config, s: State, t: nat, n: nat)
    requires t < |s.tasks|
  {
    var task := s.tasks[t];
    && task.phase.Writing? && task.phase.done < |task.buf| && task.phase.done + n <= |task.buf|
    && Mapped(cfg, s.store, task.id, task.phase.done + n)
  }

  lemma CopyShape(cfg: Config, s: State, t: nat, n: nat)
    requires t < |s.tasks| && Writes(cfg, s, t, n) && TaskDisk(cfg, s.store, s.tasks[t])
    ensures var u, task := CopyStep(cfg, s, t, n), s.tasks[t];
            var k := task.phase.done;
            && u.tasks == s.tasks[t := task.(phase := Writing(k + n))]
            && u.store.bits == s.store.bits
            && Written(cfg, s.store, u.store, task.id, k, task.buf[k..k + n])
  {
    hide OffsetOf, Overwrite, Stored;
  }

  lemma CopyKeepsOwn(cfg: Config, s: State, t: nat, n: nat)
    requires t < |s.tasks| && Writes(cfg, s, t, n) && TaskDisk(cfg, s.store, s.tasks[t])
    requires s.tasks[t].successes == 0
    ensures var u := CopyStep(cfg, s, t, n);
            |u.tasks| == |s.tasks| && TaskDisk(cfg, u.store, u.tasks[t])
  {
    hide CopyStep, SizeOf, ChecksumOf, OffsetOf, Stored, Mapped;
    var u, task := CopyStep(cfg, s, t, n), s.tasks[t];
    var k := task.phase.done;
    CopyShape(cfg, s, t, n);
    WriteKeepsMapped(cfg, s.store, u.store, task.id, k, task.buf[k..k + n], task.id, k + n);
    WriteGoesOn(cfg, s.store, u.store, task.id, task.buf, k, n);
  }

  /** Written behind what is stored already. */
  lemma WriteGoesOn(cfg: Config, before: Store, after: Store, id: ChunkId, buf: seq<Byte>, k: nat, n: nat)
    requires k + n <= |buf| && Written(cfg, before, after, id, k, buf[k..k + n])
    requires k > 0 ==> Stored(before, id.file, OffsetOf(cfg, id), buf[..k])
    ensures Stored(after, id.file, OffsetOf(cfg, id), buf[..k + n])
  {
    hide OffsetOf, SizeOf;
  }

  /** Writing bytes of one chunk disturbs no set bit and no other task. */
  lemma CopyKeepsDisk(cfg: Config, s: State, t: nat, n: nat)
    requires t < |s.tasks| && Writes(cfg, s, t, n)
    requires GoodLayout(cfg) && MeterFits(cfg, s) && Accounted(cfg, s) && DiskOk(cfg, s)
    ensures DiskOk(cfg, CopyStep(cfg, s, t, n))
  {
    hide CopyStep, Written, TaskDisk, Verified, ValidId, Places, GoodLayout, Mapped;
    assert ReportedOnce(s.tasks[t]);
    var u, task := CopyStep(cfg, s, t, n), s.tasks[t];
    var k := task.phase.done;
    CopyShape(cfg, s, t, n);
    CopyKeepsOwn(cfg, s, t, n);
    OneTaskPerChunk(cfg, s, t);
    assert TaskFit(cfg, task, s.meter.slots[t]);
    forall id | ValidId(cfg, id) && IsSet(u.store, id) ensures Verified(cfg, u.store, id) {
      WriteKeepsVerified(cfg, s.store, u.store, task.id, k, task.buf[k..k + n], id);
    }
    forall i | 0 <= i < |u.tasks| ensures TaskDisk(cfg, u.store, u.tasks[i]) {
      if i != t {
        assert TaskFit(cfg, s.tasks[i], s.meter.slots[i]);
        assert u.tasks[i] == s.tasks[i];
        WriteKeepsTask(cfg, s.store, u.store, task.id, k, task.buf[k..k + n], s.tasks[i]);
      }
    }
  }

  /** A step that does not write keeps what every task has on disk, and its own claim is earned. */
  lemma QuietTaskDisk(cfg: Config, s: State, t: nat, m: TaskMove)
    requires t < |s.tasks| == |s.meter.slots| && TaskFit(cfg, s.tasks[t], s.meter.slots[t])
    requires ReportedOnce(s.tasks[t]) && TaskDisk(cfg, s.store, s.tasks[t])
    requires m.Copy? ==> !Writes(cfg, s, t, m.n)
    ensures var u := TaskStep(cfg, s, t, m);
            u.store.disk == s.store.disk && TaskDisk(cfg, u.store, u.tasks[t])
  {
    if m.Verify? {
      VerifyDisk(cfg, s, t);
    } else if m.Copy? {
      CopyEnds(cfg, s, t, m.n);
    } else {
      OtherMoveDisk(cfg, s, t, m);
    }
  }

  lemma VerifyDisk(cfg: Config, s: State, t: nat)
    requires t < |s.tasks| == |s.meter.slots| && TaskFit(cfg, s.tasks[t], s.meter.slots[t])
    requires TaskDisk(cfg, s.store, s.tasks[t])
    ensures var u := VerifyStep(cfg, s, t);
            u.store.disk == s.store.disk && TaskDisk(cfg, u.store, u.tasks[t])
  {
    hide CopiedTo, ChecksumOf, SizeOf, ValidId;
  }

  lemma CopyEnds(cfg: Config, s: State, t: nat, n: nat)
    requires t < |s.tasks| && TaskDisk(cfg, s.store, s.tasks[t]) && !Writes(cfg, s, t, n)
    ensures var u := CopyStep(cfg, s, t, n);
            u.store.disk == s.store.disk && |u.tasks| == |s.tasks| && TaskDisk(cfg, u.store, u.tasks[t])
  {
    hide Overwrite, OffsetOf, ChecksumOf, SizeOf;
  }

  lemma OtherMoveDisk(cfg: Config, s: State, t: nat, m: TaskMove)
    requires t < |s.tasks| && ReportedOnce(s.tasks[t]) && TaskDisk(cfg, s.store, s.tasks[t]) && !m.Verify? && !m.Copy?
    ensures var u := TaskStep(cfg, s, t, m);
            u.store.disk == s.store.disk && |u.tasks| == |s.tasks| && TaskDisk(cfg, u.store, u.tasks[t])
  {
    hide Meter.Step, SockPool.Step, SetBit, Make, Countable, Mapped, Genuine, CopiedTo;
    SameDisk(cfg, s.store, TaskStep(cfg, s, t, m).store);
  }

  lemma SameDisk(cfg: Config, before: Store, after: Store)
    requires after.disk == before.disk
    ensures forall id :: Verified(cfg, after, id) <==> Verified(cfg, before, id)
    ensures forall t :: TaskDisk(cfg, after, t) <==> TaskDisk(cfg, before, t)
  {
    hide OffsetOf, SizeOf, ChecksumOf, ValidId;
  }

  /** A task is credited by the step that sets its bit. */
  lemma TaskStepSuccess(cfg: Config, s: State, t: nat, m: TaskMove)
    requires t < |s.tasks|
    ensures var u := TaskStep(cfg, s, t, m);
            |u.tasks| == |s.tasks|
            && u.tasks[t].successes == s.tasks[t].successes + if Credits(s, t, m) then 1 else 0
  {
    hide Meter.Step, SockPool.Step, Overwrite, SetBit, Make, Countable, Mapped;
  }

  lemma CreditsStaySet(cfg: Config, s: State, t: nat, m: TaskMove)
    requires t < |s.tasks| && Accounted(cfg, s) && CreditsSet(s)
    ensures CreditsSet(TaskStep(cfg, s, t, m))
  {
    hide TaskStep, Places, ValidId;
    var u := TaskStep(cfg, s, t, m);
    TaskStepOwn(cfg, s, t, m);
    TaskStepBits(cfg, s, t, m);
    TaskStepSuccess(cfg, s, t, m);
    assert ReportedOnce(s.tasks[t]);
    if Credits(s, t, m) {
      OneTaskPerChunk(cfg, s, t);
      SetBitSets(cfg, s.store, u.store, s.tasks[t].id);
    }
    forall i | 0 <= i < |u.tasks| && u.tasks[i].successes > 0 ensures IsSet(u.store, u.tasks[i].id) {
      if i != t {
        assert u.tasks[i] == s.tasks[i];
      }
    }
  }

  /** A bit is set only for a chunk that its task has just copied in full. */
  lemma CreditIsVerified(cfg: Config, s: State, t: nat, m: TaskMove)
    requires t < |s.tasks| && ReportedOnce(s.tasks[t]) && TaskDisk(cfg, s.store, s.tasks[t]) && Credits(s, t, m)
    ensures Verified(cfg, s.store, s.tasks[t].id)
  {
    hide OffsetOf, SizeOf, ChecksumOf, Stored, Mapped;
    assert s.tasks[t].buf[..|s.tasks[t].buf|] == s.tasks[t].buf;
  }

  lemma QuietTaskKeepsDisk(cfg: Config, s: State, t: nat, m: TaskMove)
    requires t < |s.tasks| && MeterFits(cfg, s) && Accounted(cfg, s) && DiskOk(cfg, s)
    requires m.Copy? ==> !Writes(cfg, s, t, m.n)
    ensures DiskOk(cfg, TaskStep(cfg, s, t, m))
  {
    hide TaskStep, TaskDisk, Verified, Places, Credits, Writes, TaskFit, ReportedOnce, CreditsSet;
    CreditsStaySet(cfg, s, t, m);
    var u := TaskStep(cfg, s, t, m);
    TaskStepOwn(cfg, s, t, m);
    TaskStepBits(cfg, s, t, m);
    QuietTaskDisk(cfg, s, t, m);
    SameDisk(cfg, s.store, u.store);
    if Credits(s, t, m) {
      CreditIsVerified(cfg, s, t, m);
    }
    forall id | ValidId(cfg, id) && IsSet(u.store, id) ensures Verified(cfg, u.store, id) {
      assert IsSet(s.store, id) || (Credits(s, t, m) && id == s.tasks[t].id);
    }
    forall i | 0 <= i < |u.tasks| ensures TaskDisk(cfg, u.store, u.tasks[i]) {
      if i != t {
        assert u.tasks[i] == s.tasks[i];
      }
    }
  }

  lemma TaskStepKeepsDisk(cfg: Config, s: State, t: nat, m: TaskMove)
    requires t < |s.tasks| && GoodLayout(cfg) && MeterFits(cfg, s) && Accounted(cfg, s) && DiskOk(cfg, s)
    ensures DiskOk(cfg, TaskStep(cfg, s, t, m))
  {
    hide DiskOk, Accounted, MeterFits, GoodLayout, CopyStep, Writes, ReceiveStep, VerifyStep, RequeueStep, SettleStep,
      ReleaseStep, CanThrow;
    if m.Copy? && Writes(cfg, s, t, m.n) {
      CopyKeepsDisk(cfg, s, t, m.n);
    } else {
      QuietTaskKeepsDisk(cfg, s, t, m);
    }
  }

  lemma OtherStepKeepsDisk(cfg: Config, s: State, a: Action)
    requires !a.Run? && DiskOk(cfg, s)
    ensures DiskOk(cfg, Step(cfg, s, a))
  {
    hide Step, TaskDisk, Verified, Meter.Active;
    var u := Step(cfg, s, a);
    OtherStepStore(cfg, s, a);
    OtherStepTasks(cfg, s, a);
    SameDisk(cfg, s.store, u.store);
    forall i | 0 <= i < |u.tasks| ensures TaskDisk(cfg, u.store, u.tasks[i]) {
      if i < |s.tasks| {
        assert u.tasks[i] == s.tasks[i];
      } else {
        NewTaskDisk(cfg, u.store, s.pc);
      }
    }
  }

  lemma NewTaskDisk(cfg: Config, store: Store, pc: Pc)
    requires pc.Ready?
    ensures TaskDisk(cfg, store, NewTask(pc))
  {
  }

  /** Everything the safety argument keeps. */
  ghost predicate Sound(cfg: Config, s: State) {
    Accounted(cfg, s) && MeterFits(cfg, s) && DiskOk(cfg, s)
  }

  lemma StepKeepsSound(cfg: Config, s: State, a: Action)
    requires GoodLayout(cfg) && Sound(cfg, s)
    ensures Sound(cfg, Step(cfg, s, a))
  {
    hide Accounted, MeterFits, DiskOk, GoodLayout, TaskStep;
    StepConserves(cfg, s, a);
    if a.Run? {
      if a.t < |s.tasks| {
        TaskStepKeepsFit(cfg, s, a.t, a.m);
        TaskStepKeepsDisk(cfg, s, a.t, a.m);
      }
    } else {
      OtherStepKeepsFit(cfg, s, a);
      OtherStepKeepsDisk(cfg, s, a);
    }
  }
}
