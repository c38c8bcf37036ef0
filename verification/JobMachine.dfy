// One download job as a transition system: the scheduler loop of Job::run and the callbacks
// onFinished and onFailed (client/src/job.cc), the tasks they start (client/src/download_task.cc),
// the collector, and every other user of the shared socket pool. Each action is one atomic step of
// one thread, and a run is any sequence of actions; an action that does not apply changes nothing.
module JobMachine {
  import opened Prelude
  import opened ChunkQueue
  import Layout
  import SockPool
  import Meter

  /**
   * What a job is about: the chunk list of each of its files, the checksum function, the limits, and how many bytes
   * from the start of the mapping of a file of a given length can be written without a fault.
   */
  datatype Config = Config(files: map<FileId, seq<Layout.Chunk>>, hash: Layout.Hash, lim: Meter.Limits,
                           room: nat -> nat)

  function Chunks(cfg: Config, f: FileId): seq<Layout.Chunk> {
    if f in cfg.files then cfg.files[f] else []
  }

  predicate ValidId(cfg: Config, id: ChunkId) {
    id.num < |Chunks(cfg, id.file)|
  }

  function SizeOf(cfg: Config, id: ChunkId): nat {
    if ValidId(cfg, id) then Chunks(cfg, id.file)[id.num].size else 0
  }

  /** No chunk of the job is larger than the limits say. */
  ghost predicate SizesFit(cfg: Config) {
    forall id :: ValidId(cfg, id) ==> SizeOf(cfg, id) <= cfg.lim.largest
  }

  function OffsetOf(cfg: Config, id: ChunkId): nat {
    Layout.ChunkOffset(Chunks(cfg, id.file), id.num)
  }

  function ChecksumOf(cfg: Config, id: ChunkId): Digest {
    Layout.ChunkChecksum(Chunks(cfg, id.file), id.num)
  }

  // ----- the scheduler thread -----

  /** Before a handshake: is the peer connected, is it being connected, or is it greeted. */
  datatype Dial = Ask | Dialing | Greeting

  /** Where Job::run stands, with the chunk it holds. */
  datatype Pc =
    | Top
    | Cleared
    | Popped(c: ChunkInfo)
    | Refreshing(c: ChunkInfo, rest: seq<ClientId>, dial: Dial)
    | Shaking(c: ChunkInfo, rest: seq<ClientId>, peer: ClientId, sock: Sock)
    | Gauging(c: ChunkInfo, loads: seq<real>)
    | Waiting(c: ChunkInfo, peer: ClientId)
    | Ready(c: ChunkInfo, peer: ClientId, sock: Sock)
    | Crashed(c: ChunkInfo)
    | Asserted(c: ChunkInfo, peer: ClientId, sock: Sock)
    | Drained
    | Removed
    | Joined(drained: bool)

  predicate HasChunk(pc: Pc) {
    || pc.Popped? || pc.Refreshing? || pc.Shaking? || pc.Gauging? || pc.Waiting? || pc.Ready? || pc.Crashed?
    || pc.Asserted?
  }

  predicate HasSock(pc: Pc) {
    pc.Shaking? || pc.Ready? || pc.Asserted?
  }

  // ----- the tasks -----

  /**
   * A task talks to the peer, receives, writes, and returns; or it throws. A throwing task is notified
   * as failed (requeue, then mark as reported) and then, like any other, as finished (settle, release).
   */
  datatype Phase =
    | Exchanging
    | Receiving
    | Writing(done: nat)
    | Returned
    | Threw
    | Requeued
    | Notified
    | Settled
    | Over

  /** `successes` and `failures` record how often the task was reported each way. */
  datatype Task = Task(id: ChunkId, peer: ClientId, sock: Sock, phase: Phase, buf: seq<Byte>, reported: bool,
                       successes: nat, failures: nat)

  datatype TaskMove =
    | Accept
    | Throw
    | Gate
    | Reserve
    | Receive(data: seq<Byte>)
    | Count
    | Verify
    | Copy(n: nat)
    | Requeue
    | MarkReported
    | Settle
    | Release

  /** A chunk and a socket that a throwing task start leaves behind. */
  datatype Lost = Lost(id: ChunkId, peer: ClientId, sock: Sock)

  /** The bitmaps, the files on disk, and the known owners of each file. */
  datatype Store = Store(bits: map<FileId, seq<bool>>, disk: map<FileId, seq<Byte>>, owners: Owners)

  /** The socket pool, and the sockets that others than this job have taken from it. */
  datatype Socks = Socks(net: SockPool.Net, outside: set<Sock>)

  datatype Flags = Flags(removed: bool, stopped: bool, paused: bool)

  datatype State = State(
    pc: Pc,
    queue: seq<ChunkInfo>,
    tasks: seq<Task>,
    lost: seq<Lost>,
    store: Store,
    socks: Socks,
    meter: Meter.State,
    flags: Flags)

  datatype Action =
    | SetFlags(removed: bool, stopped: bool, paused: bool)
    | Outside(op: SockPool.Op)
    | Snapshot
    | AddTotal
    | Reset
    | CheckFlags
    | Pop(i: nat)
    | Refresh(reply: seq<ClientId>)
    | Advance(dialed: bool)
    | ShakeDone(bitmap: Option<seq<bool>>)
    | Gauge
    | TakeSock(dialed: bool)
    | Start
    | StartThrows
    | StartAsserts
    | Join
    | Run(t: nat, m: TaskMove)

  /** Steps that other threads take: the tasks, the collector, flag changes, other users of the pool. */
  predicate OtherThread(a: Action) {
    a.SetFlags? || a.Outside? || a.Snapshot? || a.AddTotal? || a.Reset? || a.Run?
  }

  predicate IsSet(store: Store, id: ChunkId) {
    id.file in store.bits && id.num < |store.bits[id.file]| && store.bits[id.file][id.num]
  }

  // ----- scheduler steps -----

  /** get_chunk: any entry of highest priority, or the end of the loop. */
  function PopStep(s: State, i: nat): State {
    if !s.pc.Cleared? then s
    else if s.queue == [] then s.(pc := Drained)
    else if IsTop(s.queue, i) then s.(pc := Popped(s.queue[i]), queue := Without(s.queue, i))
    else s
  }

  /** For a chunk without owners the tracker is asked again; an empty answer keeps the old list. */
  function RefreshStep(s: State, reply: seq<ClientId>): State {
    if !s.pc.Popped? then s
    else
      var c := s.pc.c;
      if c.status != NoOwner || reply == [] then s.(pc := Gauging(c, []))
      else
        var renewed := seq(|reply|, i requires 0 <= i < |reply| => Owner(reply[i], []));
        s.(pc := Refreshing(c, reply, Ask), store := s.store.(owners := s.store.owners[c.id.file := renewed]))
  }

  function GreetStep(s: State, dialed: bool): State
    requires s.pc.Refreshing? && s.pc.rest != []
  {
    var c, peer := s.pc.c, s.pc.rest[0];
    var taken := SockPool.GetIdle(s.socks.net.pool, peer, dialed).1;
    var net := SockPool.Step(s.socks.net, SockPool.Take(peer, dialed));
    if !SockPool.IsConnected(s.socks.net.pool, peer) then s.(pc := Crashed(c))
    else if taken.Taken? then 
      s.(pc := Shaking(c, s.pc.rest[1..], peer, taken.sock), socks := s.socks.(net := net))
    else s.(pc := Crashed(c), socks := s.socks.(net := net))
  }

  /** The loop that connects and greets every listed owner; a failed assertion ends the thread. */
  function AdvanceStep(s: State, dialed: bool): State {
    if !s.pc.Refreshing? then s
    else
      var c, rest := s.pc.c, s.pc.rest;
      if rest == [] then s.(pc := Gauging(c, []))
      else
        match s.pc.dial
        case Ask =>
          s.(pc := Refreshing(c, rest, if SockPool.IsConnected(s.socks.net.pool, rest[0]) then Greeting else Dialing))
        case Dialing =>
          s.(pc := Refreshing(c, rest, Greeting),
             socks := s.socks.(net := SockPool.Step(s.socks.net, SockPool.Connect(rest[0], dialed))))
        case Greeting => GreetStep(s, dialed)
  }

  /** The bitmap of the first listed owner with that id. */
  function SetBitmap(list: seq<Owner>, client: ClientId, bitmap: seq<bool>): seq<Owner> {
    if list == [] then []
    else if list[0].client == client then [list[0].(bitmap := bitmap)] + list[1..]
    else [list[0]] + SetBitmap(list[1..], client, bitmap)
  }

  /** Position `i` is the first with this client. */
  predicate FirstAt(list: seq<Owner>, client: ClientId, i: nat) {
    i < |list| && list[i].client == client && forall j :: 0 <= j < i ==> list[j].client != client
  }

  /** The first owner with this id has the bitmap; nothing else has changed, and nothing at all if there is none. */
  ghost predicate BitmapStored(list: seq<Owner>, client: ClientId, bitmap: seq<bool>, after: seq<Owner>) {
    && |after| == |list|
    && forall i: nat :: i < |list| ==>
         after[i] == if FirstAt(list, client, i) then Owner(client, bitmap) else list[i]
  }

  lemma FirstBehind(list: seq<Owner>, client: ClientId, i: nat)
    requires list != [] && list[0].client != client && 0 < i < |list|
    ensures list[i] == list[1..][i - 1]
    ensures FirstAt(list, client, i) <==> FirstAt(list[1..], client, i - 1)
  {
    if FirstAt(list[1..], client, i - 1) {
      forall j | 0 <= j < i ensures list[j].client != client {
        if j > 0 {
          assert list[j] == list[1..][j - 1];
        }
      }
    }
  }

  lemma {:induction false} SetBitmapStores(list: seq<Owner>, client: ClientId, bitmap: seq<bool>)
    ensures BitmapStored(list, client, bitmap, SetBitmap(list, client, bitmap))
  {
    hide FirstAt;
    FirstAtStart(list, client);
    if list != [] && list[0].client != client {
      SetBitmapStores(list[1..], client, bitmap);
      forall i: nat | 0 < i < |list| ensures list[i] == list[1..][i - 1]
        ensures FirstAt(list, client, i) <==> FirstAt(list[1..], client, i - 1)
      {
        FirstBehind(list, client, i);
      }
    }
  }

  lemma FirstAtStart(list: seq<Owner>, client: ClientId)
    ensures FirstAt(list, client, 0) <==> list != [] && list[0].client == client
    ensures list != [] && list[0].client == client ==> forall i: nat :: FirstAt(list, client, i) ==> i == 0
  {
  }

  function ShakeDoneStep(s: State, bitmap: Option<seq<bool>>): State {
    if !s.pc.Shaking? then s
    else
      var f := s.pc.c.id.file;
      s.(pc := Refreshing(s.pc.c, s.pc.rest, Ask),
         socks := s.socks.(net := SockPool.Step(s.socks.net, SockPool.GiveBack(s.pc.peer, s.pc.sock))),
         store := if bitmap.Some? && f in s.store.owners
                  then s.store.(owners := s.store.owners[f := SetBitmap(s.store.owners[f], s.pc.peer, bitmap.value)])
                  else s.store)
  }

  /** min_element: the position of the first smallest load. */
  function FirstMin(loads: seq<real>): (k: nat)
    requires loads != []
    ensures SockPool.IsArgMin(loads, k)
  {
    if |loads| == 1 then 0
    else
      var n := |loads| - 1;
      var k := FirstMin(loads[..n]);
      assert forall j :: 0 <= j < n ==> loads[..n][j] == loads[j];
      if loads[n] < loads[k] then n else k
  }

  function GaugeStep(s: State): State {
    if !s.pc.Gauging? then s
    else
      var c, loads := s.pc.c, s.pc.loads;
      if c.clients == [] then
        if Countable(s.store.owners, c.id) then
          s.(pc := Top, queue := s.queue + [Make(s.store.owners, NoOwner, c.id)])
        else s
      else if |loads| < |c.clients| then
        s.(pc := Gauging(c, loads + [SockPool.Load(s.socks.net.pool, c.clients[|loads|])]))
      else
        var k := FirstMin(loads);
        if k < |c.clients| then s.(pc := Waiting(c, c.clients[k])) else s
  }

  function TakeSockStep(s: State, dialed: bool): State {
    if !s.pc.Waiting? then s
    else
      var c, peer := s.pc.c, s.pc.peer;
      var taken := SockPool.GetIdle(s.socks.net.pool, peer, dialed).1;
      var next := s.(socks := s.socks.(net := SockPool.Step(s.socks.net, SockPool.Take(peer, dialed))));
      if taken.Taken? then next.(pc := Ready(c, peer, taken.sock))
      else if taken.NullPrototype? || peer !in s.socks.net.pool.conds then next.(pc := Crashed(c))
      else next
  }

  /** A thread of the pool is free, and the chunk is one of the job's. */
  predicate CanStart(cfg: Config, s: State) {
    && s.pc.Ready?
    && ValidId(cfg, s.pc.c.id)
    && Meter.Active(s.meter.slots) < cfg.lim.threads
  }

  function NewTask(pc: Pc): Task
    requires pc.Ready?
  {
    Task(pc.c.id, pc.peer, pc.sock, Exchanging, [], false, 0, 0)
  }

  function StartStep(cfg: Config, s: State): State {
    if !CanStart(cfg, s) then s
    else s.(pc := Top, tasks := s.tasks + [NewTask(s.pc)],
            meter := Meter.Step(cfg.lim, s.meter, Meter.Begin(SizeOf(cfg, s.pc.c.id))))
  }

  function StartThrowsStep(s: State): State {
    if !s.pc.Ready? then s
    else s.(pc := Top, lost := s.lost + [Lost(s.pc.c.id, s.pc.peer, s.pc.sock)])
  }

  /** The first entry of the file is not stored: the assertion ends the thread, chunk and socket in hand. */
  function StartAssertsStep(s: State): State {
    if !s.pc.Ready? then s else s.(pc := Asserted(s.pc.c, s.pc.peer, s.pc.sock))
  }

  predicate AllOver(tasks: seq<Task>) {
    forall i :: 0 <= i < |tasks| ==> tasks[i].phase.Over?
  }

  function JoinStep(s: State): State {
    if (s.pc.Drained? || s.pc.Removed?) && AllOver(s.tasks) then s.(pc := Joined(s.pc.Drained?)) else s
  }

  // ----- task steps -----

  function SetTask(s: State, t: nat, task: Task): State
    requires t < |s.tasks|
  {
    s.(tasks := s.tasks[t := task])
  }

  function MeterMove(cfg: Config, s: State, t: nat, m: Meter.Move): State {
    s.(meter := Meter.Step(cfg.lim, s.meter, Meter.Action.Task(t, m)))
  }

  function SlotOf(s: State, t: nat): Meter.Slot {
    if t < |s.meter.slots| then s.meter.slots[t] else Meter.Off
  }

  /** At the head of the receive loop, with bytes still missing. */
  predicate Looping(slot: Meter.Slot) {
    slot.Loop? && slot.left > 0
  }

  /**
   * An exception can leave runTask during the message exchange, on a stop flag, from the socket, or when the
   * file is mapped for the copy.
   */
  predicate CanThrow(s: State, t: nat)
    requires t < |s.tasks|
  {
    || s.tasks[t].phase.Exchanging?
    || (s.tasks[t].phase.Receiving? && Looping(SlotOf(s, t)) && (s.flags.stopped || s.flags.removed))
    || (s.tasks[t].phase.Receiving? && SlotOf(s, t).Reserved?)
    || s.tasks[t].phase == Writing(0)
  }

  function ReceiveStep(cfg: Config, s: State, t: nat, data: seq<Byte>): State
    requires t < |s.tasks|
  {
    var task, slot := s.tasks[t], SlotOf(s, t);
    if task.phase.Receiving? && slot.Reserved? && 1 <= |data| <= slot.ask then
      MeterMove(cfg, SetTask(s, t, task.(buf := task.buf + data)), t, Meter.Receive(|data|))
    else s
  }

  /** All bytes are there: the checksum decides between writing and an exception. */
  function VerifyStep(cfg: Config, s: State, t: nat): State
    requires t < |s.tasks|
  {
    var task, slot := s.tasks[t], SlotOf(s, t);
    if task.phase.Receiving? && slot.Loop? && slot.left == 0 then
      SetTask(s, t, task.(phase := if cfg.hash(task.buf) == ChecksumOf(cfg, task.id) then Writing(0) else Threw))
    else s
  }

  /** Bytes `data` written over a file from position `at`; the file keeps its length, and what is beyond is lost. */
  function Overwrite(d: seq<Byte>, at: nat, data: seq<Byte>): (e: seq<Byte>)
    ensures |e| == |d|
  {
    seq(|d|, i requires 0 <= i < |d| => if at <= i < at + |data| then data[i - at] else d[i])
  }

  /**
   * The file can be mapped, which one without bytes cannot, and `n` bytes from the chunk's place on can be written
   * through the mapping.
   */
  predicate Mapped(cfg: Config, store: Store, id: ChunkId, n: nat) {
    && id.file in store.disk && store.disk[id.file] != []
    && (n == 0 || OffsetOf(cfg, id) + n <= cfg.room(|store.disk[id.file]|))
  }

  /**
   * memcpy into the mapped file, `n` bytes at a time. Bytes beyond the end of the file are dropped, as on the rest
   * of its last page; beyond what the mapping has room for a write ends the process, which takes no further step.
   */
  function CopyStep(cfg: Config, s: State, t: nat, n: nat): State
    requires t < |s.tasks|
  {
    var task := s.tasks[t];
    if !task.phase.Writing? then s
    else
      var k := task.phase.done;
      var f, at := task.id.file, OffsetOf(cfg, task.id) + k;
      if k >= |task.buf| then
        if Mapped(cfg, s.store, task.id, 0) then SetTask(s, t, task.(phase := Returned)) else s
      else if k + n <= |task.buf| && Mapped(cfg, s.store, task.id, k + n) then
        SetTask(s, t, task.(phase := Writing(k + n))).(
          store := s.store.(disk := s.store.disk[f := Overwrite(s.store.disk[f], at, task.buf[k..k + n])]))
      else s
  }

  /** onFailed: the chunk goes back into the queue, then the task is marked as reported. */
  function RequeueStep(s: State, t: nat): State
    requires t < |s.tasks|
  {
    var task := s.tasks[t];
    if task.phase.Threw? && Countable(s.store.owners, task.id) then
      SetTask(s, t, task.(phase := Requeued, failures := task.failures + 1)).(
        queue := s.queue + [Make(s.store.owners, Failed, task.id)])
    else s
  }

  function SetBit(bits: map<FileId, seq<bool>>, id: ChunkId): map<FileId, seq<bool>> {
    if id.file in bits && id.num < |bits[id.file]| then bits[id.file := bits[id.file][id.num := true]] else bits
  }

  /** onFinished, first part: a task not yet reported sets the bit of its chunk. */
  function SettleStep(s: State, t: nat): State
    requires t < |s.tasks|
  {
    var task := s.tasks[t];
    if task.phase.Returned? || task.phase.Notified? then
      if task.reported then SetTask(s, t, task.(phase := Settled))
      else
        SetTask(s, t, task.(phase := Settled, reported := true, successes := task.successes + 1)).(
          store := s.store.(bits := SetBit(s.store.bits, task.id)))
    else s
  }

  /** onFinished, second part: the socket and then the thread are given back. */
  function ReleaseStep(cfg: Config, s: State, t: nat): State
    requires t < |s.tasks|
  {
    var task := s.tasks[t];
    if task.phase.Settled? then
      MeterMove(cfg, SetTask(s, t, task.(phase := Over)), t, Meter.Quit).(
        socks := s.socks.(net := SockPool.Step(s.socks.net, SockPool.GiveBack(task.peer, task.sock))))
    else s
  }

  function TaskStep(cfg: Config, s: State, t: nat, m: TaskMove): State
    requires t < |s.tasks|
  {
    var task := s.tasks[t];
    match m
    case Accept => if task.phase.Exchanging? then SetTask(s, t, task.(phase := Receiving)) else s
    case Throw =>
      if CanThrow(s, t) then MeterMove(cfg, SetTask(s, t, task.(phase := Threw)), t, Meter.Drop) else s
    case Gate =>
      if task.phase.Receiving? && !s.flags.stopped && !s.flags.removed && !s.flags.paused then
        MeterMove(cfg, s, t, Meter.Gate)
      else s
    case Reserve => if task.phase.Receiving? then MeterMove(cfg, s, t, Meter.Reserve) else s
    case Receive(data) => ReceiveStep(cfg, s, t, data)
    case Count => if task.phase.Receiving? then MeterMove(cfg, s, t, Meter.Add) else s
    case Verify => VerifyStep(cfg, s, t)
    case Copy(n) => CopyStep(cfg, s, t, n)
    case Requeue => RequeueStep(s, t)
    case MarkReported =>
      if task.phase.Requeued? then SetTask(s, t, task.(phase := Notified, reported := true)) else s
    case Settle => SettleStep(s, t)
    case Release => ReleaseStep(cfg, s, t)
  }

  // ----- steps of the environment -----

  /** Another job or a handshake uses the pool; it gives back only what it took. */
  function OutsideStep(s: State, op: SockPool.Op): State {
    match op
    case Connect(_, _) => s.(socks := s.socks.(net := SockPool.Step(s.socks.net, op)))
    case Take(c, dialed) =>
      var taken := SockPool.GetIdle(s.socks.net.pool, c, dialed).1;
      s.(socks := Socks(SockPool.Step(s.socks.net, op),
                        if taken.Taken? then s.socks.outside + {taken.sock} else s.socks.outside))
    case GiveBack(c, x) =>
      if x in s.socks.outside && x in s.socks.net.held && s.socks.net.held[x] == c then
        s.(socks := Socks(SockPool.Step(s.socks.net, op), s.socks.outside - {x}))
      else s
  }

  function CollectStep(cfg: Config, s: State, a: Meter.Action): State {
    s.(meter := Meter.Step(cfg.lim, s.meter, a))
  }

  function Step(cfg: Config, s: State, a: Action): State {
    match a
    case SetFlags(removed, stopped, paused) => s.(flags := Flags(removed, stopped, paused))
    case Outside(op) => OutsideStep(s, op)
    case Snapshot => CollectStep(cfg, s, Meter.Snapshot)
    case AddTotal => CollectStep(cfg, s, Meter.AddTotal)
    case Reset => CollectStep(cfg, s, Meter.Reset)
    case CheckFlags =>
      if !s.pc.Top? then s
      else if s.flags.removed then s.(pc := Removed)
      else if s.flags.stopped || s.flags.paused then s
      else s.(pc := Cleared)
    case Pop(i) => PopStep(s, i)
    case Refresh(reply) => RefreshStep(s, reply)
    case Advance(dialed) => AdvanceStep(s, dialed)
    case ShakeDone(bitmap) => ShakeDoneStep(s, bitmap)
    case Gauge => GaugeStep(s)
    case TakeSock(dialed) => TakeSockStep(s, dialed)
    case Start => StartStep(cfg, s)
    case StartThrows => StartThrowsStep(s)
    case StartAsserts => StartAssertsStep(s)
    case Join => JoinStep(s)
    case Run(t, m) => if t < |s.tasks| then TaskStep(cfg, s, t, m) else s
  }

  function Exec(cfg: Config, s: State, acts: seq<Action>): State {
    if acts == [] then s else Step(cfg, Exec(cfg, s, acts[..|acts| - 1]), acts[|acts| - 1])
  }
}
