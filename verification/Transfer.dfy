// One chunk from peer to peer: the send loop of UploadTask and the receive loop of DownloadTask
// (client/src/upload_task.cc, client/src/download_task.cc) over a FIFO byte stream. What the network and
// the other threads do in each round of a loop is given as an event.
module Transfer {
  import opened Prelude
  import opened Bags
  import opened Streams
  import Layout
  import Meter
  import MeterRounds
  import opened JobMachine

  /** A file mapped into memory. */
  class MappedFile {
    var bytes: seq<Byte>

    constructor (bytes: seq<Byte>)
      ensures this.bytes == bytes
    {
      this.bytes := bytes;
    }
  }

  /** How a task ended; a loop that still waits for events is unfinished. */
  datatype Outcome = Done | Thrown | Mismatch | Unfinished

  /** One round of the send loop: the flags it reads, and what sendBytes returns. */
  datatype SendEvent = SendEvent(stopped: bool, removed: bool, sent: int)

  /** One round of the receive loop: the flags, two readings of the shared counter, and what arrives. */
  datatype ReceiveEvent = ReceiveEvent(stopped: bool, removed: bool, paused: bool,
                                       usedAtGate: nat, usedAtQuota: nat, arrived: int)

  /** The send loop as a function: bytes sent and outcome. */
  function SendRun(size: nat, sent: nat, events: seq<SendEvent>): (nat, Outcome)
    decreases |events|
  {
    if sent >= size then (sent, Done)
    else if events == [] then (sent, Unfinished)
    else
      var e := events[0];
      var n := Min(e.sent, size - sent);
      if e.stopped || e.removed || n <= 0 then (sent, Thrown) else SendRun(size, sent + n, events[1..])
  }

  /** The receive loop as a function: bytes received and outcome, from `pipe` bytes on the stream. */
  function ReceiveRun(limit: nat, size: nat, got: nat, pipe: nat, events: seq<ReceiveEvent>): (nat, Outcome)
    decreases |events|
  {
    if got >= size then (got, Done)
    else if events == [] then (got, Unfinished)
    else
      var e := events[0];
      var quota := Meter.Quota(limit, e.usedAtQuota);
      if e.stopped || e.removed then (got, Thrown)
      else if e.paused || e.usedAtGate > limit || quota <= 0 then ReceiveRun(limit, size, got, pipe, events[1..])
      else
        var n := Min(e.arrived, Min(Min(quota, size - got), pipe));
        if n <= 0 then (got, Thrown) else ReceiveRun(limit, size, got + n, pipe - n, events[1..])
  }

  /** The send loop ends well when every call sends something and there are enough calls. */
  lemma {:induction false} SendRunCompletes(size: nat, sent: nat, events: seq<SendEvent>)
    requires sent <= size && |events| >= size - sent
    requires forall i :: 0 <= i < |events| ==> !events[i].stopped && !events[i].removed && events[i].sent > 0
    ensures SendRun(size, sent, events) == (size, Done)
    decreases |events|
  {
    if sent < size {
      SendRunCompletes(size, sent + Min(events[0].sent, size - sent), events[1..]);
    }
  }

  /** The receive loop never takes more than the chunk, and is done exactly when it has all of it. */
  lemma {:induction false} RunStopsAtSize(limit: nat, size: nat, got: nat, pipe: nat, events: seq<ReceiveEvent>)
    requires got <= size
    ensures var (n, out) := ReceiveRun(limit, size, got, pipe, events);
            got <= n <= size && (out == Done <==> n == size) && n - got <= pipe && out != Mismatch
    decreases |events|
  {
    hide Meter.Quota;
    if got < size && events != [] {
      var e := events[0];
      RunStopsAtSize(limit, size, got, pipe, events[1..]);
      var n := Min(e.arrived, Min(Min(Meter.Quota(limit, e.usedAtQuota), size - got), pipe));
      if n > 0 {
        RunStopsAtSize(limit, size, got + n, pipe - n, events[1..]);
      }
    }
  }

  /**
   * The receive loop ends well when the chunk is on the stream, nobody stops it, and enough rounds find it
   * neither paused nor over the limit with something arriving.
   */
  lemma {:induction false} ReceiveRunCompletes(limit: nat, size: nat, got: nat, pipe: nat, events: seq<ReceiveEvent>)
    requires got <= size && size - got <= pipe && |events| >= size - got && limit <= Meter.INT_MAX
    requires forall i :: 0 <= i < |events| ==>
               && !events[i].stopped && !events[i].removed && !events[i].paused && events[i].arrived > 0
               && events[i].usedAtGate <= limit && events[i].usedAtQuota < limit
    ensures ReceiveRun(limit, size, got, pipe, events) == (size, Done)
    decreases |events|
  {
    if got < size {
      var e := events[0];
      Meter.QuotaExact(limit, e.usedAtQuota);
      var n := Min(e.arrived, Min(Min(limit - e.usedAtQuota, size - got), pipe));
      ReceiveRunCompletes(limit, size, got + n, pipe - n, events[1..]);
    }
  }

  /** What one round may take: nothing while paused or over the limit, else what the second reading leaves. */
  function Allowance(limit: nat, e: ReceiveEvent): nat {
    if e.paused || e.usedAtGate > limit || e.usedAtQuota >= limit then 0 else limit - e.usedAtQuota
  }

  function Allowances(limit: nat, events: seq<ReceiveEvent>): seq<nat> {
    seq(|events|, i requires 0 <= i < |events| => Allowance(limit, events[i]))
  }

  /** The counter is not beyond the limit by more than the quota arithmetic stands. */
  predicate Readable(limit: nat, events: seq<ReceiveEvent>) {
    forall i :: 0 <= i < |events| ==> events[i].usedAtQuota <= limit + Meter.INT_MAX + 1
  }

  lemma AllowanceIs(limit: nat, e: ReceiveEvent)
    ensures !e.paused && e.usedAtGate <= limit && e.usedAtQuota <= limit ==>
              Allowance(limit, e) == limit - e.usedAtQuota
  {
  }

  lemma NoAllowances(limit: nat, events: seq<ReceiveEvent>)
    ensures Sum(Allowances(limit, events[..0])) == 0
  {
  }

  lemma {:induction false} AllowancesGrow(limit: nat, events: seq<ReceiveEvent>, k: nat)
    requires k <= |events|
    ensures Sum(Allowances(limit, events[..k])) <= Sum(Allowances(limit, events))
    decreases |events| - k
  {
    if k == |events| {
      assert events[..k] == events;
    } else {
      AllowancesNext(limit, events, k);
      AllowancesGrow(limit, events, k + 1);
    }
  }

  lemma AllowancesNext(limit: nat, events: seq<ReceiveEvent>, k: nat)
    requires k < |events|
    ensures Sum(Allowances(limit, events[..k + 1])) == Sum(Allowances(limit, events[..k])) + Allowance(limit, events[k])
  {
    SumAppend(Allowances(limit, events[..k]), Allowance(limit, events[k]));
    assert Allowances(limit, events[..k + 1]) == Allowances(limit, events[..k]) + [Allowance(limit, events[k])];
  }

  class UploadTask {
    const content: seq<Byte>
    var nSend: nat
    /** What this task has added to the shared upload counter. */
    var counted: nat

    /** The slice of the file that was asked for. */
    constructor (file: seq<Byte>, offset: nat, chunkSize: nat)
      requires offset + chunkSize <= |file|
      ensures content == file[offset..offset + chunkSize] && nSend == 0 && counted == 0
    {
      content := file[offset..offset + chunkSize];
      nSend := 0;
      counted := 0;
    }

    ghost predicate Fresh()
      reads this
    {
      nSend == 0 && counted == 0
    }

    /** What is sent is on the stream. */
    ghost predicate Sent()
      reads this
    {
      nSend <= |content| && counted == nSend
    }

    /** One round of the loop; sendBytes takes at most what it is given. False when the round throws. */
    method SendOnce(sock: Stream, e: SendEvent) returns (ok: bool)
      requires Sent() && nSend < |content|
      modifies this, sock
      ensures Sent()
      ensures ok <==> !e.stopped && !e.removed && e.sent > 0
      ensures nSend == if ok then old(nSend) + Min(e.sent, |content| - old(nSend)) else old(nSend)
      ensures sock.bytes == old(sock.bytes) + content[old(nSend)..nSend]
    {
      if e.stopped {
        return false;
      } else if e.removed {
        return false;
      }
      var sendThisTime := Min(e.sent, |content| - nSend);
      if sendThisTime <= 0 {
        return false;
      }
      sock.SendBytes(content[nSend..nSend + sendThisTime]);
      nSend := nSend + sendThisTime;
      counted := counted + sendThisTime;
      ok := true;
    }

    method RunTask(sock: Stream, events: seq<SendEvent>) returns (out: Outcome)
      requires Fresh()
      modifies this, sock
      ensures (nSend, out) == SendRun(|content|, 0, events)
      ensures Sent() && sock.bytes == old(sock.bytes) + content[..nSend]
    {
      var k := 0;
      while nSend < |content| && k < |events|
        invariant Sent() && k <= |events|
        invariant SendRun(|content|, nSend, events[k..]) == SendRun(|content|, 0, events)
        invariant sock.bytes == old(sock.bytes) + content[..nSend]
      {
        ghost var before := nSend;
        var ok := SendOnce(sock, events[k]);
        assert content[..before] + content[before..nSend] == content[..nSend];
        assert events[k..][1..] == events[k + 1..];
        if !ok {
          return Thrown;
        }
        k := k + 1;
      }
      out := if nSend == |content| then Done else Unfinished;
    }
  }

  lemma BelowQuota(limit: nat, used: nat)
    ensures used <= limit + Meter.INT_MAX + 1 && Meter.Quota(limit, used) > 0 ==>
              Meter.Quota(limit, used) <= limit - used
    ensures 0 < limit - used <= Meter.INT_MAX ==> Meter.Quota(limit, used) == limit - used
  {
    hide Meter.Quota;
    Meter.QuotaExact(limit, used);
    if used <= limit + Meter.INT_MAX + 1 {
      Meter.QuotaBelow(limit, used);
    }
  }

  /** A round that takes `n` bytes, as the loop does, makes the moves of a metered slot. */
  lemma RoundMoves(limit: nat, left: nat, e: ReceiveEvent, n: nat)
    requires n <= left && (n > 0 ==> e.usedAtGate <= limit && n <= Meter.Quota(limit, e.usedAtQuota))
    requires n == 0 && e.usedAtGate <= limit && left > 0 ==> Meter.Quota(limit, e.usedAtQuota) <= 0
    ensures forall lim: Meter.Limits :: lim.limit == limit ==>
              MeterRounds.Round(lim, Meter.Loop(left), e.usedAtGate, e.usedAtQuota, n) == Meter.Loop(left - n)
  {
    hide Meter.Quota;
  }

  class DownloadTask {
    const chunks: seq<Layout.Chunk>
    const pos: nat
    const limit: nat
    var recvBuffer: seq<Byte>
    var nRecv: nat
    var nLeft: int
    /** What this task has added to the shared download counter. */
    var counted: nat

    constructor (chunks: seq<Layout.Chunk>, pos: nat, limit: nat)
      ensures this.chunks == chunks && this.pos == pos && this.limit == limit
      ensures recvBuffer == [] && nRecv == 0 && nLeft == Layout.ChunkSize(chunks, pos) && counted == 0
    {
      this.chunks := chunks;
      this.pos := pos;
      this.limit := limit;
      recvBuffer := [];
      nRecv := 0;
      nLeft := Layout.ChunkSize(chunks, pos);
      counted := 0;
    }

    ghost predicate Fresh()
      reads this
    {
      recvBuffer == [] && nRecv == 0 && nLeft == Layout.ChunkSize(chunks, pos) && counted == 0
    }

    /** The bytes received, those still missing, and those still in the pipe. */
    ghost predicate InStep(pipe0: seq<Byte>, pipe: seq<Byte>)
      reads this
    {
      && nRecv == |recvBuffer| == counted && nLeft >= 0
      && nRecv + nLeft == Layout.ChunkSize(chunks, pos)
      && pipe0 == recvBuffer + pipe
    }

    /** receiveBytes puts `n` bytes of the stream behind those already received. */
    method TakeBytes(sock: Stream, n: nat)
      requires n <= |sock.bytes| && n <= nLeft
      requires nRecv == |recvBuffer| == counted
      modifies this, sock
      ensures recvBuffer == old(recvBuffer) + old(sock.bytes)[..n] && sock.bytes == old(sock.bytes)[n..]
      ensures recvBuffer + sock.bytes == old(recvBuffer + sock.bytes)
      ensures nRecv == old(nRecv) + n && nLeft == old(nLeft) - n && counted == old(counted) + n
    {
      assert sock.bytes == sock.bytes[..n] + sock.bytes[n..];
      var data := sock.ReceiveBytes(n);
      recvBuffer := recvBuffer + data;
      counted := counted + n;
      nRecv := nRecv + n;
      nLeft := nLeft - n;
    }

    /** One round of the loop: how many bytes it takes, or nothing when it throws. */
    function Round(pipe: nat, e: ReceiveEvent): Option<nat>
      reads this
      requires nLeft >= 0
    {
      var quota := Meter.Quota(limit, e.usedAtQuota);
      if e.stopped || e.removed then None
      else if e.paused || e.usedAtGate > limit || quota <= 0 then Some(0)
      else
        var n := Min(e.arrived, Min(Min(quota, nLeft), pipe));
        if n <= 0 then None else Some(n)
    }

    /** It stops on a flag, waits while paused or over the limit, and otherwise receives within the quota. */
    method ReceiveOnce(sock: Stream, e: ReceiveEvent) returns (ok: bool)
      requires nRecv == |recvBuffer| == counted && nLeft >= 0
      modifies this, sock
      ensures ok <==> old(Round(|sock.bytes|, e)).Some?
      ensures var n := if ok then old(Round(|sock.bytes|, e)).value else 0;
              && nRecv == old(nRecv) + n && nLeft == old(nLeft) - n && counted == old(counted) + n && nLeft >= 0
              && |recvBuffer| == nRecv
      ensures recvBuffer + sock.bytes == old(recvBuffer + sock.bytes)
      ensures e.stopped || e.removed ==> !ok
      ensures e.stopped || e.removed || e.paused || e.usedAtGate > limit ==> nRecv == old(nRecv)
      ensures nRecv > old(nRecv) && e.usedAtQuota <= limit + Meter.INT_MAX + 1 ==>
                nRecv - old(nRecv) <= limit - e.usedAtQuota
      ensures !e.stopped && !e.removed && !e.paused && e.usedAtGate <= limit
              && 0 < limit - e.usedAtQuota <= Meter.INT_MAX ==>
                var n := Min(e.arrived, Min(Min(limit - e.usedAtQuota, old(nLeft)), old(|sock.bytes|)));
                (ok <==> n > 0) && nRecv == old(nRecv) + (if n > 0 then n else 0)
      ensures ok && !e.paused ==>
                forall lim: Meter.Limits :: lim.limit == limit ==>
                  MeterRounds.Round(lim, Meter.Loop(old(nLeft)), e.usedAtGate, e.usedAtQuota, nRecv - old(nRecv)) ==
                  Meter.Loop(nLeft)
    {
      hide Meter.Quota, Meter.MoveSlot;
      BelowQuota(limit, e.usedAtQuota);
      if e.stopped {
        return false;
      } else if e.removed {
        return false;
      }
      if !e.paused && e.usedAtGate <= limit {
        var quota := Meter.Quota(limit, e.usedAtQuota);
        if quota > 0 {
          var wanted := if quota > nLeft then nLeft else quota;
          var n := Min(e.arrived, Min(wanted, |sock.bytes|));
          if n <= 0 {
            return false;
          }
          TakeBytes(sock, n);
        }
      }
      ok := true;
      if !e.paused {
        RoundMoves(limit, old(nLeft), e, nRecv - old(nRecv));
      }
    }

    /** The receive loop. */
    method ReceiveAll(sock: Stream, events: seq<ReceiveEvent>) returns (out: Outcome)
      requires pos < |chunks| && Fresh()
      modifies this, sock
      ensures (nRecv, out) == ReceiveRun(limit, chunks[pos].size, 0, |old(sock.bytes)|, events)
      ensures InStep(old(sock.bytes), sock.bytes)
      ensures Readable(limit, events) ==> nRecv <= Sum(Allowances(limit, events))
    {
      hide Meter.Quota, Allowances, Allowance, Sum, MeterRounds.Round;
      NoAllowances(limit, events);
      var chunkSize := chunks[pos].size;
      var k := 0;
      while nRecv < chunkSize && k < |events|
        invariant k <= |events| && InStep(old(sock.bytes), sock.bytes)
        invariant Readable(limit, events) ==> nRecv <= Sum(Allowances(limit, events[..k]))
        invariant ReceiveRun(limit, chunkSize, nRecv, |sock.bytes|, events[k..]) ==
                  ReceiveRun(limit, chunkSize, 0, |old(sock.bytes)|, events)
      {
        ghost var before := nRecv;
        var ok := ReceiveOnce(sock, events[k]);
        assert events[k..][1..] == events[k + 1..];
        AllowancesNext(limit, events, k);
        AllowancesGrow(limit, events, k + 1);
        if !ok {
          return Thrown;
        }
        assert Readable(limit, events) ==> nRecv - before <= Allowance(limit, events[k]) by {
          AllowanceIs(limit, events[k]);
        }
        k := k + 1;
      }
      AllowancesGrow(limit, events, k);
      out := if nRecv == chunkSize then Done else Unfinished;
    }

    /** After the loop: the checksum decides, the file is mapped, and the chunk is copied to its offset. */
    method Finish(file: MappedFile, maps: bool, hash: Layout.Hash) returns (out: Outcome)
      requires pos < |chunks|
      modifies file
      ensures out == (if hash(recvBuffer) != chunks[pos].checksum then Mismatch else if maps then Done else Thrown)
      ensures file.bytes == if out == Done
                            then Overwrite(old(file.bytes), Layout.ChunkOffset(chunks, pos), recvBuffer)
                            else old(file.bytes)
    {
      if hash(recvBuffer) != Layout.ChunkChecksum(chunks, pos) {
        return Mismatch;
      }
      if !maps {
        return Thrown;
      }
      file.bytes := Overwrite(file.bytes, Layout.ChunkOffset(chunks, pos), recvBuffer);
      out := Done;
    }

    /** Receives the chunk, checks it, maps the file, and writes at the chunk's offset; nothing is written otherwise. */
    method RunTask(sock: Stream, file: MappedFile, maps: bool, hash: Layout.Hash, events: seq<ReceiveEvent>)
      returns (out: Outcome)
      requires pos < |chunks| && Fresh()
      modifies this, sock, file
      ensures InStep(old(sock.bytes), sock.bytes)
      ensures out == (var (n, o) := ReceiveRun(limit, chunks[pos].size, 0, |old(sock.bytes)|, events);
                      if o != Done then o
                      else if hash(recvBuffer) != chunks[pos].checksum then Mismatch
                      else if maps then Done else Thrown)
      ensures out == Done || out == Mismatch ==> nRecv == chunks[pos].size
      ensures out == Done ==>
                hash(recvBuffer) == chunks[pos].checksum
                && file.bytes == Overwrite(old(file.bytes), Layout.ChunkOffset(chunks, pos), recvBuffer)
      ensures out != Done ==> file.bytes == old(file.bytes)
    {
      hide ReceiveRun;
      RunStopsAtSize(limit, chunks[pos].size, 0, |sock.bytes|, events);
      out := ReceiveAll(sock, events);
      if out == Done {
        out := Finish(file, maps, hash);
      }
    }
  }

  // ----- both ends together -----

  /** Both loops on one stream: what was to be sent, how far it is, what is under way, what arrived. */
  datatype Link = Link(content: seq<Byte>, sent: nat, pipe: seq<Byte>, received: seq<Byte>)

  datatype LinkAction = Send(n: nat) | Receive(n: nat)

  function LinkStep(l: Link, a: LinkAction): Link {
    match a
    case Send(n) =>
      if 1 <= n && l.sent + n <= |l.content| then
        l.(sent := l.sent + n, pipe := l.pipe + l.content[l.sent..l.sent + n])
      else l
    case Receive(n) =>
      if 1 <= n <= |l.pipe| then l.(pipe := l.pipe[n..], received := l.received + l.pipe[..n]) else l
  }

  function LinkExec(l: Link, acts: seq<LinkAction>): Link {
    if acts == [] then l else LinkStep(LinkExec(l, acts[..|acts| - 1]), acts[|acts| - 1])
  }

  /** What has arrived and what is under way is what was sent, in order. */
  ghost predicate InOrder(l: Link) {
    l.sent <= |l.content| && l.received + l.pipe == l.content[..l.sent]
  }

  lemma LinkStepKeeps(l: Link, a: LinkAction)
    requires InOrder(l)
    ensures InOrder(LinkStep(l, a)) && LinkStep(l, a).content == l.content
  {
    match a
    case Send(n) =>
      if 1 <= n && l.sent + n <= |l.content| {
        assert l.content[..l.sent + n] == l.content[..l.sent] + l.content[l.sent..l.sent + n];
        assert l.received + (l.pipe + l.content[l.sent..l.sent + n]) ==
               (l.received + l.pipe) + l.content[l.sent..l.sent + n];
      }
    case Receive(n) =>
      if 1 <= n <= |l.pipe| {
        assert l.received + l.pipe == (l.received + l.pipe[..n]) + l.pipe[n..];
      }
  }

  lemma {:induction false} LinkRunsKeep(content: seq<Byte>, acts: seq<LinkAction>)
    ensures InOrder(LinkExec(Link(content, 0, [], []), acts))
    ensures LinkExec(Link(content, 0, [], []), acts).content == content
  {
    if acts != [] {
      LinkRunsKeep(content, acts[..|acts| - 1]);
      LinkStepKeeps(LinkExec(Link(content, 0, [], []), acts[..|acts| - 1]), acts[|acts| - 1]);
    }
  }

  /** However the calls split the data, a receiver that has all its bytes has the sender's slice. */
  lemma TransferFidelity(file: seq<Byte>, offset: nat, size: nat, acts: seq<LinkAction>)
    requires offset + size <= |file|
    ensures var l := LinkExec(Link(file[offset..offset + size], 0, [], []), acts);
            |l.received| == size ==> l.received == file[offset..offset + size] && l.pipe == [] && l.sent == size
  {
    var content := file[offset..offset + size];
    LinkRunsKeep(content, acts);
    var l := LinkExec(Link(content, 0, [], []), acts);
    if |l.received| == size {
      assert content[..l.sent] == content;
    }
  }

  /**
   * A peer that has the published file sends bytes that pass the checksum test, unless it is asked for the chunk
   * that is recorded without bytes.
   */
  lemma HonestPeerVerifies(original: seq<Byte>, c: nat, hash: Layout.Hash, pos: nat, acts: seq<LinkAction>)
    requires c > 0 && pos < |Layout.MakeChunks(original, c, hash)|
    requires pos < |Layout.MakeChunks(original, c, hash)| - 1 || original == [] || |original| % c != 0
    ensures var chunks := Layout.MakeChunks(original, c, hash);
            var at, size := Layout.ChunkOffset(chunks, pos), chunks[pos].size;
            at + size <= |original| &&
            var l := LinkExec(Link(original[at..at + size], 0, [], []), acts);
            |l.received| == size ==> hash(l.received) == Layout.ChunkChecksum(chunks, pos)
  {
    hide Layout.MakeChunks, Layout.ChunkOffset;
    var chunks := Layout.MakeChunks(original, c, hash);
    Layout.ChunkDescribed(original, c, hash, pos);
    TransferFidelity(original, Layout.ChunkOffset(chunks, pos), chunks[pos].size, acts);
  }

  // ----- the two objects on one stream -----

  /** Whose round comes next, and what it meets. */
  datatype Side = Up(sending: SendEvent) | Down(receiving: ReceiveEvent)

  /** The sender's rounds in a schedule. */
  function Ups(schedule: seq<Side>): nat {
    if schedule == [] then 0
    else
      var n := |schedule| - 1;
      Ups(schedule[..n]) + if schedule[n].Up? then 1 else 0
  }

  lemma UpsNext(schedule: seq<Side>, k: nat)
    requires k < |schedule|
    ensures Ups(schedule[..k + 1]) == Ups(schedule[..k]) + if schedule[k].Up? then 1 else 0
    ensures Ups(schedule[..k]) <= k
  {
    assert schedule[..k + 1][..k] == schedule[..k];
    UpsAtMost(schedule[..k]);
  }

  lemma {:induction false} UpsAtMost(schedule: seq<Side>)
    ensures Ups(schedule) <= |schedule|
  {
    if schedule != [] {
      UpsAtMost(schedule[..|schedule| - 1]);
    }
  }

  /** Whenever the receiver looks, it is not paused and the counter leaves it something. */
  predicate Open(limit: nat, schedule: seq<Side>) {
    forall k :: 0 <= k < |schedule| && schedule[k].Down? ==>
                  !schedule[k].receiving.paused && schedule[k].receiving.usedAtGate <= limit
                  && 0 < limit - schedule[k].receiving.usedAtQuota <= Meter.INT_MAX
  }

  /** Nobody stops the sender, and each of its calls sends something. */
  predicate Flows(schedule: seq<Side>) {
    forall k :: 0 <= k < |schedule| && schedule[k].Up? ==>
                  !schedule[k].sending.stopped && !schedule[k].sending.removed && schedule[k].sending.sent > 0
  }

  lemma FlowsAt(schedule: seq<Side>, k: nat)
    requires k < |schedule| && schedule[k].Up? && Flows(schedule)
    ensures var e := schedule[k].sending; !e.stopped && !e.removed && e.sent > 0
  {
  }

  lemma OpenAt(limit: nat, schedule: seq<Side>, k: nat)
    requires k < |schedule| && schedule[k].Down? && Open(limit, schedule)
    ensures var e := schedule[k].receiving;
            !e.paused && e.usedAtGate <= limit && 0 < limit - e.usedAtQuota <= Meter.INT_MAX
  {
  }

  lemma NoUps(schedule: seq<Side>)
    ensures Ups(schedule[..0]) == 0
  {
  }

  /**
   * The rounds of both loops in any order: at every point what has arrived and what is under way is what was sent, so
   * a receiver that has as many bytes as the sender's slice has the slice.
   */
  method Interleave(up: UploadTask, down: DownloadTask, sock: Stream, schedule: seq<Side>)
    returns (sent: Outcome, got: Outcome)
    requires up.Fresh() && down.Fresh() && down.pos < |down.chunks| && sock.bytes == []
    modifies up, down, sock
    ensures up.Sent() && down.InStep(up.content[..up.nSend], sock.bytes)
    ensures sent == Done <==> up.nSend == |up.content|
    ensures got == Done <==> down.nRecv == down.chunks[down.pos].size
    ensures got == Done && |up.content| == down.chunks[down.pos].size ==>
              down.recvBuffer == up.content && sent == Done && sock.bytes == []
    ensures Flows(schedule) ==> up.nSend >= Min(|up.content|, Ups(schedule))
    ensures Open(down.limit, schedule) && got != Thrown ==>
              down.nRecv >= Min(down.chunks[down.pos].size, |schedule| - Ups(schedule))
  {
    hide Meter.Quota, Meter.MoveSlot, MeterRounds.Round, Ups, Flows, Open;
    var size := down.chunks[down.pos].size;
    sent, got := Unfinished, Unfinished;
    NoUps(schedule);
    for k := 0 to |schedule|
      invariant up.Sent() && down.InStep(up.content[..up.nSend], sock.bytes)
      invariant sent != Done && got != Done && sent != Mismatch && got != Mismatch
      invariant Flows(schedule) ==> sent == Unfinished && up.nSend >= Min(|up.content|, Ups(schedule[..k]))
      invariant Ups(schedule[..k]) <= k
      invariant Open(down.limit, schedule) && got == Unfinished ==> down.nRecv >= Min(size, k - Ups(schedule[..k]))
    {
      UpsNext(schedule, k);
      if schedule[k].Up? && Flows(schedule) {
        FlowsAt(schedule, k);
      }
      if schedule[k].Down? && Open(down.limit, schedule) {
        OpenAt(down.limit, schedule, k);
      }
      if schedule[k].Up? && sent == Unfinished && up.nSend < |up.content| {
        ghost var before := up.nSend;
        var ok := up.SendOnce(sock, schedule[k].sending);
        assert up.content[..before] + up.content[before..up.nSend] == up.content[..up.nSend];
        sent := if ok then Unfinished else Thrown;
      } else if schedule[k].Down? && got == Unfinished && down.nRecv < size {
        var ok := down.ReceiveOnce(sock, schedule[k].receiving);
        got := if ok then Unfinished else Thrown;
      }
    }
    assert schedule[..|schedule|] == schedule;
    sent := if up.nSend == |up.content| then Done else sent;
    got := if down.nRecv == size then Done else got;
    if got == Done && |up.content| == size {
      assert |up.content[..up.nSend]| == up.nSend;
      assert up.content[..up.nSend] == up.content;
    }
  }

  /** The chunk is one that is recorded as it was hashed. */
  predicate Described(original: seq<Byte>, c: nat, hash: Layout.Hash, pos: nat)
    requires c > 0
  {
    var n := |Layout.MakeChunks(original, c, hash)|;
    pos < n && (pos < n - 1 || original == [] || |original| % c != 0)
  }

  /**
   * A published chunk from one file to the other: however the rounds of the two tasks interleave, once the receiver
   * has its bytes they pass the checksum test, and unless the mapping fails the published piece is written at the
   * chunk's offset.
   */
  method Exchange(original: seq<Byte>, c: nat, hash: Layout.Hash, up: UploadTask, down: DownloadTask, sock: Stream,
                  file: MappedFile, maps: bool, schedule: seq<Side>) returns (out: Outcome)
    requires up.Fresh() && down.Fresh() && sock.bytes == []
    requires c > 0 && down.chunks == Layout.MakeChunks(original, c, hash) && Described(original, c, hash, down.pos)
    requires var at := Layout.ChunkOffset(down.chunks, down.pos);
             at + down.chunks[down.pos].size <= |original|
             && up.content == original[at..at + down.chunks[down.pos].size]
    modifies up, down, sock, file
    ensures var at, size := Layout.ChunkOffset(down.chunks, down.pos), down.chunks[down.pos].size;
            && out != Mismatch && (out == Done ==> down.nRecv == size)
            && (down.nRecv == size ==> out == if maps then Done else Thrown)
            && file.bytes == if out == Done then Overwrite(old(file.bytes), at, original[at..at + size])
                             else old(file.bytes)
  {
    hide Layout.MakeChunks, Layout.ChunkOffset;
    Layout.ChunkDescribed(original, c, hash, down.pos);
    var _, got := Interleave(up, down, sock, schedule);
    if got != Done {
      return if got == Thrown then Thrown else Unfinished;
    }
    out := down.Finish(file, maps, hash);
  }
}
