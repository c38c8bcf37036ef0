// A file that was there before the job and is too short: its chunk is received, verified, copied as far as the file
// goes, and credited, if the file can be mapped (client/src/download_task.cc:142-144, client/src/job_info.cc:75-87).
module ShortFile {
  import opened Arithmetic
  import opened Prelude
  import opened ChunkQueue
  import opened JobMachine
  import opened JobSafety
  import opened JobTheorems
  import opened JobOvershoot
  import Layout
  import Meter
  import SockPool

  const FILE: FileId := "f"
  const ID := ChunkId(FILE, 0)
  const LIMIT := 0x4000_0000

  /** One file of one chunk, whose bytes are `data`. */
  function OneChunk(hash: Layout.Hash, room: nat -> nat, data: seq<Byte>): Config {
    Config(map[FILE := [Layout.Chunk(hash(data), |data|)]], hash, Meter.Limits(LIMIT, |data|, 1),
           room)
  }

  function Before(hash: Layout.Hash, room: nat -> nat, data: seq<Byte>, d: seq<Byte>): State {
    Opening(OneChunk(hash, room, data), FILE, 1, map[FILE := d])
  }

  lemma ItBegins(hash: Layout.Hash, room: nat -> nat, data: seq<Byte>, d: seq<Byte>)
    ensures var cfg := OneChunk(hash, room, data);
            && GoodLayout(cfg) && Begins(cfg, Before(hash, room, data, d))
            && Related(cfg, FILE, 1, Before(hash, room, data, d))
  {
    hide Begins, Related;
    var cfg := OneChunk(hash, room, data);
    assert cfg.files.Keys == {FILE};
    assert Roomy(cfg, FILE, 1);
    OpeningBegins(cfg, FILE, 1, map[FILE := d]);
  }

  /** The task at work: its phase and buffer, its slot, and the counter. */
  function AtWork(hash: Layout.Hash, room: nat -> nat, data: seq<Byte>, d: seq<Byte>, phase: Phase, buf: seq<Byte>,
                  slot: Meter.Slot, used: nat, moved: nat): State
  {
    Before(hash, room, data, d).(
      queue := [], tasks := [Task(ID, PEER, 0, phase, buf, false, 0, 0)],
      socks := Socks(SockPool.Step(OneSock(), SockPool.Take(PEER, true)), {}),
      meter := Meter.State(used, 0, [slot], Meter.Sleeping, moved, moved, 0))
  }

  lemma TaskStarts(hash: Layout.Hash, room: nat -> nat, data: seq<Byte>, d: seq<Byte>)
    ensures Goes(OneChunk(hash, room, data), Before(hash, room, data, d),
                 AtWork(hash, room, data, d, Receiving, [], Meter.Loop(|data|), 0, 0))
  {
    hide Goes, Related, Begins;
    var cfg, s := OneChunk(hash, room, data), Before(hash, room, data, d);
    ItBegins(hash, room, data, d);
    assert s.queue == [Entry(FILE, 0)];
    assert IsTop(s.queue, 0) && Without(s.queue, 0) == [];
    assert Meter.Active(s.meter.slots) == 0;
    LaunchRuns(cfg, FILE, 1, s, 0);
    assert SockPool.FirstIdle(OneSock().pool.lists[PEER]) == 0;
    assert Launched(cfg, s, 0) == AtWork(hash, room, data, d, Receiving, [], Meter.Loop(|data|), 0, 0);
  }

  /** The quota of an unused second is the limit, so the whole chunk is asked for. */
  lemma Asks(hash: Layout.Hash, room: nat -> nat, data: seq<Byte>, d: seq<Byte>)
    requires 0 < |data| <= LIMIT
    ensures var cfg, n := OneChunk(hash, room, data), |data|;
            var s := AtWork(hash, room, data, d, Receiving, [], Meter.Loop(n), 0, 0);
            Step(cfg, Step(cfg, s, Run(0, Gate)), Run(0, Reserve)) ==
            AtWork(hash, room, data, d, Receiving, [], Meter.Reserved(n, n), 0, 0)
  {
    hide SockPool.Step, Meter.Quota, Opening;
    var cfg, n := OneChunk(hash, room, data), |data|;
    Meter.QuotaExact(LIMIT, 0);
    assert Step(cfg, AtWork(hash, room, data, d, Receiving, [], Meter.Loop(n), 0, 0), Run(0, Gate)) ==
           AtWork(hash, room, data, d, Receiving, [], Meter.Gated(n), 0, 0) by {
      NoFlags(hash, room, data, d);
    }
  }

  lemma NoFlags(hash: Layout.Hash, room: nat -> nat, data: seq<Byte>, d: seq<Byte>)
    ensures Before(hash, room, data, d).flags == Flags(false, false, false) && Before(hash, room, data, d).pc == Top
  {
  }

  lemma Receives(hash: Layout.Hash, room: nat -> nat, data: seq<Byte>, d: seq<Byte>)
    requires 0 < |data| <= LIMIT
    ensures var cfg, n := OneChunk(hash, room, data), |data|;
            var s := AtWork(hash, room, data, d, Receiving, [], Meter.Reserved(n, n), 0, 0);
            Step(cfg, Step(cfg, Step(cfg, s, Run(0, Receive(data))), Run(0, Count)), Run(0, Verify)) ==
            AtWork(hash, room, data, d, Writing(0), data, Meter.Loop(0), n, n)
  {
    hide SockPool.Step, Opening;
    var cfg, n := OneChunk(hash, room, data), |data|;
    var s := AtWork(hash, room, data, d, Receiving, [], Meter.Reserved(n, n), 0, 0);
    assert [] + data == data;
    var got := AtWork(hash, room, data, d, Receiving, data, Meter.Got(n, n), 0, n);
    assert Step(cfg, s, Run(0, Receive(data))) == got;
    var counted := AtWork(hash, room, data, d, Receiving, data, Meter.Loop(0), n, n);
    assert Step(cfg, got, Run(0, Count)) == counted;
    assert ChecksumOf(cfg, ID) == hash(data);
  }

  /** The file can be mapped, and its mapping has room for the chunk. */
  predicate Fits(room: nat -> nat, data: seq<Byte>, d: seq<Byte>) {
    d != [] && |data| <= room(|d|)
  }

  /** The file on disk while and after the task has copied. */
  function Copied(hash: Layout.Hash, room: nat -> nat, data: seq<Byte>, d: seq<Byte>, phase: Phase): State {
    var s := AtWork(hash, room, data, d, phase, data, Meter.Loop(0), |data|, |data|);
    s.(store := s.store.(disk := map[FILE := Overwrite(d, 0, data)]))
  }

  /** The copy goes through when the file can be mapped and the mapping has room. */
  lemma Copies(hash: Layout.Hash, room: nat -> nat, data: seq<Byte>, d: seq<Byte>)
    requires 0 < |data| && Fits(room, data, d)
    ensures var cfg, n := OneChunk(hash, room, data), |data|;
            var s := AtWork(hash, room, data, d, Writing(0), data, Meter.Loop(0), n, n);
            Step(cfg, Step(cfg, s, Run(0, Copy(n))), Run(0, Copy(0))) == Copied(hash, room, data, d, Returned)
  {
    hide SockPool.Step, Overwrite;
    var cfg, n := OneChunk(hash, room, data), |data|;
    var s := AtWork(hash, room, data, d, Writing(0), data, Meter.Loop(0), n, n);
    assert data[0..n] == data;
    assert OffsetOf(cfg, ID) == 0;
    assert map[FILE := d][FILE := Overwrite(d, 0, data)] == map[FILE := Overwrite(d, 0, data)];
    assert Step(cfg, s, Run(0, Copy(n))) == Copied(hash, room, data, d, Writing(n));
  }

  /** The job has ended, and its one chunk is set. */
  function After(hash: Layout.Hash, room: nat -> nat, data: seq<Byte>, d: seq<Byte>): State {
    Before(hash, room, data, d).(
      pc := Joined(true), queue := [], tasks := [Task(ID, PEER, 0, Over, data, true, 1, 0)],
      store := Store(map[FILE := [true]], map[FILE := Overwrite(d, 0, data)], Owning(OneChunk(hash, room, data), FILE)),
      meter := Meter.State(|data|, 0, [Meter.Off], Meter.Sleeping, |data|, |data|, 0))
  }

  lemma BitsBefore(hash: Layout.Hash, room: nat -> nat, data: seq<Byte>, d: seq<Byte>)
    ensures Before(hash, room, data, d).store.bits == map[FILE := [false]]
  {
    assert |Chunks(OneChunk(hash, room, data), FILE)| == 1;
    assert seq(1, k => 1 <= k) == [false];
  }

  /** The notification credits the chunk. */
  lemma SetsBit(hash: Layout.Hash, room: nat -> nat, data: seq<Byte>, d: seq<Byte>)
    ensures var cfg, s := OneChunk(hash, room, data), Copied(hash, room, data, d, Returned);
            Step(cfg, s, Run(0, Settle)) ==
            s.(store := s.store.(bits := map[FILE := [true]]),
               tasks := [Task(ID, PEER, 0, Settled, data, true, 1, 0)])
  {
    hide Overwrite, SockPool.Step, Before;
    var s := Copied(hash, room, data, d, Returned);
    BitsBefore(hash, room, data, d);
    assert [false][0 := true] == [true];
    assert SetBit(s.store.bits, ID) == map[FILE := [true]];
  }

  lemma Gives(hash: Layout.Hash, room: nat -> nat, data: seq<Byte>, d: seq<Byte>)
    ensures var cfg := OneChunk(hash, room, data);
            var s := Copied(hash, room, data, d, Returned);
            var u := s.(store := s.store.(bits := map[FILE := [true]]),
                        tasks := [Task(ID, PEER, 0, Settled, data, true, 1, 0)]);
            Step(cfg, u, Run(0, Release)) == After(hash, room, data, d).(pc := Top)
  {
    hide Overwrite, SockPool.Step;
    SockBack();
  }

  lemma SockBack()
    ensures SockPool.Step(SockPool.Step(OneSock(), SockPool.Take(PEER, true)), SockPool.GiveBack(PEER, 0)) == OneSock()
  {
    var idle, used := SockPool.Entry(Some(0), SockPool.Idle), SockPool.Entry(Some(0), SockPool.Used);
    assert SockPool.FirstIdle([idle]) == 0 && SockPool.FindSock([used], Some(0)) == 0;
    assert [idle][0 := used] == [used] && [used][0 := idle] == [idle];
    assert map[0 := PEER] - {0} == map[];
  }

  lemma Ends(hash: Layout.Hash, room: nat -> nat, data: seq<Byte>, d: seq<Byte>)
    ensures var cfg, s := OneChunk(hash, room, data), After(hash, room, data, d).(pc := Top);
            Step(cfg, Step(cfg, Step(cfg, s, CheckFlags), Pop(0)), Join) == After(hash, room, data, d)
  {
    hide Overwrite;
  }

  lemma Works(hash: Layout.Hash, room: nat -> nat, data: seq<Byte>, d: seq<Byte>)
    requires 0 < |data| <= LIMIT && Fits(room, data, d)
    ensures Goes(OneChunk(hash, room, data), AtWork(hash, room, data, d, Receiving, [], Meter.Loop(|data|), 0, 0),
                 Copied(hash, room, data, d, Returned))
  {
    hide Step, Goes, AtWork, Copied;
    var cfg, n := OneChunk(hash, room, data), |data|;
    var s := AtWork(hash, room, data, d, Receiving, [], Meter.Loop(n), 0, 0);
    GoesNowhere(cfg, s);
    Asks(hash, room, data, d);
    Then(cfg, s, s, Run(0, Gate));
    Then(cfg, s, Step(cfg, s, Run(0, Gate)), Run(0, Reserve));
    Receives(hash, room, data, d);
    var u := AtWork(hash, room, data, d, Receiving, [], Meter.Reserved(n, n), 0, 0);
    Then(cfg, s, u, Run(0, Receive(data)));
    Then(cfg, s, Step(cfg, u, Run(0, Receive(data))), Run(0, Count));
    Then(cfg, s, Step(cfg, Step(cfg, u, Run(0, Receive(data))), Run(0, Count)), Run(0, Verify));
    Copies(hash, room, data, d);
    var v := AtWork(hash, room, data, d, Writing(0), data, Meter.Loop(0), n, n);
    Then(cfg, s, v, Run(0, Copy(n)));
    Then(cfg, s, Step(cfg, v, Run(0, Copy(n))), Run(0, Copy(0)));
  }

  lemma Finishes(hash: Layout.Hash, room: nat -> nat, data: seq<Byte>, d: seq<Byte>)
    ensures Goes(OneChunk(hash, room, data), Copied(hash, room, data, d, Returned), After(hash, room, data, d))
  {
    hide Step, Goes, Copied, After;
    var cfg, s := OneChunk(hash, room, data), Copied(hash, room, data, d, Returned);
    GoesNowhere(cfg, s);
    SetsBit(hash, room, data, d);
    Then(cfg, s, s, Run(0, Settle));
    Gives(hash, room, data, d);
    Then(cfg, s, Step(cfg, s, Run(0, Settle)), Run(0, Release));
    Ends(hash, room, data, d);
    var u := After(hash, room, data, d).(pc := Top);
    Then(cfg, s, u, CheckFlags);
    Then(cfg, s, Step(cfg, u, CheckFlags), Pop(0));
    Then(cfg, s, Step(cfg, Step(cfg, u, CheckFlags), Pop(0)), Join);
  }

  /**
   * If the file that was there can be mapped and its mapping has room for the chunk, a run of the job ends complete.
   * The bit is true of the disk exactly if the file was long enough; a shorter file keeps its length and holds the
   * start of the chunk.
   */
  lemma ShortFileIsCredited(hash: Layout.Hash, room: nat -> nat, data: seq<Byte>, d: seq<Byte>)
    requires 0 < |data| <= LIMIT && Fits(room, data, d)
    ensures var cfg, s := OneChunk(hash, room, data), After(hash, room, data, d);
            && Begins(cfg, Before(hash, room, data, d)) && Goes(cfg, Before(hash, room, data, d), s)
            && s.pc == Joined(true) && s.queue == [] && s.lost == [] && Complete(cfg, s)
            && |s.store.disk[FILE]| == |d|
            && (TrueOfDisk(cfg, s.store, ID) <==> |data| <= |d|)
            && (|d| < |data| ==> s.store.disk[FILE] == data[..|d|])
  {
    hide Goes, Begins, Related, AtWork, Copied;
    var cfg := OneChunk(hash, room, data);
    ItBegins(hash, room, data, d);
    TaskStarts(hash, room, data, d);
    Works(hash, room, data, d);
    Finishes(hash, room, data, d);
    var begun := AtWork(hash, room, data, d, Receiving, [], Meter.Loop(|data|), 0, 0);
    GoesOn(cfg, Before(hash, room, data, d), begun, Copied(hash, room, data, d, Returned));
    GoesOn(cfg, Before(hash, room, data, d), Copied(hash, room, data, d, Returned), After(hash, room, data, d));
    AfterIs(hash, room, data, d);
  }

  lemma AfterIs(hash: Layout.Hash, room: nat -> nat, data: seq<Byte>, d: seq<Byte>)
    requires 0 < |data|
    ensures var cfg, s := OneChunk(hash, room, data), After(hash, room, data, d);
            && Complete(cfg, s) && IsSet(s.store, ID)
            && (TrueOfDisk(cfg, s.store, ID) <==> |data| <= |d|)
            && (|d| < |data| ==> s.store.disk[FILE] == data[..|d|])
  {
    var cfg, e := OneChunk(hash, room, data), Overwrite(d, 0, data);
    assert ChecksumOf(cfg, ID) == hash(data) && SizeOf(cfg, ID) == |data| && OffsetOf(cfg, ID) == 0;
    if |data| <= |d| {
      assert e[0..|data|] == data;
    }
  }

  /**
   * So the bit is true of the disk on all runs if and only if the file is long enough, or so short that the chunk can
   * never be copied: it has no bytes and cannot be mapped, or its mapping has no room for the chunk.
   */
  lemma TrueOnAllRunsIff(hash: Layout.Hash, room: nat -> nat, data: seq<Byte>, d: seq<Byte>)
    requires 0 < |data| <= LIMIT
    ensures var cfg, s0 := OneChunk(hash, room, data), Before(hash, room, data, d);
            (forall acts :: IsSet(Exec(cfg, s0, acts).store, ID) ==> TrueOfDisk(cfg, Exec(cfg, s0, acts).store, ID))
            <==> |data| <= |d| || d == [] || |data| > room(|d|)
  {
    hide Begins, Exec, TrueOfDisk, IsSet, GoodLayout, After;
    var cfg, s0 := OneChunk(hash, room, data), Before(hash, room, data, d);
    ItBegins(hash, room, data, d);
    assert ValidId(cfg, ID) && (LongEnough(cfg, s0.store, ID) <==> |data| <= |d|);
    forall acts | IsSet(Exec(cfg, s0, acts).store, ID)
      ensures TrueOfDisk(cfg, Exec(cfg, s0, acts).store, ID) <==> |data| <= |d|
      ensures Fits(room, data, d)
    {
      SetBitsAreVerified(cfg, s0, acts, ID);
      SetNeedsRoom(hash, room, data, d, acts);
    }
    if Fits(room, data, d) {
      ShortFileIsCredited(hash, room, data, d);
      AfterIs(hash, room, data, d);
      var acts :| After(hash, room, data, d) == Exec(cfg, s0, acts);
      assert IsSet(Exec(cfg, s0, acts).store, ID);
    }
  }

  lemma SetNeedsRoom(hash: Layout.Hash, room: nat -> nat, data: seq<Byte>, d: seq<Byte>, acts: seq<Action>)
    requires 0 < |data|
    requires var cfg, s0 := OneChunk(hash, room, data), Before(hash, room, data, d);
             IsSet(Exec(cfg, s0, acts).store, ID)
    ensures Fits(room, data, d)
  {
    hide Begins, Exec, GoodLayout, Brought;
    var cfg, s0 := OneChunk(hash, room, data), Before(hash, room, data, d);
    ItBegins(hash, room, data, d);
    BitsBefore(hash, room, data, d);
    SetIffBrought(cfg, s0, acts, ID);
  }

  // ----- pages -----

  /** A mapping goes to the end of the last page of its file. */
  function PageEnd(page: nat, n: nat): (e: nat)
    requires page > 0
    ensures n <= e < n + page && e % page == 0
  {
    var over := n % page;
    if over == 0 then n
    else
      PageEndIsMultiple(page, n);
      n + (page - over)
  }

  lemma PageEndIsMultiple(page: nat, n: nat)
    requires page > 0 && n % page != 0
    ensures (n + (page - n % page)) % page == 0
  {
    var q := n / page;
    assert n + (page - n % page) == page * (q + 1);
    MultipleRemainder(page, q + 1);
  }

  /**
   * With pages: the bit of a chunk longer than the file is true on all runs exactly if the chunk goes beyond the last
   * page, of which an empty file has none; then it is never set.
   */
  lemma TrueBeyondLastPage(hash: Layout.Hash, page: nat, data: seq<Byte>, d: seq<Byte>)
    requires 0 < |data| <= LIMIT && page > 0
    ensures var room := (n: nat) => PageEnd(page, n);
            var cfg, s0 := OneChunk(hash, room, data), Before(hash, room, data, d);
            (forall acts :: IsSet(Exec(cfg, s0, acts).store, ID) ==> TrueOfDisk(cfg, Exec(cfg, s0, acts).store, ID))
            <==> |data| <= |d| || PageEnd(page, |d|) < |data|
  {
    hide Exec, TrueOfDisk, IsSet, Before, OneChunk;
    var room := (n: nat) => PageEnd(page, n);
    TrueOnAllRunsIff(hash, room, data, d);
    assert d == [] ==> PageEnd(page, |d|) == 0;
  }
}
