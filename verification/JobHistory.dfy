// A job across a restart: its bitmaps are saved while it runs, and the restarted job begins with what was saved on the
// disk as the first job left it (client/src/client.cc, client/src/job.cc).
module JobHistory {
  import opened Prelude
  import opened ChunkQueue
  import opened JobMachine
  import opened JobSafety
  import opened JobConservation
  import opened JobTheorems
  import opened HistoryTheorems
  import Torrents
  import Bitmaps
  import History
  import Meter
  import SockPool

  /** Bits that were set at one time are true of the disk at any later time. */
  lemma EarlierBitsHold(cfg: Config, s: State, u: State)
    requires Good(cfg, s) && Goes(cfg, s, u) && GoodLayout(cfg)
    ensures BitsShape(cfg, Store(s.store.bits, u.store.disk, map[]))
    ensures BitsVerified(cfg, Store(s.store.bits, u.store.disk, map[]))
  {
    hide Exec, GoodLayout, Good, Verified, OffsetOf, SizeOf, ValidId;
    var acts :| u == Exec(cfg, s, acts);
    GoodParts(cfg, s);
    GoodStays(cfg, s, acts);
    GoodParts(cfg, u);
    var store := Store(s.store.bits, u.store.disk, map[]);
    forall id | ValidId(cfg, id) && IsSet(store, id) ensures Verified(cfg, store, id) {
      BitsStay(cfg, s, acts, id);
      SameDisk(cfg, u.store, store);
    }
  }

  lemma GoodParts(cfg: Config, s: State)
    requires Good(cfg, s)
    ensures BitsShape(cfg, s.store) && BitsVerified(cfg, s.store)
  {
    hide Conserved, AllReportedOnce, MeterFits, EndOk, BitsShape, BitsVerified;
  }

  lemma {:induction false} GoodStays(cfg: Config, s: State, acts: seq<Action>)
    requires Good(cfg, s) && GoodLayout(cfg)
    ensures Good(cfg, Exec(cfg, s, acts))
  {
    hide Good, GoodLayout, Step;
    if acts != [] {
      GoodStays(cfg, s, acts[..|acts| - 1]);
      StepKeepsGood(cfg, Exec(cfg, s, acts[..|acts| - 1]), acts[|acts| - 1]);
    }
  }

  lemma {:induction false} BitsStay(cfg: Config, s: State, acts: seq<Action>, id: ChunkId)
    requires IsSet(s.store, id)
    ensures IsSet(Exec(cfg, s, acts).store, id)
  {
    hide Step, IsSet;
    if acts != [] {
      BitsStay(cfg, s, acts[..|acts| - 1], id);
      StepKeepsBits(cfg, Exec(cfg, s, acts[..|acts| - 1]), acts[|acts| - 1], id);
    }
  }

  /** The state in which a restarted job enters its loop: the saved bits, and the disk as it is. */
  ghost predicate Restarts(cfg: Config, again: History.JobRec, disk: map<FileId, seq<Byte>>, s0: State) {
    && s0.pc == Top && s0.tasks == [] && s0.lost == [] && s0.meter == Meter.START
    && s0.store.bits == again.bitmaps && s0.store.disk == disk
    && Initial(s0.queue, cfg.files.Keys, s0.store.bits, s0.store.owners)
    && SockPool.Inv(s0.socks.net) && s0.socks.outside == s0.socks.net.held.Keys
  }

  // ----- the save loop reads while the job runs -----

  /** Each set bit that was read for file `f` was set at some moment of the run, not one moment for all. */
  ghost predicate ReadDuring(cfg: Config, s0: State, acts: seq<Action>, f: FileId, bits: seq<bool>) {
    forall i: nat :: i < |bits| && bits[i] ==> SetAtSomeTime(cfg, s0, acts, ChunkId(f, i))
  }

  ghost predicate SetAtSomeTime(cfg: Config, s0: State, acts: seq<Action>, id: ChunkId) {
    exists m: nat :: m <= |acts| && IsSet(Exec(cfg, s0, acts[..m]).store, id)
  }

  /** A record holds the packed bits that were read for its file while the job ran. */
  ghost predicate SavedDuring(cfg: Config, s0: State, acts: seq<Action>, r: History.FileRec) {
    r.fileid in cfg.files ==>
      exists bits: seq<bool> ::
        && |bits| == |cfg.files[r.fileid]| && r.bitCount == |bits| && r.blocks == Bitmaps.Pack(bits)
        && ReadDuring(cfg, s0, acts, r.fileid, bits)
  }

  /** The history file of a job: for each of its files one record or more, each with bits read while the job ran. */
  ghost predicate SavedWhileRunning(cfg: Config, s0: State, acts: seq<Action>, records: seq<History.FileRec>) {
    && (forall f :: f in cfg.files ==> Recorded(records, f))
    && (forall r :: r in records ==> SavedDuring(cfg, s0, acts, r))
  }

  /** What was set at some moment is set at the end. */
  lemma StillSet(cfg: Config, s0: State, acts: seq<Action>, id: ChunkId)
    requires SetAtSomeTime(cfg, s0, acts, id)
    ensures IsSet(Exec(cfg, s0, acts).store, id)
  {
    hide Exec, IsSet;
    var m: nat :| m <= |acts| && IsSet(Exec(cfg, s0, acts[..m]).store, id);
    BitsStay(cfg, Exec(cfg, s0, acts[..m]), acts[m..], id);
    ExecAppend(cfg, s0, acts[..m], acts[m..]);
    assert acts[..m] + acts[m..] == acts;
  }

  /** The bitmap that the records assign to a recorded file is that of one of its records. */
  lemma {:induction false} AssignedFrom(base: map<FileId, seq<bool>>, records: seq<History.FileRec>, f: FileId)
    returns (r: History.FileRec)
    requires Recorded(records, f)
    ensures r in records && r.fileid == f
    ensures var bitmaps := History.Assigned(base, records);
            f in bitmaps && bitmaps[f] == Bitmaps.Decode(r.blocks, r.bitCount)
  {
    hide Bitmaps.Decode;
    var n := |records| - 1;
    RecordedStep(records, f);
    if records[n].fileid == f {
      r := records[n];
    } else {
      r := AssignedFrom(base, records[..n], f);
    }
  }

  /** A restored bitmap has its file's length, and its bits are set at the end of the run. */
  lemma RestoredBits(cfg: Config, s0: State, acts: seq<Action>, base: map<FileId, seq<bool>>,
                     records: seq<History.FileRec>, f: FileId)
    requires f in cfg.files && SavedWhileRunning(cfg, s0, acts, records)
    ensures var bitmaps := History.Assigned(base, records);
            && f in bitmaps && |bitmaps[f]| == |cfg.files[f]|
            && forall i: nat :: i < |bitmaps[f]| && bitmaps[f][i] ==> IsSet(Exec(cfg, s0, acts).store, ChunkId(f, i))
  {
    hide Exec, IsSet, Bitmaps.Decode, Bitmaps.Pack, SetAtSomeTime, History.Assigned, Recorded;
    var r := AssignedFrom(base, records, f);
    assert SavedDuring(cfg, s0, acts, r);
    var bits: seq<bool> :| |bits| == |cfg.files[f]| && r.bitCount == |bits| && r.blocks == Bitmaps.Pack(bits)
                           && ReadDuring(cfg, s0, acts, f, bits);
    Bitmaps.RoundTrip(bits);
    forall i: nat | i < |bits| && bits[i] ensures IsSet(Exec(cfg, s0, acts).store, ChunkId(f, i)) {
      StillSet(cfg, s0, acts, ChunkId(f, i));
    }
  }

  /** Bitmaps none of whose bits is new are true of a disk that is as the run left it. */
  lemma FewerBits(cfg: Config, s: State, store: Store)
    requires BitsVerified(cfg, s.store) && store.disk == s.store.disk
    requires forall f :: f in cfg.files ==>
               && f in store.bits && |store.bits[f]| == |cfg.files[f]|
               && forall i: nat :: i < |store.bits[f]| && store.bits[f][i] ==> IsSet(s.store, ChunkId(f, i))
    ensures BitsShape(cfg, store) && BitsVerified(cfg, store)
  {
    hide Verified;
    forall id | ValidId(cfg, id) && IsSet(store, id) ensures Verified(cfg, store, id) {
      assert id.file in cfg.files && id == ChunkId(id.file, id.num);
      assert IsSet(s.store, id);
      SameDisk(cfg, s.store, store);
    }
  }

  /**
   * A job that is saved while it runs, each bit being read at its own moment, and that ends or is cut off at any later
   * moment, can be restarted from what was saved: the restarted job begins with true bits, so every theorem about jobs
   * holds of it.
   */
  lemma RestartIsSafe(cfg: Config, s0: State, acts: seq<Action>, torrent: Torrents.Torrent,
                      info: History.JobHistoryInfo, again: State)
    requires forall r :: r in info.files ==> r.bitCount > 0
    requires SavedWhileRunning(cfg, s0, acts, info.files)
    requires Restarts(cfg, History.Restored(torrent, info), Exec(cfg, s0, acts).store.disk, again)
    requires GoodLayout(cfg) && Begins(cfg, s0)
    ensures Begins(cfg, again)
  {
    hide Exec, GoodLayout, Good, SavedWhileRunning, Initial, SockPool.Inv, BitsShape, BitsVerified, IsSet,
      History.Assigned, History.Scored, SizesFit;
    var s := Exec(cfg, s0, acts);
    RunsAreGood(cfg, s0, acts);
    GoodParts(cfg, s);
    forall f | f in cfg.files
      ensures f in again.store.bits && |again.store.bits[f]| == |cfg.files[f]|
      ensures forall i: nat :: i < |again.store.bits[f]| && again.store.bits[f][i] ==> IsSet(s.store, ChunkId(f, i))
    {
      RestoredBits(cfg, s0, acts, History.Fresh(torrent, info.localTopPath, History.Needs(info.files)).bitmaps,
                   info.files, f);
    }
    FewerBits(cfg, s, again.store);
  }

  /** A bitmap read at one moment of the run. */
  lemma SeenAtOnce(cfg: Config, s0: State, acts: seq<Action>, m: nat, f: FileId)
    requires m <= |acts| && f in Exec(cfg, s0, acts[..m]).store.bits
    ensures ReadDuring(cfg, s0, acts, f, Exec(cfg, s0, acts[..m]).store.bits[f])
  {
    hide Exec;
    var bits := Exec(cfg, s0, acts[..m]).store.bits[f];
    forall i: nat | i < |bits| && bits[i] ensures SetAtSomeTime(cfg, s0, acts, ChunkId(f, i)) {
      assert IsSet(Exec(cfg, s0, acts[..m]).store, ChunkId(f, i));
    }
  }

  lemma ReadAtOnce(cfg: Config, s0: State, acts: seq<Action>, m: nat, g: Torrents.File)
    requires m <= |acts| && g.fileid in cfg.files
    requires BitsShape(cfg, Exec(cfg, s0, acts[..m]).store)
    ensures SavedDuring(cfg, s0, acts, History.RecordOf(g, Exec(cfg, s0, acts[..m]).store.bits[g.fileid]))
  {
    hide Exec, Bitmaps.Pack, ReadDuring;
    SeenAtOnce(cfg, s0, acts, m, g.fileid);
  }

  /**
   * The save loop takes the entries of the torrent in any order and reads the bitmap of each at its own moment. If
   * every file of the job has an entry, the records are ones that a restart can use.
   */
  lemma SaveLoopReads(cfg: Config, s0: State, acts: seq<Action>, entries: seq<Torrents.File>, moments: seq<nat>,
                      records: seq<History.FileRec>)
    requires |moments| == |entries| == |records|
    requires forall i :: 0 <= i < |entries| ==> entries[i].fileid in cfg.files && moments[i] <= |acts|
    requires forall i :: 0 <= i < |entries| ==>
               var bits := Exec(cfg, s0, acts[..moments[i]]).store.bits;
               entries[i].fileid in bits && records[i] == History.RecordOf(entries[i], bits[entries[i].fileid])
    requires forall f :: f in cfg.files ==> exists i :: 0 <= i < |entries| && entries[i].fileid == f
    requires GoodLayout(cfg) && Begins(cfg, s0)
    ensures SavedWhileRunning(cfg, s0, acts, records)
  {
    hide Exec, GoodLayout, Good, Begins, SavedDuring, BitsShape;
    forall r | r in records ensures SavedDuring(cfg, s0, acts, r) {
      var i :| 0 <= i < |records| && records[i] == r;
      RunsAreGood(cfg, s0, acts[..moments[i]]);
      GoodParts(cfg, Exec(cfg, s0, acts[..moments[i]]));
      ReadAtOnce(cfg, s0, acts, moments[i], entries[i]);
    }
    forall f | f in cfg.files ensures Recorded(records, f) {
      var i :| 0 <= i < |entries| && entries[i].fileid == f;
      assert records[i] in records && records[i].fileid == f;
    }
  }

  /** A saved registry entry whose bitmaps are those of one moment of the run is a special case. */
  lemma SnapshotReads(cfg: Config, s0: State, acts: seq<Action>, m: nat, job: History.JobRec, path: string,
                      info: History.JobHistoryInfo)
    requires m <= |acts| && job.bitmaps == Exec(cfg, s0, acts[..m]).store.bits
    requires History.ValidJob(job) && History.SavedJob(job, path, info)
    requires GoodLayout(cfg) && Begins(cfg, s0)
    ensures SavedWhileRunning(cfg, s0, acts, info.files)
  {
    hide Exec, GoodLayout, Good, Begins, History.SavedJob, Bitmaps.Pack, IsSet, Recorded, Torrents.Ids;
    SavedRecords(job, path, info);
    SavedKeys(job, path, info);
    RunsAreGood(cfg, s0, acts[..m]);
    GoodParts(cfg, Exec(cfg, s0, acts[..m]));
    forall r | r in info.files ensures SavedDuring(cfg, s0, acts, r) {
      if r.fileid in cfg.files {
        SeenAtOnce(cfg, s0, acts, m, r.fileid);
      }
    }
  }

  lemma SavedKeys(job: History.JobRec, path: string, info: History.JobHistoryInfo)
    requires History.ValidJob(job) && History.SavedJob(job, path, info)
    ensures forall id :: id in job.bitmaps <==> id in Torrents.Ids(job.torrent.files)
  {
    BitmapKeys(job);
  }
}
