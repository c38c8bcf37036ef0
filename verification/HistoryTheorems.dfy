// Saving the live jobs and reloading them into a fresh client gives the same jobs back.
module HistoryTheorems {
  import opened Bags
  import opened Prelude
  import opened Torrents
  import opened History
  import Bitmaps

  /** Each record carries the bitmap of its file. */
  ghost predicate Carries(records: seq<FileRec>, bitmaps: map<FileId, seq<bool>>) {
    forall r :: r in records ==>
                  r.fileid in bitmaps
                  && r.bitCount == |bitmaps[r.fileid]| && r.blocks == Bitmaps.Pack(bitmaps[r.fileid])
  }

  ghost predicate Recorded(records: seq<FileRec>, id: FileId) {
    exists r :: r in records && r.fileid == id
  }

  lemma CarriesPrefix(records: seq<FileRec>, bitmaps: map<FileId, seq<bool>>, n: nat)
    requires Carries(records, bitmaps) && n < |records|
    ensures Carries(records[..n], bitmaps) && records[n] in records
    ensures records[n].fileid in bitmaps
    ensures Bitmaps.Decode(records[n].blocks, records[n].bitCount) == bitmaps[records[n].fileid]
  {
    assert records[n] in records;
    Bitmaps.RoundTrip(bitmaps[records[n].fileid]);
  }

  lemma RecordedStep(records: seq<FileRec>, id: FileId)
    requires records != []
    ensures Recorded(records, id) <==> Recorded(records[..|records| - 1], id) || records[|records| - 1].fileid == id
  {
    var n := |records| - 1;
    assert records == records[..n] + [records[n]];
    assert records[n] in records;
  }

  /** The bitmaps assigned from such records are the saved ones. */
  lemma {:induction false} AssignedIs(base: map<FileId, seq<bool>>, records: seq<FileRec>,
                                      bitmaps: map<FileId, seq<bool>>, id: FileId)
    requires Carries(records, bitmaps)
    ensures id in Assigned(base, records) <==> id in base || Recorded(records, id)
    ensures Recorded(records, id) ==> id in bitmaps && Assigned(base, records)[id] == bitmaps[id]
    ensures id in base && !Recorded(records, id) ==> Assigned(base, records)[id] == base[id]
  {
    if records != [] {
      var n := |records| - 1;
      CarriesPrefix(records, bitmaps, n);
      RecordedStep(records, id);
      AssignedIs(base, records[..n], bitmaps, id);
    }
  }

  /** Dividing the count of a bitmap by its size as integers gives 1 or 0. */
  lemma {:induction false} CoarseIs(bits: seq<bool>)
    requires bits != []
    ensures Bitmaps.Count(bits) / |bits| == Coarse(bits)
  {
    hide Bitmaps.Count;
    Bitmaps.CountIsFull(bits);
    QuotientOfFull(Bitmaps.Count(bits), |bits|);
  }

  lemma QuotientOfFull(count: nat, size: nat)
    requires count <= size && size > 0
    ensures count / size == if count == size then 1 else 0
  {
  }

  lemma {:induction false} ScoredIs(base: map<FileId, int>, records: seq<FileRec>, bitmaps: map<FileId, seq<bool>>,
                                    id: FileId)
    requires Carries(records, bitmaps)
    requires forall r :: r in records ==> r.bitCount > 0
    ensures id in Scored(base, records) <==> id in base || Recorded(records, id)
    ensures Recorded(records, id) ==> id in bitmaps && Scored(base, records)[id] == Coarse(bitmaps[id])
  {
    if records != [] {
      var n := |records| - 1;
      CarriesPrefix(records, bitmaps, n);
      RecordedStep(records, id);
      ScoredIs(base, records[..n], bitmaps, id);
      CoarseIs(bitmaps[records[n].fileid]);
    }
  }

  lemma SavedRecords(job: JobRec, path: string, info: JobHistoryInfo)
    requires SavedJob(job, path, info)
    ensures Carries(info.files, job.bitmaps)
    ensures forall id :: Recorded(info.files, id) <==> id in Ids(job.torrent.files)
    ensures forall f :: f in job.torrent.files ==> IdentityOf(f) in Needs(info.files)
  {
    var files := job.torrent.files;
    var order :| OrderOf(files, order) && (forall id :: id in order ==> id in job.bitmaps)
                 && info.files == Records(files, job.bitmaps, order);
    forall r
      ensures r in info.files <==>
              exists f :: f in files && f.fileid in order && r == RecordOf(f, job.bitmaps[f.fileid])
    {
      RecordsMember(files, job.bitmaps, order, r);
    }
    forall f | f in files
      ensures f.fileid in order && RecordOf(f, job.bitmaps[f.fileid]) in info.files
      ensures IdentityOf(f) in Needs(info.files)
    {
      IdMember(files, f.fileid);
      var r := RecordOf(f, job.bitmaps[f.fileid]);
      assert r in info.files;
      var i :| 0 <= i < |info.files| && info.files[i] == r;
      assert Needs(info.files)[i] == IdentityOf(f);
    }
    forall id ensures Recorded(info.files, id) <==> id in Ids(files) {
      IdMember(files, id);
      if f :| f in files && f.fileid == id {
        assert RecordOf(f, job.bitmaps[f.fileid]) in info.files;
      }
    }
  }

  lemma IdMember(files: seq<File>, id: FileId)
    ensures id in Ids(files) <==> exists f :: f in files && f.fileid == id
  {
    if id in Ids(files) {
      var i :| 0 <= i < |files| && Ids(files)[i] == id;
      assert files[i] in files;
    }
    if f :| f in files && f.fileid == id {
      var i :| 0 <= i < |files| && files[i] == f;
      assert Ids(files)[i] == id;
    }
  }

  lemma BitmapKeys(job: JobRec)
    requires ValidJob(job) && Saveable(job)
    ensures forall id :: id in job.bitmaps <==> id in Ids(job.torrent.files)
  {
    forall id ensures id in job.bitmaps <==> id in Ids(job.torrent.files) {
      IdMember(job.wanted, id);
      IdMember(job.torrent.files, id);
    }
  }

  /** Some bitmap of the job has no bits: a file without chunks. */
  ghost predicate HasEmptyFile(job: JobRec) {
    exists id :: id in job.bitmaps && job.bitmaps[id] == []
  }

  lemma EmptyRecordIff(job: JobRec, path: string, info: JobHistoryInfo)
    requires ValidJob(job) && SavedJob(job, path, info)
    ensures info.torrentPath == path
    ensures (exists r :: r in info.files && r.bitCount == 0) <==> HasEmptyFile(job)
  {
    SavedRecords(job, path, info);
    BitmapKeys(job);
    if id :| id in job.bitmaps && job.bitmaps[id] == [] {
      assert Recorded(info.files, id);
    }
  }

  /** One job comes back as it was saved. */
  lemma JobRoundTrip(job: JobRec, path: string, info: JobHistoryInfo)
    requires ValidJob(job) && SavedJob(job, path, info) && !HasEmptyFile(job)
    ensures forall r :: r in info.files ==> r.bitCount > 0
    ensures Restored(job.torrent, info) == Reopened(job)
    ensures var back := Restored(job.torrent, info);
            && back.torrent == job.torrent && back.topPath == job.topPath && back.wanted == job.torrent.files
            && back.bitmaps == job.bitmaps && back.percentages.Keys == job.bitmaps.Keys
            && back.uploadTotal == job.uploadTotal && back.downloadTotal == job.downloadTotal
            && !back.flags.removed && !back.flags.stopped && back.flags.paused
  {
    hide Assigned, Scored, Bitmaps.Decode, Bitmaps.Pack, Bitmaps.Count, Wanted, ClearBits, Carries, Recorded, Needs,
      Ids, Coarse, Records;
    var files := job.torrent.files;
    EmptyRecordIff(job, path, info);
    SavedRecords(job, path, info);
    BitmapKeys(job);
    WantedAll(files, Needs(info.files));
    ClearBitsKeys(files);
    var fresh' := Fresh(job.torrent, info.localTopPath, Needs(info.files));
    assert fresh'.wanted == files;
    forall id
      ensures id in Assigned(fresh'.bitmaps, info.files) <==> id in job.bitmaps
      ensures id in job.bitmaps ==> Assigned(fresh'.bitmaps, info.files)[id] == job.bitmaps[id]
    {
      AssignedIs(fresh'.bitmaps, info.files, job.bitmaps, id);
    }
    assert Assigned(fresh'.bitmaps, info.files) == job.bitmaps;
    ScoresRestored(job, fresh'.percentages, info.files);
  }

  lemma ScoresRestored(job: JobRec, base: map<FileId, int>, records: seq<FileRec>)
    requires Carries(records, job.bitmaps)
    requires forall r :: r in records ==> r.bitCount > 0
    requires forall id :: id in base ==> id in job.bitmaps
    requires forall id :: Recorded(records, id) <==> id in job.bitmaps
    ensures Scored(base, records) == map id | id in job.bitmaps :: Coarse(job.bitmaps[id])
  {
    hide Scored, Carries, Recorded, Coarse;
    forall id
      ensures id in Scored(base, records) <==> id in job.bitmaps
      ensures id in job.bitmaps ==> Scored(base, records)[id] == Coarse(job.bitmaps[id])
    {
      ScoredIs(base, records, job.bitmaps, id);
    }
  }

  // ----- the whole registry -----

  /** The client after reloading the jobs with these handles. */
  ghost function Rebuilt(reg: Registry, live: seq<nat>): Registry
    requires forall i :: 0 <= i < |live| ==> live[i] in reg.jobs && live[i] in reg.paths
  {
    if live == [] then EMPTY
    else
      var n := |live| - 1;
      AddJob(Rebuilt(reg, live[..n]), Reopened(reg.jobs[live[n]]), reg.paths[live[n]])
  }

  lemma {:induction false} RebuiltIds(reg: Registry, live: seq<nat>, id: string)
    requires forall i :: 0 <= i < |live| ==> live[i] in reg.jobs && live[i] in reg.paths
    ensures id in Rebuilt(reg, live).torrentIds <==> exists i :: 0 <= i < |live| && reg.jobs[live[i]].torrent.id == id
  {
    if live != [] {
      var n := |live| - 1;
      RebuiltIds(reg, live[..n], id);
      assert forall i :: 0 <= i < n ==> live[..n][i] == live[i];
    }
  }

  /** Job number i is the i-th live one. */
  lemma {:induction false} RebuiltAt(reg: Registry, live: seq<nat>)
    requires forall i :: 0 <= i < |live| ==> live[i] in reg.jobs && live[i] in reg.paths
    ensures Rebuilt(reg, live).jobIndex == |live| && Rebuilt(reg, live).removedJobs == map[]
    ensures forall i: nat :: i in Rebuilt(reg, live).jobs <==> i < |live|
    ensures forall i: nat :: i in Rebuilt(reg, live).paths <==> i < |live|
    ensures forall i: nat :: i < |live| ==> Rebuilt(reg, live).jobs[i] == Reopened(reg.jobs[live[i]])
    ensures forall i: nat :: i < |live| ==> Rebuilt(reg, live).paths[i] == reg.paths[live[i]]
  {
    hide Reopened, AddJob;
    if live != [] {
      var n := |live| - 1;
      ghost var prefix := live[..n];
      assert forall i :: 0 <= i < n ==> prefix[i] == live[i];
      RebuiltAt(reg, prefix);
      AddJobAt(Rebuilt(reg, prefix), Reopened(reg.jobs[live[n]]), reg.paths[live[n]]);
    }
  }

  lemma AddJobAt(reg: Registry, job: JobRec, path: string)
    ensures var next := AddJob(reg, job, path);
            && next.jobs == reg.jobs[reg.jobIndex := job] && next.paths == reg.paths[reg.jobIndex := path]
            && next.jobIndex == reg.jobIndex + 1 && next.removedJobs == reg.removedJobs
  {
  }

  ghost predicate Parses(reg: Registry, parse: string -> Option<Torrent>) {
    forall h: nat :: h in reg.jobs && h in reg.paths ==> parse(reg.paths[h]) == Some(reg.jobs[h].torrent)
  }

  /** One step of the reload: the next saved job is added, unless it has a file without chunks. */
  lemma ReloadNext(reg: Registry, handle: nat, base: Registry, history: seq<JobHistoryInfo>,
                   parse: string -> Option<Torrent>)
    requires history != [] && SavedAt(reg, handle, history[0]) && ValidJob(reg.jobs[handle]) && Parses(reg, parse)
    requires reg.jobs[handle].torrent.id !in base.torrentIds
    ensures Reload(base, history, parse) ==
            if HasEmptyFile(reg.jobs[handle]) then None
            else Reload(AddJob(base, Reopened(reg.jobs[handle]), reg.paths[handle]), history[1..], parse)
  {
    hide HasEmptyFile, SavedJob, Restored, Reopened, AddJob, ValidJob;
    var job, info := reg.jobs[handle], history[0];
    EmptyRecordIff(job, reg.paths[handle], info);
    if !HasEmptyFile(job) {
      JobRoundTrip(job, reg.paths[handle], info);
    }
  }

  lemma RebuiltStep(reg: Registry, live: seq<nat>, n: nat)
    requires n < |live|
    requires forall i :: 0 <= i < |live| ==> live[i] in reg.jobs && live[i] in reg.paths
    ensures Rebuilt(reg, live[..n + 1]) ==
            AddJob(Rebuilt(reg, live[..n]), Reopened(reg.jobs[live[n]]), reg.paths[live[n]])
  {
    assert live[..n + 1][..n] == live[..n] && live[..n + 1][n] == live[n];
  }

  lemma ReloadNothing(base: Registry, parse: string -> Option<Torrent>)
    ensures Reload(base, [], parse) == Some(base)
  {
  }

  ghost predicate EmptyFrom(reg: Registry, live: seq<nat>, n: nat)
    requires forall i :: 0 <= i < |live| ==> live[i] in reg.jobs
  {
    exists i :: n <= i < |live| && HasEmptyFile(reg.jobs[live[i]])
  }

  lemma {:induction false} ReloadFrom(reg: Registry, history: seq<JobHistoryInfo>, parse: string -> Option<Torrent>,
                                      live: seq<nat>, n: nat)
    requires n <= |live| && forall i :: 0 <= i < |live| ==> live[i] in reg.jobs && live[i] in reg.paths
    requires live == Live(reg.jobs, reg.jobIndex)
    requires Valid(reg) && SavedAs(reg, history) && Parses(reg, parse)
    ensures Reload(Rebuilt(reg, live[..n]), history[n..], parse) ==
            if EmptyFrom(reg, live, n) then None else Some(Rebuilt(reg, live))
    decreases |live| - n
  {
    hide Reload, Rebuilt, HasEmptyFile, SavedAt, Reopened, AddJob, Parses, Live, ValidJob, Valid;
    if n == |live| {
      assert live[..n] == live && history[n..] == [];
      ReloadNothing(Rebuilt(reg, live), parse);
    } else {
      assert history[n..][0] == history[n] && history[n..][1..] == history[n + 1..];
      NewTorrent(reg, live, n);
      RebuiltStep(reg, live, n);
      ReloadNext(reg, live[n], Rebuilt(reg, live[..n]), history[n..], parse);
      ReloadFrom(reg, history, parse, live, n + 1);
    }
  }

  lemma NewTorrent(reg: Registry, live: seq<nat>, n: nat)
    requires Valid(reg) && live == Live(reg.jobs, reg.jobIndex) && n < |live|
    requires forall i :: 0 <= i < |live| ==> live[i] in reg.jobs && live[i] in reg.paths
    ensures reg.jobs[live[n]].torrent.id !in Rebuilt(reg, live[..n]).torrentIds
    ensures ValidJob(reg.jobs[live[n]])
  {
    hide Rebuilt, ValidJob;
    RebuiltIds(reg, live[..n], reg.jobs[live[n]].torrent.id);
  }

  /** The live jobs of one registry, in handle order, are the jobs 0, 1, ... of the other, and its only torrents. */
  ghost predicate SameJobs(reg: Registry, after: Registry) {
    var live := Live(reg.jobs, reg.jobIndex);
    && after.jobIndex == |live| && after.removedJobs == map[]
    && (forall i: nat :: i in after.jobs <==> i < |live|)
    && (forall i: nat :: i < |live| ==> after.jobs[i] == Reopened(reg.jobs[live[i]]))
    && (forall i: nat :: i < |live| ==>
                           live[i] in reg.paths && i in after.paths && after.paths[i] == reg.paths[live[i]])
    && (forall id :: id in after.torrentIds <==> exists h :: h in reg.jobs && reg.jobs[h].torrent.id == id)
  }

  lemma LiveDomain(reg: Registry)
    requires Valid(reg)
    ensures var live := Live(reg.jobs, reg.jobIndex);
            forall i :: 0 <= i < |live| ==> live[i] in reg.jobs && live[i] in reg.paths
  {
    hide ValidJob;
  }

  lemma RebuiltTorrents(reg: Registry, live: seq<nat>)
    requires Valid(reg) && live == Live(reg.jobs, reg.jobIndex)
    requires forall i :: 0 <= i < |live| ==> live[i] in reg.jobs && live[i] in reg.paths
    ensures forall id :: id in Rebuilt(reg, live).torrentIds <==>
                           exists h :: h in reg.jobs && reg.jobs[h].torrent.id == id
  {
    hide Rebuilt, Valid, Live;
    forall id
      ensures id in Rebuilt(reg, live).torrentIds <==> exists h :: h in reg.jobs && reg.jobs[h].torrent.id == id
    {
      RebuiltIds(reg, live, id);
      LiveTorrents(reg, id);
    }
  }

  lemma RebuiltIsSame(reg: Registry, live: seq<nat>)
    requires Valid(reg) && live == Live(reg.jobs, reg.jobIndex)
    requires forall i :: 0 <= i < |live| ==> live[i] in reg.jobs && live[i] in reg.paths
    ensures SameJobs(reg, Rebuilt(reg, live))
  {
    hide Reopened, Rebuilt, Valid, Live;
    RebuiltAt(reg, live);
    RebuiltTorrents(reg, live);
  }

  lemma LiveTorrents(reg: Registry, id: string)
    requires Valid(reg)
    ensures var live := Live(reg.jobs, reg.jobIndex);
            (exists i :: 0 <= i < |live| && reg.jobs[live[i]].torrent.id == id) <==>
            exists h :: h in reg.jobs && reg.jobs[h].torrent.id == id
  {
    hide ValidJob;
  }

  /** The same for one registry. */
  lemma SaveThenReload(reg: Registry, history: seq<JobHistoryInfo>, parse: string -> Option<Torrent>)
    requires Valid(reg) && SavedAs(reg, history) && Parses(reg, parse)
    ensures Reload(EMPTY, history, parse).Some? <==> forall h :: h in reg.jobs ==> !HasEmptyFile(reg.jobs[h])
    ensures Reload(EMPTY, history, parse).Some? ==> SameJobs(reg, Reload(EMPTY, history, parse).value)
  {
    hide HasEmptyFile, Reload, SavedAt, Reopened, SameJobs, ValidJob, Rebuilt, Parses;
    var live := Live(reg.jobs, reg.jobIndex);
    LiveEmpty(reg);
    LiveDomain(reg);
    RebuiltIsSame(reg, live);
    ReloadFrom(reg, history, parse, live, 0);
    NothingRebuilt(reg, live);
    assert history[0..] == history && live[..0] == [];
  }

  lemma LiveEmpty(reg: Registry)
    requires Valid(reg)
    ensures var live := Live(reg.jobs, reg.jobIndex);
            EmptyFrom(reg, live, 0) <==> exists h :: h in reg.jobs && HasEmptyFile(reg.jobs[h])
  {
    hide HasEmptyFile, ValidJob;
  }

  lemma NothingRebuilt(reg: Registry, live: seq<nat>)
    ensures live[..0] == [] && Rebuilt(reg, []) == EMPTY
  {
  }

  /**
   * After any run of calls, saving and reloading into an empty client completes exactly when no live job has a
   * file without chunks, and then yields the live jobs in handle order, numbered from 0, each with its torrent,
   * torrent path, top path, totals and bitmaps.
   */
  lemma HistoryRoundTrip(ops: seq<Op>, history: seq<JobHistoryInfo>, parse: string -> Option<Torrent>)
    requires SavedAs(Run(EMPTY, ops), history) && Parses(Run(EMPTY, ops), parse)
    ensures var reg := Run(EMPTY, ops);
            && (Reload(EMPTY, history, parse).Some? <==> forall h :: h in reg.jobs ==> !HasEmptyFile(reg.jobs[h]))
            && (Reload(EMPTY, history, parse).Some? ==> SameJobs(reg, Reload(EMPTY, history, parse).value))
  {
    hide HasEmptyFile, Reload, SavedAs, SameJobs, Valid, Parses;
    EmptyIsValid();
    RunsKeepValid(EMPTY, ops);
    SaveThenReload(Run(EMPTY, ops), history, parse);
  }

  lemma EmptyIsValid()
    ensures Valid(EMPTY)
  {
  }

  /** A record whose torrent cannot be parsed makes no difference. */
  lemma {:induction false} ReloadSkips(reg: Registry, before: seq<JobHistoryInfo>, bad: JobHistoryInfo,
                                       after: seq<JobHistoryInfo>, parse: string -> Option<Torrent>)
    requires parse(bad.torrentPath) == None
    ensures Reload(reg, before + [bad] + after, parse) == Reload(reg, before + after, parse)
    decreases |before|
  {
    hide AddJob, Restored;
    var all, kept := before + [bad] + after, before + after;
    if before == [] {
      assert all[1..] == after && kept == after;
    } else {
      assert all[1..] == before[1..] + [bad] + after && kept[1..] == before[1..] + after;
      assert all[0] == before[0] && kept[0] == before[0];
      ReloadSkips(reg, before[1..], bad, after, parse);
      match parse(before[0].torrentPath)
      case None =>
      case Some(torrent) =>
        if torrent.id !in reg.torrentIds && forall r :: r in before[0].files ==> r.bitCount > 0 {
          ReloadSkips(AddJob(reg, Restored(torrent, before[0]), before[0].torrentPath), before[1..], bad, after, parse);
        }
    }
  }

  // ----- what can be saved, and what a restart changes -----

  /** A job can be saved exactly when for every file of its torrent some entry with the same content is needed. */
  lemma SaveableIff(torrent: Torrent, top: string, needs: seq<Identity>)
    ensures Saveable(Fresh(torrent, top, needs)) <==>
            forall f :: f in torrent.files ==>
              exists g :: g in torrent.files && IdentityOf(g) in needs && g.fileid == f.fileid
  {
    hide Wanted, ClearBits, Ids;
    var wanted := Wanted(torrent.files, needs);
    ClearBitsKeys(wanted);
    forall id
      ensures id in Fresh(torrent, top, needs).bitmaps <==>
              exists g :: g in torrent.files && IdentityOf(g) in needs && g.fileid == id
    {
      IdMember(wanted, id);
      forall g ensures g in wanted <==> g in torrent.files && IdentityOf(g) in needs {
        WantedMember(torrent.files, needs, g);
      }
    }
  }

  /** No call makes a job lose or gain a bitmap, so what can be saved once can always be saved. */
  lemma AlterKeepsSaveable(job: JobRec, op: Op)
    ensures Saveable(Alter(job, op)) <==> Saveable(job)
  {
  }

  lemma ApplyKeepsSaveable(reg: Registry, op: Op, h: nat)
    requires Valid(reg) && h < reg.jobIndex && h in Apply(reg, op).jobs
    ensures h in reg.jobs && (Saveable(Apply(reg, op).jobs[h]) <==> Saveable(reg.jobs[h]))
  {
    hide Valid, Alter, Saveable, Fresh, Seeded;
    if !op.AddDownload? && !op.AddUpload? && !op.Remove? && op.handle == h && h in reg.jobs {
      AlterKeepsSaveable(reg.jobs[h], op);
    }
  }

  /** Whether a job can be saved is settled when it is added: no run of calls changes it while the job is live. */
  lemma {:induction false} RunsKeepSaveable(reg: Registry, ops: seq<Op>, h: nat)
    requires Valid(reg) && h in reg.jobs
    ensures h in Run(reg, ops).jobs ==> (Saveable(Run(reg, ops).jobs[h]) <==> Saveable(reg.jobs[h]))
  {
    hide Apply, Saveable, ValidJob;
    if ops != [] && h in Run(reg, ops).jobs {
      var n := |ops| - 1;
      RunsKeepValid(reg, ops[..n]);
      ApplyKeepsSaveable(Run(reg, ops[..n]), ops[n], h);
      RunsKeepSaveable(reg, ops[..n], h);
    }
  }

  /** The torrent of a removed job is refused for the rest of the session. */
  lemma {:induction false} RegisteredForGood(reg: Registry, ops: seq<Op>, id: string)
    requires id in reg.torrentIds
    ensures id in Run(reg, ops).torrentIds
  {
    if ops != [] {
      RegisteredForGood(reg, ops[..|ops| - 1], id);
    }
  }

  /** After a restart it is accepted again, unless it was live. */
  lemma RestartForgetsRemoved(reg: Registry, after: Registry, path: string, torrent: Torrent, needs: seq<Identity>,
                              top: string)
    requires SameJobs(reg, after)
    ensures Apply(after, AddDownload(path, torrent, needs, top)) == after <==>
            exists h :: h in reg.jobs && reg.jobs[h].torrent.id == torrent.id
  {
    hide Fresh, Reopened, Live;
    var next := Apply(after, AddDownload(path, torrent, needs, top));
    assert next != after ==> torrent.id !in after.torrentIds;
    assert torrent.id !in after.torrentIds ==> next.jobIndex == after.jobIndex + 1;
  }

  // ----- what the calls on a live job add up to -----

  /** What a call counts as downloaded for job `h`. */
  function Downloaded(op: Op, h: nat): nat {
    if op.Collect? && op.handle == h then op.down else 0
  }

  function Uploaded(op: Op, h: nat): nat {
    if op.Collect? && op.handle == h then op.up else 0
  }

  function Downloads(ops: seq<Op>, h: nat): seq<nat> {
    seq(|ops|, i requires 0 <= i < |ops| => Downloaded(ops[i], h))
  }

  function Uploads(ops: seq<Op>, h: nat): seq<nat> {
    seq(|ops|, i requires 0 <= i < |ops| => Uploaded(ops[i], h))
  }

  /** The call finishes chunk `pos` of file `id` of job `h`. */
  predicate Finishes(op: Op, h: nat, id: FileId, pos: nat) {
    op.Chunk? && op.handle == h && op.id == id && op.pos == pos
  }

  /** The job after a call, or some calls, that count so much for it and finish the chunk, or do not. */
  ghost predicate AddsUp(before: JobRec, after: JobRec, down: nat, up: nat, id: FileId, pos: nat, finished: bool) {
    && after.torrent == before.torrent && after.topPath == before.topPath && after.wanted == before.wanted
    && after.downloadTotal == before.downloadTotal + down && after.uploadTotal == before.uploadTotal + up
    && after.bitmaps.Keys == before.bitmaps.Keys
    && (id in before.bitmaps ==> |after.bitmaps[id]| == |before.bitmaps[id]|)
    && (id in before.bitmaps && pos < |before.bitmaps[id]| ==>
          (after.bitmaps[id][pos] <==> before.bitmaps[id][pos] || finished))
  }

  /** What a call changes of the job that it names. */
  lemma AlterAddsUp(job: JobRec, op: Op, h: nat, id: FileId, pos: nat)
    requires !op.AddDownload? && !op.AddUpload? && !op.Remove? && op.handle == h
    ensures AddsUp(job, Alter(job, op), Downloaded(op, h), Uploaded(op, h), id, pos, Finishes(op, h, id, pos))
  {
  }

  /** Pausing, resuming and stopping change the flags, and no other call on a live job does. */
  lemma AlterFlags(job: JobRec, op: Op)
    ensures var after := Alter(job, op).flags;
            && (op.Pause? ==> after == job.flags.(paused := true))
            && (op.Resume? ==> after == job.flags.(paused := false, stopped := false))
            && (op.Stop? ==> after == job.flags.(stopped := true))
            && (!op.Pause? && !op.Resume? && !op.Stop? ==> after == job.flags)
  {
  }

  lemma ApplyIs(reg: Registry, op: Op, h: nat)
    requires h in reg.jobs && h < reg.jobIndex && h in Apply(reg, op).jobs
    ensures Apply(reg, op).jobs[h] ==
            if !op.AddDownload? && !op.AddUpload? && !op.Remove? && op.handle == h then Alter(reg.jobs[h], op)
            else reg.jobs[h]
  {
    hide Fresh, Seeded, Alter;
  }

  lemma ApplyAddsUp(reg: Registry, op: Op, h: nat, id: FileId, pos: nat)
    requires h in reg.jobs && h < reg.jobIndex && h in Apply(reg, op).jobs
    ensures AddsUp(reg.jobs[h], Apply(reg, op).jobs[h], Downloaded(op, h), Uploaded(op, h), id, pos,
                   Finishes(op, h, id, pos))
  {
    hide Apply, Alter;
    ApplyIs(reg, op, h);
    if !op.AddDownload? && !op.AddUpload? && !op.Remove? && op.handle == h {
      AlterAddsUp(reg.jobs[h], op, h, id, pos);
    }
  }

  lemma AddsOn(a: JobRec, b: JobRec, c: JobRec, down: nat, up: nat, down': nat, up': nat, id: FileId, pos: nat,
               finished: bool, finished': bool)
    requires AddsUp(a, b, down, up, id, pos, finished) && AddsUp(b, c, down', up', id, pos, finished')
    ensures AddsUp(a, c, down + down', up + up', id, pos, finished || finished')
  {
  }

  lemma LiveBefore(reg: Registry, op: Op, h: nat)
    requires Valid(reg) && h in Apply(reg, op).jobs && h < reg.jobIndex
    ensures h in reg.jobs
  {
    hide Fresh, Seeded, ValidJob, Alter;
  }

  lemma NothingAddsUp(job: JobRec, h: nat, id: FileId, pos: nat)
    ensures AddsUp(job, job, Sum(Downloads([], h)), Sum(Uploads([], h)), id, pos, false)
  {
  }

  lemma HandleBelow(reg: Registry, h: nat)
    requires Valid(reg) && h in reg.jobs
    ensures h < reg.jobIndex
  {
    hide ValidJob;
  }

  lemma OneCallMore(ops: seq<Op>, h: nat, id: FileId, pos: nat)
    requires ops != []
    ensures var n := |ops| - 1;
            && Sum(Downloads(ops, h)) == Sum(Downloads(ops[..n], h)) + Downloaded(ops[n], h)
            && Sum(Uploads(ops, h)) == Sum(Uploads(ops[..n], h)) + Uploaded(ops[n], h)
            && ((exists i :: 0 <= i < |ops| && Finishes(ops[i], h, id, pos)) <==>
                (exists i :: 0 <= i < n && Finishes(ops[..n][i], h, id, pos)) || Finishes(ops[n], h, id, pos))
  {
    hide Finishes, Downloaded, Uploaded;
    var n := |ops| - 1;
    assert Downloads(ops, h)[..n] == Downloads(ops[..n], h) && Uploads(ops, h)[..n] == Uploads(ops[..n], h);
  }

  /**
   * On every run of calls a live job keeps its torrent and files; its totals are what they were and all that was
   * collected for it since, and a chunk is set exactly if it was or has been finished since.
   */
  lemma {:induction false} JobAddsUp(reg: Registry, ops: seq<Op>, h: nat, id: FileId, pos: nat)
    requires Valid(reg) && h in reg.jobs && h in Run(reg, ops).jobs
    ensures AddsUp(reg.jobs[h], Run(reg, ops).jobs[h], Sum(Downloads(ops, h)), Sum(Uploads(ops, h)), id, pos,
                   exists i :: 0 <= i < |ops| && Finishes(ops[i], h, id, pos))
  {
    hide Apply, Valid, AddsUp, Finishes, Downloaded, Uploaded, Sum, Downloads, Uploads;
    if ops == [] {
      NothingAddsUp(reg.jobs[h], h, id, pos);
    } else {
      var n := |ops| - 1;
      var middle := Run(reg, ops[..n]);
      RunsKeepValid(reg, ops[..n]);
      HandleBelow(reg, h);
      LiveBefore(middle, ops[n], h);
      JobAddsUp(reg, ops[..n], h, id, pos);
      ApplyAddsUp(middle, ops[n], h, id, pos);
      AddsOn(reg.jobs[h], middle.jobs[h], Run(reg, ops).jobs[h], Sum(Downloads(ops[..n], h)),
             Sum(Uploads(ops[..n], h)), Downloaded(ops[n], h), Uploaded(ops[n], h), id, pos,
             exists i :: 0 <= i < n && Finishes(ops[..n][i], h, id, pos), Finishes(ops[n], h, id, pos));
      OneCallMore(ops, h, id, pos);
    }
  }
}
