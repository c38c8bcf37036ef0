// The client object and its registry of jobs (client/src/client.cc).
module Client {
  import opened Prelude
  import opened Torrents
  import opened History
  import Bitmaps

  /** A new job on its torrent's wanted files. */
  method NewJobInfo(torrent: Torrent, top: string, needs: seq<Identity>) returns (job: JobRec)
    ensures job == Fresh(torrent, top, needs)
    ensures NewJob(job, torrent, top, needs)
    ensures forall id, i :: id in job.bitmaps && 0 <= i < |job.bitmaps[id]| ==> !job.bitmaps[id][i]
  {
    hide NewJob;
    FreshIsNew(torrent, top, needs);
    // the registry does not look at the disk
    var _, bitmaps, fileids := NewJobFiles(torrent, top, needs, map[]);
    job := JobRec(torrent, top, Wanted(torrent.files, needs), bitmaps, map id | id in fileids :: 0, 0, 0,
                  Flags(false, true, true));
  }

  lemma RecordsOfStep(files: seq<File>, id: FileId, bits: seq<bool>, pos: nat)
    requires pos < |files|
    ensures RecordsOf(files[..pos + 1], id, bits) ==
            RecordsOf(files[..pos], id, bits) + if files[pos].fileid == id then [RecordOf(files[pos], bits)] else []
  {
    assert files[..pos + 1][..pos] == files[..pos];
  }

  /** The records of one file id. */
  method SaveFile(files: seq<File>, id: FileId, bits: seq<bool>) returns (records: seq<FileRec>)
    ensures records == RecordsOf(files, id, bits)
  {
    records := [];
    for pos := 0 to |files|
      invariant records == RecordsOf(files[..pos], id, bits)
    {
      RecordsOfStep(files, id, bits, pos);
      if files[pos].fileid == id {
        records := records + [RecordOf(files[pos], bits)];
      }
    }
    assert files[..|files|] == files;
  }

  lemma RecordsStep(files: seq<File>, bitmaps: map<FileId, seq<bool>>, order: seq<FileId>, id: FileId)
    requires (forall a :: a in order ==> a in bitmaps) && id in bitmaps
    ensures Records(files, bitmaps, order + [id]) == Records(files, bitmaps, order) + RecordsOf(files, id, bitmaps[id])
  {
    assert (order + [id])[..|order|] == order;
  }

  lemma SaveableIds(job: JobRec)
    ensures Saveable(job) <==> forall id :: id in Ids(job.torrent.files) ==> id in job.bitmaps
  {
    if Saveable(job) {
      forall id | id in Ids(job.torrent.files) ensures id in job.bitmaps {
        var i :| 0 <= i < |job.torrent.files| && Ids(job.torrent.files)[i] == id;
        assert job.torrent.files[i] in job.torrent.files;
      }
    }
    forall f | f in job.torrent.files ensures f.fileid in Ids(job.torrent.files) {
      var i :| 0 <= i < |job.torrent.files| && job.torrent.files[i] == f;
      assert Ids(job.torrent.files)[i] == f.fileid;
    }
  }

  ghost predicate Distinct(order: seq<FileId>) {
    forall i, j :: 0 <= i < j < |order| ==> order[i] != order[j]
  }

  lemma SavedFrom(job: JobRec, path: string, info: JobHistoryInfo, order: seq<FileId>)
    requires OrderOf(job.torrent.files, order)
    requires forall id :: id in order ==> id in job.bitmaps
    requires info == JobHistoryInfo(path, job.topPath, Records(job.torrent.files, job.bitmaps, order),
                                    job.uploadTotal, job.downloadTotal)
    ensures SavedJob(job, path, info)
  {
    SaveableIds(job);
  }

  /** One job; None when some file has no bitmap, which is a null pointer in the loop. */
  method SaveJob(job: JobRec, path: string) returns (info: Option<JobHistoryInfo>)
    ensures info.Some? <==> Saveable(job)
    ensures info.Some? ==> SavedJob(job, path, info.value)
    ensures info.Some? ==> |info.value.files| == |job.torrent.files| && EachSaved(job, info.value.files)
  {
    hide Records, RecordsOf, SavedJob, Saveable, Ids, EachSaved;
    SaveableIds(job);
    var files, records := job.torrent.files, [];
    ghost var order: seq<FileId> := [];
    NoRecords(files, job.bitmaps);
    var ids := Ids(files);
    var todo := set id | id in ids;
    while todo != {}
      invariant forall id :: id in ids <==> id in todo || id in order
      invariant forall id :: id in order ==> id !in todo
      invariant Distinct(order)
      invariant forall id :: id in order ==> id in job.bitmaps
      invariant records == Records(files, job.bitmaps, order)
      decreases todo
    {
      var id :| id in todo;
      if id !in job.bitmaps {
        return None;
      }
      var more := SaveFile(files, id, job.bitmaps[id]);
      records := records + more;
      RecordsStep(files, job.bitmaps, order, id);
      order := order + [id];
      todo := todo - {id};
    }
    info := Some(JobHistoryInfo(path, job.topPath, records, job.uploadTotal, job.downloadTotal));
    SavedFrom(job, path, info.value, order);
    SavedEach(job, path, info.value);
    RecordsCount(files, job.bitmaps, order);
  }

  lemma NoRecords(files: seq<File>, bitmaps: map<FileId, seq<bool>>)
    ensures Records(files, bitmaps, []) == []
  {
  }

  ghost predicate AllSaveable(reg: Registry) {
    forall h: nat :: h in reg.jobs ==> Saveable(reg.jobs[h])
  }

  ghost predicate SavedBelow(reg: Registry, bound: nat, history: seq<JobHistoryInfo>) {
    SavedAs(reg.(jobIndex := bound), history)
  }

  lemma SavedStep(reg: Registry, handle: nat, history: seq<JobHistoryInfo>, info: JobHistoryInfo)
    requires SavedBelow(reg, handle, history)
    ensures handle !in reg.jobs ==> SavedBelow(reg, handle + 1, history)
    ensures SavedAt(reg, handle, info) ==> SavedBelow(reg, handle + 1, history + [info])
  {
    hide SavedJob;
    var live := Live(reg.jobs, handle);
    forall i | 0 <= i < |live| ensures SavedAt(reg.(jobIndex := handle + 1), live[i], history[i]) {
      assert SavedAt(reg.(jobIndex := handle), live[i], history[i]);
    }
    if SavedAt(reg, handle, info) {
      assert SavedAt(reg.(jobIndex := handle + 1), handle, info);
    }
  }

  /** One job more, under the next handle, with its path; its torrent is registered. */
  ghost predicate Added(before: Registry, after: Registry, torrent: Torrent, path: string) {
    && before.jobIndex in after.jobs
    && after.jobs == before.jobs[before.jobIndex := after.jobs[before.jobIndex]]
    && after.removedJobs == before.removedJobs && after.paths == before.paths[before.jobIndex := path]
    && after.torrentIds == before.torrentIds + {torrent.id} && after.jobIndex == before.jobIndex + 1
  }

  lemma AddedBy(reg: Registry, job: JobRec, path: string)
    ensures Added(reg, AddJob(reg, job, path), job.torrent, path)
    ensures AddJob(reg, job, path).jobs[reg.jobIndex] == job
  {
  }

  class CoolClient {
    var jobs: map<nat, JobRec>
    var removedJobs: map<nat, JobRec>
    var torrentPathMap: map<nat, string>
    var torrentIds: set<string>
    var jobIndex: nat

    ghost function View(): Registry
      reads this
    {
      Registry(jobs, removedJobs, torrentPathMap, torrentIds, jobIndex)
    }

    constructor ()
      ensures View() == EMPTY
    {
      jobs, removedJobs, torrentPathMap, torrentIds, jobIndex := map[], map[], map[], {}, 0;
    }

    predicate HasThisTorrent(id: string)
      reads this
    {
      id in torrentIds
    }

    method RegisterTorrent(id: string)
      modifies this`torrentIds
      ensures torrentIds == old(torrentIds) + {id}
    {
      torrentIds := torrentIds + {id};
    }

    method AddNewJob(job: JobRec, path: string) returns (handle: nat)
      modifies this
      ensures View() == AddJob(old(View()), job, path).(torrentIds := old(torrentIds)) && handle == old(jobIndex)
      ensures jobs == old(jobs)[old(jobIndex) := job] && torrentPathMap == old(torrentPathMap)[old(jobIndex) := path]
      ensures jobIndex == old(jobIndex) + 1 && removedJobs == old(removedJobs) && torrentIds == old(torrentIds)
    {
      handle := jobIndex;
      jobs := jobs[jobIndex := job];
      jobIndex := jobIndex + 1;
      torrentPathMap := torrentPathMap[handle := path];
    }

    /** None: this torrent has, or had, a job. */
    method AddNewDownloadJob(path: string, torrent: Torrent, needs: seq<Identity>, top: string)
      returns (handle: Option<nat>)
      modifies this
      ensures View() == Apply(old(View()), AddDownload(path, torrent, needs, top))
      ensures handle == if torrent.id in old(torrentIds) then None else Some(old(jobIndex))
      ensures handle.None? ==> View() == old(View())
      ensures handle.Some? ==> Added(old(View()), View(), torrent, path)
      ensures handle.Some? ==>
                handle.value in jobs
                && var job := jobs[handle.value];
                   && NewJob(job, torrent, top, needs)
                   && forall id, i :: id in job.bitmaps && 0 <= i < |job.bitmaps[id]| ==> !job.bitmaps[id][i]
    {
      hide NewJob, Fresh;
      FreshIsNew(torrent, top, needs);
      if HasThisTorrent(torrent.id) {
        return None;
      }
      RegisterTorrent(torrent.id);
      var job := NewJobInfo(torrent, top, needs);
      var h := AddNewJob(job, path);
      handle := Some(h);
    }

    /** The same, every chunk being on disk already. */
    method AddNewUploadJob(path: string, top: string, torrent: Torrent) returns (handle: Option<nat>)
      modifies this
      ensures View() == Apply(old(View()), AddUpload(path, torrent, top))
      ensures handle == if torrent.id in old(torrentIds) then None else Some(old(jobIndex))
      ensures handle.None? ==> View() == old(View())
      ensures handle.Some? ==> Added(old(View()), View(), torrent, path)
      ensures handle.Some? ==>
                handle.value in jobs
                && var job := jobs[handle.value];
                   && NewJob(job, torrent, top, Identities(torrent.files)) && job.wanted == torrent.files
                   && forall id, i :: id in job.bitmaps && 0 <= i < |job.bitmaps[id]| ==> job.bitmaps[id][i]
    {
      hide NewJob, Fresh;
      SeededIsNew(torrent, top, Identities(torrent.files));
      if HasThisTorrent(torrent.id) {
        return None;
      }
      RegisterTorrent(torrent.id);
      var needs := [];
      for i := 0 to |torrent.files|
        invariant needs == Identities(torrent.files)[..i]
      {
        needs := needs + [IdentityOf(torrent.files[i])];
      }
      assert needs == Identities(torrent.files);
      var job := NewJobInfo(torrent, top, needs);
      SeedKeys(torrent, top);
      var seeded := SetAll(torrent, job.bitmaps);
      job := job.(bitmaps := seeded);
      var h := AddNewJob(job, path);
      handle := Some(h);
    }

    method RemoveJob(handle: nat) returns (ok: bool)
      modifies this
      ensures View() == Apply(old(View()), Remove(handle))
      ensures ok <==> handle in old(jobs)
      ensures !ok ==> View() == old(View())
      ensures ok ==>
                && jobs == old(jobs) - {handle} && handle in removedJobs
                && removedJobs == old(removedJobs)[handle := removedJobs[handle]]
                && removedJobs[handle].flags.removed
                && removedJobs[handle].(flags := old(jobs)[handle].flags) == old(jobs)[handle]
                && torrentPathMap == old(torrentPathMap) && torrentIds == old(torrentIds) && jobIndex == old(jobIndex)
    {
      if handle !in jobs {
        return false;
      }
      var job := jobs[handle];
      job := job.(flags := job.flags.(removed := true));
      jobs := jobs - {handle};
      removedJobs := removedJobs[handle := job];
      ok := true;
    }

    /** The flags of a live job as given; false when there is no such job. */
    method SetFlags(handle: nat, stopped: bool, paused: bool) returns (ok: bool)
      modifies this`jobs
      ensures ok <==> handle in old(jobs)
      ensures jobs == if !ok then old(jobs)
                      else
                        var job := old(jobs)[handle];
                        old(jobs)[handle := job.(flags := Flags(job.flags.removed, stopped, paused))]
    {
      ok := handle in jobs;
      if ok {
        jobs := jobs[handle := jobs[handle].(flags := Flags(jobs[handle].flags.removed, stopped, paused))];
      }
    }

    method PauseJob(handle: nat) returns (ok: bool)
      modifies this
      ensures View() == Apply(old(View()), Pause(handle))
      ensures ok <==> handle in old(jobs)
      ensures forall h: nat :: h in old(jobs) ==>
                h in jobs
                && jobs[h].flags.paused == (h == handle || old(jobs)[h].flags.paused)
                && jobs[h].flags.stopped == old(jobs)[h].flags.stopped
    {
      ok := handle in jobs;
      if ok {
        ok := SetFlags(handle, jobs[handle].flags.stopped, true);
      }
    }

    method ResumeJob(handle: nat) returns (ok: bool)
      modifies this
      ensures View() == Apply(old(View()), Resume(handle))
      ensures ok <==> handle in old(jobs)
      ensures forall h: nat :: h in old(jobs) ==>
                h in jobs
                && jobs[h].flags.paused == (h != handle && old(jobs)[h].flags.paused)
                && jobs[h].flags.stopped == (h != handle && old(jobs)[h].flags.stopped)
    {
      ok := SetFlags(handle, false, false);
    }

    method StopJob(handle: nat) returns (ok: bool)
      modifies this
      ensures View() == Apply(old(View()), Stop(handle))
      ensures ok <==> handle in old(jobs)
      ensures forall h: nat :: h in old(jobs) ==>
                h in jobs
                && jobs[h].flags.paused == old(jobs)[h].flags.paused
                && jobs[h].flags.stopped == (h == handle || old(jobs)[h].flags.stopped)
    {
      ok := handle in jobs;
      if ok {
        ok := SetFlags(handle, true, jobs[handle].flags.paused);
      }
    }

    /** None when a live job has no bitmap for some file of its torrent. */
    method SaveJobHistory() returns (history: Option<seq<JobHistoryInfo>>)
      requires Valid(View())
      ensures history.Some? <==> AllSaveable(View())
      ensures history.Some? ==> SavedAs(View(), history.value)
    {
      hide SavedBelow, SavedJob, Saveable, ValidJob;
      var infos: seq<JobHistoryInfo> := [];
      SavedNothing(View());
      for handle := 0 to jobIndex
        invariant forall h: nat :: h < handle && h in jobs ==> Saveable(jobs[h])
        invariant SavedBelow(View(), handle, infos)
      {
        if handle in jobs {
          var info := SaveJob(jobs[handle], torrentPathMap[handle]);
          if info.None? {
            return None;
          }
          SavedStep(View(), handle, infos, info.value);
          infos := infos + [info.value];
        } else {
          SavedStep(View(), handle, infos, JobHistoryInfo("", "", [], 0, 0));
        }
      }
      history := Some(infos);
      SavedEverything(View(), infos);
    }

    /** False when the torrent is already there or a saved bitmap is empty; the client then ends in an exception. */
    method ReloadOneJob(torrent: Torrent, info: JobHistoryInfo) returns (ok: bool)
      modifies this
      ensures ok <==> torrent.id !in old(torrentIds) && forall r :: r in info.files ==> r.bitCount > 0
      ensures ok ==> View() == AddJob(old(View()), Restored(torrent, info), info.torrentPath)
      ensures ok ==> Added(old(View()), View(), torrent, info.torrentPath)
                     && RestoredJob(jobs[old(jobIndex)], torrent, info)
    {
      hide RestoredJob, NewJob, LastDecides, Fresh, Added, Assigned, Scored;
      if HasThisTorrent(torrent.id) {
        return false;
      }
      RegisterTorrent(torrent.id);
      var needs := [];
      for i := 0 to |info.files|
        invariant needs == Needs(info.files)[..i]
      {
        needs := needs + [info.files[i].identity];
      }
      assert needs == Needs(info.files);
      var job := NewJobInfo(torrent, info.localTopPath, needs);
      job := job.(uploadTotal := info.uploadTotal, downloadTotal := info.downloadTotal);
      var done, bitmaps, percentages := AssignFiles(job.bitmaps, job.percentages, info.files);
      if !done {
        return false;
      }
      job := job.(bitmaps := bitmaps, percentages := percentages, flags := Flags(false, false, true));
      RestoredIs(torrent, info);
      FreshIsNew(torrent, info.localTopPath, needs);
      AddedBy(old(View()), job, info.torrentPath);
      var _ := AddNewJob(job, info.torrentPath);
      ok := true;
    }

    method ReloadJobHistory(history: seq<JobHistoryInfo>, parse: string -> Option<Torrent>) returns (ok: bool)
      modifies this
      ensures ok <==> Reload(old(View()), history, parse).Some?
      ensures ok ==> View() == Reload(old(View()), history, parse).value
    {
      for i := 0 to |history|
        invariant Reload(View(), history[i..], parse) == Reload(old(View()), history, parse)
      {
        ReloadStep(View(), history, parse, i);
        var torrent := parse(history[i].torrentPath);
        if torrent.None? {
          continue;
        }
        var reloaded := ReloadOneJob(torrent.value, history[i]);
        if !reloaded {
          return false;
        }
      }
      ok := true;
    }
  }

  lemma SeedKeys(torrent: Torrent, top: string)
    ensures forall id :: id in Fresh(torrent, top, Identities(torrent.files)).bitmaps <==> id in Ids(torrent.files)
    ensures Fresh(torrent, top, Identities(torrent.files)).wanted == torrent.files
  {
    forall f | f in torrent.files ensures IdentityOf(f) in Identities(torrent.files) {
      var i :| 0 <= i < |torrent.files| && torrent.files[i] == f;
      assert Identities(torrent.files)[i] == IdentityOf(f);
    }
    WantedAll(torrent.files, Identities(torrent.files));
    ClearBitsKeys(torrent.files);
  }

  lemma ReloadStep(reg: Registry, history: seq<JobHistoryInfo>, parse: string -> Option<Torrent>, i: nat)
    requires i < |history|
    ensures parse(history[i].torrentPath).None? ==>
              Reload(reg, history[i..], parse) == Reload(reg, history[i + 1..], parse)
    ensures parse(history[i].torrentPath).Some? ==>
              var torrent := parse(history[i].torrentPath).value;
              if torrent.id !in reg.torrentIds && forall r :: r in history[i].files ==> r.bitCount > 0 then
                Reload(reg, history[i..], parse) ==
                Reload(AddJob(reg, Restored(torrent, history[i]), history[i].torrentPath), history[i + 1..], parse)
              else Reload(reg, history[i..], parse) == None
  {
    hide Restored, AddJob;
    assert history[i..][0] == history[i] && history[i..][1..] == history[i + 1..];
  }

  lemma SavedNothing(reg: Registry)
    ensures SavedBelow(reg, 0, [])
  {
  }

  lemma SavedEverything(reg: Registry, history: seq<JobHistoryInfo>)
    requires SavedBelow(reg, reg.jobIndex, history)
    ensures SavedAs(reg, history)
  {
    assert reg.(jobIndex := reg.jobIndex) == reg;
  }

  ghost function SetIn(bitmaps: map<FileId, seq<bool>>, ids: set<FileId>): map<FileId, seq<bool>> {
    map id | id in bitmaps :: if id in ids then AllSet(bitmaps[id]) else bitmaps[id]
  }

  lemma SetInStep(bitmaps: map<FileId, seq<bool>>, ids: set<FileId>, id: FileId)
    requires id in bitmaps && id !in ids
    ensures id in SetIn(bitmaps, ids)
    ensures SetIn(bitmaps, ids + {id}) == SetIn(bitmaps, ids)[id := AllSet(SetIn(bitmaps, ids)[id])]
  {
  }

  /** Sets every bit of every file of the torrent, each file id once. */
  method SetAll(torrent: Torrent, bitmaps: map<FileId, seq<bool>>) returns (seeded: map<FileId, seq<bool>>)
    requires forall id :: id in bitmaps <==> id in Ids(torrent.files)
    ensures seeded == map id | id in bitmaps :: AllSet(bitmaps[id])
    ensures seeded.Keys == bitmaps.Keys
    ensures forall id :: id in bitmaps ==>
              |seeded[id]| == |bitmaps[id]| && forall i :: 0 <= i < |seeded[id]| ==> seeded[id][i]
  {
    hide SetIn, Ids;
    seeded := bitmaps;
    SetInNone(bitmaps);
    var sameFileid: set<FileId> := {};
    for pos := 0 to |torrent.files|
      invariant forall p: nat :: p < pos ==> torrent.files[p].fileid in sameFileid
      invariant seeded == SetIn(bitmaps, sameFileid)
    {
      var id := torrent.files[pos].fileid;
      IdAt(torrent.files, pos);
      if id !in sameFileid {
        SetInStep(bitmaps, sameFileid, id);
        sameFileid := sameFileid + {id};
        seeded := seeded[id := AllSet(seeded[id])];
      }
    }
    SetInAll(torrent.files, bitmaps, sameFileid);
  }

  lemma IdAt(files: seq<File>, pos: nat)
    requires pos < |files|
    ensures files[pos].fileid in Ids(files)
  {
    assert Ids(files)[pos] == files[pos].fileid;
  }

  lemma SetInNone(bitmaps: map<FileId, seq<bool>>)
    ensures SetIn(bitmaps, {}) == bitmaps
  {
  }

  lemma SetInAll(files: seq<File>, bitmaps: map<FileId, seq<bool>>, ids: set<FileId>)
    requires forall id :: id in bitmaps <==> id in Ids(files)
    requires forall p: nat :: p < |files| ==> files[p].fileid in ids
    ensures SetIn(bitmaps, ids) == map id | id in bitmaps :: AllSet(bitmaps[id])
  {
    forall id | id in bitmaps ensures id in ids {
      var p :| 0 <= p < |files| && Ids(files)[p] == id;
    }
  }

  /** Replaces the bitmaps and percentages by the saved ones; false at a bitmap of size 0. */
  method AssignFiles(bitmaps: map<FileId, seq<bool>>, percentages: map<FileId, int>, records: seq<FileRec>)
    returns (ok: bool, bits: map<FileId, seq<bool>>, percents: map<FileId, int>)
    ensures ok <==> forall r :: r in records ==> r.bitCount > 0
    ensures ok ==> bits == Assigned(bitmaps, records) && percents == Scored(percentages, records)
    ensures ok ==> LastDecides(bitmaps, percentages, records, bits, percents)
  {
    hide Bitmaps.Decode, Bitmaps.Count, LastDecides;
    bits, percents := bitmaps, percentages;
    for i := 0 to |records|
      invariant forall r :: r in records[..i] ==> r.bitCount > 0
      invariant bits == Assigned(bitmaps, records[..i])
      invariant percents == Scored(percentages, records[..i])
    {
      var r := records[i];
      assert records[..i + 1][..i] == records[..i] && records[..i + 1][i] == r;
      var bitmap := Bitmaps.Decode(r.blocks, r.bitCount);
      bits := bits[r.fileid := bitmap];
      if |bitmap| == 0 {
        return false, bits, percents;
      }
      percents := percents[r.fileid := Bitmaps.Count(bitmap) / |bitmap|];
    }
    assert records[..|records|] == records;
    LastRecordDecides(bitmaps, percentages, records);
    ok := true;
  }
}
