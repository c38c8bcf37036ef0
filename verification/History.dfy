// The registry of jobs and its history file (client/src/client.cc): adding and removing jobs, saving the
// live ones, and rebuilding them in a fresh client.
module History {
  import opened Prelude
  import opened Torrents
  import Picks
  import Bitmaps

  datatype Flags = Flags(removed: bool, stopped: bool, paused: bool)

  /** What the client keeps of one job. The stored files are those of the wanted entries. */
  datatype JobRec = JobRec(torrent: Torrent, topPath: string, wanted: seq<File>, bitmaps: map<FileId, seq<bool>>,
                           percentages: map<FileId, int>, uploadTotal: nat, downloadTotal: nat, flags: Flags)

  datatype FileRec = FileRec(fileid: FileId, identity: Identity, bitCount: nat, blocks: seq<Bitmaps.Block>)

  datatype JobHistoryInfo = JobHistoryInfo(torrentPath: string, localTopPath: string, files: seq<FileRec>,
                                           uploadTotal: nat, downloadTotal: nat)

  /** Handles are given out in order; the paths of removed jobs stay, and so do their torrent ids. */
  datatype Registry = Registry(jobs: map<nat, JobRec>, removedJobs: map<nat, JobRec>, paths: map<nat, string>,
                               torrentIds: set<string>, jobIndex: nat)

  const EMPTY := Registry(map[], map[], map[], {}, 0)

  // ----- adding and removing -----

  function Fresh(torrent: Torrent, top: string, needs: seq<Identity>): JobRec {
    var wanted := Wanted(torrent.files, needs);
    JobRec(torrent, top, wanted, ClearBits(wanted), map id | id in Ids(wanted) :: 0, 0, 0, Flags(false, true, true))
  }

  /** A job on the needed entries of its torrent that has moved no byte, and is neither removed nor running. */
  ghost predicate NewJob(job: JobRec, torrent: Torrent, top: string, needs: seq<Identity>) {
    && job.torrent == torrent && job.topPath == top
    && Picks.Kept(torrent.files, NeededIn(needs), Itself(), job.wanted)
    && BitPerChunk(job.wanted, job.bitmaps)
    && (forall id :: id in job.percentages <==> id in job.bitmaps)
    && (forall id :: id in job.percentages ==> job.percentages[id] == 0)
    && job.uploadTotal == 0 && job.downloadTotal == 0
    && !job.flags.removed && job.flags.stopped && job.flags.paused
  }

  lemma FreshIsNew(torrent: Torrent, top: string, needs: seq<Identity>)
    ensures NewJob(Fresh(torrent, top, needs), torrent, top, needs)
    ensures Fresh(torrent, top, needs).torrent == torrent && AllBitsAre(false, Fresh(torrent, top, needs).bitmaps)
  {
    hide Picks.Kept, Wanted, ClearBits, AllBitsAre, LastAt, Ids;
    WantedAre(torrent.files, needs);
    ClearBitsAre(Wanted(torrent.files, needs));
  }

  lemma SeededIsNew(torrent: Torrent, top: string, needs: seq<Identity>)
    ensures NewJob(Seeded(Fresh(torrent, top, needs)), torrent, top, needs)
    ensures Seeded(Fresh(torrent, top, needs)).torrent == torrent
    ensures AllBitsAre(true, Seeded(Fresh(torrent, top, needs)).bitmaps)
  {
    hide Picks.Kept, Fresh, Ids;
    FreshIsNew(torrent, top, needs);
  }

  function Identities(files: seq<File>): seq<Identity> {
    seq(|files|, i requires 0 <= i < |files| => IdentityOf(files[i]))
  }

  function AllSet(bits: seq<bool>): seq<bool> {
    seq(|bits|, _ => true)
  }

  function AddJob(reg: Registry, job: JobRec, path: string): Registry {
    reg.(jobs := reg.jobs[reg.jobIndex := job], paths := reg.paths[reg.jobIndex := path],
         torrentIds := reg.torrentIds + {job.torrent.id}, jobIndex := reg.jobIndex + 1)
  }

  /** One call on the client. */
  datatype Op =
    | AddDownload(path: string, torrent: Torrent, needs: seq<Identity>, top: string)
    | AddUpload(path: string, torrent: Torrent, top: string)
    | Remove(handle: nat)
    | Pause(handle: nat)
    | Resume(handle: nat)
    | Stop(handle: nat)
    | Chunk(handle: nat, id: FileId, pos: nat)
    | Collect(handle: nat, up: nat, down: nat, percentages: map<FileId, int>)

  function Seeded(job: JobRec): JobRec {
    job.(bitmaps := map id | id in job.bitmaps :: AllSet(job.bitmaps[id]))
  }

  function Alter(job: JobRec, op: Op): JobRec {
    match op
    case Pause(_) => job.(flags := job.flags.(paused := true))
    case Resume(_) => job.(flags := job.flags.(paused := false, stopped := false))
    case Stop(_) => job.(flags := job.flags.(stopped := true))
    case Chunk(_, id, pos) =>
      if id in job.bitmaps && pos < |job.bitmaps[id]| then
        job.(bitmaps := job.bitmaps[id := job.bitmaps[id][pos := true]])
      else job
    case Collect(_, up, down, percentages) =>
      job.(uploadTotal := job.uploadTotal + up, downloadTotal := job.downloadTotal + down, percentages := percentages)
    case _ => job
  }

  function Apply(reg: Registry, op: Op): Registry {
    match op
    case AddDownload(path, torrent, needs, top) =>
      if torrent.id in reg.torrentIds then reg else AddJob(reg, Fresh(torrent, top, needs), path)
    case AddUpload(path, torrent, top) =>
      if torrent.id in reg.torrentIds then reg
      else AddJob(reg, Seeded(Fresh(torrent, top, Identities(torrent.files))), path)
    case Remove(handle) =>
      if handle !in reg.jobs then reg
      else
        var job := reg.jobs[handle];
        reg.(jobs := reg.jobs - {handle},
             removedJobs := reg.removedJobs[handle := job.(flags := job.flags.(removed := true))])
    case _ =>
      if op.handle !in reg.jobs then reg else reg.(jobs := reg.jobs[op.handle := Alter(reg.jobs[op.handle], op)])
  }

  function Run(reg: Registry, ops: seq<Op>): Registry {
    if ops == [] then reg else Apply(Run(reg, ops[..|ops| - 1]), ops[|ops| - 1])
  }

  /** Every handle up to the next one is live or removed and has a path; live torrents are registered and distinct. */
  ghost predicate Valid(reg: Registry) {
    && (forall h: nat :: h in reg.paths <==> h < reg.jobIndex)
    && (forall h: nat :: h in reg.jobs || h in reg.removedJobs <==> h < reg.jobIndex)
    && (forall h: nat :: h in reg.jobs ==> h !in reg.removedJobs)
    && (forall h: nat :: h in reg.jobs ==> reg.jobs[h].torrent.id in reg.torrentIds)
    && (forall g: nat, h: nat :: g in reg.jobs && h in reg.jobs && g != h ==>
                                   reg.jobs[g].torrent.id != reg.jobs[h].torrent.id)
    && (forall h: nat :: h in reg.jobs ==> ValidJob(reg.jobs[h]))
  }

  /** The job has a bitmap for each file it wants and no other, and wants only what its torrent lists. */
  ghost predicate ValidJob(job: JobRec) {
    && (forall id :: id in job.bitmaps <==> id in Ids(job.wanted))
    && (forall f :: f in job.wanted ==> f in job.torrent.files)
    && !job.flags.removed
  }

  lemma FreshIsValid(torrent: Torrent, top: string, needs: seq<Identity>)
    ensures ValidJob(Fresh(torrent, top, needs))
  {
    var wanted := Wanted(torrent.files, needs);
    ClearBitsKeys(wanted);
    forall f | f in wanted ensures f in torrent.files {
      WantedMember(torrent.files, needs, f);
    }
  }

  lemma AddJobKeeps(reg: Registry, job: JobRec, path: string)
    requires Valid(reg) && ValidJob(job) && job.torrent.id !in reg.torrentIds
    ensures Valid(AddJob(reg, job, path))
  {
    hide ValidJob;
    assert reg.jobIndex !in reg.jobs && reg.jobIndex !in reg.removedJobs;
  }

  lemma AlterKeeps(job: JobRec, op: Op)
    requires ValidJob(job)
    ensures ValidJob(Alter(job, op)) && Alter(job, op).torrent == job.torrent
  {
  }

  lemma ApplyKeeps(reg: Registry, op: Op)
    requires Valid(reg)
    ensures Valid(Apply(reg, op))
  {
    hide ValidJob, Alter, Seeded, Fresh, AddJob;
    match op
    case AddDownload(path, torrent, needs, top) =>
      FreshIsValid(torrent, top, needs);
      TorrentOfFresh(torrent, top, needs);
      if torrent.id !in reg.torrentIds {
        AddJobKeeps(reg, Fresh(torrent, top, needs), path);
      }
    case AddUpload(path, torrent, top) =>
      TorrentOfFresh(torrent, top, Identities(torrent.files));
      FreshIsValid(torrent, top, Identities(torrent.files));
      SeededIsValid(Fresh(torrent, top, Identities(torrent.files)));
      if torrent.id !in reg.torrentIds {
        AddJobKeeps(reg, Seeded(Fresh(torrent, top, Identities(torrent.files))), path);
      }
    case Remove(handle) =>
      RemoveKeeps(reg, handle);
    case _ =>
      if op.handle in reg.jobs {
        AlterKeeps(reg.jobs[op.handle], op);
        ReplaceKeeps(reg, op.handle, Alter(reg.jobs[op.handle], op));
      }
  }

  lemma SeededIsValid(job: JobRec)
    requires ValidJob(job)
    ensures ValidJob(Seeded(job)) && Seeded(job).torrent == job.torrent
  {
  }

  lemma TorrentOfFresh(torrent: Torrent, top: string, needs: seq<Identity>)
    ensures Fresh(torrent, top, needs).torrent == torrent
  {
  }

  lemma RemoveKeeps(reg: Registry, handle: nat)
    requires Valid(reg)
    ensures Valid(Apply(reg, Remove(handle)))
  {
    hide ValidJob;
  }

  lemma ReplaceKeeps(reg: Registry, handle: nat, job: JobRec)
    requires Valid(reg) && handle in reg.jobs && ValidJob(job) && job.torrent == reg.jobs[handle].torrent
    ensures Valid(reg.(jobs := reg.jobs[handle := job]))
  {
    hide ValidJob;
  }

  /** Live jobs have distinct torrents, handles are never reused and every handle has a path, on every run. */
  lemma {:induction false} RunsKeepValid(reg: Registry, ops: seq<Op>)
    requires Valid(reg)
    ensures Valid(Run(reg, ops)) && Run(reg, ops).jobIndex >= reg.jobIndex
  {
    if ops != [] {
      var n := |ops| - 1;
      RunsKeepValid(reg, ops[..n]);
      ApplyKeeps(Run(reg, ops[..n]), ops[n]);
    }
  }

  // ----- saving -----

  /** The live handles below a bound, in order. */
  function Live(jobs: map<nat, JobRec>, bound: nat): (handles: seq<nat>)
    ensures forall i :: 0 <= i < |handles| ==> handles[i] < bound && handles[i] in jobs
    ensures forall i, j :: 0 <= i < j < |handles| ==> handles[i] < handles[j]
    ensures forall h: nat :: h < bound && h in jobs ==> h in handles
  {
    if bound == 0 then [] else Live(jobs, bound - 1) + if bound - 1 in jobs then [bound - 1] else []
  }

  function RecordOf(f: File, bits: seq<bool>): FileRec {
    FileRec(f.fileid, IdentityOf(f), |bits|, Bitmaps.Pack(bits))
  }

  /** The records of one file id: one for each entry of the torrent with this id. */
  function RecordsOf(files: seq<File>, id: FileId, bits: seq<bool>): seq<FileRec> {
    if files == [] then []
    else
      var n := |files| - 1;
      RecordsOf(files[..n], id, bits) + if files[n].fileid == id then [RecordOf(files[n], bits)] else []
  }

  /** The records of a job, its file ids taken in some order. */
  function Records(files: seq<File>, bitmaps: map<FileId, seq<bool>>, order: seq<FileId>): seq<FileRec>
    requires forall id :: id in order ==> id in bitmaps
  {
    if order == [] then []
    else
      var n := |order| - 1;
      Records(files, bitmaps, order[..n]) + RecordsOf(files, order[n], bitmaps[order[n]])
  }

  ghost predicate OrderOf(files: seq<File>, order: seq<FileId>) {
    && (forall id :: id in order <==> id in Ids(files))
    && (forall i, j :: 0 <= i < j < |order| ==> order[i] != order[j])
  }

  /** Every file of the torrent has a bitmap. */
  ghost predicate Saveable(job: JobRec) {
    forall f :: f in job.torrent.files ==> f.fileid in job.bitmaps
  }

  ghost predicate SavedJob(job: JobRec, path: string, info: JobHistoryInfo)
  {
    && info.torrentPath == path && info.localTopPath == job.topPath
    && info.uploadTotal == job.uploadTotal && info.downloadTotal == job.downloadTotal
    && Saveable(job)
    && exists order :: OrderOf(job.torrent.files, order) && (forall id :: id in order ==> id in job.bitmaps)
                       && info.files == Records(job.torrent.files, job.bitmaps, order)
  }

  /** One record for each live job, in handle order. */
  ghost predicate SavedAs(reg: Registry, history: seq<JobHistoryInfo>) {
    var live := Live(reg.jobs, reg.jobIndex);
    && |history| == |live|
    && forall i :: 0 <= i < |live| ==> SavedAt(reg, live[i], history[i])
  }

  ghost predicate SavedAt(reg: Registry, handle: nat, info: JobHistoryInfo) {
    handle in reg.jobs && handle in reg.paths && SavedJob(reg.jobs[handle], reg.paths[handle], info)
  }

  /** For each entry of the torrent there is a record with its id, its path and name, and the bitmap of its file. */
  ghost predicate EachSaved(job: JobRec, records: seq<FileRec>) {
    && (forall f :: f in job.torrent.files ==> exists r :: r in records && RecordFor(job, f, r))
    && (forall r :: r in records ==> exists f :: f in job.torrent.files && RecordFor(job, f, r))
  }

  ghost predicate RecordFor(job: JobRec, f: File, r: FileRec) {
    && f.fileid in job.bitmaps && r.fileid == f.fileid
    && r.identity.relativePath == f.relativePath && r.identity.filename == f.filename
    && r.bitCount == |job.bitmaps[f.fileid]| && Bitmaps.Decode(r.blocks, r.bitCount) == job.bitmaps[f.fileid]
  }

  lemma {:induction false} RecordsOfMember(files: seq<File>, id: FileId, bits: seq<bool>, r: FileRec)
    ensures r in RecordsOf(files, id, bits) <==> exists f :: f in files && f.fileid == id && r == RecordOf(f, bits)
  {
    if files != [] {
      var n := |files| - 1;
      RecordsOfMember(files[..n], id, bits, r);
      assert files == files[..n] + [files[n]];
      assert files[n] in files;
    }
  }

  lemma {:induction false} RecordsMember(files: seq<File>, bitmaps: map<FileId, seq<bool>>, order: seq<FileId>,
                                         r: FileRec)
    requires forall id :: id in order ==> id in bitmaps
    ensures r in Records(files, bitmaps, order) <==>
            exists f :: f in files && f.fileid in order && r == RecordOf(f, bitmaps[f.fileid])
  {
    hide RecordsOf, RecordOf;
    if order != [] {
      var n := |order| - 1;
      RecordsMember(files, bitmaps, order[..n], r);
      RecordsOfMember(files, order[n], bitmaps[order[n]], r);
      assert order == order[..n] + [order[n]];
      assert order[n] in order;
    }
  }

  lemma SavedEach(job: JobRec, path: string, info: JobHistoryInfo)
    requires SavedJob(job, path, info)
    ensures EachSaved(job, info.files)
  {
    hide Bitmaps.Pack, Bitmaps.Decode, Records;
    var files := job.torrent.files;
    var order :| OrderOf(files, order) && (forall id :: id in order ==> id in job.bitmaps)
                 && info.files == Records(files, job.bitmaps, order);
    forall f | f in files ensures exists r :: r in info.files && RecordFor(job, f, r) {
      var i :| 0 <= i < |files| && files[i] == f;
      assert Ids(files)[i] == f.fileid;
      var r := RecordOf(f, job.bitmaps[f.fileid]);
      RecordsMember(files, job.bitmaps, order, r);
      Bitmaps.RoundTrip(job.bitmaps[f.fileid]);
      assert r in info.files && RecordFor(job, f, r);
    }
    forall r | r in info.files ensures exists f :: f in files && RecordFor(job, f, r) {
      RecordsMember(files, job.bitmaps, order, r);
      var f :| f in files && f.fileid in order && r == RecordOf(f, job.bitmaps[f.fileid]);
      Bitmaps.RoundTrip(job.bitmaps[f.fileid]);
      assert RecordFor(job, f, r);
    }
  }

  /** How many entries have their id in the list. */
  function Entries(files: seq<File>, order: seq<FileId>): nat {
    if files == [] then 0
    else
      var n := |files| - 1;
      Entries(files[..n], order) + if files[n].fileid in order then 1 else 0
  }

  lemma {:induction false} EntriesNext(files: seq<File>, order: seq<FileId>, id: FileId, bits: seq<bool>)
    requires id !in order
    ensures Entries(files, order + [id]) == Entries(files, order) + |RecordsOf(files, id, bits)|
  {
    if files != [] {
      EntriesNext(files[..|files| - 1], order, id, bits);
    }
  }

  lemma {:induction false} EntriesOfAll(files: seq<File>, order: seq<FileId>)
    requires forall i :: 0 <= i < |files| ==> files[i].fileid in order
    ensures Entries(files, order) == |files|
  {
    if files != [] {
      EntriesOfAll(files[..|files| - 1], order);
    }
  }

  lemma {:induction false} EntriesOfNone(files: seq<File>)
    ensures Entries(files, []) == 0
  {
    if files != [] {
      EntriesOfNone(files[..|files| - 1]);
    }
  }

  lemma {:induction false} RecordsLength(files: seq<File>, bitmaps: map<FileId, seq<bool>>, order: seq<FileId>)
    requires forall id :: id in order ==> id in bitmaps
    requires forall i, j :: 0 <= i < j < |order| ==> order[i] != order[j]
    ensures |Records(files, bitmaps, order)| == Entries(files, order)
  {
    hide RecordsOf, Entries;
    if order == [] {
      EntriesOfNone(files);
    } else {
      var n := |order| - 1;
      RecordsLength(files, bitmaps, order[..n]);
      EntriesNext(files, order[..n], order[n], bitmaps[order[n]]);
      assert order == order[..n] + [order[n]];
    }
  }

  /** One record for each entry. */
  lemma RecordsCount(files: seq<File>, bitmaps: map<FileId, seq<bool>>, order: seq<FileId>)
    requires OrderOf(files, order) && forall id :: id in order ==> id in bitmaps
    ensures |Records(files, bitmaps, order)| == |files|
  {
    hide Records, Entries;
    RecordsLength(files, bitmaps, order);
    forall i | 0 <= i < |files| ensures files[i].fileid in order {
      assert Ids(files)[i] == files[i].fileid;
    }
    EntriesOfAll(files, order);
  }

  // ----- reloading -----

  function Needs(records: seq<FileRec>): seq<Identity> {
    seq(|records|, i requires 0 <= i < |records| => records[i].identity)
  }

  /** The bitmaps after the records, later ones overwriting earlier ones. */
  function Assigned(bitmaps: map<FileId, seq<bool>>, records: seq<FileRec>): map<FileId, seq<bool>> {
    if records == [] then bitmaps
    else
      var n := |records| - 1;
      Assigned(bitmaps, records[..n])[records[n].fileid := Bitmaps.Decode(records[n].blocks, records[n].bitCount)]
  }

  /** The percentages after the records: an integer division, so 1 for a full bitmap and 0 for any other. */
  function Scored(percentages: map<FileId, int>, records: seq<FileRec>): map<FileId, int>
    requires forall r :: r in records ==> r.bitCount > 0
  {
    if records == [] then percentages
    else
      var n := |records| - 1;
      var r := records[n];
      assert r in records;
      Scored(percentages, records[..n])[r.fileid := Bitmaps.Count(Bitmaps.Decode(r.blocks, r.bitCount)) / r.bitCount]
  }

  predicate LastRecord(records: seq<FileRec>, k: nat) {
    k < |records| && forall j :: k < j < |records| ==> records[j].fileid != records[k].fileid
  }

  predicate RecordDecides(r: FileRec, bits: map<FileId, seq<bool>>, percents: map<FileId, int>) {
    && r.fileid in bits && bits[r.fileid] == Bitmaps.Decode(r.blocks, r.bitCount)
    && r.bitCount > 0 && r.fileid in percents && percents[r.fileid] == Bitmaps.Count(bits[r.fileid]) / r.bitCount
  }

  predicate Keeps<V(==)>(before: map<FileId, V>, after: map<FileId, V>, id: FileId) {
    (id in after <==> id in before) && (id in after ==> after[id] == before[id])
  }

  /** The last record of an id gives its bitmap and percentage; an id without a record keeps what it had. */
  ghost predicate LastDecides(bitmaps: map<FileId, seq<bool>>, percentages: map<FileId, int>, records: seq<FileRec>,
                              bits: map<FileId, seq<bool>>, percents: map<FileId, int>) {
    && (forall k: nat :: LastRecord(records, k) ==> k < |records| && RecordDecides(records[k], bits, percents))
    && (forall id :: (forall r :: r in records ==> r.fileid != id) ==>
                       Keeps(bitmaps, bits, id) && Keeps(percentages, percents, id))
  }

  lemma {:induction false} LastGives(bitmaps: map<FileId, seq<bool>>, percentages: map<FileId, int>,
                                     records: seq<FileRec>, k: nat)
    requires (forall r :: r in records ==> r.bitCount > 0) && LastRecord(records, k)
    ensures RecordDecides(records[k], Assigned(bitmaps, records), Scored(percentages, records))
  {
    hide Bitmaps.Decode, Bitmaps.Count;
    var n := |records| - 1;
    assert records[n] in records;
    if k < n {
      assert LastRecord(records[..n], k);
      LastGives(bitmaps, percentages, records[..n], k);
    }
  }

  lemma {:induction false} UnrecordedStays(bitmaps: map<FileId, seq<bool>>, percentages: map<FileId, int>,
                                           records: seq<FileRec>, id: FileId)
    requires forall r :: r in records ==> r.bitCount > 0 && r.fileid != id
    ensures Keeps(bitmaps, Assigned(bitmaps, records), id) && Keeps(percentages, Scored(percentages, records), id)
  {
    hide Bitmaps.Decode, Bitmaps.Count;
    if records != [] {
      var n := |records| - 1;
      assert records[n] in records;
      UnrecordedStays(bitmaps, percentages, records[..n], id);
    }
  }

  lemma LastRecordDecides(bitmaps: map<FileId, seq<bool>>, percentages: map<FileId, int>, records: seq<FileRec>)
    requires forall r :: r in records ==> r.bitCount > 0
    ensures LastDecides(bitmaps, percentages, records, Assigned(bitmaps, records), Scored(percentages, records))
  {
    hide Assigned, Scored, Keeps, RecordDecides;
    forall k: nat | LastRecord(records, k)
      ensures RecordDecides(records[k], Assigned(bitmaps, records), Scored(percentages, records))
    {
      LastGives(bitmaps, percentages, records, k);
    }
    forall id | forall r :: r in records ==> r.fileid != id
      ensures Keeps(bitmaps, Assigned(bitmaps, records), id) && Keeps(percentages, Scored(percentages, records), id)
    {
      UnrecordedStays(bitmaps, percentages, records, id);
    }
  }

  function Restored(torrent: Torrent, info: JobHistoryInfo): JobRec
    requires forall r :: r in info.files ==> r.bitCount > 0
  {
    var job := Fresh(torrent, info.localTopPath, Needs(info.files));
    job.(bitmaps := Assigned(job.bitmaps, info.files), percentages := Scored(job.percentages, info.files),
         uploadTotal := info.uploadTotal, downloadTotal := info.downloadTotal, flags := Flags(false, false, true))
  }

  /** A job as its history tells: the entries named there, its totals, paused, and the last record of each file. */
  ghost predicate RestoredJob(job: JobRec, torrent: Torrent, info: JobHistoryInfo) {
    && job.torrent == torrent && job.topPath == info.localTopPath
    && Picks.Kept(torrent.files, NeededIn(Needs(info.files)), Itself(), job.wanted)
    && job.uploadTotal == info.uploadTotal && job.downloadTotal == info.downloadTotal
    && !job.flags.removed && !job.flags.stopped && job.flags.paused
    && forall k: nat :: LastRecord(info.files, k) ==>
                          k < |info.files| && RecordDecides(info.files[k], job.bitmaps, job.percentages)
  }

  lemma RestoredIs(torrent: Torrent, info: JobHistoryInfo)
    requires forall r :: r in info.files ==> r.bitCount > 0
    ensures RestoredJob(Restored(torrent, info), torrent, info)
  {
    hide Picks.Kept, Wanted, ClearBits, Assigned, Scored, RecordDecides, LastRecord, Needs;
    var job := Fresh(torrent, info.localTopPath, Needs(info.files));
    WantedAre(torrent.files, Needs(info.files));
    LastRecordDecides(job.bitmaps, job.percentages, info.files);
  }

  /**
   * Reading back a history. A record whose torrent cannot be parsed is skipped; None stands for the assertion
   * that the torrent is new, and for the division by the size of an empty bitmap.
   */
  function Reload(reg: Registry, history: seq<JobHistoryInfo>, parse: string -> Option<Torrent>): Option<Registry>
    decreases |history|
  {
    if history == [] then Some(reg)
    else
      match parse(history[0].torrentPath)
      case None => Reload(reg, history[1..], parse)
      case Some(torrent) =>
        if torrent.id in reg.torrentIds || exists r :: r in history[0].files && r.bitCount == 0 then None
        else Reload(AddJob(reg, Restored(torrent, history[0]), history[0].torrentPath), history[1..], parse)
  }

  /** How a saved job comes back: all its torrent's files needed, paused, and with a coarse percentage. */
  function Reopened(job: JobRec): JobRec {
    JobRec(job.torrent, job.topPath, job.torrent.files, job.bitmaps,
           map id | id in job.bitmaps :: Coarse(job.bitmaps[id]), job.uploadTotal, job.downloadTotal,
           Flags(false, false, true))
  }

  function Coarse(bits: seq<bool>): int {
    if forall i :: 0 <= i < |bits| ==> bits[i] then 1 else 0
  }
}
