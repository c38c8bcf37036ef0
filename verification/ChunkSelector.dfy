// The chunk selector object (client/src/chunk_selector.cc) over the job's shared maps.
module ChunkSelectors {
  import opened Prelude
  import opened ChunkQueue

  /** The part of the job's data (client/include/job_info.h) that the selector reads and writes. */
  class JobInfo {
    const fileids: seq<FileId>
    const chunkCount: map<FileId, nat>
    var bitmapMap: map<FileId, seq<bool>>
    var ownerInfoMap: Owners

    constructor (fileids: seq<FileId>, chunkCount: map<FileId, nat>, bitmaps: map<FileId, seq<bool>>)
      ensures this.fileids == fileids && this.chunkCount == chunkCount
      ensures bitmapMap == bitmaps && ownerInfoMap == map[]
    {
      this.fileids := fileids;
      this.chunkCount := chunkCount;
      bitmapMap := bitmaps;
      ownerInfoMap := map[];
    }

    /** Every listed file is in the torrent, with a bitmap of one bit per chunk. */
    ghost predicate Valid()
      reads this
    {
      forall f :: f in fileids ==> f in chunkCount && f in bitmapMap && |bitmapMap[f]| == chunkCount[f]
    }

    /** A torrent may hold the same file several times; it is downloaded once. */
    method UniqueFileidList() returns (unique: seq<FileId>)
      ensures forall f :: f in unique <==> f in fileids
      ensures forall i, j :: 0 <= i < j < |unique| ==> unique[i] != unique[j]
    {
      unique := [];
      for k := 0 to |fileids|
        invariant forall f :: f in unique <==> f in fileids[..k]
        invariant forall i, j :: 0 <= i < j < |unique| ==> unique[i] != unique[j]
      {
        if fileids[k] !in unique {
          unique := unique + [fileids[k]];
        }
      }
    }
  }

  function Needed(fileids: seq<FileId>): set<FileId> {
    set f | f in fileids
  }

  lemma EmptyPartial(files: set<FileId>, bits: map<FileId, seq<bool>>, owners: Owners)
    ensures Partial([], files, bits, owners, {}, "", 0)
  {
  }

  lemma StartFile(q: seq<ChunkInfo>, files: set<FileId>, bits: map<FileId, seq<bool>>, owners: Owners,
                  done: set<FileId>, file: FileId)
    requires Partial(q, files, bits, owners, done, "", 0)
    ensures Partial(q, files, bits, owners, done, file, 0)
  {
  }

  class ChunkSelector {
    const jobInfo: JobInfo
    var chunkQueue: seq<ChunkInfo>

    constructor (jobInfo: JobInfo)
      ensures this.jobInfo == jobInfo && chunkQueue == []
    {
      this.jobInfo := jobInfo;
      chunkQueue := [];
    }

    /** What the initial loop has queued so far. */
    ghost predicate Queued(done: set<FileId>, file: FileId, bound: nat)
      reads this, jobInfo
    {
      Partial(chunkQueue, Needed(jobInfo.fileids), jobInfo.bitmapMap, jobInfo.ownerInfoMap, done, file, bound)
    }

    method InitQueue()
      requires jobInfo.Valid()
      requires forall f, n :: f in jobInfo.fileids && 0 <= n < jobInfo.chunkCount[f] && !jobInfo.bitmapMap[f][n] ==>
                                Countable(jobInfo.ownerInfoMap, ChunkId(f, n))
      modifies this`chunkQueue
      ensures Initial(chunkQueue, Needed(jobInfo.fileids), jobInfo.bitmapMap, jobInfo.ownerInfoMap)
      ensures AllTell(chunkQueue, jobInfo.ownerInfoMap)
    {
      hide Partial, Initial, Countable, AllTell;
      chunkQueue := [];
      var unique := jobInfo.UniqueFileidList();
      assert Queued({}, "", 0) by {
        EmptyPartial(Needed(jobInfo.fileids), jobInfo.bitmapMap, jobInfo.ownerInfoMap);
      }
      assert Needed(unique[..0]) == {};
      for k := 0 to |unique|
        invariant Queued(Needed(unique[..k]), "", 0)
      {
        var file := unique[k];
        ghost var done := Needed(unique[..k]);
        assert file in unique;
        QueueFile(file, done);
        assert Needed(unique[..k + 1]) == done + {file};
      }
      assert Needed(unique[..|unique|]) == Needed(jobInfo.fileids);
      PartialAllDone(chunkQueue, Needed(jobInfo.fileids), jobInfo.bitmapMap, jobInfo.ownerInfoMap,
                     Needed(unique[..|unique|]), "");
      InitialTells(chunkQueue, Needed(jobInfo.fileids), jobInfo.bitmapMap, jobInfo.ownerInfoMap);
    }

    /** The inner loop: the missing chunks of one file. */
    method QueueFile(file: FileId, ghost done: set<FileId>)
      requires jobInfo.Valid() && file in jobInfo.fileids && file !in done
      requires Queued(done, "", 0)
      requires forall n :: 0 <= n < jobInfo.chunkCount[file] && !jobInfo.bitmapMap[file][n] ==>
                             Countable(jobInfo.ownerInfoMap, ChunkId(file, n))
      modifies this`chunkQueue
      ensures Queued(done + {file}, "", 0)
      ensures AllTell(chunkQueue, jobInfo.ownerInfoMap)
    {
      hide Partial, Countable, AllTell;
      var count := jobInfo.chunkCount[file];
      StartFile(chunkQueue, Needed(jobInfo.fileids), jobInfo.bitmapMap, jobInfo.ownerInfoMap, done, file);
      for num := 0 to count
        invariant Queued(done, file, num)
      {
        if !jobInfo.bitmapMap[file][num] {
          var info := GetPriority(Free, ChunkId(file, num));
          PartialPush(chunkQueue, Needed(jobInfo.fileids), jobInfo.bitmapMap, jobInfo.ownerInfoMap, done, file, num);
          chunkQueue := chunkQueue + [info];
        } else {
          PartialSkip(chunkQueue, Needed(jobInfo.fileids), jobInfo.bitmapMap, jobInfo.ownerInfoMap, done, file, num);
        }
      }
      PartialFileDone(chunkQueue, Needed(jobInfo.fileids), jobInfo.bitmapMap, jobInfo.ownerInfoMap, done, file,
                      count, "");
      PartialTells(chunkQueue, Needed(jobInfo.fileids), jobInfo.bitmapMap, jobInfo.ownerInfoMap, done + {file}, "", 0);
    }

    /** Lists the owners whose bitmap has the chunk, in list order, and ranks it by their number. */
    method GetPriority(status: Status, id: ChunkId) returns (info: ChunkInfo)
      requires Countable(jobInfo.ownerInfoMap, id)
      ensures info == Make(jobInfo.ownerInfoMap, status, id)
      ensures Tells(info, jobInfo.ownerInfoMap[id.file], status, id)
      ensures var list := jobInfo.ownerInfoMap[id.file];
              && |info.clients| == (|set i | 0 <= i < |list| && list[i].bitmap[id.num]|)
              && forall c :: c in info.clients <==>
                             exists i :: 0 <= i < |list| && list[i].bitmap[id.num] && list[i].client == c
    {
      hide Tells;
      var infoList := jobInfo.ownerInfoMap[id.file];
      var clients := [];
      for i := 0 to |infoList|
        invariant Testable(infoList[..i], id.num)
        invariant clients == Holders(infoList[..i], id.num)
      {
        assert infoList[..i + 1][..i] == infoList[..i];
        if infoList[i].bitmap[id.num] {
          clients := clients + [infoList[i].client];
        }
      }
      assert infoList[..|infoList|] == infoList;
      var priority := 0;
      if |clients| == 0 {
        priority := UNAVAILABLE;
      } else if |clients| < RARE_COUNT {
        priority := HIGHEST - |clients|;
      } else {
        priority := NORMAL;
      }
      info := ChunkInfo(status, id, priority + Baseline(status), clients);
      MakeTells(jobInfo.ownerInfoMap, status, id);
      TellsCount(info, infoList, status, id);
      TellsNames(info, infoList, status, id);
    }

    /** Takes a chunk of highest priority, or nothing from an empty queue. */
    method GetChunk() returns (p: Option<ChunkInfo>)
      modifies this`chunkQueue
      ensures old(chunkQueue) == [] ==> p == None && chunkQueue == []
      ensures old(chunkQueue) != [] ==>
                p.Some? && exists i: nat :: IsTop(old(chunkQueue), i) && p.value == old(chunkQueue)[i]
                                       && chunkQueue == Without(old(chunkQueue), i)
    {
      if chunkQueue == [] {
        return None;
      }
      var top := 0;
      for i := 1 to |chunkQueue|
        invariant 0 <= top < |chunkQueue|
        invariant forall j :: 0 <= j < i ==> chunkQueue[j].priority <= chunkQueue[top].priority
      {
        if chunkQueue[top].priority < chunkQueue[i].priority {
          top := i;
        }
      }
      p := Some(chunkQueue[top]);
      assert IsTop(chunkQueue, top);
      chunkQueue := Without(chunkQueue, top);
    }

    method ReportSuccessChunk(id: ChunkId)
      requires id.file in jobInfo.bitmapMap && id.num < |jobInfo.bitmapMap[id.file]|
      modifies jobInfo`bitmapMap
      ensures jobInfo.bitmapMap == old(jobInfo.bitmapMap)[id.file := old(jobInfo.bitmapMap)[id.file][id.num := true]]
    {
      jobInfo.bitmapMap := jobInfo.bitmapMap[id.file := jobInfo.bitmapMap[id.file][id.num := true]];
    }

    method ReportFailedChunk(id: ChunkId)
      requires Countable(jobInfo.ownerInfoMap, id)
      modifies this`chunkQueue
      ensures chunkQueue == old(chunkQueue) + [Make(jobInfo.ownerInfoMap, Failed, id)]
      ensures |chunkQueue| == |old(chunkQueue)| + 1 && chunkQueue[..|old(chunkQueue)|] == old(chunkQueue)
      ensures Tells(chunkQueue[|old(chunkQueue)|], jobInfo.ownerInfoMap[id.file], Failed, id)
    {
      hide Tells, Make;
      var info := GetPriority(Failed, id);
      chunkQueue := chunkQueue + [info];
    }

    method ReportNoOwnerChunk(id: ChunkId)
      requires Countable(jobInfo.ownerInfoMap, id)
      modifies this`chunkQueue
      ensures chunkQueue == old(chunkQueue) + [Make(jobInfo.ownerInfoMap, NoOwner, id)]
      ensures |chunkQueue| == |old(chunkQueue)| + 1 && chunkQueue[..|old(chunkQueue)|] == old(chunkQueue)
      ensures Tells(chunkQueue[|old(chunkQueue)|], jobInfo.ownerInfoMap[id.file], NoOwner, id)
    {
      hide Tells, Make;
      var info := GetPriority(NoOwner, id);
      chunkQueue := chunkQueue + [info];
    }
  }
}
