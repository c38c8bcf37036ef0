// What a torrent lists and what a job keeps of it (client/src/job_info.cc): which files are wanted, where
// they are stored, and which copies of the same file are filled in at the end (client/src/job.cc).
module Torrents {
  import opened Prelude
  import Picks

  /** One file of a torrent; its checksum is its id, and several entries may share it. */
  datatype File = File(fileid: FileId, relativePath: string, filename: string, size: nat, chunkCount: nat)

  datatype Torrent = Torrent(id: string, files: seq<File>)

  datatype Identity = Identity(relativePath: string, filename: string)

  type Path = string

  function IdentityOf(f: File): Identity {
    Identity(f.relativePath, f.filename)
  }

  function PathOf(top: string, f: File): Path {
    top + f.relativePath + f.filename
  }

  /** The entries that the job needs, in torrent order. */
  function Wanted(files: seq<File>, needs: seq<Identity>): seq<File> {
    if files == [] then []
    else
      var n := |files| - 1;
      Wanted(files[..n], needs) + if IdentityOf(files[n]) in needs then [files[n]] else []
  }

  function Clear(n: nat): seq<bool> {
    seq(n, _ => false)
  }

  /** The bitmaps a new job starts with: clear, one bit per chunk, the last entry of an id deciding. */
  function ClearBits(wanted: seq<File>): map<FileId, seq<bool>> {
    if wanted == [] then map[]
    else
      var n := |wanted| - 1;
      ClearBits(wanted[..n])[wanted[n].fileid := Clear(wanted[n].chunkCount)]
  }

  function Ids(files: seq<File>): seq<FileId> {
    seq(|files|, i requires 0 <= i < |files| => files[i].fileid)
  }

  /** The stored paths of one file id, in order; the first is the one downloaded. */
  function PathsOf(top: string, wanted: seq<File>, id: FileId): seq<Path> {
    if wanted == [] then []
    else
      var n := |wanted| - 1;
      PathsOf(top, wanted[..n], id) + if wanted[n].fileid == id then [PathOf(top, wanted[n])] else []
  }

  lemma {:induction false} WantedMember(files: seq<File>, needs: seq<Identity>, f: File)
    ensures f in Wanted(files, needs) <==> f in files && IdentityOf(f) in needs
  {
    if files != [] {
      var n := |files| - 1;
      WantedMember(files[..n], needs, f);
      assert files == files[..n] + [files[n]];
    }
  }

  function NeededIn(needs: seq<Identity>): File -> bool {
    (f: File) => IdentityOf(f) in needs
  }

  function Itself(): File -> File {
    (f: File) => f
  }

  /** The wanted entries are those that are needed, each as often as it is listed, in torrent order. */
  lemma {:induction false} WantedAre(files: seq<File>, needs: seq<Identity>)
    ensures Picks.Kept(files, NeededIn(needs), Itself(), Wanted(files, needs))
  {
    hide Picks.Kept;
    if files == [] {
      Picks.NothingKept(NeededIn(needs), Itself());
    } else {
      var n := |files| - 1;
      WantedAre(files[..n], needs);
      Picks.KeptNext(files[..n], files[n], NeededIn(needs), Itself(), Wanted(files[..n], needs));
      assert files == files[..n] + [files[n]];
      assert Wanted(files, needs) == if NeededIn(needs)(files[n]) then Wanted(files[..n], needs) + [Itself()(files[n])]
                                     else Wanted(files[..n], needs);
    }
  }

  lemma {:induction false} WantedAll(files: seq<File>, needs: seq<Identity>)
    requires forall f :: f in files ==> IdentityOf(f) in needs
    ensures Wanted(files, needs) == files
  {
    if files != [] {
      var n := |files| - 1;
      WantedAll(files[..n], needs);
      assert IdentityOf(files[n]) in needs by {
        assert files[n] in files;
      }
      assert files == files[..n] + [files[n]];
    }
  }

  lemma {:induction false} ClearBitsKeys(wanted: seq<File>)
    ensures forall id :: id in ClearBits(wanted) <==> id in Ids(wanted)
  {
    if wanted != [] {
      var n := |wanted| - 1;
      ClearBitsKeys(wanted[..n]);
      assert Ids(wanted) == Ids(wanted[..n]) + [wanted[n].fileid];
    }
  }

  /** No later entry has the same id. */
  predicate LastAt(wanted: seq<File>, k: nat) {
    k < |wanted| && forall j :: k < j < |wanted| ==> wanted[j].fileid != wanted[k].fileid
  }

  /** A bitmap for each wanted id and no other, as long as the last entry of the id has chunks. */
  ghost predicate BitPerChunk(wanted: seq<File>, bitmaps: map<FileId, seq<bool>>) {
    && (forall id :: id in bitmaps <==> id in Ids(wanted))
    && (forall k: nat :: LastAt(wanted, k) ==> wanted[k].fileid in bitmaps
                                               && |bitmaps[wanted[k].fileid]| == wanted[k].chunkCount)
  }

  ghost predicate AllBitsAre(value: bool, bitmaps: map<FileId, seq<bool>>) {
    forall id, i :: id in bitmaps && 0 <= i < |bitmaps[id]| ==> bitmaps[id][i] == value
  }

  lemma {:induction false} ClearBitsAt(wanted: seq<File>, k: nat)
    requires LastAt(wanted, k)
    ensures wanted[k].fileid in ClearBits(wanted)
    ensures |ClearBits(wanted)[wanted[k].fileid]| == wanted[k].chunkCount
  {
    var n := |wanted| - 1;
    if k < n {
      assert LastAt(wanted[..n], k);
      ClearBitsAt(wanted[..n], k);
    }
  }

  lemma {:induction false} NoBitSet(wanted: seq<File>)
    ensures AllBitsAre(false, ClearBits(wanted))
  {
    if wanted != [] {
      NoBitSet(wanted[..|wanted| - 1]);
    }
  }

  /** A new job has no chunk yet. */
  lemma ClearBitsAre(wanted: seq<File>)
    ensures BitPerChunk(wanted, ClearBits(wanted)) && AllBitsAre(false, ClearBits(wanted))
  {
    hide ClearBits, LastAt, Ids;
    ClearBitsKeys(wanted);
    NoBitSet(wanted);
    forall k: nat | LastAt(wanted, k)
      ensures k < |wanted| && wanted[k].fileid in ClearBits(wanted)
      ensures |ClearBits(wanted)[wanted[k].fileid]| == wanted[k].chunkCount
    {
      LastIn(wanted, k);
      ClearBitsAt(wanted, k);
    }
  }

  lemma LastIn(wanted: seq<File>, k: nat)
    requires LastAt(wanted, k)
    ensures k < |wanted|
  {
  }

  lemma {:induction false} PathsMember(top: string, wanted: seq<File>, id: FileId, path: Path)
    ensures path in PathsOf(top, wanted, id) <==> exists f :: f in wanted && f.fileid == id && PathOf(top, f) == path
  {
    if wanted != [] {
      var n := |wanted| - 1;
      PathsMember(top, wanted[..n], id, path);
      assert wanted == wanted[..n] + [wanted[n]];
      assert wanted[n] in wanted;
    }
  }

  function WithId(id: FileId): File -> bool {
    (f: File) => f.fileid == id
  }

  function PathIn(top: string): File -> Path {
    (f: File) => PathOf(top, f)
  }

  /** The paths of an id are those of its wanted entries, in order. */
  lemma {:induction false} PathsAre(top: string, wanted: seq<File>, id: FileId)
    ensures Picks.Kept(wanted, WithId(id), PathIn(top), PathsOf(top, wanted, id))
  {
    hide Picks.Kept, PathOf;
    if wanted == [] {
      Picks.NothingKept(WithId(id), PathIn(top));
    } else {
      var n := |wanted| - 1;
      PathsAre(top, wanted[..n], id);
      Picks.KeptNext(wanted[..n], wanted[n], WithId(id), PathIn(top), PathsOf(top, wanted[..n], id));
      assert wanted == wanted[..n] + [wanted[n]];
      assert PathsOf(top, wanted, id) ==
             if WithId(id)(wanted[n]) then PathsOf(top, wanted[..n], id) + [PathIn(top)(wanted[n])]
             else PathsOf(top, wanted[..n], id);
    }
  }

  /** What the two maps of a job say of one file id: its paths in order, the first being the downloaded one. */
  ghost predicate StoredAt(top: string, wanted: seq<File>, id: FileId, files: map<FileId, Path>,
                           same: map<FileId, seq<Path>>)
  {
    var paths := PathsOf(top, wanted, id);
    && (id in same <==> paths != [])
    && (id in files <==> paths != [])
    && (paths != [] ==> same[id] == paths && files[id] == paths[0])
  }

  ghost predicate Stores(top: string, wanted: seq<File>, files: map<FileId, Path>, same: map<FileId, seq<Path>>) {
    forall id :: StoredAt(top, wanted, id, files, same)
  }

  lemma PathsStep(top: string, wanted: seq<File>, f: File, id: FileId)
    ensures PathsOf(top, wanted + [f], id) ==
            PathsOf(top, wanted, id) + if f.fileid == id then [PathOf(top, f)] else []
  {
    assert (wanted + [f])[..|wanted|] == wanted;
  }

  lemma StoresStep(top: string, wanted: seq<File>, f: File, files: map<FileId, Path>, same: map<FileId, seq<Path>>,
                   files': map<FileId, Path>, same': map<FileId, seq<Path>>)
    requires Stores(top, wanted, files, same)
    requires f.fileid in same' && same' == same[f.fileid := same'[f.fileid]]
    requires same'[f.fileid] == (if f.fileid in same then same[f.fileid] else []) + [PathOf(top, f)]
    requires files' == if f.fileid in same then files else files[f.fileid := PathOf(top, f)]
    ensures Stores(top, wanted + [f], files', same')
  {
    hide PathsOf, PathOf;
    forall id ensures StoredAt(top, wanted + [f], id, files', same') {
      PathsStep(top, wanted, f, id);
      assert StoredAt(top, wanted, id, files, same);
    }
  }

  // ----- creating files -----

  function Blank(size: nat): seq<Byte> {
    seq(size, _ => 0)
  }

  /** A file that is not there is created with its full size; one that is there is left as it is, however short. */
  function Opened(disk: map<Path, seq<Byte>>, path: Path, size: nat): map<Path, seq<Byte>> {
    if path in disk then disk else disk[path := Blank(size)]
  }

  /** What opening the wanted files makes of the disk. */
  ghost predicate Created(before: map<Path, seq<Byte>>, after: map<Path, seq<Byte>>, top: string, wanted: seq<File>,
                          files: map<FileId, Path>)
  {
    && (forall p :: p in before ==> p in after && after[p] == before[p])
    && (forall id :: id in files ==> files[id] in after)
    && (forall p :: p in after && p !in before ==>
          exists f :: f in wanted && PathOf(top, f) == p && |after[p]| == f.size
                      && forall i :: 0 <= i < f.size ==> after[p][i] == 0)
  }

  lemma CreatedStep(before: map<Path, seq<Byte>>, after: map<Path, seq<Byte>>, top: string, wanted: seq<File>,
                    files: map<FileId, Path>, f: File)
    requires Created(before, after, top, wanted, files)
    ensures Created(before, after, top, wanted + [f], files)
    ensures Created(before, Opened(after, PathOf(top, f), f.size), top, wanted + [f],
                    files[f.fileid := PathOf(top, f)])
  {
    hide PathOf;
    assert f in wanted + [f];
    assert forall g :: g in wanted ==> g in wanted + [f];
  }

  /** The stored files of a job, and the disk they are on. */
  class LocalFileInfo {
    const topPath: string
    var files: map<FileId, Path>
    var sameFiles: map<FileId, seq<Path>>
    var disk: map<Path, seq<Byte>>

    constructor (topPath: string, disk: map<Path, seq<Byte>>)
      ensures this.topPath == topPath && this.disk == disk && Stores(topPath, [], files, sameFiles)
      ensures Created(disk, disk, topPath, [], files)
    {
      this.topPath := topPath;
      this.disk := disk;
      files := map[];
      sameFiles := map[];
    }

    /** Adds a path; only the first path of an id is the file that is downloaded, and only it is created. */
    method AddFile(f: File, ghost wanted: seq<File>, ghost before: map<Path, seq<Byte>>)
      requires Stores(topPath, wanted, files, sameFiles) && Created(before, disk, topPath, wanted, files)
      modifies this
      ensures Stores(topPath, wanted + [f], files, sameFiles)
      ensures Created(before, disk, topPath, wanted + [f], files)
      ensures disk == if f.fileid in old(files) then old(disk) else Opened(old(disk), PathOf(topPath, f), f.size)
      ensures sameFiles == old(sameFiles)[f.fileid :=
                (if f.fileid in old(sameFiles) then old(sameFiles)[f.fileid] else []) + [PathOf(topPath, f)]]
      ensures files == if f.fileid in old(files) then old(files) else old(files)[f.fileid := PathOf(topPath, f)]
    {
      hide PathsOf, StoredAt, Created;
      ghost var files0, same0 := files, sameFiles;
      StoredPaths(topPath, wanted, files, sameFiles, f.fileid);
      CreatedStep(before, disk, topPath, wanted, files, f);
      var path := topPath + f.relativePath + f.filename;
      var list := (if f.fileid in sameFiles then sameFiles[f.fileid] else []) + [path];
      sameFiles := sameFiles[f.fileid := list];
      if |list| == 1 {
        files := files[f.fileid := path];
        disk := Opened(disk, path, f.size);
      }
      StoresStep(topPath, wanted, f, files0, same0, files, sameFiles);
    }

    method HasLocalFile(f: File) returns (found: bool)
      ensures found <==> f.fileid in files && f.fileid in sameFiles && PathOf(topPath, f) in sameFiles[f.fileid]
    {
      if f.fileid !in files {
        return false;
      }
      found := f.fileid in sameFiles && (topPath + f.relativePath + f.filename) in sameFiles[f.fileid];
    }
  }

  lemma StoredPaths(top: string, wanted: seq<File>, files: map<FileId, Path>, same: map<FileId, seq<Path>>, id: FileId)
    requires Stores(top, wanted, files, same)
    ensures id in same ==> same[id] == PathsOf(top, wanted, id) && same[id] != []
    ensures id in files <==> id in same
  {
    assert StoredAt(top, wanted, id, files, same);
  }

  /** After opening, the file of an id is long enough for `needed` bytes exactly when it is new or was so before. */
  lemma LongEnoughIff(disk: map<Path, seq<Byte>>, path: Path, size: nat, needed: nat)
    requires needed <= size
    ensures needed <= |Opened(disk, path, size)[path]| <==> path !in disk || needed <= |disk[path]|
  {
  }

  lemma {:induction false} NoPaths(top: string, wanted: seq<File>, id: FileId)
    ensures id !in Ids(wanted) ==> PathsOf(top, wanted, id) == []
    ensures id in Ids(wanted) ==> PathsOf(top, wanted, id) != []
  {
    if wanted != [] {
      var n := |wanted| - 1;
      NoPaths(top, wanted[..n], id);
      assert Ids(wanted) == Ids(wanted[..n]) + [wanted[n].fileid];
    }
  }

  lemma WantedStep(files: seq<File>, needs: seq<Identity>, pos: nat)
    requires pos < |files|
    ensures Wanted(files[..pos + 1], needs) ==
            Wanted(files[..pos], needs) + if IdentityOf(files[pos]) in needs then [files[pos]] else []
  {
    assert files[..pos + 1][..pos] == files[..pos];
  }

  lemma ClearBitsStep(wanted: seq<File>, f: File)
    ensures ClearBits(wanted + [f]) == ClearBits(wanted)[f.fileid := Clear(f.chunkCount)]
    ensures Ids(wanted + [f]) == Ids(wanted) + [f.fileid]
  {
    assert (wanted + [f])[..|wanted|] == wanted;
  }

  /** The constructor loop of a job: bitmaps, stored files and file ids of the wanted entries. */
  method NewJobFiles(torrent: Torrent, top: string, needs: seq<Identity>, disk: map<Path, seq<Byte>>)
    returns (local: LocalFileInfo, bitmaps: map<FileId, seq<bool>>, fileids: seq<FileId>)
    ensures fresh(local) && local.topPath == top
    ensures Stores(top, Wanted(torrent.files, needs), local.files, local.sameFiles)
    ensures Created(disk, local.disk, top, Wanted(torrent.files, needs), local.files)
    ensures bitmaps == ClearBits(Wanted(torrent.files, needs))
    ensures BitPerChunk(Wanted(torrent.files, needs), bitmaps)
    ensures forall id, i :: id in bitmaps && 0 <= i < |bitmaps[id]| ==> !bitmaps[id][i]
    ensures fileids == Ids(Wanted(torrent.files, needs))
    ensures Picks.Kept(torrent.files, NeededIn(needs), Itself(), Wanted(torrent.files, needs))
  {
    hide Wanted, Stores, Created, ClearBits, Clear, Ids, BitPerChunk, Picks.Kept;
    local := new LocalFileInfo(top, disk);
    bitmaps := map[];
    fileids := [];
    NothingWanted(torrent.files, needs);
    for pos := 0 to |torrent.files|
      invariant fresh(local) && local.topPath == top
      invariant Stores(top, Wanted(torrent.files[..pos], needs), local.files, local.sameFiles)
      invariant Created(disk, local.disk, top, Wanted(torrent.files[..pos], needs), local.files)
      invariant bitmaps == ClearBits(Wanted(torrent.files[..pos], needs))
      invariant fileids == Ids(Wanted(torrent.files[..pos], needs))
    {
      var f := torrent.files[pos];
      ghost var before := Wanted(torrent.files[..pos], needs);
      WantedStep(torrent.files, needs, pos);
      if IdentityOf(f) !in needs {
        assert Wanted(torrent.files[..pos + 1], needs) == before;
        continue;
      }
      ClearBitsStep(before, f);
      bitmaps := bitmaps[f.fileid := Clear(f.chunkCount)];
      local.AddFile(f, before, disk);
      fileids := fileids + [f.fileid];
    }
    assert torrent.files[..|torrent.files|] == torrent.files;
    ClearBitsAre(Wanted(torrent.files, needs));
    WantedAre(torrent.files, needs);
  }

  lemma NothingWanted(files: seq<File>, needs: seq<Identity>)
    ensures Wanted(files[..0], needs) == [] && ClearBits([]) == map[] && Ids([]) == []
  {
  }

  /** The first entry of a torrent with that id: the one a job downloads by. */
  function FirstOf(files: seq<File>, id: FileId): (f: File)
    requires id in Ids(files)
    ensures f in files && f.fileid == id
    ensures exists k :: 0 <= k < |files| && files[k] == f && forall j :: 0 <= j < k ==> files[j].fileid != id
  {
    if files[0].fileid == id then files[0]
    else
      assert Ids(files) == [files[0].fileid] + Ids(files[1..]);
      FirstOf(files[1..], id)
  }

  /**
   * The scheduler asserts that the first entry of a file id is stored. That holds exactly when some wanted
   * entry of this id has the path of the first one.
   */
  lemma FirstEntryStoredIff(torrent: Torrent, top: string, needs: seq<Identity>, id: FileId)
    requires id in Ids(torrent.files)
    ensures PathOf(top, FirstOf(torrent.files, id)) in PathsOf(top, Wanted(torrent.files, needs), id) <==>
            exists f :: f in torrent.files && IdentityOf(f) in needs && f.fileid == id
                        && PathOf(top, f) == PathOf(top, FirstOf(torrent.files, id))
  {
    var wanted := Wanted(torrent.files, needs);
    var first := FirstOf(torrent.files, id);
    PathsMember(top, wanted, id, PathOf(top, first));
    forall f ensures f in wanted <==> f in torrent.files && IdentityOf(f) in needs {
      WantedMember(torrent.files, needs, f);
    }
  }

  /** In particular it holds for every id when the whole torrent is needed. */
  lemma WholeTorrentStored(torrent: Torrent, top: string, needs: seq<Identity>, id: FileId)
    requires forall f :: f in torrent.files ==> IdentityOf(f) in needs
    requires id in Ids(torrent.files)
    ensures PathOf(top, FirstOf(torrent.files, id)) in PathsOf(top, Wanted(torrent.files, needs), id)
  {
    FirstEntryStoredIff(torrent, top, needs, id);
    assert FirstOf(torrent.files, id) in torrent.files;
  }

  /** It fails when of two copies of a file only the second is needed. */
  lemma SecondCopyAlone() returns (torrent: Torrent, needs: seq<Identity>)
    ensures exists f :: f in torrent.files && IdentityOf(f) in needs && f.fileid == "x"
    ensures "x" in Ids(torrent.files)
    ensures PathOf("", FirstOf(torrent.files, "x")) !in PathsOf("", Wanted(torrent.files, needs), "x")
  {
    var first, second := File("x", "a", "f", 5, 1), File("x", "b", "f", 5, 1);
    torrent, needs := Torrent("t", [first, second]), [Identity("b", "f")];
    assert second in torrent.files && IdentityOf(second) in needs;
    assert Ids(torrent.files)[0] == "x";
    assert FirstOf(torrent.files, "x") == first;
    assert PathOf("", first)[0] == 'a' && PathOf("", second)[0] == 'b';
    FirstEntryStoredIff(torrent, "", needs, "x");
    assert IdentityOf(first) !in needs by {
      assert first.relativePath[0] == 'a';
    }
  }

  // ----- copies of the same file -----

  /** Lists of different files share no path, and every first path is on disk. */
  ghost predicate Separate(same: map<FileId, seq<Path>>, disk: map<Path, seq<Byte>>) {
    && (forall a, b, p :: a in same && b in same && a != b && p in same[a] ==> p !in same[b])
    && (forall a :: a in same ==> same[a] != [] && same[a][0] in disk)
  }

  /** What one path holds once the files in `done` are copied: what the first path of its file held, or as before. */
  ghost predicate CopiedAt(same: map<FileId, seq<Path>>, done: set<FileId>, before: map<Path, seq<Byte>>,
                           after: map<Path, seq<Byte>>, p: Path)
  {
    && (forall a :: a in done && a in same && p in same[a] ==>
                      same[a] != [] && same[a][0] in before && p in after && after[p] == before[same[a][0]])
    && ((forall a :: a in done && a in same ==> p !in same[a]) ==>
          (p in after <==> p in before) && (p in before ==> after[p] == before[p]))
  }

  /** Every path of the files in `done` holds what the first path of its file held; no other path changed. */
  ghost predicate Copied(same: map<FileId, seq<Path>>, done: set<FileId>, before: map<Path, seq<Byte>>,
                         after: map<Path, seq<Byte>>)
  {
    forall p :: CopiedAt(same, done, before, after, p)
  }

  lemma CopiedStep(same: map<FileId, seq<Path>>, done: set<FileId>, a: FileId, before: map<Path, seq<Byte>>,
                   middle: map<Path, seq<Byte>>, after: map<Path, seq<Byte>>)
    requires Separate(same, before) && a in same && a !in done
    requires Copied(same, done, before, middle) && OneCopied(same[a], middle, after)
    ensures Copied(same, done + {a}, before, after)
  {
    hide CopiedAt;
    SourceUnchanged(same, done, a, before, middle);
    forall p ensures CopiedAt(same, done + {a}, before, after, p) {
      assert CopiedAt(same, done, before, middle, p);
      CopiedAtStep(same, done, a, before, middle, after, p);
    }
  }

  lemma CopiedAtStep(same: map<FileId, seq<Path>>, done: set<FileId>, a: FileId, before: map<Path, seq<Byte>>,
                     middle: map<Path, seq<Byte>>, after: map<Path, seq<Byte>>, p: Path)
    requires a in same && same[a] != [] && same[a][0] in before && a !in done
    requires p in same[a] ==> forall b :: b in same && b != a ==> p !in same[b]
    requires CopiedAt(same, done, before, middle, p)
    requires if p in same[a] then p in after && after[p] == before[same[a][0]]
             else (p in after <==> p in middle) && (p in middle ==> after[p] == middle[p])
    ensures CopiedAt(same, done + {a}, before, after, p)
  {
    assert a in done + {a};
    assert forall b :: b in done ==> b in done + {a};
  }

  /** The first path of a file still to be copied is as it was. */
  lemma SourceUnchanged(same: map<FileId, seq<Path>>, done: set<FileId>, a: FileId, before: map<Path, seq<Byte>>,
                        middle: map<Path, seq<Byte>>)
    requires Separate(same, before) && a in same && a !in done && Copied(same, done, before, middle)
    ensures same[a] != [] && same[a][0] in before && same[a][0] in middle && middle[same[a][0]] == before[same[a][0]]
  {
    var source := same[a][0];
    assert source in same[a];
    assert CopiedAt(same, done, before, middle, source);
  }

  /** Every path of the list holds what the first one held; no other path changed. */
  ghost predicate OneCopied(paths: seq<Path>, before: map<Path, seq<Byte>>, after: map<Path, seq<Byte>>)
  {
    && paths != [] && paths[0] in before
    && (forall p :: p in paths ==> p in after && after[p] == before[paths[0]])
    && (forall p :: p !in paths ==> (p in after <==> p in before) && (p in before ==> after[p] == before[p]))
  }

  method CopyOne(paths: seq<Path>, disk: map<Path, seq<Byte>>) returns (after: map<Path, seq<Byte>>)
    requires paths != [] && paths[0] in disk
    ensures OneCopied(paths, disk, after)
  {
    hide OneCopied;
    after := disk;
    FirstIsCopied(paths, disk);
    for pos := 1 to |paths|
      invariant OneCopied(paths[..pos], disk, after)
    {
      CopyStep(paths, pos, disk, after);
      after := after[paths[pos] := after[paths[0]]];
    }
    assert paths[..|paths|] == paths;
  }

  lemma FirstIsCopied(paths: seq<Path>, disk: map<Path, seq<Byte>>)
    requires paths != [] && paths[0] in disk
    ensures OneCopied(paths[..1], disk, disk)
  {
    assert paths[..1] == [paths[0]];
  }

  lemma CopyStep(paths: seq<Path>, pos: nat, disk: map<Path, seq<Byte>>, middle: map<Path, seq<Byte>>)
    requires 1 <= pos < |paths| && OneCopied(paths[..pos], disk, middle)
    ensures paths[0] in middle && OneCopied(paths[..pos + 1], disk, middle[paths[pos] := middle[paths[0]]])
  {
    assert paths[..pos][0] in paths[..pos];
    assert paths[..pos + 1] == paths[..pos] + [paths[pos]];
    assert paths[..pos + 1][0] == paths[0];
  }

  /** The final loop of a job: the downloaded copy of each file is copied to its other paths. */
  method CopySameFiles(same: map<FileId, seq<Path>>, disk: map<Path, seq<Byte>>) returns (after: map<Path, seq<Byte>>)
    requires Separate(same, disk)
    ensures Copied(same, same.Keys, disk, after)
  {
    hide Copied, OneCopied, Separate;
    after := disk;
    NothingCopied(same, disk);
    var todo := same.Keys;
    while todo != {}
      invariant todo <= same.Keys
      invariant Copied(same, same.Keys - todo, disk, after)
      decreases todo
    {
      var a :| a in todo;
      ghost var done := same.Keys - todo;
      ghost var start := after;
      SourceUnchanged(same, done, a, disk, after);
      after := CopyOne(same[a], after);
      CopiedStep(same, done, a, disk, start, after);
      todo := todo - {a};
      assert same.Keys - todo == done + {a};
    }
    assert same.Keys - todo == same.Keys;
  }

  lemma NothingCopied(same: map<FileId, seq<Path>>, disk: map<Path, seq<Byte>>)
    requires Separate(same, disk)
    ensures Copied(same, same.Keys - same.Keys, disk, disk)
  {
    assert same.Keys - same.Keys == {};
  }
}
