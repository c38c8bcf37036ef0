// The files of a job by path: the downloaded one of each file id, and its copies.
module JobFiles {
  import opened Prelude
  import opened Torrents
  import opened JobMachine
  import opened JobSafety
  import opened JobTheorems
  import opened JobOutcome

  /** Every file has a first path, and it is on disk. */
  ghost predicate HasFirstPaths(same: map<FileId, seq<Path>>, disk: map<FileId, seq<Byte>>) {
    forall f :: f in same ==> same[f] != [] && f in disk
  }

  /** Different files share no path. */
  ghost predicate ListsApart(same: map<FileId, seq<Path>>) {
    forall a, b, p :: a in same && b in same && a != b && p in same[a] ==> p !in same[b]
  }

  /** Every path of each file holds what was downloaded, and every other path what it held before. */
  ghost predicate CopiesOf(same: map<FileId, seq<Path>>, disk: map<FileId, seq<Byte>>, elsewhere: map<Path, seq<Byte>>,
                           files: map<Path, seq<Byte>>)
    requires HasFirstPaths(same, disk)
  {
    && (forall f, p :: f in same && p in same[f] ==> p in files && files[p] == disk[f])
    && (forall p :: (forall f :: f in same ==> p !in same[f]) ==>
                      (p in files <==> p in elsewhere) && (p in files ==> files[p] == elsewhere[p]))
  }

  lemma FirstsApart(same: map<FileId, seq<Path>>, disk: map<FileId, seq<Byte>>, f: FileId)
    requires HasFirstPaths(same, disk) && ListsApart(same) && f in same
    ensures forall g :: g in same && g != f ==> same[g][0] != same[f][0]
  {
    forall g | g in same && g != f ensures same[g][0] != same[f][0] {
      assert same[g][0] in same[g] && same[f][0] in same[f];
    }
  }

  /** The first paths of the files in `done` hold the downloads; every path that is no first path is as elsewhere. */
  ghost predicate ByPath(same: map<FileId, seq<Path>>, disk: map<FileId, seq<Byte>>, elsewhere: map<Path, seq<Byte>>,
                         done: set<FileId>, files: map<Path, seq<Byte>>)
    requires HasFirstPaths(same, disk) && done <= same.Keys
  {
    && (forall f :: f in done ==> same[f][0] in files && files[same[f][0]] == disk[f])
    && (forall p :: (forall f :: f in same ==> p != same[f][0]) ==>
                      (p in files <==> p in elsewhere) && (p in files ==> files[p] == elsewhere[p]))
  }

  lemma ReadyToCopy(same: map<FileId, seq<Path>>, disk: map<FileId, seq<Byte>>, elsewhere: map<Path, seq<Byte>>,
                    before: map<Path, seq<Byte>>)
    requires HasFirstPaths(same, disk) && ListsApart(same) && ByPath(same, disk, elsewhere, same.Keys, before)
    ensures Separate(same, before)
  {
  }

  lemma CopiesMade(same: map<FileId, seq<Path>>, disk: map<FileId, seq<Byte>>, elsewhere: map<Path, seq<Byte>>,
                   before: map<Path, seq<Byte>>, files: map<Path, seq<Byte>>)
    requires HasFirstPaths(same, disk) && ByPath(same, disk, elsewhere, same.Keys, before)
    requires Separate(same, before) && Copied(same, same.Keys, before, files)
    ensures CopiesOf(same, disk, elsewhere, files)
  {
    hide ByPath, Copied, Separate;
    forall f, p | f in same && p in same[f] ensures p in files && files[p] == disk[f] {
      CopyHolds(same, disk, elsewhere, before, files, f, p);
    }
    forall p | forall f :: f in same ==> p !in same[f]
      ensures (p in files <==> p in elsewhere) && (p in files ==> files[p] == elsewhere[p])
    {
      OtherPathStays(same, disk, elsewhere, before, files, p);
    }
  }

  lemma CopyHolds(same: map<FileId, seq<Path>>, disk: map<FileId, seq<Byte>>, elsewhere: map<Path, seq<Byte>>,
                  before: map<Path, seq<Byte>>, files: map<Path, seq<Byte>>, f: FileId, p: Path)
    requires HasFirstPaths(same, disk) && ByPath(same, disk, elsewhere, same.Keys, before)
    requires Separate(same, before) && Copied(same, same.Keys, before, files) && f in same && p in same[f]
    ensures p in files && files[p] == disk[f]
  {
    assert CopiedAt(same, same.Keys, before, files, p);
  }

  lemma OtherPathStays(same: map<FileId, seq<Path>>, disk: map<FileId, seq<Byte>>, elsewhere: map<Path, seq<Byte>>,
                       before: map<Path, seq<Byte>>, files: map<Path, seq<Byte>>, p: Path)
    requires HasFirstPaths(same, disk) && ByPath(same, disk, elsewhere, same.Keys, before)
    requires Separate(same, before) && Copied(same, same.Keys, before, files)
    requires forall f :: f in same ==> p !in same[f]
    ensures (p in files <==> p in elsewhere) && (p in files ==> files[p] == elsewhere[p])
  {
    assert CopiedAt(same, same.Keys, before, files, p);
    forall f | f in same ensures p != same[f][0] {
      assert same[f][0] in same[f];
    }
  }

  lemma FirstPathsStay(same: map<FileId, seq<Path>>, before: map<FileId, seq<Byte>>, after: map<FileId, seq<Byte>>)
    requires HasFirstPaths(same, before) && SameFiles(before, after)
    ensures HasFirstPaths(same, after)
  {
  }

  // ----- from publishing to every needed path -----

  /**
   * After a complete job every needed path of a published file holds what was downloaded, which starts with the
   * published bytes exactly when the downloaded file is long enough. Or bytes on disk collide with them.
   */
  lemma EveryPathIsOriginal(cfg: Config, s: State, top: string, wanted: seq<File>, g: File, original: seq<Byte>, c: nat,
                            stored: map<FileId, Path>, same: map<FileId, seq<Path>>,
                            elsewhere: map<Path, seq<Byte>>, files: map<Path, seq<Byte>>)
    requires c > 0 && |original| % c != 0
    requires HasFirstPaths(same, s.store.disk) && CopiesOf(same, s.store.disk, elsewhere, files)
    requires Stores(top, wanted, stored, same) && g in wanted && Published(cfg, g.fileid, original, c)
    requires Complete(cfg, s)
    requires GoodLayout(cfg) && Reachable(cfg, s)
    ensures PathOf(top, g) in files && g.fileid in s.store.disk
    ensures files[PathOf(top, g)] == s.store.disk[g.fileid]
    ensures SomeCollision(cfg, s, g.fileid, original)
         || (original <= files[PathOf(top, g)] <==> |original| <= |files[PathOf(top, g)]|)
  {
    hide GoodLayout, Reachable, Complete, SomeCollision, Published, PathOf, PathsOf;
    PathsMember(top, wanted, g.fileid, PathOf(top, g));
    assert StoredAt(top, wanted, g.fileid, stored, same);
    CompleteFileIsOriginal(cfg, s, g.fileid, original, c);
  }

  /**
   * And if the file started without set bits, of what the path holds and the published file one is the start of the
   * other, whatever their lengths. Or a task received bytes that collide with the published ones.
   */
  lemma EveryNewPathIsOriginal(cfg: Config, s0: State, acts: seq<Action>, top: string, wanted: seq<File>, g: File,
                               original: seq<Byte>, c: nat, stored: map<FileId, Path>, same: map<FileId, seq<Path>>,
                               elsewhere: map<Path, seq<Byte>>, files: map<Path, seq<Byte>>)
    requires c > 0 && |original| % c != 0
    requires var disk := Exec(cfg, s0, acts).store.disk;
             HasFirstPaths(same, disk) && CopiesOf(same, disk, elsewhere, files)
    requires Stores(top, wanted, stored, same) && g in wanted && Published(cfg, g.fileid, original, c)
    requires StartsClear(s0, g.fileid) && Complete(cfg, Exec(cfg, s0, acts))
    requires GoodLayout(cfg) && Begins(cfg, s0)
    ensures PathOf(top, g) in files
    ensures SomeReceivedCollision(cfg, Exec(cfg, s0, acts), g.fileid, original)
         || Agree(files[PathOf(top, g)], original)
  {
    hide GoodLayout, Begins, Exec, Complete, SomeReceivedCollision, Published, PathOf, PathsOf, Agree, StartsClear;
    PathsMember(top, wanted, g.fileid, PathOf(top, g));
    assert StoredAt(top, wanted, g.fileid, stored, same);
    NewFileIsOriginal(cfg, s0, acts, g.fileid, original, c);
  }
}
