// From publishing to a finished download: a job whose layout was made by MakeTorrent and that ends
// complete has the published bytes on disk. When the chunk size divides the file size, the last chunk
// is recorded without bytes, and such a job can complete only through a checksum collision.
module JobOutcome {
  import opened Prelude
  import opened ChunkQueue
  import opened JobMachine
  import opened JobSafety
  import opened JobTheorems
  import Layout

  /** File `f` of the job was published from `original` with chunks of `c` bytes; an empty file cannot be. */
  ghost predicate Published(cfg: Config, f: FileId, original: seq<Byte>, c: nat) {
    c > 0 && original != [] && f in cfg.files && cfg.files[f] == Layout.MakeChunks(original, c, cfg.hash)
  }

  /** Two different byte strings with the same checksum. */
  predicate Collides(hash: Layout.Hash, x: seq<Byte>, y: seq<Byte>) {
    x != y && hash(x) == hash(y)
  }

  /** What stands in the published file at the place of chunk `k`. */
  function PublishedPiece(cfg: Config, f: FileId, original: seq<Byte>, k: nat): seq<Byte>
    requires k < |Chunks(cfg, f)|
    requires Layout.ChunkOffset(Chunks(cfg, f), k) + Chunks(cfg, f)[k].size <= |original|
  {
    var at := Layout.ChunkOffset(Chunks(cfg, f), k);
    original[at..at + Chunks(cfg, f)[k].size]
  }

  /** Every job whose files were published has a layout with separate chunk ranges. */
  lemma PublishedIsGood(cfg: Config)
    requires forall f :: f in cfg.files ==> exists original, c :: Published(cfg, f, original, c)
    ensures GoodLayout(cfg)
  {
    forall f | f in cfg.files ensures Layout.Even(cfg.files[f]) {
      var original, c :| Published(cfg, f, original, c);
      Layout.MadeLayoutIsEven(original, c, cfg.hash);
    }
  }

  lemma ChunkInOriginal(cfg: Config, f: FileId, original: seq<Byte>, c: nat, k: nat)
    requires Published(cfg, f, original, c) && k < |Chunks(cfg, f)|
    ensures Layout.ChunkOffset(Chunks(cfg, f), k) + Chunks(cfg, f)[k].size <= |original|
  {
    hide Layout.MakeChunks, Layout.ChunkOffset;
    Layout.LastChunkDescribed(original, c, cfg.hash);
    if k < |Chunks(cfg, f)| - 1 {
      Layout.ChunkDescribed(original, c, cfg.hash, k);
    }
  }

  /** The bytes on disk at the place of chunk `k` are not the published ones, but have their checksum. */
  ghost predicate CollisionAt(cfg: Config, s: State, f: FileId, original: seq<Byte>, k: nat) {
    && k < |Chunks(cfg, f)|
    && Layout.ChunkOffset(Chunks(cfg, f), k) + Chunks(cfg, f)[k].size <= |original|
    && LongEnough(cfg, s.store, ChunkId(f, k))
    && Collides(cfg.hash, BytesAt(cfg, s, f, k), PublishedPiece(cfg, f, original, k))
  }

  /** What is on disk at the place of chunk `k`. */
  function BytesAt(cfg: Config, s: State, f: FileId, k: nat): seq<Byte>
    requires k < |Chunks(cfg, f)| && LongEnough(cfg, s.store, ChunkId(f, k))
  {
    var at := Layout.ChunkOffset(Chunks(cfg, f), k);
    s.store.disk[f][at..at + Chunks(cfg, f)[k].size]
  }

  ghost predicate SomeCollision(cfg: Config, s: State, f: FileId, original: seq<Byte>) {
    exists k :: CollisionAt(cfg, s, f, original, k)
  }

  /**
   * A set bit of a chunk that fits into the file puts the published piece on disk, or else the bytes on disk collide
   * with it. This holds for every chunk of every file.
   */
  lemma PieceOnDisk(cfg: Config, s: State, f: FileId, original: seq<Byte>, c: nat, k: nat)
    requires k < |Chunks(cfg, f)| && IsSet(s.store, ChunkId(f, k)) && LongEnough(cfg, s.store, ChunkId(f, k))
    requires Published(cfg, f, original, c)
    requires GoodLayout(cfg) && Reachable(cfg, s)
    ensures Layout.ChunkOffset(Chunks(cfg, f), k) + Chunks(cfg, f)[k].size <= |original|
    ensures BytesAt(cfg, s, f, k) == PublishedPiece(cfg, f, original, k) || CollisionAt(cfg, s, f, original, k)
  {
    hide Reachable, GoodLayout, Published, Collides, Layout.ChunkOffset, PublishedPiece;
    SetBitIsVerified(cfg, s, ChunkId(f, k));
    ChunkInOriginal(cfg, f, original, c, k);
    GenuineOrCollides(cfg, f, original, c, k, BytesAt(cfg, s, f, k));
  }

  /** A task credited with chunk `k` received bytes that are not the published ones, but have their checksum. */
  ghost predicate ReceivedCollision(cfg: Config, s: State, f: FileId, original: seq<Byte>, k: nat, t: nat) {
    && k < |Chunks(cfg, f)|
    && Layout.ChunkOffset(Chunks(cfg, f), k) + Chunks(cfg, f)[k].size <= |original|
    && Brought(cfg, s, t, ChunkId(f, k))
    && Collides(cfg.hash, s.tasks[t].buf, PublishedPiece(cfg, f, original, k))
  }

  ghost predicate SomeReceivedCollision(cfg: Config, s: State, f: FileId, original: seq<Byte>) {
    exists k, t :: ReceivedCollision(cfg, s, f, original, k, t)
  }

  /**
   * Whatever the length of the file: for a chunk that was clear at the start, the published piece is on disk as far as
   * the file goes, or else the task that was credited received bytes that collide with it.
   */
  lemma PieceReceived(cfg: Config, s0: State, acts: seq<Action>, f: FileId, original: seq<Byte>, c: nat, k: nat)
    requires k < |Chunks(cfg, f)| && !IsSet(s0.store, ChunkId(f, k))
    requires IsSet(Exec(cfg, s0, acts).store, ChunkId(f, k)) && Published(cfg, f, original, c)
    requires GoodLayout(cfg) && Begins(cfg, s0)
    ensures Layout.ChunkOffset(Chunks(cfg, f), k) + Chunks(cfg, f)[k].size <= |original|
    ensures var s := Exec(cfg, s0, acts);
            || Stored(s.store, f, Layout.ChunkOffset(Chunks(cfg, f), k), PublishedPiece(cfg, f, original, k))
            || SomeReceivedCollision(cfg, s, f, original)
  {
    hide Exec, Begins, GoodLayout, Published, Genuine, Collides, Layout.ChunkOffset, Stored, PublishedPiece, Mapped;
    var s := Exec(cfg, s0, acts);
    SetBitsAreVerified(cfg, s0, acts, ChunkId(f, k));
    ChunkInOriginal(cfg, f, original, c, k);
    var t: nat :| Brought(cfg, s, t, ChunkId(f, k));
    GenuineOrCollides(cfg, f, original, c, k, s.tasks[t].buf);
    assert s.tasks[t].buf == PublishedPiece(cfg, f, original, k) || ReceivedCollision(cfg, s, f, original, k, t);
  }

  /** Bytes that pass for a published chunk are its piece, or collide with it. */
  lemma GenuineOrCollides(cfg: Config, f: FileId, original: seq<Byte>, c: nat, k: nat, data: seq<Byte>)
    requires k < |Chunks(cfg, f)| && Genuine(cfg, ChunkId(f, k), data)
    requires Layout.ChunkOffset(Chunks(cfg, f), k) + Chunks(cfg, f)[k].size <= |original|
    requires Published(cfg, f, original, c)
    ensures data == PublishedPiece(cfg, f, original, k) || Collides(cfg.hash, data, PublishedPiece(cfg, f, original, k))
  {
    hide Layout.MakeChunks, Layout.ChunkOffset;
    if Chunks(cfg, f)[k].size > 0 {
      Layout.LastChunkDescribed(original, c, cfg.hash);
      Layout.ChunkDescribed(original, c, cfg.hash, k);
    } else {
      assert data == PublishedPiece(cfg, f, original, k);
    }
  }

  /** Every chunk that has bytes is set. */
  ghost predicate AllSet(cfg: Config, s: State, f: FileId) {
    forall k: nat :: k < |Chunks(cfg, f)| && Chunks(cfg, f)[k].size > 0 ==> IsSet(s.store, ChunkId(f, k))
  }

  /** Every chunk with bytes is on disk as it was published, as far as the file goes. */
  ghost predicate AllOriginal(cfg: Config, s: State, f: FileId, original: seq<Byte>) {
    forall k: nat :: k < |Chunks(cfg, f)| && Chunks(cfg, f)[k].size > 0 ==>
                       Layout.ChunkOffset(Chunks(cfg, f), k) + Chunks(cfg, f)[k].size <= |original|
                       && Stored(s.store, f, Layout.ChunkOffset(Chunks(cfg, f), k), PublishedPiece(cfg, f, original, k))
  }

  lemma BytesOnDisk(cfg: Config, s: State, f: FileId, original: seq<Byte>, total: nat)
    requires Layout.Tiles(Chunks(cfg, f), total) && AllOriginal(cfg, s, f, original) && total <= |original|
    ensures Stored(s.store, f, 0, original[..total])
  {
    hide Layout.Tiles, Layout.ChunkOffset;
    if f in s.store.disk {
      forall i: nat | i < total && i < |s.store.disk[f]| ensures s.store.disk[f][i] == original[i] {
        var k := Layout.ByteInOneChunk(Chunks(cfg, f), total, i);
        var at := Layout.ChunkOffset(Chunks(cfg, f), k);
        assert s.store.disk[f][at + (i - at)] == PublishedPiece(cfg, f, original, k)[i - at];
      }
    }
  }

  /**
   * When every chunk with bytes is set, and the file on disk is long enough for them, it starts with the published
   * bytes: all of them, or all but the last `c` when `c` divides the size. The alternative is a collision on disk.
   */
  lemma SetChunksAreOriginal(cfg: Config, s: State, f: FileId, original: seq<Byte>, c: nat)
    requires Published(cfg, f, original, c) && AllSet(cfg, s, f)
    requires f in s.store.disk && Layout.Covered(|original|, c) <= |s.store.disk[f]|
    requires GoodLayout(cfg) && Reachable(cfg, s)
    ensures Layout.Covered(|original|, c) <= |original|
    ensures original[..Layout.Covered(|original|, c)] <= s.store.disk[f] || SomeCollision(cfg, s, f, original)
  {
    hide Reachable, GoodLayout, Layout.MakeChunks, Layout.ChunkOffset, Layout.Tiles, Layout.Covered, PublishedPiece,
      CollisionAt, BytesAt;
    var total := Layout.Covered(|original|, c);
    Layout.LayoutTiles(original, c, cfg.hash);
    if !SomeCollision(cfg, s, f, original) {
      forall k: nat | k < |Chunks(cfg, f)| && Chunks(cfg, f)[k].size > 0
        ensures Layout.ChunkOffset(Chunks(cfg, f), k) + Chunks(cfg, f)[k].size <= |original|
        ensures Stored(s.store, f, Layout.ChunkOffset(Chunks(cfg, f), k), PublishedPiece(cfg, f, original, k))
      {
        Layout.ChunkInTiles(Chunks(cfg, f), total, k);
        PieceOnDisk(cfg, s, f, original, c, k);
        BytesAreStored(cfg, s, f, original, k);
      }
      BytesOnDisk(cfg, s, f, original, total);
      assert s.store.disk[f][..total] == original[..total];
    }
  }

  lemma BytesAreStored(cfg: Config, s: State, f: FileId, original: seq<Byte>, k: nat)
    requires k < |Chunks(cfg, f)| && LongEnough(cfg, s.store, ChunkId(f, k))
    requires Layout.ChunkOffset(Chunks(cfg, f), k) + Chunks(cfg, f)[k].size <= |original|
    requires BytesAt(cfg, s, f, k) == PublishedPiece(cfg, f, original, k)
    ensures Stored(s.store, f, Layout.ChunkOffset(Chunks(cfg, f), k), PublishedPiece(cfg, f, original, k))
  {
    hide Layout.ChunkOffset;
    var at, piece := Layout.ChunkOffset(Chunks(cfg, f), k), PublishedPiece(cfg, f, original, k);
    forall i: nat | i < |piece| ensures s.store.disk[f][at + i] == piece[i] {
      assert BytesAt(cfg, s, f, k)[i] == piece[i];
    }
  }

  /** One byte string is the start of the other. */
  predicate Agree(d: seq<Byte>, e: seq<Byte>) {
    var n := Min(|d|, |e|);
    d[..n] == e[..n]
  }

  /** No chunk of the file was set at the start. */
  ghost predicate StartsClear(s0: State, f: FileId) {
    forall k: nat :: !IsSet(s0.store, ChunkId(f, k))
  }

  /**
   * Whatever the length of the file: when every chunk with bytes is set and none was at the start, one of the file on
   * disk and these bytes is the start of the other. The alternative is a collision that a task received.
   */
  lemma NewChunksAreOriginal(cfg: Config, s0: State, acts: seq<Action>, f: FileId, original: seq<Byte>, c: nat)
    requires Published(cfg, f, original, c) && StartsClear(s0, f)
    requires AllSet(cfg, Exec(cfg, s0, acts), f) && f in Exec(cfg, s0, acts).store.disk
    requires GoodLayout(cfg) && Begins(cfg, s0)
    ensures Layout.Covered(|original|, c) <= |original|
    ensures var s := Exec(cfg, s0, acts);
            || Agree(s.store.disk[f], original[..Layout.Covered(|original|, c)])
            || SomeReceivedCollision(cfg, s, f, original)
  {
    hide Exec, Begins, GoodLayout, Layout.MakeChunks, Layout.ChunkOffset, Layout.Tiles, Layout.Covered, PublishedPiece,
      SomeReceivedCollision;
    var s := Exec(cfg, s0, acts);
    var total := Layout.Covered(|original|, c);
    Layout.LayoutTiles(original, c, cfg.hash);
    if !SomeReceivedCollision(cfg, s, f, original) {
      forall k: nat | k < |Chunks(cfg, f)| && Chunks(cfg, f)[k].size > 0
        ensures Layout.ChunkOffset(Chunks(cfg, f), k) + Chunks(cfg, f)[k].size <= |original|
        ensures Stored(s.store, f, Layout.ChunkOffset(Chunks(cfg, f), k), PublishedPiece(cfg, f, original, k))
      {
        PieceReceived(cfg, s0, acts, f, original, c, k);
      }
      BytesOnDisk(cfg, s, f, original, total);
    }
  }

  lemma CompleteSets(cfg: Config, s: State, f: FileId)
    requires Complete(cfg, s)
    ensures AllSet(cfg, s, f)
  {
    forall k: nat | k < |Chunks(cfg, f)| ensures IsSet(s.store, ChunkId(f, k)) {
      assert ValidId(cfg, ChunkId(f, k));
    }
  }

  /**
   * So, if the chunk size does not divide its size, a complete job has the published file on disk: the file there
   * starts with it exactly when it is long enough, or else bytes on disk collide with the published ones.
   */
  lemma CompleteFileIsOriginal(cfg: Config, s: State, f: FileId, original: seq<Byte>, c: nat)
    requires c > 0 && |original| % c != 0
    requires f in s.store.disk && Published(cfg, f, original, c) && Complete(cfg, s)
    requires GoodLayout(cfg) && Reachable(cfg, s)
    ensures SomeCollision(cfg, s, f, original)
         || (original <= s.store.disk[f] <==> |original| <= |s.store.disk[f]|)
  {
    hide Reachable, GoodLayout, SomeCollision, Published, Complete, AllSet;
    CompleteSets(cfg, s, f);
    if |original| <= |s.store.disk[f]| {
      SetChunksAreOriginal(cfg, s, f, original, c);
      assert original[..|original|] == original;
    }
  }

  /**
   * And if the job started with clear bits, a file that is too short holds the start of the published one, or else a
   * task received bytes that collide with the published ones.
   */
  lemma NewFileIsOriginal(cfg: Config, s0: State, acts: seq<Action>, f: FileId, original: seq<Byte>, c: nat)
    requires c > 0 && |original| % c != 0
    requires Published(cfg, f, original, c) && StartsClear(s0, f)
    requires Complete(cfg, Exec(cfg, s0, acts)) && f in Exec(cfg, s0, acts).store.disk
    requires GoodLayout(cfg) && Begins(cfg, s0)
    ensures var s := Exec(cfg, s0, acts);
            Agree(s.store.disk[f], original) || SomeReceivedCollision(cfg, s, f, original)
  {
    hide Exec, Begins, GoodLayout, SomeReceivedCollision, Published, Complete, AllSet, StartsClear, Agree;
    CompleteSets(cfg, Exec(cfg, s0, acts), f);
    NewChunksAreOriginal(cfg, s0, acts, f, original, c);
    assert original[..|original|] == original;
  }

  /** The bit of a chunk recorded without bytes says that the empty string has its checksum. */
  lemma EmptyChunkVerified(cfg: Config, s: State, id: ChunkId)
    requires ValidId(cfg, id) && SizeOf(cfg, id) == 0 && IsSet(s.store, id)
    requires GoodLayout(cfg) && Reachable(cfg, s)
    ensures cfg.hash([]) == ChecksumOf(cfg, id)
  {
    hide Reachable, GoodLayout, OffsetOf, ChecksumOf, ValidId, SizeOf, Stored;
    SetBitIsVerified(cfg, s, id);
    var data :| Genuine(cfg, id, data) && Stored(s.store, id.file, OffsetOf(cfg, id), data);
    assert data == [];
  }

  /**
   * When the chunk size divides the size of a nonempty file, the bit of its last chunk is never set,
   * unless the empty string has the checksum of the last piece.
   */
  lemma DividedFileNeverCompletes(cfg: Config, s: State, f: FileId, original: seq<Byte>, c: nat)
    requires c > 0 && |original| % c == 0 && |original| >= c
    requires cfg.hash([]) != cfg.hash(original[|original| - c..])
    requires Published(cfg, f, original, c)
    requires GoodLayout(cfg) && Reachable(cfg, s)
    ensures !IsSet(s.store, ChunkId(f, |cfg.files[f]| - 1))
    ensures !Complete(cfg, s)
  {
    hide Reachable, GoodLayout, Layout.MakeChunks, Layout.ChunkOffset;
    Layout.LastChunkDescribed(original, c, cfg.hash);
    var id := ChunkId(f, |cfg.files[f]| - 1);
    assert ValidId(cfg, id);
    if IsSet(s.store, id) {
      EmptyChunkVerified(cfg, s, id);
    }
  }
}
