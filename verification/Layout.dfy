// How a file is cut into chunks: the checksum loop (client/src/verification.cc), the sizes that
// MakeTorrent records (client/src/client.cc) and the offsets that TorrentFileInfo computes
// (client/src/job_info.cc). The three agree exactly when the chunk size does not divide the file size.
module Layout {
  import opened Arithmetic
  import opened Prelude
  import opened Bags

  type Hash = seq<Byte> -> Digest

  datatype Chunk = Chunk(checksum: Digest, size: nat)

  // ----- TorrentFileInfo -----

  function ChunkChecksum(chunks: seq<Chunk>, pos: nat): Digest {
    if pos >= |chunks| then "" else chunks[pos].checksum
  }

  function ChunkOffset(chunks: seq<Chunk>, pos: nat): nat {
    if pos >= |chunks| then 0 else chunks[0].size * pos
  }

  function ChunkSize(chunks: seq<Chunk>, pos: nat): int {
    if pos >= |chunks| then -1 else chunks[pos].size
  }

  function Sizes(chunks: seq<Chunk>): seq<nat> {
    seq(|chunks|, i requires 0 <= i < |chunks| => chunks[i].size)
  }

  // ----- what the checksum loop hashes -----

  /** The pieces hashed: full ones while more than a chunk is left, then the rest. */
  function Segments(file: seq<Byte>, c: nat): (segments: seq<seq<Byte>>)
    requires c > 0
    ensures segments != []
  {
    if c < |file| then [file[..c]] + Segments(file[c..], c) else [file]
  }

  function Flatten(segments: seq<seq<Byte>>): seq<Byte> {
    if segments == [] then [] else segments[0] + Flatten(segments[1..])
  }

  function Digests(segments: seq<seq<Byte>>, hash: Hash): seq<Digest> {
    seq(|segments|, i requires 0 <= i < |segments| => hash(segments[i]))
  }

  /** The splitting loop of get_file_checksum_list. It works on a mapping, and a file without bytes cannot be mapped. */
  method GetFileChecksumList(file: seq<Byte>, c: nat, hash: Hash) returns (list: Option<seq<Digest>>)
    requires c > 0
    ensures list == if file == [] then None else Some(Digests(Segments(file, c), hash))
  {
    hide Segments, Digests;
    if file == [] {
      return None;
    }
    var digests := [];
    var start := 0;
    assert file[0..] == file;
    while start + c < |file|
      invariant start <= |file|
      invariant digests + Digests(Segments(file[start..], c), hash) == Digests(Segments(file, c), hash)
    {
      SplitOff(file, start, c, hash);
      digests := digests + [hash(file[start..start + c])];
      start := start + c;
    }
    LastPiece(file[start..], c, hash);
    list := Some(digests + [hash(file[start..])]);
  }

  lemma SplitOff(file: seq<Byte>, start: nat, c: nat, hash: Hash)
    requires c > 0 && start + c < |file|
    ensures Digests(Segments(file[start..], c), hash) ==
            [hash(file[start..start + c])] + Digests(Segments(file[start + c..], c), hash)
  {
    assert file[start..][c..] == file[start + c..];
    assert file[start..][..c] == file[start..start + c];
  }

  lemma LastPiece(rest: seq<Byte>, c: nat, hash: Hash)
    requires c > 0 && |rest| <= c
    ensures Digests(Segments(rest, c), hash) == [hash(rest)]
  {
  }

  /** The sizes recorded beside the checksums: the last one is the remainder. */
  method RecordChunks(checksums: seq<Digest>, fileSize: nat, c: nat) returns (chunks: seq<Chunk>)
    requires c > 0
    ensures chunks == Recorded(checksums, fileSize, c)
  {
    var lastChunkSize := fileSize % c;
    chunks := [];
    for i := 0 to |checksums|
      invariant chunks == Recorded(checksums, fileSize, c)[..i]
    {
      var thisChunkSize := if i == |checksums| - 1 then lastChunkSize else c;
      chunks := chunks + [Chunk(checksums[i], thisChunkSize)];
    }
  }

  function Recorded(checksums: seq<Digest>, fileSize: nat, c: nat): seq<Chunk>
    requires c > 0
  {
    seq(|checksums|, i requires 0 <= i < |checksums| =>
      Chunk(checksums[i], if i == |checksums| - 1 then fileSize % c else c))
  }

  /** The chunk list that MakeTorrent writes for a file. */
  function MakeChunks(file: seq<Byte>, c: nat, hash: Hash): seq<Chunk>
    requires c > 0
  {
    Recorded(Digests(Segments(file, c), hash), |file|, c)
  }

  // ----- the hashed pieces -----

  lemma {:induction false} SegmentsConcatenate(file: seq<Byte>, c: nat)
    requires c > 0
    ensures Flatten(Segments(file, c)) == file
  {
    if c < |file| {
      SegmentsConcatenate(file[c..], c);
      assert file == file[..c] + file[c..];
      assert Segments(file, c)[1..] == Segments(file[c..], c);
    }
  }

  /** How many pieces: all but the last are full, and the last is not empty unless the file is. */
  lemma {:induction false} SegmentCount(file: seq<Byte>, c: nat)
    requires c > 0
    ensures var n := |Segments(file, c)|;
            c * (n - 1) <= |file| <= c * n && (file != [] ==> c * (n - 1) < |file|)
  {
    var n := |Segments(file, c)|;
    MulNext(c, n - 1);
    if c < |file| {
      SegmentCount(file[c..], c);
      assert |Segments(file[c..], c)| == n - 1;
      MulNext(c, n - 2);
    } else {
      assert n == 1;
    }
  }

  /** Piece `i` starts at `c * i`, and is full unless it is the last. */
  lemma {:induction false} SegmentAt(file: seq<Byte>, c: nat, i: nat, at: nat)
    requires c > 0
    requires i < |Segments(file, c)| && at == c * i
    ensures at <= |file|
    ensures i == |Segments(file, c)| - 1 ==> Segments(file, c)[i] == file[at..]
    ensures i < |Segments(file, c)| - 1 ==> at + c <= |file| && Segments(file, c)[i] == file[at..at + c]
  {
    if c < |file| && i > 0 {
      MulNext(c, i - 1);
      SegmentAt(file[c..], c, i - 1, at - c);
      LaterSegment(file, c, i, at);
    }
  }

  /** The pieces after the first are the pieces of the rest. */
  lemma LaterSegment(file: seq<Byte>, c: nat, i: nat, at: nat)
    requires 0 < c < |file| && 0 < i < |Segments(file, c)|
    requires c <= at <= |file|
    ensures |Segments(file[c..], c)| == |Segments(file, c)| - 1
    ensures Segments(file, c)[i] == Segments(file[c..], c)[i - 1]
    ensures file[c..][at - c..] == file[at..]
    ensures at + c <= |file| ==> file[c..][at - c..at] == file[at..at + c]
  {
  }

  /** The remainder recorded for the last piece: its length, or nothing when it is full. */
  lemma RemainderOfLast(size: nat, c: nat, n: nat)
    requires c > 0 && n > 0
    requires c * (n - 1) < size <= c * n
    ensures size % c == if size == c * n then 0 else size - c * (n - 1)
  {
    MulNext(c, n - 1);
    if size == c * n {
      MultipleRemainder(c, n);
    } else {
      QuotientRemainder(c, n - 1, size - c * (n - 1));
    }
  }

  /** The recorded layout describes the hashed pieces: same offsets, sizes and checksums. */
  ghost predicate Describes(chunks: seq<Chunk>, file: seq<Byte>, hash: Hash) {
    forall i :: 0 <= i < |chunks| ==>
      && ChunkOffset(chunks, i) + chunks[i].size <= |file|
      && hash(file[ChunkOffset(chunks, i)..ChunkOffset(chunks, i) + chunks[i].size]) == chunks[i].checksum
  }

  /** Offsets and sizes tile the first `total` bytes without gap or overlap. */
  ghost predicate Tiles(chunks: seq<Chunk>, total: nat) {
    && chunks != []
    && (forall i :: 0 <= i < |chunks| - 1 ==> ChunkOffset(chunks, i) + chunks[i].size == ChunkOffset(chunks, i + 1))
    && ChunkOffset(chunks, |chunks| - 1) + chunks[|chunks| - 1].size == total
  }

  /** All recorded offsets and sizes in closed form. */
  lemma RecordedShape(file: seq<Byte>, c: nat, hash: Hash)
    requires c > 0
    ensures var chunks := MakeChunks(file, c, hash); var n := |Segments(file, c)|;
            && |chunks| == n
            && (forall i :: 0 <= i < n ==> chunks[i].checksum == hash(Segments(file, c)[i]))
            && (forall i :: 0 <= i < n - 1 ==> chunks[i].size == c)
            && chunks[n - 1].size == |file| % c
  {
  }

  lemma RecordedOffset(file: seq<Byte>, c: nat, hash: Hash, i: nat)
    requires c > 0 && i < |Segments(file, c)|
    ensures ChunkOffset(MakeChunks(file, c, hash), i) == c * i
  {
    RecordedShape(file, c, hash);
  }

  /** The size recorded for the last piece. */
  lemma LastSize(file: seq<Byte>, c: nat)
    requires c > 0
    ensures var n := |Segments(file, c)|;
            |file| % c == if |file| == c * n then 0 else |file| - c * (n - 1)
  {
    SegmentCount(file, c);
    if file != [] {
      RemainderOfLast(|file|, c, |Segments(file, c)|);
    }
  }

  /** The bytes the recorded sizes account for. */
  function Covered(size: nat, c: nat): nat
    requires c > 0
  {
    if size > 0 && size % c == 0 then size - c else size
  }

  /** The recorded chunks tile a prefix of the file: all of it, or all but one chunk when `c` divides it. */
  lemma LayoutTiles(file: seq<Byte>, c: nat, hash: Hash)
    requires c > 0
    ensures Covered(|file|, c) <= |file|
    ensures Tiles(MakeChunks(file, c, hash), Covered(|file|, c))
  {
    var chunks := MakeChunks(file, c, hash);
    var n := |Segments(file, c)|;
    RecordedShape(file, c, hash);
    SegmentCount(file, c);
    LastSize(file, c);
    MulNext(c, n - 1);
    RecordedOffset(file, c, hash, n - 1);
    forall i | 0 <= i < n - 1 ensures ChunkOffset(chunks, i) + chunks[i].size == ChunkOffset(chunks, i + 1) {
      RecordedOffset(file, c, hash, i);
      RecordedOffset(file, c, hash, i + 1);
      MulNext(c, i);
    }
  }

  lemma {:induction false} TilesSum(chunks: seq<Chunk>, total: nat)
    requires Tiles(chunks, total)
    ensures Sum(Sizes(chunks)) == total
  {
    PrefixSum(chunks, total, |chunks| - 1);
    assert Sizes(chunks)[..|chunks| - 1] == Sizes(chunks[..|chunks| - 1]);
  }

  lemma {:induction false} PrefixSum(chunks: seq<Chunk>, total: nat, k: nat)
    requires Tiles(chunks, total) && k < |chunks|
    ensures Sum(Sizes(chunks[..k])) == ChunkOffset(chunks, k)
  {
    if k > 0 {
      PrefixSum(chunks, total, k - 1);
      assert Sizes(chunks[..k])[..k - 1] == Sizes(chunks[..k - 1]);
    }
  }

  /** The recorded sizes add up to the file size exactly when the chunk size does not divide it. */
  lemma RecordedSizesSum(file: seq<Byte>, c: nat, hash: Hash)
    requires c > 0
    ensures Sum(Sizes(MakeChunks(file, c, hash))) == Covered(|file|, c)
    ensures Sum(Sizes(MakeChunks(file, c, hash))) == |file| <==> file == [] || |file| % c != 0
  {
    LayoutTiles(file, c, hash);
    TilesSum(MakeChunks(file, c, hash), Covered(|file|, c));
  }

  /** Every byte of a tiled range lies in exactly one chunk. */
  lemma ByteInOneChunk(chunks: seq<Chunk>, total: nat, at: nat) returns (k: nat)
    requires Tiles(chunks, total) && at < total
    ensures k < |chunks| && ChunkOffset(chunks, k) <= at < ChunkOffset(chunks, k) + chunks[k].size
    ensures forall i :: 0 <= i < |chunks| && ChunkOffset(chunks, i) <= at < ChunkOffset(chunks, i) + chunks[i].size ==>
                          i == k
  {
    k := 0;
    while at >= ChunkOffset(chunks, k) + chunks[k].size
      invariant k < |chunks| && ChunkOffset(chunks, k) <= at
      decreases |chunks| - k
    {
      k := k + 1;
    }
    forall i | 0 <= i < |chunks| && ChunkOffset(chunks, i) <= at < ChunkOffset(chunks, i) + chunks[i].size
      ensures i == k
    {
      if i < k {
        TilesInOrder(chunks, total, i, k);
      } else if k < i {
        TilesInOrder(chunks, total, k, i);
      }
    }
  }

  lemma {:induction false} TilesInOrder(chunks: seq<Chunk>, total: nat, i: nat, j: nat)
    requires Tiles(chunks, total) && i < j < |chunks|
    ensures ChunkOffset(chunks, i) + chunks[i].size <= ChunkOffset(chunks, j)
  {
    if i + 1 < j {
      TilesInOrder(chunks, total, i, j - 1);
    }
  }

  lemma ChunkInTiles(chunks: seq<Chunk>, total: nat, i: nat)
    requires Tiles(chunks, total) && i < |chunks|
    ensures ChunkOffset(chunks, i) + chunks[i].size <= total
  {
    if i < |chunks| - 1 {
      TilesInOrder(chunks, total, i, |chunks| - 1);
    }
  }

  /** Every chunk but the last is recorded as it was hashed. */
  lemma FullChunksDescribed(file: seq<Byte>, c: nat, hash: Hash, i: nat)
    requires c > 0 && i < |Segments(file, c)| - 1
    ensures var chunks := MakeChunks(file, c, hash); var at := ChunkOffset(chunks, i);
            at + chunks[i].size <= |file| && hash(file[at..at + chunks[i].size]) == chunks[i].checksum
  {
    RecordedShape(file, c, hash);
    RecordedOffset(file, c, hash, i);
    SegmentAt(file, c, i, c * i);
  }

  /** The last chunk is recorded as it was hashed, unless it is a full one. */
  lemma LastChunkDescribed(file: seq<Byte>, c: nat, hash: Hash)
    requires c > 0
    ensures var chunks := MakeChunks(file, c, hash); var n := |chunks|; var at := ChunkOffset(chunks, n - 1);
            && n == |Segments(file, c)|
            && at + chunks[n - 1].size <= |file|
            && (if file != [] && |file| % c == 0
                then |file| >= c && chunks[n - 1].size == 0 && chunks[n - 1].checksum == hash(file[|file| - c..])
                else chunks[n - 1].checksum == hash(file[at..at + chunks[n - 1].size]))
  {
    hide MakeChunks, ChunkOffset, Segments;
    var chunks := MakeChunks(file, c, hash);
    var n := |Segments(file, c)|;
    RecordedShape(file, c, hash);
    RecordedOffset(file, c, hash, n - 1);
    SegmentCount(file, c);
    LastSize(file, c);
    SegmentAt(file, c, n - 1, c * (n - 1));
    MulNext(c, n - 1);
    var at := c * (n - 1);
    assert chunks[n - 1].checksum == hash(file[at..]);
    if |file| != c * n {
      assert file[at..at + chunks[n - 1].size] == file[at..];
    } else {
      assert at == |file| - c;
    }
  }

  /** A chunk is recorded as it was hashed, unless it is a full last one. */
  lemma ChunkDescribed(file: seq<Byte>, c: nat, hash: Hash, i: nat)
    requires c > 0 && i < |MakeChunks(file, c, hash)|
    requires i < |MakeChunks(file, c, hash)| - 1 || file == [] || |file| % c != 0
    ensures var chunks := MakeChunks(file, c, hash); var at := ChunkOffset(chunks, i);
            at + chunks[i].size <= |file| && hash(file[at..at + chunks[i].size]) == chunks[i].checksum
  {
    hide MakeChunks, ChunkOffset, Segments;
    LastChunkDescribed(file, c, hash);
    if i < |MakeChunks(file, c, hash)| - 1 {
      FullChunksDescribed(file, c, hash, i);
    }
  }

  /**
   * The recorded layout matches what was hashed, unless the chunk size divides a nonempty file: then
   * the last chunk is recorded with no bytes, and matches only if the empty string has its checksum.
   */
  lemma LayoutMatchesHashes(file: seq<Byte>, c: nat, hash: Hash)
    requires c > 0
    ensures Describes(MakeChunks(file, c, hash), file, hash) <==>
              (file == [] || |file| % c != 0 || (|file| >= c && hash([]) == hash(file[|file| - c..])))
  {
    var chunks := MakeChunks(file, c, hash);
    var n := |chunks|;
    LastChunkDescribed(file, c, hash);
    forall i | 0 <= i < n - 1
      ensures ChunkOffset(chunks, i) + chunks[i].size <= |file|
      ensures hash(file[ChunkOffset(chunks, i)..ChunkOffset(chunks, i) + chunks[i].size]) == chunks[i].checksum
    {
      FullChunksDescribed(file, c, hash, i);
    }
    var at := ChunkOffset(chunks, n - 1);
    if chunks[n - 1].size == 0 {
      assert file[at..at + chunks[n - 1].size] == [];
    }
  }

  // ----- what the download relies on -----

  /** No chunk is larger than the first, whose size gives every offset. */
  ghost predicate Even(chunks: seq<Chunk>) {
    forall i :: 0 <= i < |chunks| ==> chunks[i].size <= chunks[0].size
  }

  /** Then the ranges of two chunks never meet. */
  lemma RangesDisjoint(chunks: seq<Chunk>, i: nat, j: nat)
    requires Even(chunks) && i < j < |chunks|
    ensures ChunkOffset(chunks, i) + chunks[i].size <= ChunkOffset(chunks, j)
  {
    MulMonotone(chunks[0].size, i, j);
  }

  lemma MadeLayoutIsEven(file: seq<Byte>, c: nat, hash: Hash)
    requires c > 0
    ensures Even(MakeChunks(file, c, hash))
  {
    RecordedShape(file, c, hash);
    assert |file| % c < c;
  }
}
