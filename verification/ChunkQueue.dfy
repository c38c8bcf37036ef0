// The queue of missing chunks (client/src/chunk_selector.cc) as a value: how a chunk is ranked
// by the peers that have it, and in which order the queue gives chunks out.
module ChunkQueue {
  import opened Prelude
  import opened Bags
  import Picks

  const RARE_COUNT := 5
  const HIGHEST := 20
  const NORMAL := 10
  const UNAVAILABLE := 0

  datatype ChunkId = ChunkId(file: FileId, num: nat)
  datatype Status = Free | Failed | NoOwner

  /** A peer that owns a file; its bitmap is empty until a handshake succeeds. */
  datatype Owner = Owner(client: ClientId, bitmap: seq<bool>)
  type Owners = map<FileId, seq<Owner>>

  datatype ChunkInfo = ChunkInfo(status: Status, id: ChunkId, priority: int, clients: seq<ClientId>)

  /** The bitmap test asserts that the position exists, so every listed bitmap must be long enough. */
  predicate Testable(list: seq<Owner>, num: nat) {
    forall i :: 0 <= i < |list| ==> num < |list[i].bitmap|
  }

  predicate Countable(owners: Owners, id: ChunkId) {
    id.file in owners && Testable(owners[id.file], id.num)
  }

  /** The listed owners that have the chunk, in list order. */
  function Holders(list: seq<Owner>, num: nat): seq<ClientId>
    requires Testable(list, num)
  {
    if list == [] then []
    else
      var last := list[|list| - 1];
      Holders(list[..|list| - 1], num) + if last.bitmap[num] then [last.client] else []
  }

  function Rank(count: nat): int {
    if count == 0 then UNAVAILABLE
    else if count < RARE_COUNT then HIGHEST - count
    else NORMAL
  }

  function Baseline(status: Status): int {
    match status
    case Free => 0
    case Failed => 0 - NORMAL
    case NoOwner => 0 - HIGHEST
  }

  /** The queue entry made for a chunk from the owners known at that moment. */
  function Make(owners: Owners, status: Status, id: ChunkId): ChunkInfo
    requires Countable(owners, id)
  {
    var clients := Holders(owners[id.file], id.num);
    ChunkInfo(status, id, Rank(|clients|) + Baseline(status), clients)
  }

  // ----- what an entry says of the owners -----

  /** The owner has the chunk. */
  function Has(num: nat): Owner -> bool {
    (o: Owner) => num < |o.bitmap| && o.bitmap[num]
  }

  function Name(): Owner -> ClientId {
    (o: Owner) => o.client
  }

  /** At how many positions of the list an owner with the chunk stands. */
  ghost function HolderCount(list: seq<Owner>, num: nat): nat
    requires Testable(list, num)
  {
    |set i | 0 <= i < |list| && list[i].bitmap[num]|
  }

  /**
   * The entry made for a chunk names the owners that have it, in list order; 20 less their number while they are rare,
   * 10 when they are not, 0 when there are none; 10 below that for a failed chunk, 20 for one without owners.
   */
  ghost predicate Tells(info: ChunkInfo, list: seq<Owner>, status: Status, id: ChunkId)
    requires Testable(list, id.num)
  {
    var n := HolderCount(list, id.num);
    && info.id == id && info.status == status
    && |info.clients| == n && Picks.Kept(list, Has(id.num), Name(), info.clients)
    && info.priority == (if n == 0 then 0 else if n < 5 then 20 - n else 10)
                        - (if status == Free then 0 else if status == Failed then 10 else 20)
  }

  lemma {:induction false} HoldersAre(list: seq<Owner>, num: nat)
    requires Testable(list, num)
    ensures Picks.Kept(list, Has(num), Name(), Holders(list, num))
  {
    hide Picks.Kept;
    if list == [] {
      Picks.NothingKept(Has(num), Name());
    } else {
      var n := |list| - 1;
      HoldersAre(list[..n], num);
      Picks.KeptNext(list[..n], list[n], Has(num), Name(), Holders(list[..n], num));
      assert list == list[..n] + [list[n]];
      assert Holders(list, num) == if Has(num)(list[n]) then Holders(list[..n], num) + [Name()(list[n])]
                                   else Holders(list[..n], num);
    }
  }

  lemma HoldersCount(list: seq<Owner>, num: nat)
    requires Testable(list, num)
    ensures |Holders(list, num)| == HolderCount(list, num)
  {
    hide Picks.Kept, Holders;
    HoldersAre(list, num);
    Picks.KeptCount(list, Has(num), Name(), Holders(list, num));
    assert Picks.Passing(list, Has(num)) == set i | 0 <= i < |list| && list[i].bitmap[num];
  }

  lemma MakeTells(owners: Owners, status: Status, id: ChunkId)
    requires Countable(owners, id)
    ensures Tells(Make(owners, status, id), owners[id.file], status, id)
  {
    hide Holders, HolderCount, Picks.Kept;
    HoldersAre(owners[id.file], id.num);
    HoldersCount(owners[id.file], id.num);
  }

  /** The clients named are those of the owners that have the chunk. */
  lemma TellsNames(info: ChunkInfo, list: seq<Owner>, status: Status, id: ChunkId)
    requires Testable(list, id.num) && Tells(info, list, status, id)
    ensures forall c :: c in info.clients <==>
                        exists i :: 0 <= i < |list| && list[i].bitmap[id.num] && list[i].client == c
  {
    hide HolderCount;
    Picks.KeptMember(list, Has(id.num), Name(), info.clients);
    forall c
      ensures c in info.clients <==> exists i :: 0 <= i < |list| && list[i].bitmap[id.num] && list[i].client == c
    {
      if c in info.clients {
        var i :| 0 <= i < |list| && Has(id.num)(list[i]) && Name()(list[i]) == c;
        assert list[i].bitmap[id.num] && list[i].client == c;
      }
      if i :| 0 <= i < |list| && list[i].bitmap[id.num] && list[i].client == c {
        assert Has(id.num)(list[i]) && Name()(list[i]) == c;
      }
    }
  }

  predicate IsTop(q: seq<ChunkInfo>, i: nat) {
    i < |q| && forall j :: 0 <= j < |q| ==> q[j].priority <= q[i].priority
  }

  function Without(q: seq<ChunkInfo>, i: nat): seq<ChunkInfo>
    requires i < |q|
  {
    q[..i] + q[i + 1..]
  }

  function Ids(q: seq<ChunkInfo>): seq<ChunkId> {
    seq(|q|, i requires 0 <= i < |q| => q[i].id)
  }

  lemma IdsPush(q: seq<ChunkInfo>, c: ChunkInfo)
    ensures multiset(Ids(q + [c])) == multiset(Ids(q)) + multiset{c.id}
  {
    assert Ids(q + [c]) == Ids(q) + [c.id];
  }

  lemma IdsWithout(q: seq<ChunkInfo>, i: nat)
    requires i < |q|
    ensures multiset(Ids(Without(q, i))) == multiset(Ids(q)) - multiset{q[i].id}
    ensures q[i].id in multiset(Ids(q))
  {
    assert Ids(Without(q, i)) == Ids(q)[..i] + Ids(q)[i + 1..];
    RemoveAt(Ids(q), i);
  }

  // ----- order -----

  /** Every entry still carries the rank of the owners it was made with. */
  ghost predicate WellRanked(q: seq<ChunkInfo>) {
    forall i :: 0 <= i < |q| ==> q[i].priority == Rank(|q[i].clients|) + Baseline(q[i].status)
  }

  /**
   * Chunks without owners come last: when one is given out, what remains holds no untried chunk
   * and no failed chunk that had an owner when it was queued.
   */
  lemma NoOwnerChunksComeLast(q: seq<ChunkInfo>, i: nat)
    requires WellRanked(q) && IsTop(q, i) && q[i].status == NoOwner
    ensures forall c :: c in Without(q, i) ==> c.status != Free && (c.status == Failed ==> c.clients == [])
  {
    forall c | c in Without(q, i) ensures c.status != Free && (c.status == Failed ==> c.clients == []) {
      var j :| 0 <= j < |q| && q[j] == c;
      assert q[j].priority <= q[i].priority < 0;
    }
  }

  /** Class 1 to 4 for that many owners, 5 for more, 6 for none. */
  function RarityClass(count: nat): nat {
    if count == 0 then 6 else if count < RARE_COUNT then count else 5
  }

  /** `out` is what repeatedly taking a chunk yields, whichever way ties are broken. */
  ghost predicate Drains(q: seq<ChunkInfo>, out: seq<ChunkInfo>)
    decreases |q|
  {
    if q == [] then out == []
    else out != [] && exists i: nat :: IsTop(q, i) && out[0] == q[i] && Drains(Without(q, i), out[1..])
  }

  lemma HeadAndTail<T>(s: seq<T>)
    requires s != []
    ensures multiset(s) == multiset{s[0]} + multiset(s[1..])
  {
    assert s == [s[0]] + s[1..];
  }

  lemma DrainStep(q: seq<ChunkInfo>, out: seq<ChunkInfo>) returns (i: nat)
    requires Drains(q, out) && q != []
    ensures out != [] && i < |q| && IsTop(q, i) && out[0] == q[i]
    ensures Drains(Without(q, i), out[1..])
  {
    i :| IsTop(q, i) && out[0] == q[i] && Drains(Without(q, i), out[1..]);
  }

  lemma {:induction false} DrainIsPermutation(q: seq<ChunkInfo>, out: seq<ChunkInfo>)
    requires Drains(q, out)
    ensures multiset(out) == multiset(q)
    decreases |q|
  {
    if q != [] {
      var i := DrainStep(q, out);
      hide IsTop, Drains;
      DrainIsPermutation(Without(q, i), out[1..]);
      RemoveAt(q, i);
      HeadAndTail(out);
    }
  }

  /** A fresh queue is drained rarest first, each entry once. */
  lemma {:induction false} RarestFirst(q: seq<ChunkInfo>, out: seq<ChunkInfo>)
    requires WellRanked(q) && Drains(q, out)
    requires forall i :: 0 <= i < |q| ==> q[i].status == Free
    ensures multiset(out) == multiset(q)
    ensures forall a, b :: 0 <= a < b < |out| ==> RarityClass(|out[a].clients|) <= RarityClass(|out[b].clients|)
    decreases |q|
  {
    DrainIsPermutation(q, out);
    if q != [] {
      var i := DrainStep(q, out);
      hide Drains;
      RarestFirst(Without(q, i), out[1..]);
      forall a, b | 0 <= a < b < |out|
        ensures RarityClass(|out[a].clients|) <= RarityClass(|out[b].clients|)
      {
        if a == 0 {
          TopIsRarest(q, i, out[b], out);
        } else {
          assert out[a] == out[1..][a - 1] && out[b] == out[1..][b - 1];
        }
      }
    }
  }

  lemma TopIsRarest(q: seq<ChunkInfo>, i: nat, c: ChunkInfo, out: seq<ChunkInfo>)
    requires WellRanked(q) && IsTop(q, i) && c in out && multiset(out) == multiset(q)
    requires forall j :: 0 <= j < |q| ==> q[j].status == Free
    ensures RarityClass(|q[i].clients|) <= RarityClass(|c.clients|)
  {
    assert c in multiset(out);
    assert c in q;
    var j :| 0 <= j < |q| && q[j] == c;
    assert q[j].priority <= q[i].priority;
  }

  // ----- the queue a job starts with -----

  predicate Missing(files: set<FileId>, bits: map<FileId, seq<bool>>, id: ChunkId) {
    id.file in files && id.file in bits && id.num < |bits[id.file]| && !bits[id.file][id.num]
  }

  /** Each missing chunk of each file once, untried and ranked by the known owners, and nothing else. */
  ghost predicate Initial(q: seq<ChunkInfo>, files: set<FileId>, bits: map<FileId, seq<bool>>, owners: Owners) {
    && (forall i :: 0 <= i < |q| ==> Countable(owners, q[i].id) && q[i] == Make(owners, Free, q[i].id))
    && (forall id :: multiset(Ids(q))[id] == if Missing(files, bits, id) then 1 else 0)
  }

  lemma InitialIsRanked(q: seq<ChunkInfo>, files: set<FileId>, bits: map<FileId, seq<bool>>, owners: Owners)
    requires Initial(q, files, bits, owners)
    ensures WellRanked(q) && forall i :: 0 <= i < |q| ==> q[i].status == Free
  {
  }

  /** How many of the listed owners have the chunk. */
  ghost function OwnerCount(owners: Owners, id: ChunkId): nat {
    if Countable(owners, id) then |set i | 0 <= i < |owners[id.file]| && owners[id.file][i].bitmap[id.num]| else 0
  }

  /**
   * Draining the queue that a job starts with yields each missing chunk of each file exactly once and nothing
   * else, ordered by how many of the listed owners have it: 1, 2, 3, 4, then 5 or more, then none. Each comes with
   * the owners that have it.
   */
  lemma {:induction false} InitialDrain(q: seq<ChunkInfo>, out: seq<ChunkInfo>, files: set<FileId>,
                                        bits: map<FileId, seq<bool>>, owners: Owners)
    requires Initial(q, files, bits, owners) && Drains(q, out)
    ensures forall id :: multiset(Ids(out))[id] == if Missing(files, bits, id) then 1 else 0
    ensures forall a, b :: 0 <= a < b < |out| ==>
              RarityClass(OwnerCount(owners, out[a].id)) <= RarityClass(OwnerCount(owners, out[b].id))
    ensures forall a :: 0 <= a < |out| ==>
              Countable(owners, out[a].id) && Tells(out[a], owners[out[a].id.file], Free, out[a].id)
  {
    hide Drains, RarityClass, Missing, Tells, Make;
    InitialIsRanked(q, files, bits, owners);
    RarestFirst(q, out);
    DrainIds(q, out);
    forall a | 0 <= a < |out|
      ensures Countable(owners, out[a].id) && OwnerCount(owners, out[a].id) == |out[a].clients|
      ensures Tells(out[a], owners[out[a].id.file], Free, out[a].id)
    {
      assert out[a] in multiset(out);
      assert out[a] in q;
      MakeTells(owners, Free, out[a].id);
      TellsCount(out[a], owners[out[a].id.file], Free, out[a].id);
    }
  }

  lemma TellsCount(info: ChunkInfo, list: seq<Owner>, status: Status, id: ChunkId)
    requires Testable(list, id.num) && Tells(info, list, status, id)
    ensures |info.clients| == |set i | 0 <= i < |list| && list[i].bitmap[id.num]|
  {
  }

  /** Every entry of such a queue tells of the owners that are known. */
  lemma InitialTells(q: seq<ChunkInfo>, files: set<FileId>, bits: map<FileId, seq<bool>>, owners: Owners)
    requires Initial(q, files, bits, owners)
    ensures AllTell(q, owners)
  {
    hide Tells, Make;
    forall i | 0 <= i < |q| ensures Tells(q[i], owners[q[i].id.file], Free, q[i].id) {
      MakeTells(owners, Free, q[i].id);
    }
  }

  lemma PartialTells(q: seq<ChunkInfo>, files: set<FileId>, bits: map<FileId, seq<bool>>, owners: Owners,
                     done: set<FileId>, file: FileId, bound: nat)
    requires Partial(q, files, bits, owners, done, file, bound)
    ensures AllTell(q, owners)
  {
    hide Tells, Make;
    forall i | 0 <= i < |q| ensures Tells(q[i], owners[q[i].id.file], Free, q[i].id) {
      MakeTells(owners, Free, q[i].id);
    }
  }

  ghost predicate AllTell(q: seq<ChunkInfo>, owners: Owners) {
    forall i :: 0 <= i < |q| ==> Countable(owners, q[i].id) && Tells(q[i], owners[q[i].id.file], Free, q[i].id)
  }

  lemma {:induction false} DrainIds(q: seq<ChunkInfo>, out: seq<ChunkInfo>)
    requires Drains(q, out)
    ensures multiset(Ids(out)) == multiset(Ids(q))
    decreases |q|
  {
    if q != [] {
      var i := DrainStep(q, out);
      hide IsTop, Drains;
      DrainIds(Without(q, i), out[1..]);
      IdsWithout(q, i);
      IdsHead(out);
    }
  }

  lemma IdsHead(out: seq<ChunkInfo>)
    requires out != []
    ensures multiset(Ids(out)) == multiset{out[0].id} + multiset(Ids(out[1..]))
  {
    assert Ids(out) == [out[0].id] + Ids(out[1..]);
  }

  /** The same while the files in `done`, and the first `bound` chunks of `file`, have been visited. */
  ghost predicate Partial(q: seq<ChunkInfo>, files: set<FileId>, bits: map<FileId, seq<bool>>, owners: Owners,
                          done: set<FileId>, file: FileId, bound: nat) {
    && (forall i :: 0 <= i < |q| ==> Countable(owners, q[i].id) && q[i] == Make(owners, Free, q[i].id))
    && (forall id :: multiset(Ids(q))[id] ==
                       if Missing(files, bits, id) && (id.file in done || (id.file == file && id.num < bound))
                       then 1 else 0)
  }

  lemma PartialPush(q: seq<ChunkInfo>, files: set<FileId>, bits: map<FileId, seq<bool>>, owners: Owners,
                    done: set<FileId>, file: FileId, num: nat)
    requires Partial(q, files, bits, owners, done, file, num)
    requires file !in done && Missing(files, bits, ChunkId(file, num)) && Countable(owners, ChunkId(file, num))
    ensures Partial(q + [Make(owners, Free, ChunkId(file, num))], files, bits, owners, done, file, num + 1)
  {
    var c := Make(owners, Free, ChunkId(file, num));
    IdsPush(q, c);
    forall id ensures multiset(Ids(q + [c]))[id] ==
                      if Missing(files, bits, id) && (id.file in done || (id.file == file && id.num < num + 1))
                      then 1 else 0 {
      if id != c.id {
        assert id.file == file ==> id.num != num;
      }
    }
  }

  lemma PartialSkip(q: seq<ChunkInfo>, files: set<FileId>, bits: map<FileId, seq<bool>>, owners: Owners,
                    done: set<FileId>, file: FileId, num: nat)
    requires Partial(q, files, bits, owners, done, file, num)
    requires !Missing(files, bits, ChunkId(file, num))
    ensures Partial(q, files, bits, owners, done, file, num + 1)
  {
    forall id: ChunkId | id.file == file && id.num == num ensures id == ChunkId(file, num) {
    }
  }

  lemma PartialFileDone(q: seq<ChunkInfo>, files: set<FileId>, bits: map<FileId, seq<bool>>, owners: Owners,
                        done: set<FileId>, file: FileId, count: nat, next: FileId)
    requires Partial(q, files, bits, owners, done, file, count)
    requires file in bits ==> count == |bits[file]|
    ensures Partial(q, files, bits, owners, done + {file}, next, 0)
  {
  }

  lemma PartialAllDone(q: seq<ChunkInfo>, files: set<FileId>, bits: map<FileId, seq<bool>>, owners: Owners,
                       done: set<FileId>, next: FileId)
    requires Partial(q, files, bits, owners, done, next, 0) && done == files
    ensures Initial(q, files, bits, owners)
  {
  }
}
