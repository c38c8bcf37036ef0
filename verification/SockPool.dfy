// The pool of client sockets (client/src/local_sock_manager.cc) as a value: what each call does
// to the lists, and what every run of calls keeps.
module SockPool {
  import opened Prelude

  const MAX_CONNECTION_PER_CLIENT := 10

  datatype Use = Idle | Used

  /** One list entry. A failed reconnect leaves an entry whose socket is null. */
  datatype Entry = Entry(sock: Option<Sock>, use: Use)

  /** `next` numbers the next socket object that a successful connect creates. */
  datatype Pool = Pool(lists: map<ClientId, seq<Entry>>, conds: set<ClientId>, next: Sock)

  datatype Connected = ConnectOk | ConnectionLimit | ConnectFailed
  datatype Taken = Taken(sock: Sock) | NoSock | NullPrototype
  datatype Returned = UnknownClient | ForeignSock | MissingCondition | ReturnOk

  // ----- the calls -----

  function FirstIdle(list: seq<Entry>): (i: nat)
    ensures i <= |list|
    ensures forall j :: 0 <= j < i ==> list[j].use == Used
    ensures i < |list| ==> list[i].use == Idle
  {
    if list == [] || list[0].use == Idle then 0
    else
      var i := FirstIdle(list[1..]);
      Shifted(list, i, (e: Entry) => e.use == Used);
      1 + i
  }

  /** What holds of the head and of the first `i` entries of the tail holds of the first `i + 1` entries. */
  lemma Shifted(list: seq<Entry>, i: nat, p: Entry -> bool)
    requires list != [] && i < |list| && p(list[0])
    requires forall j :: 0 <= j < i ==> p(list[1..][j])
    ensures forall j :: 0 <= j < 1 + i ==> p(list[j])
  {
    forall j | 0 <= j < 1 + i ensures p(list[j]) {
      if j > 0 {
        assert list[j] == list[1..][j - 1];
      }
    }
  }

  function FindSock(list: seq<Entry>, sock: Option<Sock>): (i: nat)
    ensures i <= |list|
    ensures forall j :: 0 <= j < i ==> list[j].sock != sock
    ensures i < |list| ==> list[i].sock == sock
  {
    if list == [] || list[0].sock == sock then 0
    else
      var i := FindSock(list[1..], sock);
      Shifted(list, i, (e: Entry) => e.sock != sock);
      1 + i
  }

  function ListOf(p: Pool, c: ClientId): seq<Entry> {
    if c in p.lists then p.lists[c] else []
  }

  /** `dialed` says whether the network lets the new connection through. */
  function ConnectClient(p: Pool, c: ClientId, dialed: bool): (Pool, Connected) {
    if c in p.lists && |p.lists[c]| > MAX_CONNECTION_PER_CLIENT then (p, ConnectionLimit)
    else if !dialed then (p, ConnectFailed)
    else (Pool(p.lists[c := ListOf(p, c) + [Entry(Some(p.next), Idle)]], p.conds + {c}, p.next + 1), ConnectOk)
  }

  function GetIdle(p: Pool, c: ClientId, dialed: bool): (Pool, Taken) {
    if c !in p.lists then (p, NoSock)
    else
      var list := p.lists[c];
      var i := FirstIdle(list);
      if i < |list| then
        var q := p.(lists := p.lists[c := list[i := list[i].(use := Used)]]);
        // an idle entry with a null socket would be handed out as null
        (q, if list[i].sock.Some? then Taken(list[i].sock.value) else NoSock)
      else if |list| > MAX_CONNECTION_PER_CLIENT || |list| == 0 then (p, NoSock)
      else if list[0].sock.None? then (p, NullPrototype)
      else if dialed then
        (p.(lists := p.lists[c := list + [Entry(Some(p.next), Used)]], next := p.next + 1), Taken(p.next))
      else (p.(lists := p.lists[c := list + [Entry(None, Used)]]), NoSock)
  }

  function ReturnSock(p: Pool, c: ClientId, sock: Option<Sock>): (Pool, Returned) {
    if c !in p.lists then (p, UnknownClient)
    else
      var list := p.lists[c];
      var i := FindSock(list, sock);
      if i == |list| then (p, ForeignSock)
      else
        (p.(lists := p.lists[c := list[i := list[i].(use := Idle)]]),
         if c in p.conds then ReturnOk else MissingCondition)
  }

  /**
   * The first idle entry of a client is marked used and handed out. Without one a new connection is added as used, or a
   * null entry if the connect fails; but not to a list of more than 10, and not for an unknown client.
   */
  ghost predicate HandedOut(p: Pool, c: ClientId, dialed: bool, q: Pool, r: Taken) {
    if c !in p.lists then r == NoSock && q == p
    else
      var list := p.lists[c];
      && (forall i: nat :: i < |list| && list[i].use == Idle && (forall j :: 0 <= j < i ==> list[j].use == Used) ==>
            && q == p.(lists := p.lists[c := list[i := Entry(list[i].sock, Used)]])
            && r == if list[i].sock.Some? then Taken(list[i].sock.value) else NoSock)
      && ((forall i :: 0 <= i < |list| ==> list[i].use == Used) ==>
            if |list| > 10 || list == [] then r == NoSock && q == p
            else if list[0].sock == None then r == NullPrototype && q == p
            else if dialed then
              r == Taken(p.next)
              && q == Pool(p.lists[c := list + [Entry(Some(p.next), Used)]], p.conds, p.next + 1)
            else r == NoSock && q == p.(lists := p.lists[c := list + [Entry(None, Used)]]))
  }

  lemma GetIdleHandsOut(p: Pool, c: ClientId, dialed: bool)
    ensures HandedOut(p, c, dialed, GetIdle(p, c, dialed).0, GetIdle(p, c, dialed).1)
  {
    if c in p.lists {
      var list := p.lists[c];
      forall i: nat | i < |list| && list[i].use == Idle && forall j :: 0 <= j < i ==> list[j].use == Used
        ensures i == FirstIdle(list)
      {
      }
    }
  }

  /** The first entry of a client with this socket is marked idle; without one nothing happens. */
  ghost predicate TakenBack(p: Pool, c: ClientId, sock: Option<Sock>, q: Pool, r: Returned) {
    if c !in p.lists then r == UnknownClient && q == p
    else
      var list := p.lists[c];
      && (forall i: nat :: i < |list| && list[i].sock == sock && (forall j :: 0 <= j < i ==> list[j].sock != sock) ==>
            && q == p.(lists := p.lists[c := list[i := Entry(sock, Idle)]])
            && r == if c in p.conds then ReturnOk else MissingCondition)
      && ((forall i :: 0 <= i < |list| ==> list[i].sock != sock) ==> r == ForeignSock && q == p)
  }

  lemma ReturnTakesBack(p: Pool, c: ClientId, sock: Option<Sock>)
    ensures TakenBack(p, c, sock, ReturnSock(p, c, sock).0, ReturnSock(p, c, sock).1)
  {
    if c in p.lists {
      var list := p.lists[c];
      forall i: nat | i < |list| && list[i].sock == sock && forall j :: 0 <= j < i ==> list[j].sock != sock
        ensures i == FindSock(list, sock)
      {
      }
    }
  }

  predicate IsConnected(p: Pool, c: ClientId) {
    c in p.lists
  }

  /** The load of a client: pooled sockets over the limit, or 100 when it was never connected. */
  function Load(p: Pool, c: ClientId): real {
    if c in p.lists then |p.lists[c]| as real / MAX_CONNECTION_PER_CLIENT as real else 100.0
  }

  // ----- runs -----

  /** The pool with a record of which sockets are handed out, and for which client. */
  datatype Net = Net(pool: Pool, held: map<Sock, ClientId>)

  datatype Op = Connect(c: ClientId, dialed: bool) | Take(c: ClientId, dialed: bool) | GiveBack(c: ClientId, s: Sock)

  const EMPTY := Net(Pool(map[], {}, 0), map[])

  /** Callers give back only what they hold, under the client it was taken for. */
  function Step(n: Net, op: Op): Net {
    match op
    case Connect(c, dialed) => n.(pool := ConnectClient(n.pool, c, dialed).0)
    case Take(c, dialed) =>
      var (q, taken) := GetIdle(n.pool, c, dialed);
      Net(q, if taken.Taken? then n.held[taken.sock := c] else n.held)
    case GiveBack(c, s) =>
      if s in n.held && n.held[s] == c then Net(ReturnSock(n.pool, c, Some(s)).0, n.held - {s}) else n
  }

  function Exec(n: Net, ops: seq<Op>): Net {
    if ops == [] then n else Step(Exec(n, ops[..|ops| - 1]), ops[|ops| - 1])
  }

  /** Between 1 and 11 entries, a live first entry, and no null entry marked idle. */
  ghost predicate ListOk(list: seq<Entry>) {
    && 1 <= |list| <= 11
    && list[0].sock.Some?
    && forall i :: 0 <= i < |list| && list[i].use == Idle ==> list[i].sock.Some?
  }

  ghost predicate ListsOk(p: Pool) {
    forall c :: c in p.lists ==> ListOk(p.lists[c]) && c in p.conds
  }

  /** Socket `s` stands at position `i` of the list of client `c`. */
  ghost predicate At(p: Pool, c: ClientId, i: int, s: Sock) {
    c in p.lists && 0 <= i < |p.lists[c]| && p.lists[c][i].sock == Some(s)
  }

  /** Live sockets are pairwise distinct over the whole pool, and older than the next one. */
  ghost predicate Distinct(p: Pool) {
    && (forall c, i, s: Sock :: At(p, c, i, s) ==> s < p.next)
    && (forall c, i, d, j, s: Sock :: At(p, c, i, s) && At(p, d, j, s) ==> c == d && i == j)
  }

  ghost predicate UsedAt(p: Pool, c: ClientId, i: int, s: Sock) {
    At(p, c, i, s) && p.lists[c][i].use == Used
  }

  /** The live entries marked used are exactly the sockets handed out. */
  ghost predicate HeldExactly(n: Net) {
    && (forall c, i, s: Sock :: UsedAt(n.pool, c, i, s) ==> s in n.held && n.held[s] == c)
    && (forall s :: s in n.held ==> exists i :: UsedAt(n.pool, n.held[s], i, s))
  }

  ghost predicate Inv(n: Net) {
    ListsOk(n.pool) && Distinct(n.pool) && HeldExactly(n)
  }

  /** A new entry at the end of one list, with the next socket or none. */
  function Push(p: Pool, c: ClientId, e: Entry): Pool {
    Pool(p.lists[c := ListOf(p, c) + [e]], p.conds + {c}, if e.sock.Some? then p.next + 1 else p.next)
  }

  /** The mark of one entry set. */
  function Mark(p: Pool, c: ClientId, i: nat, use: Use): Pool
    requires c in p.lists && i < |p.lists[c]|
  {
    p.(lists := p.lists[c := p.lists[c][i := p.lists[c][i].(use := use)]])
  }

  lemma PushAt(p: Pool, c: ClientId, e: Entry)
    ensures forall d, i, s: Sock :: At(Push(p, c, e), d, i, s) <==>
                                At(p, d, i, s) || (d == c && i == |ListOf(p, c)| && e.sock == Some(s))
    ensures forall d, i, s: Sock :: UsedAt(Push(p, c, e), d, i, s) <==>
                                UsedAt(p, d, i, s)
                                || (d == c && i == |ListOf(p, c)| && e == Entry(Some(s), Used))
  {
  }

  lemma MarkAt(p: Pool, c: ClientId, k: nat, use: Use)
    requires c in p.lists && k < |p.lists[c]|
    ensures forall d, i, s: Sock :: At(Mark(p, c, k, use), d, i, s) <==> At(p, d, i, s)
    ensures forall d, i, s: Sock :: UsedAt(Mark(p, c, k, use), d, i, s) <==>
                                if d == c && i == k then At(p, d, i, s) && use == Used else UsedAt(p, d, i, s)
  {
  }

  lemma PushKeeps(p: Pool, c: ClientId, e: Entry)
    requires ListsOk(p) && Distinct(p)
    requires |ListOf(p, c)| <= MAX_CONNECTION_PER_CLIENT
    requires e.sock.Some? ==> e.sock.value == p.next
    requires e.sock.None? ==> e.use == Used && c in p.lists
    ensures ListsOk(Push(p, c, e)) && Distinct(Push(p, c, e))
  {
    PushAt(p, c, e);
    var q := Push(p, c, e);
    forall d | d in q.lists ensures ListOk(q.lists[d]) {
      if d == c {
        var list := ListOf(p, c);
        assert q.lists[c] == list + [e];
        assert d in p.lists ==> ListOk(p.lists[d]);
      }
    }
  }

  lemma MarkKeeps(p: Pool, c: ClientId, k: nat, use: Use)
    requires ListsOk(p) && Distinct(p)
    requires c in p.lists && k < |p.lists[c]|
    requires use == Idle ==> p.lists[c][k].sock.Some?
    ensures ListsOk(Mark(p, c, k, use)) && Distinct(Mark(p, c, k, use))
  {
    MarkAt(p, c, k, use);
    var q := Mark(p, c, k, use);
    forall d | d in q.lists ensures ListOk(q.lists[d]) {
      assert ListOk(p.lists[d]);
    }
  }

  lemma ConnectKeeps(n: Net, c: ClientId, dialed: bool)
    requires Inv(n)
    ensures Inv(Step(n, Connect(c, dialed)))
  {
    if ConnectClient(n.pool, c, dialed).1 == ConnectOk {
      var e := Entry(Some(n.pool.next), Idle);
      assert ConnectClient(n.pool, c, dialed).0 == Push(n.pool, c, e);
      PushKeeps(n.pool, c, e);
      PushAt(n.pool, c, e);
    }
  }

  /** A socket just handed out was held by nobody, and the reconnect prototype is never null. */
  lemma TakeKeeps(n: Net, c: ClientId, dialed: bool)
    requires Inv(n)
    ensures Inv(Step(n, Take(c, dialed)))
    ensures GetIdle(n.pool, c, dialed).1 != NullPrototype
    ensures GetIdle(n.pool, c, dialed).1.Taken? ==>
              GetIdle(n.pool, c, dialed).1.sock !in n.held && IsConnected(n.pool, c)
  {
    if c in n.pool.lists {
      assert ListOk(n.pool.lists[c]);
      var list := n.pool.lists[c];
      var k := FirstIdle(list);
      if k < |list| {
        TakeIdleKeeps(n, c, k);
      } else if |list| <= MAX_CONNECTION_PER_CLIENT {
        TakeNewKeeps(n, c, if dialed then Entry(Some(n.pool.next), Used) else Entry(None, Used));
      }
    }
  }

  lemma TakeIdleKeeps(n: Net, c: ClientId, k: nat)
    requires Inv(n)
    requires c in n.pool.lists && k < |n.pool.lists[c]| && n.pool.lists[c][k].use == Idle
    ensures n.pool.lists[c][k].sock.Some? && n.pool.lists[c][k].sock.value !in n.held
    ensures Inv(Net(Mark(n.pool, c, k, Used), n.held[n.pool.lists[c][k].sock.value := c]))
  {
    assert ListOk(n.pool.lists[c]);
    var s := n.pool.lists[c][k].sock.value;
    assert At(n.pool, c, k, s);
    assert s !in n.held;
    MarkKeeps(n.pool, c, k, Used);
    MarkAt(n.pool, c, k, Used);
    var m := Net(Mark(n.pool, c, k, Used), n.held[s := c]);
    assert UsedAt(m.pool, c, k, s);
    forall x | x in n.held ensures exists i :: UsedAt(m.pool, n.held[x], i, x) {
      var i :| UsedAt(n.pool, n.held[x], i, x);
      assert UsedAt(m.pool, n.held[x], i, x);
    }
  }

  lemma TakeNewKeeps(n: Net, c: ClientId, e: Entry)
    requires Inv(n)
    requires c in n.pool.lists && |n.pool.lists[c]| <= MAX_CONNECTION_PER_CLIENT
    requires e == Entry(Some(n.pool.next), Used) || e == Entry(None, Used)
    ensures e.sock.Some? ==> n.pool.next !in n.held
    ensures Push(n.pool, c, e) ==
            n.pool.(lists := n.pool.lists[c := n.pool.lists[c] + [e]],
              next := if e.sock.Some? then n.pool.next + 1 else n.pool.next)
    ensures Inv(Net(Push(n.pool, c, e), if e.sock.Some? then n.held[n.pool.next := c] else n.held))
  {
    PushKeeps(n.pool, c, e);
    PushAt(n.pool, c, e);
    assert n.pool.conds + {c} == n.pool.conds;
    var m := Net(Push(n.pool, c, e), if e.sock.Some? then n.held[n.pool.next := c] else n.held);
    assert e.sock.Some? ==> UsedAt(m.pool, c, |n.pool.lists[c]|, n.pool.next);
    forall x | x in n.held ensures exists i :: UsedAt(m.pool, n.held[x], i, x) {
      var i :| UsedAt(n.pool, n.held[x], i, x);
      assert UsedAt(m.pool, n.held[x], i, x);
    }
  }

  /** Giving back a held socket finds its own entry, and a condition object to signal. */
  lemma GiveBackKeeps(n: Net, c: ClientId, s: Sock)
    requires Inv(n)
    ensures Inv(Step(n, GiveBack(c, s)))
    ensures s in n.held && n.held[s] == c ==> ReturnSock(n.pool, c, Some(s)).1 == ReturnOk
  {
    if s in n.held && n.held[s] == c {
      var k :| UsedAt(n.pool, c, k, s);
      var f := FindSock(n.pool.lists[c], Some(s));
      assert At(n.pool, c, f, s);
      MarkKeeps(n.pool, c, k, Idle);
      MarkAt(n.pool, c, k, Idle);
      var m := Step(n, GiveBack(c, s));
      assert m.pool == Mark(n.pool, c, k, Idle);
      forall x | x in m.held ensures exists i :: UsedAt(m.pool, m.held[x], i, x) {
        var i :| UsedAt(n.pool, n.held[x], i, x);
        assert UsedAt(m.pool, n.held[x], i, x);
      }
    }
  }

  lemma StepKeeps(n: Net, op: Op)
    requires Inv(n)
    ensures Inv(Step(n, op))
  {
    match op
    case Connect(c, dialed) => ConnectKeeps(n, c, dialed);
    case Take(c, dialed) => TakeKeeps(n, c, dialed);
    case GiveBack(c, s) => GiveBackKeeps(n, c, s);
  }

  /** Every run of connect, take and give-back calls from the empty pool keeps the invariant. */
  lemma {:induction false} RunsKeepPool(ops: seq<Op>)
    ensures Inv(Exec(EMPTY, ops))
  {
    if ops != [] {
      RunsKeepPool(ops[..|ops| - 1]);
      StepKeeps(Exec(EMPTY, ops[..|ops| - 1]), ops[|ops| - 1]);
    }
  }

  /** After any run, a socket handed out is one that nobody holds, and the list it came from has a condition. */
  lemma NoDoubleHandout(ops: seq<Op>, c: ClientId, dialed: bool)
    ensures var n := Exec(EMPTY, ops);
            var (q, taken) := GetIdle(n.pool, c, dialed);
            && taken != NullPrototype
            && (taken.Taken? ==> taken.sock !in n.held && c in q.conds && |q.lists[c]| <= 11)
  {
    RunsKeepPool(ops);
    TakeKeeps(Exec(EMPTY, ops), c, dialed);
  }

  /** The limit test lets an eleventh connection through: the bound on a list is met. */
  lemma {:induction false} BoundIsReached(c: ClientId, k: nat) returns (ops: seq<Op>)
    requires k <= 11
    ensures |ListOf(Exec(EMPTY, ops).pool, c)| == k
  {
    if k == 0 {
      ops := [];
    } else {
      var before := BoundIsReached(c, k - 1);
      ops := before + [Connect(c, true)];
      assert ops[..|ops| - 1] == before;
    }
  }

  // ----- choosing a peer -----

  function Loads(p: Pool, owners: seq<ClientId>): seq<real> {
    seq(|owners|, i requires 0 <= i < |owners| => Load(p, owners[i]))
  }

  /** The position of the first smallest load, as min_element finds it. */
  ghost predicate IsArgMin(loads: seq<real>, k: nat) {
    && k < |loads|
    && (forall j :: 0 <= j < |loads| ==> loads[k] <= loads[j])
    && (forall j :: 0 <= j < k ==> loads[k] < loads[j])
  }

  /**
   * The owner with the first smallest load is connected whenever any owner is, and among the
   * connected owners has the fewest pooled sockets.
   */
  lemma PeerChoice(n: Net, owners: seq<ClientId>, k: nat)
    requires Inv(n)
    requires k < |owners|
    requires IsArgMin(Loads(n.pool, owners), k)
    ensures (exists c :: c in owners && IsConnected(n.pool, c)) ==> IsConnected(n.pool, owners[k])
    ensures forall c :: c in owners && IsConnected(n.pool, c) && IsConnected(n.pool, owners[k]) ==>
              |ListOf(n.pool, owners[k])| <= |ListOf(n.pool, c)|
  {
    var loads := Loads(n.pool, owners);
    forall c | c in owners && IsConnected(n.pool, c)
      ensures IsConnected(n.pool, owners[k]) && |ListOf(n.pool, owners[k])| <= |ListOf(n.pool, c)|
    {
      var j :| 0 <= j < |owners| && owners[j] == c;
      assert loads[k] <= loads[j];
      assert |n.pool.lists[c]| as real <= 11.0;
    }
  }
}
