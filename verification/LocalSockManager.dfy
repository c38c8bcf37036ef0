// The socket manager object (client/src/local_sock_manager.cc): its maps are updated in place, and
// every call is proved against the pool value of SockPool.
module LocalSockManagers {
  import opened Prelude
  import opened SockPool

  class LocalSockManager {
    var clientSockMap: map<ClientId, seq<Entry>>
    var conditionMap: set<ClientId>
    /** The number of the next socket object that a connect creates. */
    var nextSock: Sock

    function View(): Pool
      reads this
    {
      Pool(clientSockMap, conditionMap, nextSock)
    }

    constructor ()
      ensures View() == EMPTY.pool
    {
      clientSockMap := map[];
      conditionMap := {};
      nextSock := 0;
    }

    /** A new socket object, or null when the connect throws. */
    method MakeConnection(dialed: bool) returns (sock: Option<Sock>)
      modifies this`nextSock
      ensures sock == if dialed then Some(old(nextSock)) else None
      ensures nextSock == if dialed then old(nextSock) + 1 else old(nextSock)
    {
      sock := None;
      if dialed {
        sock := Some(nextSock);
        nextSock := nextSock + 1;
      }
    }

    method ConnectClient(c: ClientId, dialed: bool) returns (r: Connected)
      modifies this
      ensures (View(), r) == SockPool.ConnectClient(old(View()), c, dialed)
      ensures r == ConnectionLimit <==> c in old(clientSockMap) && |old(clientSockMap)[c]| > 10
      ensures r != ConnectionLimit ==> (r == ConnectOk <==> dialed)
      ensures r != ConnectOk ==> View() == old(View())
      ensures r == ConnectOk ==>
                && clientSockMap == old(clientSockMap)[c := ListOf(old(View()), c) + [Entry(Some(old(nextSock)), Idle)]]
                && conditionMap == old(conditionMap) + {c} && nextSock == old(nextSock) + 1
    {
      if c in clientSockMap && |clientSockMap[c]| > MAX_CONNECTION_PER_CLIENT {
        return ConnectionLimit;
      }
      var sock := MakeConnection(dialed);
      if sock.None? {
        return ConnectFailed;
      }
      // operator[] makes an empty list for a client seen first
      var list := if c in clientSockMap then clientSockMap[c] else [];
      clientSockMap := clientSockMap[c := list + [Entry(sock, Idle)]];
      if c !in conditionMap {
        conditionMap := conditionMap + {c};
      }
      assert conditionMap == old(conditionMap) + {c};
      r := ConnectOk;
    }

    method FindIdleEntry(list: seq<Entry>) returns (i: nat)
      ensures i == FirstIdle(list)
    {
      i := 0;
      while i < |list| && list[i].use != Idle
        invariant i <= |list|
        invariant forall j :: 0 <= j < i ==> list[j].use == Used
      {
        i := i + 1;
      }
    }

    method FindSockEntry(list: seq<Entry>, sock: Option<Sock>) returns (i: nat)
      ensures i == FindSock(list, sock)
    {
      i := 0;
      while i < |list| && list[i].sock != sock
        invariant i <= |list|
        invariant forall j :: 0 <= j < i ==> list[j].sock != sock
      {
        i := i + 1;
      }
    }

    method GetIdleClientSock(c: ClientId, dialed: bool) returns (r: Taken)
      modifies this
      ensures (View(), r) == GetIdle(old(View()), c, dialed)
      ensures HandedOut(old(View()), c, dialed, View(), r)
    {
      hide HandedOut;
      GetIdleHandsOut(View(), c, dialed);
      if c !in clientSockMap {
        return NoSock;
      }
      var list := clientSockMap[c];
      var i := FindIdleEntry(list);
      if i == |list| {
        if |list| > MAX_CONNECTION_PER_CLIENT {
          return NoSock;
        } else if |list| == 0 {
          return NoSock;
        } else if list[0].sock.None? {
          return NullPrototype;
        } else {
          var sock := MakeConnection(dialed);
          clientSockMap := clientSockMap[c := list + [Entry(sock, Used)]];
          return if sock.Some? then Taken(sock.value) else NoSock;
        }
      } else {
        clientSockMap := clientSockMap[c := list[i := list[i].(use := Used)]];
        return if list[i].sock.Some? then Taken(list[i].sock.value) else NoSock;
      }
    }

    method ReturnSock(c: ClientId, sock: Option<Sock>) returns (r: Returned)
      modifies this`clientSockMap
      ensures (View(), r) == SockPool.ReturnSock(old(View()), c, sock)
      ensures TakenBack(old(View()), c, sock, View(), r)
    {
      hide TakenBack;
      ReturnTakesBack(View(), c, sock);
      if c !in clientSockMap {
        return UnknownClient;
      }
      var list := clientSockMap[c];
      var i := FindSockEntry(list, sock);
      if i == |list| {
        return ForeignSock;
      }
      clientSockMap := clientSockMap[c := list[i := list[i].(use := Idle)]];
      r := if c in conditionMap then ReturnOk else MissingCondition;
    }

    method GetPayloadPercentage(c: ClientId) returns (r: real)
      ensures r == Load(View(), c)
      ensures r == if c in clientSockMap then |clientSockMap[c]| as real / 10.0 else 100.0
    {
      if c !in clientSockMap {
        r := 100.0;
      } else {
        r := |clientSockMap[c]| as real / MAX_CONNECTION_PER_CLIENT as real;
      }
    }
  }

  /** Collects the payload of every owner and picks the first smallest, as min_element does. */
  method ChoosePeer(m: LocalSockManager, owners: seq<ClientId>) returns (k: nat)
    requires owners != []
    ensures k < |owners|
    ensures IsArgMin(Loads(m.View(), owners), k)
  {
    ghost var all := Loads(m.View(), owners);
    var payloads: seq<real> := [];
    for i := 0 to |owners|
      invariant |payloads| == i
      invariant payloads == all[..i]
    {
      var p := m.GetPayloadPercentage(owners[i]);
      payloads := payloads + [p];
    }
    assert payloads == all;
    k := MinElement(payloads);
  }

  method MinElement(payloads: seq<real>) returns (k: nat)
    requires payloads != []
    ensures IsArgMin(payloads, k)
  {
    k := 0;
    for i := 1 to |payloads|
      invariant k < i
      invariant forall j :: 0 <= j < i ==> payloads[k] <= payloads[j]
      invariant forall j :: 0 <= j < k ==> payloads[k] < payloads[j]
    {
      if payloads[i] < payloads[k] {
        k := i;
      }
    }
  }
}
