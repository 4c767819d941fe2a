/**
 * The registries of live connections (`SocketConnAll` in core/socket/server.go,
 * `WebsocketConnAll` in core/websocket/ws_server.go) and the broadcast a
 * flush makes over one of them.
 */
module Registry {
  import opened Codec

  /** A connection, named by the id it was registered under. */
  type ConnId = string

  /** A registry: connection id to connection. */
  class ConnTable {
    var conns: map<string, ConnId>

    /** `ServerSocket` / `StartWebsocket`: the registry starts empty. */
    constructor ()
      ensures conns == map[]
    {
      conns := map[];
    }
  }

  /** `order` lists the keys of a registry, each exactly once: one `range` over the map. */
  ghost predicate Enumerates(order: seq<string>, keys: set<string>)
  {
    && (forall i, j :: 0 <= i < j < |order| ==> order[i] != order[j])
    && (forall i :: 0 <= i < |order| ==> order[i] in keys)
    && (forall k :: k in keys ==> k in order)
  }

  /** The connections of a registry, visited in `order`. */
  function Clients(conns: map<string, ConnId>, order: seq<string>): (clients: seq<ConnId>)
    requires forall i :: 0 <= i < |order| ==> order[i] in conns
    ensures |clients| == |order|
    ensures forall i :: 0 <= i < |order| ==> clients[i] == conns[order[i]]
  {
    if order == [] then [] else [conns[order[0]]] + Clients(conns, order[1..])
  }

  /** One `WriteMessage` call on a registered client that succeeded. */
  datatype Write<P> = Write(to: ConnId, payload: P)

  /**
   * How one pass of a flush loop ended: nothing to send (empty table or
   * failed marshal), every client written and the table reset, a client
   * write failed, or the websocket flush dereferenced a nil last message.
   */
  datatype FlushResult = Idle | Delivered | WriteFailed | NilMessagePanic

  /** The successful writes of a broadcast, and whether it stopped at a failed one. */
  datatype Delivery<P> = Delivery(writes: seq<Write<P>>, failed: bool)

  /**
   * The loop over the clients in a flush: write `payload` to each in turn;
   * `accepts` tells whether the client's `WriteMessage` succeeds. The loop
   * stops at the first failure.
   */
  function Broadcast<P>(payload: P, clients: seq<ConnId>, accepts: ConnId -> bool): (r: Delivery<P>)
    ensures |r.writes| <= |clients|
    ensures forall i :: 0 <= i < |r.writes| ==> r.writes[i] == Write(clients[i], payload) && accepts(clients[i])
    ensures r.failed <==> |r.writes| < |clients|
    ensures r.failed ==> !accepts(clients[|r.writes|])
    decreases |clients|
  {
    if clients == [] then Delivery([], false)
    else if !accepts(clients[0]) then Delivery([], true)
    else
      var rest := Broadcast(payload, clients[1..], accepts);
      Delivery([Write(clients[0], payload)] + rest.writes, rest.failed)
  }

  /**
   * `Broadcast` as the flush loop runs it: the clients from `i` on, after
   * the writes `acc` already made.
   */
  function BroadcastFrom<P>(payload: P, clients: seq<ConnId>, accepts: ConnId -> bool, i: nat, acc: seq<Write<P>>): (r: Delivery<P>)
    requires i <= |clients|
    decreases |clients| - i
  {
    if i == |clients| then Delivery(acc, false)
    else if !accepts(clients[i]) then Delivery(acc, true)
    else BroadcastFrom(payload, clients, accepts, i + 1, acc + [Write(clients[i], payload)])
  }

  /** The loop's form and the recursive definition agree: the loop makes the remaining writes of `Broadcast`. */
  lemma {:induction false} BroadcastFromIsBroadcast<P>(payload: P, clients: seq<ConnId>, accepts: ConnId -> bool, i: nat, acc: seq<Write<P>>)
    requires i <= |clients|
    ensures var rest := Broadcast(payload, clients[i..], accepts);
            BroadcastFrom(payload, clients, accepts, i, acc) == Delivery(acc + rest.writes, rest.failed)
    decreases |clients| - i
  {
    var rest := Broadcast(payload, clients[i..], accepts);
    if i == |clients| {
      assert rest.writes == [];
    } else if !accepts(clients[i]) {
      assert clients[i..][0] == clients[i];
      assert rest.writes == [];
    } else {
      var w := Write(clients[i], payload);
      assert clients[i..][0] == clients[i] && clients[i..][1..] == clients[i + 1..];
      var after := Broadcast(payload, clients[i + 1..], accepts);
      assert rest == Delivery([w] + after.writes, after.failed);
      BroadcastFromIsBroadcast(payload, clients, accepts, i + 1, acc + [w]);
      AppendAssociative(acc, [w], after.writes);
    }
  }

  /** Run from the first client with no writes yet, the loop's form is `Broadcast` itself. */
  lemma BroadcastFromStart<P>(payload: P, clients: seq<ConnId>, accepts: ConnId -> bool)
    ensures BroadcastFrom(payload, clients, accepts, 0, []) == Broadcast(payload, clients, accepts)
  {
    var r := Broadcast(payload, clients, accepts);
    BroadcastFromIsBroadcast(payload, clients, accepts, 0, []);
    assert clients[0..] == clients;
    assert [] + r.writes == r.writes;
  }

  /**
   * When every client accepts, each registered connection is written the
   * payload exactly once: one write per registry key, addressed to that
   * key's connection.
   */
  lemma BroadcastReachesEveryClient<P>(payload: P, conns: map<string, ConnId>, order: seq<string>, accepts: ConnId -> bool)
    requires Enumerates(order, conns.Keys)
    requires forall k :: k in conns ==> accepts(conns[k])
    ensures var r := Broadcast(payload, Clients(conns, order), accepts);
            && !r.failed
            && |r.writes| == |conns|
            && forall k :: k in conns ==> exists i :: 0 <= i < |r.writes| && order[i] == k && r.writes[i] == Write(conns[k], payload)
  {
    var clients := Clients(conns, order);
    var r := Broadcast(payload, clients, accepts);
    forall j | 0 <= j < |clients|
      ensures accepts(clients[j])
    {
      assert clients[j] == conns[order[j]];
    }
    OrderCoversKeys(order, conns.Keys);
    forall k | k in conns
      ensures exists i :: 0 <= i < |r.writes| && order[i] == k && r.writes[i] == Write(conns[k], payload)
    {
      var i :| 0 <= i < |order| && order[i] == k;
      assert r.writes[i] == Write(conns[k], payload);
    }
  }

  /** An enumeration has as many entries as the set it enumerates. */
  lemma {:induction false} OrderCoversKeys(order: seq<string>, keys: set<string>)
    requires Enumerates(order, keys)
    ensures |order| == |keys|
    decreases |order|
  {
    if order != [] {
      var rest := order[1..];
      var k := order[0];
      assert Enumerates(rest, keys - {k}) by {
        forall i | 0 <= i < |rest|
          ensures rest[i] in keys - {k}
        {
          assert rest[i] == order[i + 1];
        }
        forall x | x in keys - {k}
          ensures x in rest
        {
          assert x in order;
          var i :| 0 <= i < |order| && order[i] == x;
          assert rest[i - 1] == x;
        }
      }
      OrderCoversKeys(rest, keys - {k});
    } else {
      assert keys == {};
    }
  }
}
