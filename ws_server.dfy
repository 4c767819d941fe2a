/**
 * The websocket server of core/websocket/ws_server.go: the connection
 * registry and, per upgraded request, `wsHandler` with its heartbeat loop,
 * its read loop (remember the last message, route business messages into the
 * pending tables) and its flush loop (broadcast the websocket table to every
 * registered connection, then reset it).
 */
module WsServer {
  import opened Wrappers
  import opened Codec
  import opened Channels
  import opened Registry
  import opened Business
  import opened WsConnection

  /** `StartWebsocket`: the registry is created empty before the first request is served. */
  method StartWebsocket() returns (registry: ConnTable)
    ensures fresh(registry) && registry.conns == map[]
  {
    registry := new ConnTable();
  }

  /** The payload of every heartbeat: the bytes of "heartbeat". */
  const HeartbeatData: seq<byte> := [0x68, 0x65, 0x61, 0x72, 0x74, 0x62, 0x65, 0x61, 0x74]

  /** The heartbeat message: a pong frame carrying "heartbeat". */
  const Heartbeat := Message(PongMessage, HeartbeatData)

  /** `n` copies of `x`. */
  function Repeat<T>(x: T, n: nat): (r: seq<T>)
    ensures |r| == n && forall k :: 0 <= k < n ==> r[k] == x
  {
    if n == 0 then [] else Repeat(x, n - 1) + [x]
  }

  /** The state of one `wsHandler` and its three loops. */
  class WsHandler {
    /** `conn`: the handler's own connection. */
    const conn: WsConnection
    /** The read loop is still running. */
    var reading: bool
    /** The flush loop is still running. */
    var flushing: bool
    /**
     * `msg`, shared by the read and flush loops: the last message read, or
     * nil before the first read and after a failed one.
     */
    var lastMsg: Option<Message>
    /** The writes the flush loop made to registered connections, in order. */
    var sent: seq<Write<Message>>

    constructor (c: WsConnection)
      ensures conn == c && reading && flushing && lastMsg == None && sent == []
    {
      conn := c;
      reading := true;
      flushing := true;
      lastMsg := None;
      sent := [];
    }

    /**
     * The heartbeat loop over `beats` wake-ups: queue a pong carrying
     * "heartbeat" each time, until `WriteMessage` fails, which happens only
     * when the connection is closed and the `select` takes the close case.
     * `closeWins` is the choice every such `select` makes.
     */
    method HeartbeatLoop(beats: nat, closeWins: bool) returns (stopped: bool)
      modifies conn
      ensures stopped <==> beats > 0 && conn.isClosed && closeWins
      ensures conn.outbound == old(conn.outbound) + Repeat(Heartbeat, if stopped then 0 else beats)
      ensures conn.isClosed == old(conn.isClosed) && conn.transportCloses == old(conn.transportCloses)
      ensures conn.inbound == old(conn.inbound) && conn.wire == old(conn.wire)
    {
      var i := 0;
      while i < beats
        invariant i <= beats
        invariant conn.isClosed && closeWins ==> i == 0
        invariant conn.outbound == old(conn.outbound) + Repeat(Heartbeat, i)
        invariant conn.isClosed == old(conn.isClosed) && conn.transportCloses == old(conn.transportCloses)
        invariant conn.inbound == old(conn.inbound) && conn.wire == old(conn.wire)
      {
        var err := conn.WriteMessage(PongMessage, HeartbeatData, closeWins);
        if err {
          return true;
        }
        i := i + 1;
      }
      return false;
    }

    /**
     * One pass of the read loop: read the next message and remember it; on
     * the closed error remember nil, close the connection and leave the
     * loop; otherwise store the message's data in the pending tables if it
     * parses. `closeWins` is the choice of `ReadMessage`'s `select` when both
     * of its cases are ready.
     */
    method ReadStep(json: JsonCodec, closeWins: bool, registry: ConnTable, tables: PendingTables)
      requires reading
      modifies this, conn, registry, tables
      ensures sent == old(sent) && flushing == old(flushing)
      ensures conn.outbound == old(conn.outbound) && conn.wire == old(conn.wire) && conn.isClosed == old(conn.isClosed)
      ensures registry.conns == old(registry.conns)
      ensures match SelectCase(old(conn.inbound) != [], old(conn.isClosed), closeWins)
              case DataCase =>
                && conn.inbound == old(conn.inbound)[1..] && lastMsg == Some(old(conn.inbound)[0])
                && tables.Contents() == Receive(old(tables.Contents()), json, old(conn.inbound)[0].data)
                && reading && conn.transportCloses == old(conn.transportCloses)
              case CloseCase =>
                && conn.inbound == old(conn.inbound) && lastMsg == None
                && tables.Contents() == old(tables.Contents())
                && !reading && conn.transportCloses == old(conn.transportCloses) + 1
              case Blocked =>
                && conn.inbound == old(conn.inbound) && lastMsg == old(lastMsg)
                && tables.Contents() == old(tables.Contents())
                && reading && conn.transportCloses == old(conn.transportCloses)
    {
      var r := conn.ReadMessage(closeWins);
      match r
      case ClosedError =>
        lastMsg := None;
        conn.Close(registry);
        reading := false;
      case Waiting =>
      case Got(msg) =>
        lastMsg := Some(msg);
        tables.Store(json, msg.data);
    }

    /**
     * The loop over the registry in a flush: write `payload`, with the type
     * of the last message read, to the connection of each key in `order`,
     * stopping at the first write that fails. With no last message, building
     * the first client's message dereferences nil and panics.
     */
    method Deliver(payload: seq<byte>, conns: map<string, ConnId>, order: seq<string>, accepts: ConnId -> bool)
      returns (result: FlushResult)
      requires forall i :: 0 <= i < |order| ==> order[i] in conns
      modifies this
      ensures lastMsg.None? ==> sent == old(sent) && result == if order == [] then Delivered else NilMessagePanic
      ensures lastMsg.Some? ==>
                var d := Broadcast(Message(lastMsg.value.messageType, payload), Clients(conns, order), accepts);
                && sent == old(sent) + d.writes
                && result == if d.failed then WriteFailed else Delivered
      ensures reading == old(reading) && flushing == old(flushing) && lastMsg == old(lastMsg)
    {
      var clients := Clients(conns, order);
      if lastMsg.None? {
        // The first iteration's `msg.messageType` dereferences nil.
        return if clients == [] then Delivered else NilMessagePanic;
      }
      var reply := Message(lastMsg.value.messageType, payload);
      ghost var d := BroadcastFrom(reply, clients, accepts, 0, []);
      BroadcastFromStart(reply, clients, accepts);
      ghost var acc: seq<Write<Message>> := [];
      var i := 0;
      while i < |clients|
        invariant i <= |clients|
        invariant BroadcastFrom(reply, clients, accepts, i, acc) == d
        invariant sent == old(sent) + acc
        invariant reading == old(reading) && flushing == old(flushing) && lastMsg == old(lastMsg)
        decreases |clients| - i
      {
        if !accepts(clients[i]) {
          return WriteFailed;
        }
        acc := acc + [Write(clients[i], reply)];
        sent := sent + [Write(clients[i], reply)];
        i := i + 1;
      }
      return Delivered;
    }

    /**
     * The rest of a flush pass once the websocket table has been serialized
     * to `payload`: broadcast it; if every write succeeds reset the
     * websocket table. At a failed write close the handler's own connection
     * (not the failing client's) and leave the loop; at the nil panic stop.
     * Either way the table is left as it was.
     */
    method Publish(payload: seq<byte>, order: seq<string>, accepts: ConnId -> bool, registry: ConnTable, tables: PendingTables)
      returns (result: FlushResult)
      requires flushing
      requires forall i :: 0 <= i < |order| ==> order[i] in registry.conns
      modifies this, conn, registry, tables
      ensures lastMsg.None? ==> sent == old(sent) && result == if order == [] then Delivered else NilMessagePanic
      ensures lastMsg.Some? ==>
                var d := Broadcast(Message(lastMsg.value.messageType, payload), Clients(old(registry.conns), order), accepts);
                && sent == old(sent) + d.writes
                && result == if d.failed then WriteFailed else Delivered
      ensures result == Delivered ==>
                && flushing && tables.webSocketInfo == map[] && tables.socketInfo == old(tables.socketInfo)
                && registry.conns == old(registry.conns)
                && conn.isClosed == old(conn.isClosed) && conn.transportCloses == old(conn.transportCloses)
      ensures result == WriteFailed ==>
                && !flushing && tables.Contents() == old(tables.Contents())
                && conn.isClosed && conn.transportCloses == old(conn.transportCloses) + 1
                && registry.conns == if old(conn.isClosed) then old(registry.conns) else old(registry.conns) - {conn.wsID}
      ensures result == NilMessagePanic ==>
                && !flushing && tables.Contents() == old(tables.Contents())
                && registry.conns == old(registry.conns)
                && conn.isClosed == old(conn.isClosed) && conn.transportCloses == old(conn.transportCloses)
      ensures reading == old(reading) && lastMsg == old(lastMsg)
      ensures conn.inbound == old(conn.inbound) && conn.outbound == old(conn.outbound) && conn.wire == old(conn.wire)
    {
      result := Deliver(payload, registry.conns, order, accepts);
      match result {
      case NilMessagePanic =>
        flushing := false;
      case WriteFailed =>
        conn.Close(registry);
        flushing := false;
      case Delivered =>
        tables.ResetWebSocketInfo();
      case Idle =>
      }
    }

    /**
     * One pass of the flush loop: with a non-empty websocket table that
     * marshals, publish it to every registered connection in `order`;
     * `accepts` tells whether a client's `WriteMessage` succeeds. An empty
     * table, or one that does not marshal, leaves everything as it was.
     */
    method Flush(json: JsonCodec, order: seq<string>, accepts: ConnId -> bool, registry: ConnTable, tables: PendingTables)
      returns (result: FlushResult)
      requires flushing
      requires Enumerates(order, registry.conns.Keys)
      modifies this, conn, registry, tables
      ensures var table := old(tables.webSocketInfo);
              result == Idle <==> |table| == 0 || json.marshal(table).None?
      ensures result == NilMessagePanic <==> result != Idle && lastMsg.None? && |old(registry.conns)| > 0
      ensures result == Idle ==>
                && sent == old(sent) && flushing
                && tables.Contents() == old(tables.Contents()) && registry.conns == old(registry.conns)
                && conn.isClosed == old(conn.isClosed) && conn.transportCloses == old(conn.transportCloses)
      ensures result != Idle && lastMsg.Some? ==>
                var d := Broadcast(Message(lastMsg.value.messageType, json.marshal(old(tables.webSocketInfo)).value),
                                   Clients(old(registry.conns), order), accepts);
                && sent == old(sent) + d.writes
                && (result == WriteFailed <==> d.failed)
      ensures result == Delivered ==>
                && flushing && tables.webSocketInfo == map[] && tables.socketInfo == old(tables.socketInfo)
                && registry.conns == old(registry.conns)
                && conn.isClosed == old(conn.isClosed) && conn.transportCloses == old(conn.transportCloses)
      ensures result == WriteFailed ==>
                && !flushing && tables.Contents() == old(tables.Contents())
                && conn.isClosed && conn.transportCloses == old(conn.transportCloses) + 1
                && registry.conns == if old(conn.isClosed) then old(registry.conns) else old(registry.conns) - {conn.wsID}
      ensures result == NilMessagePanic ==>
                && sent == old(sent) && !flushing && tables.Contents() == old(tables.Contents())
                && registry.conns == old(registry.conns)
                && conn.isClosed == old(conn.isClosed) && conn.transportCloses == old(conn.transportCloses)
      ensures reading == old(reading) && lastMsg == old(lastMsg)
      ensures conn.inbound == old(conn.inbound) && conn.outbound == old(conn.outbound) && conn.wire == old(conn.wire)
    {
      if |tables.webSocketInfo| == 0 {
        return Idle;
      }
      var tempData := json.marshal(tables.webSocketInfo);
      if tempData.None? {
        return Idle;
      }
      OrderCoversKeys(order, registry.conns.Keys);
      result := Publish(tempData.value, order, accepts, registry, tables);
    }
  }

  /**
   * `wsHandler` up to the start of its three loops: a failed upgrade is
   * turned away before anything is registered; otherwise the new connection
   * is registered under `connID`.
   */
  method Serve(registry: ConnTable, upgradeOk: bool, connID: ConnId, connAddr: string) returns (h: WsHandler?)
    modifies registry
    ensures !upgradeOk ==> h == null && registry.conns == old(registry.conns)
    ensures upgradeOk ==>
              && h != null && fresh(h) && fresh(h.conn)
              && h.conn.wsID == connID && h.conn.addr == connAddr
              && !h.conn.isClosed && h.conn.transportCloses == 0
              && h.conn.inbound == [] && h.conn.outbound == [] && h.conn.wire == []
              && h.reading && h.flushing && h.lastMsg == None && h.sent == []
              && registry.conns == old(registry.conns)[connID := connID]
  {
    if !upgradeOk {
      return null;
    }
    var wsConn := new WsConnection(connID, connAddr);
    registry.conns := registry.conns[connID := wsConn.wsID];
    h := new WsHandler(wsConn);
  }
}
