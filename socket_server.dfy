/**
 * The TCP server of core/socket/server.go: the connection registry and, per
 * accepted connection, `serverConnHandler` with its read loop (route business
 * messages into the pending tables) and its flush loop (broadcast the socket
 * table to every registered connection, then reset it).
 */
module SocketServer {
  import opened Codec
  import opened Channels
  import opened Registry
  import opened Business
  import opened SocketConnection

  /** `ServerSocket`: the registry is created empty before the first connection is accepted. */
  method ServerSocket() returns (registry: ConnTable)
    ensures fresh(registry) && registry.conns == map[]
  {
    registry := new ConnTable();
  }

  /** The state of one `serverConnHandler` and its two loops. */
  class SocketHandler {
    /** `socketConn`: the handler's own connection. */
    const conn: SConnection
    /** The read loop is still running. */
    var reading: bool
    /** The flush loop is still running. */
    var flushing: bool
    /** The writes the flush loop made to registered connections, in order. */
    var sent: seq<Write<seq<byte>>>

    constructor (c: SConnection)
      ensures conn == c && reading && flushing && sent == []
    {
      conn := c;
      reading := true;
      flushing := true;
      sent := [];
    }

    /**
     * One pass of the read loop: read the next payload; on the closed error
     * close the connection and leave the loop; otherwise store the payload
     * in the pending tables if it parses. `closeWins` is the choice of
     * `ReadMessage`'s `select` when both of its cases are ready.
     */
    method ReadStep(json: JsonCodec, closeWins: bool, registry: ConnTable, tables: PendingTables)
      requires reading
      modifies this, conn, registry, tables
      ensures sent == old(sent) && flushing == old(flushing)
      ensures conn.outbound == old(conn.outbound) && conn.wire == old(conn.wire) && conn.isClosed == old(conn.isClosed)
      ensures registry.conns == old(registry.conns)
      ensures match SelectCase(old(conn.inbound) != [], old(conn.isClosed), closeWins)
              case DataCase =>
                && conn.inbound == old(conn.inbound)[1..]
                && tables.Contents() == Receive(old(tables.Contents()), json, old(conn.inbound)[0])
                && reading && conn.transportCloses == old(conn.transportCloses)
              case CloseCase =>
                && conn.inbound == old(conn.inbound) && tables.Contents() == old(tables.Contents())
                && !reading && conn.transportCloses == old(conn.transportCloses) + 1
              case Blocked =>
                && conn.inbound == old(conn.inbound) && tables.Contents() == old(tables.Contents())
                && reading && conn.transportCloses == old(conn.transportCloses)
    {
      var r := conn.ReadMessage(closeWins);
      match r
      case ClosedError =>
        conn.Close(registry);
        reading := false;
      case Waiting =>
      case Got(data) =>
        tables.Store(json, data);
    }

    /**
     * The loop over the registry in a flush: write `payload` to the
     * connection of each key in `order`, stopping at the first write that
     * fails.
     */
    method Deliver(payload: seq<byte>, conns: map<string, ConnId>, order: seq<string>, accepts: ConnId -> bool)
      returns (failed: bool)
      requires forall i :: 0 <= i < |order| ==> order[i] in conns
      modifies this
      ensures var d := Broadcast(payload, Clients(conns, order), accepts);
              sent == old(sent) + d.writes && failed == d.failed
      ensures reading == old(reading) && flushing == old(flushing)
    {
      var clients := Clients(conns, order);
      ghost var d := BroadcastFrom(payload, clients, accepts, 0, []);
      BroadcastFromStart(payload, clients, accepts);
      ghost var acc: seq<Write<seq<byte>>> := [];
      var i := 0;
      failed := false;
      while i < |clients| && !failed
        invariant i <= |clients|
        invariant failed ==> d == Delivery(acc, true)
        invariant !failed ==> BroadcastFrom(payload, clients, accepts, i, acc) == d
        invariant sent == old(sent) + acc
        invariant reading == old(reading) && flushing == old(flushing)
        decreases |clients| - i, !failed
      {
        if accepts(clients[i]) {
          acc := acc + [Write(clients[i], payload)];
          sent := sent + [Write(clients[i], payload)];
          i := i + 1;
        } else {
          failed := true;
        }
      }
    }

    /**
     * The rest of a flush pass once the socket table has been serialized to
     * `payload`: broadcast it; if every write succeeds reset the socket
     * table, otherwise close the handler's own connection (not the failing
     * client's) and leave the loop, with the table left as it was.
     */
    method Publish(payload: seq<byte>, order: seq<string>, accepts: ConnId -> bool, registry: ConnTable, tables: PendingTables)
      returns (result: FlushResult)
      requires flushing
      requires forall i :: 0 <= i < |order| ==> order[i] in registry.conns
      modifies this, conn, registry, tables
      ensures var d := Broadcast(payload, Clients(old(registry.conns), order), accepts);
              && sent == old(sent) + d.writes
              && (result == WriteFailed <==> d.failed)
              && (result == Delivered <==> !d.failed)
      ensures result == Delivered ==>
                && flushing && tables.socketInfo == map[] && tables.webSocketInfo == old(tables.webSocketInfo)
                && registry.conns == old(registry.conns)
                && conn.isClosed == old(conn.isClosed) && conn.transportCloses == old(conn.transportCloses)
      ensures result == WriteFailed ==>
                && !flushing && tables.Contents() == old(tables.Contents())
                && conn.isClosed && conn.transportCloses == old(conn.transportCloses) + 1
                && registry.conns == if old(conn.isClosed) then old(registry.conns) else old(registry.conns) - {conn.sid}
      ensures reading == old(reading)
      ensures conn.inbound == old(conn.inbound) && conn.outbound == old(conn.outbound) && conn.wire == old(conn.wire)
    {
      var failed := Deliver(payload, registry.conns, order, accepts);
      if failed {
        conn.Close(registry);
        flushing := false;
        return WriteFailed;
      }
      tables.ResetSocketInfo();
      return Delivered;
    }

    /**
     * One pass of the flush loop: with a non-empty socket table that
     * marshals, publish it to every registered connection in `order`;
     * `accepts` tells whether a client's `WriteMessage` succeeds. An empty
     * table, or one that does not marshal, leaves everything as it was.
     */
    method Flush(json: JsonCodec, order: seq<string>, accepts: ConnId -> bool, registry: ConnTable, tables: PendingTables)
      returns (result: FlushResult)
      requires flushing
      requires Enumerates(order, registry.conns.Keys)
      modifies this, conn, registry, tables
      ensures var table := old(tables.socketInfo);
              result == Idle <==> |table| == 0 || json.marshal(table).None?
      ensures result != NilMessagePanic
      ensures result == Idle ==>
                && sent == old(sent) && flushing
                && tables.Contents() == old(tables.Contents()) && registry.conns == old(registry.conns)
                && conn.isClosed == old(conn.isClosed) && conn.transportCloses == old(conn.transportCloses)
      ensures result != Idle ==>
                var d := Broadcast(json.marshal(old(tables.socketInfo)).value, Clients(old(registry.conns), order), accepts);
                && sent == old(sent) + d.writes
                && (result == WriteFailed <==> d.failed)
      ensures result == Delivered ==>
                && flushing && tables.socketInfo == map[] && tables.webSocketInfo == old(tables.webSocketInfo)
                && registry.conns == old(registry.conns)
                && conn.isClosed == old(conn.isClosed) && conn.transportCloses == old(conn.transportCloses)
      ensures result == WriteFailed ==>
                && !flushing && tables.Contents() == old(tables.Contents())
                && conn.isClosed && conn.transportCloses == old(conn.transportCloses) + 1
                && registry.conns == if old(conn.isClosed) then old(registry.conns) else old(registry.conns) - {conn.sid}
      ensures reading == old(reading)
      ensures conn.inbound == old(conn.inbound) && conn.outbound == old(conn.outbound) && conn.wire == old(conn.wire)
    {
      if |tables.socketInfo| == 0 {
        return Idle;
      }
      var tempData := json.marshal(tables.socketInfo);
      if tempData.None? {
        return Idle;
      }
      result := Publish(tempData.value, order, accepts, registry, tables);
    }
  }

  /**
   * `serverConnHandler` up to the start of its two loops: a nil connection
   * is turned away before anything is registered; otherwise the new
   * connection is registered under `connID`.
   */
  method Serve(registry: ConnTable, connIsNil: bool, connID: ConnId, cliAddr: string) returns (h: SocketHandler?)
    modifies registry
    ensures connIsNil ==> h == null && registry.conns == old(registry.conns)
    ensures !connIsNil ==>
              && h != null && fresh(h) && fresh(h.conn)
              && h.conn.sid == connID && h.conn.addr == cliAddr
              && !h.conn.isClosed && h.conn.transportCloses == 0
              && h.conn.inbound == [] && h.conn.outbound == [] && h.conn.wire == []
              && h.reading && h.flushing && h.sent == []
              && registry.conns == old(registry.conns)[connID := connID]
  {
    if connIsNil {
      return null;
    }
    var socketConn := new SConnection(connID, cliAddr);
    registry.conns := registry.conns[connID := socketConn.sid];
    h := new SocketHandler(socketConn);
  }
}
