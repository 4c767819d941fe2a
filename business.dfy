/**
 * The business messages of global/business_data.go and how both servers
 * route them into the two pending tables, keyed by user id.
 */
module Business {
  import opened Wrappers
  import opened Codec

  const SocketProtocol := "socket"
  const WebSocketProtocol := "websocket"

  /**
   * One business message. `data` is the JSON text of the free-form "data"
   * field, which the relay carries without looking into it.
   */
  datatype BusinessData = BusinessData(
    protocol: string,
    sourceId: string,
    userId: string,
    opType: string,
    data: seq<byte>)

  /** A pending table: the latest message of each user. */
  type Table = map<string, BusinessData>

  /**
   * The JSON library as the servers use it: `json.Valid`, `json.Unmarshal`
   * into a `BusinessData` (None when it fails) and `json.Marshal` of a table
   * (None when it fails). Its internals are not part of this model.
   */
  datatype JsonCodec = JsonCodec(
    valid: seq<byte> -> bool,
    unmarshal: seq<byte> -> Option<BusinessData>,
    marshal: Table -> Option<seq<byte>>)

  /** The payload as a business message: it must be valid JSON and unmarshal. */
  function Parse(json: JsonCodec, payload: seq<byte>): (r: Option<BusinessData>)
    ensures r.Some? <==> json.valid(payload) && json.unmarshal(payload).Some?
    ensures r.Some? ==> r == json.unmarshal(payload)
  {
    if json.valid(payload) then json.unmarshal(payload) else None
  }

  /** `SocketBusDataAllInfo` and `WebSocketBusDataAllInfo` together. */
  datatype Tables = Tables(socketInfo: Table, webSocketInfo: Table)

  /** The table that messages of `protocol` are stored in; None for any other protocol. */
  function TableFor(t: Tables, protocol: string): Option<Table>
  {
    if protocol == SocketProtocol then Some(t.socketInfo)
    else if protocol == WebSocketProtocol then Some(t.webSocketInfo)
    else None
  }

  /** What `after` holds for `key`, or None. */
  function Lookup(m: Table, key: string): Option<BusinessData>
  {
    if key in m then Some(m[key]) else None
  }

  /** `after` is `before` with `key` now holding `value` and every other key as it was. */
  ghost predicate Overwrites(before: Table, after: Table, key: string, value: BusinessData)
  {
    && Lookup(after, key) == Some(value)
    && forall k :: k != key ==> Lookup(after, k) == Lookup(before, k)
  }

  /**
   * Routing of one parsed message: "socket" messages go to the socket table,
   * "websocket" messages to the websocket table, each under its user id and
   * replacing what that user had there; other protocols are dropped.
   */
  function Route(t: Tables, d: BusinessData): (r: Tables)
    ensures d.protocol == SocketProtocol ==>
              Overwrites(t.socketInfo, r.socketInfo, d.userId, d) && r.webSocketInfo == t.webSocketInfo
    ensures d.protocol == WebSocketProtocol ==>
              Overwrites(t.webSocketInfo, r.webSocketInfo, d.userId, d) && r.socketInfo == t.socketInfo
    ensures TableFor(t, d.protocol).None? ==> r == t
  {
    if d.protocol == SocketProtocol then t.(socketInfo := t.socketInfo[d.userId := d])
    else if d.protocol == WebSocketProtocol then t.(webSocketInfo := t.webSocketInfo[d.userId := d])
    else t
  }

  /** One payload read by a handler: routed when it parses, otherwise ignored. */
  function Receive(t: Tables, json: JsonCodec, payload: seq<byte>): (r: Tables)
    ensures Parse(json, payload).None? ==> r == t
    ensures Parse(json, payload).Some? ==> r == Route(t, Parse(json, payload).value)
  {
    match Parse(json, payload)
    case None => t
    case Some(d) => Route(t, d)
  }

  /** A run of parsed messages routed in arrival order. */
  function RouteAll(t: Tables, ds: seq<BusinessData>): Tables
    decreases |ds|
  {
    if ds == [] then t else RouteAll(Route(t, ds[0]), ds[1..])
  }

  /** The last message in `ds` for `user` under `protocol`, if any. */
  function LastFor(ds: seq<BusinessData>, protocol: string, user: string): Option<BusinessData>
    decreases |ds|
  {
    if ds == [] then None
    else
      var last := ds[|ds| - 1];
      if last.protocol == protocol && last.userId == user then Some(last)
      else LastFor(ds[..|ds| - 1], protocol, user)
  }

  /** Routing a run is routing all but its last message, then the last one. */
  lemma {:induction false} RouteAllSnoc(t: Tables, ds: seq<BusinessData>, d: BusinessData)
    ensures RouteAll(t, ds + [d]) == Route(RouteAll(t, ds), d)
    decreases |ds|
  {
    if ds == [] {
      assert [d][1..] == [];
    } else {
      assert (ds + [d])[1..] == ds[1..] + [d];
      RouteAllSnoc(Route(t, ds[0]), ds[1..], d);
    }
  }

  /**
   * Last write wins: after a run of messages, each user's entry in the table
   * of a protocol is the last message of that user under that protocol, or
   * what the table held before when the run had none.
   */
  lemma {:induction false} RouteAllLastWins(t: Tables, ds: seq<BusinessData>, protocol: string, user: string)
    requires TableFor(t, protocol).Some?
    ensures TableFor(RouteAll(t, ds), protocol).Some?
    ensures Lookup(TableFor(RouteAll(t, ds), protocol).value, user) ==
              if LastFor(ds, protocol, user).Some? then LastFor(ds, protocol, user)
              else Lookup(TableFor(t, protocol).value, user)
    decreases |ds|
  {
    if ds == [] {
    } else {
      var init, last := ds[..|ds| - 1], ds[|ds| - 1];
      assert ds == init + [last];
      RouteAllSnoc(t, init, last);
      RouteAllLastWins(t, init, protocol, user);
    }
  }

  /** Messages of any protocol other than "socket" and "websocket" change neither table. */
  lemma {:induction false} RouteAllIgnoresOtherProtocols(t: Tables, ds: seq<BusinessData>)
    requires forall k :: 0 <= k < |ds| ==> TableFor(t, ds[k].protocol).None?
    ensures RouteAll(t, ds) == t
    decreases |ds|
  {
    if ds != [] {
      assert TableFor(t, ds[0].protocol).None?;
      forall k | 0 <= k < |ds[1..]|
        ensures TableFor(t, ds[1..][k].protocol).None?
      {
        assert ds[1..][k] == ds[k + 1];
      }
      RouteAllIgnoresOtherProtocols(t, ds[1..]);
    }
  }

  /**
   * The pending tables, shared by every handler of both servers
   * (global/business_data.go:10, 13).
   */
  class PendingTables {
    var socketInfo: Table
    var webSocketInfo: Table

    function Contents(): Tables
      reads this
    {
      Tables(socketInfo, webSocketInfo)
    }

    /** Both tables start empty. */
    constructor ()
      ensures socketInfo == map[] && webSocketInfo == map[]
    {
      socketInfo := map[];
      webSocketInfo := map[];
    }

    /**
     * The body of a handler's read loop after a payload arrives: check it is
     * JSON, unmarshal it, store it by protocol under its user id.
     */
    method Store(json: JsonCodec, payload: seq<byte>)
      modifies this
      ensures Contents() == Receive(old(Contents()), json, payload)
    {
      if !json.valid(payload) {
        return;
      }
      var busData := json.unmarshal(payload);
      if busData.None? {
        return;
      }
      var d := busData.value;
      if d.protocol == SocketProtocol {
        socketInfo := socketInfo[d.userId := d];
      } else if d.protocol == WebSocketProtocol {
        webSocketInfo := webSocketInfo[d.userId := d];
      }
    }

    /** The socket flush's reset: a fresh empty socket table. */
    method ResetSocketInfo()
      modifies this
      ensures socketInfo == map[] && webSocketInfo == old(webSocketInfo)
    {
      socketInfo := map[];
    }

    /** The websocket flush's reset: a fresh empty websocket table. */
    method ResetWebSocketInfo()
      modifies this
      ensures webSocketInfo == map[] && socketInfo == old(socketInfo)
    {
      webSocketInfo := map[];
    }
  }
}
