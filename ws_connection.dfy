/**
 * One websocket connection of core/websocket/ws_connection.go: queues of
 * whole messages, the close-once state machine, and the read, process and
 * write loops that move messages between the queues and the transport.
 */
module WsConnection {
  import opened Codec
  import opened Channels
  import opened Registry

  /** The control message types the loops send: the opcodes of section 5.2 of RFC 6455. */
  const PingMessage := 9
  const PongMessage := 10

  /** One nanosecond-based `time.Duration` second. */
  const Second := 1_000_000_000
  /** Time allowed to read the next pong from the peer. */
  const PongWait := 6000 * Second
  /** Period of the write loop's ticker. */
  const PingPeriod := (PongWait * 9) / 10

  /** The ticker fires before the peer's pong wait runs out. */
  lemma PingPeriodBeforePongWait()
    ensures PingPeriod < PongWait
    ensures PingPeriod == 5400 * Second
  {
  }

  /** `Message`: a message type and its payload. */
  datatype Message = Message(messageType: int, data: seq<byte>)

  /** What the write loop sends on every ticker wake-up: a ping with no payload. */
  const Ping := Message(PingMessage, [])

  /** How the write loop frames a queued message for the transport: it does not. */
  function AsSent(m: Message): Message
  {
    m
  }

  /** `WsConnection`. The transport is represented by what it was asked to do. */
  class WsConnection {
    /** The id the connection is registered under. */
    const wsID: ConnId
    /** The peer's network address. */
    const addr: string
    /** Set by the first `Close`; `closeChan` is closed exactly when it is set. */
    var isClosed: bool
    /** How many times the transport has been closed. */
    var transportCloses: nat
    /** `inChan`: messages read from the transport, head first. */
    var inbound: seq<Message>
    /** `outChan`: messages waiting for the write loop, head first. */
    var outbound: seq<Message>
    /** The messages the transport accepted, in order. */
    var wire: seq<Message>

    /** `InitConnection`: an open connection with empty queues. */
    constructor (connId: ConnId, connAddr: string)
      ensures wsID == connId && addr == connAddr
      ensures !isClosed && transportCloses == 0
      ensures inbound == [] && outbound == [] && wire == []
    {
      wsID := connId;
      addr := connAddr;
      isClosed := false;
      transportCloses := 0;
      inbound := [];
      outbound := [];
      wire := [];
    }

    /**
     * `Close`: the transport is closed on every call; only the first call
     * sets `isClosed` and removes the connection from the registry.
     */
    method Close(registry: ConnTable)
      modifies this, registry
      ensures transportCloses == old(transportCloses) + 1
      ensures isClosed
      ensures registry.conns == if old(isClosed) then old(registry.conns) else old(registry.conns) - {wsID}
      ensures inbound == old(inbound) && outbound == old(outbound) && wire == old(wire)
    {
      transportCloses := transportCloses + 1;
      if !isClosed {
        registry.conns := registry.conns - {wsID};
        isClosed := true;
      }
    }

    /**
     * `ReadMessage`: the head of the inbound queue, or the closed error, as
     * the `select` picks; with neither case ready the caller keeps waiting.
     */
    method ReadMessage(closeWins: bool) returns (r: Received<Message>)
      modifies this
      ensures match SelectCase(old(inbound) != [], isClosed, closeWins)
              case DataCase => r == Got(old(inbound)[0]) && inbound == old(inbound)[1..]
              case CloseCase => r == ClosedError && inbound == old(inbound)
              case Blocked => r == Waiting && inbound == old(inbound)
      ensures isClosed == old(isClosed) && transportCloses == old(transportCloses)
      ensures outbound == old(outbound) && wire == old(wire)
    {
      match SelectCase(inbound != [], isClosed, closeWins)
      case DataCase =>
        r := Got(inbound[0]);
        inbound := inbound[1..];
      case CloseCase =>
        r := ClosedError;
      case Blocked =>
        r := Waiting;
    }

    /**
     * `WriteMessage`: `Message{messageType, data}` joins the outbound queue,
     * unless the connection is closed and the `select` takes the close case.
     */
    method WriteMessage(messageType: int, data: seq<byte>, closeWins: bool) returns (err: bool)
      modifies this
      ensures err <==> isClosed && closeWins
      ensures outbound == if err then old(outbound) else old(outbound) + [Message(messageType, data)]
      ensures isClosed == old(isClosed) && transportCloses == old(transportCloses)
      ensures inbound == old(inbound) && wire == old(wire)
    {
      var msg := Message(messageType, data);
      match SelectCase(true, isClosed, closeWins)
      case DataCase =>
        outbound := outbound + [msg];
        err := false;
      case CloseCase =>
        err := true;
    }

    /**
     * `readLoop`: each message the transport delivers is queued as it came,
     * until the transport reports an error or the `select` takes the close
     * case; then the connection is closed. `closeWins` is the choice every
     * `select` with both cases ready makes.
     */
    method ReadLoop(arrivals: seq<Message>, closeWins: bool, registry: ConnTable)
      modifies this, registry
      ensures inbound == old(inbound) + if old(isClosed) && closeWins then [] else arrivals
      ensures isClosed && transportCloses == old(transportCloses) + 1
      ensures registry.conns == if old(isClosed) then old(registry.conns) else old(registry.conns) - {wsID}
      ensures outbound == old(outbound) && wire == old(wire)
    {
      var i := 0;
      while i < |arrivals|
        invariant i <= |arrivals|
        invariant inbound == old(inbound) + arrivals[..i]
        invariant old(isClosed) && closeWins ==> i == 0
        invariant outbound == old(outbound) && wire == old(wire)
        invariant isClosed == old(isClosed) && transportCloses == old(transportCloses)
        invariant registry.conns == old(registry.conns)
      {
        var req := Message(arrivals[i].messageType, arrivals[i].data);
        match SelectCase(true, isClosed, closeWins) {
        case DataCase =>
          inbound := inbound + [req];
        case CloseCase =>
          break;
        }
        i := i + 1;
      }
      assert !(old(isClosed) && closeWins) ==> arrivals[..i] == arrivals;
      Close(registry);
    }

    /**
     * `processLoop`: take each inbound message and queue it for writing with
     * the same type and data, until `ReadMessage` or `WriteMessage` fails or
     * the inbound queue is empty and the loop waits. `closeWins` is the
     * choice every `select` with both cases ready makes.
     */
    method ProcessLoop(closeWins: bool)
      modifies this
      ensures isClosed && closeWins ==> inbound == old(inbound) && outbound == old(outbound)
      ensures !(isClosed && closeWins) ==> inbound == [] && outbound == old(outbound) + old(inbound)
      ensures isClosed == old(isClosed) && transportCloses == old(transportCloses) && wire == old(wire)
    {
      ghost var start := inbound;
      ghost var k := 0;
      while true
        invariant isClosed == old(isClosed) && transportCloses == old(transportCloses) && wire == old(wire)
        invariant isClosed && closeWins ==> k == 0
        invariant k <= |start|
        invariant inbound == start[k..]
        invariant outbound == old(outbound) + start[..k]
        decreases |start| - k
      {
        var r := ReadMessage(closeWins);
        if !r.Got? {
          return;
        }
        var msg := r.value;
        var err := WriteMessage(msg.messageType, msg.data, closeWins);
        if err {
          return;
        }
        assert msg == start[k];
        assert start[..k + 1] == start[..k] + [msg];
        assert start[k..][1..] == start[k + 1..];
        k := k + 1;
      }
    }

    /**
     * One wake-up of `writeLoop`: a queued message goes to the transport as
     * it is, a ticker wake-up sends a ping; when the loop leaves, the
     * connection is closed.
     */
    method WriteStep(e: WriterEvent, registry: ConnTable) returns (stop: bool)
      modifies this, registry
      ensures var s := WriterStep(old(outbound), old(isClosed), e, AsSent, Ping, old(wire));
              && outbound == s.queue && wire == s.written && stop == s.stopped
      ensures e == Dequeue(true) && old(outbound) != [] ==>
                && wire == old(wire) + [old(outbound)[0]] && outbound == old(outbound)[1..] && !stop
      ensures e == Tick(true) ==> wire == old(wire) + [Message(PingMessage, [])] && outbound == old(outbound) && !stop
      ensures stop ==> isClosed && transportCloses == old(transportCloses) + 1
                       && registry.conns == if old(isClosed) then old(registry.conns) else old(registry.conns) - {wsID}
      ensures !stop ==> isClosed == old(isClosed) && transportCloses == old(transportCloses)
                        && registry.conns == old(registry.conns)
      ensures inbound == old(inbound)
    {
      stop := false;
      match e {
      case Dequeue(ok) =>
        if outbound != [] {
          var msg := outbound[0];
          outbound := outbound[1..];
          if ok {
            wire := wire + [AsSent(msg)];
          } else {
            stop := true;
          }
        }
      case Tick(ok) =>
        if ok {
          wire := wire + [Ping];
        } else {
          stop := true;
        }
      case CloseNotice =>
        stop := isClosed;
      }
      if stop {
        Close(registry);
      }
    }

    /** `writeLoop` driven by `events`, until it leaves. */
    method WriteLoop(events: seq<WriterEvent>, registry: ConnTable)
      modifies this, registry
      ensures var run := RunWriter(old(outbound), old(isClosed), events, AsSent, Ping, old(wire));
              && outbound == run.queue && wire == run.written
              && (run.stopped ==> isClosed && transportCloses == old(transportCloses) + 1
                                  && registry.conns == if old(isClosed) then old(registry.conns) else old(registry.conns) - {wsID})
              && (!run.stopped ==> isClosed == old(isClosed) && transportCloses == old(transportCloses)
                                   && registry.conns == old(registry.conns))
      ensures inbound == old(inbound)
    {
      ghost var run := RunWriter(outbound, isClosed, events, AsSent, Ping, wire);
      var i := 0;
      while i < |events|
        invariant i <= |events|
        invariant RunWriter(outbound, isClosed, events[i..], AsSent, Ping, wire) == run
        invariant inbound == old(inbound)
        invariant isClosed == old(isClosed) && transportCloses == old(transportCloses)
        invariant registry.conns == old(registry.conns)
      {
        assert events[i..][0] == events[i] && events[i..][1..] == events[i + 1..];
        var stop := WriteStep(events[i], registry);
        if stop {
          return;
        }
        i := i + 1;
      }
    }
  }
}
