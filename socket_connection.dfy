/**
 * One TCP connection of core/socket/connection.go: its queues, its
 * close-once state machine and its read and write loops.
 */
module SocketConnection {
  import opened Codec
  import opened Channels
  import opened Registry

  /** What the write loop sends, unframed, on every ticker wake-up: "time out leave out". */
  const KeepAlive: seq<byte> :=
    [0x74, 0x69, 0x6d, 0x65, 0x20, 0x6f, 0x75, 0x74, 0x20,
     0x6c, 0x65, 0x61, 0x76, 0x65, 0x20, 0x6f, 0x75, 0x74]

  /**
   * The items the read loop pushes onto the inbound queue for the buffers the
   * transport hands it, one `unpackLoop` per buffer, stopping at the first
   * buffer whose decoding panics.
   */
  function UnpackAll(chunks: seq<seq<byte>>): (r: Unpacked)
    decreases |chunks|
  {
    if chunks == [] then Emitted([])
    else
      var before := UnpackAll(chunks[..|chunks| - 1]);
      if before.SlicePanic? then before
      else
        match Unpack(chunks[|chunks| - 1])
        case Emitted(items) => Emitted(before.items + items)
        case SlicePanic(items) => SlicePanic(before.items + items)
  }

  /** One frame per payload, each to be handed over by a read of its own. */
  function PacketEach(messages: seq<seq<byte>>): (chunks: seq<seq<byte>>)
    ensures |chunks| == |messages|
    ensures forall k :: 0 <= k < |messages| ==> chunks[k] == Packet(messages[k])
  {
    if messages == [] then [] else [Packet(messages[0])] + PacketEach(messages[1..])
  }

  /** Reads that each carry exactly one frame deliver the payloads in order. */
  lemma {:induction false} UnpackAllOneFramePerRead(messages: seq<seq<byte>>)
    requires forall k :: 0 <= k < |messages| ==> |messages[k]| + FrameOverhead <= MaxMessageSize
    ensures UnpackAll(PacketEach(messages)) == Emitted(messages)
    decreases |messages|
  {
    if messages != [] {
      var chunks := PacketEach(messages);
      var n := |messages| - 1;
      var init := messages[..n];
      assert chunks[..n] == PacketEach(init);
      UnpackAllOneFramePerRead(init);
      UnpackPacket(messages[n]);
      SplitLast(messages);
    }
  }

  /**
   * Frames are not reassembled across reads: a frame whose bytes arrive in
   * two reads of fewer than ten bytes each is pushed as the two raw pieces,
   * never as its payload.
   */
  lemma SplitFrameNotReassembled(message: seq<byte>, cut: nat)
    requires |message| < cut < FrameOverhead
    ensures var frame := Packet(message);
            UnpackAll([frame[..cut], frame[cut..]]) == Emitted([frame[..cut], frame[cut..]])
  {
    var frame := Packet(message);
    var pieces: seq<seq<byte>> := [frame[..cut], frame[cut..]];
    assert pieces[..1] == [frame[..cut]];
    assert UnpackAll(pieces[..1]) == Emitted([frame[..cut]]) by {
      assert [] + [frame[..cut]] == [frame[..cut]];
    }
    assert [frame[..cut]] + [frame[cut..]] == pieces;
  }

  /** The keep-alive holds no tag, so this decoder, applied to the keep-alive, pushes it as one raw item. */
  lemma KeepAliveArrivesRaw()
    ensures Unpack(KeepAlive) == Emitted([KeepAlive])
  {
    forall j: nat | j + FrameOverhead <= |KeepAlive|
      ensures !TagAt(KeepAlive, j)
    {
      assert KeepAlive[j..j + HeaderLength][0] != Header[0];
    }
    UnpackWithoutTag(KeepAlive);
  }

  /**
   * `conn.socketConn.Read(databuf)`: a read of `chunk` overwrites the first
   * bytes of the one buffer the read loop allocates, and leaves the rest.
   */
  function ReadInto(databuf: seq<byte>, chunk: seq<byte>): (r: seq<byte>)
    requires |chunk| <= |databuf|
    ensures |r| == |databuf|
    ensures r[..|chunk|] == chunk && r[|chunk|..] == databuf[|chunk|..]
  {
    chunk + databuf[|chunk|..]
  }

  /** The read buffer after some reads, and the slices of it queued on `inChan`. */
  datatype SharedReads = SharedReads(databuf: seq<byte>, queued: seq<View>, panicked: bool)

  /**
   * `readLoop` as written: every read goes into the same buffer, and
   * `unpackLoop` queues slices of it, not copies. `queued` are the slices
   * queued before the reads in `chunks`.
   */
  function ReadAllShared(databuf: seq<byte>, chunks: seq<seq<byte>>, queued: seq<View>): (r: SharedReads)
    requires Within(queued, |databuf|)
    requires forall k :: 0 <= k < |chunks| ==> |chunks[k]| <= |databuf|
    ensures |r.databuf| == |databuf| && Within(r.queued, |r.databuf|)
    decreases |chunks|
  {
    if chunks == [] then SharedReads(databuf, queued, false)
    else
      var buffer := ReadInto(databuf, chunks[0]);
      var pushed := UnpackViews(chunks[0]);
      assert Within(queued + pushed.views, |buffer|);
      if pushed.panicked then SharedReads(buffer, queued + pushed.views, true)
      else ReadAllShared(buffer, chunks[1..], queued + pushed.views)
  }

  /** A read holding one frame queues the one slice after the frame head. */
  lemma ReadSharedPacket(databuf: seq<byte>, message: seq<byte>, rest: seq<seq<byte>>, queued: seq<View>)
    requires |databuf| == MaxMessageSize && |message| + FrameOverhead <= MaxMessageSize
    requires Within(queued, |databuf|)
    requires forall k :: 0 <= k < |rest| ==> |rest[k]| <= |databuf|
    ensures var buffer := ReadInto(databuf, Packet(message));
            var slice := View(FrameOverhead, FrameOverhead + |message|);
            && Within(queued + [slice], |buffer|)
            && ReadAllShared(databuf, [Packet(message)] + rest, queued) == ReadAllShared(buffer, rest, queued + [slice])
  {
    UnpackViewsPacket(message);
    assert ([Packet(message)] + rest)[1..] == rest;
  }

  /**
   * The slices queue up before the handler reads them: two reads, each
   * holding one frame, are both dequeued as the payload of the second read,
   * where copies taken at push time hold the two payloads in order.
   */
  lemma SharedBufferOverwritesQueuedPayload(databuf: seq<byte>)
    requires |databuf| == MaxMessageSize
    ensures var ab: seq<byte> := [0x61, 0x62];
            var xy: seq<byte> := [0x78, 0x79];
            var r := ReadAllShared(databuf, [Packet(ab), Packet(xy)], []);
            && !r.panicked
            && Observe(r.databuf, r.queued) == [xy, xy]
            && UnpackAll([Packet(ab), Packet(xy)]) == Emitted([ab, xy])
  {
    var ab: seq<byte> := [0x61, 0x62];
    var xy: seq<byte> := [0x78, 0x79];
    var slice := View(FrameOverhead, FrameOverhead + 2);
    var first := ReadInto(databuf, Packet(ab));
    var second := ReadInto(first, Packet(xy));
    assert [Packet(ab), Packet(xy)] == [Packet(ab)] + [Packet(xy)];
    ReadSharedPacket(databuf, ab, [Packet(xy)], []);
    assert [Packet(xy)] == [Packet(xy)] + [];
    ReadSharedPacket(first, xy, [], [] + [slice]);
    assert [] + [slice] + [slice] == [slice, slice];
    assert ReadAllShared(databuf, [Packet(ab), Packet(xy)], []) == SharedReads(second, [slice, slice], false);
    assert second[FrameOverhead..FrameOverhead + 2] == Packet(xy)[FrameOverhead..] == xy;
    assert PacketEach([ab, xy]) == [Packet(ab), Packet(xy)];
    UnpackAllOneFramePerRead([ab, xy]);
  }

  /** `SConnection`. The transport is represented by what it was asked to do. */
  class SConnection {
    /** The id the connection is registered under. */
    const sid: ConnId
    /** The peer's network address. */
    const addr: string
    /** Set by the first `Close`; `closeChan` is closed exactly when it is set. */
    var isClosed: bool
    /** How many times the transport has been closed. */
    var transportCloses: nat
    /** `inChan`: payloads decoded by the read loop, head first. */
    var inbound: seq<seq<byte>>
    /** `outChan`: payloads waiting for the write loop, head first. */
    var outbound: seq<seq<byte>>
    /** The writes the transport accepted, in order. */
    var wire: seq<seq<byte>>

    /** `InitConnection`: an open connection with empty queues. */
    constructor (connId: ConnId, connAddr: string)
      ensures sid == connId && addr == connAddr
      ensures !isClosed && transportCloses == 0
      ensures inbound == [] && outbound == [] && wire == []
    {
      sid := connId;
      addr := connAddr;
      isClosed := false;
      transportCloses := 0;
      inbound := [];
      outbound := [];
      wire := [];
    }

    /**
     * `Close`: the transport is closed on every call; only the first call
     * sets `isClosed` and removes the connection from the registry.
     */
    method Close(registry: ConnTable)
      modifies this, registry
      ensures transportCloses == old(transportCloses) + 1
      ensures isClosed
      ensures registry.conns == if old(isClosed) then old(registry.conns) else old(registry.conns) - {sid}
      ensures inbound == old(inbound) && outbound == old(outbound) && wire == old(wire)
    {
      transportCloses := transportCloses + 1;
      if !isClosed {
        registry.conns := registry.conns - {sid};
        isClosed := true;
      }
    }

    /**
     * `ReadMessage`: the head of the inbound queue, or the closed error, as
     * the `select` picks; with neither case ready the caller keeps waiting.
     */
    method ReadMessage(closeWins: bool) returns (r: Received<seq<byte>>)
      modifies this
      ensures match SelectCase(old(inbound) != [], isClosed, closeWins)
              case DataCase => r == Got(old(inbound)[0]) && inbound == old(inbound)[1..]
              case CloseCase => r == ClosedError && inbound == old(inbound)
              case Blocked => r == Waiting && inbound == old(inbound)
      ensures isClosed == old(isClosed) && transportCloses == old(transportCloses)
      ensures outbound == old(outbound) && wire == old(wire)
    {
      match SelectCase(inbound != [], isClosed, closeWins)
      case DataCase =>
        r := Got(inbound[0]);
        inbound := inbound[1..];
      case CloseCase =>
        r := ClosedError;
      case Blocked =>
        r := Waiting;
    }

    /**
     * `WriteMessage`: `data` joins the outbound queue unchanged, unless the
     * connection is closed and the `select` takes the close case.
     */
    method WriteMessage(data: seq<byte>, closeWins: bool) returns (err: bool)
      modifies this
      ensures err <==> isClosed && closeWins
      ensures outbound == if err then old(outbound) else old(outbound) + [data]
      ensures isClosed == old(isClosed) && transportCloses == old(transportCloses)
      ensures inbound == old(inbound) && wire == old(wire)
    {
      match SelectCase(true, isClosed, closeWins)
      case DataCase =>
        outbound := outbound + [data];
        err := false;
      case CloseCase =>
        err := true;
    }

    /**
     * One push of `unpackLoop`: `item` joins the inbound queue, unless the
     * connection is closed and the `select` takes the close case, in which
     * case the item is dropped and `Close` is called again.
     */
    method Push(item: seq<byte>, closeWins: bool, registry: ConnTable)
      modifies this, registry
      ensures inbound == if isClosed && closeWins then old(inbound) else old(inbound) + [item]
      ensures transportCloses == old(transportCloses) + if isClosed && closeWins then 1 else 0
      ensures isClosed == old(isClosed) && registry.conns == old(registry.conns)
      ensures outbound == old(outbound) && wire == old(wire)
    {
      match SelectCase(true, isClosed, closeWins)
      case DataCase =>
        inbound := inbound + [item];
      case CloseCase =>
        Close(registry);
    }

    /** The pushes of one `unpackLoop` call, in order. */
    method PushAll(items: seq<seq<byte>>, closeWins: bool, registry: ConnTable)
      modifies this, registry
      ensures inbound == old(inbound) + if isClosed && closeWins then [] else items
      ensures transportCloses == old(transportCloses) + if isClosed && closeWins then |items| else 0
      ensures isClosed == old(isClosed) && registry.conns == old(registry.conns)
      ensures outbound == old(outbound) && wire == old(wire)
    {
      var i := 0;
      while i < |items|
        invariant i <= |items|
        invariant inbound == old(inbound) + if isClosed && closeWins then [] else items[..i]
        invariant transportCloses == old(transportCloses) + if isClosed && closeWins then i else 0
        invariant isClosed == old(isClosed) && registry.conns == old(registry.conns)
        invariant outbound == old(outbound) && wire == old(wire)
      {
        assert items[..i + 1] == items[..i] + [items[i]];
        Push(items[i], closeWins, registry);
        i := i + 1;
      }
      assert items[..i] == items;
    }

    /** One `unpackLoop` call of `readLoop`: decode `chunk` and push its items. */
    method ReadChunk(chunk: seq<byte>, closeWins: bool, registry: ConnTable) returns (panicked: bool)
      modifies this, registry
      ensures panicked <==> Unpack(chunk).SlicePanic?
      ensures inbound == old(inbound) + if isClosed && closeWins then [] else Unpack(chunk).items
      ensures transportCloses == old(transportCloses) + if isClosed && closeWins then |Unpack(chunk).items| else 0
      ensures isClosed == old(isClosed) && registry.conns == old(registry.conns)
      ensures outbound == old(outbound) && wire == old(wire)
    {
      var r := UnpackLoop(chunk);
      PushAll(r.items, closeWins, registry);
      panicked := r.SlicePanic?;
    }

    /**
     * `readLoop`: decode each buffer the transport hands over (at most
     * 10240 bytes, the size of the read buffer) and push its items; when the
     * transport reports an error, close. A panic in `unpackLoop` ends the
     * loop without closing. `closeWins` is the choice every push's `select`
     * makes when the connection is already closed: then every item is
     * dropped and each drop closes the transport once more.
     */
    method ReadLoop(chunks: seq<seq<byte>>, closeWins: bool, registry: ConnTable) returns (panicked: bool)
      requires forall k :: 0 <= k < |chunks| ==> |chunks[k]| <= MaxMessageSize
      modifies this, registry
      ensures panicked <==> UnpackAll(chunks).SlicePanic?
      ensures inbound == old(inbound) + if old(isClosed) && closeWins then [] else UnpackAll(chunks).items
      ensures transportCloses == old(transportCloses) + (if old(isClosed) && closeWins then |UnpackAll(chunks).items| else 0)
                                                      + (if panicked then 0 else 1)
      ensures outbound == old(outbound) && wire == old(wire)
      ensures panicked ==> isClosed == old(isClosed) && registry.conns == old(registry.conns)
      ensures !panicked ==> isClosed && registry.conns == if old(isClosed) then old(registry.conns) else old(registry.conns) - {sid}
    {
      ghost var dropped := isClosed && closeWins;
      ghost var seen: seq<seq<byte>> := [];
      var i := 0;
      while i < |chunks|
        invariant i <= |chunks|
        invariant UnpackAll(chunks[..i]) == Emitted(seen)
        invariant dropped ==> inbound == old(inbound) && transportCloses == old(transportCloses) + |seen|
        invariant !dropped ==> inbound == old(inbound) + seen && transportCloses == old(transportCloses)
        invariant outbound == old(outbound) && wire == old(wire)
        invariant isClosed == old(isClosed) && registry.conns == old(registry.conns)
      {
        UnpackAllSnoc(chunks, i);
        var p := ReadChunk(chunks[i], closeWins, registry);
        if p {
          UnpackAllStopsAtPanic(chunks, i);
          return true;
        }
        seen := seen + Unpack(chunks[i]).items;
        i := i + 1;
      }
      assert chunks[..i] == chunks;
      Close(registry);
      return false;
    }

    /**
     * One wake-up of `writeLoop`: a queued payload goes out framed by
     * `packetLoop`, a ticker wake-up sends the keep-alive unframed; when the
     * loop leaves, the connection is closed.
     */
    method WriteStep(e: WriterEvent, registry: ConnTable) returns (stop: bool)
      modifies this, registry
      ensures var s := WriterStep(old(outbound), old(isClosed), e, Packet, KeepAlive, old(wire));
              && outbound == s.queue && wire == s.written && stop == s.stopped
      ensures e == Dequeue(true) && old(outbound) != [] ==>
                && wire == old(wire) + [Packet(old(outbound)[0])] && outbound == old(outbound)[1..] && !stop
      ensures e == Tick(true) ==> wire == old(wire) + [KeepAlive] && outbound == old(outbound) && !stop
      ensures stop ==> isClosed && transportCloses == old(transportCloses) + 1
                       && registry.conns == if old(isClosed) then old(registry.conns) else old(registry.conns) - {sid}
      ensures !stop ==> isClosed == old(isClosed) && transportCloses == old(transportCloses)
                        && registry.conns == old(registry.conns)
      ensures inbound == old(inbound)
    {
      stop := false;
      match e {
      case Dequeue(ok) =>
        if outbound != [] {
          var data := outbound[0];
          outbound := outbound[1..];
          if ok {
            wire := wire + [Packet(data)];
          } else {
            stop := true;
          }
        }
      case Tick(ok) =>
        if ok {
          wire := wire + [KeepAlive];
        } else {
          stop := true;
        }
      case CloseNotice =>
        stop := isClosed;
      }
      if stop {
        Close(registry);
      }
    }

    /** `writeLoop` driven by `events`, until it leaves. */
    method WriteLoop(events: seq<WriterEvent>, registry: ConnTable)
      modifies this, registry
      ensures var run := RunWriter(old(outbound), old(isClosed), events, Packet, KeepAlive, old(wire));
              && outbound == run.queue && wire == run.written
              && (run.stopped ==> isClosed && transportCloses == old(transportCloses) + 1
                                  && registry.conns == if old(isClosed) then old(registry.conns) else old(registry.conns) - {sid})
              && (!run.stopped ==> isClosed == old(isClosed) && transportCloses == old(transportCloses)
                                   && registry.conns == old(registry.conns))
      ensures inbound == old(inbound)
    {
      ghost var run := RunWriter(outbound, isClosed, events, Packet, KeepAlive, wire);
      var i := 0;
      while i < |events|
        invariant i <= |events|
        invariant RunWriter(outbound, isClosed, events[i..], Packet, KeepAlive, wire) == run
        invariant inbound == old(inbound)
        invariant isClosed == old(isClosed) && transportCloses == old(transportCloses)
        invariant registry.conns == old(registry.conns)
      {
        assert events[i..][0] == events[i] && events[i..][1..] == events[i + 1..];
        var stop := WriteStep(events[i], registry);
        if stop {
          return;
        }
        i := i + 1;
      }
    }
  }

  /** Past a prefix that did not panic, one more buffer adds its own items and outcome. */
  lemma UnpackAllSnoc(chunks: seq<seq<byte>>, i: nat)
    requires i < |chunks| && UnpackAll(chunks[..i]).Emitted?
    ensures UnpackAll(chunks[..i + 1]).items == UnpackAll(chunks[..i]).items + Unpack(chunks[i]).items
    ensures UnpackAll(chunks[..i + 1]).SlicePanic? <==> Unpack(chunks[i]).SlicePanic?
  {
    assert chunks[..i + 1][..i] == chunks[..i];
  }

  /** `UnpackAll` of a prefix that ends in a panicking buffer is that prefix's outcome for the whole run. */
  lemma {:induction false} UnpackAllStopsAtPanic(chunks: seq<seq<byte>>, i: nat)
    requires i < |chunks|
    requires UnpackAll(chunks[..i]).Emitted? && Unpack(chunks[i]).SlicePanic?
    ensures UnpackAll(chunks) == SlicePanic(UnpackAll(chunks[..i]).items + Unpack(chunks[i]).items)
    decreases |chunks|
  {
    assert chunks[..i + 1][..i] == chunks[..i];
    if i + 1 < |chunks| {
      var n := |chunks| - 1;
      assert chunks[..n][..i] == chunks[..i] && chunks[..n][i] == chunks[i];
      UnpackAllStopsAtPanic(chunks[..n], i);
    } else {
      assert chunks[..i + 1] == chunks;
    }
  }
}
