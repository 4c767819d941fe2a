/**
 * The Go channel operations both connection types are built from, as
 * sequential steps. A queue is a `seq` (head first); the capacity of the
 * Go channel (4096) is not modelled, so a send on a queue is always ready.
 * A connection's `closeChan` is closed exactly when its `isClosed` flag is set,
 * so "the close case is ready" is "the connection is closed".
 */
module Channels {

  /** Which case a two-case `select` runs. */
  datatype Choice = DataCase | CloseCase | Blocked

  /**
   * A `select` between a data case and a receive from `closeChan`: a single
   * ready case runs; with both ready Go picks one at random, here told by
   * `closeWins`; with neither ready the goroutine blocks.
   */
  function SelectCase(dataReady: bool, closed: bool, closeWins: bool): (c: Choice)
    ensures c == Blocked <==> !dataReady && !closed
    ensures c == DataCase ==> dataReady
    ensures c == CloseCase ==> closed
    ensures dataReady && closed ==> (c == CloseCase <==> closeWins)
  {
    if dataReady && (!closed || !closeWins) then DataCase
    else if closed then CloseCase
    else Blocked
  }

  /** What a `ReadMessage` call returns: a value, the "connection is closed" error, or nothing yet. */
  datatype Received<T> = Got(value: T) | ClosedError | Waiting

  /**
   * One wake-up of a `writeLoop`: the queue case with the transport's answer
   * to the write, the ticker case with the transport's answer to the
   * keep-alive write, or the `closeChan` case.
   */
  datatype WriterEvent = Dequeue(writeOk: bool) | Tick(writeOk: bool) | CloseNotice

  /**
   * Where a `writeLoop` stands after a run of events: the queue left, the
   * writes the transport accepted in order, and whether the loop has left
   * (it then closes its connection).
   */
  datatype WriterRun<T, W> = WriterRun(queue: seq<T>, written: seq<W>, stopped: bool)

  /** The transport accepted the write of this wake-up, if it made one. */
  predicate WriteAccepted(e: WriterEvent)
  {
    match e
    case Dequeue(ok) => ok
    case Tick(ok) => ok
    case CloseNotice => true
  }

  /**
   * One wake-up of `writeLoop`, after the transport has accepted `written`.
   * A `Dequeue` takes the head of the queue and hands `frame(head)` to the
   * transport; a `Tick` hands it `ping`; a failed write, or a `CloseNotice`
   * on a closed connection, ends the loop. An event whose case is not ready
   * (a `Dequeue` on an empty queue, a `CloseNotice` while open) changes nothing.
   */
  function WriterStep<T, W>(queue: seq<T>, closed: bool, e: WriterEvent, frame: T -> W, ping: W,
                            written: seq<W>): (r: WriterRun<T, W>)
    ensures r.queue == queue || (queue != [] && r.queue == queue[1..])
    ensures r.written == written || (WriteAccepted(e) && |r.written| == |written| + 1 && r.written[..|written|] == written)
    ensures r.stopped <==> (!WriteAccepted(e) && (queue != [] || e.Tick?)) || (e.CloseNotice? && closed)
  {
    match e
    case Dequeue(ok) =>
      if queue == [] then WriterRun(queue, written, false)
      else if !ok then WriterRun(queue[1..], written, true)
      else WriterRun(queue[1..], written + [frame(queue[0])], false)
    case Tick(ok) =>
      if !ok then WriterRun(queue, written, true)
      else WriterRun(queue, written + [ping], false)
    case CloseNotice =>
      WriterRun(queue, written, closed)
  }

  /** `writeLoop` driven by `events`, one wake-up after the other, until it leaves. */
  function RunWriter<T, W>(queue: seq<T>, closed: bool, events: seq<WriterEvent>, frame: T -> W, ping: W,
                           written: seq<W>): (r: WriterRun<T, W>)
    ensures |r.queue| <= |queue| && r.queue == queue[|queue| - |r.queue|..]
    decreases |events|
  {
    if events == [] then WriterRun(queue, written, false)
    else
      var s := WriterStep(queue, closed, events[0], frame, ping, written);
      if s.stopped then s else RunWriter(s.queue, closed, events[1..], frame, ping, s.written)
  }

  /** Writes once accepted stay accepted: the run only appends to `written`. */
  lemma {:induction false} RunWriterKeepsWritten<T, W>(queue: seq<T>, closed: bool, events: seq<WriterEvent>, frame: T -> W, ping: W,
                                                       written: seq<W>)
    ensures var r := RunWriter(queue, closed, events, frame, ping, written);
            |written| <= |r.written| && r.written[..|written|] == written
    decreases |events|
  {
    if events != [] {
      var s := WriterStep(queue, closed, events[0], frame, ping, written);
      if !s.stopped {
        RunWriterKeepsWritten(s.queue, closed, events[1..], frame, ping, s.written);
        var r := RunWriter(queue, closed, events, frame, ping, written);
        assert r.written[..|s.written|][..|written|] == r.written[..|written|];
      }
    }
  }

  /** `n` successful queue wake-ups in a row. */
  function Deliveries(n: nat): (events: seq<WriterEvent>)
    ensures |events| == n && forall k :: 0 <= k < n ==> events[k] == Dequeue(true)
  {
    if n == 0 then [] else [Dequeue(true)] + Deliveries(n - 1)
  }

  /**
   * FIFO: `n` successful wake-ups with at least `n` items queued write the
   * first `n` items, framed, in queue order, and leave the rest queued.
   */
  lemma {:induction false} RunWriterDeliversInOrder<T, W>(queue: seq<T>, closed: bool, n: nat, frame: T -> W, ping: W,
                                                          written: seq<W>)
    requires n <= |queue|
    ensures var r := RunWriter(queue, closed, Deliveries(n), frame, ping, written);
            && !r.stopped
            && r.queue == queue[n..]
            && |r.written| == |written| + n
            && forall k :: 0 <= k < n ==> r.written[|written| + k] == frame(queue[k])
  {
    if n > 0 {
      var events := Deliveries(n);
      assert events[0] == Dequeue(true);
      assert events[1..] == Deliveries(n - 1);
      var next := written + [frame(queue[0])];
      RunWriterDeliversInOrder(queue[1..], closed, n - 1, frame, ping, next);
      assert queue[1..][n - 1..] == queue[n..];
      var r := RunWriter(queue, closed, Deliveries(n), frame, ping, written);
      forall k | 0 <= k < n
        ensures r.written[|written| + k] == frame(queue[k])
      {
        if k == 0 {
          RunWriterKeepsWritten(queue[1..], closed, events[1..], frame, ping, next);
          assert r.written[..|next|] == next;
          assert r.written[|written|] == next[|written|];
        } else {
          assert r.written[|next| + (k - 1)] == frame(queue[1..][k - 1]);
        }
      }
    }
  }

  /** The loop leaves only through a failed write or a close notice on a closed connection. */
  lemma {:induction false} RunWriterStopsOnlyOnFailure<T, W>(queue: seq<T>, closed: bool, events: seq<WriterEvent>, frame: T -> W, ping: W,
                                                             written: seq<W>)
    requires forall k :: 0 <= k < |events| ==> WriteAccepted(events[k])
    requires !closed
    ensures !RunWriter(queue, closed, events, frame, ping, written).stopped
    decreases |events|
  {
    if events != [] {
      var rest := events[1..];
      assert WriteAccepted(events[0]);
      assert forall k :: 0 <= k < |rest| ==> rest[k] == events[k + 1];
      var s := WriterStep(queue, closed, events[0], frame, ping, written);
      RunWriterStopsOnlyOnFailure(s.queue, closed, rest, frame, ping, s.written);
    }
  }
}
