/**
 * The TCP wire codec of core/socket/connection.go.
 *
 * A frame is the 6-byte ASCII tag "cmdmgt", the payload length as a 4-byte
 * big-endian two's-complement int32, and the payload. Decoding is done per
 * transport read: one read buffer is scanned on its own and split into the
 * items pushed onto the connection's inbound queue. No bytes are carried over
 * from one read to the next.
 */
module Codec {

  type byte = x: int | 0 <= x < 256

  /** Largest buffer `unpackLoop` accepts; also the size of the read buffer. */
  const MaxMessageSize := 10240

  /** The tag "cmdmgt" as ASCII codes. */
  const Header: seq<byte> := [0x63, 0x6d, 0x64, 0x6d, 0x67, 0x74]
  const HeaderLength := 6
  /** Bytes taken by the length field. */
  const LengthFieldSize := 4
  /** Tag plus length field: the smallest frame. */
  const FrameOverhead := 10

  const TwoTo31 := 0x8000_0000
  const TwoTo32 := 0x1_0000_0000

  predicate IsInt32(n: int) {
    -TwoTo31 <= n < TwoTo31
  }

  /** Go's conversion `int32(n)`: keep the low 32 bits and read them as two's complement. */
  function ToInt32(n: int): (r: int)
    ensures IsInt32(r)
    ensures (n - r) % TwoTo32 == 0
    ensures IsInt32(n) ==> r == n
  {
    var u := n % TwoTo32;
    if u < TwoTo31 then u else u - TwoTo32
  }

  /** The unsigned value of four bytes read most significant first. */
  function BigEndian(b: seq<byte>): nat
    requires |b| == 4
  {
    (b[0] as int) * 0x100_0000 + (b[1] as int) * 0x1_0000 + (b[2] as int) * 0x100 + b[3]
  }

  /** The 32-bit pattern of a two's-complement int32. */
  function Unsigned32(x: int): nat
    requires IsInt32(x)
  {
    if x < 0 then x + TwoTo32 else x
  }

  /** Four big-endian bytes whose value is `u`. */
  function Digits(u: nat): (b: seq<byte>)
    requires u < TwoTo32
    ensures |b| == 4 && BigEndian(b) == u
  {
    var b0, r0 := u / 0x100_0000, u % 0x100_0000;
    var b1, r1 := r0 / 0x1_0000, r0 % 0x1_0000;
    var b2, b3 := r1 / 0x100, r1 % 0x100;
    [b0, b1, b2, b3]
  }

  /** `IntToBytes`: `binary.Write` of `int32(length)` in big-endian order. */
  function IntToBytes(length: int): (r: seq<byte>)
    ensures |r| == LengthFieldSize
    ensures BigEndian(r) == Unsigned32(ToInt32(length))
  {
    Digits(Unsigned32(ToInt32(length)))
  }

  /**
   * `BytesToInt`: `binary.Read` of a big-endian int32 from the first four
   * bytes. With fewer than four bytes the read fails and the zero value is
   * returned.
   */
  function BytesToInt(data: seq<byte>): (r: int)
    ensures IsInt32(r)
    ensures |data| < LengthFieldSize ==> r == 0
  {
    if |data| < LengthFieldSize then 0
    else
      var u := BigEndian(data[..LengthFieldSize]);
      if u < TwoTo31 then u else u - TwoTo32
  }

  /** The int32 read from four or more bytes has their big-endian value as its bit pattern. */
  lemma BytesToIntValue(data: seq<byte>)
    requires |data| >= LengthFieldSize
    ensures Unsigned32(BytesToInt(data)) == BigEndian(data[..LengthFieldSize])
  {
  }

  /** Four bytes are determined by their big-endian value. */
  lemma BigEndianInjective(a: seq<byte>, b: seq<byte>)
    requires |a| == 4 && |b| == 4
    requires BigEndian(a) == BigEndian(b)
    ensures a == b
  {
    var ra := (a[1] as int) * 0x1_0000 + (a[2] as int) * 0x100 + a[3];
    var rb := (b[1] as int) * 0x1_0000 + (b[2] as int) * 0x100 + b[3];
    assert a[0] == b[0] by {
      assert ra < 0x100_0000 && rb < 0x100_0000;
    }
    assert a[1] == b[1] by {
      assert (a[2] as int) * 0x100 + a[3] < 0x1_0000 && (b[2] as int) * 0x100 + b[3] < 0x1_0000;
    }
  }

  /** Decoding an encoded length gives back `int32(n)`; for an int32 `n`, `n` itself. */
  lemma BytesToIntOfIntToBytes(n: int)
    ensures BytesToInt(IntToBytes(n)) == ToInt32(n)
    ensures IsInt32(n) ==> BytesToInt(IntToBytes(n)) == n
  {
    var b := IntToBytes(n);
    assert b[..LengthFieldSize] == b;
    BytesToIntValue(b);
  }

  /** Encoding a decoded length gives back the four bytes it was read from. */
  lemma IntToBytesOfBytesToInt(b: seq<byte>)
    requires |b| == LengthFieldSize
    ensures IntToBytes(BytesToInt(b)) == b
  {
    assert b[..LengthFieldSize] == b;
    BytesToIntValue(b);
    BigEndianInjective(IntToBytes(BytesToInt(b)), b);
  }

  /** `packetLoop`: tag, then the length of `message`, then `message`. */
  function Packet(message: seq<byte>): (r: seq<byte>)
    ensures |r| == FrameOverhead + |message|
    ensures r[..HeaderLength] == Header
    ensures r[HeaderLength..FrameOverhead] == IntToBytes(|message|)
    ensures r[FrameOverhead..] == message
  {
    Header + IntToBytes(|message|) + message
  }

  /** The frames of several payloads sent back to back. */
  function Frames(messages: seq<seq<byte>>): (r: seq<byte>)
  {
    if messages == [] then [] else Packet(messages[0]) + Frames(messages[1..])
  }

  /** Why the scan of a buffer stopped. */
  datatype Stop =
    | Exhausted       // fewer than 10 bytes left after the scan position
    | Truncated       // a tag whose declared length runs past the buffer
    | NegativeLength  // a tag whose declared length is negative: the Go slice panics

  datatype Scan = Scan(frames: seq<seq<byte>>, stop: Stop)

  /**
   * The loop of `unpackLoop` on the part of the buffer from the scan position
   * on: slide one byte at a time looking for the tag; on a complete frame
   * take its payload and resume right after it.
   */
  function ScanRest(rest: seq<byte>): Scan
  {
    if |rest| < FrameOverhead then Scan([], Exhausted)
    else if rest[..HeaderLength] == Header then
      var messageLength := BytesToInt(rest[HeaderLength..FrameOverhead]);
      if |rest| < FrameOverhead + messageLength then Scan([], Truncated)
      else if messageLength < 0 then Scan([], NegativeLength)
      else
        var after := ScanRest(rest[FrameOverhead + messageLength..]);
        Scan([rest[FrameOverhead..FrameOverhead + messageLength]] + after.frames, after.stop)
    else ScanRest(rest[1..])
  }

  /**
   * The same scan as the index loop of `unpackLoop` runs it: from absolute
   * position `i` of the whole buffer, with the payloads `pushed` so far.
   */
  function ScanFrom(buffer: seq<byte>, i: nat, pushed: seq<seq<byte>>): Scan
    decreases |buffer| - i
  {
    if |buffer| < i + FrameOverhead then Scan(pushed, Exhausted)
    else if buffer[i..i + HeaderLength] == Header then
      var dataIndex := i + FrameOverhead;
      var messageLength := BytesToInt(buffer[i + HeaderLength..dataIndex]);
      if |buffer| < dataIndex + messageLength then Scan(pushed, Truncated)
      else if messageLength < 0 then Scan(pushed, NegativeLength)
      else ScanFrom(buffer, dataIndex + messageLength, pushed + [buffer[dataIndex..dataIndex + messageLength]])
    else ScanFrom(buffer, i + 1, pushed)
  }

  /**
   * What one call of `unpackLoop` pushes onto the inbound queue, in order.
   * `SlicePanic` carries the items pushed before the slice expression
   * panicked on a negative length.
   */
  datatype Unpacked = Emitted(items: seq<seq<byte>>) | SlicePanic(items: seq<seq<byte>>)

  /** `unpackLoop` as a function of the read buffer. */
  function Unpack(buffer: seq<byte>): (r: Unpacked)
    ensures |buffer| > MaxMessageSize ==> r == Emitted([])
    ensures |buffer| < FrameOverhead ==> r == Emitted([buffer])
  {
    if |buffer| > MaxMessageSize then Emitted([])
    else if |buffer| < FrameOverhead then Emitted([buffer])
    else
      var s := ScanFrom(buffer, 0, []);
      match s.stop
      case NegativeLength => SlicePanic(s.frames)
      case Truncated => Emitted(s.frames + [buffer])
      case Exhausted => if s.frames == [] then Emitted([buffer]) else Emitted(s.frames)
  }

  /**
   * `unpackLoop` as written: an index loop over the buffer that counts the
   * tags it finds in `index`, resets `index` to 0 on a truncated frame and
   * pushes the whole buffer when `index` is 0 at the end.
   */
  method UnpackLoop(buffer: seq<byte>) returns (r: Unpacked)
    ensures r == Unpack(buffer)
  {
    var length := |buffer|;
    if length > MaxMessageSize {
      return Emitted([]);
    }
    if length < FrameOverhead {
      return Emitted([buffer]);
    }
    var pushed: seq<seq<byte>> := [];
    var index := 0;
    var i := 0;
    while i < length
      invariant ScanFrom(buffer, i, pushed) == ScanFrom(buffer, 0, [])
      invariant index == |pushed|
      decreases length - i
    {
      if length < i + FrameOverhead {
        break;
      }
      if buffer[i..i + HeaderLength] == Header {
        index := index + 1;
        var dataIndex := i + FrameOverhead;
        var messageLength := BytesToInt(buffer[i + HeaderLength..dataIndex]);
        if length < dataIndex + messageLength {
          index := 0;
          break;
        }
        if messageLength < 0 {
          return SlicePanic(pushed);
        }
        pushed := pushed + [buffer[dataIndex..dataIndex + messageLength]];
        i := i + FrameOverhead + messageLength - 1;
      }
      i := i + 1;
    }
    if index == 0 {
      pushed := pushed + [buffer];
    }
    return Emitted(pushed);
  }

  lemma AppendAssociative<T>(a: seq<T>, b: seq<T>, c: seq<T>)
    ensures a + (b + c) == (a + b) + c
  {
  }

  /** A non-empty sequence is its front followed by its last element. */
  lemma SplitLast<T>(s: seq<T>)
    requires s != []
    ensures s == s[..|s| - 1] + [s[|s| - 1]]
  {
  }

  /** One step of the suffix scan of `buffer[i..]`, in positions of `buffer`. */
  lemma ScanRestStep(buffer: seq<byte>, i: nat)
    requires i + FrameOverhead <= |buffer|
    ensures buffer[i..i + HeaderLength] != Header ==> ScanRest(buffer[i..]) == ScanRest(buffer[i + 1..])
    ensures buffer[i..i + HeaderLength] == Header ==>
              var n := BytesToInt(buffer[i + HeaderLength..i + FrameOverhead]);
              ScanRest(buffer[i..]) ==
                if |buffer| < i + FrameOverhead + n then Scan([], Truncated)
                else if n < 0 then Scan([], NegativeLength)
                else
                  var after := ScanRest(buffer[i + FrameOverhead + n..]);
                  Scan([buffer[i + FrameOverhead..i + FrameOverhead + n]] + after.frames, after.stop)
  {
    var rest := buffer[i..];
    assert rest[..HeaderLength] == buffer[i..i + HeaderLength];
    assert rest[HeaderLength..FrameOverhead] == buffer[i + HeaderLength..i + FrameOverhead];
    assert rest[1..] == buffer[i + 1..];
    var n := BytesToInt(buffer[i + HeaderLength..i + FrameOverhead]);
    if 0 <= n && i + FrameOverhead + n <= |buffer| {
      assert rest[FrameOverhead..FrameOverhead + n] == buffer[i + FrameOverhead..i + FrameOverhead + n];
      assert rest[FrameOverhead + n..] == buffer[i + FrameOverhead + n..];
    }
  }

  /** The index scan from position `i` is the suffix scan of the buffer from `i` on. */
  lemma {:induction false} ScanFromIsScanRest(buffer: seq<byte>, i: nat, pushed: seq<seq<byte>>)
    requires i <= |buffer|
    ensures var rest := ScanRest(buffer[i..]);
            ScanFrom(buffer, i, pushed) == Scan(pushed + rest.frames, rest.stop)
    decreases |buffer| - i
  {
    if i + FrameOverhead <= |buffer| {
      ScanRestStep(buffer, i);
      if buffer[i..i + HeaderLength] == Header {
        var n := BytesToInt(buffer[i + HeaderLength..i + FrameOverhead]);
        if 0 <= n && i + FrameOverhead + n <= |buffer| {
          var j := i + FrameOverhead + n;
          var data := buffer[i + FrameOverhead..j];
          var after := ScanRest(buffer[j..]);
          assert ScanFrom(buffer, i, pushed) == ScanFrom(buffer, j, pushed + [data]);
          assert ScanRest(buffer[i..]) == Scan([data] + after.frames, after.stop);
          ScanFromIsScanRest(buffer, j, pushed + [data]);
          AppendAssociative(pushed, [data], after.frames);
        } else {
          assert pushed + [] == pushed;
        }
      } else {
        ScanFromIsScanRest(buffer, i + 1, pushed);
      }
    } else {
      assert pushed + [] == pushed;
    }
  }

  /** The scan `Unpack` runs over a whole buffer, as a suffix scan. */
  lemma ScanWhole(buffer: seq<byte>)
    ensures ScanFrom(buffer, 0, []) == ScanRest(buffer)
  {
    ScanFromIsScanRest(buffer, 0, []);
    assert buffer[0..] == buffer;
    assert [] + ScanRest(buffer).frames == ScanRest(buffer).frames;
  }

  /** The tag starts at position `j` of `buffer`. */
  predicate TagAt(buffer: seq<byte>, j: nat) {
    j + HeaderLength <= |buffer| && buffer[j..j + HeaderLength] == Header
  }

  /** Scanning a frame followed by anything takes the frame's payload and goes on after it. */
  lemma ScanPastFrame(message: seq<byte>, suffix: seq<byte>)
    requires |message| < TwoTo31
    ensures var after := ScanRest(suffix);
            ScanRest(Packet(message) + suffix) == Scan([message] + after.frames, after.stop)
  {
    var rest := Packet(message) + suffix;
    var frame := Packet(message);
    assert rest[..HeaderLength] == frame[..HeaderLength] == Header;
    assert rest[HeaderLength..FrameOverhead] == frame[HeaderLength..FrameOverhead];
    BytesToIntOfIntToBytes(|message|);
    assert rest[FrameOverhead..FrameOverhead + |message|] == frame[FrameOverhead..] == message;
    assert rest[FrameOverhead + |message|..] == suffix;
  }

  /**
   * Scanning a run of well-formed frames followed by anything yields their
   * payloads, in order, then whatever the scan finds after the run.
   */
  lemma {:induction false} ScanPastFrames(messages: seq<seq<byte>>, suffix: seq<byte>)
    requires |Frames(messages)| < TwoTo31
    ensures var after := ScanRest(suffix);
            ScanRest(Frames(messages) + suffix) == Scan(messages + after.frames, after.stop)
    decreases messages
  {
    var after := ScanRest(suffix);
    if messages == [] {
      assert Frames(messages) + suffix == suffix;
      assert messages + after.frames == after.frames;
    } else {
      var m, ms := messages[0], messages[1..];
      var rest := Frames(ms) + suffix;
      var middle := ScanRest(rest);
      assert ScanRest(Frames(messages) + suffix) == Scan([m] + middle.frames, middle.stop) by {
        AppendAssociative(Packet(m), Frames(ms), suffix);
        ScanPastFrame(m, rest);
      }
      assert middle == Scan(ms + after.frames, after.stop) by {
        ScanPastFrames(ms, suffix);
      }
      assert messages == [m] + ms;
      AppendAssociative([m], ms, after.frames);
    }
  }

  /**
   * Round trip: one read buffer holding the frames of `messages` (at least
   * one, at most 10240 bytes in all) is split into exactly `messages`, in order.
   */
  lemma UnpackFrames(messages: seq<seq<byte>>)
    requires messages != []
    requires |Frames(messages)| <= MaxMessageSize
    ensures Unpack(Frames(messages)) == Emitted(messages)
  {
    ScanPastFrames(messages, []);
    ScanWhole(Frames(messages));
    assert Frames(messages) + [] == Frames(messages);
    assert messages + [] == messages;
  }

  /** A single frame decodes to its payload. */
  lemma UnpackPacket(message: seq<byte>)
    requires |message| + FrameOverhead <= MaxMessageSize
    ensures Unpack(Packet(message)) == Emitted([message])
  {
    assert [message][1..] == [];
    assert Frames([message]) == Packet(message) + [] == Packet(message);
    UnpackFrames([message]);
  }

  /**
   * Frames followed by a tag whose declared length overruns the buffer: the
   * payloads of the complete frames are pushed, then the whole buffer again, raw.
   */
  lemma UnpackTruncatedFrame(messages: seq<seq<byte>>, declared: int, tail: seq<byte>)
    requires IsInt32(declared) && |tail| < declared
    requires |Frames(messages)| + FrameOverhead + |tail| <= MaxMessageSize
    ensures var buffer := Frames(messages) + Header + IntToBytes(declared) + tail;
            Unpack(buffer) == Emitted(messages + [buffer])
  {
    var broken := Header + IntToBytes(declared) + tail;
    assert Frames(messages) + Header + IntToBytes(declared) + tail == Frames(messages) + broken;
    ScanPastFrames(messages, broken);
    ScanWhole(Frames(messages) + broken);
    assert broken[..HeaderLength] == Header;
    assert broken[HeaderLength..FrameOverhead] == IntToBytes(declared);
    BytesToIntOfIntToBytes(declared);
    assert messages + [] == messages;
  }

  /**
   * Frames followed by a tag whose declared length is negative: the payloads
   * of the complete frames are pushed, then the slice of the next payload panics.
   */
  lemma UnpackNegativeLength(messages: seq<seq<byte>>, declared: int, tail: seq<byte>)
    requires IsInt32(declared) && declared < 0
    requires |Frames(messages)| + FrameOverhead + |tail| <= MaxMessageSize
    ensures Unpack(Frames(messages) + Header + IntToBytes(declared) + tail) == SlicePanic(messages)
  {
    var broken := Header + IntToBytes(declared) + tail;
    assert Frames(messages) + Header + IntToBytes(declared) + tail == Frames(messages) + broken;
    ScanPastFrames(messages, broken);
    ScanWhole(Frames(messages) + broken);
    assert broken[..HeaderLength] == Header;
    assert broken[HeaderLength..FrameOverhead] == IntToBytes(declared);
    BytesToIntOfIntToBytes(declared);
    assert messages + [] == messages;
  }

  /** A scan over positions that hold no tag finds nothing and runs to the end. */
  lemma {:induction false} ScanWithoutTag(rest: seq<byte>)
    requires forall j: nat :: j + FrameOverhead <= |rest| ==> !TagAt(rest, j)
    ensures ScanRest(rest) == Scan([], Exhausted)
    decreases |rest|
  {
    if FrameOverhead <= |rest| {
      assert !TagAt(rest, 0);
      assert rest[..HeaderLength] == rest[0..HeaderLength];
      forall j: nat | j + FrameOverhead <= |rest[1..]|
        ensures !TagAt(rest[1..], j)
      {
        assert !TagAt(rest, j + 1);
        assert rest[1..][j..j + HeaderLength] == rest[j + 1..j + 1 + HeaderLength];
      }
      ScanWithoutTag(rest[1..]);
    }
  }

  /**
   * A buffer of at most 10240 bytes in which the scan meets no tag is pushed
   * once, verbatim, as a single item.
   */
  lemma UnpackWithoutTag(buffer: seq<byte>)
    requires |buffer| <= MaxMessageSize
    requires forall j: nat :: j + FrameOverhead <= |buffer| ==> !TagAt(buffer, j)
    ensures Unpack(buffer) == Emitted([buffer])
  {
    ScanWithoutTag(buffer);
    ScanWhole(buffer);
  }

  /** Every payload the scan takes lies inside the buffer, after a 10-byte frame head. */
  lemma {:induction false} ScanFramesBounded(rest: seq<byte>)
    ensures forall k :: 0 <= k < |ScanRest(rest).frames| ==>
              |ScanRest(rest).frames[k]| + FrameOverhead <= |rest|
    decreases |rest|
  {
    if |rest| < FrameOverhead {
    } else if rest[..HeaderLength] == Header {
      var messageLength := BytesToInt(rest[HeaderLength..FrameOverhead]);
      if |rest| >= FrameOverhead + messageLength && messageLength >= 0 {
        ScanFramesBounded(rest[FrameOverhead + messageLength..]);
      }
    } else {
      ScanFramesBounded(rest[1..]);
    }
  }

  /** No item pushed by `unpackLoop` is longer than the buffer it came from. */
  lemma UnpackItemsBounded(buffer: seq<byte>)
    ensures forall k :: 0 <= k < |Unpack(buffer).items| ==> |Unpack(buffer).items[k]| <= |buffer|
  {
    ScanFramesBounded(buffer);
    ScanWhole(buffer);
  }
  /**
   * A Go sub-slice `buffer[lo:hi]`. It holds no bytes of its own: it reads
   * whatever the array it was cut from holds when it is read.
   */
  datatype View = View(lo: nat, hi: nat)

  /** Every view lies inside a buffer of `n` bytes. */
  predicate Within(views: seq<View>, n: nat) {
    forall k :: 0 <= k < |views| ==> views[k].lo <= views[k].hi <= n
  }

  /** The bytes the views show when they are read from `buffer`. */
  function Observe(buffer: seq<byte>, views: seq<View>): (r: seq<seq<byte>>)
    requires Within(views, |buffer|)
    ensures |r| == |views|
    ensures forall k :: 0 <= k < |views| ==> r[k] == buffer[views[k].lo..views[k].hi]
  {
    if views == [] then [] else [buffer[views[0].lo..views[0].hi]] + Observe(buffer, views[1..])
  }

  /** Observing one more view adds what that view shows. */
  lemma ObserveSnoc(buffer: seq<byte>, views: seq<View>, v: View)
    requires Within(views, |buffer|) && v.lo <= v.hi <= |buffer|
    ensures Within(views + [v], |buffer|)
    ensures Observe(buffer, views + [v]) == Observe(buffer, views) + [buffer[v.lo..v.hi]]
  {
  }

  datatype ViewScan = ViewScan(views: seq<View>, stop: Stop)

  /** `ScanFrom` keeping each payload as the slice of the buffer it is. */
  function ScanViewsFrom(buffer: seq<byte>, i: nat, pushed: seq<View>): (r: ViewScan)
    requires Within(pushed, |buffer|)
    ensures Within(r.views, |buffer|)
    decreases |buffer| - i
  {
    if |buffer| < i + FrameOverhead then ViewScan(pushed, Exhausted)
    else if buffer[i..i + HeaderLength] == Header then
      var dataIndex := i + FrameOverhead;
      var messageLength := BytesToInt(buffer[i + HeaderLength..dataIndex]);
      if |buffer| < dataIndex + messageLength then ViewScan(pushed, Truncated)
      else if messageLength < 0 then ViewScan(pushed, NegativeLength)
      else ScanViewsFrom(buffer, dataIndex + messageLength, pushed + [View(dataIndex, dataIndex + messageLength)])
    else ScanViewsFrom(buffer, i + 1, pushed)
  }

  /** The slices one `unpackLoop` call pushes, and whether it then panicked. */
  datatype PushedViews = PushedViews(views: seq<View>, panicked: bool)

  /** `unpackLoop` as written: every item it pushes is a slice of its argument. */
  function UnpackViews(buffer: seq<byte>): (r: PushedViews)
    ensures Within(r.views, |buffer|)
  {
    var whole := View(0, |buffer|);
    if |buffer| > MaxMessageSize then PushedViews([], false)
    else if |buffer| < FrameOverhead then PushedViews([whole], false)
    else
      var s := ScanViewsFrom(buffer, 0, []);
      match s.stop
      case NegativeLength => PushedViews(s.views, true)
      case Truncated => PushedViews(s.views + [whole], false)
      case Exhausted => if s.views == [] then PushedViews([whole], false) else PushedViews(s.views, false)
  }

  /** Read before anything else touches the buffer, the slices show exactly what the copies hold. */
  lemma {:induction false} ScanViewsObserved(buffer: seq<byte>, i: nat, pushed: seq<View>, copies: seq<seq<byte>>)
    requires Within(pushed, |buffer|) && Observe(buffer, pushed) == copies
    ensures var v := ScanViewsFrom(buffer, i, pushed);
            var s := ScanFrom(buffer, i, copies);
            Observe(buffer, v.views) == s.frames && v.stop == s.stop
    decreases |buffer| - i
  {
    if |buffer| >= i + FrameOverhead {
      if buffer[i..i + HeaderLength] == Header {
        var dataIndex := i + FrameOverhead;
        var messageLength := BytesToInt(buffer[i + HeaderLength..dataIndex]);
        if |buffer| >= dataIndex + messageLength && messageLength >= 0 {
          var more := pushed + [View(dataIndex, dataIndex + messageLength)];
          ObserveSnoc(buffer, pushed, View(dataIndex, dataIndex + messageLength));
          ScanViewsObserved(buffer, dataIndex + messageLength, more, copies + [buffer[dataIndex..dataIndex + messageLength]]);
        }
      } else {
        ScanViewsObserved(buffer, i + 1, pushed, copies);
      }
    }
  }

  /** One `unpackLoop` call on its own: the slices it pushes show the items of `Unpack`. */
  lemma UnpackViewsObserved(buffer: seq<byte>)
    ensures Observe(buffer, UnpackViews(buffer).views) == Unpack(buffer).items
    ensures UnpackViews(buffer).panicked <==> Unpack(buffer).SlicePanic?
  {
    if MaxMessageSize >= |buffer| >= FrameOverhead {
      ScanViewsObserved(buffer, 0, [], []);
      var v := ScanViewsFrom(buffer, 0, []);
      var s := ScanFrom(buffer, 0, []);
      assert buffer[0..|buffer|] == buffer;
      if s.stop == Truncated {
        ObserveSnoc(buffer, v.views, View(0, |buffer|));
      }
    } else if |buffer| < FrameOverhead {
      assert buffer[0..|buffer|] == buffer;
    }
  }

  /** A buffer holding a single frame is pushed as the one slice after the frame head. */
  lemma UnpackViewsPacket(message: seq<byte>)
    requires |message| + FrameOverhead <= MaxMessageSize
    ensures UnpackViews(Packet(message)) == PushedViews([View(FrameOverhead, FrameOverhead + |message|)], false)
  {
    var frame := Packet(message);
    BytesToIntOfIntToBytes(|message|);
    assert frame[0..HeaderLength] == Header;
    assert ScanViewsFrom(frame, 0, []) == ViewScan([View(FrameOverhead, |frame|)], Exhausted);
  }
}
