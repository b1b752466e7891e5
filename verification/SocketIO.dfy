/** Exact reads, whole frames and complete sends over a byte stream that fragments at will. */
module SocketIO {
  import opened Words
  import opened Protocol
  import Codec

  datatype NetError =
    | ClosedMidFrame
    | ClosedBeforePayload
    | ClosedBeforeAck
    | AckMismatch
    | Io
    | Malformed(error: Error)

  // What is left of a stream after its front part has been read.
  predicate EndOf(rest: Bytes, stream: Bytes) {
    |rest| <= |stream| && rest == stream[|stream| - |rest|..]
  }

  lemma EndOfEnd(a: Bytes, b: Bytes, c: Bytes)
    requires EndOf(a, b) && EndOf(b, c)
    ensures EndOf(a, c)
  {
  }

  /**
   One end of a connection. `stream` is all that the peer ever delivers, `incoming` the part of
   it that is still to be read, `outgoing` what the kernel has accepted. How many bytes one call
   moves is up to the environment; only a faulty connection makes calls fail.
   */
  class Socket {
    ghost const stream: Bytes
    const faulty: bool
    var incoming: Bytes
    var outgoing: Bytes

    constructor (stream: Bytes, faulty: bool)
      ensures this.stream == incoming == stream && outgoing == [] && this.faulty == faulty
    {
      this.stream, this.faulty, incoming, outgoing := stream, faulty, stream, [];
    }

    ghost predicate Valid()
      reads this
    {
      EndOf(incoming, stream)
    }

    // The bytes of the stream that have been read.
    ghost function Received(): Bytes
      requires Valid()
      reads this
    {
      stream[..|stream| - |incoming|]
    }

    // recv(): at least one byte unless the stream has ended, at most what was asked for.
    method Recv(buffer: array<byte>, from: nat, count: nat) returns (r: Result<nat, NetError>)
      requires 0 < count && from + count <= buffer.Length
      modifies this`incoming, buffer
      ensures r.Ok? ==> r.value <= count && r.value <= |old(incoming)|
      ensures r.Ok? ==> (r.value == 0 <==> old(incoming) == [])
      ensures r.Ok? ==> forall i | from <= i < from + r.value :: buffer[i] == old(incoming)[i - from]
      ensures r.Ok? ==> forall i | 0 <= i < from || from + r.value <= i < buffer.Length :: buffer[i] == old(buffer[i])
      ensures r.Ok? ==> incoming == old(incoming)[r.value..]
      ensures r.Err? ==> r.error == Io && faulty && incoming == old(incoming) && buffer[..] == old(buffer[..])
    {
      var fails: bool := *;
      if fails && faulty {
        return Err(Io);
      }
      if incoming == [] {
        return Ok(0);
      }
      var n: nat :| 1 <= n <= count && n <= |incoming|;
      forall i | 0 <= i < n {
        buffer[from + i] := incoming[i];
      }
      incoming := incoming[n..];
      return Ok(n);
    }

    // send(): accepts at least one byte, or fails.
    method Send(data: Bytes) returns (r: Result<nat, NetError>)
      requires data != []
      modifies this`outgoing
      ensures r.Ok? ==> 0 < r.value <= |data| && outgoing == old(outgoing) + data[..r.value]
      ensures r.Err? ==> r.error == Io && faulty && outgoing == old(outgoing)
    {
      var fails: bool := *;
      if fails && faulty {
        return Err(Io);
      }
      var n: nat :| 1 <= n <= |data|;
      outgoing := outgoing + data[..n];
      return Ok(n);
    }
  }

  // Fills buffer[from..from + count]; false means the stream ended before the first byte.
  method ReceiveExact(socket: Socket, buffer: array<byte>, from: nat, count: nat) returns (r: Result<bool, NetError>)
    requires from + count <= buffer.Length
    modifies socket`incoming, buffer
    ensures r == Ok(true) ==>
              && count <= |old(socket.incoming)|
              && (forall i | from <= i < from + count :: buffer[i] == old(socket.incoming)[i - from])
              && (forall i | 0 <= i < from || from + count <= i < buffer.Length :: buffer[i] == old(buffer[i]))
              && socket.incoming == old(socket.incoming)[count..]
    ensures r == Ok(false) ==> count > 0 && old(socket.incoming) == []
    ensures r == Err(ClosedMidFrame) ==> 0 < |old(socket.incoming)| < count
    ensures r.Err? ==> r.error in {Io, ClosedMidFrame} && (r.error == Io ==> socket.faulty)
    ensures EndOf(socket.incoming, old(socket.incoming))
  {
    var received := 0;
    while received < count
      invariant received <= count && received <= |old(socket.incoming)|
      invariant forall i | from <= i < from + received :: buffer[i] == old(socket.incoming)[i - from]
      invariant forall i | 0 <= i < from || from + received <= i < buffer.Length :: buffer[i] == old(buffer[i])
      invariant socket.incoming == old(socket.incoming)[received..]
    {
      var n :- socket.Recv(buffer, from + received, count - received);
      if n == 0 {
        if received == 0 {
          return Ok(false);
        }
        return Err(ClosedMidFrame);
      }
      received := received + n;
    }
    return Ok(true);
  }

  method SendAll(socket: Socket, data: Bytes) returns (r: Result<(), NetError>)
    modifies socket`outgoing
    ensures r.Ok? ==> socket.outgoing == old(socket.outgoing) + data
    ensures r.Err? ==> r.error == Io && socket.faulty
    ensures r.Err? ==> exists k: nat | k < |data| :: socket.outgoing == old(socket.outgoing) + data[..k]
  {
    var sent := 0;
    while sent < |data|
      invariant sent <= |data|
      invariant socket.outgoing == old(socket.outgoing) + data[..sent]
    {
      var n :- socket.Send(data[sent..]);
      sent := sent + n;
    }
    return Ok(());
  }

  // ---------- What a stream means, however it is fragmented ----------

  datatype Received =
    | Frame(frame: Bytes, rest: Bytes)
    | EndOfStream
    | Broken(error: NetError)

  function NextFrame(stream: Bytes): (r: Received)
    ensures r.Frame? ==> |r.frame| >= FRAME_HEADER_SIZE && stream == r.frame + r.rest
    ensures r.Broken? ==> r.error != Io && r.error != AckMismatch
  {
    if stream == [] then EndOfStream
    else if |stream| < FRAME_HEADER_SIZE then Broken(ClosedMidFrame)
    else
      match DecodeHeader(stream[..FRAME_HEADER_SIZE])
      case Err(error) => Broken(Malformed(error))
      case Ok(header) =>
        var size := FRAME_HEADER_SIZE + header.payloadLength;
        if size <= |stream| then Frame(stream[..size], stream[size..])
        else if |stream| == FRAME_HEADER_SIZE then Broken(ClosedBeforePayload)
        else Broken(ClosedMidFrame)
  }

  lemma NextFrameCases(stream: Bytes)
    ensures stream == [] ==> NextFrame(stream) == EndOfStream
    ensures 0 < |stream| < FRAME_HEADER_SIZE ==> NextFrame(stream) == Broken(ClosedMidFrame)
    ensures |stream| >= FRAME_HEADER_SIZE ==>
              match DecodeHeader(stream[..FRAME_HEADER_SIZE])
              case Err(error) => NextFrame(stream) == Broken(Malformed(error))
              case Ok(header) =>
                var size := FRAME_HEADER_SIZE + header.payloadLength;
                NextFrame(stream) ==
                if size <= |stream| then Frame(stream[..size], stream[size..])
                else if |stream| == FRAME_HEADER_SIZE then Broken(ClosedBeforePayload)
                else Broken(ClosedMidFrame)
  {
  }

  // The payload behind a header, in one buffer with it.
  method ReceiveBody(socket: Socket, headerBytes: array<byte>, payloadLength: nat) returns (r: Result<Bytes, NetError>)
    requires headerBytes.Length == FRAME_HEADER_SIZE
    modifies socket`incoming
    ensures r.Ok? ==>
              && payloadLength <= |old(socket.incoming)|
              && r.value == headerBytes[..] + old(socket.incoming)[..payloadLength]
              && socket.incoming == old(socket.incoming)[payloadLength..]
    ensures r == Err(ClosedBeforePayload) ==> payloadLength > 0 && old(socket.incoming) == []
    ensures r == Err(ClosedMidFrame) ==> 0 < |old(socket.incoming)| < payloadLength
    ensures r.Err? ==> r.error in {Io, ClosedMidFrame, ClosedBeforePayload} && (r.error == Io ==> socket.faulty)
    ensures EndOf(socket.incoming, old(socket.incoming))
  {
    hide EndOf;
    var frame := new byte[FRAME_HEADER_SIZE + payloadLength];
    forall i | 0 <= i < FRAME_HEADER_SIZE {
      frame[i] := headerBytes[i];
    }
    assert frame[..FRAME_HEADER_SIZE] == headerBytes[..];
    var payload :- ReceiveExact(socket, frame, FRAME_HEADER_SIZE, payloadLength);
    if !payload {
      return Err(ClosedBeforePayload);
    }
    assert frame[FRAME_HEADER_SIZE..] == old(socket.incoming)[..payloadLength];
    assert frame[..] == frame[..FRAME_HEADER_SIZE] + frame[FRAME_HEADER_SIZE..];
    return Ok(frame[..]);
  }

  /** One call returns what the bytes say, whatever the sizes of the reads; or an I/O error. */
  method ReceiveFrame(socket: Socket) returns (r: Result<Option<Bytes>, NetError>)
    modifies socket`incoming
    ensures r.Ok? && r.value.Some? ==> NextFrame(old(socket.incoming)) == Frame(r.value.value, socket.incoming)
    ensures r.Ok? && r.value.None? ==> NextFrame(old(socket.incoming)) == EndOfStream
    ensures r.Err? && r.error != Io ==> NextFrame(old(socket.incoming)) == Broken(r.error)
    ensures r == Err(Io) ==> socket.faulty
    ensures EndOf(socket.incoming, old(socket.incoming))
  {
    hide DecodeHeader, EndOf, NextFrame;
    ghost var stream := socket.incoming;
    NextFrameCases(stream);
    var headerBytes := new byte[FRAME_HEADER_SIZE];
    var more :- ReceiveExact(socket, headerBytes, 0, FRAME_HEADER_SIZE);
    if !more {
      return Ok(None);
    }
    assert headerBytes[..] == stream[..FRAME_HEADER_SIZE];
    var parsed := Codec.ParseFrameHeader(headerBytes[..]);
    if parsed.Err? {
      return Err(Malformed(parsed.error));
    }
    ghost var rest := socket.incoming;
    var frame := ReceiveBody(socket, headerBytes, parsed.value.payloadLength);
    EndOfEnd(socket.incoming, rest, stream);
    if frame.Err? {
      return Err(frame.error);
    }
    return Ok(Some(frame.value));
  }

  ghost predicate ValidFrame(frame: Bytes) {
    && DecodeHeader(frame).Ok?
    && |frame| == FRAME_HEADER_SIZE + DecodeHeader(frame).value.payloadLength
  }

  ghost predicate ValidFrames(frames: seq<Bytes>) {
    forall i | 0 <= i < |frames| :: ValidFrame(frames[i])
  }

  function Concat(frames: seq<Bytes>): Bytes {
    if frames == [] then [] else frames[0] + Concat(frames[1..])
  }

  lemma {:induction false} ConcatSnoc(frames: seq<Bytes>, frame: Bytes)
    ensures Concat(frames + [frame]) == Concat(frames) + frame
  {
    if frames == [] {
      assert [frame][1..] == [];
    } else {
      assert (frames + [frame])[1..] == frames[1..] + [frame];
      ConcatSnoc(frames[1..], frame);
    }
  }

  /** All the frames that repeated calls return, and how the stream ends. */
  function ReadFrames(stream: Bytes): (r: (seq<Bytes>, Received))
    decreases |stream|
  {
    var next := NextFrame(stream);
    if next.Frame? then
      var (frames, ending) := ReadFrames(next.rest);
      ([next.frame] + frames, ending)
    else ([], next)
  }

  // The header is decided by the first twelve bytes.
  lemma HeaderOfPrefix(a: Bytes, b: Bytes)
    requires |a| >= FRAME_HEADER_SIZE && |b| >= FRAME_HEADER_SIZE
    requires a[..FRAME_HEADER_SIZE] == b[..FRAME_HEADER_SIZE]
    ensures DecodeHeader(a) == DecodeHeader(b)
  {
    assert a[0..4] == a[..12][0..4] == b[..12][0..4] == b[0..4];
    assert a[6..8] == a[..12][6..8] == b[..12][6..8] == b[6..8];
    assert a[8..12] == a[..12][8..12] == b[..12][8..12] == b[8..12];
    assert a[4] == a[..12][4] == b[..12][4] == b[4] && a[5] == a[..12][5] == b[..12][5] == b[5];
  }

  lemma NextOfFrame(frame: Bytes, rest: Bytes)
    requires ValidFrame(frame)
    ensures NextFrame(frame + rest) == Frame(frame, rest)
  {
    HeaderOfPrefix((frame + rest)[..FRAME_HEADER_SIZE], frame);
    hide DecodeHeader;
    assert (frame + rest)[..|frame|] == frame && (frame + rest)[|frame|..] == rest;
  }

  // An end of stream anywhere inside a frame is an error, never a frame and never a clean end.
  lemma NextOfCutFrame(frame: Bytes, k: nat)
    requires ValidFrame(frame) && 0 < k < |frame|
    ensures NextFrame(frame[..k])
         == Broken(if k == FRAME_HEADER_SIZE then ClosedBeforePayload else ClosedMidFrame)
  {
    if k >= FRAME_HEADER_SIZE {
      assert frame[..k][..FRAME_HEADER_SIZE] == frame[..FRAME_HEADER_SIZE];
      HeaderOfPrefix(frame[..k][..FRAME_HEADER_SIZE], frame);
    }
  }

  lemma ReadFramesStep(frame: Bytes, rest: Bytes)
    requires ValidFrame(frame)
    ensures ReadFrames(frame + rest) == ([frame] + ReadFrames(rest).0, ReadFrames(rest).1)
  {
    NextOfFrame(frame, rest);
    hide NextFrame, ValidFrame;
  }

  /** Any list of frames is read back exactly, then whatever follows it is read. */
  lemma {:induction false} FramesReadBack(frames: seq<Bytes>, tail: Bytes)
    requires ValidFrames(frames)
    ensures ReadFrames(Concat(frames) + tail) == (frames + ReadFrames(tail).0, ReadFrames(tail).1)
  {
    hide ValidFrame, ReadFrames;
    if frames == [] {
      assert Concat(frames) + tail == tail && frames + ReadFrames(tail).0 == ReadFrames(tail).0;
    } else {
      var rest := Concat(frames[1..]) + tail;
      assert Concat(frames) + tail == frames[0] + rest;
      ReadFramesStep(frames[0], rest);
      FramesReadBack(frames[1..], tail);
      var after := ReadFrames(tail).0;
      assert [frames[0]] + (frames[1..] + after) == frames + after;
    }
  }

  /** A stream ends cleanly if and only if it is a list of whole frames, and then exactly those are returned. */
  lemma {:induction false} CleanStream(stream: Bytes, frames: seq<Bytes>)
    ensures ReadFrames(stream) == (frames, EndOfStream) <==> ValidFrames(frames) && stream == Concat(frames)
  {
    hide Concat, ValidFrames;
    if ValidFrames(frames) && stream == Concat(frames) {
      FramesReadBack(frames, []);
      assert Concat(frames) + [] == stream && frames + [] == frames;
    }
    if ReadFrames(stream).1 == EndOfStream {
      CleanStreamIsFrames(stream);
    }
  }

  lemma {:induction false} CleanStreamIsFrames(stream: Bytes)
    requires ReadFrames(stream).1 == EndOfStream
    ensures ValidFrames(ReadFrames(stream).0) && stream == Concat(ReadFrames(stream).0)
    decreases |stream|
  {
    var next := NextFrame(stream);
    if next.Frame? {
      HeaderOfPrefix(next.frame, stream[..FRAME_HEADER_SIZE]);
      assert ValidFrame(next.frame);
      hide NextFrame, ValidFrame;
      CleanStreamIsFrames(next.rest);
      var frames := ReadFrames(next.rest).0;
      assert ReadFrames(stream).0[1..] == frames;
    }
  }

  /** A connection cut inside a frame yields the frames before it and then an error. */
  lemma CutStream(frames: seq<Bytes>, frame: Bytes, k: nat)
    requires ValidFrames(frames) && ValidFrame(frame) && 0 < k < |frame|
    ensures var (read, ending) := ReadFrames(Concat(frames) + frame[..k]); read == frames && ending.Broken?
  {
    FramesReadBack(frames, frame[..k]);
    NextOfCutFrame(frame, k);
  }
}
