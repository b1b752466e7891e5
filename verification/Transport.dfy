/** What the two ends of a connection exchange: batches one way, exact acknowledgements back. */
module Transport {
  import opened Words
  import opened Protocol
  import opened SocketIO
  import Codec

  class TcpClient {
    const socket: Socket

    constructor (socket: Socket)
      ensures this.socket == socket
    {
      this.socket := socket;
    }

    method SendLogBatch(ms: seq<LogMessage>) returns (r: Result<(), NetError>)
      modifies socket`outgoing
      ensures r.Ok? ==> ValidBatch(ms) && socket.outgoing == old(socket.outgoing) + EncodeBatch(ms)
      ensures r.Err? && r.error != Io ==> !ValidBatch(ms) && socket.outgoing == old(socket.outgoing)
      ensures r == Err(Io) ==> ValidBatch(ms) && socket.faulty
      ensures r == Err(Io) ==> exists k: nat | k < |EncodeBatch(ms)| ::
                socket.outgoing == old(socket.outgoing) + EncodeBatch(ms)[..k]
      ensures r.Err? ==> r.error == Io || r.error.Malformed?
      ensures old(socket.outgoing) <= socket.outgoing
    {
      hide EncodeBatch, ValidBatch;
      var frame := Codec.SerializeLogBatch(ms);
      if frame.Err? {
        return Err(Malformed(frame.error));
      }
      var sent := SendAll(socket, frame.value);
      if sent.Err? {
        return Err(Io);
      }
      return Ok(());
    }

    method ReceiveAck() returns (r: Result<uint64, NetError>)
      modifies socket`incoming
      ensures r.Ok? ==> old(socket.incoming) == EncodeAck(r.value) + socket.incoming
      ensures r.Err? && r.error != Io ==> forall id: uint64 :: !(EncodeAck(id) <= old(socket.incoming))
      ensures r.Err? ==> r.error != AckMismatch && (r.error == Io ==> socket.faulty)
      ensures EndOf(socket.incoming, old(socket.incoming))
    {
      hide DecodeAck, EncodeAck, NextFrame;
      ghost var stream := socket.incoming;
      forall id: uint64 | EncodeAck(id) <= stream
        ensures NextFrame(stream) == Frame(EncodeAck(id), stream[|EncodeAck(id)|..])
        ensures DecodeAck(EncodeAck(id)) == Ok(id)
      {
        AckIsNext(id, stream);
      }
      var frame :- ReceiveFrame(socket);
      if frame.None? {
        return Err(ClosedBeforeAck);
      }
      var ack := Codec.DeserializeAck(frame.value);
      if ack.Err? {
        return Err(Malformed(ack.error));
      }
      AckBijection(frame.value, ack.value);
      return Ok(ack.value);
    }

    /** Success means the whole batch went out and the ACK of exactly its last id came back. */
    method SendLogBatchAndWaitAck(ms: seq<LogMessage>) returns (r: Result<uint64, NetError>)
      modifies socket
      ensures r.Ok? ==>
                && ValidBatch(ms) && r.value == ms[|ms| - 1].id
                && socket.outgoing == old(socket.outgoing) + EncodeBatch(ms)
                && old(socket.incoming) == EncodeAck(r.value) + socket.incoming
      ensures r.Err? && r.error != Io && ValidBatch(ms) ==> !(EncodeAck(ms[|ms| - 1].id) <= old(socket.incoming))
      ensures r == Err(AckMismatch) ==> ValidBatch(ms)
      ensures r == Err(Io) ==> socket.faulty
      ensures r == Err(AckMismatch) ==>
                exists id: uint64 :: id != ms[|ms| - 1].id && EncodeAck(id) <= old(socket.incoming)
      ensures old(socket.outgoing) <= socket.outgoing && EndOf(socket.incoming, old(socket.incoming))
    {
      hide EncodeBatch, EncodeAck;
      var sent := SendLogBatch(ms);
      if sent.Err? {
        return Err(sent.error);
      }
      var expectedId := ms[|ms| - 1].id;
      var confirmedId :- ReceiveAck();
      if confirmedId != expectedId {
        if EncodeAck(expectedId) <= old(socket.incoming) {
          AckIsNext(expectedId, old(socket.incoming));
          AckIsNext(confirmedId, old(socket.incoming));
        }
        return Err(AckMismatch);
      }
      return Ok(confirmedId);
    }
  }

  lemma AckIsNext(id: uint64, stream: Bytes)
    requires EncodeAck(id) <= stream
    ensures NextFrame(stream) == Frame(EncodeAck(id), stream[|EncodeAck(id)|..])
    ensures DecodeAck(EncodeAck(id)) == Ok(id)
  {
    AckBijection(EncodeAck(id), id);
    HeaderRoundTrip(Ack, ACK_PAYLOAD_SIZE, BigEndian(id, 8));
    hide DecodeHeader, EncodeHeader;
    var rest := stream[|EncodeAck(id)|..];
    assert stream == EncodeAck(id) + rest;
    NextOfFrame(EncodeAck(id), rest);
  }

  // ---------- The server's side of the connection ----------

  /** The messages of one received frame: a single log counts as a batch of one. */
  function MessagesOf(frame: Bytes): Result<seq<LogMessage>, Error> {
    var header :- DecodeHeader(frame);
    match header.kind
    case Log => var m :- DecodeLog(frame); Ok([m])
    case LogBatch => DecodeBatch(frame)
    case Ack => Err(NotALogBatch)
  }

  // The stream goes on with something that is no frame, or no frame of acceptable messages.
  ghost predicate Unacceptable(stream: Bytes) {
    || NextFrame(stream).Broken?
    || (NextFrame(stream).Frame? && MessagesOf(NextFrame(stream).frame).Err?)
  }

  method ReceiveLogBatch(socket: Socket) returns (r: Result<Option<seq<LogMessage>>, NetError>)
    modifies socket`incoming
    ensures r.Ok? && r.value.Some? ==>
              && NextFrame(old(socket.incoming)).Frame?
              && MessagesOf(NextFrame(old(socket.incoming)).frame) == Ok(r.value.value)
              && socket.incoming == NextFrame(old(socket.incoming)).rest
    ensures r.Ok? && r.value.None? ==> NextFrame(old(socket.incoming)) == EndOfStream
    ensures r.Err? && r.error != Io ==> Unacceptable(old(socket.incoming))
    ensures r == Err(Io) ==> socket.faulty
  {
    hide NextFrame, DecodeHeader, DecodeLog, DecodeBatch;
    var frame :- ReceiveFrame(socket);
    if frame.None? {
      return Ok(None);
    }
    var header := Codec.ParseFrameHeader(frame.value);
    if header.Err? {
      return Err(Malformed(header.error));
    }
    if header.value.kind == Log {
      var m := Codec.DeserializeLogMessage(frame.value);
      if m.Err? {
        return Err(Malformed(m.error));
      }
      return Ok(Some([m.value]));
    }
    if header.value.kind == LogBatch {
      var ms := Codec.DeserializeLogBatch(frame.value);
      if ms.Err? {
        return Err(Malformed(ms.error));
      }
      return Ok(Some(ms.value));
    }
    return Err(Malformed(NotALogBatch));
  }

  method SendAck(socket: Socket, confirmedId: uint64) returns (r: Result<(), NetError>)
    modifies socket`outgoing
    ensures r.Ok? ==> socket.outgoing == old(socket.outgoing) + EncodeAck(confirmedId)
    ensures r.Err? ==> r.error == Io && socket.faulty
    ensures r.Err? ==> exists k: nat | k < |EncodeAck(confirmedId)| ::
              socket.outgoing == old(socket.outgoing) + EncodeAck(confirmedId)[..k]
  {
    hide EncodeAck;
    var frame := Codec.SerializeAck(confirmedId);
    r := SendAll(socket, frame);
  }

  /** What the server may rely on about any messages it receives. */
  ghost predicate Acceptable(ms: seq<LogMessage>) {
    && 0 < |ms| <= MAX_BATCH_MESSAGE_COUNT
    && SingleClient(ms) && Increasing(ms) && AllValid(ms)
  }

  lemma LogFrameAccepted(m: LogMessage)
    requires ValidMessage(m)
    ensures MessagesOf(EncodeLog(m)) == Ok([m])
  {
    LogBijection(EncodeLog(m), m);
    HeaderRoundTrip(Log, |EncodeRecord(m)|, EncodeRecord(m));
    hide DecodeHeader, DecodeLog, EncodeHeader, EncodeRecord, ValidMessage;
  }

  lemma BatchFrameAccepted(ms: seq<LogMessage>)
    requires ValidBatch(ms)
    ensures MessagesOf(EncodeBatch(ms)) == Ok(ms)
  {
    HeaderOfBatch(ms);
    BatchBijection(EncodeBatch(ms), ms);
    hide DecodeHeader, DecodeBatch, EncodeBatch;
  }

  /** Received messages are exactly what some peer encoded, and always obey the batch rules. */
  lemma {:induction false} MessagesOfMeaning(frame: Bytes, ms: seq<LogMessage>)
    ensures MessagesOf(frame) == Ok(ms)
       <==> || (|ms| == 1 && ValidMessage(ms[0]) && frame == EncodeLog(ms[0]))
            || (ValidBatch(ms) && frame == EncodeBatch(ms))
    ensures MessagesOf(frame) == Ok(ms) ==> Acceptable(ms)
  {
    hide DecodeHeader, DecodeLog, DecodeBatch, EncodeLog, EncodeBatch, ValidMessage;
    if |ms| == 1 && ValidMessage(ms[0]) {
      LogFrameAccepted(ms[0]);
      assert ms == [ms[0]];
    }
    if ValidBatch(ms) {
      BatchFrameAccepted(ms);
    }
    BatchBijection(frame, ms);
    if DecodeLog(frame).Ok? {
      LogBijection(frame, DecodeLog(frame).value);
    }
  }

  lemma HeaderOfBatch(ms: seq<LogMessage>)
    requires ValidBatch(ms)
    ensures DecodeHeader(EncodeBatch(ms)) == Ok(FrameHeader(VERSION, LogBatch, BATCH_PREFIX_SIZE + |EncodeRecords(ms)|))
    ensures ValidFrame(EncodeBatch(ms))
  {
    hide DecodeHeader, EncodeHeader, EncodeRecords;
    var payload := BigEndian(|ms|, BATCH_PREFIX_SIZE) + EncodeRecords(ms);
    HeaderRoundTrip(LogBatch, |payload|, payload);
    assert EncodeBatch(ms) == EncodeHeader(LogBatch, |payload|) + payload;
  }

  /** A batch the client sends is the next batch the server receives, unchanged. */
  lemma BatchDelivered(ms: seq<LogMessage>, rest: Bytes)
    requires ValidBatch(ms)
    ensures NextFrame(EncodeBatch(ms) + rest) == Frame(EncodeBatch(ms), rest)
    ensures MessagesOf(EncodeBatch(ms)) == Ok(ms)
  {
    HeaderOfBatch(ms);
    hide EncodeBatch, DecodeHeader;
    NextOfFrame(EncodeBatch(ms), rest);
    BatchFrameAccepted(ms);
  }
}
