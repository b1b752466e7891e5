/** The encoders and decoders: loops that grow a buffer or advance an offset. */
module Codec {
  import opened Words
  import opened Protocol

  // ---------- Integers and strings ----------

  // Appends the bytes of `value`, most significant first, each cut out by a shift.
  method AppendUint(output: Bytes, value: nat, width: nat) returns (result: Bytes)
    ensures result == output + BigEndian(value, width)
  {
    result := output;
    var shift: nat := width;  // in bytes
    while shift > 0
      invariant shift <= width
      invariant result == output + BigEndian(ShiftRight(value, shift), width - shift)
    {
      shift := shift - 1;
      result := result + [ShiftRight(value, shift) % 0x100];
    }
  }

  method ReadUint(input: Bytes, offset: nat, width: nat) returns (r: Result<nat, Error>, next: nat)
    ensures r == if offset + width <= |input| then Ok(UintAt(input, offset, width)) else Err(UnexpectedEnd)
    ensures next == if r.Ok? then offset + width else offset
  {
    if offset > |input| || width > |input| - offset {
      return Err(UnexpectedEnd), offset;
    }
    var value: nat, index: nat := 0, 0;
    while index < width
      invariant index <= width
      invariant value == FromBigEndian(input[offset..offset + index])
    {
      assert input[offset..offset + index + 1] == input[offset..offset + index] + [input[offset + index]];
      value := value * 0x100 + input[offset + index];
      index := index + 1;
    }
    return Ok(value), offset + width;
  }

  lemma OneByte(input: Bytes, offset: nat)
    requires offset < |input|
    ensures UintAt(input, offset, 1) == input[offset]
  {
    assert input[offset..offset + 1] == [] + [input[offset]];
    assert [input[offset]][..0] == [];
  }

  method ReadString(input: Bytes, offset: nat, length: nat) returns (r: Result<Bytes, Error>, next: nat)
    ensures r.Ok? <==> offset + length <= |input|
    ensures r.Ok? ==> DecodeString(input, offset, length) == Ok((r.value, next))
    ensures r.Err? ==> r.error == UnexpectedEnd
  {
    if offset > |input| || length > |input| - offset {
      return Err(UnexpectedEnd), offset;
    }
    return Ok(input[offset..offset + length]), offset + length;
  }

  // ---------- Header and record ----------

  method AppendFrameHeader(output: Bytes, kind: MessageType, payloadLength: uint32) returns (result: Bytes)
    ensures result == output + EncodeHeader(kind, payloadLength)
  {
    result := AppendUint(output, MAGIC, 4);
    result := result + [VERSION];
    result := result + [TypeCode(kind)];
    result := AppendUint(result, 0, 2);
    result := AppendUint(result, payloadLength, 4);
  }

  method ParseFrameHeader(header: Bytes) returns (r: Result<FrameHeader, Error>)
    ensures r == DecodeHeader(header)
  {
    if FRAME_HEADER_SIZE > |header| {
      return Err(UnexpectedEnd);
    }
    WidthLimits();
    var magic, o1 := ReadUint(header, 0, 4);
    var version, o2 := ReadUint(header, o1, 1);
    var rawType, o3 := ReadUint(header, o2, 1);
    var reserved, o4 := ReadUint(header, o3, 2);
    var payloadLength, _ := ReadUint(header, o4, 4);
    OneByte(header, 4);
    OneByte(header, 5);
    if magic.value != MAGIC {
      return Err(InvalidMagic);
    }
    if version.value != VERSION {
      return Err(UnsupportedVersion);
    }
    if reserved.value != 0 {
      return Err(ReservedBitsSet);
    }
    if payloadLength.value > MAX_FRAME_PAYLOAD_LENGTH {
      return Err(PayloadTooLarge);
    }
    var kind :- ParseMessageType(rawType.value);
    return Ok(FrameHeader(version.value, kind, payloadLength.value));
  }

  method AppendLogRecord(output: Bytes, m: LogMessage) returns (result: Bytes)
    ensures result == output + EncodeRecord(m)
  {
    hide BigEndian;
    result := AppendUint(output, m.id, 8);
    result := AppendUint(result, ToBits(m.timestampMs), 8);
    result := AppendUint(result, |m.clientId|, 4);
    result := AppendUint(result, |m.source|, 4);
    result := AppendUint(result, |m.content|, 4);
    assert result == output + EncodeFixed(m);
    result := result + m.clientId;
    result := result + m.source;
    result := result + m.content;
  }

  method ReadLogRecord(input: Bytes, offset: nat) returns (r: Result<LogMessage, Error>, next: nat)
    ensures r.Ok? ==> DecodeRecord(input, offset) == Ok((r.value, next))
    ensures r.Err? ==> DecodeRecord(input, offset) == Err(r.error)
  {
    hide UintAt;
    WidthLimits();
    next := offset;
    var id, bits, clientIdLength, sourceLength, contentLength;
    id, next :- ReadUint(input, next, 8);
    bits, next :- ReadUint(input, next, 8);
    clientIdLength, next :- ReadUint(input, next, 4);
    sourceLength, next :- ReadUint(input, next, 4);
    contentLength, next :- ReadUint(input, next, 4);
    if id == 0 {
      return Err(ZeroId), next;
    }
    if clientIdLength == 0 || clientIdLength > MAX_CLIENT_ID_LENGTH {
      return Err(InvalidClientIdLength), next;
    }
    if sourceLength > MAX_SOURCE_LENGTH {
      return Err(SourceTooLong), next;
    }
    if contentLength > MAX_CONTENT_LENGTH {
      return Err(ContentTooLong), next;
    }
    var clientId, source, content;
    clientId, next :- ReadString(input, next, clientIdLength);
    source, next :- ReadString(input, next, sourceLength);
    content, next :- ReadString(input, next, contentLength);
    return Ok(LogMessage(id, clientId, FromBits(bits), source, content)), next;
  }

  // ---------- Single messages ----------

  method SerializeLogMessage(m: LogMessage) returns (r: Result<Bytes, Error>)
    ensures r == if ValidMessage(m) then Ok(EncodeLog(m)) else Err(LogRecordSize(m).error)
  {
    hide EncodeRecord, EncodeHeader;
    var payloadSize :- LogRecordSize(m);
    var output := AppendFrameHeader([], Log, payloadSize);
    output := AppendLogRecord(output, m);
    assert output == EncodeLog(m);
    return Ok(output);
  }

  method DeserializeLogMessage(frame: Bytes) returns (r: Result<LogMessage, Error>)
    ensures r == DecodeLog(frame)
  {
    var header :- ParseFrameHeader(frame);
    if header.kind != Log {
      return Err(NotALogMessage);
    }
    if |frame| != FRAME_HEADER_SIZE + header.payloadLength {
      return Err(FrameLengthMismatch);
    }
    var m, offset :- ReadLogRecord(frame, FRAME_HEADER_SIZE);
    if offset != |frame| {
      return Err(FieldsDoNotFillPayload);
    }
    return Ok(m);
  }

  // ---------- Batches ----------

  /** Adding one message to a payload that holds `ms`: the new size, or the rule that `m` breaks. */
  function AddToPayload(payloadSize: nat, ms: seq<LogMessage>, m: LogMessage): (r: Result<nat, Error>)
    ensures r.Ok? ==> r.value <= MAX_FRAME_PAYLOAD_LENGTH
  {
    if ms != [] && m.clientId != ms[0].clientId then Err(MultipleClientIds)
    else if m.id <= (if ms == [] then 0 else ms[|ms| - 1].id) then Err(IdsNotIncreasing)
    else
      var recordSize :- LogRecordSize(m);
      if payloadSize + recordSize > MAX_FRAME_PAYLOAD_LENGTH then Err(BatchTooLarge)
      else Ok(payloadSize + recordSize)
  }

  lemma AddToPayloadMeaning(payloadSize: nat, ms: seq<LogMessage>, m: LogMessage)
    ensures AddToPayload(payloadSize, ms, m).Ok?
       <==> (&& (ms != [] ==> m.clientId == ms[0].clientId && ms[|ms| - 1].id < m.id)
             && ValidMessage(m)
             && payloadSize + |EncodeRecord(m)| <= MAX_FRAME_PAYLOAD_LENGTH)
    ensures AddToPayload(payloadSize, ms, m).Ok?
        ==> AddToPayload(payloadSize, ms, m).value == payloadSize + |EncodeRecord(m)|
  {
    hide EncodeRecord;
  }

  /** The payload size of a batch of these messages, or the first rule they break. */
  function BatchPayloadSize(ms: seq<LogMessage>): (r: Result<nat, Error>)
    ensures r.Ok? ==> r.value <= MAX_FRAME_PAYLOAD_LENGTH
  {
    if ms == [] then Ok(BATCH_PREFIX_SIZE)
    else
      var init := ms[..|ms| - 1];
      match BatchPayloadSize(init)
      case Err(error) => Err(error)
      case Ok(payloadSize) => AddToPayload(payloadSize, init, ms[|ms| - 1])
  }

  lemma OrderedSnoc(ms: seq<LogMessage>, m: LogMessage)
    ensures OrderedFrom(ms + [m], 1)
       <==> (OrderedFrom(ms, 1) && (ms != [] ==> m.clientId == ms[0].clientId && ms[|ms| - 1].id < m.id))
  {
    var all := ms + [m];
    assert forall i | 0 <= i < |ms| :: all[i] == ms[i];
    if ms != [] {
      assert all[0] == ms[0] && all[|ms|] == m;
    }
    if OrderedFrom(all, 1) {
      assert ms != [] ==> all[|ms|].clientId == all[0].clientId && all[|ms| - 1].id < all[|ms|].id;
      forall i | 1 <= i < |ms| ensures ms[i].clientId == ms[0].clientId && ms[i - 1].id < ms[i].id {
        assert all[i].clientId == all[0].clientId && all[i - 1].id < all[i].id;
      }
    }
  }

  lemma AllValidSnoc(ms: seq<LogMessage>, m: LogMessage)
    ensures AllValid(ms + [m]) <==> AllValid(ms) && ValidMessage(m)
  {
    hide ValidMessage;
    var all := ms + [m];
    assert all[|ms|] == m;
    assert forall i | 0 <= i < |ms| :: all[i] == ms[i];
  }

  // What the batch rules come to, without the upper bound on the number of messages.
  ghost predicate Fits(ms: seq<LogMessage>) {
    && OrderedFrom(ms, 1) && AllValid(ms)
    && BATCH_PREFIX_SIZE + |EncodeRecords(ms)| <= MAX_FRAME_PAYLOAD_LENGTH
  }

  lemma FitsSnoc(ms: seq<LogMessage>, m: LogMessage)
    ensures |EncodeRecords(ms + [m])| == |EncodeRecords(ms)| + |EncodeRecord(m)|
    ensures Fits(ms + [m])
       <==> (&& Fits(ms)
             && AddToPayload(BATCH_PREFIX_SIZE + |EncodeRecords(ms)|, ms, m).Ok?)
  {
    hide EncodeRecord, ValidMessage, AddToPayload, OrderedFrom, AllValid;
    assert (ms + [m])[..|ms|] == ms;
    OrderedSnoc(ms, m);
    AllValidSnoc(ms, m);
    if Fits(ms) {
      AddToPayloadMeaning(BATCH_PREFIX_SIZE + |EncodeRecords(ms)|, ms, m);
    }
  }

  lemma {:induction false} BatchPayloadSizeMeaning(ms: seq<LogMessage>)
    ensures BatchPayloadSize(ms).Ok? <==> Fits(ms)
    ensures BatchPayloadSize(ms).Ok? ==> BatchPayloadSize(ms).value == BATCH_PREFIX_SIZE + |EncodeRecords(ms)|
  {
    if ms == [] {
      assert Fits(ms);
    } else {
      hide AddToPayload, Fits, EncodeRecords, EncodeRecord;
      var init, m := ms[..|ms| - 1], ms[|ms| - 1];
      assert ms == init + [m];
      BatchPayloadSizeMeaning(init);
      FitsSnoc(init, m);
      if BatchPayloadSize(init).Ok? {
        AddToPayloadMeaning(BatchPayloadSize(init).value, init, m);
      }
    }
  }

  lemma {:induction false} BatchFailureIsFinal(ms: seq<LogMessage>, k: nat)
    requires k <= |ms|
    ensures BatchPayloadSize(ms[..k]).Err? ==> BatchPayloadSize(ms) == BatchPayloadSize(ms[..k])
  {
    hide AddToPayload;
    if k == |ms| {
      assert ms[..k] == ms;
    } else {
      var init := ms[..|ms| - 1];
      BatchFailureIsFinal(init, k);
      assert init[..k] == ms[..k];
    }
  }

  lemma BatchPayloadSizeStep(ms: seq<LogMessage>, index: nat)
    requires index < |ms| && BatchPayloadSize(ms[..index]).Ok?
    ensures BatchPayloadSize(ms[..index + 1])
         == AddToPayload(BatchPayloadSize(ms[..index]).value, ms[..index], ms[index])
    ensures BatchPayloadSize(ms[..index + 1]).Err? ==> BatchPayloadSize(ms) == BatchPayloadSize(ms[..index + 1])
  {
    assert ms[..index + 1][..index] == ms[..index];
    hide AddToPayload;
    BatchFailureIsFinal(ms, index + 1);
  }

  // The validation pass of the batch encoder.
  method CheckBatch(ms: seq<LogMessage>) returns (r: Result<nat, Error>)
    requires ms != []
    ensures r == BatchPayloadSize(ms)
  {
    assert BatchPayloadSize(ms[..0]) == Ok(BATCH_PREFIX_SIZE);
    hide BatchPayloadSize, CheckFields;
    var clientId := ms[0].clientId;
    var previousId: nat, payloadSize: nat, index := 0, BATCH_PREFIX_SIZE, 0;
    while index < |ms|
      invariant index <= |ms|
      invariant previousId == if index == 0 then 0 else ms[index - 1].id
      invariant BatchPayloadSize(ms[..index]) == Ok(payloadSize)
    {
      var m := ms[index];
      BatchPayloadSizeStep(ms, index);
      if m.clientId != clientId {
        return Err(MultipleClientIds);
      }
      if m.id <= previousId {
        return Err(IdsNotIncreasing);
      }
      previousId := m.id;
      var recordSize :- LogRecordSize(m);
      if recordSize > MAX_FRAME_PAYLOAD_LENGTH - payloadSize {
        return Err(BatchTooLarge);
      }
      payloadSize := payloadSize + recordSize;
      index := index + 1;
    }
    assert ms[..index] == ms;
    return Ok(payloadSize);
  }

  method AppendLogRecords(output: Bytes, ms: seq<LogMessage>) returns (result: Bytes)
    ensures result == output + EncodeRecords(ms)
  {
    hide EncodeRecord;
    result := output;
    var index := 0;
    while index < |ms|
      invariant index <= |ms|
      invariant result == output + EncodeRecords(ms[..index])
    {
      assert ms[..index + 1][..index] == ms[..index];
      result := AppendLogRecord(result, ms[index]);
      index := index + 1;
    }
    assert ms[..index] == ms;
  }

  method SerializeLogBatch(ms: seq<LogMessage>) returns (r: Result<Bytes, Error>)
    ensures r.Ok? <==> ValidBatch(ms)
    ensures r.Ok? ==> r.value == EncodeBatch(ms)
    ensures |ms| == 0 ==> r == Err(EmptyBatch)
    ensures |ms| > MAX_BATCH_MESSAGE_COUNT ==> r == Err(TooManyMessages)
    ensures r.Err? && 0 < |ms| <= MAX_BATCH_MESSAGE_COUNT ==> BatchPayloadSize(ms) == Err(r.error)
  {
    hide EncodeRecords, BatchPayloadSize, EncodeHeader, BigEndian, AllValid, SingleClient, Increasing, OrderedFrom;
    BatchPayloadSizeMeaning(ms);
    NeighboursIncrease(ms);
    if |ms| == 0 {
      return Err(EmptyBatch);
    }
    if |ms| > MAX_BATCH_MESSAGE_COUNT {
      return Err(TooManyMessages);
    }
    var payloadSize :- CheckBatch(ms);
    var output := AppendFrameHeader([], LogBatch, payloadSize);
    output := AppendUint(output, |ms|, BATCH_PREFIX_SIZE);
    output := AppendLogRecords(output, ms);
    assert output == EncodeBatch(ms);
    return Ok(output);
  }

  method DeserializeLogBatch(frame: Bytes) returns (r: Result<seq<LogMessage>, Error>)
    ensures r == DecodeBatch(frame)
  {
    hide DecodeRecord, DecodeHeader, UintAt;
    var header :- ParseFrameHeader(frame);
    if header.kind != LogBatch {
      return Err(NotALogBatch);
    }
    if |frame| != FRAME_HEADER_SIZE + header.payloadLength {
      return Err(FrameLengthMismatch);
    }
    var messageCount, offset :- ReadUint(frame, FRAME_HEADER_SIZE, BATCH_PREFIX_SIZE);
    if messageCount == 0 || messageCount > MAX_BATCH_MESSAGE_COUNT {
      return Err(InvalidMessageCount);
    }
    ghost var start := offset;
    var messages: seq<LogMessage>, index := [], 0;
    while index < messageCount
      invariant index <= messageCount == UintAt(frame, FRAME_HEADER_SIZE, BATCH_PREFIX_SIZE)
      invariant DecodeRecords(frame, start, index) == Ok((messages, offset))
    {
      DecodeFailureIsFinal(frame, start, index + 1, messageCount);
      var m;
      m, offset :- ReadLogRecord(frame, offset);
      messages := messages + [m];
      index := index + 1;
    }
    index := 1;
    while index < |messages|
      invariant 1 <= index
      invariant CheckOrder(messages, 1) == CheckOrder(messages, index)
      decreases |messages| - index
    {
      if messages[index].clientId != messages[0].clientId {
        return Err(MultipleClientIds);
      }
      if messages[index].id <= messages[index - 1].id {
        return Err(IdsNotIncreasing);
      }
      index := index + 1;
    }
    if offset != |frame| {
      return Err(FieldsDoNotFillPayload);
    }
    return Ok(messages);
  }

  lemma {:induction false} DecodeFailureIsFinal(input: Bytes, offset: nat, k: nat, n: nat)
    requires k <= n
    ensures DecodeRecords(input, offset, k).Err? ==> DecodeRecords(input, offset, n) == DecodeRecords(input, offset, k)
    decreases n
  {
    hide DecodeRecord;
    if k < n {
      DecodeFailureIsFinal(input, offset, k, n - 1);
    }
  }

  // ---------- Acknowledgements ----------

  method SerializeAck(confirmedId: uint64) returns (output: Bytes)
    ensures output == EncodeAck(confirmedId)
  {
    hide EncodeHeader, BigEndian;
    output := AppendFrameHeader([], Ack, ACK_PAYLOAD_SIZE);
    output := AppendUint(output, confirmedId, 8);
  }

  method DeserializeAck(frame: Bytes) returns (r: Result<uint64, Error>)
    ensures r == DecodeAck(frame)
  {
    WidthLimits();
    var header :- ParseFrameHeader(frame);
    if header.kind != Ack {
      return Err(NotAnAck);
    }
    if |frame| != FRAME_HEADER_SIZE + header.payloadLength {
      return Err(FrameLengthMismatch);
    }
    if header.payloadLength != ACK_PAYLOAD_SIZE {
      return Err(InvalidAckLength);
    }
    var confirmedId, _ := ReadUint(frame, FRAME_HEADER_SIZE, 8);
    return confirmedId;
  }
}
