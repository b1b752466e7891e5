/**
 The binary wire format: a 12-byte header followed by a payload. The WAL stores the same
 single-message frames. The functions say what the format is; the methods are the encoders
 and decoders, which build a buffer or advance an offset step by step.
 */
module Protocol {
  import opened Words

  const MAGIC: uint32 := 0x4C474231
  const VERSION: byte := 2
  const FRAME_HEADER_SIZE: nat := 12
  const MAX_CLIENT_ID_LENGTH: nat := 128
  const MAX_SOURCE_LENGTH: nat := 4 * 1024
  const MAX_CONTENT_LENGTH: nat := 1024 * 1024
  const MAX_BATCH_MESSAGE_COUNT: nat := 100
  const MAX_FRAME_PAYLOAD_LENGTH: nat := 16 * 1024 * 1024
  const LOG_RECORD_FIXED_SIZE: nat := 8 + 8 + 4 + 4 + 4
  const ACK_PAYLOAD_SIZE: nat := 8
  const BATCH_PREFIX_SIZE: nat := 4

  datatype LogMessage = LogMessage(
    id: uint64, clientId: Bytes, timestampMs: int64, source: Bytes, content: Bytes)

  datatype MessageType = Log | Ack | LogBatch

  datatype FrameHeader = FrameHeader(version: byte, kind: MessageType, payloadLength: uint32)

  datatype Error =
    | UnexpectedEnd
    | InvalidMagic
    | UnsupportedVersion
    | ReservedBitsSet
    | PayloadTooLarge
    | UnknownMessageType
    | ZeroId
    | InvalidClientIdLength
    | SourceTooLong
    | ContentTooLong
    | FrameLengthMismatch
    | NotALogMessage
    | NotALogBatch
    | NotAnAck
    | FieldsDoNotFillPayload
    | EmptyBatch
    | TooManyMessages
    | InvalidMessageCount
    | MultipleClientIds
    | IdsNotIncreasing
    | BatchTooLarge
    | InvalidAckLength

  // ---------- What the format is ----------

  function TypeCode(kind: MessageType): byte {
    match kind
    case Log => 1
    case Ack => 2
    case LogBatch => 3
  }

  function ParseMessageType(rawType: byte): Result<MessageType, Error> {
    if rawType == 1 then Ok(Log)
    else if rawType == 2 then Ok(Ack)
    else if rawType == 3 then Ok(LogBatch)
    else Err(UnknownMessageType)
  }

  /** The checks shared by the encoders and the decoders, in the order they are made. */
  function CheckFields(id: uint64, clientIdLength: nat, sourceLength: nat, contentLength: nat)
    : Result<nat, Error>
  {
    if id == 0 then Err(ZeroId)
    else if clientIdLength == 0 || clientIdLength > MAX_CLIENT_ID_LENGTH then Err(InvalidClientIdLength)
    else if sourceLength > MAX_SOURCE_LENGTH then Err(SourceTooLong)
    else if contentLength > MAX_CONTENT_LENGTH then Err(ContentTooLong)
    else Ok(LOG_RECORD_FIXED_SIZE + clientIdLength + sourceLength + contentLength)
  }

  function LogRecordSize(m: LogMessage): Result<nat, Error> {
    CheckFields(m.id, |m.clientId|, |m.source|, |m.content|)
  }

  predicate ValidMessage(m: LogMessage) {
    LogRecordSize(m).Ok?
  }

  function EncodeHeader(kind: MessageType, payloadLength: uint32): (s: Bytes)
    ensures |s| == FRAME_HEADER_SIZE
  {
    BigEndian(MAGIC, 4) + [VERSION] + [TypeCode(kind)] + BigEndian(0, 2) + BigEndian(payloadLength, 4)
  }

  function EncodeFixed(m: LogMessage): (s: Bytes)
    ensures |s| == LOG_RECORD_FIXED_SIZE
  {
    BigEndian(m.id, 8) + BigEndian(ToBits(m.timestampMs), 8)
    + BigEndian(|m.clientId|, 4) + BigEndian(|m.source|, 4) + BigEndian(|m.content|, 4)
  }

  function EncodeRecord(m: LogMessage): (s: Bytes)
    ensures |s| == LOG_RECORD_FIXED_SIZE + |m.clientId| + |m.source| + |m.content|
  {
    EncodeFixed(m) + m.clientId + m.source + m.content
  }

  function EncodeRecords(ms: seq<LogMessage>): Bytes {
    if ms == [] then [] else EncodeRecords(ms[..|ms| - 1]) + EncodeRecord(ms[|ms| - 1])
  }

  function EncodeLog(m: LogMessage): (s: Bytes)
    requires ValidMessage(m)
    ensures |s| == FRAME_HEADER_SIZE + |EncodeRecord(m)|
  {
    EncodeHeader(Log, |EncodeRecord(m)|) + EncodeRecord(m)
  }

  ghost predicate SingleClient(ms: seq<LogMessage>) {
    forall i | 0 <= i < |ms| :: ms[i].clientId == ms[0].clientId
  }

  ghost predicate Increasing(ms: seq<LogMessage>) {
    forall i, j | 0 <= i < j < |ms| :: ms[i].id < ms[j].id
  }

  ghost predicate AllValid(ms: seq<LogMessage>) {
    forall i | 0 <= i < |ms| :: ValidMessage(ms[i])
  }

  /** The messages with an id above `mark`, in order. */
  function Above(ms: seq<LogMessage>, mark: uint64): (above: seq<LogMessage>)
    ensures |above| <= |ms|
  {
    if ms == [] then []
    else
      var last := |ms| - 1;
      Above(ms[..last], mark) + (if ms[last].id <= mark then [] else [ms[last]])
  }

  lemma {:induction false} AboveMembers(ms: seq<LogMessage>, mark: uint64)
    ensures forall m :: m in Above(ms, mark) <==> m.id > mark && m in ms
  {
    if ms != [] {
      AboveMembers(ms[..|ms| - 1], mark);
      assert ms == ms[..|ms| - 1] + [ms[|ms| - 1]];
    }
  }

  lemma {:induction false} AboveNone(ms: seq<LogMessage>, id: uint64)
    requires forall i | 0 <= i < |ms| :: ms[i].id <= id
    ensures Above(ms, id) == []
  {
    if ms != [] {
      AboveNone(ms[..|ms| - 1], id);
    }
  }

  /** The batches the protocol can carry. */
  ghost predicate ValidBatch(ms: seq<LogMessage>) {
    && 0 < |ms| <= MAX_BATCH_MESSAGE_COUNT
    && SingleClient(ms) && Increasing(ms) && AllValid(ms)
    && BATCH_PREFIX_SIZE + |EncodeRecords(ms)| <= MAX_FRAME_PAYLOAD_LENGTH
  }

  function EncodeBatch(ms: seq<LogMessage>): Bytes
    requires BATCH_PREFIX_SIZE + |EncodeRecords(ms)| <= MAX_FRAME_PAYLOAD_LENGTH
    requires |ms| <= MAX_BATCH_MESSAGE_COUNT
  {
    EncodeHeader(LogBatch, BATCH_PREFIX_SIZE + |EncodeRecords(ms)|)
    + BigEndian(|ms|, BATCH_PREFIX_SIZE) + EncodeRecords(ms)
  }

  function EncodeAck(confirmedId: uint64): Bytes {
    EncodeHeader(Ack, ACK_PAYLOAD_SIZE) + BigEndian(confirmedId, 8)
  }

  /** Where each field of a single-message frame is. */
  lemma LogFrameLayout(m: LogMessage)
    requires ValidMessage(m)
    ensures var e, a, b := EncodeLog(m), 40 + |m.clientId|, 40 + |m.clientId| + |m.source|;
      && e[0..8] == [0x4C, 0x47, 0x42, 0x31, 2, 1, 0, 0]  // "LGB1", version 2, type 1
      && e[8..12] == BigEndian(28 + |m.clientId| + |m.source| + |m.content|, 4)
      && e[12..20] == BigEndian(m.id, 8)
      && e[20..28] == BigEndian(if m.timestampMs < 0 then 0x1_0000_0000_0000_0000 + m.timestampMs else m.timestampMs, 8)
      && e[28..32] == BigEndian(|m.clientId|, 4) && e[32..36] == BigEndian(|m.source|, 4)
      && e[36..40] == BigEndian(|m.content|, 4)
      && e[40..a] == m.clientId && e[a..b] == m.source && e[b..] == m.content
  {
    hide BigEndian, EncodeHeader;
    HeaderStart(Log, |EncodeRecord(m)|);
    var head := EncodeHeader(Log, |EncodeRecord(m)|);
    var id, time := BigEndian(m.id, 8), BigEndian(ToBits(m.timestampMs), 8);
    var a, b, c := BigEndian(|m.clientId|, 4), BigEndian(|m.source|, 4), BigEndian(|m.content|, 4);
    var e := EncodeLog(m);
    assert e == head + (id + time + a + b + c + m.clientId + m.source + m.content);
    hide *;
    Slices(head, id, time, a, b, c, m.clientId, m.source, m.content);
  }

  lemma Slices(head: Bytes, id: Bytes, time: Bytes, a: Bytes, b: Bytes, c: Bytes, x: Bytes, y: Bytes, z: Bytes)
    requires |head| == 12 && |id| == |time| == 8 && |a| == |b| == |c| == 4
    ensures var e := head + (id + time + a + b + c + x + y + z);
      && e[0..8] == head[0..8] && e[8..12] == head[8..12] && e[12..20] == id && e[20..28] == time
      && e[28..32] == a && e[32..36] == b && e[36..40] == c
      && e[40..40 + |x|] == x && e[40 + |x|..40 + |x| + |y|] == y && e[40 + |x| + |y|..] == z
  {
  }

  lemma HeaderStart(kind: MessageType, payloadLength: uint32)
    ensures var head := EncodeHeader(kind, payloadLength);
      && head[0..8] == [0x4C, 0x47, 0x42, 0x31, 2, TypeCode(kind), 0, 0]
      && head[8..12] == BigEndian(payloadLength, 4)
  {
    assert BigEndian(MAGIC, 4) == [0x4C, 0x47, 0x42, 0x31] by {
      assert BigEndian(0x4C, 1) == [0x4C];
      assert BigEndian(0x4C47, 2) == [0x4C, 0x47];
      assert BigEndian(0x4C4742, 3) == [0x4C, 0x47, 0x42];
    }
    assert BigEndian(0, 2) == [0, 0] by {
      assert BigEndian(0, 1) == [0];
    }
    hide BigEndian;
  }

  /** Where each field of a batch frame is, its first record included. */
  lemma BatchFrameLayout(ms: seq<LogMessage>)
    requires |ms| <= MAX_BATCH_MESSAGE_COUNT && BATCH_PREFIX_SIZE + |EncodeRecords(ms)| <= MAX_FRAME_PAYLOAD_LENGTH
    ensures var e := EncodeBatch(ms);
      && e[0..8] == [0x4C, 0x47, 0x42, 0x31, 2, 3, 0, 0]
      && e[8..12] == BigEndian(4 + |EncodeRecords(ms)|, 4)
      && e[12..16] == BigEndian(|ms|, 4) && e[16..] == EncodeRecords(ms)
  {
    hide EncodeRecords, BigEndian, EncodeHeader;
    var records := EncodeRecords(ms);
    HeaderStart(LogBatch, BATCH_PREFIX_SIZE + |records|);
    var head, count := EncodeHeader(LogBatch, BATCH_PREFIX_SIZE + |records|), BigEndian(|ms|, 4);
    var e := EncodeBatch(ms);
    assert e == head + count + records;
    hide *;
    assert e[0..8] == head[0..8] && e[8..12] == head[8..12] && e[12..16] == count && e[16..] == records;
  }

  /** The records of a batch follow one another in its order. */
  lemma {:induction false} RecordsInOrder(a: seq<LogMessage>, b: seq<LogMessage>)
    ensures EncodeRecords(a + b) == EncodeRecords(a) + EncodeRecords(b)
    ensures |b| == 1 ==> EncodeRecords(b) == EncodeRecord(b[0])
  {
    hide EncodeRecord;
    if b == [] {
      assert a + b == a;
    } else {
      assert (a + b)[..|a + b| - 1] == a + b[..|b| - 1];
      RecordsInOrder(a, b[..|b| - 1]);
    }
  }

  /** Where each field of an ACK frame is. */
  lemma AckFrameLayout(id: uint64)
    ensures var e := EncodeAck(id);
      && |e| == 20 && e[0..8] == [0x4C, 0x47, 0x42, 0x31, 2, 2, 0, 0]
      && e[8..12] == BigEndian(8, 4) && e[12..20] == BigEndian(id, 8)
  {
    HeaderStart(Ack, ACK_PAYLOAD_SIZE);
    hide BigEndian, EncodeHeader;
  }

  // ---------- Reading it back: a value and the offset after it, or the first error ----------

  function UintAt(input: Bytes, offset: nat, width: nat): (value: nat)
    requires offset + width <= |input|
    ensures value < Pow256(width)
  {
    FromBigEndian(input[offset..offset + width])
  }

  function DecodeString(input: Bytes, offset: nat, length: nat): (r: Result<(Bytes, nat), Error>)
    ensures r.Ok? <==> offset + length <= |input|
  {
    if offset + length <= |input|
    then Ok((input[offset..offset + length], offset + length))
    else Err(UnexpectedEnd)
  }

  function DecodeHeader(header: Bytes): Result<FrameHeader, Error> {
    if |header| < FRAME_HEADER_SIZE then Err(UnexpectedEnd) else
    WidthLimits();
    if UintAt(header, 0, 4) != MAGIC then Err(InvalidMagic)
    else if header[4] != VERSION then Err(UnsupportedVersion)
    else if UintAt(header, 6, 2) != 0 then Err(ReservedBitsSet)
    else if UintAt(header, 8, 4) > MAX_FRAME_PAYLOAD_LENGTH then Err(PayloadTooLarge)
    else
      var kind :- ParseMessageType(header[5]);
      Ok(FrameHeader(VERSION, kind, UintAt(header, 8, 4)))
  }

  function DecodeStrings(input: Bytes, offset: nat, a: nat, b: nat, c: nat)
    : (r: Result<(Bytes, Bytes, Bytes), Error>)
    ensures r.Ok? <==> offset + a + b + c <= |input|
  {
    var (x, o1) :- DecodeString(input, offset, a);
    var (y, o2) :- DecodeString(input, o1, b);
    var (z, o3) :- DecodeString(input, o2, c);
    Ok((x, y, z))
  }

  function DecodeRecord(input: Bytes, offset: nat): (r: Result<(LogMessage, nat), Error>)
    ensures r.Ok? ==> offset < r.value.1 <= |input|
  {
    if offset + LOG_RECORD_FIXED_SIZE > |input| then Err(UnexpectedEnd) else
    WidthLimits();
    var id := UintAt(input, offset, 8);
    var timestampMs := FromBits(UintAt(input, offset + 8, 8));
    var clientIdLength := UintAt(input, offset + 16, 4);
    var sourceLength := UintAt(input, offset + 20, 4);
    var contentLength := UintAt(input, offset + 24, 4);
    var size :- CheckFields(id, clientIdLength, sourceLength, contentLength);
    var (clientId, source, content) :-
      DecodeStrings(input, offset + LOG_RECORD_FIXED_SIZE, clientIdLength, sourceLength, contentLength);
    Ok((LogMessage(id, clientId, timestampMs, source, content), offset + size))
  }

  function DecodeRecords(input: Bytes, offset: nat, count: nat): Result<(seq<LogMessage>, nat), Error> {
    if count == 0 then Ok(([], offset))
    else
      var (ms, mid) :- DecodeRecords(input, offset, count - 1);
      var (m, next) :- DecodeRecord(input, mid);
      Ok((ms + [m], next))
  }

  function DecodeLog(frame: Bytes): Result<LogMessage, Error> {
    var header :- DecodeHeader(frame);
    if header.kind != Log then Err(NotALogMessage)
    else if |frame| != FRAME_HEADER_SIZE + header.payloadLength then Err(FrameLengthMismatch)
    else
      var (m, next) :- DecodeRecord(frame, FRAME_HEADER_SIZE);
      if next != |frame| then Err(FieldsDoNotFillPayload) else Ok(m)
  }

  /** The first broken rule between neighbours at or after position `index`. */
  function CheckOrder(ms: seq<LogMessage>, index: nat): Option<Error>
    requires 1 <= index
    decreases |ms| - index
  {
    if index >= |ms| then None
    else if ms[index].clientId != ms[0].clientId then Some(MultipleClientIds)
    else if ms[index].id <= ms[index - 1].id then Some(IdsNotIncreasing)
    else CheckOrder(ms, index + 1)
  }

  function DecodeBatch(frame: Bytes): Result<seq<LogMessage>, Error> {
    var header :- DecodeHeader(frame);
    if header.kind != LogBatch then Err(NotALogBatch)
    else if |frame| != FRAME_HEADER_SIZE + header.payloadLength then Err(FrameLengthMismatch)
    else
      if |frame| < FRAME_HEADER_SIZE + BATCH_PREFIX_SIZE then Err(UnexpectedEnd) else
      var count := UintAt(frame, FRAME_HEADER_SIZE, BATCH_PREFIX_SIZE);
      if count == 0 || count > MAX_BATCH_MESSAGE_COUNT then Err(InvalidMessageCount)
      else
        var (ms, next) :- DecodeRecords(frame, FRAME_HEADER_SIZE + BATCH_PREFIX_SIZE, count);
        match CheckOrder(ms, 1)
        case Some(error) => Err(error)
        case None => if next != |frame| then Err(FieldsDoNotFillPayload) else Ok(ms)
  }

  function DecodeAck(frame: Bytes): Result<uint64, Error> {
    var header :- DecodeHeader(frame);
    if header.kind != Ack then Err(NotAnAck)
    else if |frame| != FRAME_HEADER_SIZE + header.payloadLength then Err(FrameLengthMismatch)
    else if header.payloadLength != ACK_PAYLOAD_SIZE then Err(InvalidAckLength)
    else
      WidthLimits();
      Ok(UintAt(frame, FRAME_HEADER_SIZE, 8))
  }

  // ---------- Header ----------

  lemma {:induction false} HeaderRoundTrip(kind: MessageType, payloadLength: uint32, rest: Bytes)
    ensures DecodeHeader(EncodeHeader(kind, payloadLength) + rest)
         == if payloadLength > MAX_FRAME_PAYLOAD_LENGTH then Err(PayloadTooLarge)
            else Ok(FrameHeader(VERSION, kind, payloadLength))
  {
    hide BigEndian, FromBigEndian;
    WidthLimits();
    var s := EncodeHeader(kind, payloadLength) + rest;
    assert s[0..4] == BigEndian(MAGIC, 4);
    assert s[6..8] == BigEndian(0, 2);
    assert s[8..12] == BigEndian(payloadLength, 4);
    FromBigEndianInverts(MAGIC, 4);
    FromBigEndianInverts(0, 2);
    FromBigEndianInverts(payloadLength, 4);
  }

  lemma {:induction false} HeaderSound(header: Bytes)
    requires DecodeHeader(header).Ok?
    ensures var h := DecodeHeader(header).value;
      && h.payloadLength <= MAX_FRAME_PAYLOAD_LENGTH
      && header[..FRAME_HEADER_SIZE] == EncodeHeader(h.kind, h.payloadLength)
  {
    BigEndianInverts(header[0..4]);
    BigEndianInverts(header[6..8]);
    BigEndianInverts(header[8..12]);
    var h := DecodeHeader(header).value;
    assert header[5] == TypeCode(h.kind);
    assert header[..FRAME_HEADER_SIZE]
        == header[0..4] + [header[4]] + [header[5]] + header[6..8] + header[8..12];
  }

  // ---------- One record ----------

  // The part of `input` that a part of an embedded string covers.
  lemma Within(input: Bytes, offset: nat, s: Bytes, from: nat, to: nat)
    requires offset + |s| <= |input| && input[offset..offset + |s|] == s
    requires from <= to <= |s|
    ensures input[offset + from..offset + to] == s[from..to]
  {
    forall k | 0 <= k < to - from ensures input[offset + from..offset + to][k] == s[from..to][k] {
      assert input[offset..offset + |s|][from + k] == s[from + k];
    }
  }

  // An embedded concatenation embeds its two parts side by side.
  lemma SplitAt(input: Bytes, offset: nat, x: Bytes, y: Bytes)
    requires offset + |x| + |y| <= |input|
    requires input[offset..offset + |x| + |y|] == x + y
    ensures input[offset..offset + |x|] == x
    ensures input[offset + |x|..offset + |x| + |y|] == y
  {
    Within(input, offset, x + y, 0, |x|);
    Within(input, offset, x + y, |x|, |x| + |y|);
  }

  lemma UintRoundTrip(input: Bytes, offset: nat, value: nat, width: nat)
    requires value < Pow256(width) && offset + width <= |input|
    requires input[offset..offset + width] == BigEndian(value, width)
    ensures UintAt(input, offset, width) == value
  {
    FromBigEndianInverts(value, width);
  }

  lemma {:induction false} FixedRoundTrip(m: LogMessage, input: Bytes, offset: nat)
    requires ValidMessage(m)
    requires offset + LOG_RECORD_FIXED_SIZE <= |input|
    requires input[offset..offset + LOG_RECORD_FIXED_SIZE] == EncodeFixed(m)
    ensures UintAt(input, offset, 8) == m.id
    ensures UintAt(input, offset + 8, 8) == ToBits(m.timestampMs)
    ensures UintAt(input, offset + 16, 4) == |m.clientId|
    ensures UintAt(input, offset + 20, 4) == |m.source|
    ensures UintAt(input, offset + 24, 4) == |m.content|
  {
    hide BigEndian, UintAt, ToBits;
    WidthLimits();
    var id, time := BigEndian(m.id, 8), BigEndian(ToBits(m.timestampMs), 8);
    var a, b, c := BigEndian(|m.clientId|, 4), BigEndian(|m.source|, 4), BigEndian(|m.content|, 4);
    SplitAt(input, offset, id + time + a + b, c);
    SplitAt(input, offset, id + time + a, b);
    SplitAt(input, offset, id + time, a);
    SplitAt(input, offset, id, time);
    UintRoundTrip(input, offset, m.id, 8);
    UintRoundTrip(input, offset + 8, ToBits(m.timestampMs), 8);
    UintRoundTrip(input, offset + 16, |m.clientId|, 4);
    UintRoundTrip(input, offset + 20, |m.source|, 4);
    UintRoundTrip(input, offset + 24, |m.content|, 4);
  }

  lemma StringsRoundTrip(m: LogMessage, input: Bytes, offset: nat)
    requires offset + |m.clientId| + |m.source| + |m.content| <= |input|
    requires input[offset..offset + |m.clientId| + |m.source| + |m.content|]
          == m.clientId + m.source + m.content
    ensures DecodeStrings(input, offset, |m.clientId|, |m.source|, |m.content|)
         == Ok((m.clientId, m.source, m.content))
  {
    SplitAt(input, offset, m.clientId + m.source, m.content);
    SplitAt(input, offset, m.clientId, m.source);
  }

  lemma {:induction false} RecordRoundTrip(m: LogMessage, input: Bytes, offset: nat)
    requires ValidMessage(m)
    requires offset + |EncodeRecord(m)| <= |input|
    requires input[offset..offset + |EncodeRecord(m)|] == EncodeRecord(m)
    ensures DecodeRecord(input, offset) == Ok((m, offset + |EncodeRecord(m)|))
  {
    hide UintAt, EncodeFixed, DecodeStrings;
    var strings := m.clientId + m.source + m.content;
    assert EncodeRecord(m) == EncodeFixed(m) + strings;
    SplitAt(input, offset, EncodeFixed(m), strings);
    FixedRoundTrip(m, input, offset);
    StringsRoundTrip(m, input, offset + 28);
  }

  lemma FixedSound(m: LogMessage, input: Bytes, offset: nat)
    requires offset + LOG_RECORD_FIXED_SIZE <= |input|
    requires UintAt(input, offset, 8) == m.id
    requires UintAt(input, offset + 8, 8) == ToBits(m.timestampMs)
    requires UintAt(input, offset + 16, 4) == |m.clientId|
    requires UintAt(input, offset + 20, 4) == |m.source|
    requires UintAt(input, offset + 24, 4) == |m.content|
    ensures input[offset..offset + LOG_RECORD_FIXED_SIZE] == EncodeFixed(m)
  {
    BigEndianInverts(input[offset..offset + 8]);
    BigEndianInverts(input[offset + 8..offset + 16]);
    BigEndianInverts(input[offset + 16..offset + 20]);
    BigEndianInverts(input[offset + 20..offset + 24]);
    BigEndianInverts(input[offset + 24..offset + 28]);
    Join(input, offset, offset + 8, offset + 16);
    Join(input, offset, offset + 16, offset + 20);
    Join(input, offset, offset + 20, offset + 24);
    Join(input, offset, offset + 24, offset + 28);
  }

  lemma {:induction false} RecordSound(input: Bytes, offset: nat)
    requires DecodeRecord(input, offset).Ok?
    ensures var (m, next) := DecodeRecord(input, offset).value;
      && ValidMessage(m)
      && next == offset + |EncodeRecord(m)| <= |input|
      && input[offset..next] == EncodeRecord(m)
  {
    hide EncodeFixed, UintAt;
    var (m, next) := DecodeRecord(input, offset).value;
    WidthLimits();
    FixedSound(m, input, offset);
    var b := offset + 28;
    var c, d := b + |m.clientId|, b + |m.clientId| + |m.source|;
    Join(input, offset, b, c);
    Join(input, offset, c, d);
    Join(input, offset, d, next);
  }

  // ---------- Runs of records ----------

  lemma {:induction false} RecordsRoundTrip(ms: seq<LogMessage>, input: Bytes, offset: nat)
    requires AllValid(ms)
    requires offset + |EncodeRecords(ms)| <= |input|
    requires input[offset..offset + |EncodeRecords(ms)|] == EncodeRecords(ms)
    ensures DecodeRecords(input, offset, |ms|) == Ok((ms, offset + |EncodeRecords(ms)|))
  {
    hide DecodeRecord, EncodeRecord, ValidMessage;
    if ms == [] {
    } else {
      var init, last := ms[..|ms| - 1], ms[|ms| - 1];
      var head := EncodeRecords(init);
      assert EncodeRecords(ms) == head + EncodeRecord(last);
      hide EncodeRecords;
      SplitAt(input, offset, head, EncodeRecord(last));
      RecordsRoundTrip(init, input, offset);
      RecordRoundTrip(last, input, offset + |head|);
      assert ms == init + [last];
    }
  }

  lemma {:induction false} RecordsSound(input: Bytes, offset: nat, count: nat)
    requires offset <= |input| && DecodeRecords(input, offset, count).Ok?
    ensures var (ms, next) := DecodeRecords(input, offset, count).value;
      && |ms| == count && AllValid(ms)
      && next == offset + |EncodeRecords(ms)| <= |input|
      && input[offset..next] == EncodeRecords(ms)
  {
    hide DecodeRecord, EncodeRecord, ValidMessage;
    if count == 0 {
    } else {
      RecordsSound(input, offset, count - 1);
      var (init, mid) := DecodeRecords(input, offset, count - 1).value;
      RecordSound(input, mid);
      var (m, next) := DecodeRecord(input, mid).value;
      assert (init + [m])[..count - 1] == init;
      Join(input, offset, mid, next);
    }
  }

  // The rules that CheckOrder applies to neighbours, from position `index` on.
  ghost predicate OrderedFrom(ms: seq<LogMessage>, index: nat)
    requires 1 <= index
  {
    forall i | index <= i < |ms| :: ms[i].clientId == ms[0].clientId && ms[i - 1].id < ms[i].id
  }

  lemma {:induction false} CheckOrderMeaning(ms: seq<LogMessage>, index: nat)
    requires 1 <= index
    ensures CheckOrder(ms, index).None? <==> OrderedFrom(ms, index)
    decreases |ms| - index
  {
    if index < |ms| {
      CheckOrderMeaning(ms, index + 1);
    }
  }

  lemma {:induction false} NeighboursIncrease(ms: seq<LogMessage>)
    ensures OrderedFrom(ms, 1) <==> SingleClient(ms) && Increasing(ms)
  {
    if OrderedFrom(ms, 1) && |ms| > 0 {
      var n := |ms| - 1;
      var init := ms[..n];
      assert OrderedFrom(init, 1);
      NeighboursIncrease(init);
      assert forall i | 0 <= i < n :: init[i] == ms[i];
      forall i, j | 0 <= i < j < |ms| ensures ms[i].id < ms[j].id {
        if j == n && i < n - 1 {
          assert init[i].id < init[n - 1].id;
        }
      }
    }
  }

  // ---------- Whole frames: decoding is exactly the inverse of encoding ----------

  lemma LogRoundTrip(m: LogMessage)
    requires ValidMessage(m)
    ensures DecodeLog(EncodeLog(m)) == Ok(m)
  {
    hide EncodeHeader, DecodeHeader, EncodeRecord, DecodeRecord;
    var frame := EncodeLog(m);
    HeaderRoundTrip(Log, |EncodeRecord(m)|, EncodeRecord(m));
    assert frame[12..12 + |EncodeRecord(m)|] == EncodeRecord(m);
    RecordRoundTrip(m, frame, FRAME_HEADER_SIZE);
  }

  lemma LogSound(frame: Bytes)
    requires DecodeLog(frame).Ok?
    ensures var m := DecodeLog(frame).value; ValidMessage(m) && frame == EncodeLog(m)
  {
    hide EncodeHeader, DecodeHeader, EncodeRecord, DecodeRecord, ValidMessage;
    HeaderSound(frame);
    RecordSound(frame, FRAME_HEADER_SIZE);
    Join(frame, 0, FRAME_HEADER_SIZE, |frame|);
  }

  /** A single-log frame is accepted if and only if it is the encoding of the result. */
  lemma {:induction false} LogBijection(frame: Bytes, m: LogMessage)
    ensures DecodeLog(frame) == Ok(m) <==> ValidMessage(m) && frame == EncodeLog(m)
  {
    hide DecodeLog, EncodeLog, ValidMessage;
    if ValidMessage(m) {
      LogRoundTrip(m);
    }
    if DecodeLog(frame).Ok? {
      LogSound(frame);
    }
  }

  lemma BatchRoundTrip(ms: seq<LogMessage>)
    requires ValidBatch(ms)
    ensures DecodeBatch(EncodeBatch(ms)) == Ok(ms)
  {
    hide EncodeRecords, DecodeRecords, ValidMessage;
    WidthLimits();
    CheckOrderMeaning(ms, 1);
    NeighboursIncrease(ms);
    var frame := EncodeBatch(ms);
    var payload := BigEndian(|ms|, 4) + EncodeRecords(ms);
    assert frame == EncodeHeader(LogBatch, |payload|) + payload;
    HeaderRoundTrip(LogBatch, |payload|, payload);
    hide DecodeHeader, EncodeHeader;
    assert frame[12..16] == BigEndian(|ms|, 4);
    UintRoundTrip(frame, 12, |ms|, 4);
    assert frame[16..16 + |EncodeRecords(ms)|] == EncodeRecords(ms);
    RecordsRoundTrip(ms, frame, 16);
  }

  lemma BatchSound(frame: Bytes)
    requires DecodeBatch(frame).Ok?
    ensures var ms := DecodeBatch(frame).value; ValidBatch(ms) && frame == EncodeBatch(ms)
  {
    hide EncodeRecords, DecodeRecords, ValidMessage;
    var ms := DecodeBatch(frame).value;
    HeaderSound(frame);
    hide DecodeHeader, EncodeHeader;
    CheckOrderMeaning(ms, 1);
    NeighboursIncrease(ms);
    BigEndianInverts(frame[12..16]);
    RecordsSound(frame, 16, UintAt(frame, 12, 4));
    Join(frame, 0, 12, 16);
    Join(frame, 0, 16, |frame|);
  }

  /** A batch frame is accepted if and only if it is the encoding of the resulting valid batch. */
  lemma {:induction false} BatchBijection(frame: Bytes, ms: seq<LogMessage>)
    ensures DecodeBatch(frame) == Ok(ms) <==> ValidBatch(ms) && frame == EncodeBatch(ms)
  {
    hide EncodeRecords, DecodeBatch, ValidMessage;
    if ValidBatch(ms) {
      BatchRoundTrip(ms);
    }
    if DecodeBatch(frame).Ok? {
      BatchSound(frame);
    }
  }

  /** An ACK frame is accepted if and only if it is the encoding of the resulting id. */
  lemma {:induction false} AckBijection(frame: Bytes, id: uint64)
    ensures DecodeAck(frame) == Ok(id) <==> frame == EncodeAck(id)
  {
    WidthLimits();
    if frame == EncodeAck(id) {
      HeaderRoundTrip(Ack, ACK_PAYLOAD_SIZE, BigEndian(id, 8));
      assert frame[12..20] == BigEndian(id, 8);
      UintRoundTrip(frame, 12, id, 8);
    }
    if DecodeAck(frame) == Ok(id) {
      HeaderSound(frame);
      BigEndianInverts(frame[12..20]);
      assert frame == frame[..12] + frame[12..20];
    }
  }
}
