/**
 The client's write-ahead log: one log frame per unconfirmed message. First what a file
 of frames means to recovery, then the class that keeps the file and the pending messages.
 */
module WriteAheadLog {
  import opened Words
  import opened Protocol
  import opened Persistence
  import SocketIO
  import Codec

  datatype WalError = Malformed(error: Error) | NonLogFrame | IdsNotIncreasing | MultipleClientIds | Io

  /** Lists of messages that a WAL may hold. */
  ghost predicate Storable(ms: seq<LogMessage>) {
    AllValid(ms) && Increasing(ms) && SingleClient(ms)
  }

  function LogFrames(ms: seq<LogMessage>): Bytes
    requires AllValid(ms)
  {
    if ms == [] then [] else EncodeLog(ms[0]) + LogFrames(ms[1..])
  }

  // What an interrupted append leaves at the end of the file.
  ghost predicate CutFrame(tail: Bytes) {
    tail == [] || exists m | ValidMessage(m) :: tail <= EncodeLog(m) && |tail| < |EncodeLog(m)|
  }

  // The tails that recovery takes for an interrupted append.
  predicate Incomplete(tail: Bytes) {
    || |tail| < FRAME_HEADER_SIZE
    || (&& DecodeHeader(tail).Ok?
        && DecodeHeader(tail).value.kind == Log
        && |tail| < FRAME_HEADER_SIZE + DecodeHeader(tail).value.payloadLength)
  }

  // The message may follow those already recovered.
  function CheckNext(acc: seq<LogMessage>, m: LogMessage): Option<WalError> {
    if acc != [] && m.id <= acc[|acc| - 1].id then Some(WalError.IdsNotIncreasing)
    else if acc != [] && m.clientId != acc[0].clientId then Some(WalError.MultipleClientIds)
    else None
  }

  /** The messages recovered from the rest of the file after `acc`, and whether the end was torn. */
  function Recover(data: Bytes, acc: seq<LogMessage>): Result<(seq<LogMessage>, bool), WalError>
    decreases |data|
  {
    if data == [] then Ok((acc, false))
    else if |data| < FRAME_HEADER_SIZE then Ok((acc, true))
    else
      match DecodeHeader(data)
      case Err(error) => Err(Malformed(error))
      case Ok(header) =>
        if header.kind != Log then Err(NonLogFrame)
        else
          var frameSize := FRAME_HEADER_SIZE + header.payloadLength;
          if |data| < frameSize then Ok((acc, true))
          else
            match DecodeLog(data[..frameSize])
            case Err(error) => Err(Malformed(error))
            case Ok(m) =>
              match CheckNext(acc, m)
              case Some(error) => Err(error)
              case None => Recover(data[frameSize..], acc + [m])
  }

  // ---------- Recovery finds exactly the complete records ----------

  lemma LogFrameHeader(m: LogMessage, rest: Bytes)
    requires ValidMessage(m)
    ensures DecodeHeader(EncodeLog(m) + rest) == Ok(FrameHeader(VERSION, Log, |EncodeRecord(m)|))
  {
    hide EncodeHeader, DecodeHeader, EncodeRecord;
    HeaderRoundTrip(Log, |EncodeRecord(m)|, EncodeRecord(m) + rest);
    assert EncodeLog(m) + rest == EncodeHeader(Log, |EncodeRecord(m)|) + (EncodeRecord(m) + rest);
  }

  lemma RecoverOne(m: LogMessage, rest: Bytes, acc: seq<LogMessage>)
    requires ValidMessage(m) && CheckNext(acc, m) == None
    ensures Recover(EncodeLog(m) + rest, acc) == Recover(rest, acc + [m])
  {
    LogFrameHeader(m, rest);
    LogBijection(EncodeLog(m), m);
    hide DecodeHeader, DecodeLog, EncodeLog, EncodeRecord, ValidMessage, CheckNext;
    var data := EncodeLog(m) + rest;
    assert data[..|EncodeLog(m)|] == EncodeLog(m) && data[|EncodeLog(m)|..] == rest;
  }

  lemma RecoverTail(tail: Bytes, acc: seq<LogMessage>)
    requires Incomplete(tail)
    ensures Recover(tail, acc) == Ok((acc, tail != []))
  {
    hide DecodeHeader, DecodeLog;
  }

  lemma NextIsStorable(acc: seq<LogMessage>, ms: seq<LogMessage>)
    requires Storable(acc + ms) && ms != []
    ensures ValidMessage(ms[0]) && CheckNext(acc, ms[0]) == None
  {
    var all := acc + ms;
    assert all[|acc|] == ms[0];
    if acc != [] {
      assert all[|acc| - 1] == acc[|acc| - 1] && all[0] == acc[0];
    }
    hide ValidMessage;
  }

  lemma {:induction false} RecoverComplete(ms: seq<LogMessage>, tail: Bytes, acc: seq<LogMessage>)
    requires AllValid(ms) && Storable(acc + ms) && Incomplete(tail)
    ensures Recover(LogFrames(ms) + tail, acc) == Ok((acc + ms, tail != []))
  {
    hide Recover, EncodeLog, Incomplete, ValidMessage;
    if ms == [] {
      RecoverTail(tail, acc);
      assert LogFrames(ms) + tail == tail && acc + ms == acc;
    } else {
      var rest := LogFrames(ms[1..]) + tail;
      assert LogFrames(ms) + tail == EncodeLog(ms[0]) + rest;
      NextIsStorable(acc, ms);
      RecoverOne(ms[0], rest, acc);
      assert acc + [ms[0]] + ms[1..] == acc + ms;
      RecoverComplete(ms[1..], tail, acc + [ms[0]]);
    }
  }

  lemma StorableSnoc(acc: seq<LogMessage>, m: LogMessage)
    requires Storable(acc) && ValidMessage(m)
    ensures Storable(acc + [m]) <==> CheckNext(acc, m) == None
  {
    hide ValidMessage;
    var all := acc + [m];
    assert all[|acc|] == m;
    assert forall i | 0 <= i < |acc| :: all[i] == acc[i];
    if acc != [] {
      assert all[0] == acc[0];
    }
    if Storable(all) && acc != [] {
      assert all[|acc| - 1].id < all[|acc|].id && all[|acc|].clientId == all[0].clientId;
    }
  }

  // How recovery takes the first frame of a file that it gets past.
  lemma RecoverUnfolds(data: Bytes, acc: seq<LogMessage>) returns (frame: Bytes, rest: Bytes, m: LogMessage)
    requires Recover(data, acc).Ok? && !Incomplete(data)
    ensures data == frame + rest && DecodeLog(frame) == Ok(m)
    ensures CheckNext(acc, m) == None && Recover(data, acc) == Recover(rest, acc + [m])
  {
    hide DecodeHeader, DecodeLog, CheckNext;
    var frameSize := FRAME_HEADER_SIZE + DecodeHeader(data).value.payloadLength;
    frame, rest := data[..frameSize], data[frameSize..];
    m := DecodeLog(frame).value;
  }

  // The first frame of a file that recovery gets past.
  lemma RecoverHead(data: Bytes, acc: seq<LogMessage>) returns (m: LogMessage, rest: Bytes)
    requires Recover(data, acc).Ok? && !Incomplete(data)
    ensures ValidMessage(m) && data == EncodeLog(m) + rest
    ensures CheckNext(acc, m) == None && Recover(data, acc) == Recover(rest, acc + [m])
  {
    hide Recover, Incomplete, DecodeLog, EncodeLog, ValidMessage, CheckNext;
    var frame: Bytes;
    frame, rest, m := RecoverUnfolds(data, acc);
    LogBijection(frame, m);
  }

  lemma {:induction false} RecoverSound(data: Bytes, acc: seq<LogMessage>) returns (ms: seq<LogMessage>, tail: Bytes)
    requires Storable(acc) && Recover(data, acc).Ok?
    ensures AllValid(ms) && Storable(acc + ms) && Incomplete(tail)
    ensures data == LogFrames(ms) + tail && Recover(data, acc) == Ok((acc + ms, tail != []))
    decreases |data|
  {
    hide Recover, Incomplete, EncodeLog, ValidMessage, Storable, CheckNext;
    if Incomplete(data) {
      ms, tail := [], data;
      RecoverTail(data, acc);
      assert acc + ms == acc && LogFrames(ms) + tail == tail;
    } else {
      var m, rest := RecoverHead(data, acc);
      StorableSnoc(acc, m);
      ms, tail := RecoverSound(rest, acc + [m]);
      LogFramesCons(m, ms);
      hide LogFrames;
      assert data == EncodeLog(m) + LogFrames(ms) + tail;
      assert acc + [m] + ms == acc + ([m] + ms);
      ms := [m] + ms;
    }
  }

  lemma LogFramesCons(m: LogMessage, ms: seq<LogMessage>)
    requires ValidMessage(m) && AllValid(ms)
    ensures AllValid([m] + ms)
    ensures LogFrames([m] + ms) == EncodeLog(m) + LogFrames(ms)
  {
    hide EncodeLog, ValidMessage;
    assert ([m] + ms)[1..] == ms;
  }

  /** A WAL loads as `ms` if and only if it is the frames of a storable list and an incomplete frame at most. */
  lemma {:induction false} RecoveryIsExact(data: Bytes, ms: seq<LogMessage>, torn: bool)
    ensures Recover(data, []) == Ok((ms, torn))
       <==> Storable(ms) && exists tail :: Incomplete(tail) && (torn <==> tail != []) && data == LogFrames(ms) + tail
  {
    hide Recover, Incomplete, LogFrames, Storable;
    if Recover(data, []).Ok? {
      assert Storable([]) by {
        EmptyIsStorable();
      }
      var ms', tail := RecoverSound(data, []);
      assert [] + ms' == ms';
    }
    if Storable(ms) {
      StorableIsValid(ms);
      assert [] + ms == ms;
      forall tail | Incomplete(tail) && data == LogFrames(ms) + tail
        ensures Recover(data, []) == Ok((ms, tail != []))
      {
        RecoverComplete(ms, tail, []);
      }
    }
  }

  lemma EmptyIsStorable()
    ensures Storable([])
  {
  }

  lemma StorableIsValid(ms: seq<LogMessage>)
    requires Storable(ms)
    ensures AllValid(ms)
  {
  }

  // An append cut anywhere is recognised as such.
  lemma CutIsIncomplete(tail: Bytes)
    requires CutFrame(tail)
    ensures Incomplete(tail)
  {
    if |tail| >= FRAME_HEADER_SIZE {
      var m :| ValidMessage(m) && tail <= EncodeLog(m) && |tail| < |EncodeLog(m)|;
      LogFrameHeader(m, []);
      assert EncodeLog(m) + [] == EncodeLog(m);
      assert tail[..FRAME_HEADER_SIZE] == EncodeLog(m)[..FRAME_HEADER_SIZE];
      SocketIO.HeaderOfPrefix(tail, EncodeLog(m));
    }
  }

  /** A crash in the middle of an append loses nothing that was complete before it. */
  lemma TornAppendRecovery(ms: seq<LogMessage>, m: LogMessage, k: nat)
    requires Storable(ms) && ValidMessage(m) && k < |EncodeLog(m)|
    ensures Recover(LogFrames(ms) + EncodeLog(m)[..k], []) == Ok((ms, k > 0))
  {
    var tail := EncodeLog(m)[..k];
    assert CutFrame(tail);
    CutIsIncomplete(tail);
    assert [] + ms == ms;
    RecoverComplete(ms, tail, []);
  }

  lemma LogFrameBytes(m: LogMessage)
    requires ValidMessage(m)
    ensures |EncodeLog(m)| >= 12
    ensures EncodeLog(m)[..8] == [0x4C, 0x47, 0x42, 0x31, 2, 1, 0, 0]
  {
    hide EncodeRecord, ValidMessage;
    MagicBytes();
    var tail := BigEndian(|EncodeRecord(m)|, 4) + EncodeRecord(m);
    assert EncodeLog(m) == [0x4C, 0x47, 0x42, 0x31, 2, 1, 0, 0] + tail;
  }

  lemma MagicBytes()
    ensures BigEndian(MAGIC, 4) == [0x4C, 0x47, 0x42, 0x31]
    ensures BigEndian(0, 2) == [0, 0]
  {
    assert BigEndian(0x4C, 1) == [] + [0x4C];
    assert BigEndian(0x4C47, 2) == [0x4C] + [0x47];
    assert BigEndian(0x4C4742, 3) == [0x4C, 0x47] + [0x42];
    assert BigEndian(0, 1) == [] + [0];
  }

  // Behind 1 to 8 bytes of a torn frame, the next frame's magic lands where a field cannot hold it.
  lemma TornHeader(torn: LogMessage, k: nat, m: LogMessage)
    requires ValidMessage(torn) && ValidMessage(m) && 0 < k <= 8
    ensures DecodeHeader(EncodeLog(torn)[..k] + EncodeLog(m)).Err?
  {
    hide EncodeLog, ValidMessage, UintAt;
    LogFrameBytes(torn);
    LogFrameBytes(m);
    MagicBytes();
    var data := EncodeLog(torn)[..k] + EncodeLog(m);
    assert data[k] == EncodeLog(m)[..8][0] == 0x4C;
    if k < 4 {
      FieldBytes(data, 0, 4);
      assert data[0..4][k] == 0x4C;
    } else if k == 6 || k == 7 {
      FieldBytes(data, 6, 2);
      assert data[6..8][k - 6] == 0x4C;
    } else if k == 8 {
      assert data[8..12] == EncodeLog(m)[..8][..4] == BigEndian(MAGIC, 4);
      WidthLimits();
      UintRoundTrip(data, 8, MAGIC, 4);
    }
  }

  lemma FieldBytes(data: Bytes, offset: nat, width: nat)
    requires offset + width <= |data|
    ensures BigEndian(UintAt(data, offset, width), width) == data[offset..offset + width]
  {
    BigEndianInverts(data[offset..offset + width]);
  }

  /**
   Why the producer must stop after a failed append: if another record were appended behind
   the torn one, the whole file would no longer load.
   */
  lemma AppendAfterTornAppend(ms: seq<LogMessage>, torn: LogMessage, k: nat, m: LogMessage)
    requires Storable(ms) && ValidMessage(torn) && ValidMessage(m) && 0 < k <= 8
    ensures Recover(LogFrames(ms) + (EncodeLog(torn)[..k] + EncodeLog(m)), []).Err?
  {
    var data := EncodeLog(torn)[..k] + EncodeLog(m);
    assert DecodeHeader(data).Err? by {
      TornHeader(torn, k, m);
    }
    hide DecodeHeader, EncodeLog, ValidMessage;
    assert [] + ms == ms;
    RecoverFails(ms, data, []);
  }

  // The four bytes of a length field.
  lemma FourBytes(v: nat)
    requires v < 0x100_0000
    ensures var b := BigEndian(v, 4);
      b[0] == 0 && b[1] == v / 0x1_0000 && b[2] == v / 0x100 % 0x100 && b[3] == v % 0x100
  {
    var a := v / 0x100;
    assert a / 0x100 == v / 0x1_0000;
    assert BigEndian(a / 0x100 / 0x100, 1)[0] == 0;
    assert BigEndian(a / 0x100, 2)[1] == a / 0x100 % 0x100;
    assert BigEndian(a, 3) == BigEndian(a / 0x100, 2) + [a % 0x100];
    assert BigEndian(v, 4) == BigEndian(a, 3) + [v % 0x100];
  }

  // What the sizes of the fields say about the bytes of a frame.
  ghost predicate FrameShape(e: Bytes) {
    && |e| >= 41
    && e[..8] == [0x4C, 0x47, 0x42, 0x31, 2, 1, 0, 0]
    && e[8] == 0 && e[9] <= 0x10 && (e[9] != 0 || e[10] != 0 || e[11] != 0)
    && e[28] == 0 && e[29] == 0 && e[30] == 0
    && e[32] == 0 && e[33] == 0 && e[34] <= 0x10
    && e[36] == 0
  }

  lemma FrameLayout(m: LogMessage)
    requires ValidMessage(m)
    ensures FrameShape(EncodeLog(m)) && EncodeLog(m)[12..20] == BigEndian(m.id, 8)
  {
    LogFrameBytes(m);
    LayoutOf(m);
    SizesOf(m);
    LayoutHasShape(EncodeLog(m), |EncodeRecord(m)|, |m.clientId|, |m.source|, |m.content|) by {
      hide *;
    }
    hide *;
  }

  lemma LayoutHasShape(e: Bytes, size: nat, a: nat, b: nat, c: nat)
    requires |e| >= 41 && e[..8] == [0x4C, 0x47, 0x42, 0x31, 2, 1, 0, 0]
    requires e[8..12] == BigEndian(size, 4) && e[28..32] == BigEndian(a, 4)
    requires e[32..36] == BigEndian(b, 4) && e[36..40] == BigEndian(c, 4)
    requires 0 < size <= 0x10_FFFF && a < 0x100 && b <= 0x10FF && c <= 0x10_FFFF
    ensures FrameShape(e)
  {
    hide BigEndian;
    LengthAt(e, 8, size);
    LengthAt(e, 28, a);
    LengthAt(e, 32, b);
    LengthAt(e, 36, c);
  }

  lemma SizesOf(m: LogMessage)
    requires ValidMessage(m)
    ensures 0 < |EncodeRecord(m)| <= 0x10_FFFF
    ensures |m.clientId| < 0x100 && |m.source| <= 0x10FF && |m.content| <= 0x10_FFFF
  {
  }

  lemma LengthAt(e: Bytes, at: nat, v: nat)
    requires v < 0x100_0000 && at + 4 <= |e| && e[at..at + 4] == BigEndian(v, 4)
    ensures e[at] == 0 && e[at + 1] == v / 0x1_0000 && e[at + 2] == v / 0x100 % 0x100 && e[at + 3] == v % 0x100
  {
    FourBytes(v);
    hide BigEndian;
    var b := e[at..at + 4];
    assert e[at] == b[0] && e[at + 1] == b[1] && e[at + 2] == b[2] && e[at + 3] == b[3];
  }

  lemma LayoutOf(m: LogMessage)
    requires ValidMessage(m)
    ensures var e := EncodeLog(m);
      && |e| == 12 + |EncodeRecord(m)| >= 41
      && e[8..12] == BigEndian(|EncodeRecord(m)|, 4)
      && e[12..20] == BigEndian(m.id, 8)
      && e[28..32] == BigEndian(|m.clientId|, 4)
      && e[32..36] == BigEndian(|m.source|, 4)
      && e[36..40] == BigEndian(|m.content|, 4)
  {
    hide BigEndian;
    var head := BigEndian(MAGIC, 4) + [VERSION] + [TypeCode(Log)] + BigEndian(0, 2);
    var id, time := BigEndian(m.id, 8), BigEndian(ToBits(m.timestampMs), 8);
    var a, b, c := BigEndian(|m.clientId|, 4), BigEndian(|m.source|, 4), BigEndian(|m.content|, 4);
    var rest := m.clientId + m.source + m.content;
    assert EncodeRecord(m) == id + time + a + b + c + rest;
    assert EncodeLog(m) == head + BigEndian(|EncodeRecord(m)|, 4) + id + time + a + b + c + rest;
  }

  // A frame behind a front part of an older frame is not where the older frame would have been.
  lemma Misaligned(torn: LogMessage, k: nat, m: LogMessage, tail: Bytes)
    requires ValidMessage(torn) && ValidMessage(m) && torn.id < m.id && 0 < k < |EncodeLog(torn)|
    ensures EncodeLog(torn)[..k] + EncodeLog(m) != EncodeLog(m) + tail
  {
    FrameLayout(torn);
    FrameLayout(m);
    if k >= 20 {
      DifferentIds(torn.id, m.id);
    }
    ShapesDiffer(EncodeLog(torn), k, EncodeLog(m), tail) by {
      hide *;
    }
  }

  lemma ShapesDiffer(f: Bytes, k: nat, e: Bytes, tail: Bytes)
    requires 0 < k < |f| && FrameShape(e) && (k >= 20 ==> f[12..20] != e[12..20])
    ensures f[..k] + e != e + tail
  {
    if k >= 20 {
      assert (f[..k] + e)[12..20] == f[12..20];
      assert (e + tail)[12..20] == e[12..20];
    } else {
      NotPeriodic(e, k);
      hide FrameShape;
      var i :| k <= i < |e| && e[i] != e[i - k];
      assert (f[..k] + e)[i] == e[i - k];
      assert (e + tail)[i] == e[i];
    }
  }

  lemma DifferentIds(a: uint64, b: uint64)
    requires a != b
    ensures BigEndian(a, 8) != BigEndian(b, 8)
  {
    WidthLimits();
    FromBigEndianInverts(a, 8);
    FromBigEndianInverts(b, 8);
    hide BigEndian, FromBigEndian, Pow256;
  }

  // No frame repeats itself at so small a distance: the magic would land in a field that cannot hold it.
  lemma NotPeriodic(e: Bytes, k: nat)
    requires 0 < k < 20 && FrameShape(e)
    ensures exists i :: k <= i < |e| && e[i] != e[i - k]
  {
    assert e[0] == e[..8][0] == 0x4C && e[2] == e[..8][2] == 0x42;
    assert e[1] == e[..8][1] && e[3] == e[..8][3] && e[4] == e[..8][4];
    assert e[5] == e[..8][5] && e[6] == e[..8][6] && e[7] == e[..8][7];
    if k < 10 {
      assert e[k] != e[k - k];
    } else if k == 10 || k == 15 {
      assert e[30] != e[30 - k] || e[20] != e[20 - k] || e[k] != e[k - k];
    } else if k == 11 {
      assert e[33] != e[33 - k] || e[22] != e[22 - k] || e[k] != e[k - k];
    } else if k == 12 || k == 18 {
      assert e[36] != e[36 - k] || e[24] != e[24 - k] || e[k] != e[k - k];
    } else if k == 13 {
      assert e[28] != e[28 - k] || e[15] != e[15 - k];
    } else if k == 14 {
      assert e[28] != e[28 - k] || e[k] != e[k - k];
    } else if k == 16 {
      assert e[32] != e[32 - k] || e[k] != e[k - k];
    } else if k == 17 {
      assert e[34] != e[34 - k] || e[k] != e[k - k];
    } else {
      assert e[28] != e[28 - k] || e[29] != e[29 - k] || e[30] != e[30 - k];
    }
  }

  /**
   However the torn record was cut, a newer record appended behind it is never read back as the
   next record: an append that reported success would be lost or make the file unreadable.
   */
  lemma AppendBehindTornIsLost(ms: seq<LogMessage>, torn: LogMessage, k: nat, m: LogMessage, cut: bool)
    requires AllValid(ms) && ValidMessage(torn) && ValidMessage(m)
    requires torn.id < m.id && 0 < k < |EncodeLog(torn)|
    ensures Recover(LogFrames(ms) + (EncodeLog(torn)[..k] + EncodeLog(m)), []) != Ok((ms + [m], cut))
  {
    hide Recover, EncodeLog, ValidMessage, LogFrames;
    var behind := EncodeLog(torn)[..k] + EncodeLog(m);
    if Recover(LogFrames(ms) + behind, []) == Ok((ms + [m], cut)) {
      var tail := NextRecordStarts(LogFrames(ms) + behind, ms, m, cut);
      Misaligned(torn, k, m, tail);
      SamePrefix(LogFrames(ms), behind, EncodeLog(m) + tail);
    }
  }

  lemma NextRecordStarts(data: Bytes, ms: seq<LogMessage>, m: LogMessage, cut: bool) returns (tail: Bytes)
    requires AllValid(ms) && ValidMessage(m) && Recover(data, []) == Ok((ms + [m], cut))
    ensures data == LogFrames(ms) + (EncodeLog(m) + tail)
  {
    hide Recover, EncodeLog, ValidMessage, Incomplete, LogFrames;
    RecoveryIsExact(data, ms + [m], cut);
    LogFramesSnoc(ms, m);
    tail :| data == LogFrames(ms + [m]) + tail;
  }

  lemma SamePrefix(a: Bytes, x: Bytes, y: Bytes)
    requires x != y
    ensures a + x != a + y
  {
    assert (a + x)[|a|..] == x && (a + y)[|a|..] == y;
  }

  lemma {:induction false} RecoverFails(ms: seq<LogMessage>, data: Bytes, acc: seq<LogMessage>)
    requires AllValid(ms) && Storable(acc + ms)
    requires |data| >= FRAME_HEADER_SIZE && DecodeHeader(data).Err?
    ensures Recover(LogFrames(ms) + data, acc).Err?
  {
    hide EncodeLog, DecodeHeader, ValidMessage, DecodeLog;
    if ms == [] {
      assert LogFrames(ms) + data == data;
    } else {
      hide Recover;
      var rest := LogFrames(ms[1..]) + data;
      assert LogFrames(ms) + data == EncodeLog(ms[0]) + rest;
      NextIsStorable(acc, ms);
      RecoverOne(ms[0], rest, acc);
      assert acc + [ms[0]] + ms[1..] == acc + ms;
      RecoverFails(ms[1..], data, acc + [ms[0]]);
    }
  }

  // ---------- The log as messages: what each operation may do to disk and memory ----------

  /** `records` are the complete records on disk, `torn` whether an append was cut behind them. */
  datatype WalState = WalState(records: seq<LogMessage>, torn: bool, pending: seq<LogMessage>)

  ghost predicate Stores(content: Bytes, records: seq<LogMessage>, torn: bool) {
    && AllValid(records)
    && exists tail :: Incomplete(tail) && (torn <==> tail != []) && content == LogFrames(records) + tail
  }

  // A failed append may have left nothing, a part, or all of the record.
  ghost predicate AppendStep(w: WalState, m: LogMessage, w': WalState, ok: bool) {
    if ok then
      ValidMessage(m) && w' == w.(records := w.records + [m], pending := w.pending + [m])
    else
      || w' == w
      || (ValidMessage(m) && w' == w.(torn := true))
      || (ValidMessage(m) && w' == w.(records := w.records + [m]))
  }

  // Memory is compacted first; a failed rewrite leaves the old or the new file.
  ghost predicate ConfirmStep(w: WalState, confirmedId: uint64, w': WalState, ok: bool) {
    var kept := Above(w.pending, confirmedId);
    if kept == w.pending then ok && w' == w
    else || w' == WalState(kept, false, kept)
         || (!ok && w' == w.(pending := kept))
  }

  lemma {:induction false} LogFramesConcat(a: seq<LogMessage>, b: seq<LogMessage>)
    requires AllValid(a) && AllValid(b)
    ensures AllValid(a + b) && LogFrames(a + b) == LogFrames(a) + LogFrames(b)
  {
    hide EncodeLog, ValidMessage;
    if a == [] {
      assert a + b == b;
    } else {
      LogFramesConcat(a[1..], b);
      assert [a[0]] + (a[1..] + b) == a + b;
      LogFramesCons(a[0], a[1..] + b);
      assert LogFrames(a) == EncodeLog(a[0]) + LogFrames(a[1..]);
      hide LogFrames;
      assert LogFrames(a) + LogFrames(b) == EncodeLog(a[0]) + (LogFrames(a[1..]) + LogFrames(b));
    }
  }

  lemma LogFramesSnoc(ms: seq<LogMessage>, m: LogMessage)
    requires AllValid(ms) && ValidMessage(m)
    ensures AllValid(ms + [m]) && LogFrames(ms + [m]) == LogFrames(ms) + EncodeLog(m)
  {
    hide EncodeLog, ValidMessage;
    LogFramesConcat(ms, [m]);
    assert [m][1..] == [];
    assert LogFrames([m]) == EncodeLog(m) + [];
  }

  // Each possible outcome of writing the frame of `m` is one of the outcomes of AppendStep.
  lemma AppendOutcome(content: Bytes, w: WalState, m: LogMessage, k: nat) returns (w': WalState)
    requires Stores(content, w.records, w.torn) && !w.torn && ValidMessage(m) && k <= |EncodeLog(m)|
    ensures Stores(content + EncodeLog(m)[..k], w'.records, w'.torn) && w'.pending == w.pending
    ensures k == |EncodeLog(m)| ==> w' == w.(records := w.records + [m])
    ensures AppendStep(w, m, w', false)
  {
    hide EncodeLog, ValidMessage, LogFrames, DecodeHeader;
    if k == |EncodeLog(m)| {
      w' := w.(records := w.records + [m]);
      LogFramesSnoc(w.records, m);
      assert content + EncodeLog(m)[..k] == LogFrames(w'.records) + [];
    } else {
      w' := w.(torn := k > 0);
      CutIsIncomplete(EncodeLog(m)[..k]);
      assert content == LogFrames(w.records) + [];
      assert content + EncodeLog(m)[..k] == LogFrames(w.records) + EncodeLog(m)[..k];
    }
  }

  lemma {:induction false} AboveValid(ms: seq<LogMessage>, confirmedId: uint64)
    requires AllValid(ms)
    ensures AllValid(Above(ms, confirmedId))
  {
    hide ValidMessage;
    if ms != [] {
      AboveValid(ms[..|ms| - 1], confirmedId);
    }
  }

  // The remove_if of a confirmation.
  method RemoveConfirmed(ms: seq<LogMessage>, confirmedId: uint64) returns (kept: seq<LogMessage>)
    ensures kept == Above(ms, confirmedId)
    ensures |kept| == |ms| ==> kept == ms
  {
    var index := 0;
    kept := [];
    while index < |ms|
      invariant index <= |ms|
      invariant kept == Above(ms[..index], confirmedId)
      invariant kept == ms[..index] || |kept| < index
    {
      assert ms[..index + 1][..index] == ms[..index];
      if ms[index].id > confirmedId {
        kept := kept + [ms[index]];
      }
      index := index + 1;
    }
    assert ms[..index] == ms;
  }

  method EncodePending(ms: seq<LogMessage>) returns (data: Bytes)
    requires AllValid(ms)
    ensures data == LogFrames(ms)
  {
    hide EncodeLog, ValidMessage;
    var index := 0;
    data := [];
    while index < |ms|
      invariant index <= |ms|
      invariant data == LogFrames(ms[..index])
    {
      LogFramesSnoc(ms[..index], ms[index]);
      assert ms[..index + 1] == ms[..index] + [ms[index]];
      var frame := Codec.SerializeLogMessage(ms[index]);
      data := data + frame.value;
      index := index + 1;
    }
    assert ms[..index] == ms;
  }

  lemma WholeFileStores(ms: seq<LogMessage>)
    requires AllValid(ms)
    ensures Stores(LogFrames(ms), ms, false)
  {
    hide LogFrames, AllValid;
    assert LogFrames(ms) == LogFrames(ms) + [];
  }

  // The process dies here: the file is what a failed append, or a failed confirmation, may leave.
  ghost predicate CutAppend(files: Files, path: Path, w: WalState, m: LogMessage) {
    exists w' :: AppendStep(w, m, w', false) && Stores(ContentOf(files, path), w'.records, w'.torn)
  }

  ghost predicate CutConfirm(files: Files, path: Path, w: WalState, confirmedId: uint64) {
    exists w' :: ConfirmStep(w, confirmedId, w', false) && Stores(ContentOf(files, path), w'.records, w'.torn)
  }

  lemma AppendIsCut(files: Files, before: Files, path: Path, w: WalState, m: LogMessage)
    requires Stores(ContentOf(before, path), w.records, w.torn) && !w.torn && ValidMessage(m)
    requires Lookup(files, path) in AppendOutcomes(before, path, EncodeLog(m))
    ensures CutAppend(files, path, w, m)
  {
    hide EncodeLog, ValidMessage, Stores;
    if Lookup(files, path) == Lookup(before, path) {
      assert AppendStep(w, m, w, false);
    } else {
      var content := ContentOf(before, path);
      var k: nat :| k <= |EncodeLog(m)| && ContentOf(files, path) == content + EncodeLog(m)[..k];
      var w' := AppendOutcome(content, w, m, k);
    }
  }

  lemma ConfirmIsCut(files: Files, before: Files, path: Path, w: WalState, confirmedId: uint64)
    requires Stores(ContentOf(before, path), w.records, w.torn) && AllValid(w.pending)
    requires Above(w.pending, confirmedId) != w.pending
    requires Lookup(files, path) in ReplaceOutcomes(before, path, LogFrames(AboveIsValid(w.pending, confirmedId)))
    ensures CutConfirm(files, path, w, confirmedId)
  {
    var kept := AboveIsValid(w.pending, confirmedId);
    WholeFileStores(kept);
    hide LogFrames, ValidMessage, Stores, Above;
    if Lookup(files, path) == Lookup(before, path) {
      assert ConfirmStep(w, confirmedId, w.(pending := kept), false);
    } else {
      assert ConfirmStep(w, confirmedId, WalState(kept, false, kept), false);
    }
  }

  // What a confirmation keeps, known to be valid.
  function AboveIsValid(ms: seq<LogMessage>, confirmedId: uint64): (kept: seq<LogMessage>)
    requires AllValid(ms)
    ensures AllValid(kept) && kept == Above(ms, confirmedId)
  {
    AboveValid(ms, confirmedId);
    Above(ms, confirmedId)
  }

  // Recovery finds the same records in both.
  ghost predicate RecoversSame(content: Bytes, before: Bytes) {
    Recover(content, []).Ok? && Recover(before, []).Ok? && Recover(content, []).value.0 == Recover(before, []).value.0
  }

  lemma RewrittenRecovers(before: Bytes, ms: seq<LogMessage>, torn: bool)
    requires Recover(before, []) == Ok((ms, torn)) && AllValid(ms)
    ensures RecoversSame(LogFrames(ms), before)
  {
    hide Recover, LogFrames, ValidMessage;
    RecoveryIsExact(before, ms, torn);
    RecoveryIsExact(LogFrames(ms), ms, false);
    assert LogFrames(ms) == LogFrames(ms) + [];
  }

  // While a torn file is rewritten, no instant loses a record.
  lemma RewritingRecovers(trail: seq<Files>, mark: nat, before: Files, path: Path, ms: seq<LogMessage>, torn: bool)
    requires AllValid(ms) && Recover(ContentOf(before, path), []) == Ok((ms, torn))
    requires AllSince(trail, mark, before, {path, TemporaryFor(path)}, path,
                      ReplaceOutcomes(before, path, LogFrames(ms)))
    ensures forall i | mark <= i < |trail| ::
              && SameExcept(trail[i], before, {path, TemporaryFor(path)})
              && RecoversSame(ContentOf(trail[i], path), ContentOf(before, path))
  {
    RewrittenRecovers(ContentOf(before, path), ms, torn);
    hide Recover, LogFrames, ValidMessage;
    forall i | mark <= i < |trail|
      ensures RecoversSame(ContentOf(trail[i], path), ContentOf(before, path))
    {
      assert Lookup(trail[i], path) in ReplaceOutcomes(before, path, LogFrames(ms));
    }
  }

  lemma LoadedStores(data: Bytes, ms: seq<LogMessage>, torn: bool)
    requires Recover(data, []) == Ok((ms, torn))
    ensures Storable(ms) && AllValid(ms) && Stores(data, ms, torn) && (!torn ==> data == LogFrames(ms))
  {
    hide Recover, Incomplete, LogFrames, Storable;
    RecoveryIsExact(data, ms, torn);
    StorableIsValid(ms);
    assert LogFrames(ms) + [] == LogFrames(ms);
  }

  lemma Unchanged(files: Files, path: Path)
    ensures SameExcept(files, files, {path, TemporaryFor(path)})
  {
  }

  class WriteAheadLog {
    const disk: Disk
    const path: Path
    var pending: seq<LogMessage>
    ghost var state: WalState

    constructor (disk: Disk, path: Path)
      ensures this.disk == disk && this.path == path && pending == []
    {
      this.disk, this.path, pending := disk, path, [];
    }

    ghost predicate Valid()
      reads this, disk
    {
      && state.pending == pending && AllValid(pending)
      && Stores(ContentOf(disk.files, path), state.records, state.torn)
    }

    /** A record is durable on success, and possibly half written on failure. */
    method Append(m: LogMessage) returns (r: Result<(), WalError>)
      requires Valid() && !state.torn
      modifies this`pending, this`state, disk
      ensures Valid() && AppendStep(old(state), m, state, r.Ok?)
      ensures !ValidMessage(m) ==> r.Err? && r.error != Io && state == old(state) && disk.files == old(disk.files)
      ensures r.Err? && ValidMessage(m) ==> r.error == Io && disk.faulty
      ensures SameExcept(disk.files, old(disk.files), {path})
      ensures old(disk.trail) <= disk.trail
      ensures forall i | |old(disk.trail)| <= i < |disk.trail| ::
                SameExcept(disk.trail[i], old(disk.files), {path}) && CutAppend(disk.trail[i], path, old(state), m)
    {
      hide EncodeLog, CheckFields, CutAppend;
      ghost var content := ContentOf(disk.files, path);
      var frame := Codec.SerializeLogMessage(m);
      if frame.Err? {
        return Err(Malformed(frame.error));
      }
      ghost var before, w := disk.files, state;
      var written := AppendDurably(disk, path, frame.value);
      forall i | |old(disk.trail)| <= i < |disk.trail| ensures CutAppend(disk.trail[i], path, w, m) {
        AppendIsCut(disk.trail[i], before, path, w, m);
      }
      if written.Err? {
        if Lookup(disk.files, path) != Lookup(old(disk.files), path) {
          ghost var k: nat :| k <= |frame.value| && ContentOf(disk.files, path) == content + frame.value[..k];
          state := AppendOutcome(content, state, m, k);
        }
        return Err(Io);
      }
      assert frame.value[..|frame.value|] == frame.value;
      state := AppendOutcome(content, state, m, |frame.value|);
      pending := pending + [m];
      state := state.(pending := pending);
      return Ok(());
    }

    /** Forgets the confirmed messages, in memory at once and on disk by an atomic rewrite. */
    method Confirm(confirmedId: uint64) returns (r: Result<(), WalError>)
      requires Valid()
      modifies this`pending, this`state, disk
      ensures Valid() && ConfirmStep(old(state), confirmedId, state, r.Ok?)
      ensures r.Err? ==> r.error == Io && disk.faulty
      ensures SameExcept(disk.files, old(disk.files), {path, TemporaryFor(path)})
      ensures old(disk.trail) <= disk.trail
      ensures forall i | |old(disk.trail)| <= i < |disk.trail| ::
                && SameExcept(disk.trail[i], old(disk.files), {path, TemporaryFor(path)})
                && CutConfirm(disk.trail[i], path, old(state), confirmedId)
    {
      hide ValidMessage, Above, LogFrames, Incomplete, CutConfirm, Stores;
      var kept := RemoveConfirmed(pending, confirmedId);
      if |kept| == |pending| {
        return Ok(());
      }
      AboveValid(pending, confirmedId);
      ghost var before, w := disk.files, state;
      pending := kept;
      state := state.(pending := kept);
      r := RewriteLocked();
      forall i | |old(disk.trail)| <= i < |disk.trail| ensures CutConfirm(disk.trail[i], path, w, confirmedId) {
        ConfirmIsCut(disk.trail[i], before, path, w, confirmedId);
      }
    }

    // Replaces the file by the frames of the pending messages.
    method RewriteLocked() returns (r: Result<(), WalError>)
      requires Valid()
      modifies this`state, disk
      ensures Valid() && state.pending == old(state.pending)
      ensures r.Ok? ==> state == WalState(pending, false, pending) && ContentOf(disk.files, path) == LogFrames(pending)
      ensures r.Err? ==> r.error == Io && disk.faulty && state in {old(state), WalState(pending, false, pending)}
      ensures SameExcept(disk.files, old(disk.files), {path, TemporaryFor(path)})
      ensures old(disk.trail) <= disk.trail
      ensures AllSince(disk.trail, |old(disk.trail)|, old(disk.files), {path, TemporaryFor(path)}, path,
                       ReplaceOutcomes(old(disk.files), path, LogFrames(pending)))
      ensures ContentOf(disk.files, path) in iset{old(ContentOf(disk.files, path)), LogFrames(pending)}
    {
      hide AllValid, LogFrames, Incomplete;
      var data := EncodePending(pending);
      var written := WriteAtomically(disk, path, data);
      WholeFileStores(pending);
      if Lookup(disk.files, path) == Some(data) {
        state := WalState(pending, false, pending);
      }
      if written.Err? {
        return Err(Io);
      }
      return Ok(());
    }

    method MaxMessageId() returns (maximum: uint64)
      ensures forall i | 0 <= i < |pending| :: pending[i].id <= maximum
      ensures maximum == 0 || exists i | 0 <= i < |pending| :: pending[i].id == maximum
    {
      maximum := 0;
      var index := 0;
      while index < |pending|
        invariant index <= |pending|
        invariant forall i | 0 <= i < index :: pending[i].id <= maximum
        invariant maximum == 0 || exists i | 0 <= i < index :: pending[i].id == maximum
      {
        if pending[index].id > maximum {
          maximum := pending[index].id;
        }
        index := index + 1;
      }
    }

    /** Recovers the complete records, cuts a torn tail off the file, and rejects anything else. */
    method Load() returns (r: Result<(), WalError>)
      requires pending == []
      modifies this`pending, this`state, disk
      ensures r.Ok? ==>
                && Recover(old(ContentOf(disk.files, path)), []).Ok?
                && pending == Recover(old(ContentOf(disk.files, path)), []).value.0
                && Valid() && state == WalState(pending, false, pending)
                && ContentOf(disk.files, path) == LogFrames(pending)
      ensures r.Err? && r.error != Io ==> Recover(old(ContentOf(disk.files, path)), []) == Err(r.error)
      ensures r == Err(Io) ==> disk.faulty
      ensures SameExcept(disk.files, old(disk.files), {path, TemporaryFor(path)})
      ensures old(disk.trail) <= disk.trail
      ensures forall i | |old(disk.trail)| <= i < |disk.trail| ::
                && SameExcept(disk.trail[i], old(disk.files), {path, TemporaryFor(path)})
                && RecoversSame(ContentOf(disk.trail[i], path), old(ContentOf(disk.files, path)))
      ensures r.Err? && r.error != Io ==> disk.files == old(disk.files)
      ensures r == Err(Io) && ContentOf(disk.files, path) != old(ContentOf(disk.files, path)) ==>
                && Recover(old(ContentOf(disk.files, path)), []).Ok?
                && Storable(Recover(old(ContentOf(disk.files, path)), []).value.0)
                && ContentOf(disk.files, path) == LogFrames(Recover(old(ContentOf(disk.files, path)), []).value.0)
    {
      hide Recover, LogFrames, AllValid, Storable, Stores, RecoversSame, AllSince, SameExcept;
      Unchanged(disk.files, path);
      var read := ReadFile(disk, path);
      if read.Err? {
        return Err(Io);
      }
      var torn :- Parse(read.value);
      LoadedStores(read.value, pending, torn);
      state := WalState(pending, torn, pending);
      if torn {
        r := CutTail();
      } else {
        r := Ok(());
      }
    }

    // The rewrite of a file that ends in a torn record.
    method CutTail() returns (r: Result<(), WalError>)
      requires Valid() && state == WalState(pending, true, pending)
      requires Recover(ContentOf(disk.files, path), []) == Ok((pending, true))
      modifies this`state, disk
      ensures Valid()
      ensures r.Ok? ==> state == WalState(pending, false, pending) && ContentOf(disk.files, path) == LogFrames(pending)
      ensures r.Err? ==> r.error == Io && disk.faulty
      ensures ContentOf(disk.files, path) in iset{old(ContentOf(disk.files, path)), LogFrames(pending)}
      ensures SameExcept(disk.files, old(disk.files), {path, TemporaryFor(path)})
      ensures old(disk.trail) <= disk.trail
      ensures forall i | |old(disk.trail)| <= i < |disk.trail| ::
                && SameExcept(disk.trail[i], old(disk.files), {path, TemporaryFor(path)})
                && RecoversSame(ContentOf(disk.trail[i], path), old(ContentOf(disk.files, path)))
    {
      hide Recover, LogFrames, AllValid, RecoversSame, AllSince, SameExcept, Stores;
      r := RewriteLocked();
      RewritingRecovers(disk.trail, |old(disk.trail)|, old(disk.files), path, pending, true);
    }

    // The loop over the file, which advances an offset and grows the pending messages.
    method Parse(data: Bytes) returns (r: Result<bool, WalError>)
      modifies this`pending
      ensures r.Ok? ==> Recover(data, old(pending)) == Ok((pending, r.value))
      ensures r.Err? ==> Recover(data, old(pending)) == Err(r.error) && r.error != Io
    {
      hide DecodeHeader, DecodeLog;
      var offset := 0;
      assert data[0..] == data;
      while offset < |data|
        invariant offset <= |data|
        invariant Recover(data[offset..], pending) == Recover(data, old(pending))
      {
        var remaining := data[offset..];
        if |remaining| < FRAME_HEADER_SIZE {
          return Ok(true);
        }
        var header := Codec.ParseFrameHeader(remaining);
        if header.Err? {
          return Err(Malformed(header.error));
        }
        if header.value.kind != Log {
          return Err(NonLogFrame);
        }
        var frameSize := FRAME_HEADER_SIZE + header.value.payloadLength;
        if |remaining| < frameSize {
          return Ok(true);
        }
        assert remaining[..frameSize] == data[offset..offset + frameSize];
        assert remaining[frameSize..] == data[offset + frameSize..];
        var m := Codec.DeserializeLogMessage(data[offset..offset + frameSize]);
        if m.Err? {
          return Err(Malformed(m.error));
        }
        if pending != [] && m.value.id <= pending[|pending| - 1].id {
          return Err(WalError.IdsNotIncreasing);
        }
        if pending != [] && m.value.clientId != pending[0].clientId {
          return Err(WalError.MultipleClientIds);
        }
        pending := pending + [m.value];
        offset := offset + frameSize;
      }
      return Ok(false);
    }
  }
}
