/** The client's sending half: batches of at most ten, each retried until its own ACK arrives. */
module Client {
  import opened Words
  import opened Protocol
  import opened SocketIO
  import opened Transport
  import opened WriteAheadLog
  import WalHistory

  const SEND_BATCH_SIZE: nat := 10
  const MAX_RECORD_SIZE: nat := LOG_RECORD_FIXED_SIZE + MAX_CLIENT_ID_LENGTH + MAX_SOURCE_LENGTH + MAX_CONTENT_LENGTH

  // ---------- Every batch the client forms can be sent ----------

  lemma {:induction false} RecordsFit(ms: seq<LogMessage>)
    requires AllValid(ms)
    ensures |EncodeRecords(ms)| <= |ms| * MAX_RECORD_SIZE
  {
    hide EncodeRecord;
    if ms != [] {
      var init, last := ms[..|ms| - 1], ms[|ms| - 1];
      RecordsFit(init);
      assert ValidMessage(last);
      assert |ms| * MAX_RECORD_SIZE == |init| * MAX_RECORD_SIZE + MAX_RECORD_SIZE;
    }
  }

  /** Up to ten messages of the WAL always make a valid batch, whatever their sizes. */
  lemma BatchIsEncodable(ms: seq<LogMessage>)
    requires Storable(ms) && 0 < |ms| <= SEND_BATCH_SIZE
    ensures ValidBatch(ms)
  {
    RecordsFit(ms);
    assert |ms| * MAX_RECORD_SIZE <= SEND_BATCH_SIZE * MAX_RECORD_SIZE;
  }

  /** Confirming the last id of a front part of the pending messages removes exactly that part. */
  lemma {:induction false} ConfirmRemovesFront(front: seq<LogMessage>, rest: seq<LogMessage>)
    requires Increasing(front + rest) && front != []
    ensures Above(front + rest, front[|front| - 1].id) == rest
  {
    var all, k := front + rest, |front| - 1;
    if rest == [] {
      assert all == front;
      AboveNone(front, front[k].id);
    } else {
      var init, last := rest[..|rest| - 1], rest[|rest| - 1];
      assert all[..|all| - 1] == front + init;
      assert all[k].id < all[|all| - 1].id;
      ConfirmRemovesFront(front, init);
    }
  }

  /** A batch frame sent, and an ACK frame received, on one connection, and where they are in its streams. */
  datatype Exchange = Exchange(socket: Socket, batch: seq<LogMessage>, sentAt: nat, receivedAt: nat)

  // `frame` is in the stream, `at` bytes from its start.
  ghost predicate IsAt(frame: Bytes, stream: Bytes, at: nat) {
    at + |frame| <= |stream| && frame == stream[at..at + |frame|]
  }

  /** The whole batch went out, and the ACK of its last id came in. */
  ghost predicate Confirms(outgoing: Bytes, received: Bytes, x: Exchange) {
    && ValidBatch(x.batch)
    && IsAt(EncodeBatch(x.batch), outgoing, x.sentAt)
    && IsAt(EncodeAck(x.batch[|x.batch| - 1].id), received, x.receivedAt)
  }

  // What was on the wire stays there.
  lemma ConfirmsStays(outgoing: Bytes, received: Bytes, x: Exchange, outgoing': Bytes, received': Bytes)
    requires Confirms(outgoing, received, x) && outgoing <= outgoing' && received <= received'
    ensures Confirms(outgoing', received', x)
  {
    hide EncodeBatch, EncodeAck, ValidBatch;
  }

  lemma JustConfirmed(outgoing: Bytes, received: Bytes, x: Exchange, id: uint64)
    requires x.sentAt == |outgoing| && x.receivedAt == |received|
    requires ValidBatch(x.batch) && id == x.batch[|x.batch| - 1].id
    ensures Confirms(outgoing + EncodeBatch(x.batch), received + EncodeAck(id), x)
  {
    hide EncodeBatch, EncodeAck, ValidBatch;
  }

  ghost predicate InSome(exchanges: set<Exchange>, m: LogMessage) {
    exists x | x in exchanges :: m in x.batch
  }

  ghost predicate AsWhole(exchanges: set<Exchange>, batch: seq<LogMessage>) {
    exists x | x in exchanges :: x.batch == batch
  }

  // The batch that begins with message number `from`; it is as large as it may be.
  function BatchAt(messages: seq<LogMessage>, from: nat): seq<LogMessage>
    requires from <= |messages|
  {
    if SEND_BATCH_SIZE < |messages| - from then messages[from..from + SEND_BATCH_SIZE] else messages[from..]
  }

  // The first `done` messages are covered by batches that were sent and acknowledged.
  ghost predicate InBatches(exchanges: set<Exchange>, messages: seq<LogMessage>, done: nat) {
    done <= |messages|
    && forall k | 0 <= k < done && k % SEND_BATCH_SIZE == 0 :: AsWhole(exchanges, BatchAt(messages, k))
  }

  lemma NextBatchDone(before: set<Exchange>, after: set<Exchange>, messages: seq<LogMessage>, offset: nat)
    requires before <= after && InBatches(before, messages, offset) && offset % SEND_BATCH_SIZE == 0
    requires AsWhole(after, BatchAt(messages, offset))
    ensures InBatches(after, messages, offset + |BatchAt(messages, offset)|)
  {
    hide BatchAt;
    BatchLength(messages, offset);
    forall k | 0 <= k < offset + |BatchAt(messages, offset)| && k % SEND_BATCH_SIZE == 0
      ensures AsWhole(after, BatchAt(messages, k))
    {
      if k < offset {
        assert AsWhole(before, BatchAt(messages, k));
      }
    }
  }

  lemma BatchLength(messages: seq<LogMessage>, from: nat)
    requires from <= |messages|
    ensures |BatchAt(messages, from)| <= SEND_BATCH_SIZE && from + |BatchAt(messages, from)| <= |messages|
  {
  }

  lemma NoneYet(exchanges: set<Exchange>, messages: seq<LogMessage>)
    ensures InBatches(exchanges, messages, 0)
  {
  }

  lemma StillInBatches(before: set<Exchange>, after: set<Exchange>, messages: seq<LogMessage>, done: nat)
    requires before <= after && InBatches(before, messages, done)
    ensures InBatches(after, messages, done)
  {
    hide BatchAt;
    forall k | 0 <= k < done && k % SEND_BATCH_SIZE == 0 ensures AsWhole(after, BatchAt(messages, k)) {
      assert AsWhole(before, BatchAt(messages, k));
    }
  }

  // So every one of them was in such a batch.
  lemma InBatchesDelivers(exchanges: set<Exchange>, messages: seq<LogMessage>, done: nat)
    requires InBatches(exchanges, messages, done)
    ensures forall i | 0 <= i < done :: InSome(exchanges, messages[i])
  {
    forall i | 0 <= i < done ensures InSome(exchanges, messages[i]) {
      var k := i - i % SEND_BATCH_SIZE;
      assert k % SEND_BATCH_SIZE == 0;
      assert BatchAt(messages, k)[i - k] == messages[i];
    }
  }

  class Sender {
    const wal: WriteAheadLog
    const reachable: bool  // whether the server accepts connections
    var client: TcpClient?
    ghost var connections: set<Socket>  // all there have ever been
    ghost var acknowledged: set<Exchange>  // the batches that were sent whole and acknowledged
    ghost var attempted: nat  // how often a delivery has been attempted

    constructor (wal: WriteAheadLog, reachable: bool)
      requires wal.Valid()
      ensures Valid() && this.wal == wal && client == null && acknowledged == {} && attempted == 0
    {
      this.reachable := reachable;
      this.wal, client, connections, acknowledged, attempted := wal, null, {}, {}, 0;
    }

    ghost predicate Proved()
      reads this`connections, this`acknowledged, connections
    {
      && (forall s | s in connections :: s.Valid())
      && forall x | x in acknowledged ::
           x.socket in connections && Confirms(x.socket.outgoing, x.socket.Received(), x)
    }

    ghost predicate Valid()
      reads this, wal, wal.disk, connections
    {
      && wal.Valid() && Proved()
      && (client != null ==> client.socket in connections)
    }

    ghost function Connection(): set<object>
      reads this
    {
      if client == null then {} else {client.socket}
    }

    // A new connection, over which the peer may deliver anything.
    method Connect() returns (connected: bool)
      requires Valid()
      modifies this`client, this`connections
      ensures Valid() && acknowledged == old(acknowledged)
      ensures connected ==> client != null && fresh(client) && fresh(client.socket)
      ensures connected ==> connections == old(connections) + {client.socket}
      ensures !connected ==> client == old(client) && connections == old(connections) && !reachable
    {
      hide Stores, AllValid, Confirms;
      connected := *;
      connected := connected || reachable;
      if connected {
        var stream: Bytes := *;
        var faulty: bool := *;
        var socket := new Socket(stream, faulty);
        client := new TcpClient(socket);
        connections := connections + {socket};
      }
    }

    // This very batch was sent and acknowledged.
    ghost predicate Acknowledged(batch: seq<LogMessage>)
      reads this`acknowledged
    {
      AsWhole(acknowledged, batch)
    }

    // The message was in a batch that was sent and acknowledged.
    ghost predicate Delivered(m: LogMessage)
      reads this`acknowledged
    {
      InSome(acknowledged, m)
    }

    // Nothing happened to the pending messages, or the batch was acknowledged and its last id confirmed.
    twostate predicate AtMostConfirmed(batch: seq<LogMessage>)
      reads this, wal
    {
      && old(acknowledged) <= acknowledged
      && (|| wal.pending == old(wal.pending)
          || (&& batch != [] && Acknowledged(batch)
              && wal.pending == Above(old(wal.pending), batch[|batch| - 1].id)))
    }

    // The peer's next bytes are the ACK of this batch.
    ghost predicate Answers(batch: seq<LogMessage>)
      requires client != null
      reads this`client, client, client.socket
    {
      && ValidBatch(batch) && !client.socket.faulty
      && EncodeAck(batch[|batch| - 1].id) <= client.socket.incoming
    }

    // Sends the batch once and waits for its ACK; success is recorded together with its place on the wire.
    method Exchanged(batch: seq<LogMessage>) returns (r: Result<uint64, NetError>)
      requires Valid() && client != null
      modifies this`acknowledged, client.socket
      ensures Valid() && old(acknowledged) <= acknowledged
      ensures r.Ok? ==> ValidBatch(batch) && r.value == batch[|batch| - 1].id && Acknowledged(batch)
      ensures r.Ok? ==>
                && client.socket.outgoing == old(client.socket.outgoing) + EncodeBatch(batch)
                && old(client.socket.incoming) == EncodeAck(r.value) + client.socket.incoming
      ensures r.Err? ==> acknowledged == old(acknowledged)
      ensures old(Answers(batch)) ==> r.Ok?
    {
      hide ValidBatch, EncodeBatch, EncodeAck, Stores, AllValid, Confirms, EndOf;
      ghost var socket := client.socket;
      ghost var outgoing, received := socket.outgoing, socket.Received();
      r := client.SendLogBatchAndWaitAck(batch);
      ReceivedGrows(socket.stream, old(socket.incoming), socket.incoming);
      forall x | x in acknowledged
        ensures Confirms(x.socket.outgoing, x.socket.Received(), x)
      {
        if x.socket == socket {
          ConfirmsStays(outgoing, received, x, socket.outgoing, socket.Received());
        } else {
          assert x.socket.outgoing == old(x.socket.outgoing) && x.socket.Received() == old(x.socket.Received());
        }
      }
      if r.Ok? {
        ghost var x := Exchange(socket, batch, |outgoing|, |received|);
        JustConfirmed(outgoing, received, x, r.value);
        ReceivedNext(socket.stream, old(socket.incoming), EncodeAck(r.value), socket.incoming);
        acknowledged := acknowledged + {x};
        assert x in acknowledged && x.batch == batch;
      }
    }

    // One attempt; any exception on the way drops the connection.
    method Attempt(batch: seq<LogMessage>) returns (delivered: bool)
      requires Valid()
      modifies this, Connection(), wal`pending, wal`state, wal.disk
      ensures Valid() && fresh(Connection() - old(Connection()))
      ensures AtMostConfirmed(batch)
      ensures delivered ==> ValidBatch(batch) && Acknowledged(batch)
      ensures delivered ==> wal.pending == Above(old(wal.pending), batch[|batch| - 1].id)
      ensures !delivered ==> client == null
      ensures || (!delivered && wal.state == old(wal.state))
              || (&& batch != [] && Acknowledged(batch)
                  && ConfirmStep(old(wal.state), batch[|batch| - 1].id, wal.state, delivered))
      ensures attempted == old(attempted) + 1
      ensures old(client) == null && reachable ==> old(connections) < connections
      // Only a connection, a peer or a disk that fails makes an attempt fail.
      ensures old(client != null && Answers(batch)) && !wal.disk.faulty ==> delivered
    {
      hide ValidBatch, Above, EncodeBatch, EncodeAck, Stores, AllValid, Proved, Answers, CutConfirm, AsWhole;
      attempted := attempted + 1;
      if client == null {
        var connected := Connect();
        if !connected {
          return false;
        }
      }
      var confirmedId := Exchanged(batch);
      if confirmedId.Err? {
        client := null;
        return false;
      }
      assert batch != [] by {
        SomeMessage(batch);
      }
      var confirmed := wal.Confirm(confirmedId.value);
      if confirmed.Err? {
        client := null;
        return false;
      }
      return true;
    }

    /**
     Resends one batch until its ACK has arrived and the WAL has been compacted, or until the
     client is told to stop, which happens after some number of attempts.
     */
    method DeliverWithRetry(batch: seq<LogMessage>, attempts: nat) returns (delivered: bool)
      requires Valid()
      modifies this, Connection(), wal`pending, wal`state, wal.disk
      ensures Valid() && fresh(Connection() - old(Connection()))
      ensures AtMostConfirmed(batch)
      ensures delivered ==> ValidBatch(batch) && Acknowledged(batch)
      ensures delivered ==> wal.pending == Above(old(wal.pending), batch[|batch| - 1].id)
      // It never gives up before it is told to stop.
      ensures if delivered then old(attempted) < attempted <= old(attempted) + attempts
              else attempted == old(attempted) + attempts
    {
      hide ValidBatch, Above, Stores, AllValid, Proved;
      var left := attempts;
      while left > 0
        invariant Valid() && fresh(Connection() - old(Connection()))
        invariant AtMostConfirmed(batch)
        invariant 0 <= left <= attempts && attempted == old(attempted) + attempts - left
      {
        left := left - 1;
        if batch != [] {
          AboveTwice(old(wal.pending), batch[|batch| - 1].id);
        }
        delivered := Attempt(batch);
        if delivered {
          return true;
        }
      }
      return false;
    }

    /**
     Sends `messages`, the front of the WAL, in batches. Whether or not it gets through all of
     them, what leaves the WAL is a front part, in order, and every message of it was in a batch
     that was sent and acknowledged.
     */
    method SendMessages(messages: seq<LogMessage>, ghost rest: seq<LogMessage>, attempts: nat)
      returns (sent: bool, ghost done: nat)
      requires Valid() && wal.pending == messages + rest && Storable(messages + rest)
      modifies this, Connection(), wal`pending, wal`state, wal.disk
      ensures Valid() && fresh(Connection() - old(Connection()))
      ensures done <= |messages| && wal.pending == messages[done..] + rest
      ensures forall i | 0 <= i < done :: Delivered(messages[i])
      ensures InBatches(acknowledged, messages, done)
      ensures sent ==> done == |messages|
      ensures !sent ==> attempted - old(attempted) >= attempts
    {
      hide Storable, Above, ValidBatch, Stores, AllValid, Proved, AsWhole, InSome, InBatches;
      var offset := 0;
      NoneYet(acknowledged, messages);
      while offset < |messages|
        invariant offset <= |messages|
        invariant Valid() && fresh(Connection() - old(Connection()))
        invariant wal.pending == messages[offset..] + rest
        invariant offset % SEND_BATCH_SIZE == 0 || offset == |messages|
        invariant old(acknowledged) <= acknowledged && old(attempted) <= attempted
        invariant InBatches(acknowledged, messages, offset)
      {
        var count := if SEND_BATCH_SIZE < |messages| - offset then SEND_BATCH_SIZE else |messages| - offset;
        var batch := messages[offset..offset + count];
        assert batch == BatchAt(messages, offset);
        FrontOfWal(messages, rest, offset, count);
        ghost var before := acknowledged;
        var delivered := DeliverWithRetry(batch, attempts);
        if !delivered {
          if wal.pending == messages[offset..] + rest {
            done := offset;
            StillInBatches(before, acknowledged, messages, done);
          } else {
            done := offset + count;
            NextBatchDone(before, acknowledged, messages, offset);
          }
          InBatchesDelivers(acknowledged, messages, done);
          return false, done;
        }
        NextBatchDone(before, acknowledged, messages, offset);
        offset := offset + count;
      }
      InBatchesDelivers(acknowledged, messages, offset);
      return true, offset;
    }
  }

  lemma ReceivedGrows(stream: Bytes, before: Bytes, after: Bytes)
    requires EndOf(before, stream) && EndOf(after, before)
    ensures EndOf(after, stream) && stream[..|stream| - |before|] <= stream[..|stream| - |after|]
  {
    EndOfEnd(after, before, stream);
  }

  lemma ReceivedNext(stream: Bytes, before: Bytes, frame: Bytes, after: Bytes)
    requires EndOf(before, stream) && before == frame + after
    ensures stream[..|stream| - |after|] == stream[..|stream| - |before|] + frame
  {
  }

  lemma SomeMessage(batch: seq<LogMessage>)
    requires ValidBatch(batch)
    ensures batch != []
  {
  }

  // A batch cut from the front of what is left is encodable, and confirming it leaves the rest.
  lemma FrontOfWal(messages: seq<LogMessage>, rest: seq<LogMessage>, offset: nat, count: nat)
    requires Storable(messages + rest) && offset + count <= |messages| && 0 < count <= SEND_BATCH_SIZE
    ensures var batch := messages[offset..offset + count];
      && ValidBatch(batch) && batch[|batch| - 1] == messages[offset + count - 1]
      && Above(messages[offset..] + rest, batch[|batch| - 1].id) == messages[offset + count..] + rest
  {
    hide Above, ValidBatch;
    var batch, after := messages[offset..offset + count], messages[offset + count..] + rest;
    assert messages + rest == messages[..offset] + (batch + after);
    assert messages[offset..] + rest == batch + after;
    WalHistory.StorableParts(messages[..offset], batch + after);
    WalHistory.StorableParts(batch, after);
    BatchIsEncodable(batch);
    ConfirmRemovesFront(batch, after);
  }

  lemma {:induction false} AboveTwice(ms: seq<LogMessage>, id: uint64)
    ensures Above(Above(ms, id), id) == Above(ms, id)
  {
    if ms != [] {
      var init, last := ms[..|ms| - 1], ms[|ms| - 1];
      AboveTwice(init, id);
      assert Above(init, id) + [] == Above(init, id);
      if last.id > id {
        var above := Above(ms, id);
        assert above == Above(init, id) + [last];
        assert above[..|above| - 1] == Above(init, id);
        assert Above(above, id) == Above(above[..|above| - 1], id) + [last];
      }
    }
  }
}
