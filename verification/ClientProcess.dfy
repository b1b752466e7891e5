/**
 One client installation over any number of runs: the producer, the consumer, the queue between
 them, the log, the persistent ids and the file checkpoint. The threads interleave freely, the
 process may crash between any two steps, and every write may fail.
 */
module ClientProcess {
  import opened Words
  import opened Lines
  import opened Protocol
  import opened WriteAheadLog
  import Client
  import ClientState
  import FileTailReader
  import Text
  import WalHistory

  const QUEUE_CAPACITY: nat := 100

  // What never changes: the client's identity, the path it watches and the file behind it.
  datatype Setup = Setup(clientId: Bytes, source: Bytes, file: FileTailReader.FileId)

  // `todo` are the lines of this round that have no id yet.
  datatype Producer =
    | Polling
    | Appending(todo: seq<Bytes>)
    | Allocated(todo: seq<Bytes>, id: uint64)
    | Pushing
    | ProducerStopped

  datatype Consumer = Sending | Collecting | ConsumerStopped

  /**
   `inFlight`: what the consumer still has to send, or the batch it is collecting. `acked`: the
   ACK of the front batch has arrived but rewriting the file failed. `backlog`: appended, not yet
   pushed.
   */
  datatype Pipeline = Pipeline(
    running: bool, producer: Producer, consumer: Consumer,
    inFlight: seq<LogMessage>, acked: bool, queue: seq<LogMessage>, closed: bool, backlog: seq<LogMessage>)
  {
    function Contents(): seq<LogMessage> {
      inFlight + queue + backlog
    }

    function Front(): nat {
      if Client.SEND_BATCH_SIZE < |inFlight| then Client.SEND_BATCH_SIZE else |inFlight|
    }

    // The batch that is being delivered.
    function Batch(): seq<LogMessage> {
      inFlight[..Front()]
    }

    // What is not yet confirmed in memory.
    function Unconfirmed(): seq<LogMessage> {
      if acked then inFlight[Front()..] + queue + backlog else inFlight + queue + backlog
    }

    // An exception in the producer.
    function Failed(): Pipeline {
      this.(producer := ProducerStopped, running := false)
    }
  }

  /**
   Histories: `cover`, the messages that carry the lines handed out by the reader, and
   `durableCover`, those that carry the lines before the saved checkpoint; `restarted`, whether a
   crash or a restart has happened.
   */
  datatype State = State(
    up: bool, pipe: Pipeline, log: WalHistory.History, ids: ClientState.Ids, tail: FileTailReader.Tail,
    cover: seq<LogMessage>, durableCover: seq<LogMessage>, restarted: bool)

  datatype Event =
    | Grow(more: Bytes)
    | Poll(end: nat)
    | PollFails
    | Allocate(id: uint64, ok: bool)
    | Append(m: LogMessage, ok: bool)
    | Checkpoint(ok: bool)
    | Push
    | RoundEnds
    | ProducerQuits
    | Send(batch: seq<LogMessage>)
    | ReceiveAck(id: uint64, ok: bool)
    | GiveUp
    | Take
    | Flush
    | Drained
    | StopRequested
    | CloseQueue
    | Crash
    | Start(ok: bool)

  // ---------- The steps ----------

  // The first start over an empty data directory has just succeeded.
  ghost predicate Init(u: Setup, s: State) {
    var fields := ClientState.Fields(u.clientId, 1, u.source, 0, 0, 0);
    && ClientState.GeneratedId(u.clientId) && u.source != []
    && WalHistory.Init(s.log)
    && s.ids == ClientState.Ids(fields, fields)
    && |s.tail.content| <= MAX_UINT64
    && s.tail == FileTailReader.Tail(s.tail.content, FileTailReader.Progress(0, []), [])
    && s == State(true, Started([]), s.log, s.ids, s.tail, [], [], false)
  }

  function Started(recovered: seq<LogMessage>): Pipeline {
    Pipeline(true, Polling, if recovered == [] then Collecting else Sending, recovered, false, [], false, [])
  }

  ghost predicate ProducerStep(u: Setup, s: State, e: Event, s': State) {
    match e
    case Poll(end) =>
      && s.pipe.running && s.pipe.producer.Polling?
      && FileTailReader.Step(s.tail, FileTailReader.Read(end), s'.tail)
      && s' == s.(tail := s'.tail,
                  pipe := s.pipe.(producer := Appending(s.tail.progress.LinesTo(s.tail.content, end))))
    case PollFails =>
      s.pipe.producer.Polling? && s' == s.(pipe := s.pipe.Failed())
    case Allocate(id, ok) =>
      && s.pipe.producer.Appending? && s.pipe.producer.todo != []
      && ClientState.NextIdStep(s.ids, id, s'.ids, ok)
      && s' == s.(ids := s'.ids,
                  pipe := if ok then s.pipe.(producer := Allocated(s.pipe.producer.todo, id)) else s.pipe.Failed())
    case Append(m, ok) =>
      && s.pipe.producer.Allocated? && s.pipe.producer.todo != []
      && m == LogMessage(s.pipe.producer.id, s.ids.memory.clientId, m.timestampMs, u.source, s.pipe.producer.todo[0])
      && WalHistory.Appended(s.log, m, ok, s'.log)
      && s' == s.(log := s'.log, cover := if ok then s.cover + [m] else s.cover,
                  pipe := if ok then s.pipe.(producer := Appending(s.pipe.producer.todo[1..]),
                                             backlog := s.pipe.backlog + [m])
                          else s.pipe.Failed())
    case Checkpoint(ok) =>
      && s.pipe.producer == Appending([])
      && 0 <= s.tail.progress.Committed() <= MAX_UINT64
      && ClientState.CheckpointStep(s.ids, s.tail.progress.Committed(), u.file.device, u.file.inode, s'.ids, ok)
      && s' == s.(ids := s'.ids, pipe := if ok then s.pipe.(producer := Pushing) else s.pipe.Failed(),
                  durableCover := if ok || s'.ids.stored != s.ids.stored then s.cover else s.durableCover)
    case Push =>
      && s.pipe.producer.Pushing? && s.pipe.backlog != []
      && (s.pipe.closed || |s.pipe.queue| < QUEUE_CAPACITY)
      && s' == s.(pipe := if s.pipe.closed then s.pipe.(producer := ProducerStopped)
                          else s.pipe.(queue := s.pipe.queue + [s.pipe.backlog[0]], backlog := s.pipe.backlog[1..]))
    case RoundEnds =>
      s.pipe.producer.Pushing? && s.pipe.backlog == [] && s' == s.(pipe := s.pipe.(producer := Polling))
    case ProducerQuits =>
      s.pipe.producer.Polling? && !s.pipe.running && s' == s.(pipe := s.pipe.(producer := ProducerStopped))
    case _ => false
  }

  // Only the ACK of the batch's last id confirms anything; any other drops the connection.
  ghost predicate AckStep(s: State, id: uint64, ok: bool, s': State) {
    && s.pipe.consumer.Sending? && s.pipe.inFlight != []
    && if id != s.pipe.Batch()[s.pipe.Front() - 1].id then s' == s
       else
         && WalHistory.Step(s.log, WalHistory.Confirm(id, ok), s'.log)
         && var left := s.pipe.inFlight[s.pipe.Front()..];
           s' == s.(log := s'.log,
                    pipe := if ok then s.pipe.(inFlight := left, acked := false,
                                               consumer := if left == [] then Collecting else Sending)
                            else s.pipe.(acked := true))
  }

  ghost predicate ConsumerStep(s: State, e: Event, s': State) {
    match e
    case Send(batch) => s.pipe.consumer.Sending? && batch == s.pipe.Batch() && s' == s
    case ReceiveAck(id, ok) => AckStep(s, id, ok, s')
    case GiveUp =>
      s.pipe.consumer.Sending? && !s.pipe.running && s' == s.(pipe := s.pipe.(consumer := ConsumerStopped))
    case Take =>
      && s.pipe.consumer.Collecting? && |s.pipe.inFlight| < Client.SEND_BATCH_SIZE && s.pipe.queue != []
      && s' == s.(pipe := s.pipe.(inFlight := s.pipe.inFlight + [s.pipe.queue[0]], queue := s.pipe.queue[1..]))
    case Flush =>
      s.pipe.consumer.Collecting? && s.pipe.inFlight != [] && s' == s.(pipe := s.pipe.(consumer := Sending))
    case Drained =>
      && s.pipe.consumer.Collecting? && s.pipe.inFlight == []
      && (!s.pipe.running || (s.pipe.closed && s.pipe.queue == []))
      && s' == s.(pipe := s.pipe.(consumer := ConsumerStopped))
    case _ => false
  }

  // Where a restarted reader begins: at the checkpoint, if it is one of this file.
  function OpenOffset(f: ClientState.Fields, file: FileTailReader.FileId, size: nat): nat {
    if (f.fileDeviceId == 0 || f.fileInode == 0 || file == FileTailReader.FileId(f.fileDeviceId, f.fileInode))
       && f.fileOffset <= size
    then f.fileOffset else 0
  }

  // The messages that carry the lines before a checkpoint, which is the saved one or the start of the file.
  function CoverAt(s: State, f: ClientState.Fields): seq<LogMessage> {
    if f.fileOffset == s.ids.stored.fileOffset then s.durableCover else []
  }

  // `saved` is what the state file loads as.
  ghost predicate StartFrom(u: Setup, s: State, saved: Option<ClientState.Fields>, ok: bool, s': State) {
    && !s.up
    && var recovered := s.log.w.records;
      if ok then
        && saved.Some? && ClientState.MaxId(recovered) < MAX_UINT64
        && (forall m | m in recovered :: m.clientId == saved.value.clientId)
        && WalHistory.Step(s.log, WalHistory.Reload, s'.log)
        && var fields := ClientState.Repaired(saved.value, u.source, ClientState.MaxId(recovered));
          var offset := OpenOffset(fields, u.file, |s.tail.content|);
          s' == State(true, Started(recovered), s'.log, ClientState.Ids(fields, fields),
                      FileTailReader.Tail(s.tail.content, FileTailReader.Progress(offset, []),
                                          CompleteLines(s.tail.content[..offset])),
                      CoverAt(s, fields), CoverAt(s, fields), true)
      else
        && (s'.log == s.log || WalHistory.Step(s.log, WalHistory.Reload, s'.log))
        && (|| s'.ids == s.ids
            || (&& saved.Some? && ClientState.MaxId(recovered) < MAX_UINT64
                && var fields := ClientState.Repaired(saved.value, u.source, ClientState.MaxId(recovered));
                  s'.ids == s.ids.(stored := fields)))
        && s' == s.(log := s'.log, ids := s'.ids, durableCover := CoverAt(s, s'.ids.stored), restarted := true)
  }

  ghost predicate StartStep(u: Setup, s: State, ok: bool, s': State) {
    StartFrom(u, s, ClientState.Parse(ClientState.Render(s.ids.stored)), ok, s')
  }

  ghost predicate Step(u: Setup, s: State, e: Event, s': State) {
    match e
    case Grow(more) =>
      && |s.tail.content| + |more| <= MAX_UINT64
      && FileTailReader.Step(s.tail, FileTailReader.Grow(more), s'.tail) && s' == s.(tail := s'.tail)
    case Crash => s.up && s' == s.(up := false, restarted := true)
    case Start(ok) => StartStep(u, s, ok, s')
    case StopRequested => s.up && s' == s.(pipe := s.pipe.(running := false))
    case CloseQueue => s.up && !s.pipe.running && s' == s.(pipe := s.pipe.(closed := true))
    case _ => s.up && (ProducerStep(u, s, e, s') || ConsumerStep(s, e, s'))
  }

  // ---------- The invariant ----------

  function Todo(p: Producer): seq<Bytes> {
    match p
    case Appending(todo) => todo
    case Allocated(todo, _) => todo
    case _ => []
  }

  // The round has saved its checkpoint.
  predicate Settled(p: Producer) {
    p.Pushing? || p.Polling?
  }

  function Texts(ms: seq<LogMessage>): seq<Bytes> {
    seq(|ms|, i requires 0 <= i < |ms| => ms[i].content)
  }

  // Everything that has, or may get, a known id is below `bound`.
  ghost predicate Below(u: Setup, h: WalHistory.History, bound: int) {
    && h.confirmed < bound
    && (forall m | m in h.known :: m.id < bound && m.clientId == u.clientId)
    && (forall m | m in h.w.records :: m.id < bound && m.clientId == u.clientId)
  }

  ghost predicate OwnFields(u: Setup, f: ClientState.Fields) {
    && f.clientId == u.clientId && f.sourcePath == u.source && f.nextId >= 1
    && ((f.fileDeviceId == 0 && f.fileInode == 0) || u.file == FileTailReader.FileId(f.fileDeviceId, f.fileInode))
  }

  ghost predicate IdsInv(u: Setup, s: State) {
    && OwnFields(u, s.ids.stored)
    && Below(u, s.log, s.ids.stored.nextId)
    && (s.up && !s.pipe.producer.ProducerStopped? ==> s.ids.memory == s.ids.stored && !s.log.stopped)
    && (s.up && s.pipe.producer.Allocated? ==>
          Below(u, s.log, s.pipe.producer.id) && s.pipe.producer.id < s.ids.stored.nextId)
  }

  /** The log's pending messages are exactly those on their way through the client, in order. */
  ghost predicate PipeInv(s: State) {
    && Storable(s.pipe.Contents())
    && (forall m | m in s.pipe.Contents() :: m in s.log.known)
    && s.log.w.pending == s.pipe.Unconfirmed()
    && |s.pipe.queue| <= QUEUE_CAPACITY
    && (s.pipe.consumer.Sending? ==> s.pipe.inFlight != [])
    && (s.pipe.consumer.Collecting? ==> |s.pipe.inFlight| <= Client.SEND_BATCH_SIZE && !s.pipe.acked)
    && (s.pipe.producer.Polling? ==> s.pipe.backlog == [])
  }

  // `cover` are messages of the log, in order, that carry exactly `lines`.
  ghost predicate Carries(cover: seq<LogMessage>, lines: seq<Bytes>, h: WalHistory.History) {
    && Texts(cover) == lines
    && Increasing(cover)
    && forall m | m in cover :: m in h.known
  }

  ghost predicate FileInv(s: State) {
    var checkpoint := s.ids.stored.fileOffset;
    && |s.tail.content| <= MAX_UINT64
    && checkpoint <= |s.tail.content|
    && Remainder(s.tail.content[..checkpoint]) == []
    && Carries(s.durableCover, CompleteLines(s.tail.content[..checkpoint]), s.log)
    && (s.up ==> FileTailReader.Inv(s.tail, 0))
    && Carries(s.cover, Texts(s.cover), s.log)
    && (s.up && !s.pipe.producer.ProducerStopped? ==> Texts(s.cover) + Todo(s.pipe.producer) == s.tail.emitted)
    && (s.up && Settled(s.pipe.producer) ==> s.durableCover == s.cover)
    && (!s.restarted ==> s.cover == s.log.known)
  }

  ghost predicate Inv(u: Setup, s: State) {
    && ClientState.GeneratedId(u.clientId) && WalHistory.Inv(s.log)
    && IdsInv(u, s) && FileInv(s) && (s.up ==> PipeInv(s))
  }

  // ---------- Parts of the invariant that a step leaves alone ----------

  lemma FileFrame(s: State, s': State)
    requires FileInv(s)
    requires s'.tail == s.tail && s'.cover == s.cover && s'.durableCover == s.durableCover
    requires s'.ids.stored.fileOffset == s.ids.stored.fileOffset
    requires forall m | m in s.log.known :: m in s'.log.known
    requires s'.restarted || (!s.restarted && s'.log.known == s.log.known)
    requires s'.up ==> s.up
    requires s'.up && !s'.pipe.producer.ProducerStopped? ==>
               && !s.pipe.producer.ProducerStopped? && Todo(s'.pipe.producer) == Todo(s.pipe.producer)
               && (Settled(s'.pipe.producer) ==> Settled(s.pipe.producer))
    ensures FileInv(s')
  {
    hide CompleteLines, Remainder, FileTailReader.Inv, Increasing;
  }

  lemma IdsFrame(u: Setup, s: State, s': State)
    requires IdsInv(u, s) && s'.ids.stored == s.ids.stored
    requires s'.log.confirmed == s.log.confirmed
    requires forall m | m in s'.log.known :: m in s.log.known || m in s.log.w.records
    requires forall m | m in s'.log.w.records :: m in s.log.known || m in s.log.w.records
    requires s'.up && !s'.pipe.producer.ProducerStopped? ==>
               && s.up && !s.pipe.producer.ProducerStopped?
               && s'.ids.memory == s.ids.memory && s'.log.stopped == s.log.stopped
    requires s'.up && s'.pipe.producer.Allocated? ==> s.up && s.pipe.producer == s'.pipe.producer
    ensures IdsInv(u, s')
  {
    hide OwnFields;
  }

  lemma PipeFrame(s: State, s': State)
    requires PipeInv(s) && s'.log == s.log
    requires s'.pipe.inFlight == s.pipe.inFlight && s'.pipe.acked == s.pipe.acked
    requires s'.pipe.queue == s.pipe.queue && s'.pipe.backlog == s.pipe.backlog
    requires s'.pipe.consumer == s.pipe.consumer || s'.pipe.consumer.ConsumerStopped?
    requires s'.pipe.producer.Polling? ==> s.pipe.producer.Polling? || s.pipe.backlog == []
    ensures PipeInv(s')
  {
    hide Storable;
  }

  // ---------- Steps that touch one part only ----------

  lemma GrowKeeps(u: Setup, s: State, more: Bytes, s': State)
    requires Inv(u, s) && Step(u, s, Grow(more), s')
    ensures Inv(u, s')
  {
    hide WalHistory.Inv, Storable, Below, OwnFields, CompleteLines, Remainder, FileTailReader.Inv, Carries;
    var content, content' := s.tail.content, s'.tail.content;
    var checkpoint := s.ids.stored.fileOffset;
    assert content'[..checkpoint] == content[..checkpoint];
    if s.up {
      FileTailReader.GrowKeeps(s.tail, 0, more);
      PipeFrame(s, s');
    }
    IdsFrame(u, s, s');
  }

  lemma PollKeeps(u: Setup, s: State, end: nat, s': State)
    requires Inv(u, s) && s.up && ProducerStep(u, s, Poll(end), s')
    ensures Inv(u, s')
  {
    hide WalHistory.Inv, Storable, Below, OwnFields, CompleteLines, Remainder, FileTailReader.Inv, Carries;
    FileTailReader.ReadKeeps(s.tail, 0, end);
    PipeFrame(s, s');
    IdsFrame(u, s, s');
    var lines := s.tail.progress.LinesTo(s.tail.content, end);
    assert Texts(s.cover) + [] == s.tail.emitted;
    assert Texts(s.cover) == s.tail.emitted;
    assert s'.tail.emitted == Texts(s'.cover) + lines;
  }

  // Events that change neither the log, nor the ids, nor what the reader has handed out.
  predicate IsControl(e: Event) {
    e in {PollFails, Push, RoundEnds, ProducerQuits, GiveUp, Take, Flush, Drained, StopRequested, CloseQueue, Crash}
  }

  lemma ControlChangesPipe(u: Setup, s: State, e: Event, s': State)
    requires IsControl(e) && Step(u, s, e, s')
    ensures s.up && s' == s.(up := s'.up, pipe := s'.pipe, restarted := s'.restarted)
    ensures s'.up ==> s'.restarted == s.restarted
    ensures !s'.up ==> s'.restarted
    ensures s'.pipe.producer.ProducerStopped? || (s'.pipe.producer == s.pipe.producer)
              || (s'.pipe.producer.Polling? && s.pipe.producer.Pushing?)
  {
  }

  lemma ControlKeeps(u: Setup, s: State, e: Event, s': State)
    requires Inv(u, s) && IsControl(e) && Step(u, s, e, s')
    ensures Inv(u, s')
  {
    hide WalHistory.Inv, IdsInv, FileInv, PipeInv, Step, IsControl;
    ControlChangesPipe(u, s, e, s');
    if s'.up {
      ControlKeepsPipe(u, s, e, s');
    }
    IdsFrame(u, s, s');
    FileFrame(s, s');
  }

  lemma ControlKeepsPipe(u: Setup, s: State, e: Event, s': State)
    requires PipeInv(s) && IsControl(e) && Step(u, s, e, s') && s'.up
    ensures PipeInv(s')
  {
    if e.Push? && !s.pipe.closed {
      PushKeepsPipe(u, s, s');
    } else if e.Take? {
      TakeKeepsPipe(u, s, s');
    } else if e.Flush? {
      hide Storable;
    } else {
      hide PipeInv;
      PipeFrame(s, s') by {
        assert s'.pipe.producer.Polling? ==> s.pipe.producer.Polling? || s.pipe.backlog == [];
      }
    }
  }

  lemma MoveOne(before: seq<LogMessage>, a: seq<LogMessage>, b: seq<LogMessage>)
    requires b != []
    ensures before + (a + [b[0]]) + b[1..] == before + a + b
  {
    assert b == [b[0]] + b[1..];
  }

  lemma PushKeepsPipe(u: Setup, s: State, s': State)
    requires PipeInv(s) && Step(u, s, Push, s') && !s.pipe.closed
    ensures PipeInv(s')
  {
    hide Storable;
    var p, p' := s.pipe, s'.pipe;
    MoveOne(p.inFlight, p.queue, p.backlog);
    MoveOne(p.inFlight[p.Front()..], p.queue, p.backlog);
    assert p'.Contents() == p.Contents() && p'.Unconfirmed() == p.Unconfirmed();
  }

  lemma TakeKeepsPipe(u: Setup, s: State, s': State)
    requires PipeInv(s) && Step(u, s, Take, s')
    ensures PipeInv(s')
  {
    hide Storable;
    MoveOne([], s.pipe.inFlight, s.pipe.queue);
    assert s'.pipe.Contents() == s.pipe.Contents();
  }

  // ---------- Allocating, appending, saving the checkpoint ----------

  lemma AllocateKeeps(u: Setup, s: State, id: uint64, ok: bool, s': State)
    requires Inv(u, s) && s.up && ProducerStep(u, s, Allocate(id, ok), s')
    ensures Inv(u, s')
  {
    hide WalHistory.Inv, Storable, FileInv, PipeInv;
    FileFrame(s, s');
    PipeFrame(s, s');
  }

  lemma IssuedIsFresh(u: Setup, s: State, m: LogMessage)
    requires IdsInv(u, s) && s.up && s.pipe.producer.Allocated?
    requires m.id == s.pipe.producer.id && m.clientId == s.ids.memory.clientId
    ensures WalHistory.Fresh(s.log, m) && !s.log.stopped
    ensures m.clientId == u.clientId && m.id < s.ids.stored.nextId
  {
  }

  lemma TextsSnoc(ms: seq<LogMessage>, m: LogMessage)
    ensures Texts(ms + [m]) == Texts(ms) + [m.content]
  {
  }

  lemma IncreasingSnoc(ms: seq<LogMessage>, m: LogMessage)
    requires Increasing(ms) && forall k | k in ms :: k.id < m.id
    ensures Increasing(ms + [m])
  {
  }

  lemma AppendKeepsFile(s: State, m: LogMessage, todo: seq<Bytes>, s': State)
    requires FileInv(s) && s.up && !s.pipe.producer.ProducerStopped? && WalHistory.Fresh(s.log, m)
    requires Todo(s.pipe.producer) == [m.content] + todo
    requires s'.tail == s.tail && s'.ids == s.ids && s'.durableCover == s.durableCover
    requires s'.cover == s.cover + [m] && s'.log.known == s.log.known + [m]
    requires Todo(s'.pipe.producer) == todo && !Settled(s'.pipe.producer) && s'.restarted == s.restarted && s'.up
    ensures FileInv(s')
  {
    hide CompleteLines, Remainder, FileTailReader.Inv, Increasing;
    TextsSnoc(s.cover, m);
    IncreasingSnoc(s.cover, m);
    assert Texts(s.cover) + ([m.content] + todo) == Texts(s.cover + [m]) + todo;
  }

  lemma AppendKeepsPipe(s: State, m: LogMessage, s': State)
    requires PipeInv(s) && WalHistory.Fresh(s.log, m) && ValidMessage(m)
    requires s'.log.known == s.log.known + [m] && s'.log.w.pending == s.log.w.pending + [m]
    requires s'.pipe == s.pipe.(producer := s'.pipe.producer, backlog := s.pipe.backlog + [m])
    requires !s'.pipe.producer.Polling?
    ensures PipeInv(s')
  {
    hide ValidMessage, Storable;
    var p, p' := s.pipe, s'.pipe;
    assert p'.Contents() == p.Contents() + [m];
    assert p'.Unconfirmed() == p.Unconfirmed() + [m];
    WalHistory.StorableExtends(p.Contents(), m);
  }

  lemma AppendKeepsIds(u: Setup, s: State, m: LogMessage, ok: bool, s': State)
    requires IdsInv(u, s) && s.up && ProducerStep(u, s, Append(m, ok), s')
    requires m.clientId == u.clientId
    ensures IdsInv(u, s')
  {
    hide OwnFields, ValidMessage;
  }

  lemma AppendKeeps(u: Setup, s: State, m: LogMessage, ok: bool, s': State)
    requires Inv(u, s) && s.up && ProducerStep(u, s, Append(m, ok), s')
    ensures Inv(u, s')
    ensures WalHistory.Fresh(s.log, m)
  {
    hide IdsInv, WalHistory.Inv, WalHistory.Fresh, ValidMessage, FileInv, PipeInv;
    IssuedIsFresh(u, s, m);
    AppendKeepsIds(u, s, m, ok, s');
    WalHistory.StepKeeps(s.log, WalHistory.Append(m, ok), s'.log);
    if ok {
      var todo := s.pipe.producer.todo;
      assert todo == [todo[0]] + todo[1..];
      AppendKeepsFile(s, m, todo[1..], s');
      AppendKeepsPipe(s, m, s');
    } else {
      FailedAppendKeeps(s, m, s');
    }
  }

  lemma FailedAppendKeeps(s: State, m: LogMessage, s': State)
    requires FileInv(s) && PipeInv(s)
    requires s'.log.known == s.log.known && s'.log.w.pending == s.log.w.pending
    requires s' == s.(log := s'.log, pipe := s.pipe.Failed())
    ensures FileInv(s') && PipeInv(s')
  {
    hide FileTailReader.Inv, CompleteLines, Remainder, Storable, Increasing;
  }

  lemma CheckpointKeepsFile(u: Setup, s: State, ok: bool, s': State)
    requires FileInv(s) && s.up && ProducerStep(u, s, Checkpoint(ok), s') && s.ids.memory == s.ids.stored
    ensures FileInv(s')
  {
    hide CompleteLines, Remainder, Increasing;
    var committed := s.tail.progress.Committed();
    assert Texts(s.cover) + [] == Texts(s.cover);
    assert s.tail.content[0..committed] == s.tail.content[..committed];
  }

  lemma CheckpointKeeps(u: Setup, s: State, ok: bool, s': State)
    requires Inv(u, s) && s.up && ProducerStep(u, s, Checkpoint(ok), s')
    ensures Inv(u, s')
  {
    hide FileInv, PipeInv, WalHistory.Inv;
    CheckpointKeepsFile(u, s, ok, s');
    PipeFrame(s, s');
  }

  // ---------- Acknowledgements ----------

  lemma StorableSuffix(a: seq<LogMessage>, b: seq<LogMessage>)
    requires Storable(a + b)
    ensures Storable(b) && Increasing(a + b)
  {
    WalHistory.StorableParts(a, b);
  }

  // What Above does to the pending messages, whether or not the batch is still among them.
  lemma AckRemovesBatch(p: Pipeline, id: uint64)
    requires Storable(p.Contents()) && p.inFlight != [] && id == p.Batch()[p.Front() - 1].id
    ensures Above(p.Unconfirmed(), id) == p.inFlight[p.Front()..] + p.queue + p.backlog
  {
    hide Storable, Above;
    var rest := p.inFlight[p.Front()..] + p.queue + p.backlog;
    assert p.Contents() == p.Batch() + rest;
    StorableSuffix(p.Batch(), rest);
    Client.ConfirmRemovesFront(p.Batch(), rest);
    if p.acked {
      Client.AboveTwice(p.Contents(), id);
    }
  }

  lemma AckKeepsPipe(s: State, id: uint64, ok: bool, s': State)
    requires PipeInv(s) && AckStep(s, id, ok, s')
    ensures PipeInv(s')
  {
    if s' != s {
      AckRemovesBatch(s.pipe, id) by {
        hide Storable;
      }
      AckKeepsPending(s, id, ok, s');
    }
  }

  lemma AckKeepsPending(s: State, id: uint64, ok: bool, s': State)
    requires PipeInv(s) && AckStep(s, id, ok, s') && id == s.pipe.Batch()[s.pipe.Front() - 1].id
    requires Above(s.pipe.Unconfirmed(), id) == s.pipe.inFlight[s.pipe.Front()..] + s.pipe.queue + s.pipe.backlog
    ensures PipeInv(s')
  {
    hide Storable, Above;
    var p, rest := s.pipe, s.pipe.inFlight[s.pipe.Front()..] + s.pipe.queue + s.pipe.backlog;
    assert s'.log.w.pending == rest == s'.pipe.Unconfirmed();
    if ok {
      assert p.Contents() == p.Batch() + rest;
      StorableSuffix(p.Batch(), rest);
      assert s'.pipe.Contents() == rest;
    }
  }

  lemma AckKeepsIds(u: Setup, s: State, id: uint64, ok: bool, s': State)
    requires IdsInv(u, s) && PipeInv(s) && s.up && AckStep(s, id, ok, s')
    ensures IdsInv(u, s')
  {
    if s' != s {
      LastIsKnown(s);
      PendingIsKnown(s);
      AboveMembers(s.log.w.pending, id);
      hide Storable, Above, OwnFields, PipeInv;
    }
  }

  lemma LastIsKnown(s: State)
    requires PipeInv(s) && s.pipe.inFlight != []
    ensures s.pipe.Batch()[s.pipe.Front() - 1] in s.log.known
  {
    hide Storable;
    assert s.pipe.Batch()[s.pipe.Front() - 1] in s.pipe.Contents();
  }

  lemma PendingIsKnown(s: State)
    requires PipeInv(s)
    ensures forall m | m in s.log.w.pending :: m in s.log.known
  {
    hide Storable;
    assert forall m | m in s.pipe.Unconfirmed() :: m in s.pipe.Contents();
  }

  lemma AckKeeps(u: Setup, s: State, id: uint64, ok: bool, s': State)
    requires Inv(u, s) && s.up && AckStep(s, id, ok, s')
    ensures Inv(u, s')
  {
    AckKeepsPipe(s, id, ok, s');
    AckKeepsIds(u, s, id, ok, s');
    if s' != s {
      hide FileInv, PipeInv, IdsInv, WalHistory.Inv, ConfirmStep;
      WalHistory.StepKeeps(s.log, WalHistory.Confirm(id, ok), s'.log);
      FileFrame(s, s');
    }
  }

  // ---------- Restarts ----------

  lemma {:induction false} MaxIdBelow(ms: seq<LogMessage>, bound: nat)
    requires 0 < bound && forall m | m in ms :: m.id < bound
    ensures ClientState.MaxId(ms) < bound
  {
    if ms != [] {
      assert ms[|ms| - 1] in ms;
      MaxIdBelow(ms[..|ms| - 1], bound);
    }
  }

  // What a restart resumes from: the saved state, but no checkpoint if the path spans lines.
  function Resumed(u: Setup, f: ClientState.Fields): ClientState.Fields {
    if Text.OneLine(u.source) then f else f.(fileOffset := 0, fileDeviceId := 0, fileInode := 0)
  }

  /**
   Starting again never finds anything wrong with what the client itself left behind. It resumes
   from the saved ids, and from the saved checkpoint if and only if the source path is a single line.
   */
  lemma RestartIsClean(u: Setup, s: State)
    requires Inv(u, s)
    ensures var saved := ClientState.Parse(ClientState.Render(s.ids.stored));
      && saved.Some? && ClientState.MaxId(s.log.w.records) < MAX_UINT64
      && (forall m | m in s.log.w.records :: m.clientId == saved.value.clientId)
      && var fields := ClientState.Repaired(saved.value, u.source, ClientState.MaxId(s.log.w.records));
        && fields == Resumed(u, s.ids.stored)
        && OpenOffset(fields, u.file, |s.tail.content|) == fields.fileOffset
        && (fields == s.ids.stored <==> Text.OneLine(u.source) || CheckpointIsZero(s.ids.stored))
  {
    hide WalHistory.Inv, ClientState.MaxId, PipeInv, Carries, FileTailReader.Inv;
    ClientState.GeneratedIsPlain(u.clientId);
    ClientState.SavedIsLoaded(s.ids.stored);
    ClientState.HeadLineIsAll(u.source);
    hide ClientState.GeneratedId, ClientState.Parse, ClientState.Render, ClientState.HeadLine, Text.OneLine;
    MaxIdBelow(s.log.w.records, s.ids.stored.nextId);
  }

  predicate CheckpointIsZero(f: ClientState.Fields) {
    f.fileOffset == 0 && f.fileDeviceId == 0 && f.fileInode == 0
  }

  lemma ReloadKnown(h: WalHistory.History, h': WalHistory.History)
    requires WalHistory.Inv(h) && WalHistory.Step(h, WalHistory.Reload, h')
    ensures WalHistory.Inv(h')
    ensures Storable(h.w.records) && forall m | m in h.w.records :: m in h'.known
    ensures forall m | m in h.known :: m in h'.known
    ensures forall m | m in h'.known :: m in h.known || m in h.w.records
  {
    hide Storable, WalHistory.Durable;
    WalHistory.StepKeeps(h, WalHistory.Reload, h');
    var stale, extra :| WalHistory.Layout(h', stale, extra);
    assert extra == [];
    assert h'.w.records == stale + h'.w.pending;
  }

  // A restart, once it is known what it resumes from.
  ghost predicate CleanRestart(u: Setup, s: State, s': State) {
    var fields := Resumed(u, s.ids.stored);
    && s'.pipe == Started(s.log.w.records)
    && fields.fileOffset <= |s.tail.content|
    && s'.ids == ClientState.Ids(fields, fields)
    && s'.tail == FileTailReader.Tail(s.tail.content, FileTailReader.Progress(fields.fileOffset, []),
                                      CompleteLines(s.tail.content[..fields.fileOffset]))
    && s'.cover == s'.durableCover == CoverAt(s, fields)
    && s'.up && s'.restarted
    && WalHistory.Step(s.log, WalHistory.Reload, s'.log)
  }

  // The lines before the resumed checkpoint are covered.
  lemma ResumedIsCovered(u: Setup, s: State, h: WalHistory.History)
    requires FileInv(s) && (forall m | m in s.log.known :: m in h.known)
    ensures var f := Resumed(u, s.ids.stored);
      && f.fileOffset <= |s.tail.content| && Remainder(s.tail.content[..f.fileOffset]) == []
      && Carries(CoverAt(s, f), CompleteLines(s.tail.content[..f.fileOffset]), h)
  {
    EmptyFile(s.tail.content);
    hide CompleteLines, Remainder, FileTailReader.Inv, Text.OneLine;
  }

  // A reader that starts at the end of a line has handed out the lines before it.
  lemma ResumesInv(content: Bytes, offset: nat)
    requires offset <= |content| && Remainder(content[..offset]) == []
    ensures FileTailReader.Inv(FileTailReader.Tail(content, FileTailReader.Progress(offset, []),
                                                   CompleteLines(content[..offset])), 0)
  {
    hide CompleteLines, Remainder;
    assert content[0..offset] == content[..offset];
    assert content[offset..offset] == [];
  }

  lemma RestartKeepsFile(u: Setup, s: State, s': State)
    requires FileInv(s) && CleanRestart(u, s, s') && (forall m | m in s.log.known :: m in s'.log.known)
    ensures FileInv(s')
  {
    ResumedIsCovered(u, s, s'.log);
    ResumesInv(s.tail.content, Resumed(u, s.ids.stored).fileOffset);
    hide CompleteLines, Remainder, Increasing, WalHistory.Step, Resumed, CoverAt, FileTailReader.Inv, Texts;
    assert Texts(s'.cover) + [] == Texts(s'.cover);
  }

  lemma StartRestarts(u: Setup, s: State, s': State)
    requires Inv(u, s) && StartStep(u, s, true, s')
    ensures CleanRestart(u, s, s') && WalHistory.Step(s.log, WalHistory.Reload, s'.log)
  {
    RestartIsClean(u, s);
    hide ClientState.Repaired, ClientState.MaxId, OpenOffset, CompleteLines, Inv, WalHistory.Step;
    hide ClientState.Parse, ClientState.Render, Resumed, CoverAt;
  }

  lemma RestartKeepsIds(u: Setup, s: State, s': State)
    requires IdsInv(u, s) && CleanRestart(u, s, s')
    requires forall m | m in s'.log.known :: m in s.log.known || m in s.log.w.records
    ensures IdsInv(u, s')
  {
    hide CompleteLines, CoverAt, Text.OneLine;
  }

  lemma RestartKeepsPipe(u: Setup, s: State, s': State)
    requires CleanRestart(u, s, s')
    requires Storable(s.log.w.records) && forall m | m in s.log.w.records :: m in s'.log.known
    ensures PipeInv(s')
  {
    hide Storable, CompleteLines, Resumed, CoverAt;
    assert s'.pipe.Contents() == s.log.w.records;
    assert s'.pipe.Unconfirmed() == s.log.w.records;
  }

  lemma StartedKeeps(u: Setup, s: State, s': State)
    requires Inv(u, s) && StartStep(u, s, true, s')
    ensures Inv(u, s')
  {
    StartRestarts(u, s, s');
    hide FileInv, IdsInv, PipeInv, WalHistory.Inv, Storable, StartStep, CleanRestart, WalHistory.Step;
    ReloadKnown(s.log, s'.log);
    RestartKeepsIds(u, s, s');
    RestartKeepsPipe(u, s, s');
    RestartKeepsFile(u, s, s');
  }

  // A start that fails has changed at most what it would have corrected.
  ghost predicate FailedRestart(u: Setup, s: State, s': State) {
    && !s'.up && !s.up && s'.restarted
    && s'.ids.stored in {s.ids.stored, Resumed(u, s.ids.stored)}
    && s'.durableCover == CoverAt(s, s'.ids.stored) && s'.cover == s.cover && s'.tail == s.tail
    && s'.log.confirmed == s.log.confirmed
  }

  lemma StartFails(u: Setup, s: State, s': State)
    requires Inv(u, s) && StartStep(u, s, false, s')
    ensures FailedRestart(u, s, s')
  {
    RestartIsClean(u, s);
    hide ClientState.Repaired, ClientState.MaxId, OpenOffset, CompleteLines, Inv;
    hide ClientState.Parse, ClientState.Render, Resumed, CoverAt;
  }

  lemma FailedRestartKeeps(u: Setup, s: State, s': State)
    requires IdsInv(u, s) && FileInv(s) && FailedRestart(u, s, s')
    requires forall m | m in s.log.known :: m in s'.log.known
    requires forall m | m in s'.log.known :: m in s.log.known || m in s.log.w.records
    requires s'.log.w.records == s.log.w.records
    ensures IdsInv(u, s') && FileInv(s')
  {
    ResumedIsCovered(u, s, s'.log);
    hide CompleteLines, Remainder, Increasing, Text.OneLine, FileTailReader.Inv;
  }

  lemma FailedStartKeeps(u: Setup, s: State, s': State)
    requires Inv(u, s) && StartStep(u, s, false, s')
    ensures Inv(u, s')
  {
    StartFails(u, s, s');
    hide ClientState.Repaired, ClientState.MaxId, ClientState.Parse, ClientState.Render;
    if s'.log != s.log {
      ReloadKnown(s.log, s'.log);
    }
    hide WalHistory.Inv, FileInv, PipeInv, IdsInv, FailedRestart, StartStep;
    FailedRestartKeeps(u, s, s');
  }

  lemma StepKeeps(u: Setup, s: State, e: Event, s': State)
    requires Inv(u, s) && Step(u, s, e, s')
    ensures Inv(u, s')
  {
    hide Inv, StartStep, AckStep;
    match e
    case Grow(more) => GrowKeeps(u, s, more, s');
    case Poll(end) => PollKeeps(u, s, end, s');
    case Allocate(id, ok) => AllocateKeeps(u, s, id, ok, s');
    case Append(m, ok) => AppendKeeps(u, s, m, ok, s');
    case Checkpoint(ok) => CheckpointKeeps(u, s, ok, s');
    case Send(batch) =>
    case ReceiveAck(id, ok) => AckKeeps(u, s, id, ok, s');
    case Start(ok) => if ok { StartedKeeps(u, s, s'); } else { FailedStartKeeps(u, s, s'); }
    case _ => ControlKeeps(u, s, e, s');
  }

  // ---------- Whole runs ----------

  ghost predicate Run(u: Setup, ss: seq<State>, es: seq<Event>) {
    && |ss| == |es| + 1 && Init(u, ss[0])
    && forall i | 0 <= i < |es| :: Step(u, ss[i], es[i], ss[i + 1])
  }

  lemma InitHolds(u: Setup, s: State)
    requires Init(u, s)
    ensures Inv(u, s)
  {
    assert s.log.w.records == [] + [] + [];
    assert WalHistory.Layout(s.log, [], []);
    EmptyFile(s.tail.content);
    EmptyIsStorable();
    hide Remainder, CompleteLines, ValidMessage;
  }

  lemma EmptyFile(content: Bytes)
    ensures CompleteLines(content[..0]) == [] == CompleteLines(content[0..0])
    ensures Remainder(content[..0]) == [] == Remainder(content[0..0])
  {
    assert content[..0] == [] == content[0..0];
  }

  lemma {:induction false} RunKeeps(u: Setup, ss: seq<State>, es: seq<Event>, n: nat)
    requires Run(u, ss, es) && n < |ss|
    ensures Inv(u, ss[n])
  {
    hide Inv, Step, Init;
    if n == 0 {
      InitHolds(u, ss[0]);
    } else {
      RunKeeps(u, ss, es, n - 1);
      StepKeeps(u, ss[n - 1], es[n - 1], ss[n]);
    }
  }

  lemma AckOutcome(s: State, id: uint64, ok: bool, s': State)
    requires PipeInv(s) && AckStep(s, id, ok, s') && id == s.pipe.Batch()[s.pipe.Front() - 1].id
    ensures var p, p' := s.pipe, s'.pipe;
      && s'.log.w.pending == p.inFlight[p.Front()..] + p.queue + p.backlog
      && (if ok then p'.inFlight == p.inFlight[p.Front()..] else p'.acked && p'.inFlight == p.inFlight)
  {
    AckRemovesBatch(s.pipe, id) by {
      hide Storable;
    }
    hide Storable, Above;
  }

  lemma PendingParts(s: State)
    requires PipeInv(s) && s.pipe.inFlight != []
    ensures var p := s.pipe;
      s.log.w.pending == (if p.acked then [] else p.Batch()) + (p.inFlight[p.Front()..] + p.queue + p.backlog)
  {
    hide Storable;
    var p := s.pipe;
    assert p.inFlight == p.Batch() + p.inFlight[p.Front()..];
  }

  /**
   An accepted ACK removes exactly the acknowledged batch, the front of the pending messages. If
   an earlier attempt already did so in memory, nothing is removed. Either way everything behind
   the batch stays, in order.
   */
  lemma AckConfirmsItsBatch(u: Setup, ss: seq<State>, es: seq<Event>, n: nat)
    requires Run(u, ss, es) && n < |es| && es[n].ReceiveAck?
    ensures var p, p' := ss[n].pipe, ss[n + 1].pipe;
      var rest := p.inFlight[p.Front()..] + p.queue + p.backlog;
      && 0 < p.Front() <= |p.inFlight|
      && ss[n].log.w.pending == (if p.acked then [] else p.Batch()) + rest
      && if es[n].id != p.Batch()[p.Front() - 1].id then ss[n + 1] == ss[n]
         else
           && ss[n + 1].log.w.pending == rest
           && (if es[n].ok then p'.inFlight == p.inFlight[p.Front()..] else p'.acked && p'.inFlight == p.inFlight)
  {
    hide IdsInv, FileInv, WalHistory.Inv, PipeInv, AckStep, Init;
    RunKeeps(u, ss, es, n);
    assert Step(u, ss[n], es[n], ss[n + 1]);
    assert AckStep(ss[n], es[n].id, es[n].ok, ss[n + 1]);
    AckGuard(ss[n], es[n].id, es[n].ok, ss[n + 1]);
    PendingParts(ss[n]);
    if es[n].id == ss[n].pipe.Batch()[ss[n].pipe.Front() - 1].id {
      AckOutcome(ss[n], es[n].id, es[n].ok, ss[n + 1]);
    }
  }

  lemma AckGuard(s: State, id: uint64, ok: bool, s': State)
    requires AckStep(s, id, ok, s')
    ensures s.pipe.inFlight != []
    ensures id != s.pipe.Batch()[s.pipe.Front() - 1].id ==> s' == s
  {
  }

  lemma FrontIsValid(p: Pipeline)
    requires Storable(p.Contents()) && p.inFlight != []
    ensures ValidBatch(p.Batch()) && |p.Batch()| <= Client.SEND_BATCH_SIZE
  {
    hide Storable, ValidBatch;
    assert p.Contents() == p.Batch() + (p.inFlight[p.Front()..] + p.queue + p.backlog);
    WalHistory.StorableParts(p.Batch(), p.inFlight[p.Front()..] + p.queue + p.backlog);
    Client.BatchIsEncodable(p.Batch());
  }

  lemma BehindIsAbove(front: seq<LogMessage>, rest: seq<LogMessage>, m: LogMessage)
    requires Increasing(front + rest) && front != [] && m in rest
    ensures m.id > front[|front| - 1].id
  {
    var i :| 0 <= i < |rest| && rest[i] == m;
    var all := front + rest;
    assert all[|front| - 1] == front[|front| - 1] && all[|front| + i] == m;
  }

  // A known message up to the batch's last one is in the batch, or confirmed already.
  lemma UnsentIsLater(s: State, m: LogMessage)
    requires WalHistory.Inv(s.log) && PipeInv(s) && s.pipe.inFlight != []
    requires m in s.log.known && m.id <= s.pipe.Batch()[s.pipe.Front() - 1].id
    ensures m in s.pipe.Batch() || m.id <= s.log.confirmed
  {
    hide Storable, WalHistory.Inv;
    if m.id > s.log.confirmed && m !in s.pipe.Batch() {
      WalHistory.UnconfirmedIsPending(s.log, m);
      var p := s.pipe;
      var rest := p.inFlight[p.Front()..] + p.queue + p.backlog;
      assert p.Contents() == p.Batch() + rest;
      assert p.Unconfirmed() == p.Contents() || p.Unconfirmed() == rest;
      WalHistory.InConcat(m, p.Batch(), rest);
      StorableSuffix(p.Batch(), rest);
      BehindIsAbove(p.Batch(), rest, m);
    }
  }

  // What a batch tells the server: everything the client knows up to its last id.
  ghost predicate CompleteUpTo(h: WalHistory.History, batch: seq<LogMessage>) {
    && batch != []
    && (forall m | m in batch :: m in h.known)
    && forall m | m in h.known && m.id <= batch[|batch| - 1].id :: m in batch || m.id <= h.confirmed
  }

  lemma SentIsComplete(u: Setup, s: State, batch: seq<LogMessage>, s': State)
    requires Inv(u, s) && Step(u, s, Send(batch), s')
    ensures ValidBatch(batch) && |batch| <= Client.SEND_BATCH_SIZE && CompleteUpTo(s.log, batch)
    ensures forall m | m in batch :: m.clientId == u.clientId
  {
    hide Storable, WalHistory.Inv, FileInv, ValidBatch;
    FrontIsValid(s.pipe);
    assert forall m | m in batch :: m in s.pipe.Contents();
    forall m | m in s.log.known && m.id <= batch[|batch| - 1].id ensures m in batch || m.id <= s.log.confirmed {
      UnsentIsLater(s, m);
    }
  }

  /**
   Every batch sent can be encoded and leaves no gap: all messages of the log up to its last id
   are in it or were confirmed before.
   */
  lemma BatchesAreValidAndComplete(u: Setup, ss: seq<State>, es: seq<Event>, n: nat)
    requires Run(u, ss, es) && n < |es| && es[n].Send?
    ensures ValidBatch(es[n].batch) && |es[n].batch| <= Client.SEND_BATCH_SIZE
    ensures CompleteUpTo(ss[n].log, es[n].batch)
  {
    RunKeeps(u, ss, es, n);
    hide Inv, Step, ValidBatch, CompleteUpTo;
    SentIsComplete(u, ss[n], es[n].batch, ss[n + 1]);
  }

  /** At every moment the lines before the saved checkpoint are carried by distinct known messages, in order. */
  lemma CheckpointIsCovered(u: Setup, ss: seq<State>, es: seq<Event>, n: nat)
    requires Run(u, ss, es) && n < |ss|
    ensures var s := ss[n];
      && s.ids.stored.fileOffset <= |s.tail.content|
      && Carries(s.durableCover, CompleteLines(s.tail.content[..s.ids.stored.fileOffset]), s.log)
      && Remainder(s.tail.content[..s.ids.stored.fileOffset]) == []
      && forall m | m in s.durableCover :: m in s.log.w.records || m.id <= s.log.confirmed
  {
    RunKeeps(u, ss, es, n);
    hide CompleteLines, Remainder, Increasing, Storable, IdsInv, PipeInv, Init, Step, FileTailReader.Inv;
  }

  lemma InvMeansExact(u: Setup, s: State)
    requires Inv(u, s) && s.up && Settled(s.pipe.producer) && !s.restarted
    ensures s.ids.stored.fileOffset <= |s.tail.content|
    ensures Texts(s.log.known) == CompleteLines(s.tail.content[..s.ids.stored.fileOffset])
  {
    hide CompleteLines, Remainder, Increasing, Storable, IdsInv, PipeInv, FileTailReader.Inv, WalHistory.Inv;
  }

  /**
   Before the first crash, once a round has saved its checkpoint, the messages ever appended are
   exactly the lines of the file up to it.
   */
  lemma RoundIsExact(u: Setup, ss: seq<State>, es: seq<Event>, n: nat)
    requires Run(u, ss, es) && n < |ss| && ss[n].up && Settled(ss[n].pipe.producer) && !ss[n].restarted
    ensures ss[n].ids.stored.fileOffset <= |ss[n].tail.content|
    ensures Texts(ss[n].log.known) == CompleteLines(ss[n].tail.content[..ss[n].ids.stored.fileOffset])
  {
    RunKeeps(u, ss, es, n);
    hide Inv, Run;
    InvMeansExact(u, ss[n]);
  }

  // ---------- Ids are never reused ----------

  // No later append can use `id`.
  ghost predicate Spent(s: State, id: uint64) {
    && id < s.ids.stored.nextId
    && (s.up && s.pipe.producer.Allocated? ==> id < s.pipe.producer.id)
  }

  lemma ResumedKeepsIds(u: Setup, f: ClientState.Fields)
    ensures Resumed(u, f).nextId == f.nextId
  {
  }

  lemma SpentStaysAtRestart(u: Setup, s: State, ok: bool, s': State, id: uint64)
    requires Inv(u, s) && StartStep(u, s, ok, s') && Spent(s, id)
    ensures Spent(s', id)
  {
    ResumedKeepsIds(u, s.ids.stored);
    hide Inv, StartStep, Resumed, CoverAt, WalHistory.Step, CompleteLines;
    if ok {
      StartRestarts(u, s, s');
    } else {
      StartFails(u, s, s');
    }
  }

  lemma SpentStaysInRun(u: Setup, s: State, e: Event, s': State, id: uint64)
    requires IdsInv(u, s) && s.up && Spent(s, id)
    requires ProducerStep(u, s, e, s') || ConsumerStep(s, e, s')
    ensures Spent(s', id)
  {
    hide Below, OwnFields, FileTailReader.Step, WalHistory.Appended, WalHistory.Step;
  }

  lemma SpentStays(u: Setup, s: State, e: Event, s': State, id: uint64)
    requires Inv(u, s) && Step(u, s, e, s') && Spent(s, id)
    ensures Spent(s', id)
  {
    hide WalHistory.Inv, IdsInv, FileInv, PipeInv, ProducerStep, ConsumerStep, StartStep;
    if e.Start? {
      SpentStaysAtRestart(u, s, e.ok, s', id);
    } else if !(e.Grow? || e.Crash? || e.StopRequested? || e.CloseQueue?) {
      SpentStaysInRun(u, s, e, s', id);
    }
  }

  lemma {:induction false} SpentForever(u: Setup, ss: seq<State>, es: seq<Event>, i: nat, n: nat, id: uint64)
    requires Run(u, ss, es) && i <= n < |ss| && Spent(ss[i], id)
    ensures Spent(ss[n], id)
  {
    hide Inv, Step, Spent, Init;
    if i < n {
      SpentForever(u, ss, es, i, n - 1, id);
      RunKeeps(u, ss, es, n - 1);
      SpentStays(u, ss[n - 1], es[n - 1], ss[n], id);
    }
  }

  lemma AppendSpends(u: Setup, s: State, m: LogMessage, ok: bool, s': State)
    requires IdsInv(u, s) && s.up && ProducerStep(u, s, Append(m, ok), s')
    ensures s.pipe.producer.Allocated? && m.id == s.pipe.producer.id && m.id < s.ids.stored.nextId
    ensures Spent(s', m.id)
  {
    hide Below, OwnFields, WalHistory.Appended;
  }

  /** In any run, through any crashes, the ids passed to append are strictly increasing, whether or not it succeeds. */
  lemma IdsAreNeverReused(u: Setup, ss: seq<State>, es: seq<Event>, i: nat, j: nat)
    requires Run(u, ss, es) && i < j < |es| && es[i].Append? && es[j].Append?
    ensures es[i].m.id < es[j].m.id < ss[j].ids.stored.nextId
  {
    hide IdsInv, FileInv, PipeInv, WalHistory.Inv, ProducerStep, ConsumerStep, Init;
    RunKeeps(u, ss, es, i);
    RunKeeps(u, ss, es, j);
    assert Step(u, ss[i], es[i], ss[i + 1]) && Step(u, ss[j], es[j], ss[j + 1]);
    NotConsumer(ss[i], es[i], ss[i + 1]);
    NotConsumer(ss[j], es[j], ss[j + 1]);
    AppendSpends(u, ss[i], es[i].m, es[i].ok, ss[i + 1]);
    AppendSpends(u, ss[j], es[j].m, es[j].ok, ss[j + 1]);
    SpentForever(u, ss, es, i + 1, j, es[i].m.id);
  }

  lemma NotConsumer(s: State, e: Event, s': State)
    requires e.Append?
    ensures !ConsumerStep(s, e, s')
  {
  }
}
