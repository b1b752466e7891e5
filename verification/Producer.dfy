/** One round of the producer: every line gets a durable id and a durable record, then the checkpoint moves. */
module Producer {
  import opened Words
  import opened Persistence
  import opened Protocol
  import opened WriteAheadLog
  import ClientState
  import FileTailReader

  datatype Failure =
    | StateFailed(state: ClientState.StateError)
    | LogFailed(log: WalError)
    | ReaderFailed(reader: FileTailReader.ReaderError)

  // The messages of consecutive lines, whose ids are consecutive from `first`.
  ghost predicate Numbered(ms: seq<LogMessage>, lines: seq<Bytes>, first: nat, clientId: Bytes, source: Bytes) {
    && |ms| == |lines|
    && forall i | 0 <= i < |ms| ::
         ms[i].id == first + i && ms[i].clientId == clientId && ms[i].source == source && ms[i].content == lines[i]
  }

  lemma NumberedSnoc(ms: seq<LogMessage>, lines: seq<Bytes>, first: nat, m: LogMessage, index: nat)
    requires index < |lines| && Numbered(ms, lines[..index], first, m.clientId, m.source)
    requires m.id == first + index && m.content == lines[index]
    ensures Numbered(ms + [m], lines[..index + 1], first, m.clientId, m.source)
  {
    assert lines[..index + 1] == lines[..index] + [lines[index]];
  }

  lemma Untouched(files: Files, before: Files, paths: set<Path>, path: Path)
    requires SameExcept(files, before, paths) && path !in paths
    ensures ContentOf(files, path) == ContentOf(before, path)
    ensures path in files <==> path in before
  {
    assert Lookup(files, path) == Lookup(before, path);
  }

  // ---------- What a crash in the middle of a round leaves ----------

  // Behind the earlier records there are those of a front part of the lines, with ids from `first` on.
  ghost predicate Logged(before: seq<LogMessage>, first: nat, lines: seq<Bytes>, records: seq<LogMessage>) {
    && before <= records && |records| - |before| <= |lines|
    && forall j | 0 <= j < |records| - |before| ::
         records[|before| + j].id == first + j && records[|before| + j].content == lines[j]
  }

  // The state file's counter is past them all, and its checkpoint has not moved before they are all there.
  ghost predicate CoversLogged(f0: ClientState.Fields, f: ClientState.Fields, logged: nat, lines: nat,
                               checkpoint: (int, FileTailReader.FileId))
  {
    && f0.nextId + logged <= f.nextId
    && (CheckpointOf(f) == CheckpointOf(f0) || (CheckpointOf(f) == checkpoint && logged == lines))
  }

  /**
   The process dies here: the log holds a front part of the lines, the ids of its records cannot
   come again, and the checkpoint does not skip a line that is not in it.
   */
  ghost predicate SafeCut(files: Files, walPath: Path, statePath: Path, before: seq<LogMessage>,
                          f0: ClientState.Fields, lines: seq<Bytes>, checkpoint: (int, FileTailReader.FileId))
  {
    statePath in files &&
    exists records, torn, f ::
      && Stores(ContentOf(files, walPath), records, torn) && ClientState.Parse(files[statePath]) == Some(f)
      && Logged(before, f0.nextId, lines, records)
      && CoversLogged(f0, f, |records| - |before|, |lines|, checkpoint)
  }

  lemma NumberedIsLogged(before: seq<LogMessage>, f0: ClientState.Fields, lines: seq<Bytes>, ms: seq<LogMessage>,
                         source: Bytes)
    requires |ms| <= |lines| && Numbered(ms, lines[..|ms|], f0.nextId, f0.clientId, source)
    ensures Logged(before, f0.nextId, lines, before + ms) && |before + ms| == |before| + |ms|
  {
  }

  lemma ReservingIsSafe(files: Files, now: Files, walPath: Path, statePath: Path, before: seq<LogMessage>,
                        f0: ClientState.Fields, lines: seq<Bytes>, ms: seq<LogMessage>, s: ClientState.Ids,
                        source: Bytes)
    requires Stores(ContentOf(now, walPath), before + ms, false)
    requires SameExcept(files, now, {statePath, TemporaryFor(statePath)})
    requires walPath !in {statePath, TemporaryFor(statePath)}
    requires ClientState.CutNextId(files, statePath, s) && s.memory == s.stored
    requires s.stored == f0.(nextId := s.stored.nextId) && s.stored.nextId == f0.nextId + |ms|
    requires |ms| <= |lines| && Numbered(ms, lines[..|ms|], f0.nextId, f0.clientId, source)
    ensures SafeCut(files, walPath, statePath, before, f0, lines, CheckpointOf(f0))
  {
    hide Stores, ClientState.Parse, SameExcept, Numbered, Logged;
    Untouched(files, now, {statePath, TemporaryFor(statePath)}, walPath);
    NumberedIsLogged(before, f0, lines, ms, source);
    var s' :| ClientState.NextIdStep(s, 0, s', false) && ClientState.Parse(files[statePath]) == Some(s'.stored);
    var records := before + ms;
    assert CoversLogged(f0, s'.stored, |ms|, |lines|, CheckpointOf(f0));
  }

  lemma AppendingIsSafe(files: Files, now: Files, walPath: Path, statePath: Path, before: seq<LogMessage>,
                        f0: ClientState.Fields, lines: seq<Bytes>, ms: seq<LogMessage>, f: ClientState.Fields,
                        w: WalState, m: LogMessage)
    requires w.records == before + ms && !w.torn
    requires CutAppend(files, walPath, w, m) && SameExcept(files, now, {walPath}) && statePath != walPath
    requires statePath in now && ClientState.Parse(now[statePath]) == Some(f)
    requires f == f0.(nextId := f.nextId) && f.nextId == f0.nextId + |ms| + 1
    requires |ms| < |lines| && Numbered(ms, lines[..|ms|], f0.nextId, m.clientId, m.source)
    requires m.id == f0.nextId + |ms| && m.content == lines[|ms|]
    ensures SafeCut(files, walPath, statePath, before, f0, lines, CheckpointOf(f0))
  {
    hide Stores, ClientState.Parse, SameExcept, ValidMessage, Numbered, Logged;
    Untouched(files, now, {walPath}, statePath);
    assert statePath in files && files[statePath] == now[statePath];
    NumberedSnoc(ms, lines, f0.nextId, m, |ms|);
    NumberedIsLogged(before, f0.(clientId := m.clientId), lines, ms, m.source);
    NumberedIsLogged(before, f0.(clientId := m.clientId), lines, ms + [m], m.source);
    assert before + (ms + [m]) == before + ms + [m];
    var w' :| AppendStep(w, m, w', false) && Stores(ContentOf(files, walPath), w'.records, w'.torn);
    assert CoversLogged(f0, f, |w'.records| - |before|, |lines|, CheckpointOf(f0));
  }

  lemma SavingIsSafe(files: Files, now: Files, walPath: Path, statePath: Path, before: seq<LogMessage>,
                     f0: ClientState.Fields, lines: seq<Bytes>, ms: seq<LogMessage>, s: ClientState.Ids,
                     checkpoint: (int, FileTailReader.FileId), offset: uint64, source: Bytes)
    requires Stores(ContentOf(now, walPath), before + ms, false)
    requires SameExcept(files, now, {statePath, TemporaryFor(statePath)})
    requires walPath !in {statePath, TemporaryFor(statePath)}
    requires ClientState.CutCheckpoint(files, statePath, s, offset, checkpoint.1.device, checkpoint.1.inode)
    requires checkpoint.0 == offset && s.memory == s.stored
    requires s.stored == f0.(nextId := s.stored.nextId) && s.stored.nextId == f0.nextId + |ms|
    requires |ms| == |lines| && Numbered(ms, lines[..|ms|], f0.nextId, f0.clientId, source)
    ensures SafeCut(files, walPath, statePath, before, f0, lines, checkpoint)
  {
    hide Stores, ClientState.Parse, SameExcept, Numbered, Logged;
    Untouched(files, now, {statePath, TemporaryFor(statePath)}, walPath);
    NumberedIsLogged(before, f0, lines, ms, source);
    var s' :| && ClientState.CheckpointStep(s, offset, checkpoint.1.device, checkpoint.1.inode, s', false)
              && ClientState.Parse(files[statePath]) == Some(s'.stored);
    var records := before + ms;
    assert CoversLogged(f0, s'.stored, |ms|, |lines|, checkpoint);
  }

  // Before the checkpoint is saved, it does not matter where it will be.
  lemma SafeBefore(files: Files, walPath: Path, statePath: Path, before: seq<LogMessage>,
                   f0: ClientState.Fields, lines: seq<Bytes>, checkpoint: (int, FileTailReader.FileId))
    requires SafeCut(files, walPath, statePath, before, f0, lines, CheckpointOf(f0))
    ensures SafeCut(files, walPath, statePath, before, f0, lines, checkpoint)
  {
    hide Stores, ClientState.Parse;
    var records, torn, f :|
      && Stores(ContentOf(files, walPath), records, torn) && ClientState.Parse(files[statePath]) == Some(f)
      && Logged(before, f0.nextId, lines, records)
      && CoversLogged(f0, f, |records| - |before|, |lines|, CheckpointOf(f0));
    assert CoversLogged(f0, f, |records| - |before|, |lines|, checkpoint);
  }

  lemma AllSafeBefore(trail: seq<Files>, mark: nat, walPath: Path, statePath: Path, before: seq<LogMessage>,
                      f0: ClientState.Fields, lines: seq<Bytes>, checkpoint: (int, FileTailReader.FileId))
    requires forall i | mark <= i < |trail| ::
               SafeCut(trail[i], walPath, statePath, before, f0, lines, CheckpointOf(f0))
    ensures forall i | mark <= i < |trail| :: SafeCut(trail[i], walPath, statePath, before, f0, lines, checkpoint)
  {
    hide SafeCut;
    forall i | mark <= i < |trail| ensures SafeCut(trail[i], walPath, statePath, before, f0, lines, checkpoint) {
      SafeBefore(trail[i], walPath, statePath, before, f0, lines, checkpoint);
    }
  }

  // The log and the ids once the messages of some lines have got their records.
  function Recorded(w: WalState, ms: seq<LogMessage>): WalState {
    w.(records := w.records + ms, pending := w.pending + ms)
  }

  function Counted(f: ClientState.Fields, n: nat): ClientState.Fields
    requires f.nextId + n <= MAX_UINT64
  {
    f.(nextId := f.nextId + n)
  }

  /** How the lines after the first |ms| came to have no record: reserving the id failed, or the append. */
  ghost predicate CutShort(w0: WalState, f0: ClientState.Fields, line: Bytes, source: Bytes, ms: seq<LogMessage>,
                           w: WalState, ids: ClientState.Ids, error: Failure)
  {
    match error
    case ReaderFailed(_) => false
    case StateFailed(_) =>
      && f0.nextId + |ms| <= MAX_UINT64 && w == Recorded(w0, ms)
      && ClientState.NextIdStep(ClientState.Ids(Counted(f0, |ms|), Counted(f0, |ms|)), 0, ids, false)
    case LogFailed(_) =>
      && f0.nextId + |ms| < MAX_UINT64
      && ids == ClientState.Ids(Counted(f0, |ms| + 1), Counted(f0, |ms| + 1))
      && exists m: LogMessage ::
           && m.id == f0.nextId + |ms| && m.clientId == f0.clientId && m.source == source && m.content == line
           && AppendStep(Recorded(w0, ms), m, w, false)
  }

  /** How a round came to fail with every line recorded: its checkpoint could not be saved. */
  ghost predicate NotSaved(w0: WalState, f0: ClientState.Fields, ms: seq<LogMessage>, w: WalState,
                           ids: ClientState.Ids, checkpoint: (int, FileTailReader.FileId), error: Failure)
  {
    && error.StateFailed? && f0.nextId + |ms| <= MAX_UINT64 && 0 <= checkpoint.0 <= MAX_UINT64
    && w == Recorded(w0, ms)
    && ClientState.CheckpointStep(
         ClientState.Ids(Counted(f0, |ms|), Counted(f0, |ms|)), checkpoint.0, checkpoint.1.device, checkpoint.1.inode,
         ids, false)
  }

  lemma SavingFails(w0: WalState, f0: ClientState.Fields, ms: seq<LogMessage>, w: WalState, s: ClientState.Ids,
                    ids: ClientState.Ids, checkpoint: (int, FileTailReader.FileId), error: ClientState.StateError)
    requires f0.nextId + |ms| <= MAX_UINT64 && 0 <= checkpoint.0 <= MAX_UINT64
    requires w == Recorded(w0, ms) && s == ClientState.Ids(Counted(f0, |ms|), Counted(f0, |ms|))
    requires ClientState.CheckpointStep(s, checkpoint.0, checkpoint.1.device, checkpoint.1.inode, ids, false)
    ensures NotSaved(w0, f0, ms, w, ids, checkpoint, StateFailed(error))
  {
  }

  lemma ReservingFails(w0: WalState, f0: ClientState.Fields, line: Bytes, source: Bytes, ms: seq<LogMessage>,
                       w: WalState, ids: ClientState.Ids, s: ClientState.Ids, error: ClientState.StateError)
    requires w == Recorded(w0, ms) && f0.nextId + |ms| <= MAX_UINT64
    requires s == ClientState.Ids(Counted(f0, |ms|), Counted(f0, |ms|)) && ClientState.NextIdStep(s, 0, ids, false)
    ensures CutShort(w0, f0, line, source, ms, w, ids, StateFailed(error))
  {
  }

  lemma AppendingFails(w0: WalState, f0: ClientState.Fields, ms: seq<LogMessage>,
                       w1: WalState, m: LogMessage, w: WalState, ids: ClientState.Ids, error: WalError)
    requires w1 == Recorded(w0, ms) && f0.nextId + |ms| < MAX_UINT64
    requires m.id == f0.nextId + |ms| && m.clientId == f0.clientId && AppendStep(w1, m, w, false)
    requires ids == ClientState.Ids(Counted(f0, |ms| + 1), Counted(f0, |ms| + 1))
    ensures CutShort(w0, f0, m.content, m.source, ms, w, ids, LogFailed(error))
  {
    hide AppendStep;
  }

  // Every one of the lines can be a record, and there are ids for them.
  ghost predicate Recordable(lines: seq<Bytes>, f: ClientState.Fields, source: Bytes) {
    && 0 < |f.clientId| <= MAX_CLIENT_ID_LENGTH && |source| <= MAX_SOURCE_LENGTH
    && 1 <= f.nextId && f.nextId + |lines| <= MAX_UINT64
    && forall i | 0 <= i < |lines| :: |lines[i]| <= MAX_CONTENT_LENGTH
  }

  lemma RecordableIsValid(lines: seq<Bytes>, f: ClientState.Fields, m: LogMessage, index: nat)
    requires Recordable(lines, f, m.source) && index < |lines| && m.content == lines[index]
    requires m.clientId == f.clientId && m.id == f.nextId + index
    ensures ValidMessage(m)
  {
  }

  lemma IdsAreLeft(lines: seq<Bytes>, f: ClientState.Fields, source: Bytes, index: nat)
    requires index < |lines|
    ensures Recordable(lines, f, source) ==> f.nextId + index < MAX_UINT64
  {
  }

  class Producer {
    const wal: WriteAheadLog
    const state: ClientState.ClientState
    const source: Bytes

    constructor (wal: WriteAheadLog, state: ClientState.ClientState, source: Bytes)
      ensures this.wal == wal && this.state == state && this.source == source
    {
      this.wal, this.state, this.source := wal, state, source;
    }

    // The log and the state file are different files of one disk.
    ghost predicate Valid()
      reads this, wal, state, wal.disk, state.disk
    {
      && wal.disk == state.disk && wal.path !in {state.path, TemporaryFor(state.path)}
      && wal.Valid() && state.Valid()
    }

    /**
     Appends the lines one after the other. A failure leaves a front part of them in the log, and
     at most one more id used up.
     */
    method AppendLines(lines: seq<Bytes>) returns (r: Result<seq<LogMessage>, Failure>, ghost ms: seq<LogMessage>)
      requires Valid() && !wal.state.torn && state.Memory() == state.stored
      modifies wal`pending, wal`state, wal.disk, state
      ensures Valid()
      ensures wal.pending == old(wal.pending) + ms && AllValid(ms) && |ms| <= |lines|
      ensures Numbered(ms, lines[..|ms|], old(state.nextId), old(state.clientId), source)
      ensures state.Memory() == old(state.Memory()).(nextId := state.nextId)
      ensures state.stored == old(state.stored).(nextId := state.stored.nextId)
      ensures old(wal.state.records) + ms <= wal.state.records
      ensures r.Ok? ==>
                && r.value == ms && |ms| == |lines|
                && state.stored == state.Memory() && state.nextId == old(state.nextId) + |ms|
                && wal.state == WalState(old(wal.state.records) + ms, false, wal.pending)
      ensures r.Err? ==> !r.error.ReaderFailed? && |ms| < |lines| && state.nextId <= old(state.nextId) + |ms| + 1
      ensures r.Err? ==>
                CutShort(old(wal.state), old(state.Memory()), lines[|ms|], source, ms, wal.state, state.Abs(), r.error)
      ensures old(Recordable(lines, state.Memory(), source)) && !wal.disk.faulty ==> r.Ok?
      ensures old(state.nextId) + |ms| <= state.stored.nextId
      ensures old(wal.disk.trail) <= wal.disk.trail
      ensures forall i | |old(wal.disk.trail)| <= i < |wal.disk.trail| ::
                SafeCut(wal.disk.trail[i], wal.path, state.path, old(wal.state.records), old(state.stored), lines,
                        CheckpointOf(old(state.stored)))
    {
      hide ClientState.Parse, ClientState.Render, ClientState.Printable, Stores, ValidMessage, SameExcept;
      hide SafeCut, ClientState.CutNextId, CutAppend, Recordable, Numbered, CutShort;
      Nothing(old(state.nextId), old(state.clientId), source);
      ghost var before, f0 := wal.state.records, state.stored;
      ms := [];
      var messages: seq<LogMessage> := [];
      var index := 0;
      assert lines[..0] == [][..0];
      while index < |lines|
        invariant index == |ms| <= |lines| && messages == ms
        invariant Valid() && !wal.state.torn && AllValid(ms)
        invariant wal.pending == old(wal.pending) + ms
        invariant wal.state.records == old(wal.state.records) + ms
        invariant state.stored == state.Memory()
        invariant state.nextId == old(state.nextId) + index
        invariant state.Memory() == old(state.Memory()).(nextId := state.nextId)
        invariant Numbered(ms, lines[..index], old(state.nextId), old(state.clientId), source)
        invariant old(wal.disk.trail) <= wal.disk.trail
        invariant forall i | |old(wal.disk.trail)| <= i < |wal.disk.trail| ::
                    SafeCut(wal.disk.trail[i], wal.path, state.path, before, f0, lines, CheckpointOf(f0))
      {
        ghost var files0, mark0, s0 := wal.disk.files, |wal.disk.trail|, state.Abs();
        IdsAreLeft(lines, old(state.Memory()), source, index);
        var id := state.NextMessageId();
        Untouched(wal.disk.files, files0, {state.path, TemporaryFor(state.path)}, wal.path);
        forall i | mark0 <= i < |wal.disk.trail|
          ensures SafeCut(wal.disk.trail[i], wal.path, state.path, before, f0, lines, CheckpointOf(f0))
        {
          ReservingIsSafe(wal.disk.trail[i], files0, wal.path, state.path, before, f0, lines, ms, s0, source);
        }
        if id.Err? {
          ReservingFails(old(wal.state), f0, lines[index], source, ms, wal.state, state.Abs(), s0, id.error);
          return Err(StateFailed(id.error)), ms;
        }
        var timestamp: int64 := *;
        var m := LogMessage(id.value, state.clientId, timestamp, source, lines[index]);
        if old(Recordable(lines, state.Memory(), source)) {
          RecordableIsValid(lines, old(state.Memory()), m, index);
        }
        ghost var files1, mark1, w1 := wal.disk.files, |wal.disk.trail|, wal.state;
        var appended := wal.Append(m);
        Untouched(wal.disk.files, files1, {wal.path}, state.path);
        forall i | mark1 <= i < |wal.disk.trail|
          ensures SafeCut(wal.disk.trail[i], wal.path, state.path, before, f0, lines, CheckpointOf(f0))
        {
          AppendingIsSafe(wal.disk.trail[i], files1, wal.path, state.path, before, f0, lines, ms, state.stored, w1, m);
        }
        if appended.Err? {
          AppendingFails(old(wal.state), f0, ms, w1, m, wal.state, state.Abs(), appended.error);
          return Err(LogFailed(appended.error)), ms;
        }
        NumberedSnoc(ms, lines, old(state.nextId), m, index);
        messages, ms := messages + [m], ms + [m];
        index := index + 1;
      }
      assert lines[..index] == lines;
      return Ok(messages), ms;
    }

    /**
     One round: read, append, then save the checkpoint; the messages are to be pushed afterwards.
     `lines` are what the reader has returned. They get numbered records in their order, and the
     checkpoint on disk never moves, to the reader's offset, before all of them are records on disk.
     */
    method Round(reader: FileTailReader.FileTailReader)
      returns (r: Result<seq<LogMessage>, Failure>, ghost lines: seq<Bytes>, ghost ms: seq<LogMessage>)
      requires Valid() && !wal.state.torn && state.Memory() == state.stored
      requires reader.Valid() && reader.fs.Valid() && (reader.file.Some? ==> reader.file.value in reader.fs.contents)
      requires forall f | f in reader.fs.contents :: |reader.fs.contents[f]| <= MAX_UINT64
      modifies wal`pending, wal`state, wal.disk, state, reader
      ensures Valid() && reader.Valid()
      ensures r.Ok? || !r.error.ReaderFailed? ==>
                FileTailReader.Polled(old(reader.Abs()), reader.Abs(), reader.fs.current, reader.fs.contents,
                                      reader.fs.cutting, lines)
      ensures r.Err? && r.error.ReaderFailed? ==>
                && FileTailReader.PollFailed(old(reader.Abs()), reader.Abs(), reader.fs.current, reader.fs.contents)
                && lines == [] && wal.state == old(wal.state) && state.Abs() == old(state.Abs())
      ensures wal.pending == old(wal.pending) + ms && AllValid(ms) && |ms| <= |lines|
      ensures Numbered(ms, lines[..|ms|], old(state.nextId), old(state.clientId), source)
      ensures old(wal.state.records) + ms <= wal.state.records
      ensures CheckpointOf(state.stored) != old(CheckpointOf(state.stored)) ==>
                && |ms| == |lines|
                && CheckpointOf(state.stored) == PlaceOf(reader.Abs())
      ensures r.Ok? ==>
                && r.value == ms && |ms| == |lines| && state.stored == state.Memory()
                && wal.state == WalState(old(wal.state.records) + ms, false, wal.pending)
                && old(state.nextId) + |ms| <= MAX_UINT64 && CheckpointOf(state.stored) == PlaceOf(reader.Abs())
                && state.Memory() == old(state.Memory()).(nextId := old(state.nextId) + |ms|,
                     fileOffset := state.fileOffset, fileDeviceId := state.fileDeviceId, fileInode := state.fileInode)
      ensures r.Err? && !r.error.ReaderFailed? ==>
                if |ms| < |lines| then
                  CutShort(old(wal.state), old(state.Memory()), lines[|ms|], source, ms, wal.state, state.Abs(),
                           r.error)
                else
                  NotSaved(old(wal.state), old(state.Memory()), ms, wal.state, state.Abs(), PlaceOf(reader.Abs()),
                           r.error)
      ensures old(Recordable(lines, state.Memory(), source)) && !wal.disk.faulty ==> r.Ok? || r.error.ReaderFailed?
      // Whenever the process is killed, no line is skipped and no id can come again.
      ensures old(wal.disk.trail) <= wal.disk.trail
      ensures forall i | |old(wal.disk.trail)| <= i < |wal.disk.trail| ::
                SafeCut(wal.disk.trail[i], wal.path, state.path, old(wal.state.records), old(state.stored), lines,
                        PlaceOf(reader.Abs()))
    {
      hide SafeCut, ClientState.CutCheckpoint, Recordable, CutShort, NotSaved, AppendStep;
      hide ClientState.Parse, ClientState.Render, ClientState.Printable, Stores, ValidMessage, SameExcept;
      hide Numbered, FileTailReader.Polled, FileTailReader.PollFailed;
      lines, ms := [], [];
      Nothing(old(state.nextId), old(state.clientId), source);
      var read := reader.ReadNewLines();
      if read.Err? {
        return Err(ReaderFailed(read.error)), lines, ms;
      }
      lines := read.value;
      OffsetIsInFile(old(reader.Abs()), reader.Abs(), reader.fs.current, reader.fs.contents, reader.fs.cutting, lines);
      r, ms := AppendLines(read.value);
      ghost var files, mark, s := wal.disk.files, |wal.disk.trail|, state.Abs();
      ghost var checkpoint := PlaceOf(reader.Abs());
      AllSafeBefore(wal.disk.trail, |old(wal.disk.trail)|, wal.path, state.path, old(wal.state.records),
                    old(state.stored), lines, checkpoint);
      if r.Err? {
        return;
      }
      var saved := state.UpdateFileCheckpoint(reader.CommittedOffset(), reader.identity.device, reader.identity.inode);
      Untouched(wal.disk.files, files, {state.path, TemporaryFor(state.path)}, wal.path);
      forall i | mark <= i < |wal.disk.trail|
        ensures SafeCut(wal.disk.trail[i], wal.path, state.path, old(wal.state.records), old(state.stored), lines,
                        checkpoint)
      {
        SavingIsSafe(wal.disk.trail[i], files, wal.path, state.path, old(wal.state.records), old(state.stored), lines,
                     ms, s, checkpoint, checkpoint.0, source);
      }
      if saved.Err? {
        SavingFails(old(wal.state), old(state.Memory()), ms, wal.state, s, state.Abs(), checkpoint, saved.error);
        return Err(StateFailed(saved.error)), lines, ms;
      }
    }
  }

  lemma OffsetIsInFile(r: FileTailReader.Reader, r': FileTailReader.Reader, current: Option<FileTailReader.FileId>,
                       contents: map<FileTailReader.FileId, Bytes>, cutting: bool, lines: seq<Bytes>)
    requires FileTailReader.Polled(r, r', current, contents, cutting, lines)
    ensures r'.identity in contents && r'.progress.offset <= |contents[r'.identity]|
  {
  }

  // Where a reader's checkpoint would be.
  function PlaceOf(r: FileTailReader.Reader): (int, FileTailReader.FileId) {
    (r.progress.Committed(), r.identity)
  }

  function CheckpointOf(f: ClientState.Fields): (int, FileTailReader.FileId) {
    (f.fileOffset, FileTailReader.FileId(f.fileDeviceId, f.fileInode))
  }

  lemma Nothing(first: nat, clientId: Bytes, source: Bytes)
    ensures Numbered([], [][..0], first, clientId, source)
  {
  }
}
