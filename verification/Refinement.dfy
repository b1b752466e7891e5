/** What the classes do is what the machines of the protocol allow: each call is a run of its machine. */
module Refinement {
  import opened Words
  import opened Lines
  import opened Protocol
  import opened Transport
  import opened WriteAheadLog
  import B = BoundedBlockingQueue
  import C = ClientProcess
  import Client
  import ClientState
  import DedupStore
  import FileTailReader
  import P = Producer
  import Persistence
  import Q = QueueMonitor
  import S = ServerProcess
  import Server
  import WalHistory

  // ---------- The server ----------

  ghost predicate Mirrors(server: Server.Server, s: S.State)
    reads server, server.store
  {
    && s.store == server.store.Abs()
    && s.processed == server.output && s.exposed == server.exposed
  }

  // Some run from `s` ends in a crash with just this printed and this on disk.
  ghost predicate CanCrashWith(s: S.State, files: Persistence.Files, path: Persistence.Path, printed: seq<LogMessage>) {
    exists ss: seq<S.State>, es: seq<S.Event> ::
      && S.Path(s, ss, es) && !ss[|es|].up && ss[|es|].processed == printed
      && DedupStore.Keeps(files, path, ss[|es|].store.stored)
  }

  lemma CutIsCrash(s: S.State, batch: seq<LogMessage>, files: Persistence.Files, path: Persistence.Path)
    requires s.up && s.phase.Waiting? && Acceptable(batch)
    requires var previous := DedupStore.Highest(s.store.memory, batch[0].clientId);
      DedupStore.CutConfirm(files, path, s.store, batch[0].clientId, Server.LastOf(Above(batch, previous), previous))
    ensures batch != []
    ensures CanCrashWith(s, files, path,
                         s.processed + Above(batch, DedupStore.Highest(s.store.memory, batch[0].clientId)))
  {
    S.HasClientId(batch);
    hide DedupStore.ConfirmStep, DedupStore.Highest, Above, Acceptable, S.Path, DedupStore.Keeps;
    var c, previous := batch[0].clientId, DedupStore.Highest(s.store.memory, batch[0].clientId);
    var id := Server.LastOf(Above(batch, previous), previous);
    var store :| DedupStore.ConfirmStep(s.store, c, id, store, false) && DedupStore.Keeps(files, path, store.stored);
    var ss, es := S.CutHandlingIsRun(s, batch, store);
  }

  /** Handling a batch is receiving it, going through its messages, and confirming the watermark. */
  method Handle(server: Server.Server, batch: seq<LogMessage>, ghost s: S.State)
    returns (r: Result<uint64, DedupStore.DedupError>, ghost ss: seq<S.State>, ghost es: seq<S.Event>)
    requires server.Valid() && Acceptable(batch) && Mirrors(server, s) && s.up && s.phase.Waiting?
    modifies server, server.store, server.store.disk
    ensures server.Valid() && S.Path(s, ss, es) && Mirrors(server, ss[|es|])
    ensures forall i | 0 <= i < |es| :: es[i] in {S.Receive(batch), S.Process, S.Confirm(r.Ok?)}
    ensures ss[|es|].phase == if r.Ok? then S.Acking(batch) else S.Waiting
    ensures r.Ok? ==> batch != [] && r.value == batch[|batch| - 1].id
    // Being killed at any state of the disk in the middle of the call is a run as well, and prints as much.
    ensures old(server.store.disk.trail) <= server.store.disk.trail
    ensures forall i | |old(server.store.disk.trail)| <= i < |server.store.disk.trail| ::
              CanCrashWith(s, server.store.disk.trail[i], server.store.path,
                           Server.PrintedBy(server.output, server.printedAt, i))
  {
    S.HasClientId(batch);
    hide CanCrashWith, DedupStore.CutConfirm, Server.PrintedBy, Server.SkipsOnlyPrinted, DedupStore.Keeps;
    hide DedupStore.ConfirmStep, DedupStore.Highest, Above, Server.Keys, Acceptable, S.Path, Server.Bounded;
    hide DedupStore.Holds;
    r := server.HandleBatch(batch);
    forall i | |old(server.store.disk.trail)| <= i < |server.store.disk.trail|
      ensures CanCrashWith(s, server.store.disk.trail[i], server.store.path, server.output)
    {
      CutIsCrash(s, batch, server.store.disk.trail[i], server.store.path);
    }
    ss, es := S.HandlingIsRun(s, batch, server.store.Abs(), r.Ok?);
  }

  // ---------- The queue ----------

  ghost predicate Same<T>(q: B.BoundedBlockingQueue<T>, m: Q.Monitor<T>)
    reads q
  {
    m.queue == q.queue && m.closed == q.closed && m.capacity == q.capacity
  }

  method Push<T>(q: B.BoundedBlockingQueue<T>, value: T, ghost m: Q.Monitor<T>, ghost t: nat) returns (pushed: bool)
    requires q.Valid() && q.MayPush() && t < |m.threads| && Same(q, m)
    modifies q`queue
    ensures q.Valid() && Same(q, Q.PushSection(m, t, value))
    ensures Q.PushSection(m, t, value).threads[t] == if pushed then Q.PushNotify else Q.Idle
  {
    pushed := q.PushLocked(value);
  }

  method Pop<T>(q: B.BoundedBlockingQueue<T>, ghost m: Q.Monitor<T>, ghost t: nat) returns (r: Option<T>)
    requires q.Valid() && q.MayPop() && t < |m.threads| && Same(q, m)
    modifies q`queue
    ensures q.Valid() && Same(q, Q.PopSection(m, t))
    ensures Q.PopSection(m, t).threads[t] == if r.Some? then Q.PopNotify(r.value) else Q.Idle
  {
    ghost var before := q.queue;
    r := q.PopLocked();
    if r.Some? {
      assert before[0] == r.value && before[1..] == q.queue;
    }
  }

  method Collect<T>(q: B.BoundedBlockingQueue<T>, held: seq<T>, maxItems: nat, timedOut: bool,
                    ghost m: Q.Monitor<T>, ghost t: nat)
    returns (batch: seq<T>, mustWait: bool)
    requires q.Valid() && |held| < maxItems && t < |m.threads| && Same(q, m)
    modifies q`queue
    ensures q.Valid()
    ensures var m' := Q.BatchSection(m, t, maxItems, held, timedOut);
      && Same(q, m')
      && m'.threads[t] == if mustWait then Q.Waiting(Q.PopBatch(maxItems, batch), Q.Sleeping)
                          else if batch == [] then Q.Idle
                          else Q.BatchNotify(maxItems, batch)
  {
    batch, mustWait := q.CollectLocked(held, maxItems, timedOut);
    if m.queue == [] {
      assert held + m.queue[..0] == held;
    }
  }

  method Close<T>(q: B.BoundedBlockingQueue<T>, ghost m: Q.Monitor<T>, ghost t: nat, ghost m': Q.Monitor<T>)
    returns (first: bool)
    requires t < |m.threads| && Same(q, m) && Q.Step(m, t, Q.Close, m')
    modifies q`closed
    ensures Same(q, m') && |m'.threads| == |m.threads|
    ensures m'.threads[t] == if first then Q.CloseNotifyEmpty else Q.Idle
  {
    first := q.CloseLocked();
  }

  // ---------- A round of the producer ----------

  // The state in which the first `k` lines of a round have been appended.
  function AtLine(s: C.State, lines: seq<Bytes>, ms: seq<LogMessage>, k: nat): C.State
    requires k <= |ms| <= |lines| && s.ids.memory.nextId + k <= MAX_UINT64
  {
    var w, f := s.log.w, s.ids.memory.(nextId := s.ids.memory.nextId + k);
    s.(log := s.log.(w := w.(records := w.records + ms[..k], pending := w.pending + ms[..k]),
                     known := s.log.known + ms[..k]),
       ids := ClientState.Ids(f, f), cover := s.cover + ms[..k],
       pipe := s.pipe.(producer := C.Appending(lines[k..]), backlog := s.pipe.backlog + ms[..k]))
  }

  ghost predicate Path(u: C.Setup, s: C.State, ss: seq<C.State>, es: seq<C.Event>) {
    && |ss| == |es| + 1 && ss[0] == s
    && forall i | 0 <= i < |es| :: C.Step(u, ss[i], es[i], ss[i + 1])
  }

  lemma PathGrows(u: C.Setup, s: C.State, ss: seq<C.State>, es: seq<C.Event>, e: C.Event, s': C.State)
    requires Path(u, s, ss, es) && C.Step(u, ss[|es|], e, s')
    ensures Path(u, s, ss + [s'], es + [e])
  {
    hide C.Step;
    var ss', es' := ss + [s'], es + [e];
    forall i | 0 <= i < |es'| ensures C.Step(u, ss'[i], es'[i], ss'[i + 1]) {
      assert i < |es| ==> ss'[i] == ss[i] && ss'[i + 1] == ss[i + 1] && es'[i] == es[i];
    }
  }

  // The line's id is reserved, then its message appended.
  lemma LineStep(u: C.Setup, s: C.State, lines: seq<Bytes>, ms: seq<LogMessage>, k: nat)
    returns (reserved: C.State, id: uint64)
    requires s.up && !s.log.stopped && s.ids.memory == s.ids.stored
    requires k < |ms| <= |lines| && s.ids.memory.nextId + |ms| <= MAX_UINT64
    requires ValidMessage(ms[k]) && ms[k].content == lines[k] && ms[k].id == s.ids.memory.nextId + k
    requires ms[k].clientId == s.ids.memory.clientId && ms[k].source == u.source
    ensures C.Step(u, AtLine(s, lines, ms, k), C.Allocate(id, true), reserved)
    ensures C.Step(u, reserved, C.Append(ms[k], true), AtLine(s, lines, ms, k + 1))
  {
    hide ValidMessage;
    id := s.ids.memory.nextId + k;
    var f := s.ids.memory.(nextId := id + 1);
    var at := AtLine(s, lines, ms, k);
    reserved := at.(ids := ClientState.Ids(f, f), pipe := at.pipe.(producer := C.Allocated(lines[k..], id)));
    assert ms[..k + 1] == ms[..k] + [ms[k]];
    assert lines[k..][1..] == lines[k + 1..] && lines[k..][0] == lines[k];
    Assoc(s.log.w.records, ms[..k], ms[k]);
    Assoc(s.log.w.pending, ms[..k], ms[k]);
    Assoc(s.log.known, ms[..k], ms[k]);
    Assoc(s.cover, ms[..k], ms[k]);
    Assoc(s.pipe.backlog, ms[..k], ms[k]);
    assert C.ProducerStep(u, at, C.Allocate(id, true), reserved);
    assert C.ProducerStep(u, reserved, C.Append(ms[k], true), AtLine(s, lines, ms, k + 1));
  }

  lemma Assoc(a: seq<LogMessage>, b: seq<LogMessage>, m: LogMessage)
    ensures a + b + [m] == a + (b + [m])
  {
  }

  lemma {:induction false} LinesAreRun(u: C.Setup, s: C.State, lines: seq<Bytes>, ms: seq<LogMessage>, k: nat)
    returns (ss: seq<C.State>, es: seq<C.Event>)
    requires s.up && !s.log.stopped && s.ids.memory == s.ids.stored && s.pipe.producer == C.Appending(lines)
    requires k <= |ms| <= |lines| && s.ids.memory.nextId + |ms| <= MAX_UINT64 && AllValid(ms)
    requires P.Numbered(ms, lines[..|ms|], s.ids.memory.nextId, s.ids.memory.clientId, u.source)
    ensures Path(u, s, ss, es) && ss[|es|] == AtLine(s, lines, ms, k)
  {
    if k == 0 {
      assert lines[0..] == lines && ms[..0] == [];
      Nothing(s, lines, ms);
      ss, es := [s], [];
    } else {
      ss, es := LinesAreRun(u, s, lines, ms, k - 1);
      assert ValidMessage(ms[k - 1]);
      var reserved, id := LineStep(u, s, lines, ms, k - 1);
      hide C.Step, AtLine, ValidMessage;
      PathGrows(u, s, ss, es, C.Allocate(id, true), reserved);
      ss, es := ss + [reserved], es + [C.Allocate(id, true)];
      PathGrows(u, s, ss, es, C.Append(ms[k - 1], true), AtLine(s, lines, ms, k));
      ss, es := ss + [AtLine(s, lines, ms, k)], es + [C.Append(ms[k - 1], true)];
    }
  }

  lemma Nothing(s: C.State, lines: seq<Bytes>, ms: seq<LogMessage>)
    requires |ms| <= |lines| && s.ids.memory == s.ids.stored && s.pipe.producer == C.Appending(lines)
    ensures AtLine(s, lines, ms, 0) == s
  {
    assert lines[0..] == lines && ms[..0] == [];
    assert s.log.w.records + [] == s.log.w.records && s.log.w.pending + [] == s.log.w.pending;
    assert s.log.known + [] == s.log.known && s.cover + [] == s.cover && s.pipe.backlog + [] == s.pipe.backlog;
  }

  // The round after its checkpoint has been saved.
  function AfterRound(u: C.Setup, s: C.State, end: nat, lines: seq<Bytes>, ms: seq<LogMessage>): C.State
    requires |lines| == |ms| && s.ids.memory.nextId + |ms| <= MAX_UINT64
    requires s.tail.progress.offset <= end <= |s.tail.content| <= MAX_UINT64
    requires 0 <= s.tail.progress.AdvancedTo(s.tail.content, end).Committed()
  {
    var progress := s.tail.progress.AdvancedTo(s.tail.content, end);
    var read := s.(tail := s.tail.(progress := progress, emitted := s.tail.emitted + lines),
                   pipe := s.pipe.(producer := C.Appending(lines)));
    var logged := AtLine(read, lines, ms, |ms|);
    var f := logged.ids.memory.(fileOffset := progress.Committed(),
                                fileDeviceId := u.file.device, fileInode := u.file.inode);
    logged.(ids := ClientState.Ids(f, f), durableCover := logged.cover, pipe := logged.pipe.(producer := C.Pushing))
  }

  lemma SaveStep(u: C.Setup, s: C.State, s': C.State)
    requires s.up && s.pipe.producer == C.Appending([]) && 0 <= s.tail.progress.Committed() <= MAX_UINT64
    requires s.ids.memory == s.ids.stored
    requires var f := s.ids.memory.(fileOffset := s.tail.progress.Committed(),
                                    fileDeviceId := u.file.device, fileInode := u.file.inode);
      s' == s.(ids := ClientState.Ids(f, f), durableCover := s.cover, pipe := s.pipe.(producer := C.Pushing))
    ensures C.Step(u, s, C.Checkpoint(true), s')
  {
    assert C.ProducerStep(u, s, C.Checkpoint(true), s');
  }

  // The round after its read.
  function AfterRead(s: C.State, end: nat, lines: seq<Bytes>): C.State
    requires s.tail.progress.offset <= end <= |s.tail.content|
  {
    s.(tail := s.tail.(progress := s.tail.progress.AdvancedTo(s.tail.content, end),
                       emitted := s.tail.emitted + lines),
       pipe := s.pipe.(producer := C.Appending(lines)))
  }

  // A poll, then an id and a record for each of some first lines.
  lemma RecordsAreRun(u: C.Setup, s: C.State, end: nat, lines: seq<Bytes>, ms: seq<LogMessage>)
    returns (ss: seq<C.State>, es: seq<C.Event>)
    requires s.up && s.pipe.running && s.pipe.producer.Polling? && !s.log.stopped && s.ids.memory == s.ids.stored
    requires s.tail.progress.offset <= end <= |s.tail.content|
    requires lines == s.tail.progress.LinesTo(s.tail.content, end)
    requires |ms| <= |lines| && s.ids.memory.nextId + |ms| <= MAX_UINT64 && AllValid(ms)
    requires P.Numbered(ms, lines[..|ms|], s.ids.memory.nextId, s.ids.memory.clientId, u.source)
    ensures Path(u, s, ss, es) && ss[|es|] == AtLine(AfterRead(s, end, lines), lines, ms, |ms|)
  {
    var read := AfterRead(s, end, lines);
    assert C.Step(u, s, C.Poll(end), read) by {
      hide CompleteLines, Remainder;
      assert C.ProducerStep(u, s, C.Poll(end), read);
    }
    hide P.Numbered, AllValid, C.Step, CompleteLines, Remainder;
    var more, events := LinesAreRun(u, read, lines, ms, |ms|);
    Prepend(u, s, C.Poll(end), read, more, events);
    ss, es := [s] + more, [C.Poll(end)] + events;
  }

  /** A successful round is a poll, an id and a record for every line, and the checkpoint, in this order. */
  lemma RoundIsRun(u: C.Setup, s: C.State, end: nat, lines: seq<Bytes>, ms: seq<LogMessage>)
    returns (ss: seq<C.State>, es: seq<C.Event>)
    requires s.up && s.pipe.running && s.pipe.producer.Polling? && !s.log.stopped && s.ids.memory == s.ids.stored
    requires s.tail.progress.offset <= end <= |s.tail.content| <= MAX_UINT64
    requires lines == s.tail.progress.LinesTo(s.tail.content, end)
    requires |lines| == |ms| && s.ids.memory.nextId + |ms| <= MAX_UINT64 && AllValid(ms)
    requires P.Numbered(ms, lines[..|ms|], s.ids.memory.nextId, s.ids.memory.clientId, u.source)
    requires 0 <= s.tail.progress.AdvancedTo(s.tail.content, end).Committed()
    ensures Path(u, s, ss, es) && ss[|es|] == AfterRound(u, s, end, lines, ms)
  {
    hide P.Numbered, AllValid, C.Step, CompleteLines, Remainder;
    ss, es := RecordsAreRun(u, s, end, lines, ms);
    var read := AfterRead(s, end, lines);
    LogsAll(read, lines, ms);
    SaveStep(u, AtLine(read, lines, ms, |ms|), AfterRound(u, s, end, lines, ms));
    hide Path;
    PathGrows(u, s, ss, es, C.Checkpoint(true), AfterRound(u, s, end, lines, ms));
    PathLength(u, s, ss, es);
    ss, es := ss + [AfterRound(u, s, end, lines, ms)], es + [C.Checkpoint(true)];
  }

  // The producer has failed, with this in the log and on disk.
  ghost predicate FailedWith(s: C.State, w: WalState, ids: ClientState.Ids, tail: FileTailReader.Tail) {
    s.pipe.producer.ProducerStopped? && !s.pipe.running && s.log.w == w && s.ids == ids && s.tail == tail
  }

  // The step with which the lines after the first |ms| are given up.
  lemma CutStep(u: C.Setup, s: C.State, lines: seq<Bytes>, ms: seq<LogMessage>, w: WalState, ids: ClientState.Ids,
                error: P.Failure)
    returns (ss: seq<C.State>, es: seq<C.Event>)
    requires s.up && !s.log.stopped && s.ids.memory == s.ids.stored && |ms| < |lines|
    requires P.CutShort(s.log.w, s.ids.memory, lines[|ms|], u.source, ms, w, ids, error)
    ensures s.ids.memory.nextId + |ms| <= MAX_UINT64
    ensures Path(u, AtLine(s, lines, ms, |ms|), ss, es) && FailedWith(ss[|es|], w, ids, s.tail)
  {
    hide AppendStep;
    var at := AtLine(s, lines, ms, |ms|);
    assert ms[..|ms|] == ms && lines[|ms|..][0] == lines[|ms|];
    if error.StateFailed? {
      var s' := at.(ids := ids, pipe := at.pipe.Failed());
      assert C.ProducerStep(u, at, C.Allocate(0, false), s');
      ss, es := [at, s'], [C.Allocate(0, false)];
    } else {
      var id := s.ids.memory.nextId + |ms|;
      var reserved := at.(ids := ids, pipe := at.pipe.(producer := C.Allocated(lines[|ms|..], id)));
      var m: LogMessage :|
        && m.id == id && m.clientId == s.ids.memory.clientId && m.source == u.source && m.content == lines[|ms|]
        && AppendStep(P.Recorded(s.log.w, ms), m, w, false);
      var s' := reserved.(log := at.log.(w := w, stopped := true), pipe := reserved.pipe.Failed());
      assert C.ProducerStep(u, at, C.Allocate(id, true), reserved);
      assert C.ProducerStep(u, reserved, C.Append(m, false), s');
      ss, es := [at, reserved, s'], [C.Allocate(id, true), C.Append(m, false)];
    }
  }

  /** A round that fails before all lines are recorded is a run that stops the producer at the line it failed at. */
  lemma CutRoundIsRun(u: C.Setup, s: C.State, end: nat, lines: seq<Bytes>, ms: seq<LogMessage>,
                      w: WalState, ids: ClientState.Ids, error: P.Failure)
    returns (ss: seq<C.State>, es: seq<C.Event>)
    requires s.up && s.pipe.running && s.pipe.producer.Polling? && !s.log.stopped && s.ids.memory == s.ids.stored
    requires s.tail.progress.offset <= end <= |s.tail.content|
    requires lines == s.tail.progress.LinesTo(s.tail.content, end) && |ms| < |lines| && AllValid(ms)
    requires P.Numbered(ms, lines[..|ms|], s.ids.memory.nextId, s.ids.memory.clientId, u.source)
    requires P.CutShort(s.log.w, s.ids.memory, lines[|ms|], u.source, ms, w, ids, error)
    ensures Path(u, s, ss, es) && FailedWith(ss[|es|], w, ids, AfterRead(s, end, lines).tail)
  {
    hide P.Numbered, AllValid, C.Step, CompleteLines, Remainder, P.CutShort;
    var read := AfterRead(s, end, lines);
    var more, events := CutStep(u, read, lines, ms, w, ids, error);
    hide AtLine, FailedWith, AfterRead;
    ss, es := RecordsAreRun(u, s, end, lines, ms);
    PathsJoin(u, s, ss, es, more, events);
    ss, es := ss + more[1..], es + events;
  }

  /** A round whose checkpoint cannot be saved is a run that stops the producer with all lines recorded. */
  lemma UnsavedRoundIsRun(u: C.Setup, s: C.State, end: nat, lines: seq<Bytes>, ms: seq<LogMessage>,
                          w: WalState, ids: ClientState.Ids, error: P.Failure)
    returns (ss: seq<C.State>, es: seq<C.Event>)
    requires s.up && s.pipe.running && s.pipe.producer.Polling? && !s.log.stopped && s.ids.memory == s.ids.stored
    requires s.tail.progress.offset <= end <= |s.tail.content|
    requires lines == s.tail.progress.LinesTo(s.tail.content, end) && |ms| == |lines| && AllValid(ms)
    requires P.Numbered(ms, lines[..|ms|], s.ids.memory.nextId, s.ids.memory.clientId, u.source)
    requires P.NotSaved(s.log.w, s.ids.memory, ms, w, ids,
                        (s.tail.progress.AdvancedTo(s.tail.content, end).Committed(), u.file), error)
    ensures Path(u, s, ss, es) && FailedWith(ss[|es|], w, ids, AfterRead(s, end, lines).tail)
  {
    hide P.Numbered, AllValid, CompleteLines, Remainder;
    var at := AtLine(AfterRead(s, end, lines), lines, ms, |ms|);
    assert ms[..|ms|] == ms;
    LogsAll(AfterRead(s, end, lines), lines, ms);
    var s' := at.(ids := ids, pipe := at.pipe.Failed(),
                  durableCover := if ids.stored != at.ids.stored then at.cover else at.durableCover);
    assert C.ProducerStep(u, at, C.Checkpoint(false), s');
    assert FailedWith(s', w, ids, AfterRead(s, end, lines).tail);
    assert C.Step(u, at, C.Checkpoint(false), s');
    hide AtLine, FailedWith, AfterRead, C.Step, C.ProducerStep, ClientState.CheckpointStep;
    ss, es := RecordsAreRun(u, s, end, lines, ms);
    PathGrows(u, s, ss, es, C.Checkpoint(false), s');
    ss, es := ss + [s'], es + [C.Checkpoint(false)];
  }

  lemma FailedPollIsRun(u: C.Setup, s: C.State) returns (ss: seq<C.State>, es: seq<C.Event>)
    requires s.up && s.pipe.producer.Polling?
    ensures Path(u, s, ss, es) && FailedWith(ss[|es|], s.log.w, s.ids, s.tail)
  {
    var s' := s.(pipe := s.pipe.Failed());
    assert C.ProducerStep(u, s, C.PollFails, s');
    ss, es := [s, s'], [C.PollFails];
  }

  lemma PathsJoin(u: C.Setup, s: C.State, ss: seq<C.State>, es: seq<C.Event>, more: seq<C.State>, events: seq<C.Event>)
    requires Path(u, s, ss, es) && Path(u, ss[|es|], more, events)
    ensures Path(u, s, ss + more[1..], es + events) && (ss + more[1..])[|es + events|] == more[|events|]
  {
    hide C.Step;
    var ss', es' := ss + more[1..], es + events;
    forall i | 0 <= i < |es'| ensures C.Step(u, ss'[i], es'[i], ss'[i + 1]) {
      if i < |es| {
        assert ss'[i] == ss[i] && ss'[i + 1] == ss[i + 1] && es'[i] == es[i];
      } else {
        var j := i - |es|;
        assert es'[i] == events[j] && ss'[i] == more[j] && ss'[i + 1] == more[j + 1];
      }
    }
  }

  lemma LogsAll(s: C.State, lines: seq<Bytes>, ms: seq<LogMessage>)
    requires |lines| == |ms| && s.ids.memory.nextId + |ms| <= MAX_UINT64
    ensures AtLine(s, lines, ms, |ms|).pipe.producer == C.Appending([])
  {
  }

  lemma PathLength(u: C.Setup, s: C.State, ss: seq<C.State>, es: seq<C.Event>)
    requires Path(u, s, ss, es)
    ensures |ss| == |es| + 1
  {
  }

  lemma Prepend(u: C.Setup, s: C.State, e: C.Event, s1: C.State, ss: seq<C.State>, es: seq<C.Event>)
    requires C.Step(u, s, e, s1) && Path(u, s1, ss, es)
    ensures Path(u, s, [s] + ss, [e] + es) && ([s] + ss)[|[e] + es|] == ss[|es|]
  {
    hide C.Step;
    var ss', es' := [s] + ss, [e] + es;
    forall i | 0 <= i < |es'| ensures C.Step(u, ss'[i], es'[i], ss'[i + 1]) {
      assert i > 0 ==> ss'[i] == ss[i - 1] && ss'[i + 1] == ss[i] && es'[i] == es[i - 1];
    }
  }

  // The producer's log, state and reader are those of the machine, and the reader's file is the machine's.
  ghost predicate Follows(p: P.Producer, reader: FileTailReader.FileTailReader, u: C.Setup, s: C.State)
    reads p, p.wal, p.state, reader, reader.fs
  {
    && s.log.w == p.wal.state && s.ids == p.state.Abs() && u.source == p.source
    && s.tail.progress == reader.progress && u.file == reader.identity
    && reader.identity in reader.fs.contents && s.tail.content == reader.fs.contents[reader.identity]
  }

  // While the path names the file, a round reads on in it.
  lemma ReadsOn(r: FileTailReader.Reader, r': FileTailReader.Reader, current: Option<FileTailReader.FileId>,
                contents: map<FileTailReader.FileId, Bytes>, cutting: bool, lines: seq<Bytes>)
    requires FileTailReader.Polled(r, r', current, contents, cutting, lines)
    requires !r.switching && current == Some(r.identity) && r.identity in contents
    requires r.progress.offset <= |contents[r.identity]|
    ensures var content, end := contents[r.identity], r'.progress.offset;
      && r'.identity == r.identity && r.progress.offset <= end <= |content|
      && lines == r.progress.LinesTo(content, end) && r'.progress == r.progress.AdvancedTo(content, end)
  {
    hide CompleteLines, Remainder;
  }

  // What a successful round leaves, in terms of what it found.
  lemma AfterRoundIs(u: C.Setup, s: C.State, end: nat, lines: seq<Bytes>, ms: seq<LogMessage>)
    requires |lines| == |ms| && s.ids.memory.nextId + |ms| <= MAX_UINT64
    requires s.tail.progress.offset <= end <= |s.tail.content| <= MAX_UINT64
    requires 0 <= s.tail.progress.AdvancedTo(s.tail.content, end).Committed()
    ensures var s', w := AfterRound(u, s, end, lines, ms), s.log.w;
      var f := s.ids.memory.(nextId := s.ids.memory.nextId + |ms|, fileOffset := s'.tail.progress.Committed(),
                             fileDeviceId := u.file.device, fileInode := u.file.inode);
      && s'.tail.content == s.tail.content
      && s'.tail.progress == s.tail.progress.AdvancedTo(s.tail.content, end)
      && s'.log.w == w.(records := w.records + ms, pending := w.pending + ms)
      && s'.ids == ClientState.Ids(f, f)
      && s'.pipe.producer == C.Pushing && s'.pipe.backlog == s.pipe.backlog + ms
  {
    hide CompleteLines, Remainder;
    assert ms[..|ms|] == ms;
  }

  // ---------- One delivery ----------

  /** An attempt to deliver the front batch is sending it, and perhaps its ACK with the confirmation of its last id. */
  method Attempt(sender: Client.Sender, batch: seq<LogMessage>, ghost u: C.Setup, ghost s: C.State)
    returns (delivered: bool, ghost ss: seq<C.State>, ghost es: seq<C.Event>)
    requires sender.Valid() && s.log.w == sender.wal.state
    requires s.up && s.pipe.consumer.Sending? && s.pipe.inFlight != [] && batch == s.pipe.Batch()
    modifies sender, sender.Connection(), sender.wal`pending, sender.wal`state, sender.wal.disk
    ensures Path(u, s, ss, es) && ss[|es|].log.w == sender.wal.state
    ensures es == [C.Send(batch)] || es == [C.Send(batch), C.ReceiveAck(batch[|batch| - 1].id, delivered)]
    ensures delivered ==> |es| == 2 && sender.Acknowledged(batch)
    ensures ss[|es|].pipe.inFlight == if delivered then s.pipe.inFlight[s.pipe.Front()..] else s.pipe.inFlight
  {
    hide ConfirmStep, ValidBatch, Above, EncodeAck, Stores, Path, AllValid, Client.AsWhole;
    delivered := sender.Attempt(batch);
    ss, es := AttemptIsRun(u, s, batch, sender.wal.state, delivered);
  }

  lemma AttemptIsRun(u: C.Setup, s: C.State, batch: seq<LogMessage>, w: WalState, ok: bool)
    returns (ss: seq<C.State>, es: seq<C.Event>)
    requires s.up && s.pipe.consumer.Sending? && s.pipe.inFlight != [] && batch == s.pipe.Batch()
    requires (!ok && w == s.log.w) || ConfirmStep(s.log.w, batch[|batch| - 1].id, w, ok)
    ensures Path(u, s, ss, es) && ss[|es|].log.w == w
    ensures es == [C.Send(batch)] || es == [C.Send(batch), C.ReceiveAck(batch[|batch| - 1].id, ok)]
    ensures ok ==> |es| == 2
    ensures ss[|es|].pipe.inFlight == if ok then s.pipe.inFlight[s.pipe.Front()..] else s.pipe.inFlight
  {
    hide ConfirmStep, C.Step;
    SendStep(u, s, batch);
    if ok || w != s.log.w {
      var last := AckedStep(u, s, w, ok);
      ss, es := [s, s, last], [C.Send(batch), C.ReceiveAck(batch[|batch| - 1].id, ok)];
    } else {
      ss, es := [s, s], [C.Send(batch)];
    }
  }

  lemma SendStep(u: C.Setup, s: C.State, batch: seq<LogMessage>)
    requires s.up && s.pipe.consumer.Sending? && batch == s.pipe.Batch()
    ensures C.Step(u, s, C.Send(batch), s)
  {
    assert C.ConsumerStep(s, C.Send(batch), s);
  }

  lemma AckedStep(u: C.Setup, s: C.State, w: WalState, ok: bool) returns (s': C.State)
    requires s.up && s.pipe.consumer.Sending? && s.pipe.inFlight != []
    requires ConfirmStep(s.log.w, s.pipe.Batch()[s.pipe.Front() - 1].id, w, ok)
    ensures C.Step(u, s, C.ReceiveAck(s.pipe.Batch()[s.pipe.Front() - 1].id, ok), s') && s'.log.w == w
    ensures s'.pipe.inFlight == if ok then s.pipe.inFlight[s.pipe.Front()..] else s.pipe.inFlight
  {
    hide ConfirmStep;
    var id, left := s.pipe.Batch()[s.pipe.Front() - 1].id, s.pipe.inFlight[s.pipe.Front()..];
    var log := s.log.(w := w, confirmed := if s.log.confirmed < id then id else s.log.confirmed);
    s' := s.(log := log,
             pipe := if ok then s.pipe.(inFlight := left, acked := false,
                                        consumer := if left == [] then C.Collecting else C.Sending)
                     else s.pipe.(acked := true));
    assert C.AckStep(s, id, ok, s');
    assert C.ConsumerStep(s, C.ReceiveAck(id, ok), s');
  }

  // A failed round that has not read leaves the reader as it was.
  lemma ReadsNothing(r: FileTailReader.Reader, r': FileTailReader.Reader, current: Option<FileTailReader.FileId>,
                     contents: map<FileTailReader.FileId, Bytes>)
    requires FileTailReader.PollFailed(r, r', current, contents) && !r.switching
    requires r.identity in contents && r.progress.offset <= |contents[r.identity]|
    ensures r' == r
  {
  }

  /** Every round of the producer, successful or not, on a file that has grown only, is such a run. */
  method Round(p: P.Producer, reader: FileTailReader.FileTailReader, ghost u: C.Setup, ghost s: C.State)
    returns (r: Result<seq<LogMessage>, P.Failure>, ghost ss: seq<C.State>, ghost es: seq<C.Event>)
    requires p.Valid() && !p.wal.state.torn && p.state.Memory() == p.state.stored
    requires reader.Valid() && reader.fs.Valid() && (reader.file.Some? ==> reader.file.value in reader.fs.contents)
    requires forall f | f in reader.fs.contents :: |reader.fs.contents[f]| <= MAX_UINT64
    requires Follows(p, reader, u, s)
    requires s.up && s.pipe.running && s.pipe.producer.Polling? && !s.log.stopped
    requires !reader.switchOnNextRead && reader.fs.current == Some(reader.identity)
    requires reader.progress.offset <= |s.tail.content|
    modifies p.wal`pending, p.wal`state, p.wal.disk, p.state, reader
    ensures Path(u, s, ss, es) && Follows(p, reader, u, ss[|es|])
    ensures r.Ok? ==> ss[|es|].pipe.producer == C.Pushing && ss[|es|].pipe.backlog == s.pipe.backlog + r.value
    ensures r.Err? ==> ss[|es|].pipe.producer.ProducerStopped? && !ss[|es|].pipe.running
  {
    hide FileTailReader.PollFailed, FileTailReader.Polled, Stores, ValidMessage, P.Numbered, CompleteLines, Remainder;
    hide ClientState.Parse, ClientState.Printable, P.CutShort, P.NotSaved, P.SafeCut, P.Recordable;
    ghost var lines, ms;
    r, lines, ms := p.Round(reader);
    if r.Err? && r.error.ReaderFailed? {
      ReadsNothing(old(reader.Abs()), reader.Abs(), reader.fs.current, reader.fs.contents);
      ss, es := FailedPollIsRun(u, s);
    } else {
      ReadsOn(old(reader.Abs()), reader.Abs(), reader.fs.current, reader.fs.contents, reader.fs.cutting, lines);
      var end := reader.progress.offset;
      hide Path, AfterRound;
      if r.Ok? {
        assert P.CheckpointOf(p.state.stored) == P.PlaceOf(reader.Abs());
        assert p.state.fileOffset == reader.progress.Committed();
        assert reader.identity == FileTailReader.FileId(p.state.fileDeviceId, p.state.fileInode);
        ss, es := RoundIsRun(u, s, end, lines, ms);
        AfterRoundIs(u, s, end, lines, ms);
      } else if |ms| < |lines| {
        ss, es := CutRoundIsRun(u, s, end, lines, ms, p.wal.state, p.state.Abs(), r.error);
      } else {
        ss, es := UnsavedRoundIsRun(u, s, end, lines, ms, p.wal.state, p.state.Abs(), r.error);
      }
    }
  }
}
