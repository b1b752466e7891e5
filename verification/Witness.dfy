/** The machines can move: a whole run in which one line goes from the file to the server and leaves the log. */
module Witness {
  import opened Words
  import opened Lines
  import opened Protocol
  import opened WriteAheadLog
  import C = ClientProcess
  import ClientState
  import DedupStore
  import FileTailReader
  import S = ServerProcess
  import Sys = System
  import Text
  import WalHistory

  lemma Extends(u: C.Setup, cs: seq<C.State>, es: seq<C.Event>, e: C.Event, c: C.State)
    requires C.Run(u, cs, es) && C.Step(u, cs[|es|], e, c)
    ensures C.Run(u, cs + [c], es + [e])
  {
    hide C.Init, C.Step;
    var cs', es' := cs + [c], es + [e];
    forall i | 0 <= i < |es'| ensures C.Step(u, cs'[i], es'[i], cs'[i + 1]) {
      assert i < |es| ==> cs'[i] == cs[i] && cs'[i + 1] == cs[i + 1] && es'[i] == es[i];
    }
  }

  // A client as it is after its first start, and a line that it can log.
  ghost predicate Usable(u: C.Setup, line: Bytes) {
    && ClientState.GeneratedId(u.clientId) && u.source != []
    && NEWLINE !in line && CARRIAGE_RETURN !in line && |line| < MAX_UINT64 && ValidMessage(MessageOf(u, line))
  }

  function MessageOf(u: C.Setup, line: Bytes): LogMessage {
    LogMessage(1, u.clientId, 0, u.source, line)
  }

  function FirstFields(u: C.Setup): ClientState.Fields {
    ClientState.Fields(u.clientId, 1, u.source, 0, 0, 0)
  }

  function Empty(u: C.Setup): C.State {
    C.State(true, C.Started([]), WalHistory.History(WalState([], false, []), false, 0, []),
            ClientState.Ids(FirstFields(u), FirstFields(u)),
            FileTailReader.Tail([], FileTailReader.Progress(0, []), []), [], [], false)
  }

  // The line has been read.
  function Read(u: C.Setup, line: Bytes): C.State {
    var content := line + [NEWLINE];
    Empty(u).(tail := FileTailReader.Tail(content, FileTailReader.Progress(|content|, []), [line]),
              pipe := C.Started([]).(producer := C.Appending([line])))
  }

  lemma Reads(u: C.Setup, line: Bytes) returns (cs: seq<C.State>, es: seq<C.Event>)
    requires Usable(u, line)
    ensures C.Run(u, cs, es) && cs[|es|] == Read(u, line)
    ensures forall i | 0 <= i < |es| :: !es[i].Send? && !es[i].ReceiveAck?
  {
    var content := line + [NEWLINE];
    var s0 := Empty(u);
    var s1 := s0.(tail := FileTailReader.Tail(content, FileTailReader.Progress(0, []), []));
    assert [] + content == content;
    assert C.Step(u, s0, C.Grow(content), s1);
    OneLineFile(line);
    assert C.Step(u, s1, C.Poll(|content|), Read(u, line));
    cs, es := [s0, s1, Read(u, line)], [C.Grow(content), C.Poll(|content|)];
  }

  lemma OneLineFile(line: Bytes)
    requires NEWLINE !in line && CARRIAGE_RETURN !in line
    ensures var content := line + [NEWLINE];
      var p := FileTailReader.Progress(0, []);
      && p.LinesTo(content, |content|) == [line]
      && p.AdvancedTo(content, |content|) == FileTailReader.Progress(|content|, [])
  {
    var content := line + [NEWLINE];
    assert [] + content[0..|content|] == content;
    assert content[|line|] == NEWLINE;
    assert NewlineIndex(content) == |line|;
    FirstLine(content, |line|);
    assert content[..|line|] == line && content[|line| + 1..] == [];
    NoLine([]);
  }

  // The line has been appended.
  function Logged(u: C.Setup, line: Bytes): C.State {
    var m, ids := MessageOf(u, line), FirstFields(u).(nextId := 2);
    Read(u, line).(ids := ClientState.Ids(ids, ids), cover := [m],
                   log := WalHistory.History(WalState([m], false, [m]), false, 0, [m]),
                   pipe := C.Started([]).(producer := C.Appending([]), backlog := [m]))
  }

  lemma Appends(u: C.Setup, line: Bytes) returns (cs: seq<C.State>, es: seq<C.Event>)
    requires Usable(u, line)
    ensures C.Run(u, cs, es) && cs[|es|] == Logged(u, line)
    ensures forall i | 0 <= i < |es| :: !es[i].Send? && !es[i].ReceiveAck?
  {
    hide C.Run, ValidMessage;
    cs, es := Reads(u, line);
    var m, ids := MessageOf(u, line), FirstFields(u).(nextId := 2);
    RunLength(u, cs, es);
    var s := Read(u, line).(ids := ClientState.Ids(ids, ids),
                            pipe := C.Started([]).(producer := C.Allocated([line], 1)));
    Extends(u, cs, es, C.Allocate(1, true), s);
    cs, es := cs + [s], es + [C.Allocate(1, true)];
    assert [line][1..] == [];
    assert C.ProducerStep(u, s, C.Append(m, true), Logged(u, line));
    Extends(u, cs, es, C.Append(m, true), Logged(u, line));
    cs, es := cs + [Logged(u, line)], es + [C.Append(m, true)];
  }

  lemma RunLength(u: C.Setup, cs: seq<C.State>, es: seq<C.Event>)
    requires C.Run(u, cs, es)
    ensures |cs| == |es| + 1
  {
  }

  // The client has crashed and started again; it reads the line once more, under a new id.
  function Recovered(u: C.Setup, line: Bytes): C.State {
    var m := MessageOf(u, line);
    Logged(u, line).(pipe := C.Started([m]), cover := [], restarted := true,
                     tail := FileTailReader.Tail(line + [NEWLINE], FileTailReader.Progress(0, []), []))
  }

  lemma CrashAndStart(u: C.Setup, cs: seq<C.State>, es: seq<C.Event>, down: C.State, again: C.State)
    returns (cs': seq<C.State>, es': seq<C.Event>)
    requires C.Run(u, cs, es) && C.Step(u, cs[|es|], C.Crash, down) && C.Step(u, down, C.Start(true), again)
    requires forall i | 0 <= i < |es| :: !es[i].Send? && !es[i].ReceiveAck?
    ensures C.Run(u, cs', es') && cs'[|es'|] == again
    ensures forall i | 0 <= i < |es'| :: !es'[i].Send? && !es'[i].ReceiveAck?
  {
    hide C.Run, C.Step;
    RunLength(u, cs, es);
    Extends(u, cs, es, C.Crash, down);
    Extends(u, cs + [down], es + [C.Crash], C.Start(true), again);
    cs', es' := cs + [down] + [again], es + [C.Crash] + [C.Start(true)];
  }

  lemma Restarts(u: C.Setup, line: Bytes) returns (cs: seq<C.State>, es: seq<C.Event>)
    requires Usable(u, line)
    ensures C.Run(u, cs, es) && cs[|es|] == Recovered(u, line)
    ensures forall i | 0 <= i < |es| :: !es[i].Send? && !es[i].ReceiveAck?
  {
    UsableIsGenerated(u, line);
    hide *;
    StartsAgain(u, line);
    cs, es := Appends(u, line);
    cs, es := CrashAndStart(u, cs, es, Down(u, line), Recovered(u, line));
  }

  lemma SavedIsResumed(u: C.Setup)
    requires ClientState.GeneratedId(u.clientId)
    ensures var f := FirstFields(u).(nextId := 2);
      var saved := ClientState.Parse(ClientState.Render(f));
      && saved.Some? && saved.value.clientId == u.clientId
      && ClientState.Repaired(saved.value, u.source, 1) == f
  {
    ClientState.GeneratedIsPlain(u.clientId);
    ClientState.SavedIsLoaded(FirstFields(u).(nextId := 2));
    hide ClientState.GeneratedId, ClientState.Parse, ClientState.Render, ClientState.HeadLine;
  }

  lemma OneRecord(u: C.Setup, line: Bytes)
    ensures ClientState.MaxId([MessageOf(u, line)]) == 1
    ensures CompleteLines((line + [NEWLINE])[..0]) == []
  {
    var m := MessageOf(u, line);
    assert [m][..0] == [];
    NoLine((line + [NEWLINE])[..0]);
  }

  lemma UsableIsGenerated(u: C.Setup, line: Bytes)
    requires Usable(u, line)
    ensures ClientState.GeneratedId(u.clientId)
  {
  }

  // The client is down, with its line on disk.
  function Down(u: C.Setup, line: Bytes): C.State {
    Logged(u, line).(up := false, restarted := true)
  }

  function OneInLog(u: C.Setup, line: Bytes): WalHistory.History {
    WalHistory.History(WalState([MessageOf(u, line)], false, [MessageOf(u, line)]), false, 0, [MessageOf(u, line)])
  }

  lemma Parts(u: C.Setup, line: Bytes)
    ensures var s, f := Down(u, line), FirstFields(u).(nextId := 2);
      && !s.up && s.ids.stored == f && s.log == OneInLog(u, line)
      && s.tail.content == line + [NEWLINE] && s.durableCover == []
      && Recovered(u, line) ==
         C.State(true, C.Started([MessageOf(u, line)]), s.log, ClientState.Ids(f, f),
                 FileTailReader.Tail(s.tail.content, FileTailReader.Progress(0, []), []), [], [], true)
  {
  }

  lemma Reloads(u: C.Setup, line: Bytes)
    ensures WalHistory.Step(OneInLog(u, line), WalHistory.Reload, OneInLog(u, line))
  {
  }

  // A restart over one record, at the beginning of the file.
  lemma StartFromOf(u: C.Setup, s: C.State, saved: Option<ClientState.Fields>, f: ClientState.Fields, m: LogMessage)
    requires !s.up && s.log.w.records == [m] && s.durableCover == [] && s.ids.stored == f && f.fileOffset == 0
    requires saved.Some? && saved.value.clientId == m.clientId && ClientState.MaxId([m]) == 1
    requires ClientState.Repaired(saved.value, u.source, 1) == f
    requires CompleteLines(s.tail.content[..0]) == []
    requires WalHistory.Step(s.log, WalHistory.Reload, s.log)
    ensures C.StartFrom(u, s, saved, true, C.State(
              true, C.Started([m]), s.log, ClientState.Ids(f, f),
              FileTailReader.Tail(s.tail.content, FileTailReader.Progress(0, []), []), [], [], true))
  {
    hide ClientState.Repaired, ClientState.MaxId, CompleteLines, WalHistory.Step, C.Started;
  }

  lemma StartStepOf(u: C.Setup, line: Bytes)
    requires ClientState.GeneratedId(u.clientId)
    ensures C.StartStep(u, Down(u, line), true, Recovered(u, line))
  {
    var s, m, f := Down(u, line), MessageOf(u, line), FirstFields(u).(nextId := 2);
    assert s.log.w.records == [m] && m.clientId == u.clientId && f.fileOffset == 0;
    hide CompleteLines, Down, Recovered, MessageOf, WalHistory.Step, C.Started, FirstFields, C.StartFrom;
    hide ClientState.GeneratedId, ClientState.Parse, ClientState.Render, ClientState.Repaired, ClientState.MaxId;
    SavedIsResumed(u);
    OneRecord(u, line);
    Parts(u, line);
    Reloads(u, line);
    StartFromOf(u, s, ClientState.Parse(ClientState.Render(f)), f, m);
  }

  lemma StartsAgain(u: C.Setup, line: Bytes)
    requires ClientState.GeneratedId(u.clientId)
    ensures C.Step(u, Logged(u, line), C.Crash, Down(u, line))
    ensures C.Step(u, Down(u, line), C.Start(true), Recovered(u, line))
  {
    StartStepOf(u, line);
    CrashOf(u, Logged(u, line));
    StartOf(u, Down(u, line), Recovered(u, line));
    hide *;
  }

  lemma CrashOf(u: C.Setup, s: C.State)
    requires s.up
    ensures C.Step(u, s, C.Crash, s.(up := false, restarted := true))
  {
  }

  lemma StartOf(u: C.Setup, s: C.State, s': C.State)
    requires C.StartStep(u, s, true, s')
    ensures C.Step(u, s, C.Start(true), s')
  {
  }

  lemma InitAlone(u: C.Setup, c: C.State)
    requires C.Init(u, c)
    ensures Sys.Init(u, Sys.State(c, Idle(), {}, {}))
  {
  }

  // A run of the client alone is a run of the system in which the server has nothing to do.
  lemma Alone(u: C.Setup, cs: seq<C.State>, es: seq<C.Event>) returns (ss: seq<Sys.State>, ses: seq<Sys.Event>)
    requires C.Run(u, cs, es) && forall i | 0 <= i < |es| :: !es[i].Send? && !es[i].ReceiveAck?
    ensures Sys.Run(u, ss, ses) && ss[|ses|] == Sys.State(cs[|es|], Idle(), {}, {})
  {
    hide C.Init, C.Step;
    ss := seq(|cs|, i requires 0 <= i < |cs| => Sys.State(cs[i], Idle(), {}, {}));
    ses := seq(|es|, i requires 0 <= i < |es| => Sys.AtClient(es[i]));
    forall i | 0 <= i < |ses| ensures Sys.Step(u, ss[i], ses[i], ss[i + 1]) {
      assert C.Step(u, cs[i], es[i], cs[i + 1]);
    }
    InitAlone(u, cs[0]);
  }

  function Idle(): S.State {
    S.State(true, S.Waiting, DedupStore.Store(map[], map[]), [], multiset{})
  }

  lemma ExtendsSystem(u: C.Setup, ss: seq<Sys.State>, es: seq<Sys.Event>, e: Sys.Event, s: Sys.State)
    requires Sys.Run(u, ss, es) && Sys.Step(u, ss[|es|], e, s)
    ensures Sys.Run(u, ss + [s], es + [e])
  {
    hide Sys.Init, Sys.Step;
    var ss', es' := ss + [s], es + [e];
    forall i | 0 <= i < |es'| ensures Sys.Step(u, ss'[i], es'[i], ss'[i + 1]) {
      assert i < |es| ==> ss'[i] == ss[i] && ss'[i + 1] == ss[i + 1] && es'[i] == es[i];
    }
  }

  lemma SystemRunLength(u: C.Setup, ss: seq<Sys.State>, es: seq<Sys.Event>)
    requires Sys.Run(u, ss, es)
    ensures |ss| == |es| + 1
  {
  }

  // What the server makes of the batch [m], from receiving it to sending the ACK.
  function Answering(k: nat, m: LogMessage): S.State {
    var marks := map[m.clientId := m.id];
    if k == 0 then Idle()
    else if k == 1 then Idle().(phase := S.Processing([m], 0, 0))
    else if k == 2 then Idle().(phase := S.Processing([m], 1, 0), processed := [m])
    else if k == 3 then S.State(true, S.Acking([m]), DedupStore.Store(marks, marks), [m], multiset{})
    else S.State(true, S.Waiting, DedupStore.Store(marks, marks), [m], multiset{})
  }

  function AnswerEvent(k: nat, m: LogMessage): S.Event {
    if k == 0 then S.Receive([m])
    else if k == 1 then S.Process
    else if k == 2 then S.Confirm(true)
    else S.SendAck(m.id)
  }

  lemma AnswerStep(m: LogMessage, k: nat)
    requires ValidMessage(m) && k < 4
    ensures S.Step(Answering(k, m), AnswerEvent(k, m), Answering(k + 1, m))
  {
    if k == 2 {
      assert [m][..0] == [];
      assert Above([m], 0) == Above([m][..0], 0) + [m];
    }
  }

  // The system while the server answers, in its k-th state.
  function During(c: C.State, m: LogMessage, k: nat): Sys.State {
    Sys.State(c, Answering(k, m), {[m]}, if k < 4 then {} else {m.id})
  }

  lemma {:induction false} Answers(u: C.Setup, c: C.State, m: LogMessage, k: nat,
                                   ss: seq<Sys.State>, es: seq<Sys.Event>)
    returns (ss': seq<Sys.State>, es': seq<Sys.Event>)
    requires ValidMessage(m) && m.clientId == u.clientId && k <= 4
    requires Sys.Run(u, ss, es) && ss[|es|] == During(c, m, k)
    ensures Sys.Run(u, ss', es') && ss'[|es'|] == During(c, m, 4)
    decreases 4 - k
  {
    hide Sys.Run, S.Step;
    SystemRunLength(u, ss, es);
    if k == 4 {
      return ss, es;
    }
    AnswerStep(m, k);
    var e := Sys.AtServer(AnswerEvent(k, m));
    assert Sys.Step(u, During(c, m, k), e, During(c, m, k + 1));
    ExtendsSystem(u, ss, es, e, During(c, m, k + 1));
    ss', es' := Answers(u, c, m, k + 1, ss + [During(c, m, k + 1)], es + [e]);
  }

  function Confirmed(u: C.Setup, line: Bytes): C.State {
    var m := MessageOf(u, line);
    Recovered(u, line).(log := WalHistory.History(WalState([], false, []), false, 1, [m]),
                        pipe := C.Started([]))
  }

  lemma Acknowledged(u: C.Setup, line: Bytes)
    ensures C.Step(u, Recovered(u, line), C.ReceiveAck(1, true), Confirmed(u, line))
    ensures C.Step(u, Recovered(u, line), C.Send([MessageOf(u, line)]), Recovered(u, line))
  {
    var m := MessageOf(u, line);
    assert [m][..1] == [m] && [m][1..] == [] && [m][..0] == [];
  }

  /**
   A line that is appended just before a crash still arrives: the restarted client replays it from
   the log, the server processes and acknowledges it, and the log is empty again.
   */
  lemma LineSurvivesCrash(u: C.Setup, line: Bytes) returns (ss: seq<Sys.State>, es: seq<Sys.Event>)
    requires Usable(u, line)
    ensures Sys.Run(u, ss, es)
    ensures ss[|es|].server.processed == [MessageOf(u, line)]
    ensures ss[|es|].client.log.known == [MessageOf(u, line)] && ss[|es|].client.log.w.records == []
  {
    hide Sys.Run, C.Run, C.Step, ValidMessage;
    var m, c := MessageOf(u, line), Recovered(u, line);
    var cs, ces := Restarts(u, line);
    ss, es := Alone(u, cs, ces);
    SystemRunLength(u, ss, es);
    Acknowledged(u, line);
    ExtendsSystem(u, ss, es, Sys.AtClient(C.Send([m])), During(c, m, 0));
    ss, es := ss + [During(c, m, 0)], es + [Sys.AtClient(C.Send([m]))];
    ss, es := Answers(u, c, m, 0, ss, es);
    SystemRunLength(u, ss, es);
    var last := During(c, m, 4).(client := Confirmed(u, line));
    ExtendsSystem(u, ss, es, Sys.AtClient(C.ReceiveAck(1, true)), last);
    ss, es := ss + [last], es + [Sys.AtClient(C.ReceiveAck(1, true))];
  }

  // ---------- Where a peer's id is not plain ----------

  // The server after it has acknowledged such a peer's message and restarted.
  function AfterSplit(u: C.Setup, x: LogMessage, other: Bytes): S.State {
    var loaded := map[u.clientId := 1, other := x.id];
    S.State(true, S.Waiting, DedupStore.Store(loaded, loaded), [x], multiset{})
  }

  lemma {:induction false} ServesPeer(u: C.Setup, c: C.State, x: LogMessage, k: nat,
                                      ss: seq<Sys.State>, es: seq<Sys.Event>)
    returns (ss': seq<Sys.State>, es': seq<Sys.Event>)
    requires ValidMessage(x) && x.clientId != u.clientId && k <= 4
    requires Sys.Run(u, ss, es) && ss[|es|] == Sys.State(c, Answering(k, x), {}, {})
    ensures Sys.Run(u, ss', es') && ss'[|es'|] == Sys.State(c, Answering(4, x), {}, {})
    decreases 4 - k
  {
    hide Sys.Run, S.Step;
    SystemRunLength(u, ss, es);
    if k == 4 {
      return ss, es;
    }
    AnswerStep(x, k);
    var e, next := Sys.AtServer(AnswerEvent(k, x)), Sys.State(c, Answering(k + 1, x), {}, {});
    assert Sys.Step(u, Sys.State(c, Answering(k, x), {}, {}), e, next);
    ExtendsSystem(u, ss, es, e, next);
    ss', es' := ServesPeer(u, c, x, k + 1, ss + [next], es + [e]);
  }

  lemma RestartsSplit(u: C.Setup, x: LogMessage, other: Bytes)
    requires ValidMessage(x) && ClientState.GeneratedId(u.clientId)
    requires other != [] && Text.SpaceFree(other) && other != u.clientId
    requires x.clientId == DedupStore.SplitId(u.clientId, 1, other)
    ensures S.Step(Answering(4, x), S.Crash, Answering(4, x).(up := false))
    ensures S.Step(Answering(4, x).(up := false), S.Start, AfterSplit(u, x, other))
  {
    ClientState.GeneratedIsPlain(u.clientId);
    DedupStore.SplitRecord(u.clientId, 1, other, x.id);
    hide DedupStore.Reloads, DedupStore.SplitId, Text.SpaceFree, ClientState.GeneratedId;
  }

  // What the server makes of the client's first message then: nothing but an ACK.
  function Skipping(v: S.State, m: LogMessage, k: nat): S.State {
    if k == 1 then v.(phase := S.Processing([m], 0, 1))
    else if k == 2 then v.(phase := S.Processing([m], 1, 1))
    else if k == 3 then v.(phase := S.Acking([m]))
    else v
  }

  lemma SkipStep(u: C.Setup, x: LogMessage, other: Bytes, m: LogMessage, k: nat)
    requires ValidMessage(m) && m.clientId == u.clientId && m.id == 1 && other != u.clientId && k < 4
    ensures S.Step(Skipping(AfterSplit(u, x, other), m, k), AnswerEvent(k, m),
                   Skipping(AfterSplit(u, x, other), m, k + 1))
  {
    if k == 2 {
      AboveNone([m], 1);
    }
  }

  function Skipped(c: C.State, v: S.State, m: LogMessage, k: nat): Sys.State {
    Sys.State(c, Skipping(v, m, k), {[m]}, if k < 4 then {} else {m.id})
  }

  lemma {:induction false} Skips(u: C.Setup, c: C.State, x: LogMessage, other: Bytes, m: LogMessage, k: nat,
                                 ss: seq<Sys.State>, es: seq<Sys.Event>)
    returns (ss': seq<Sys.State>, es': seq<Sys.Event>)
    requires ValidMessage(m) && m.clientId == u.clientId && m.id == 1 && other != u.clientId && k <= 4
    requires Sys.Run(u, ss, es) && ss[|es|] == Skipped(c, AfterSplit(u, x, other), m, k)
    ensures Sys.Run(u, ss', es') && ss'[|es'|] == Skipped(c, AfterSplit(u, x, other), m, 4)
    decreases 4 - k
  {
    hide Sys.Run, S.Step, AfterSplit;
    SystemRunLength(u, ss, es);
    if k == 4 {
      return ss, es;
    }
    SkipStep(u, x, other, m, k);
    var v, e := AfterSplit(u, x, other), Sys.AtServer(AnswerEvent(k, m));
    assert Sys.Step(u, Skipped(c, v, m, k), e, Skipped(c, v, m, k + 1));
    ExtendsSystem(u, ss, es, e, Skipped(c, v, m, k + 1));
    ss', es' := Skips(u, c, x, other, m, k + 1, ss + [Skipped(c, v, m, k + 1)], es + [e]);
  }

  // The peer has been served, and the server has restarted since.
  lemma ServesSplit(u: C.Setup, c: C.State, x: LogMessage, other: Bytes, ss: seq<Sys.State>, es: seq<Sys.Event>)
    returns (ss': seq<Sys.State>, es': seq<Sys.Event>)
    requires ValidMessage(x) && ClientState.GeneratedId(u.clientId)
    requires other != [] && Text.SpaceFree(other) && other != u.clientId
    requires x.clientId == DedupStore.SplitId(u.clientId, 1, other)
    requires Sys.Run(u, ss, es) && ss[|es|] == Sys.State(c, Idle(), {}, {})
    ensures Sys.Run(u, ss', es') && ss'[|es'|] == Sys.State(c, AfterSplit(u, x, other), {}, {})
  {
    S.SplitIsLonger(u.clientId, 1, other);
    RestartsSplit(u, x, other);
    hide Sys.Run, S.Step, ValidMessage, DedupStore.SplitId, AfterSplit, ClientState.GeneratedId, Text.SpaceFree;
    ss', es' := ServesPeer(u, c, x, 0, ss, es);
    SystemRunLength(u, ss', es');
    var down := Sys.State(c, Answering(4, x).(up := false), {}, {});
    ExtendsSystem(u, ss', es', Sys.AtServer(S.Crash), down);
    ss', es' := ss' + [down], es' + [Sys.AtServer(S.Crash)];
    var again := Sys.State(c, AfterSplit(u, x, other), {}, {});
    ExtendsSystem(u, ss', es', Sys.AtServer(S.Start), again);
    ss', es' := ss' + [again], es' + [Sys.AtServer(S.Start)];
  }

  /**
   Why the other clients' ids must be plain: one that is not makes a restarted server skip and
   acknowledge a message of this client that it has never processed. The message is lost.
   */
  lemma SplitIdLoses(u: C.Setup, line: Bytes, x: LogMessage, other: Bytes)
    returns (ss: seq<Sys.State>, es: seq<Sys.Event>)
    requires Usable(u, line) && ValidMessage(x)
    requires other != [] && Text.SpaceFree(other) && other != u.clientId
    requires x.clientId == DedupStore.SplitId(u.clientId, 1, other)
    ensures Sys.Run(u, ss, es)
    ensures MessageOf(u, line) in ss[|es|].client.log.known && !Sys.Safe(ss[|es|], MessageOf(u, line))
  {
    var m, c := MessageOf(u, line), Recovered(u, line);
    S.SplitIsLonger(u.clientId, 1, other);
    assert m != x;
    hide Sys.Run, C.Run, C.Step, ValidMessage, DedupStore.SplitId, Text.SpaceFree, ClientState.GeneratedId;
    var cs, ces := Restarts(u, line);
    ss, es := Alone(u, cs, ces);
    ss, es := ServesSplit(u, c, x, other, ss, es);
    SystemRunLength(u, ss, es);
    Acknowledged(u, line);
    var sent := Skipped(c, AfterSplit(u, x, other), m, 0);
    ExtendsSystem(u, ss, es, Sys.AtClient(C.Send([m])), sent);
    ss, es := ss + [sent], es + [Sys.AtClient(C.Send([m]))];
    ss, es := Skips(u, c, x, other, m, 0, ss, es);
    SystemRunLength(u, ss, es);
    var last := Skipped(c, AfterSplit(u, x, other), m, 4).(client := Confirmed(u, line));
    ExtendsSystem(u, ss, es, Sys.AtClient(C.ReceiveAck(1, true)), last);
    ss, es := ss + [last], es + [Sys.AtClient(C.ReceiveAck(1, true))];
  }
}
