/**
 From wherever a run has got to, crashes or not, the system can still finish: some continuation
 restarts both processes, delivers what is in the log and leaves it empty.
 */
module Progress {
  import opened Words
  import opened Lines
  import opened Protocol
  import opened Transport
  import opened WriteAheadLog
  import C = ClientProcess
  import ClientState
  import DedupStore
  import FileTailReader
  import S = ServerProcess
  import Server
  import Sys = System
  import WalHistory

  // Some steps one after the other, from `s`, in which no other client takes part.
  ghost predicate Path(u: C.Setup, s: Sys.State, ss: seq<Sys.State>, es: seq<Sys.Event>) {
    && |ss| == |es| + 1 && ss[0] == s && Sys.PlainPeers(u, es)
    && forall i | 0 <= i < |es| :: Sys.Step(u, ss[i], es[i], ss[i + 1])
  }

  lemma PathGrows(u: C.Setup, s: Sys.State, ss: seq<Sys.State>, es: seq<Sys.Event>, e: Sys.Event, s': Sys.State)
    requires Path(u, s, ss, es) && Sys.Step(u, ss[|es|], e, s') && Sys.PlainPeer(u, e)
    ensures Path(u, s, ss + [s'], es + [e])
  {
    hide Sys.Step, Sys.PlainPeer;
    var ss', es' := ss + [s'], es + [e];
    forall i | 0 <= i < |es'| ensures Sys.Step(u, ss'[i], es'[i], ss'[i + 1]) && Sys.PlainPeer(u, es'[i]) {
      assert i < |es| ==> ss'[i] == ss[i] && ss'[i + 1] == ss[i + 1] && es'[i] == es[i];
    }
  }

  lemma PathLength(u: C.Setup, s: Sys.State, ss: seq<Sys.State>, es: seq<Sys.Event>)
    requires Path(u, s, ss, es)
    ensures |ss| == |es| + 1
  {
  }

  lemma PathsJoin(u: C.Setup, s: Sys.State, ss: seq<Sys.State>, es: seq<Sys.Event>,
                  more: seq<Sys.State>, events: seq<Sys.Event>)
    requires Path(u, s, ss, es) && Path(u, ss[|es|], more, events)
    ensures Path(u, s, ss + more[1..], es + events)
    ensures (ss + more[1..])[|es + events|] == more[|events|]
  {
    hide Sys.Step, Sys.PlainPeer;
    var ss', es' := ss + more[1..], es + events;
    assert forall i | |es| <= i < |ss'| :: ss'[i] == more[i - |es|];
    forall i | 0 <= i < |es'| ensures Sys.Step(u, ss'[i], es'[i], ss'[i + 1]) && Sys.PlainPeer(u, es'[i]) {
      if i < |es| {
        assert ss'[i] == ss[i] && ss'[i + 1] == ss[i + 1] && es'[i] == es[i];
      } else {
        assert es'[i] == events[i - |es|] && ss'[i + 1] == more[i - |es| + 1];
      }
    }
  }

  lemma {:induction false} PathKeeps(u: C.Setup, s: Sys.State, ss: seq<Sys.State>, es: seq<Sys.Event>, n: nat,
                                     m: LogMessage)
    requires Sys.Inv(u, s) && Path(u, s, ss, es) && n < |ss|
    ensures Sys.Inv(u, ss[n])
    ensures m in s.client.log.known ==> m in ss[n].client.log.known
  {
    hide Sys.Inv, Sys.ClientStep, Sys.ServerStep, Sys.PlainPeer;
    if n > 0 {
      PathKeeps(u, s, ss, es, n - 1, m);
      assert Sys.Step(u, ss[n - 1], es[n - 1], ss[n]);
      match es[n - 1]
      case AtClient(c) => Sys.ClientKeeps(u, ss[n - 1], c, ss[n]);
      case AtServer(v) => Sys.ServerKeeps(u, ss[n - 1], v, ss[n]);
    }
    if n > 0 && m in s.client.log.known {
      Sys.KnownStays(u, ss[n - 1], es[n - 1], ss[n], m);
    }
  }

  // ---------- Both processes start again ----------

  // Both are up, the server waits, and the client is about to replay what is on its disk.
  ghost predicate Ready(s: Sys.State) {
    && s.client.up && s.server.up && s.server.phase.Waiting?
    && s.client.log.w == WalState(s.client.log.w.records, false, s.client.log.w.records)
    && s.client.pipe == C.Started(s.client.log.w.records)
  }

  // Some state of the server, waiting, that it can get to from here.
  lemma ServerRestarts(v: S.State) returns (v1: S.State, v2: S.State)
    requires S.Inv(v)
    ensures if v.up then S.Step(v, S.Crash, v1) else v1 == v
    ensures S.Step(v1, S.Start, v2) && v2.up && v2.phase.Waiting?
  {
    hide Server.Bounded, Server.Keys, DedupStore.Highest, Acceptable, DedupStore.Reloads, DedupStore.Printable;
    DedupStore.ReloadIsExact(v.store.stored);
    v1 := if v.up then v.(up := false, phase := S.Waiting, exposed := v.exposed + Server.Keys(S.Window(v.phase)))
          else v;
    v2 := v1.(up := true, store := DedupStore.Store(v.store.stored, v.store.stored));
  }

  lemma ClientRestarts(u: C.Setup, c: C.State) returns (c1: C.State, c2: C.State)
    requires C.Inv(u, c)
    ensures if c.up then C.Step(u, c, C.Crash, c1) else c1 == c
    ensures C.Step(u, c1, C.Start(true), c2) && c2.up
    ensures c2.log.w == WalState(c2.log.w.records, false, c2.log.w.records)
    ensures c2.pipe == C.Started(c2.log.w.records)
  {
    c1 := if c.up then c.(up := false, restarted := true) else c;
    CrashKeepsInv(u, c, c1);
    C.RestartIsClean(u, c1);
    hide C.Inv;
    c2 := Restarted(u, c1);
    CanStart(u, c1);
  }

  lemma CrashKeepsInv(u: C.Setup, c: C.State, c1: C.State)
    requires C.Inv(u, c) && c1 == if c.up then c.(up := false, restarted := true) else c
    ensures C.Inv(u, c1) && !c1.up
    ensures c.up ==> C.Step(u, c, C.Crash, c1)
  {
    if c.up {
      assert C.Step(u, c, C.Crash, c1);
      hide C.Inv;
      C.StepKeeps(u, c, C.Crash, c1);
    }
  }

  // The client as it starts again.
  function Restarted(u: C.Setup, c: C.State): C.State {
    var f, records := C.Resumed(u, c.ids.stored), c.log.w.records;
    var offset := C.OpenOffset(f, u.file, |c.tail.content|);
    C.State(true, C.Started(records),
            WalHistory.History(WalState(records, false, records), false, c.log.confirmed,
                               WalHistory.Merge(c.log.known, records)),
            ClientState.Ids(f, f),
            FileTailReader.Tail(c.tail.content, FileTailReader.Progress(offset, []),
                                CompleteLines(c.tail.content[..offset])),
            C.CoverAt(c, f), C.CoverAt(c, f), true)
  }

  lemma CanReload(c: C.State, h: WalHistory.History)
    requires h == WalHistory.History(WalState(c.log.w.records, false, c.log.w.records), false, c.log.confirmed,
                                     WalHistory.Merge(c.log.known, c.log.w.records))
    ensures WalHistory.Step(c.log, WalHistory.Reload, h)
  {
    hide WalHistory.Merge;
  }

  lemma CanStartFrom(u: C.Setup, c: C.State, saved: Option<ClientState.Fields>)
    requires !c.up && saved.Some? && ClientState.MaxId(c.log.w.records) < MAX_UINT64
    requires forall m | m in c.log.w.records :: m.clientId == saved.value.clientId
    requires ClientState.Repaired(saved.value, u.source, ClientState.MaxId(c.log.w.records))
             == C.Resumed(u, c.ids.stored)
    ensures C.StartFrom(u, c, saved, true, Restarted(u, c))
  {
    CanReload(c, Restarted(u, c).log);
    hide ClientState.MaxId, ClientState.Repaired, C.Resumed, C.OpenOffset, C.CoverAt, C.Started;
    hide CompleteLines, WalHistory.Merge, WalHistory.Step;
  }

  lemma StartIsStep(u: C.Setup, c: C.State, c': C.State)
    requires C.StartStep(u, c, true, c')
    ensures C.Step(u, c, C.Start(true), c')
  {
    hide C.StartStep;
  }

  lemma CanStart(u: C.Setup, c: C.State)
    requires C.Inv(u, c) && !c.up
    ensures C.Step(u, c, C.Start(true), Restarted(u, c))
  {
    C.RestartIsClean(u, c);
    hide C.Inv, ClientState.Parse, ClientState.Render, ClientState.MaxId, ClientState.Repaired, C.Resumed, C.OpenOffset;
    hide Restarted, C.StartFrom, C.Step;
    CanStartFrom(u, c, ClientState.Parse(ClientState.Render(c.ids.stored)));
    StartIsStep(u, c, Restarted(u, c));
  }

  lemma AtClientStep(u: C.Setup, s: Sys.State, e: C.Event, c: C.State)
    requires C.Step(u, s.client, e, c) && !e.Send? && !e.ReceiveAck?
    ensures Sys.Step(u, s, Sys.AtClient(e), s.(client := c)) && Sys.PlainPeer(u, Sys.AtClient(e))
  {
    hide C.Step;
  }

  lemma AtServerStep(u: C.Setup, s: Sys.State, e: S.Event, v: S.State)
    requires S.Step(s.server, e, v) && !e.SendAck? && (e.Receive? ==> e.batch in s.batches)
    requires e.Receive? && e.batch != [] ==> e.batch[0].clientId == u.clientId
    ensures Sys.Step(u, s, Sys.AtServer(e), s.(server := v)) && Sys.PlainPeer(u, Sys.AtServer(e))
  {
    hide S.Step;
  }

  lemma ServerStartsAgain(u: C.Setup, s: Sys.State, v1: S.State, v2: S.State)
    returns (ss: seq<Sys.State>, es: seq<Sys.Event>)
    requires if s.server.up then S.Step(s.server, S.Crash, v1) else v1 == s.server
    requires S.Step(v1, S.Start, v2)
    ensures Path(u, s, ss, es) && ss[|es|] == s.(server := v2)
  {
    hide S.Step, Sys.Step, Sys.PlainPeer;
    ss, es := [s], [];
    if s.server.up {
      AtServerStep(u, s, S.Crash, v1);
      ss, es := ss + [s.(server := v1)], es + [Sys.AtServer(S.Crash)];
    }
    AtServerStep(u, s.(server := v1), S.Start, v2);
    PathGrows(u, s, ss, es, Sys.AtServer(S.Start), s.(server := v2));
    ss, es := ss + [s.(server := v2)], es + [Sys.AtServer(S.Start)];
  }

  lemma ClientStartsAgain(u: C.Setup, s: Sys.State, c1: C.State, c2: C.State)
    returns (ss: seq<Sys.State>, es: seq<Sys.Event>)
    requires if s.client.up then C.Step(u, s.client, C.Crash, c1) else c1 == s.client
    requires C.Step(u, c1, C.Start(true), c2)
    ensures Path(u, s, ss, es) && ss[|es|] == s.(client := c2)
  {
    hide C.Step, Sys.Step, Sys.PlainPeer;
    ss, es := [s], [];
    if s.client.up {
      AtClientStep(u, s, C.Crash, c1);
      ss, es := ss + [s.(client := c1)], es + [Sys.AtClient(C.Crash)];
    }
    AtClientStep(u, s.(client := c1), C.Start(true), c2);
    PathGrows(u, s, ss, es, Sys.AtClient(C.Start(true)), s.(client := c2));
    ss, es := ss + [s.(client := c2)], es + [Sys.AtClient(C.Start(true))];
  }

  lemma BothRestart(u: C.Setup, s: Sys.State) returns (ss: seq<Sys.State>, es: seq<Sys.Event>)
    requires Sys.Inv(u, s)
    ensures Path(u, s, ss, es) && Ready(ss[|es|])
  {
    var v1, v2 := ServerRestarts(s.server);
    var c1, c2 := ClientRestarts(u, s.client);
    hide Sys.Inv, S.Step, C.Step, Sys.Step, Path, C.Started;
    ss, es := ServerStartsAgain(u, s, v1, v2);
    PathLength(u, s, ss, es);
    var more, events := ClientStartsAgain(u, s.(server := v2), c1, c2);
    PathLength(u, s.(server := v2), more, events);
    PathsJoin(u, s, ss, es, more, events);
    ss, es := ss + more[1..], es + events;
  }

  // ---------- One batch ----------

  // What the server does on its own, while it sends no ACK, is something the system can do.
  lemma {:induction false} ServerAlone(u: C.Setup, s: Sys.State, vs: seq<S.State>, ves: seq<S.Event>, n: nat)
    returns (ss: seq<Sys.State>, es: seq<Sys.Event>)
    requires S.Path(s.server, vs, ves) && n <= |ves|
    requires forall i | 0 <= i < |ves| :: !ves[i].SendAck?
    requires forall i | 0 <= i < |ves| && ves[i].Receive? ::
               ves[i].batch in s.batches && ves[i].batch != [] && ves[i].batch[0].clientId == u.clientId
    ensures Path(u, s, ss, es) && ss[|es|] == s.(server := vs[n])
  {
    hide Sys.Step, S.Step, Sys.PlainPeer;
    if n == 0 {
      ss, es := [s], [];
    } else {
      ss, es := ServerAlone(u, s, vs, ves, n - 1);
      AtServerStep(u, s.(server := vs[n - 1]), ves[n - 1], vs[n]);
      PathGrows(u, s, ss, es, Sys.AtServer(ves[n - 1]), s.(server := vs[n]));
      ss, es := ss + [s.(server := vs[n])], es + [Sys.AtServer(ves[n - 1])];
    }
  }

  lemma CanConfirm(v: S.State, batch: seq<LogMessage>) returns (store: DedupStore.Store)
    requires Acceptable(batch)
    ensures batch != []
    ensures var previous := DedupStore.Highest(v.store.memory, batch[0].clientId);
      DedupStore.ConfirmStep(v.store, batch[0].clientId, Server.LastOf(Above(batch, previous), previous), store, true)
  {
    S.HasClientId(batch);
    var c, previous := batch[0].clientId, DedupStore.Highest(v.store.memory, batch[0].clientId);
    Server.AboveLast(batch, previous);
    var id := Server.LastOf(Above(batch, previous), previous);
    assert ValidMessage(batch[|batch| - 1]);
    store := if id <= previous then v.store else DedupStore.Store(v.store.memory[c := id], v.store.memory[c := id]);
  }

  lemma BatchIsAcceptable(batch: seq<LogMessage>)
    requires ValidBatch(batch)
    ensures Acceptable(batch) && batch != []
  {
  }

  // Receiving, going through and confirming the batch, and sending its ACK.
  lemma ServerAnswers(u: C.Setup, s: Sys.State, batch: seq<LogMessage>) returns (ss: seq<Sys.State>, es: seq<Sys.Event>)
    requires s.server.up && s.server.phase.Waiting? && Acceptable(batch) && batch in s.batches
    requires batch != [] && batch[0].clientId == u.clientId
    ensures Path(u, s, ss, es)
    ensures var t := ss[|es|];
      && t.client == s.client && t.server.up && t.server.phase.Waiting? && t.batches == s.batches
      && batch[|batch| - 1].id in t.acks
  {
    var store := CanConfirm(s.server, batch);
    var vs, ves := S.HandlingIsRun(s.server, batch, store, true);
    hide S.Step, Sys.PlainPeer, Acceptable, DedupStore.ConfirmStep, Above, DedupStore.Highest;
    ss, es := ServerAlone(u, s, vs, ves, |ves|);
    var t := s.(server := vs[|ves|]);
    Acks(u, t, batch);
    hide Path, Sys.Step;
    PathLength(u, s, ss, es);
    var id := batch[|batch| - 1].id;
    var t' := t.(server := t.server.(phase := S.Waiting), acks := t.acks + {id});
    PathGrows(u, s, ss, es, Sys.AtServer(S.SendAck(id)), t');
    ss, es := ss + [t'], es + [Sys.AtServer(S.SendAck(id))];
  }

  lemma Acks(u: C.Setup, t: Sys.State, batch: seq<LogMessage>)
    requires t.server.up && t.server.phase == S.Acking(batch) && batch != [] && batch[0].clientId == u.clientId
    ensures var id := batch[|batch| - 1].id;
      && Sys.PlainPeer(u, Sys.AtServer(S.SendAck(id)))
      && Sys.Step(u, t, Sys.AtServer(S.SendAck(id)),
                  t.(server := t.server.(phase := S.Waiting), acks := t.acks + {id}))
  {
  }

  // The client once the batch is confirmed and the log compacted.
  function Compacted(c: C.State): C.State {
    var rest := c.pipe.inFlight[c.pipe.Front()..];
    var id := if c.pipe.inFlight == [] then 0 else c.pipe.Batch()[c.pipe.Front() - 1].id;
    c.(pipe := C.Started(rest),
       log := c.log.(w := WalState(rest, false, rest),
                     confirmed := if c.log.confirmed < id then id else c.log.confirmed))
  }

  lemma CanSend(u: C.Setup, s: Sys.State)
    requires Sys.Inv(u, s) && Ready(s) && s.client.log.w.records != []
    ensures var batch := s.client.pipe.Batch();
      && C.Step(u, s.client, C.Send(batch), s.client)
      && ValidBatch(batch) && forall m | m in batch :: m.clientId == u.clientId
  {
    hide C.Inv, S.Inv, Sys.NetInv, Sys.InOrder, ValidBatch;
    C.SentIsComplete(u, s.client, s.client.pipe.Batch(), s.client);
  }

  lemma CanCompact(u: C.Setup, c: C.State, id: uint64)
    requires C.PipeInv(c) && c.up && c.log.w.records != []
    requires c.log.w == WalState(c.log.w.records, false, c.log.w.records) && c.pipe == C.Started(c.log.w.records)
    requires id == c.pipe.Batch()[c.pipe.Front() - 1].id
    ensures C.Step(u, c, C.ReceiveAck(id, true), Compacted(c))
    ensures |Compacted(c).log.w.records| < |c.log.w.records|
  {
    hide Storable, Above;
    C.AckRemovesBatch(c.pipe, id);
    var rest := c.pipe.inFlight[c.pipe.Front()..];
    assert rest + [] + [] == rest && c.pipe.Unconfirmed() == c.pipe.inFlight;
    assert Above(c.log.w.pending, id) == rest;
    assert C.AckStep(c, id, true, Compacted(c));
  }

  lemma SendIsStep(u: C.Setup, s: Sys.State, batch: seq<LogMessage>)
    requires C.Step(u, s.client, C.Send(batch), s.client)
    ensures var sent := s.(batches := s.batches + {batch});
      Path(u, s, [s, sent], [Sys.AtClient(C.Send(batch))])
  {
    hide C.Step;
    var sent := s.(batches := s.batches + {batch});
    assert Sys.Step(u, s, Sys.AtClient(C.Send(batch)), sent);
  }

  lemma AckIsStep(u: C.Setup, t: Sys.State, id: uint64, c: C.State)
    requires C.Step(u, t.client, C.ReceiveAck(id, true), c) && id in t.acks
    ensures Path(u, t, [t, t.(client := c)], [Sys.AtClient(C.ReceiveAck(id, true))])
  {
    hide C.Step;
    assert Sys.Step(u, t, Sys.AtClient(C.ReceiveAck(id, true)), t.(client := c));
  }

  lemma BatchIsDelivered(u: C.Setup, s: Sys.State) returns (ss: seq<Sys.State>, es: seq<Sys.Event>)
    requires Sys.Inv(u, s) && Ready(s) && s.client.log.w.records != []
    ensures Path(u, s, ss, es) && Ready(ss[|es|])
    ensures |ss[|es|].client.log.w.records| < |s.client.log.w.records|
  {
    var c, batch := s.client, s.client.pipe.Batch();
    CanSend(u, s);
    BatchIsAcceptable(batch);
    UpHasPipe(u, s);
    var id := batch[|batch| - 1].id;
    CanCompact(u, c, id);
    hide Sys.Inv, C.Step, S.Step, Sys.Step, Acceptable, ValidBatch, C.PipeInv, Path;
    SendIsStep(u, s, batch);
    var sent := s.(batches := s.batches + {batch});
    var answer, answering := ServerAnswers(u, sent, batch);
    PathLength(u, sent, answer, answering);
    var t := answer[|answering|];
    AckIsStep(u, t, id, Compacted(c));
    ss, es := ThreePaths(u, s, sent, t, t.(client := Compacted(c)), Sys.AtClient(C.Send(batch)), answer, answering,
                         Sys.AtClient(C.ReceiveAck(id, true)));
  }

  lemma UpHasPipe(u: C.Setup, s: Sys.State)
    requires Sys.Inv(u, s) && s.client.up
    ensures C.PipeInv(s.client)
  {
    hide S.Inv, Sys.NetInv, Sys.InOrder;
    Sys.UpHasPipeInv(u, s.client);
  }

  lemma ThreePaths(u: C.Setup, s: Sys.State, sent: Sys.State, t: Sys.State, t': Sys.State, e: Sys.Event,
                   more: seq<Sys.State>, events: seq<Sys.Event>, last: Sys.Event)
    returns (ss: seq<Sys.State>, es: seq<Sys.Event>)
    requires Path(u, s, [s, sent], [e]) && Path(u, sent, more, events) && more[|events|] == t
    requires Path(u, t, [t, t'], [last])
    ensures Path(u, s, ss, es) && ss[|es|] == t'
  {
    hide Path;
    PathLength(u, sent, more, events);
    PathsJoin(u, s, [s, sent], [e], more, events);
    ss, es := [s, sent] + more[1..], [e] + events;
    PathLength(u, s, ss, es);
    PathsJoin(u, s, ss, es, [t, t'], [last]);
    ss, es := ss + [t, t'][1..], es + [last];
  }

  // ---------- To the end ----------

  lemma {:induction false} LogIsEmptied(u: C.Setup, s: Sys.State) returns (ss: seq<Sys.State>, es: seq<Sys.Event>)
    requires Sys.Inv(u, s) && Ready(s)
    ensures Path(u, s, ss, es) && ss[|es|].client.log.w.records == []
    decreases |s.client.log.w.records|
  {
    hide Sys.Inv, Ready, Sys.Step;
    if s.client.log.w.records == [] {
      return [s], [];
    }
    ss, es := BatchIsDelivered(u, s);
    StillInvariant(u, s, ss, es);
    var more, events := LogIsEmptied(u, ss[|es|]);
    PathsJoin(u, s, ss, es, more, events);
    ss, es := ss + more[1..], es + events;
  }

  /**
   The system can always finish: from every state of every run with plain peers, some continuation
   empties the log, with every message known so far processed.
   */
  lemma CanAlwaysFinish(u: C.Setup, ss: seq<Sys.State>, es: seq<Sys.Event>, n: nat)
    returns (more: seq<Sys.State>, events: seq<Sys.Event>)
    requires Sys.Run(u, ss, es) && Sys.PlainPeers(u, es) && n < |ss|
    ensures Path(u, ss[n], more, events) && more[|events|].client.log.w.records == []
    ensures forall m | m in ss[n].client.log.known :: m in more[|events|].server.processed
  {
    Sys.RunKeeps(u, ss, es, n);
    hide Sys.Run, Sys.PlainPeers, Sys.Inv, Ready, Sys.Step, Sys.Safe;
    var s := ss[n];
    more, events := BothRestart(u, s);
    StillInvariant(u, s, more, events);
    var rest, last := LogIsEmptied(u, more[|events|]);
    PathsJoin(u, s, more, events, rest, last);
    more, events := more + rest[1..], events + last;
    hide Path;
    AllProcessed(u, s, more, events);
  }

  lemma StillInvariant(u: C.Setup, s: Sys.State, ss: seq<Sys.State>, es: seq<Sys.Event>)
    requires Sys.Inv(u, s) && Path(u, s, ss, es)
    ensures Sys.Inv(u, ss[|es|])
  {
    hide Sys.Inv, Sys.Step;
    PathKeeps(u, s, ss, es, |es|, LogMessage(0, [], 0, [], []));
  }

  lemma AllProcessed(u: C.Setup, s: Sys.State, ss: seq<Sys.State>, es: seq<Sys.Event>)
    requires Sys.Inv(u, s) && Path(u, s, ss, es) && ss[|es|].client.log.w.records == []
    ensures forall m | m in s.client.log.known :: m in ss[|es|].server.processed
  {
    hide Sys.Inv, Sys.Step;
    forall m | m in s.client.log.known ensures m in ss[|es|].server.processed {
      PathKeeps(u, s, ss, es, |es|, m);
      Sys.KnownIsSafe(u, ss[|es|], m);
    }
  }
}
