/**
 A client, the server and the network between them. The network may deliver any batch ever sent
 to the server, and any ACK ever sent to the client, at any later time, any number of times or
 never: that covers lost connections, lost ACKs, timeouts and resends. Other clients send any
 acceptable batches. Either process may crash between any two steps. The results hold when the
 other clients' ids are free of white space, as generated ids are (PlainPeers).
 */
module System {
  import opened Words
  import opened Lines
  import opened Protocol
  import opened Transport
  import opened WriteAheadLog
  import C = ClientProcess
  import ClientState
  import DedupStore
  import S = ServerProcess
  import Server
  import Text
  import WalHistory

  datatype State = State(client: C.State, server: S.State, batches: set<seq<LogMessage>>, acks: set<uint64>)

  datatype Event = AtClient(c: C.Event) | AtServer(s: S.Event)

  ghost predicate Init(u: C.Setup, s: State) {
    C.Init(u, s.client) && S.Init(s.server) && s.batches == {} && s.acks == {}
  }

  ghost predicate ClientStep(u: C.Setup, s: State, e: C.Event, s': State) {
    && C.Step(u, s.client, e, s'.client)
    && (e.ReceiveAck? ==> e.id in s.acks)
    && s' == s.(client := s'.client, batches := if e.Send? then s.batches + {e.batch} else s.batches)
  }

  ghost predicate ServerStep(u: C.Setup, s: State, e: S.Event, s': State) {
    && S.Step(s.server, e, s'.server)
    && (e.Receive? ==> e.batch in s.batches || e.batch[0].clientId != u.clientId)
    && s' == s.(server := s'.server,
                acks := if e.SendAck? && s.server.phase.batch[0].clientId == u.clientId then s.acks + {e.id}
                        else s.acks)
  }

  ghost predicate Step(u: C.Setup, s: State, e: Event, s': State) {
    match e
    case AtClient(c) => ClientStep(u, s, c, s')
    case AtServer(v) => ServerStep(u, s, v, s')
  }

  /** What is asked of the other clients; it says nothing about this one. */
  ghost predicate PlainPeer(u: C.Setup, e: Event) {
    e.AtServer? && e.s.Receive? && e.s.batch != [] && e.s.batch[0].clientId != u.clientId ==>
      Text.SpaceFree(e.s.batch[0].clientId)
  }

  ghost predicate PlainPeers(u: C.Setup, es: seq<Event>) {
    forall i | 0 <= i < |es| :: PlainPeer(u, es[i])
  }

  // ---------- The invariant between the two ----------

  function Top(known: seq<LogMessage>): uint64 {
    if known == [] then 0 else known[|known| - 1].id
  }

  /** All known messages up to `id` have been processed, and later messages get higher ids. */
  ghost predicate Settled(known: seq<LogMessage>, processed: seq<LogMessage>, id: uint64) {
    id <= Top(known) && forall m | m in known && m.id <= id :: m in processed
  }

  /** A batch on the network leaves no gap: processing it settles its last id. */
  ghost predicate Gapless(known: seq<LogMessage>, processed: seq<LogMessage>, batch: seq<LogMessage>) {
    && ValidBatch(batch) && batch != []
    && (forall m | m in batch :: m in known)
    && forall m | m in known && m.id <= batch[|batch| - 1].id :: m in batch || m in processed
  }

  ghost predicate PhaseInv(id: Bytes, known: seq<LogMessage>, v: S.State, batches: set<seq<LogMessage>>) {
    match v.phase
    case Waiting => true
    case Processing(batch, index, previous) =>
      batch != [] && batch[0].clientId == id && index <= |batch| ==>
        batch in batches && forall m | m in batch[..index] :: m in v.processed
    case Acking(batch) =>
      batch != [] && batch[0].clientId == id ==> Settled(known, v.processed, batch[|batch| - 1].id)
  }

  /** Confirmed ids, ACKs and both watermarks only ever name settled ids. */
  ghost predicate NetInv(id: Bytes, known: seq<LogMessage>, confirmed: uint64, v: S.State,
                         batches: set<seq<LogMessage>>, acks: set<uint64>) {
    && Settled(known, v.processed, confirmed)
    && (forall a | a in acks :: Settled(known, v.processed, a))
    && Settled(known, v.processed, DedupStore.Highest(v.store.stored, id))
    && (v.up ==> Settled(known, v.processed, DedupStore.Highest(v.store.memory, id)))
    && (forall b | b in batches :: Gapless(known, v.processed, b))
    && PhaseInv(id, known, v, batches)
  }

  /**
   What the server has processed for this client is genuine, and comes in order: whenever a message
   is processed, every known one with a smaller id has been processed before.
   */
  ghost predicate InOrder(id: Bytes, known: seq<LogMessage>, processed: seq<LogMessage>) {
    forall j | 0 <= j < |processed| && processed[j].clientId == id ::
      && processed[j] in known
      && forall k | k in known && k.id < processed[j].id :: k in processed[..j]
  }

  ghost predicate Inv(u: C.Setup, s: State) {
    && C.Inv(u, s.client) && S.Inv(s.server)
    && InOrder(u.clientId, s.client.log.known, s.server.processed)
    && NetInv(u.clientId, s.client.log.known, s.client.log.confirmed, s.server, s.batches, s.acks)
  }

  // ---------- The log grows ----------

  ghost predicate Newest(known: seq<LogMessage>, m: LogMessage) {
    m.id > 0 && forall k | k in known :: k.id < m.id
  }

  lemma SettledStays(known: seq<LogMessage>, processed: seq<LogMessage>, id: uint64, m: LogMessage)
    requires Settled(known, processed, id) && Newest(known, m)
    ensures Settled(known + [m], processed, id)
  {
    if known != [] {
      assert known[|known| - 1] in known;
    }
  }

  lemma GaplessStays(known: seq<LogMessage>, processed: seq<LogMessage>, batch: seq<LogMessage>, m: LogMessage)
    requires Gapless(known, processed, batch) && Newest(known, m)
    ensures Gapless(known + [m], processed, batch)
  {
    hide ValidBatch;
    assert batch[|batch| - 1] in batch;
  }

  lemma KnownGrows(id: Bytes, known: seq<LogMessage>, confirmed: uint64, v: S.State,
                   batches: set<seq<LogMessage>>, acks: set<uint64>, m: LogMessage)
    requires NetInv(id, known, confirmed, v, batches, acks) && Newest(known, m)
    ensures NetInv(id, known + [m], confirmed, v, batches, acks)
  {
    hide Settled, Gapless, Newest, DedupStore.Highest;
    forall a | Settled(known, v.processed, a) ensures Settled(known + [m], v.processed, a) {
      SettledStays(known, v.processed, a, m);
    }
    forall b | b in batches ensures Gapless(known + [m], v.processed, b) {
      GaplessStays(known, v.processed, b, m);
    }
  }

  lemma InOrderStays(id: Bytes, known: seq<LogMessage>, processed: seq<LogMessage>, m: LogMessage)
    requires InOrder(id, known, processed) && Newest(known, m)
    ensures InOrder(id, known + [m], processed)
  {
  }

  // ---------- What one client step does to the log ----------

  // Nothing became known, or one message that is newer than all others.
  ghost predicate Grown(h: WalHistory.History, h': WalHistory.History) {
    h'.known == h.known || exists m :: Newest(h.known, m) && h'.known == h.known + [m]
  }

  lemma AppendGrows(u: C.Setup, s: C.State, m: LogMessage, ok: bool, s': C.State)
    requires C.Inv(u, s) && s.up && C.ProducerStep(u, s, C.Append(m, ok), s')
    ensures Grown(s.log, s'.log) && s'.log.confirmed == s.log.confirmed
  {
    C.AppendKeeps(u, s, m, ok, s');
    hide C.Inv;
    if ok {
      assert Newest(s.log.known, m);
    }
  }

  // The last of some records that is not known can only be the one whose append failed.
  lemma LastIsExtra(stale: seq<LogMessage>, pending: seq<LogMessage>, extra: seq<LogMessage>, known: seq<LogMessage>)
    requires var all := stale + pending + extra; all != [] && all[|all| - 1] !in known
    requires (forall m | m in stale :: m in known) && (forall m | m in pending :: m in known)
    ensures var all := stale + pending + extra; all[|all| - 1] in extra
  {
    var all := stale + pending + extra;
    if extra == [] {
      assert all == stale + pending;
      WalHistory.InConcat(all[|all| - 1], stale, pending);
    } else {
      assert all[|all| - 1] == extra[|extra| - 1];
    }
  }

  lemma LogLayout(h: WalHistory.History) returns (stale: seq<LogMessage>, extra: seq<LogMessage>)
    requires WalHistory.Inv(h)
    ensures WalHistory.Layout(h, stale, extra)
    ensures forall m | m in h.w.records :: m.id > 0
  {
    forall m | m in h.w.records ensures m.id > 0 {
      WalHistory.ValidIsPositive(m);
    }
    hide ValidMessage, Storable, WalHistory.Durable;
    stale, extra :| WalHistory.Layout(h, stale, extra);
  }

  lemma ReloadGrows(h: WalHistory.History, h': WalHistory.History)
    requires WalHistory.Inv(h) && WalHistory.Step(h, WalHistory.Reload, h')
    ensures Grown(h, h') && h'.confirmed == h.confirmed
  {
    hide WalHistory.Inv;
    var stale, extra := LogLayout(h);
    if h'.known != h.known {
      var m := h.w.records[|h.w.records| - 1];
      LastIsExtra(stale, h.w.pending, extra, h.known);
      assert m in extra && m in h.w.records;
      assert Newest(h.known, m);
    }
  }

  lemma ClientEffect(u: C.Setup, s: C.State, e: C.Event, s': C.State)
    requires C.Inv(u, s) && C.Step(u, s, e, s')
    ensures Grown(s.log, s'.log)
    ensures s'.log.confirmed == s.log.confirmed || (e.ReceiveAck? && s'.log.confirmed == e.id)
  {
    hide C.IdsInv, C.FileInv, C.PipeInv, WalHistory.Inv, WalHistory.Appended, ConfirmStep;
    match e
    case Append(m, ok) => AppendGrows(u, s, m, ok, s');
    case Start(ok) =>
      if s'.log != s.log {
        ReloadGrows(s.log, s'.log);
      }
    case _ =>
  }

  // ---------- One step of the client ----------

  lemma ClientKeeps(u: C.Setup, s: State, e: C.Event, s': State)
    requires Inv(u, s) && ClientStep(u, s, e, s')
    ensures Inv(u, s')
  {
    hide C.Inv, C.Step, S.Inv, Settled, Gapless, PhaseInv, Newest, DedupStore.Highest, InOrder;
    C.StepKeeps(u, s.client, e, s'.client);
    ClientEffect(u, s.client, e, s'.client);
    var known, known' := s.client.log.known, s'.client.log.known;
    if e.Send? {
      SendKeeps(u, s, e.batch, s');
      SendChangesNothing(u, s.client, e.batch, s'.client);
    } else {
      var confirmed := s'.client.log.confirmed;
      assert NetInv(u.clientId, known, confirmed, s.server, s.batches, s.acks);
      if known' != known {
        var m :| Newest(known, m) && known' == known + [m];
        KnownGrows(u.clientId, known, confirmed, s.server, s.batches, s.acks, m);
        InOrderStays(u.clientId, known, s.server.processed, m);
      }
    }
  }

  lemma SendKeeps(u: C.Setup, s: State, batch: seq<LogMessage>, s': State)
    requires Inv(u, s) && ClientStep(u, s, C.Send(batch), s')
    ensures NetInv(u.clientId, s'.client.log.known, s'.client.log.confirmed, s'.server, s'.batches, s'.acks)
  {
    hide C.Inv, S.Inv, ValidBatch, DedupStore.Highest;
    C.SentIsComplete(u, s.client, batch, s'.client);
    assert s'.client == s.client by {
      SendChangesNothing(u, s.client, batch, s'.client);
    }
    hide C.Step;
    assert Gapless(s.client.log.known, s.server.processed, batch);
    hide Settled, Gapless;
    PhaseStays(u.clientId, s.client.log.known, s.server, s.batches, batch);
  }

  lemma SendChangesNothing(u: C.Setup, s: C.State, batch: seq<LogMessage>, s': C.State)
    requires C.Step(u, s, C.Send(batch), s')
    ensures s' == s
  {
  }

  lemma PhaseStays(id: Bytes, known: seq<LogMessage>, v: S.State, batches: set<seq<LogMessage>>, batch: seq<LogMessage>)
    requires PhaseInv(id, known, v, batches)
    ensures PhaseInv(id, known, v, batches + {batch})
  {
    hide Settled;
  }

  // ---------- One step of the server ----------

  lemma SettledMore(known: seq<LogMessage>, processed: seq<LogMessage>, more: seq<LogMessage>, id: uint64)
    requires Settled(known, processed, id)
    ensures Settled(known, processed + more, id)
  {
  }

  lemma GaplessMore(known: seq<LogMessage>, processed: seq<LogMessage>, more: seq<LogMessage>, batch: seq<LogMessage>)
    requires Gapless(known, processed, batch)
    ensures Gapless(known, processed + more, batch)
  {
    hide ValidBatch;
  }

  // The next message of the batch has been processed before, or is processed now.
  lemma ProcessKeeps(u: C.Setup, s: State, s': State)
    requires Inv(u, s) && ServerStep(u, s, S.Process, s')
    ensures NetInv(u.clientId, s'.client.log.known, s'.client.log.confirmed, s'.server, s'.batches, s'.acks)
  {
    hide C.Inv, ValidBatch, DedupStore.Highest, Server.Bounded, S.StoredCovers, Acceptable, InOrder, Text.SpaceFree;
    var known, v, v' := s.client.log.known, s.server, s'.server;
    var m := v.phase.batch[v.phase.index];
    var more := if m.id <= v.phase.previous then [] else [m];
    assert v'.processed == v.processed + more;
    assert v.phase.batch[..v.phase.index + 1] == v.phase.batch[..v.phase.index] + [m];
    assert PhaseInv(u.clientId, known, v', s'.batches);
    hide Settled, Gapless, PhaseInv;
    forall a | Settled(known, v.processed, a) ensures Settled(known, v'.processed, a) {
      SettledMore(known, v.processed, more, a);
    }
    forall b | b in s.batches ensures Gapless(known, v'.processed, b) {
      GaplessMore(known, v.processed, more, b);
    }
  }

  // A batch that has been processed to its end settles its last id.
  lemma ProcessedBatchSettles(known: seq<LogMessage>, processed: seq<LogMessage>, batch: seq<LogMessage>)
    requires Gapless(known, processed, batch) && Increasing(known)
    requires forall m | m in batch :: m in processed
    ensures Settled(known, processed, batch[|batch| - 1].id)
  {
    hide ValidBatch;
    var last := batch[|batch| - 1];
    assert last in batch && last in known;
    var i :| 0 <= i < |known| && known[i] == last;
  }

  lemma LoggedIncreases(u: C.Setup, s: C.State)
    requires C.Inv(u, s)
    ensures Increasing(s.log.known)
  {
  }

  lemma ConfirmKeeps(u: C.Setup, s: State, ok: bool, s': State)
    requires Inv(u, s) && ServerStep(u, s, S.Confirm(ok), s')
    ensures NetInv(u.clientId, s'.client.log.known, s'.client.log.confirmed, s'.server, s'.batches, s'.acks)
  {
    hide C.Inv, ValidBatch, DedupStore.Highest, DedupStore.ConfirmStep, S.Inv, Settled, Gapless, Above;
    var known, v := s.client.log.known, s.server;
    var batch := v.phase.batch;
    S.ConfirmOutcome(v, ok, s'.server);
    if batch[0].clientId == u.clientId {
      LoggedIncreases(u, s.client);
      assert batch[..|batch|] == batch;
      ProcessedBatchSettles(known, v.processed, batch);
    }
  }

  lemma RestartKeeps(u: C.Setup, s: State, e: S.Event, s': State)
    requires Inv(u, s) && ServerStep(u, s, e, s')
    requires e.Receive? || e.SendAck? || e.Crash? || e.Start?
    ensures NetInv(u.clientId, s'.client.log.known, s'.client.log.confirmed, s'.server, s'.batches, s'.acks)
  {
    hide C.Inv, ValidBatch, DedupStore.Highest, S.Inv, Settled, Gapless, Acceptable, S.Window;
    hide DedupStore.Reloads, InOrder;
    if e.Start? {
      S.StartKeeps(s.server, s'.server) by {
        hide NetInv;
      }
    }
  }

  // The next message of a batch comes right after all known ones that are smaller.
  lemma ProcessKeepsOrder(u: C.Setup, s: State, s': State)
    requires Inv(u, s) && ServerStep(u, s, S.Process, s')
    ensures InOrder(u.clientId, s'.client.log.known, s'.server.processed)
  {
    var v, known := s.server, s.client.log.known;
    var batch, index := v.phase.batch, v.phase.index;
    hide C.Inv, DedupStore.Highest, S.StoredCovers, Server.Bounded, Text.SpaceFree, Above, Acceptable;
    hide Settled, Gapless, InOrder;
    var m := batch[index];
    S.SameClient(batch, index);
    if m.clientId == u.clientId {
      assert Gapless(known, v.processed, batch);
      SmallerCameBefore(known, v.processed, batch, index);
    }
    AppendInOrder(u.clientId, known, v.processed, m);
    hide Inv, S.Inv;
    assert s'.server.processed == v.processed || s'.server.processed == v.processed + [m];
  }

  lemma SmallerCameBefore(known: seq<LogMessage>, processed: seq<LogMessage>, batch: seq<LogMessage>, index: nat)
    requires Gapless(known, processed, batch) && index < |batch| && forall k | k in batch[..index] :: k in processed
    ensures batch[index] in known
    ensures forall k | k in known && k.id < batch[index].id :: k in processed
  {
    hide ValidMessage, EncodeRecords;
    forall k | k in known && k.id < batch[index].id ensures k in processed {
      assert batch[index].id <= batch[|batch| - 1].id;
      if k in batch {
        var i :| 0 <= i < |batch| && batch[i] == k;
        assert batch[..index][i] == k;
      }
    }
  }

  lemma AppendInOrder(id: Bytes, known: seq<LogMessage>, processed: seq<LogMessage>, m: LogMessage)
    requires InOrder(id, known, processed)
    requires m.clientId == id ==> m in known && forall k | k in known && k.id < m.id :: k in processed
    ensures InOrder(id, known, processed + [m])
  {
    var after := processed + [m];
    forall j | 0 <= j < |after| && after[j].clientId == id
      ensures after[j] in known && forall k | k in known && k.id < after[j].id :: k in after[..j]
    {
      if j < |processed| {
        assert after[j] == processed[j] && after[..j] == processed[..j];
      } else {
        assert after[..j] == processed;
      }
    }
  }

  // Nothing else prints.
  lemma OnlyProcessPrints(v: S.State, e: S.Event, v': S.State)
    requires S.Step(v, e, v') && !e.Process?
    ensures v'.processed == v.processed
  {
    hide Above, DedupStore.Highest;
  }

  lemma PeerIsPlain(u: C.Setup, s: State, e: S.Event, s': State)
    requires Inv(u, s) && ServerStep(u, s, e, s') && PlainPeer(u, AtServer(e))
    ensures S.Plain(e)
  {
    hide C.IdsInv, C.FileInv, C.PipeInv, WalHistory.Inv, S.Inv, NetInv, InOrder, S.Step, Text.SpaceFree;
    ClientState.GeneratedIsPlain(u.clientId);
  }

  lemma ServerKeeps(u: C.Setup, s: State, e: S.Event, s': State)
    requires Inv(u, s) && ServerStep(u, s, e, s') && PlainPeer(u, AtServer(e))
    ensures Inv(u, s')
  {
    hide C.Inv, S.Inv, NetInv, S.Step, InOrder, S.Plain, PlainPeer;
    PeerIsPlain(u, s, e, s');
    S.StepKeeps(s.server, e, s'.server);
    if e.Process? {
      ProcessKeepsOrder(u, s, s');
    } else {
      OnlyProcessPrints(s.server, e, s'.server);
    }
    match e
    case Process => ProcessKeeps(u, s, s');
    case Confirm(ok) => ConfirmKeeps(u, s, ok, s');
    case _ => RestartKeeps(u, s, e, s');
  }

  // ---------- Whole runs ----------

  ghost predicate Run(u: C.Setup, ss: seq<State>, es: seq<Event>) {
    && |ss| == |es| + 1 && Init(u, ss[0])
    && forall i | 0 <= i < |es| :: Step(u, ss[i], es[i], ss[i + 1])
  }

  lemma InitHolds(u: C.Setup, s: State)
    requires Init(u, s)
    ensures Inv(u, s)
  {
    C.InitHolds(u, s.client);
    hide C.Inv;
  }

  lemma {:induction false} RunKeeps(u: C.Setup, ss: seq<State>, es: seq<Event>, n: nat)
    requires Run(u, ss, es) && PlainPeers(u, es) && n < |ss|
    ensures Inv(u, ss[n])
  {
    hide Inv, ClientStep, ServerStep, Init, PlainPeer;
    if n == 0 {
      InitHolds(u, ss[0]);
    } else {
      RunKeeps(u, ss, es, n - 1);
      assert Step(u, ss[n - 1], es[n - 1], ss[n]);
      match es[n - 1]
      case AtClient(c) => ClientKeeps(u, ss[n - 1], c, ss[n]);
      case AtServer(v) => ServerKeeps(u, ss[n - 1], v, ss[n]);
    }
  }

  // In the log on the client's disk, or processed by the server.
  ghost predicate Safe(s: State, m: LogMessage) {
    m in s.client.log.w.records || m in s.server.processed
  }

  lemma KnownIsSafe(u: C.Setup, s: State, m: LogMessage)
    requires Inv(u, s) && m in s.client.log.known
    ensures Safe(s, m)
  {
    hide C.IdsInv, C.FileInv, C.PipeInv, Storable, S.Inv, Gapless, PhaseInv, DedupStore.Highest;
  }

  /**
   No loss: in every run, at every moment, each message whose append has returned is in the log
   on the client's disk, or the server has processed it.
   */
  lemma NoLoss(u: C.Setup, ss: seq<State>, es: seq<Event>, i: nat, n: nat)
    requires Run(u, ss, es) && PlainPeers(u, es) && i < n < |ss|
    requires es[i].AtClient? && es[i].c.Append? && es[i].c.ok
    ensures Safe(ss[n], es[i].c.m)
  {
    AppendedIsKnown(u, ss, es, i);
    KnownForever(u, ss, es, i + 1, n, es[i].c.m);
    RunKeeps(u, ss, es, n);
    hide Inv, Run, Safe;
    KnownIsSafe(u, ss[n], es[i].c.m);
  }

  lemma AppendedIsKnown(u: C.Setup, ss: seq<State>, es: seq<Event>, i: nat)
    requires Run(u, ss, es) && i < |es| && es[i].AtClient? && es[i].c.Append? && es[i].c.ok
    ensures es[i].c.m in ss[i + 1].client.log.known
  {
    hide Init, AppendStep, WalHistory.Step;
    assert Step(u, ss[i], es[i], ss[i + 1]);
  }

  lemma {:induction false} KnownForever(u: C.Setup, ss: seq<State>, es: seq<Event>, i: nat, n: nat, m: LogMessage)
    requires Run(u, ss, es) && PlainPeers(u, es) && i <= n < |ss| && m in ss[i].client.log.known
    ensures m in ss[n].client.log.known
  {
    hide Inv, Init, C.Inv, C.Step, S.Step, S.Inv, NetInv;
    if i < n {
      KnownForever(u, ss, es, i, n - 1, m);
      RunKeeps(u, ss, es, n - 1);
      KnownStays(u, ss[n - 1], es[n - 1], ss[n], m);
    }
  }

  lemma KnownStays(u: C.Setup, s: State, e: Event, s': State, m: LogMessage)
    requires Inv(u, s) && Step(u, s, e, s') && m in s.client.log.known
    ensures m in s'.client.log.known
  {
    hide C.Inv, C.Step, S.Step, S.Inv, NetInv, Newest;
    if e.AtClient? {
      ClientEffect(u, s.client, e.c, s'.client);
    }
  }

  /** Also what a restart has recovered is never lost again, even if its append had reported a failure. */
  lemma RecoveredIsNotLost(u: C.Setup, ss: seq<State>, es: seq<Event>, i: nat, n: nat, m: LogMessage)
    requires Run(u, ss, es) && PlainPeers(u, es) && i <= n < |ss| && m in ss[i].client.log.known
    ensures Safe(ss[n], m)
  {
    KnownForever(u, ss, es, i, n, m);
    RunKeeps(u, ss, es, n);
    hide Inv, Run, Safe;
    KnownIsSafe(u, ss[n], m);
  }

  lemma BatchUpToLast(s: C.State)
    requires C.PipeInv(s) && s.pipe.inFlight != []
    ensures forall m | m in s.pipe.Batch() :: m in s.log.known && m.id <= s.pipe.Batch()[s.pipe.Front() - 1].id
  {
    C.FrontIsValid(s.pipe);
    hide Storable;
    assert forall m | m in s.pipe.Batch() :: m in s.pipe.Contents();
  }

  lemma SentAckIsSettled(u: C.Setup, s: State, id: uint64)
    requires Inv(u, s) && id in s.acks
    ensures Settled(s.client.log.known, s.server.processed, id)
  {
    hide C.Inv, S.Inv, Gapless, PhaseInv, Settled, DedupStore.Highest;
  }

  lemma AckAccepted(u: C.Setup, s: State, e: C.Event, s': State)
    requires ClientStep(u, s, e, s') && e.ReceiveAck? && s'.client != s.client
    ensures s.client.up && s.client.pipe.inFlight != [] && e.id in s.acks
    ensures e.id == s.client.pipe.Batch()[s.client.pipe.Front() - 1].id
  {
    hide WalHistory.Step;
  }

  lemma UpHasPipeInv(u: C.Setup, s: C.State)
    requires C.Inv(u, s) && s.up
    ensures C.PipeInv(s)
  {
  }

  lemma AcceptedIsProcessed(u: C.Setup, s: State, e: C.Event, s': State)
    requires Inv(u, s) && ClientStep(u, s, e, s') && e.ReceiveAck? && s'.client != s.client
    ensures forall m | m in s.client.pipe.Batch() :: m in s.server.processed
  {
    hide C.Inv, S.Inv, NetInv, ClientStep, C.PipeInv;
    AckAccepted(u, s, e, s');
    SentAckIsSettled(u, s, e.id);
    UpHasPipeInv(u, s.client);
    BatchUpToLast(s.client);
  }

  /** An ACK means what it says: when the client accepts one, all of the batch has been processed. */
  lemma AcceptedAckMeansProcessed(u: C.Setup, ss: seq<State>, es: seq<Event>, n: nat)
    requires Run(u, ss, es) && PlainPeers(u, es) && n < |es| && es[n].AtClient? && es[n].c.ReceiveAck?
    requires ss[n + 1].client != ss[n].client
    ensures forall m | m in ss[n].client.pipe.Batch() :: m in ss[n].server.processed
  {
    hide Inv, ClientStep, Init;
    RunKeeps(u, ss, es, n);
    assert Step(u, ss[n], es[n], ss[n + 1]);
    AcceptedIsProcessed(u, ss[n], es[n].c, ss[n + 1]);
  }

  /** At most once: in every run a message is processed at most once more than it was exposed. */
  lemma AtMostOnce(u: C.Setup, ss: seq<State>, es: seq<Event>, n: nat, k: Server.Key)
    requires Run(u, ss, es) && PlainPeers(u, es) && n < |ss|
    ensures Server.Keys(ss[n].server.processed)[k] <= 1 + ss[n].server.exposed[k]
  {
    RunKeeps(u, ss, es, n);
    hide C.Inv, NetInv, Run, InOrder, S.Inv;
    S.InvMeansOnce(ss[n].server, k);
  }

  /** In order: when a message of the client is processed, all known ones before it have been processed already. */
  lemma DeliveredInOrder(u: C.Setup, ss: seq<State>, es: seq<Event>, n: nat, j: nat, m: LogMessage)
    requires Run(u, ss, es) && PlainPeers(u, es) && n < |ss|
    requires j < |ss[n].server.processed| && ss[n].server.processed[j].clientId == u.clientId
    ensures ss[n].server.processed[j] in ss[n].client.log.known
    ensures m in ss[n].client.log.known && m.id < ss[n].server.processed[j].id ==> m in ss[n].server.processed[..j]
  {
    RunKeeps(u, ss, es, n);
    hide C.Inv, NetInv, Run, S.Inv;
  }

  // The messages of one client, in order.
  function OfClient(ms: seq<LogMessage>, id: Bytes): seq<LogMessage> {
    if ms == [] then []
    else OfClient(ms[..|ms| - 1], id) + if ms[|ms| - 1].clientId == id then [ms[|ms| - 1]] else []
  }

  lemma {:induction false} OfClientMembers(ms: seq<LogMessage>, id: Bytes)
    ensures forall m :: m in OfClient(ms, id) <==> m in ms && m.clientId == id
  {
    if ms != [] {
      var init, last := ms[..|ms| - 1], ms[|ms| - 1];
      OfClientMembers(init, id);
      assert ms == init + [last];
    }
  }

  ghost predicate Unexposed(id: Bytes, exposed: multiset<Server.Key>) {
    forall k: Server.Key | k.0 == id :: exposed[k] == 0
  }

  // Without repetitions, in-order processing copies the log from its front.
  lemma {:induction false} OrderIsPrefix(id: Bytes, known: seq<LogMessage>, processed: seq<LogMessage>, n: nat)
    requires InOrder(id, known, processed) && Increasing(known) && n <= |processed|
    requires forall m | m in known :: m.clientId == id
    requires forall i, j | 0 <= i < j < |processed| && processed[i].clientId == id ::
               Server.KeyOf(processed[i]) != Server.KeyOf(processed[j])
    ensures OfClient(processed[..n], id) <= known
  {
    if n > 0 {
      OrderIsPrefix(id, known, processed, n - 1);
      assert processed[..n][..n - 1] == processed[..n - 1];
      var m, done := processed[n - 1], OfClient(processed[..n - 1], id);
      if m.clientId == id {
        OfClientMembers(processed[..n - 1], id);
        NextInLog(known, processed[..n - 1], done, m, id);
      }
    }
  }

  lemma NextInLog(known: seq<LogMessage>, processed: seq<LogMessage>, done: seq<LogMessage>, m: LogMessage, id: Bytes)
    requires Increasing(known) && done <= known && m in known && m !in processed
    requires forall k | k in known && k.id < m.id :: k in processed && k.clientId == id
    requires forall k :: k in done <==> k in processed && k.clientId == id
    ensures done + [m] <= known
  {
    var p :| 0 <= p < |known| && known[p] == m;
    assert forall q | 0 <= q < |done| :: done[q] in done && known[q] == done[q];
    if |done| < |known| {
      NotInFront(known, done, |done|);
    }
    assert p == |done|;
  }

  lemma NotInFront(known: seq<LogMessage>, front: seq<LogMessage>, q: nat)
    requires Increasing(known) && front <= known && |front| <= q < |known|
    ensures known[q] !in front
  {
    forall i | 0 <= i < |front| ensures front[i] != known[q] {
      assert known[i].id < known[q].id;
    }
  }

  lemma NoRepetitions(v: S.State, id: Bytes, i: nat, j: nat)
    requires S.Inv(v) && Unexposed(id, v.exposed)
    requires i < j < |v.processed| && v.processed[i].clientId == id
    ensures Server.KeyOf(v.processed[i]) != Server.KeyOf(v.processed[j])
  {
    hide S.Inv, Server.Keys;
    if Server.KeyOf(v.processed[i]) == Server.KeyOf(v.processed[j]) {
      S.InvMeansOnce(v, Server.KeyOf(v.processed[i]));
      Server.TwoPlaces(v.processed, i, j);
    }
  }

  lemma LoggedIsOwn(u: C.Setup, s: C.State)
    requires C.Inv(u, s)
    ensures Increasing(s.log.known) && forall m | m in s.log.known :: m.clientId == u.clientId
  {
    hide C.FileInv, C.PipeInv;
  }

  /**
   While no message of the client has been exposed, what the server has processed for it is exactly
   a front part of what the client has logged.
   */
  lemma OutputIsFrontOfLog(u: C.Setup, ss: seq<State>, es: seq<Event>, n: nat)
    requires Run(u, ss, es) && PlainPeers(u, es) && n < |ss| && Unexposed(u.clientId, ss[n].server.exposed)
    ensures OfClient(ss[n].server.processed, u.clientId) <= ss[n].client.log.known
  {
    RunKeeps(u, ss, es, n);
    hide Run, Unexposed;
    FrontOfLog(u, ss[n]);
  }

  lemma FrontOfLog(u: C.Setup, s: State)
    requires Inv(u, s) && Unexposed(u.clientId, s.server.exposed)
    ensures OfClient(s.server.processed, u.clientId) <= s.client.log.known
  {
    var processed := s.server.processed;
    hide S.Inv, C.Inv, NetInv, InOrder, Unexposed;
    LoggedIsOwn(u, s.client);
    forall i, j | 0 <= i < j < |processed| && processed[i].clientId == u.clientId
      ensures Server.KeyOf(processed[i]) != Server.KeyOf(processed[j])
    {
      NoRepetitions(s.server, u.clientId, i, j);
    }
    OrderIsPrefix(u.clientId, s.client.log.known, processed, |processed|);
    assert processed[..|processed|] == processed;
  }

  lemma AllOfPrefix(front: seq<LogMessage>, known: seq<LogMessage>)
    requires front <= known && Increasing(known) && forall m | m in known :: m in front
    ensures front == known
  {
    if |front| < |known| {
      NotInFront(known, front, |front|);
    }
  }

  /**
   The whole way, in a run in which the client has not crashed and none of its messages has been
   exposed: once a checkpoint is saved and the log is empty, what the server has processed for the
   client are exactly the lines of the file up to the checkpoint, each once, in order.
   */
  lemma OutputIsTheFile(u: C.Setup, ss: seq<State>, es: seq<Event>, n: nat)
    requires Run(u, ss, es) && PlainPeers(u, es) && n < |ss| && Unexposed(u.clientId, ss[n].server.exposed)
    requires var c := ss[n].client; c.up && C.Settled(c.pipe.producer) && !c.restarted && c.log.w.records == []
    ensures var c := ss[n].client;
      && c.ids.stored.fileOffset <= |c.tail.content|
      && C.Texts(OfClient(ss[n].server.processed, u.clientId))
         == CompleteLines(c.tail.content[..c.ids.stored.fileOffset])
  {
    OutputIsFrontOfLog(u, ss, es, n);
    RunKeeps(u, ss, es, n);
    var s := ss[n];
    forall m | m in s.client.log.known ensures m in s.server.processed {
      EmptyLogMeansAllProcessed(u, ss, es, n, m);
    }
    hide Run, S.Inv, NetInv, C.Inv, InOrder, C.Texts, CompleteLines;
    LoggedIsOwn(u, s.client);
    OfClientMembers(s.server.processed, u.clientId);
    AllOfPrefix(OfClient(s.server.processed, u.clientId), s.client.log.known);
    C.InvMeansExact(u, s.client);
  }

  /**
   Checkpoint safety: at every moment, the complete lines before the saved checkpoint are carried
   by messages with increasing ids, each of them in the log on disk or processed.
   */
  lemma CheckpointSafety(u: C.Setup, ss: seq<State>, es: seq<Event>, n: nat) returns (cover: seq<LogMessage>)
    requires Run(u, ss, es) && PlainPeers(u, es) && n < |ss|
    ensures ss[n].client.ids.stored.fileOffset <= |ss[n].client.tail.content|
    ensures C.Texts(cover) == CompleteLines(ss[n].client.tail.content[..ss[n].client.ids.stored.fileOffset])
    ensures Increasing(cover) && forall m | m in cover :: Safe(ss[n], m)
  {
    RunKeeps(u, ss, es, n);
    hide Run, C.IdsInv, C.PipeInv, WalHistory.Inv, S.Inv, NetInv, Increasing, Safe, CompleteLines, Remainder, InOrder;
    cover := ss[n].client.durableCover;
    forall m | m in cover ensures Safe(ss[n], m) {
      KnownIsSafe(u, ss[n], m);
    }
  }

  /** Once the log on disk is empty, every message it ever held has been processed. */
  lemma EmptyLogMeansAllProcessed(u: C.Setup, ss: seq<State>, es: seq<Event>, n: nat, m: LogMessage)
    requires Run(u, ss, es) && PlainPeers(u, es) && n < |ss| && ss[n].client.log.w.records == []
    requires m in ss[n].client.log.known
    ensures m in ss[n].server.processed
  {
    RecoveredIsNotLost(u, ss, es, n, n, m);
  }
}
