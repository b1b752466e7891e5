/**
 The server process over any number of runs, message by message: it may receive any acceptable
 batch from any client at any time, crash between any two steps, and fail to persist. A restart
 loads what the text of the state file says.
 */
module ServerProcess {
  import opened Words
  import opened Protocol
  import opened Transport
  import opened Server
  import DedupStore
  import Text

  datatype Phase =
    | Waiting
    | Processing(batch: seq<LogMessage>, index: nat, previous: uint64)
    | Acking(batch: seq<LogMessage>)

  /**
   `processed` is everything ever printed. `exposed` counts how often each key was processed in the
   window: the server crashed, or persisting failed, before the watermark over it was confirmed.
   */
  datatype State = State(
    up: bool, phase: Phase, store: DedupStore.Store, processed: seq<LogMessage>, exposed: multiset<Key>)

  datatype Event =
    | Receive(batch: seq<LogMessage>)
    | Process
    | Confirm(ok: bool)
    | SendAck(id: uint64)
    | Crash
    | Start

  ghost predicate Init(s: State) {
    s == State(true, Waiting, DedupStore.Store(map[], map[]), [], multiset{})
  }

  // What has been processed since the watermark was last confirmed.
  function Window(phase: Phase): seq<LogMessage> {
    if phase.Processing? && phase.index <= |phase.batch| then Above(phase.batch[..phase.index], phase.previous) else []
  }

  ghost predicate Step(s: State, e: Event, s': State) {
    match e
    case Receive(batch) =>
      && s.up && s.phase.Waiting? && Acceptable(batch)
      && s' == s.(phase := Processing(batch, 0, DedupStore.Highest(s.store.memory, batch[0].clientId)))
    case Process =>
      && s.up && s.phase.Processing? && s.phase.index < |s.phase.batch|
      && var m := s.phase.batch[s.phase.index];
        s' == s.(phase := s.phase.(index := s.phase.index + 1),
                 processed := if m.id <= s.phase.previous then s.processed else s.processed + [m])
    case Confirm(ok) =>
      && s.up && s.phase.Processing? && s.phase.index == |s.phase.batch| > 0
      && var batch := s.phase.batch;
        && DedupStore.ConfirmStep(s.store, batch[0].clientId,
                                  LastOf(Above(batch, s.phase.previous), s.phase.previous), s'.store, ok)
        && s' == s.(store := s'.store, phase := if ok then Acking(batch) else Waiting,
                    exposed := if ok then s.exposed else s.exposed + Keys(Window(s.phase)))
    case SendAck(id) =>
      && s.up && s.phase.Acking? && s.phase.batch != [] && id == s.phase.batch[|s.phase.batch| - 1].id
      && s' == s.(phase := Waiting)
    case Crash =>
      s.up && s' == s.(up := false, phase := Waiting, exposed := s.exposed + Keys(Window(s.phase)))
    case Start =>
      && !s.up && DedupStore.Reloads(s.store.stored, s'.store.memory)
      && s' == s.(up := true, store := DedupStore.Store(s'.store.memory, s'.store.memory))
  }

  /**
   What the results below ask of the peers, event by event: client ids without white space, as
   generated ids are. The wire format allows others; SplitIdForgets shows what they do.
   */
  ghost predicate Plain(e: Event) {
    e.Receive? && e.batch != [] ==> Text.SpaceFree(e.batch[0].clientId)
  }

  // Disk is never behind memory, and the text format can carry both.
  ghost predicate StoredCovers(store: DedupStore.Store) {
    && DedupStore.Printable(store.memory) && DedupStore.Printable(store.stored)
    && forall c :: DedupStore.Highest(store.memory, c) <= DedupStore.Highest(store.stored, c)
  }

  ghost predicate PhaseInv(s: State) {
    match s.phase
    case Waiting => Bounded(s.processed, s.exposed, s.store.memory)
    case Processing(batch, index, previous) =>
      && Acceptable(batch) && index <= |batch| && Text.SpaceFree(batch[0].clientId)
      && previous == DedupStore.Highest(s.store.memory, batch[0].clientId)
      && exists before :: s.processed == before + Window(s.phase) && Bounded(before, s.exposed, s.store.memory)
    case Acking(batch) =>
      && Acceptable(batch) && Bounded(s.processed, s.exposed, s.store.memory)
      && batch[|batch| - 1].id <= DedupStore.Highest(s.store.memory, batch[0].clientId)
  }

  ghost predicate Inv(s: State) {
    if s.up then StoredCovers(s.store) && PhaseInv(s)
    else
      && s.phase.Waiting? && DedupStore.Printable(s.store.stored)
      && Bounded(s.processed, s.exposed, s.store.stored)
  }

  // ---------- One step ----------

  lemma ReceiveKeeps(s: State, batch: seq<LogMessage>, s': State)
    requires Inv(s) && Plain(Receive(batch)) && Step(s, Receive(batch), s')
    ensures Inv(s')
  {
    hide Bounded, DedupStore.Highest, Text.SpaceFree, StoredCovers, ValidMessage;
    assert s'.processed == s.processed + Window(s'.phase);
  }

  lemma ProcessKeeps(s: State, s': State)
    requires Inv(s) && Step(s, Process, s')
    ensures Inv(s')
  {
    hide Acceptable, Bounded, DedupStore.Highest, StoredCovers, Text.SpaceFree;
    var batch, index := s.phase.batch, s.phase.index;
    var before :| s.processed == before + Window(s.phase) && Bounded(before, s.exposed, s.store.memory);
    assert batch[..index + 1][..index] == batch[..index];
    if batch[index].id > s.phase.previous {
      assert s'.processed == before + Window(s'.phase);
    } else {
      assert Window(s'.phase) == Window(s.phase);
    }
  }

  lemma AcceptablePart(batch: seq<LogMessage>, index: nat)
    requires Acceptable(batch) && 0 < index <= |batch|
    ensures Acceptable(batch[..index]) && batch[..index][0] == batch[0]
  {
  }

  // Whatever part of a batch was processed, exposing it keeps the books.
  lemma ExposedKeeps(s: State, before: seq<LogMessage>, marks': DedupStore.Watermarks)
    requires s.phase.Processing? && Acceptable(s.phase.batch) && s.phase.index <= |s.phase.batch|
    requires s.phase.previous == DedupStore.Highest(s.store.memory, s.phase.batch[0].clientId)
    requires s.processed == before + Window(s.phase) && Bounded(before, s.exposed, s.store.memory)
    requires forall c :: DedupStore.Highest(s.store.memory, c) <= DedupStore.Highest(marks', c)
    ensures Bounded(s.processed, s.exposed + Keys(Window(s.phase)), marks')
  {
    hide DedupStore.Highest;
    if s.phase.index == 0 {
      assert Window(s.phase) == [] && before + [] == before;
      hide Keys, Acceptable;
      MarksGrow(before, s.exposed, s.store.memory, marks');
    } else {
      AcceptablePart(s.phase.batch, s.phase.index);
      hide Bounded, Acceptable, Keys, Above;
      BatchKeepsBounded(before, s.exposed, s.store.memory, s.phase.batch[..s.phase.index],
                        s.exposed + Keys(Window(s.phase)), marks');
    }
  }

  lemma MarksGrow(output: seq<LogMessage>, exposed: multiset<Key>,
                  marks: DedupStore.Watermarks, marks': DedupStore.Watermarks)
    requires Bounded(output, exposed, marks)
    requires forall c :: DedupStore.Highest(marks, c) <= DedupStore.Highest(marks', c)
    ensures Bounded(output, exposed + Keys([]), marks')
  {
    hide DedupStore.Highest;
    assert Keys([]) == multiset{};
    hide Keys;
    forall k: Key ensures Keys(output)[k] <= exposed[k] + Below(k, marks') {
      assert Keys(output)[k] <= exposed[k] + Below(k, marks);
    }
  }

  lemma ConfirmedStore(store: DedupStore.Store, clientId: Bytes, id: uint64, store': DedupStore.Store, ok: bool)
    requires StoredCovers(store) && DedupStore.ConfirmStep(store, clientId, id, store', ok)
    requires clientId != [] && Text.SpaceFree(clientId)
    ensures StoredCovers(store')
    ensures forall c :: DedupStore.Highest(store.memory, c) <= DedupStore.Highest(store'.memory, c)
    ensures ok ==> id <= DedupStore.Highest(store'.memory, clientId)
  {
    hide Text.SpaceFree;
  }

  lemma HasClientId(batch: seq<LogMessage>)
    requires Acceptable(batch)
    ensures batch != [] && batch[0].clientId != []
  {
    assert ValidMessage(batch[0]);
  }

  lemma MaxCovers(a: uint64, b: uint64)
    ensures a <= DedupStore.Max(a, b)
  {
  }

  lemma ConfirmKeepsStore(s: State, ok: bool, s': State)
    requires Inv(s) && Step(s, Confirm(ok), s')
    ensures s.up && s'.up && StoredCovers(s'.store)
    ensures forall c :: DedupStore.Highest(s.store.memory, c) <= DedupStore.Highest(s'.store.memory, c)
    ensures ok ==> var batch := s.phase.batch;
                   batch[|batch| - 1].id <= DedupStore.Highest(s'.store.memory, batch[0].clientId)
  {
    HasClientId(s.phase.batch);
    AboveLast(s.phase.batch, s.phase.previous);
    hide Bounded, Keys, DedupStore.Highest, StoredCovers, DedupStore.ConfirmStep, Above, DedupStore.Max, Acceptable;
    hide Text.SpaceFree;
    var batch, previous := s.phase.batch, s.phase.previous;
    MaxCovers(batch[|batch| - 1].id, previous);
    ConfirmedStore(s.store, batch[0].clientId, LastOf(Above(batch, previous), previous), s'.store, ok);
  }

  lemma ConfirmKeeps(s: State, ok: bool, s': State)
    requires Inv(s) && Step(s, Confirm(ok), s')
    ensures Inv(s')
  {
    ConfirmKeepsStore(s, ok, s');
    hide Bounded, Keys, DedupStore.Highest, StoredCovers, DedupStore.ConfirmStep, Above, Acceptable, Text.SpaceFree;
    var batch, marks := s.phase.batch, s.store.memory;
    var before :| s.processed == before + Window(s.phase) && Bounded(before, s.exposed, marks);
    assert batch[..|batch|] == batch;
    if ok {
      BatchKeepsBounded(before, s.exposed, marks, batch, s'.exposed, s'.store.memory);
    } else {
      ExposedKeeps(s, before, s'.store.memory);
    }
  }

  /**
   A confirmation is never rejected for a zero id or an empty client. If it succeeds, the
   client's watermark is the larger of the old one and the batch's last id; no other client's changes.
   Also after a failure, the watermark on disk is one of the two.
   */
  lemma ConfirmOutcome(s: State, ok: bool, s': State)
    requires Inv(s) && Step(s, Confirm(ok), s')
    ensures var batch, old', new' := s.phase.batch, DedupStore.Highest(s.store.memory, s.phase.batch[0].clientId),
                DedupStore.Highest(s'.store.memory, s.phase.batch[0].clientId);
      && batch[0].clientId != [] && LastOf(Above(batch, old'), old') != 0
      && new' == (if ok then DedupStore.Max(batch[|batch| - 1].id, old') else old')
      && DedupStore.Highest(s'.store.stored, batch[0].clientId)
         in {new', DedupStore.Highest(s.store.stored, batch[0].clientId), batch[|batch| - 1].id}
    ensures forall c | c != s.phase.batch[0].clientId ::
              && DedupStore.Highest(s'.store.memory, c) == DedupStore.Highest(s.store.memory, c)
              && DedupStore.Highest(s'.store.stored, c)
                 in {DedupStore.Highest(s.store.stored, c), DedupStore.Highest(s.store.memory, c)}
  {
    hide Bounded, Keys, StoredCovers, Above, Text.SpaceFree;
    var batch := s.phase.batch;
    AboveLast(batch, s.phase.previous);
    assert ValidMessage(batch[0]) && ValidMessage(batch[|batch| - 1]);
  }

  lemma CrashKeeps(s: State, s': State)
    requires Inv(s) && Step(s, Crash, s')
    ensures Inv(s')
  {
    hide Bounded, Keys, DedupStore.Highest, DedupStore.Printable, Acceptable, Above, Text.SpaceFree;
    if s.phase.Processing? {
      var before :| s.processed == before + Window(s.phase) && Bounded(before, s.exposed, s.store.memory);
      ExposedKeeps(s, before, s.store.stored);
    } else {
      MarksGrow(s.processed, s.exposed, s.store.memory, s.store.stored);
    }
  }

  lemma StartKeeps(s: State, s': State)
    requires Inv(s) && Step(s, Start, s')
    ensures Inv(s') && s'.store == DedupStore.Store(s.store.stored, s.store.stored)
  {
    hide Bounded, DedupStore.Highest, DedupStore.Printable, DedupStore.Reloads;
    DedupStore.ReloadIsExact(s.store.stored);
  }

  lemma StepKeeps(s: State, e: Event, s': State)
    requires Inv(s) && Plain(e) && Step(s, e, s')
    ensures Inv(s')
  {
    match e
    case Receive(batch) => ReceiveKeeps(s, batch, s');
    case Process => ProcessKeeps(s, s');
    case Confirm(ok) => ConfirmKeeps(s, ok, s');
    case SendAck(id) => hide Bounded, DedupStore.Highest, Acceptable, StoredCovers;
    case Crash => CrashKeeps(s, s');
    case Start => StartKeeps(s, s');
  }

  // ---------- Whole runs ----------

  ghost predicate Run(ss: seq<State>, es: seq<Event>) {
    && |ss| == |es| + 1 && Init(ss[0])
    && forall i | 0 <= i < |es| :: Step(ss[i], es[i], ss[i + 1])
  }

  ghost predicate AllPlain(es: seq<Event>) {
    forall i | 0 <= i < |es| :: Plain(es[i])
  }

  lemma InitHolds(s: State)
    requires Init(s)
    ensures Inv(s)
  {
  }

  lemma {:induction false} RunKeeps(ss: seq<State>, es: seq<Event>, n: nat)
    requires Run(ss, es) && AllPlain(es) && n < |ss|
    ensures Inv(ss[n])
  {
    hide Inv, Step, Plain, Init;
    if n == 0 {
      InitHolds(ss[0]);
    } else {
      RunKeeps(ss, es, n - 1);
      StepKeeps(ss[n - 1], es[n - 1], ss[n]);
    }
  }

  lemma InvMeansOnce(s: State, k: Key)
    requires Inv(s)
    ensures Keys(s.processed)[k] <= 1 + s.exposed[k]
  {
    hide DedupStore.Highest, StoredCovers, Acceptable;
    if s.phase.Processing? && s.up {
      WindowOnce(s, k);
    } else {
      hide Keys;
    }
  }

  /**
   Whatever arrives, in whatever order and however often: a message is processed at most once more
   than it was exposed.
   */
  lemma OnceMoreThanExposed(ss: seq<State>, es: seq<Event>, n: nat, k: Key)
    requires Run(ss, es) && AllPlain(es) && n < |ss|
    ensures Keys(ss[n].processed)[k] <= 1 + ss[n].exposed[k]
  {
    RunKeeps(ss, es, n);
    hide Inv, Keys;
    InvMeansOnce(ss[n], k);
  }

  lemma WindowOnce(s: State, k: Key)
    requires s.phase.Processing? && PhaseInv(s)
    ensures Keys(s.processed)[k] <= 1 + s.exposed[k]
  {
    hide DedupStore.Highest, ValidMessage;
    var before :| s.processed == before + Window(s.phase) && Bounded(before, s.exposed, s.store.memory);
    ExposedOnce(s, before, k);
  }

  lemma ExposedOnce(s: State, before: seq<LogMessage>, k: Key)
    requires s.phase.Processing? && Acceptable(s.phase.batch) && s.phase.index <= |s.phase.batch|
    requires s.phase.previous == DedupStore.Highest(s.store.memory, s.phase.batch[0].clientId)
    requires s.processed == before + Window(s.phase) && Bounded(before, s.exposed, s.store.memory)
    ensures Keys(s.processed)[k] <= 1 + s.exposed[k]
  {
    var window := Window(s.phase);
    KeysConcat(before, window);
    if s.phase.index > 0 {
      AcceptablePart(s.phase.batch, s.phase.index);
      KeysOfAbove(s.phase.batch[..s.phase.index], s.phase.previous);
    } else {
      assert window == [];
    }
    hide DedupStore.Highest, Acceptable, Above;
    assert Keys([]) == multiset{};
    hide Keys;
    assert Keys(before)[k] <= s.exposed[k] + Below(k, s.store.memory);
    assert Keys(window)[k] > 0 ==> k in Keys(window);
  }

  /** So equal keys at two places of the output are exposed ones. */
  lemma TwiceOnlyIfExposed(ss: seq<State>, es: seq<Event>, n: nat, i: nat, j: nat)
    requires Run(ss, es) && AllPlain(es) && n < |ss| && i < j < |ss[n].processed|
    requires KeyOf(ss[n].processed[i]) == KeyOf(ss[n].processed[j])
    ensures KeyOf(ss[n].processed[i]) in ss[n].exposed
  {
    OnceMoreThanExposed(ss, es, n, KeyOf(ss[n].processed[i]));
    TwoPlaces(ss[n].processed, i, j);
  }

  /** An ACK is sent only when the watermark over all of the batch is in memory and on disk. */
  lemma AckIsCovered(ss: seq<State>, es: seq<Event>, n: nat)
    requires Run(ss, es) && AllPlain(es) && n < |es| && es[n].SendAck?
    ensures ss[n].phase.Acking?
    ensures var batch, store := ss[n].phase.batch, ss[n].store;
      && batch != [] && es[n].id == batch[|batch| - 1].id
      && es[n].id <= DedupStore.Highest(store.memory, batch[0].clientId)
      && es[n].id <= DedupStore.Highest(store.stored, batch[0].clientId)
  {
    RunKeeps(ss, es, n);
    assert Step(ss[n], es[n], ss[n + 1]);
    hide Bounded, DedupStore.Highest, DedupStore.Printable;
  }

  /** Without a crash or a failed write inside the window nothing is exposed, so nothing is processed twice. */
  lemma {:induction false} ExactlyOnceWithoutFaults(ss: seq<State>, es: seq<Event>, n: nat)
    requires Run(ss, es) && AllPlain(es) && n < |ss|
    requires forall i | 0 <= i < n :: es[i] != Confirm(false) && (es[i].Crash? ==> Window(ss[i].phase) == [])
    ensures ss[n].exposed == multiset{}
    ensures forall i, j | 0 <= i < j < |ss[n].processed| :: KeyOf(ss[n].processed[i]) != KeyOf(ss[n].processed[j])
  {
    hide Plain;
    if n > 0 {
      ExactlyOnceWithoutFaults(ss, es, n - 1);
      assert Step(ss[n - 1], es[n - 1], ss[n]);
      assert Keys([]) == multiset{};
      hide DedupStore.ConfirmStep, Above, DedupStore.Reloads;
    }
    hide Step, Keys;
    forall i, j | 0 <= i < j < |ss[n].processed| && KeyOf(ss[n].processed[i]) == KeyOf(ss[n].processed[j])
      ensures false
    {
      TwiceOnlyIfExposed(ss, es, n, i, j);
    }
  }

  /** A restart remembers the watermarks it left if and only if their text form can carry them. */
  lemma RestartRemembers(s: State, s': State)
    requires Step(s, Start, s')
    ensures s'.store.memory == s.store.stored <==> DedupStore.Printable(s.store.stored)
  {
    hide DedupStore.Reloads, DedupStore.Printable;
    DedupStore.ReloadIsExact(s.store.stored);
  }

  // ---------- Whole batches ----------

  // Some steps one after the other, from `s`.
  ghost predicate Path(s: State, ss: seq<State>, es: seq<Event>) {
    && |ss| == |es| + 1 && ss[0] == s
    && forall i | 0 <= i < |es| :: Step(ss[i], es[i], ss[i + 1])
  }

  lemma PathGrows(s: State, ss: seq<State>, es: seq<Event>, e: Event, s': State)
    requires Path(s, ss, es) && Step(ss[|es|], e, s')
    ensures Path(s, ss + [s'], es + [e])
  {
    hide Step;
    var ss', es' := ss + [s'], es + [e];
    forall i | 0 <= i < |es'| ensures Step(ss'[i], es'[i], ss'[i + 1]) {
      assert i < |es| ==> ss'[i] == ss[i] && ss'[i + 1] == ss[i + 1] && es'[i] == es[i];
    }
  }

  // The state in which `index` messages of the batch have been gone through.
  function Midway(s: State, batch: seq<LogMessage>, index: nat): State
    requires batch != [] && index <= |batch|
  {
    var previous := DedupStore.Highest(s.store.memory, batch[0].clientId);
    s.(phase := Processing(batch, index, previous), processed := s.processed + Above(batch[..index], previous))
  }

  lemma MidwayStep(s: State, batch: seq<LogMessage>, index: nat)
    requires s.up && index < |batch|
    ensures Step(Midway(s, batch, index), Process, Midway(s, batch, index + 1))
  {
    hide DedupStore.Highest;
    var previous := DedupStore.Highest(s.store.memory, batch[0].clientId);
    assert batch[..index + 1][..index] == batch[..index];
    var above := Above(batch[..index], previous);
    assert Above(batch[..index + 1], previous) == above + if batch[index].id <= previous then [] else [batch[index]];
    assert s.processed + (above + [batch[index]]) == s.processed + above + [batch[index]];
    assert above + [] == above;
  }

  lemma {:induction false} GoesThrough(s: State, batch: seq<LogMessage>, index: nat)
    returns (ss: seq<State>, es: seq<Event>)
    requires s.up && s.phase.Waiting? && Acceptable(batch) && index <= |batch|
    ensures Path(s, ss, es) && es != [] && ss[|es|] == Midway(s, batch, index)
    ensures forall i | 0 <= i < |es| :: es[i] == Receive(batch) || es[i] == Process
  {
    hide Step, Acceptable;
    if index == 0 {
      ReceivesAll(s, batch);
      ss, es := [s, Midway(s, batch, 0)], [Receive(batch)];
    } else {
      ss, es := GoesThrough(s, batch, index - 1);
      MidwayStep(s, batch, index - 1);
      PathGrows(s, ss, es, Process, Midway(s, batch, index));
      ss, es := ss + [Midway(s, batch, index)], es + [Process];
    }
  }

  lemma ReceivesAll(s: State, batch: seq<LogMessage>)
    requires s.up && s.phase.Waiting? && Acceptable(batch)
    ensures batch != [] && Step(s, Receive(batch), Midway(s, batch, 0))
  {
    hide DedupStore.Highest;
    assert s.processed + [] == s.processed;
  }

  // What handling a batch makes of the state, if the watermark's confirmation makes `store` of the store.
  ghost function Handled(s: State, batch: seq<LogMessage>, store: DedupStore.Store, ok: bool): State
    requires batch != []
  {
    var above := Above(batch, DedupStore.Highest(s.store.memory, batch[0].clientId));
    State(s.up, if ok then Acking(batch) else Waiting, store, s.processed + above,
          if ok then s.exposed else s.exposed + Keys(above))
  }

  lemma ConfirmsAll(s: State, batch: seq<LogMessage>, store: DedupStore.Store, ok: bool)
    requires s.up && batch != []
    requires var previous := DedupStore.Highest(s.store.memory, batch[0].clientId);
      DedupStore.ConfirmStep(s.store, batch[0].clientId, LastOf(Above(batch, previous), previous), store, ok)
    ensures Step(Midway(s, batch, |batch|), Confirm(ok), Handled(s, batch, store, ok))
  {
    hide DedupStore.ConfirmStep, DedupStore.Highest, Above, Keys, LastOf, Acceptable, DedupStore.Reloads;
    var mid, after := Midway(s, batch, |batch|), Handled(s, batch, store, ok);
    assert batch[..|batch|] == batch;
    assert Window(mid.phase) == Above(batch, mid.phase.previous);
    assert after == mid.(store := store, phase := if ok then Acking(batch) else Waiting,
                         exposed := if ok then s.exposed else s.exposed + Keys(Window(mid.phase)));
    hide Midway, Handled, Window;
  }

  /** Handling a whole batch, message by message and then its confirmation, is a run of the process. */
  lemma HandlingIsRun(s: State, batch: seq<LogMessage>, store: DedupStore.Store, ok: bool)
    returns (ss: seq<State>, es: seq<Event>)
    requires s.up && s.phase.Waiting? && Acceptable(batch)
    requires var previous := DedupStore.Highest(s.store.memory, batch[0].clientId);
      DedupStore.ConfirmStep(s.store, batch[0].clientId, LastOf(Above(batch, previous), previous), store, ok)
    ensures Path(s, ss, es) && es != [] && ss[|es|] == Handled(s, batch, store, ok)
    ensures forall i | 0 <= i < |es| :: es[i] in {Receive(batch), Process, Confirm(ok)}
  {
    ReceivesAll(s, batch);
    hide DedupStore.ConfirmStep, DedupStore.Highest, Above, Keys, Acceptable, Step, Midway, Handled;
    ss, es := GoesThrough(s, batch, |batch|);
    ConfirmsAll(s, batch, store, ok);
    PathGrows(s, ss, es, Confirm(ok), Handled(s, batch, store, ok));
    ss, es := ss + [Handled(s, batch, store, ok)], es + [Confirm(ok)];
  }

  /** So is being killed while the watermark over the batch is being persisted: all of it has been printed. */
  lemma CutHandlingIsRun(s: State, batch: seq<LogMessage>, store: DedupStore.Store)
    returns (ss: seq<State>, es: seq<Event>)
    requires s.up && s.phase.Waiting? && Acceptable(batch)
    requires var previous := DedupStore.Highest(s.store.memory, batch[0].clientId);
      DedupStore.ConfirmStep(s.store, batch[0].clientId, LastOf(Above(batch, previous), previous), store, false)
    ensures batch != [] && Path(s, ss, es) && !ss[|es|].up && ss[|es|].store == store
    ensures ss[|es|].processed == s.processed + Above(batch, DedupStore.Highest(s.store.memory, batch[0].clientId))
  {
    ReceivesAll(s, batch);
    hide DedupStore.ConfirmStep, DedupStore.Highest, Above, Keys, Acceptable;
    ss, es := HandlingIsRun(s, batch, store, false);
    var handled := Handled(s, batch, store, false);
    var down := handled.(up := false, exposed := handled.exposed + Keys(Window(handled.phase)));
    assert Step(handled, Crash, down);
    hide Step;
    PathGrows(s, ss, es, Crash, down);
    ss, es := ss + [down], es + [Crash];
  }

  // ---------- When a message can be printed again ----------

  // The watermark that will decide.
  function Mark(s: State, c: Bytes): uint64 {
    DedupStore.Highest(if s.up then s.store.memory else s.store.stored, c)
  }

  lemma MarkGrows(s: State, e: Event, s': State, c: Bytes)
    requires Inv(s) && Plain(e) && Step(s, e, s')
    ensures Mark(s, c) <= Mark(s', c)
  {
    hide Bounded, Keys, DedupStore.Printable, DedupStore.Reloads, Text.SpaceFree;
    match e
    case Confirm(ok) =>
      ConfirmOutcome(s, ok, s');
      hide Above, DedupStore.ConfirmStep, DedupStore.Highest;
    case Start => StartKeeps(s, s');
    case _ => hide DedupStore.Highest, Above;
  }

  // A run that goes on from `s`.
  ghost predicate Continues(s: State, ss: seq<State>, es: seq<Event>) {
    Path(s, ss, es) && AllPlain(es)
  }

  lemma {:induction false} ContinuationKeeps(s: State, ss: seq<State>, es: seq<Event>, n: nat, c: Bytes)
    requires Inv(s) && Continues(s, ss, es) && n < |ss|
    ensures Inv(ss[n]) && Mark(s, c) <= Mark(ss[n], c)
  {
    hide Inv, Step, Plain, Mark;
    if n > 0 {
      ContinuationKeeps(s, ss, es, n - 1, c);
      StepKeeps(ss[n - 1], es[n - 1], ss[n]);
      MarkGrows(ss[n - 1], es[n - 1], ss[n], c);
    }
  }

  // The last step of the run prints a message with this key.
  ghost predicate EndsPrinting(ss: seq<State>, es: seq<Event>, k: Key) {
    && 0 < |es| == |ss| - 1
    && exists m :: KeyOf(m) == k && ss[|es|].processed == ss[|es| - 1].processed + [m]
  }

  ghost predicate CanPrint(s: State, k: Key) {
    exists ss: seq<State>, es :: Continues(s, ss, es) && EndsPrinting(ss, es, k)
  }

  lemma PrintsAbove(s: State, e: Event, s': State, m: LogMessage)
    requires Inv(s) && Step(s, e, s') && s'.processed == s.processed + [m]
    ensures m.id > Mark(s, m.clientId)
  {
    hide Bounded, Keys, DedupStore.Highest, DedupStore.ConfirmStep, Above, StoredCovers;
    assert |s'.processed| != |s.processed|;
    assert e.Process?;
    var batch, index := s.phase.batch, s.phase.index;
    assert s'.processed[|s.processed|] == batch[index] == m;
    SameClient(batch, index);
  }

  lemma SameClient(batch: seq<LogMessage>, index: nat)
    requires Acceptable(batch) && index < |batch|
    ensures batch[index].clientId == batch[0].clientId
  {
  }

  /** A waiting server can come to print a message, again or not, iff it is above its client's watermark. */
  lemma PrintableIffAbove(s: State, m: LogMessage)
    requires Inv(s) && s.up && s.phase.Waiting? && Acceptable([m]) && Text.SpaceFree(m.clientId)
    ensures CanPrint(s, KeyOf(m)) <==> m.id > DedupStore.Highest(s.store.memory, m.clientId)
  {
    if m.id > DedupStore.Highest(s.store.memory, m.clientId) {
      var ss, es := PrintsNow(s, m);
      assert CanPrint(s, KeyOf(m));
    }
    hide Inv, Step, DedupStore.Highest, Acceptable, Text.SpaceFree, Plain;
    forall ss: seq<State>, es | Continues(s, ss, es) && EndsPrinting(ss, es, KeyOf(m))
      ensures m.id > DedupStore.Highest(s.store.memory, m.clientId)
    {
      var n := |es| - 1;
      var x :| KeyOf(x) == KeyOf(m) && ss[|es|].processed == ss[n].processed + [x];
      ContinuationKeeps(s, ss, es, n, m.clientId);
      PrintsAbove(ss[n], es[n], ss[n + 1], x);
    }
  }

  lemma PrintsNow(s: State, m: LogMessage) returns (ss: seq<State>, es: seq<Event>)
    requires s.up && s.phase.Waiting? && Acceptable([m]) && Text.SpaceFree(m.clientId)
    requires m.id > DedupStore.Highest(s.store.memory, m.clientId)
    ensures Continues(s, ss, es) && EndsPrinting(ss, es, KeyOf(m))
  {
    hide DedupStore.Highest, Text.SpaceFree, Acceptable;
    var previous := DedupStore.Highest(s.store.memory, m.clientId);
    var s1 := s.(phase := Processing([m], 0, previous));
    var s2 := s1.(phase := Processing([m], 1, previous), processed := s.processed + [m]);
    ss, es := [s, s1, s2], [Receive([m]), Process];
    assert Step(s, es[0], s1) && Step(s1, es[1], s2);
  }

  lemma Extends(ss: seq<State>, es: seq<Event>, e: Event, s': State)
    requires Run(ss, es) && Step(ss[|es|], e, s')
    ensures Run(ss + [s'], es + [e])
  {
    hide Init, Step;
    var ss', es' := ss + [s'], es + [e];
    forall i | 0 <= i < |es'| ensures Step(ss'[i], es'[i], ss'[i + 1]) {
      assert i < |es| ==> ss'[i] == ss[i] && ss'[i + 1] == ss[i + 1] && es'[i] == es[i];
    }
  }

  // A message above its watermark is received and printed.
  lemma Prints(ss: seq<State>, es: seq<Event>, m: LogMessage) returns (ss': seq<State>, es': seq<Event>)
    requires Run(ss, es) && Acceptable([m])
    requires var s := ss[|es|];
      s.up && s.phase.Waiting? && DedupStore.Highest(s.store.memory, m.clientId) < m.id
    ensures Run(ss', es')
    ensures var s := ss[|es|];
      ss'[|es'|] == s.(phase := Processing([m], 1, DedupStore.Highest(s.store.memory, m.clientId)),
                       processed := s.processed + [m])
  {
    hide Acceptable, Run, DedupStore.Highest;
    RunLength(ss, es);
    var s1 := ss[|es|].(phase := Processing([m], 0, DedupStore.Highest(ss[|es|].store.memory, m.clientId)));
    var s2 := s1.(phase := s1.phase.(index := 1), processed := s1.processed + [m]);
    Extends(ss, es, Receive([m]), s1);
    Extends(ss + [s1], es + [Receive([m])], Process, s2);
    ss', es' := ss + [s1] + [s2], es + [Receive([m])] + [Process];
  }

  lemma RunLength(ss: seq<State>, es: seq<Event>)
    requires Run(ss, es)
    ensures |ss| == |es| + 1
  {
  }

  lemma StartOnce() returns (ss: seq<State>, es: seq<Event>)
    ensures Run(ss, es) && ss[|es|] == State(true, Waiting, DedupStore.Store(map[], map[]), [], multiset{})
  {
    ss, es := [State(true, Waiting, DedupStore.Store(map[], map[]), [], multiset{})], [];
  }

  // A crash and a restart that loads `loaded`.
  lemma Restarts(ss: seq<State>, es: seq<Event>, loaded: DedupStore.Watermarks)
    returns (ss': seq<State>, es': seq<Event>)
    requires Run(ss, es) && ss[|es|].up && DedupStore.Reloads(ss[|es|].store.stored, loaded)
    ensures Run(ss', es')
    ensures var s := ss[|es|];
      ss'[|es'|] == State(true, Waiting, DedupStore.Store(loaded, loaded),
                          s.processed, s.exposed + Keys(Window(s.phase)))
  {
    hide Run, Window, Keys, DedupStore.Reloads;
    RunLength(ss, es);
    var s := ss[|es|];
    var down := s.(up := false, phase := Waiting, exposed := s.exposed + Keys(Window(s.phase)));
    Extends(ss, es, Crash, down);
    var again := down.(up := true, store := DedupStore.Store(loaded, loaded));
    Extends(ss + [down], es + [Crash], Start, again);
    ss', es' := ss + [down] + [again], es + [Crash] + [Start];
  }

  lemma CrashesInWindow(m: LogMessage) returns (ss: seq<State>, es: seq<Event>)
    requires Acceptable([m]) && m.id > 0
    ensures Run(ss, es)
    ensures ss[|es|] == State(true, Waiting, DedupStore.Store(map[], map[]), [m], multiset{KeyOf(m)})
  {
    WindowOfOne(m);
    NothingReloads(m.clientId);
    hide *;
    ss, es := StartOnce();
    ss, es := Prints(ss, es, m);
    assert [] + [m] == [m];
    ss, es := Restarts(ss, es, map[]);
  }

  /**
   Strict exactly-once fails: a crash between printing a message and persisting the watermark
   makes the server print it again when the client resends it.
   */
  lemma TwiceInTheWindow(m: LogMessage) returns (ss: seq<State>, es: seq<Event>)
    requires Acceptable([m])
    ensures Run(ss, es) && ss[|es|].processed == [m, m] && ss[|es|].exposed == multiset{KeyOf(m)}
  {
    assert ValidMessage([m][0]);
    NothingReloads(m.clientId);
    hide *;
    ss, es := CrashesInWindow(m);
    ss, es := Prints(ss, es, m);
    assert [m] + [m] == [m, m];
  }

  lemma NothingReloads(c: Bytes)
    ensures DedupStore.Reloads(map[], map[]) && DedupStore.Highest(map[], c) == 0
  {
    DedupStore.ReloadIsExact(map[]);
  }

  lemma WindowOfOne(m: LogMessage)
    requires m.id > 0
    ensures Keys(Window(Processing([m], 1, 0))) == multiset{KeyOf(m)}
    ensures Above([m], 0) == [m]
  {
    AboveOne(m);
    hide Above, KeyOf;
    assert [m][..1] == [m] && [m][..0] == [];
    assert Keys([m]) == Keys([m][..0]) + multiset{KeyOf(m)};
    assert Keys([m][..0]) == multiset{};
  }

  lemma AboveOne(m: LogMessage)
    requires m.id > 0
    ensures Above([m], 0) == [m]
  {
    assert [m][..0] == [];
    assert Above([m], 0) == Above([m][..0], 0) + [m];
  }

  lemma ConfirmsOne(m: LogMessage)
    requires ValidMessage(m)
    ensures var marks := map[m.clientId := m.id];
      var acking := State(true, Acking([m]), DedupStore.Store(marks, marks), [m], multiset{});
      && Step(State(true, Processing([m], 1, 0), DedupStore.Store(map[], map[]), [m], multiset{}),
              Confirm(true), acking)
      && Step(acking, SendAck(m.id), acking.(phase := Waiting))
  {
    WindowOfOne(m);
    hide Above, Keys;
  }

  // The watermark over the one printed message is persisted and acknowledged.
  lemma Acknowledges(ss: seq<State>, es: seq<Event>, m: LogMessage) returns (ss': seq<State>, es': seq<Event>)
    requires Run(ss, es) && ValidMessage(m)
    requires ss[|es|] == State(true, Processing([m], 1, 0), DedupStore.Store(map[], map[]), [m], multiset{})
    ensures Run(ss', es')
    ensures var marks := map[m.clientId := m.id];
      ss'[|es'|] == State(true, Waiting, DedupStore.Store(marks, marks), [m], multiset{})
  {
    ConfirmsOne(m);
    hide Run, Step, ValidMessage, Keys;
    RunLength(ss, es);
    var marks := map[m.clientId := m.id];
    var acking := State(true, Acking([m]), DedupStore.Store(marks, marks), [m], multiset{});
    Extends(ss, es, Confirm(true), acking);
    var waiting := acking.(phase := Waiting);
    Extends(ss + [acking], es + [Confirm(true)], SendAck(m.id), waiting);
    ss', es' := ss + [acking] + [waiting], es + [Confirm(true)] + [SendAck(m.id)];
  }

  /**
   Why client ids must be plain: with one that is not, a restart that nothing has gone wrong before
   forgets the client, so its message is processed twice unexposed, and credits another client with
   ids it has never sent.
   */
  lemma SplitIdForgets(m: LogMessage, first: Bytes, id: uint64, other: Bytes) returns (ss: seq<State>, es: seq<Event>)
    requires Acceptable([m]) && m.clientId == DedupStore.SplitId(first, id, other) && id >= 1
    requires first != [] && Text.SpaceFree(first) && other != [] && Text.SpaceFree(other) && first != other
    ensures Run(ss, es) && ss[|es|].processed == [m, m] && ss[|es|].exposed == multiset{}
    ensures DedupStore.Highest(ss[|es|].store.memory, first) == id
  {
    assert ValidMessage([m][0]);
    DedupStore.SplitRecord(first, id, other, m.id);
    SplitIsLonger(first, id, other);
    ss, es := StartOnce();
    hide Acceptable, Run, DedupStore.SplitId, DedupStore.Reloads, Text.SpaceFree, ValidMessage;
    ss, es := Prints(ss, es, m);
    ss, es := Acknowledges(ss, es, m);
    var loaded := map[first := id, other := m.id];
    assert Keys([]) == multiset{};
    hide Keys;
    ss, es := Restarts(ss, es, loaded);
    assert DedupStore.Highest(loaded, m.clientId) == 0;
    ss, es := Prints(ss, es, m);
  }

  lemma SplitIsLonger(first: Bytes, id: uint64, other: Bytes)
    ensures DedupStore.SplitId(first, id, other) !in {first, other}
  {
    assert |DedupStore.SplitId(first, id, other)| > |first| + |other|;
  }
}
