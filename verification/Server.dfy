/** The server's loop: skip what is known, process the rest, persist the watermark, acknowledge. */
module Server {
  import opened Words
  import opened Protocol
  import opened Transport
  import opened SocketIO
  import Persistence
  import Text
  import DedupStore

  datatype Metrics = Metrics(batches: nat, received: nat, processed: nat, duplicates: nat)

  datatype Failure = Network(network: NetError) | Store(store: DedupStore.DedupError)

  type Key = (Bytes, uint64)

  function KeyOf(m: LogMessage): Key {
    (m.clientId, m.id)
  }

  function LastOf(ms: seq<LogMessage>, otherwise: uint64): uint64 {
    if ms == [] then otherwise else ms[|ms| - 1].id
  }

  lemma {:induction false} AboveIncreases(ms: seq<LogMessage>, mark: uint64)
    requires Increasing(ms)
    ensures Increasing(Above(ms, mark))
  {
    if ms != [] {
      var init, last := ms[..|ms| - 1], ms[|ms| - 1];
      AboveIncreases(init, mark);
      AboveMembers(init, mark);
      var above := Above(init, mark);
      forall i | 0 <= i < |above| ensures above[i].id < last.id {
        assert above[i] in above;
      }
    }
  }

  // The new watermark: the last id, unless the whole batch is at or below the old one.
  lemma {:induction false} AboveLast(ms: seq<LogMessage>, mark: uint64)
    requires Increasing(ms) && ms != []
    ensures LastOf(Above(ms, mark), mark) == DedupStore.Max(ms[|ms| - 1].id, mark)
  {
    if ms[|ms| - 1].id <= mark {
      AboveNone(ms, mark);
    }
  }

  /** How often each (client, id) has been processed. */
  ghost function Keys(ms: seq<LogMessage>): multiset<Key> {
    if ms == [] then multiset{} else Keys(ms[..|ms| - 1]) + multiset{KeyOf(ms[|ms| - 1])}
  }

  lemma {:induction false} KeysConcat(a: seq<LogMessage>, b: seq<LogMessage>)
    ensures Keys(a + b) == Keys(a) + Keys(b)
  {
    if b == [] {
      assert a + b == a;
    } else {
      assert (a + b)[..|a + b| - 1] == a + b[..|b| - 1];
      KeysConcat(a, b[..|b| - 1]);
    }
  }

  lemma {:induction false} KeysOnce(ms: seq<LogMessage>, clientId: Bytes)
    requires Increasing(ms) && forall i | 0 <= i < |ms| :: ms[i].clientId == clientId
    ensures forall k: Key :: Keys(ms)[k] <= 1
    ensures forall k: Key | k in Keys(ms) :: k.0 == clientId && exists i | 0 <= i < |ms| :: ms[i].id == k.1
  {
    if ms != [] {
      var init, last := ms[..|ms| - 1], ms[|ms| - 1];
      KeysOnce(init, clientId);
      assert ms[|ms| - 1].id == last.id;
    }
  }

  // What is above the mark in a batch is there once.
  lemma KeysOfAbove(ms: seq<LogMessage>, mark: uint64)
    requires Acceptable(ms)
    ensures forall k: Key :: Keys(Above(ms, mark))[k] <= 1
    ensures forall k: Key | k in Keys(Above(ms, mark)) ::
              k.0 == ms[0].clientId && mark < k.1 <= ms[|ms| - 1].id
  {
    AboveMembers(ms, mark);
    AboveIncreases(ms, mark);
    hide Keys, ValidMessage;
    var above := Above(ms, mark);
    assert forall i | 0 <= i < |above| :: above[i] in above;
    KeysOnce(above, ms[0].clientId);
    hide Above;
    assert forall i | 0 <= i < |ms| :: ms[i].id <= ms[|ms| - 1].id;
  }

  // One processing of an id is accounted for by the watermark over it.
  function Below(k: Key, marks: DedupStore.Watermarks): nat {
    if k.1 <= DedupStore.Highest(marks, k.0) then 1 else 0
  }

  /**
   A (client, id) has been processed at most once for the watermark, if that covers it, and once
   more for every time it was exposed.
   */
  ghost predicate Bounded(output: seq<LogMessage>, exposed: multiset<Key>, marks: DedupStore.Watermarks) {
    forall k: Key :: Keys(output)[k] <= exposed[k] + Below(k, marks)
  }

  lemma BatchKeepsBounded(output: seq<LogMessage>, exposed: multiset<Key>, marks: DedupStore.Watermarks,
                          ms: seq<LogMessage>, exposed': multiset<Key>, marks': DedupStore.Watermarks)
    requires Acceptable(ms) && Bounded(output, exposed, marks)
    requires forall c :: DedupStore.Highest(marks, c) <= DedupStore.Highest(marks', c)
    requires var above := Above(ms, DedupStore.Highest(marks, ms[0].clientId));
      || (exposed' == exposed && DedupStore.Highest(marks', ms[0].clientId) >= ms[|ms| - 1].id)
      || exposed' == exposed + Keys(above)
    ensures Bounded(output + Above(ms, DedupStore.Highest(marks, ms[0].clientId)), exposed', marks')
  {
    var mark := DedupStore.Highest(marks, ms[0].clientId);
    var above := Above(ms, mark);
    KeysOfAbove(ms, mark);
    KeysConcat(output, above);
    hide Keys, Above, Acceptable, DedupStore.Highest, Below;
    forall k: Key ensures Keys(output + above)[k] <= exposed'[k] + Below(k, marks') {
      assert Keys(output)[k] <= exposed[k] + Below(k, marks);
      assert Keys(above)[k] > 0 ==> k in Keys(above);
      BelowGrows(k, ms[0].clientId, ms[|ms| - 1].id, marks, marks');
    }
  }

  lemma BelowGrows(k: Key, clientId: Bytes, id: uint64, marks: DedupStore.Watermarks, marks': DedupStore.Watermarks)
    requires DedupStore.Highest(marks, k.0) <= DedupStore.Highest(marks', k.0)
    ensures Below(k, marks) <= Below(k, marks')
    ensures k.0 == clientId && DedupStore.Highest(marks, clientId) < k.1 ==> Below(k, marks) == 0
    ensures k.0 == clientId && k.1 <= id <= DedupStore.Highest(marks', clientId) ==> Below(k, marks') == 1
  {
    hide DedupStore.Highest;
  }

  /** So one processing more than exposures is the most there can be. */
  lemma {:induction false} TwoPlaces(ms: seq<LogMessage>, i: nat, j: nat)
    requires i < j < |ms| && KeyOf(ms[i]) == KeyOf(ms[j])
    ensures Keys(ms)[KeyOf(ms[i])] >= 2
  {
    var init := ms[..|ms| - 1];
    if j < |ms| - 1 {
      TwoPlaces(init, i, j);
    } else {
      OnePlace(init, i);
    }
  }

  lemma {:induction false} OnePlace(ms: seq<LogMessage>, i: nat)
    requires i < |ms|
    ensures Keys(ms)[KeyOf(ms[i])] >= 1
  {
    if i < |ms| - 1 {
      OnePlace(ms[..|ms| - 1], i);
    }
  }

  // The ACK frames of some batches.
  function Acks(batches: seq<seq<LogMessage>>): Bytes {
    if batches == [] then []
    else Acks(batches[..|batches| - 1]) + EncodeAck(LastOf(batches[|batches| - 1], 0))
  }

  lemma ConfirmRaises(s: DedupStore.Store, clientId: Bytes, last: uint64, s': DedupStore.Store)
    requires clientId != [] && last > 0
    requires DedupStore.ConfirmStep(s, clientId, DedupStore.Max(last, DedupStore.Highest(s.memory, clientId)), s', true)
    ensures s'.memory == DedupStore.Raised(s.memory, clientId, last)
    ensures last <= DedupStore.Highest(s'.memory, clientId)
    ensures forall c :: DedupStore.Highest(s.memory, c) <= DedupStore.Highest(s'.memory, c)
  {
  }

  /** The watermarks after some batches, one after the other. */
  function MarksAfter(batches: seq<seq<LogMessage>>, marks: DedupStore.Watermarks): DedupStore.Watermarks {
    if batches == [] then marks
    else
      var before, last := MarksAfter(batches[..|batches| - 1], marks), batches[|batches| - 1];
      if last == [] then before else DedupStore.Raised(before, last[0].clientId, last[|last| - 1].id)
  }

  /** What is printed of them: of each batch, what is above its client's watermark by then. */
  function Printed(batches: seq<seq<LogMessage>>, marks: DedupStore.Watermarks): seq<LogMessage> {
    if batches == [] then []
    else
      var before, last := MarksAfter(batches[..|batches| - 1], marks), batches[|batches| - 1];
      Printed(batches[..|batches| - 1], marks)
      + if last == [] then [] else Above(last, DedupStore.Highest(before, last[0].clientId))
  }

  // ---------- What a crash in the middle of a batch leaves ----------

  /** The messages of `output` that had been printed when the disk state number `i` came about. */
  function PrintedBy(output: seq<LogMessage>, printedAt: seq<nat>, i: nat): seq<LogMessage>
    requires |printedAt| == |output|
  {
    if output == [] then []
    else
      var n := |output| - 1;
      PrintedBy(output[..n], printedAt[..n], i) + if printedAt[n] <= i then [output[n]] else []
  }

  lemma {:induction false} AllPrintedBy(output: seq<LogMessage>, printedAt: seq<nat>, i: nat)
    requires |printedAt| == |output| && forall k | 0 <= k < |output| :: printedAt[k] <= i
    ensures PrintedBy(output, printedAt, i) == output
  {
    if output != [] {
      AllPrintedBy(output[..|output| - 1], printedAt[..|output| - 1], i);
    }
  }

  // What a server that starts now loads.
  ghost predicate Loads(files: Persistence.Files, path: Persistence.Path, loaded: DedupStore.Watermarks) {
    if path in files then DedupStore.Parse(files[path]) == Some(loaded) else loaded == map[]
  }

  /**
   A server that starts over these files skips a message of the batch only if it is among the
   printed ones, or at or below the watermark that was there before the batch. Other clients' ids
   may not be such that the file cannot carry them.
   */
  ghost predicate SkipsOnlyPrinted(files: Persistence.Files, path: Persistence.Path, s: DedupStore.Store,
                                   ms: seq<LogMessage>, printed: seq<LogMessage>)
    requires ms != []
  {
    var c := ms[0].clientId;
    DedupStore.Printable(s.memory) && DedupStore.Printable(s.stored) && Text.SpaceFree(c) ==>
      forall loaded, i | Loads(files, path, loaded) && 0 <= i < |ms| && ms[i].id <= DedupStore.Highest(loaded, c) ::
        ms[i] in printed || ms[i].id <= DedupStore.Max(DedupStore.Highest(s.memory, c), DedupStore.Highest(s.stored, c))
  }

  // What a server may load from the file that a cut confirmation leaves.
  lemma CutLoads(files: Persistence.Files, path: Persistence.Path, s: DedupStore.Store, c: Bytes, id: uint64,
                 loaded: DedupStore.Watermarks)
    requires DedupStore.CutConfirm(files, path, s, c, id) && c != [] && id >= 1
    requires DedupStore.Printable(s.memory) && DedupStore.Printable(s.stored) && Text.SpaceFree(c)
    requires Loads(files, path, loaded)
    ensures loaded == s.stored || loaded == s.memory[c := id]
  {
    hide DedupStore.Parse, DedupStore.Holds, Text.SpaceFree, DedupStore.Highest;
    assert DedupStore.Printable(s.memory[c := id]);
    hide DedupStore.Printable;
    var s' :| DedupStore.ConfirmStep(s, c, id, s', false) && DedupStore.Keeps(files, path, s'.stored);
    if path in files {
      DedupStore.HeldIsReloaded(files[path], s'.stored, loaded);
    }
  }

  lemma {:induction false} AboveFirst(ms: seq<LogMessage>, mark: uint64, i: nat)
    requires Acceptable(ms) && i < |ms|
    ensures ms[0].clientId != [] && ms[|ms| - 1].id >= 1 && ms[i].id <= ms[|ms| - 1].id
    ensures LastOf(Above(ms, mark), mark) == DedupStore.Max(ms[|ms| - 1].id, mark)
    ensures ms[i].id <= mark || ms[i] in Above(ms, mark)
  {
    assert ValidMessage(ms[0]) && ValidMessage(ms[|ms| - 1]);
    hide ValidMessage, Above;
    AboveLast(ms, mark);
    AboveMembers(ms, mark);
    assert ms[i] in ms;
  }

  lemma CutSkipsOnlyPrinted(files: Persistence.Files, path: Persistence.Path, s: DedupStore.Store,
                            ms: seq<LogMessage>, printed: seq<LogMessage>)
    requires Acceptable(ms)
    requires var previous := DedupStore.Highest(s.memory, ms[0].clientId);
      && DedupStore.CutConfirm(files, path, s, ms[0].clientId, LastOf(Above(ms, previous), previous))
      && forall m | m in Above(ms, previous) :: m in printed
    ensures SkipsOnlyPrinted(files, path, s, ms, printed)
  {
    hide Text.SpaceFree, DedupStore.Printable, DedupStore.CutConfirm, Loads, Above, Acceptable, LastOf;
    SomeMessage(ms);
    var c := ms[0].clientId;
    var previous := DedupStore.Highest(s.memory, c);
    AboveFirst(ms, previous, 0);
    var id := LastOf(Above(ms, previous), previous);
    if DedupStore.Printable(s.memory) && DedupStore.Printable(s.stored) && Text.SpaceFree(c) {
      forall loaded, i | Loads(files, path, loaded) && 0 <= i < |ms| && ms[i].id <= DedupStore.Highest(loaded, c)
        ensures ms[i] in printed
             || ms[i].id <= DedupStore.Max(DedupStore.Highest(s.memory, c), DedupStore.Highest(s.stored, c))
      {
        CutLoads(files, path, s, c, id, loaded);
        AboveFirst(ms, previous, i);
      }
    }
  }

  lemma AboveStart(ms: seq<LogMessage>, mark: uint64)
    ensures Above(ms[..0], mark) == [] && LastOf([], mark) == mark
  {
  }

  lemma AboveNext(ms: seq<LogMessage>, index: nat, mark: uint64)
    requires index < |ms|
    ensures var above, next := Above(ms[..index], mark), Above(ms[..index + 1], mark);
      if ms[index].id <= mark then next == above else next == above + [ms[index]] && LastOf(next, mark) == ms[index].id
  {
    assert ms[..index + 1][..index] == ms[..index];
  }

  class Server {
    const store: DedupStore.DedupStore
    var metrics: Metrics
    var output: seq<LogMessage>  // what has been processed, in order
    ghost var printedAt: seq<nat>  // how many disk states there had been when each was printed
    ghost var exposed: multiset<Key>  // processed when persisting the watermark then failed

    constructor (store: DedupStore.DedupStore)
      ensures this.store == store && metrics == Metrics(0, 0, 0, 0)
      ensures output == [] && printedAt == [] && exposed == multiset{}
    {
      this.store, metrics, output, printedAt, exposed := store, Metrics(0, 0, 0, 0), [], [], multiset{};
    }

    ghost predicate Valid()
      reads this, store, store.disk
    {
      && store.Valid()
      && Bounded(output, exposed, store.confirmed)
      && metrics.received == metrics.processed + metrics.duplicates
      && |printedAt| == |output| && forall k | 0 <= k < |output| :: printedAt[k] <= |store.disk.trail|
    }

    // At none of the disk states from number `mark` on may a restart skip what has not been printed.
    ghost predicate NeverAhead(mark: nat, s: DedupStore.Store, ms: seq<LogMessage>)
      requires |printedAt| == |output| && ms != []
      reads this, store, store.disk
    {
      forall i | mark <= i < |store.disk.trail| ::
        SkipsOnlyPrinted(store.disk.trail[i], store.path, s, ms, PrintedBy(output, printedAt, i))
    }

    // The loop over one batch: counts and prints, and returns the new watermark.
    method Process(ms: seq<LogMessage>, previous: uint64) returns (latest: uint64)
      requires Increasing(ms)
      modifies this`metrics, this`output, this`printedAt
      ensures output == old(output) + Above(ms, previous)
      ensures old(|printedAt| == |output|) ==> |printedAt| == |output|
      ensures old(printedAt) <= printedAt
      ensures forall k | |old(printedAt)| <= k < |printedAt| :: printedAt[k] == |store.disk.trail|
      ensures latest == LastOf(Above(ms, previous), previous)
      ensures metrics.batches == old(metrics.batches) && metrics.received == old(metrics.received)
      ensures metrics.processed == old(metrics.processed) + |Above(ms, previous)|
      ensures metrics.processed + metrics.duplicates == old(metrics.processed + metrics.duplicates) + |ms|
    {
      hide Above, LastOf;
      latest := previous;
      var index := 0;
      AboveStart(ms, previous);
      while index < |ms|
        invariant index <= |ms|
        invariant output == old(output) + Above(ms[..index], previous)
        invariant |printedAt| - |output| == old(|printedAt| - |output|) && old(printedAt) <= printedAt
        invariant forall k | |old(printedAt)| <= k < |printedAt| :: printedAt[k] == |store.disk.trail|
        invariant latest == LastOf(Above(ms[..index], previous), previous)
        invariant metrics.batches == old(metrics.batches) && metrics.received == old(metrics.received)
        invariant metrics.processed == old(metrics.processed) + |Above(ms[..index], previous)|
        invariant metrics.processed + metrics.duplicates == old(metrics.processed + metrics.duplicates) + index
      {
        AboveNext(ms, index, previous);
        if ms[index].id <= previous {
          metrics := metrics.(duplicates := metrics.duplicates + 1);
        } else {
          output, printedAt := output + [ms[index]], printedAt + [|store.disk.trail|];
          metrics := metrics.(processed := metrics.processed + 1);
          latest := ms[index].id;
        }
        index := index + 1;
      }
      assert ms[..index] == ms;
    }

    /**
     One received batch. On success the watermark is the larger of the old one and the batch's
     last id, which is also the ACK. A failure can only be the disk's; then memory is unchanged,
     and exactly what has just been processed is exposed.
     */
    method HandleBatch(ms: seq<LogMessage>) returns (r: Result<uint64, DedupStore.DedupError>)
      requires Valid() && Acceptable(ms)
      modifies this, store, store.disk
      ensures Valid()
      ensures output == old(output) + Above(ms, DedupStore.Highest(old(store.confirmed), ms[0].clientId))
      ensures metrics.received == old(metrics.received) + |ms|
      ensures metrics.batches == old(metrics.batches) + if r.Ok? then 1 else 0
      ensures metrics.processed == old(metrics.processed) + |output| - |old(output)|
      ensures old(store.disk.trail) <= store.disk.trail && NeverAhead(|old(store.disk.trail)|, old(store.Abs()), ms)
      // At every state of the disk in the middle of the call everything is printed, and the file is old or new.
      ensures forall i | |old(store.disk.trail)| <= i < |store.disk.trail| ::
                && PrintedBy(output, printedAt, i) == output
                && DedupStore.CutConfirm(
                     store.disk.trail[i], store.path, old(store.Abs()), ms[0].clientId,
                     LastOf(Above(ms, DedupStore.Highest(old(store.confirmed), ms[0].clientId)),
                            DedupStore.Highest(old(store.confirmed), ms[0].clientId)))
      ensures r.Err? ==> store.disk.faulty
      ensures r.Ok? ==>
                && r.value == ms[|ms| - 1].id && exposed == old(exposed)
                && store.confirmed == DedupStore.Raised(old(store.confirmed), ms[0].clientId, r.value)
      ensures r.Err? ==>
                && r.error == DedupStore.IoFailure && store.confirmed == old(store.confirmed)
                && exposed == old(exposed)
                              + Keys(Above(ms, DedupStore.Highest(old(store.confirmed), ms[0].clientId)))
      ensures DedupStore.ConfirmStep(
                old(store.Abs()), ms[0].clientId,
                LastOf(Above(ms, DedupStore.Highest(old(store.confirmed), ms[0].clientId)),
                       DedupStore.Highest(old(store.confirmed), ms[0].clientId)),
                store.Abs(), r.Ok?)
    {
      hide Above, DedupStore.ConfirmStep, Bounded, Keys, DedupStore.Highest, DedupStore.Raised, DedupStore.Holds;
      hide DedupStore.Keeps, DedupStore.CutConfirm, SkipsOnlyPrinted, PrintedBy;
      assert ValidMessage(ms[0]) && ValidMessage(ms[|ms| - 1]);
      metrics := metrics.(received := metrics.received + |ms|);
      var clientId := ms[0].clientId;
      var previous := store.HighestConfirmed(clientId);
      var latest := Process(ms, previous);
      AboveLast(ms, previous);
      ghost var marks, mark := store.confirmed, |store.disk.trail|;
      var watermark := store.Confirm(clientId, latest);
      forall i | mark <= i < |store.disk.trail|
        ensures PrintedBy(output, printedAt, i) == output
        ensures SkipsOnlyPrinted(store.disk.trail[i], store.path, old(store.Abs()), ms, output)
      {
        AllPrintedBy(output, printedAt, i);
        CutSkipsOnlyPrinted(store.disk.trail[i], store.path, old(store.Abs()), ms, output);
      }
      if watermark.Err? {
        exposed := exposed + Keys(Above(ms, previous));
        BatchKeepsBounded(old(output), old(exposed), marks, ms, exposed, store.confirmed);
        return Err(watermark.error);
      }
      ConfirmRaises(old(store.Abs()), clientId, ms[|ms| - 1].id, store.Abs());
      BatchKeepsBounded(old(output), old(exposed), marks, ms, exposed, store.confirmed);
      metrics := metrics.(batches := metrics.batches + 1);
      return Ok(ms[|ms| - 1].id);
    }

    // Handles a batch and acknowledges it.
    method Answer(socket: Socket, ms: seq<LogMessage>) returns (r: Result<(), Failure>)
      requires Valid() && Acceptable(ms)
      modifies this, store, store.disk, socket`outgoing
      ensures Valid()
      ensures old(exposed) <= exposed && ((r.Ok? || r.error.Network?) ==> exposed == old(exposed))
      ensures output == old(output) + Above(ms, DedupStore.Highest(old(store.confirmed), ms[0].clientId))
      ensures r.Ok? || r.error.Network? ==>
                store.confirmed == DedupStore.Raised(old(store.confirmed), ms[0].clientId, LastOf(ms, 0))
      ensures r.Err? && r.error.Store? ==>
                store.confirmed == old(store.confirmed) && socket.outgoing == old(socket.outgoing)
      ensures r.Ok? ==> socket.outgoing == old(socket.outgoing) + EncodeAck(LastOf(ms, 0))
      ensures r.Err? ==> CutAck(old(socket.outgoing), socket.outgoing)
      ensures r.Err? ==> if r.error.Store? then store.disk.faulty else r.error.network == Io && socket.faulty
      ensures ms != [] && NeverAhead(|old(store.disk.trail)|, old(store.Abs()), ms)
    {
      NothingCut(socket.outgoing);
      SomeMessage(ms);
      LastOfBatch(ms);
      hide DedupStore.Highest, Above, EncodeAck, Acceptable, Bounded, DedupStore.ConfirmStep, DedupStore.Raised;
      hide Keys, LastOf, DedupStore.Holds, CutAck;
      var confirmedId := HandleBatch(ms);
      if confirmedId.Err? {
        return Err(Store(confirmedId.error));
      }
      ghost var outgoing := socket.outgoing;
      var sent := SendAck(socket, confirmedId.value);
      if sent.Err? {
        CutAt(outgoing, confirmedId.value, socket.outgoing);
        return Err(Network(sent.error));
      }
      return Ok(());
    }

    // The batch of the next frame, or None at the end of the stream.
    static method NextBatch(socket: Socket) returns (r: Result<Option<seq<LogMessage>>, NetError>, ghost frame: Bytes)
      modifies socket`incoming
      ensures r.Ok? && r.value.Some? ==>
                && old(socket.incoming) == frame + socket.incoming && frame != []
                && MessagesOf(frame) == Ok(r.value.value) && Acceptable(r.value.value)
      ensures r.Ok? && r.value.None? ==> old(socket.incoming) == []
      ensures r == Err(Io) ==> socket.faulty
      ensures r.Err? && r.error != Io ==> Unacceptable(old(socket.incoming))
    {
      hide NextFrame, MessagesOf, Acceptable, ValidBatch, ValidMessage, EncodeLog, EncodeBatch;
      ghost var before := socket.incoming;
      frame := [];
      r := ReceiveLogBatch(socket);
      if r.Ok? && r.value.None? {
        CleanEnd(before);
      }
      if r.Ok? && r.value.Some? {
        frame := NextFrame(before).frame;
        MessagesOfMeaning(frame, r.value.value);
      }
    }

    /** One received frame: its batch is handled and acknowledged; or the stream has ended (false). */
    method ServeOne(socket: Socket) returns (r: Result<bool, Failure>, ghost frame: Bytes, ghost ms: seq<LogMessage>)
      requires Valid()
      modifies this, store, store.disk, socket
      ensures Valid()
      ensures old(output) <= output && old(exposed) <= exposed
      ensures (r.Ok? || r.error.Network?) ==> exposed == old(exposed)
      ensures forall c :: DedupStore.Highest(old(store.confirmed), c) <= DedupStore.Highest(store.confirmed, c)
      ensures r == Ok(true) ==>
                && old(socket.incoming) == frame + socket.incoming && frame != []
                && MessagesOf(frame) == Ok(ms) && Acceptable(ms)
                && output == old(output) + Above(ms, DedupStore.Highest(old(store.confirmed), ms[0].clientId))
                && store.confirmed == DedupStore.Raised(old(store.confirmed), ms[0].clientId, LastOf(ms, 0))
                && LastOf(ms, 0) <= DedupStore.Highest(store.confirmed, ms[0].clientId)
                && socket.outgoing == old(socket.outgoing) + EncodeAck(LastOf(ms, 0))
      ensures r == Ok(false) ==>
                && old(socket.incoming) == [] && socket.outgoing == old(socket.outgoing)
                && output == old(output) && store.confirmed == old(store.confirmed)
      ensures r.Err? ==> CutAck(old(socket.outgoing), socket.outgoing)
      // Why it may fail: the disk, the connection, or bytes that are no acceptable frame.
      ensures r.Err? && r.error.Store? ==> store.disk.faulty
      ensures r == Err(Network(Io)) ==> socket.faulty
      ensures r.Err? && r.error.Network? && r.error.network != Io ==> Unacceptable(old(socket.incoming))
      ensures if ms == [] then store.disk.trail == old(store.disk.trail)
              else NeverAhead(|old(store.disk.trail)|, old(store.Abs()), ms)
    {
      hide NeverAhead, Unacceptable;
      hide DedupStore.Highest, Above, MessagesOf, EncodeAck, Acceptable, Bounded, CutAck, LastOf;
      hide DedupStore.Raised, Keys, DedupStore.Holds;
      frame, ms := [], [];
      NothingCut(socket.outgoing);
      var messages;
      messages, frame := NextBatch(socket);
      if messages.Err? {
        return Err(Network(messages.error)), frame, ms;
      }
      if messages.value.None? {
        return Ok(false), frame, ms;
      }
      ms := messages.value.value;
      SomeMessage(ms);
      RaisedCovers(store.confirmed, ms[0].clientId, LastOf(ms, 0));
      var answered := Answer(socket, messages.value.value);
      if answered.Err? {
        return Err(answered.error), frame, ms;
      }
      return Ok(true), frame, ms;
    }

    /**
     One connection, until the client leaves or something fails. `acked` are the batches of the
     `frames` read so far. They are processed one after the other, and exactly their ACKs go out,
     in order, each at most the watermark.
     */
    method Serve(socket: Socket)
      returns (r: Result<(), Failure>, ghost frames: seq<Bytes>, ghost acked: seq<seq<LogMessage>>)
      requires Valid()
      modifies this, store, store.disk, socket
      ensures Valid()
      ensures old(output) <= output && old(exposed) <= exposed
      ensures (r.Ok? || r.error.Network?) ==> exposed == old(exposed)
      ensures forall c :: DedupStore.Highest(old(store.confirmed), c) <= DedupStore.Highest(store.confirmed, c)
      ensures Concat(frames) <= old(socket.incoming) && Decoded(frames, acked)
      ensures Covered(acked, store.confirmed)
      ensures r.Ok? ==> socket.outgoing == old(socket.outgoing) + Acks(acked) && Concat(frames) == old(socket.incoming)
      ensures r.Ok? ==>
                && output == old(output) + Printed(acked, old(store.confirmed))
                && store.confirmed == MarksAfter(acked, old(store.confirmed))
      ensures old(output) + Printed(acked, old(store.confirmed)) <= output
      ensures r.Err? ==> CutAck(old(socket.outgoing) + Acks(acked), socket.outgoing)
      ensures r.Err? && r.error.Store? ==> store.disk.faulty
      ensures r == Err(Network(Io)) ==> socket.faulty
      ensures r.Err? && r.error.Network? && r.error.network != Io ==>
                Unacceptable(old(socket.incoming)[|Concat(frames)|..])
    {
      hide DedupStore.Highest, MessagesOf, EncodeAck, Acceptable, Bounded, Above;
      hide NeverAhead, Unacceptable, CutAck, Covered, Decoded, Acks, Concat, Printed, MarksAfter;
      hide DedupStore.Raised, DedupStore.Holds;
      frames, acked := [], [];
      NothingServed(store.confirmed);
      assert output + [] == output;
      while true
        invariant Valid()
        invariant old(output) <= output && exposed == old(exposed)
        invariant output == old(output) + Printed(acked, old(store.confirmed))
        invariant store.confirmed == MarksAfter(acked, old(store.confirmed))
        invariant forall c :: DedupStore.Highest(old(store.confirmed), c) <= DedupStore.Highest(store.confirmed, c)
        invariant old(socket.incoming) == Concat(frames) + socket.incoming && Decoded(frames, acked)
        invariant Covered(acked, store.confirmed)
        invariant socket.outgoing == old(socket.outgoing) + Acks(acked)
        decreases |socket.incoming|
      {
        ghost var marks := store.confirmed;
        var served, frame, ms := ServeOne(socket);
        StillCovered(acked, marks, store.confirmed);
        if served.Err? {
          return Err(served.error), frames, acked;
        }
        if !served.value {
          return Ok(()), frames, acked;
        }
        ServedOne(frames, acked, frame, ms, store.confirmed);
        PrintedNext(acked, ms, old(store.confirmed));
        ConcatSnoc(frames, frame);
        frames, acked := frames + [frame], acked + [ms];
      }
    }
  }

  // At most a part of one more ACK frame has been sent.
  ghost predicate CutAck(before: Bytes, after: Bytes) {
    exists id: uint64, k: nat | k < |EncodeAck(id)| :: after == before + EncodeAck(id)[..k]
  }

  // Every acknowledged id is covered by its client's watermark.
  ghost predicate Covered(acked: seq<seq<LogMessage>>, marks: DedupStore.Watermarks) {
    forall i | 0 <= i < |acked| ::
      acked[i] != [] && LastOf(acked[i], 0) <= DedupStore.Highest(marks, acked[i][0].clientId)
  }

  // The batches are what the frames decode to.
  ghost predicate Decoded(frames: seq<Bytes>, batches: seq<seq<LogMessage>>) {
    && |frames| == |batches|
    && forall i | 0 <= i < |batches| :: MessagesOf(frames[i]) == Ok(batches[i]) && Acceptable(batches[i])
  }

  lemma NothingServed(marks: DedupStore.Watermarks)
    ensures Decoded([], []) && Covered([], marks) && Acks([]) == [] && Concat([]) == []
    ensures Printed([], marks) == [] && MarksAfter([], marks) == marks
  {
  }

  lemma ServedOne(frames: seq<Bytes>, acked: seq<seq<LogMessage>>, frame: Bytes, ms: seq<LogMessage>,
                  marks: DedupStore.Watermarks)
    requires Decoded(frames, acked) && Covered(acked, marks)
    requires MessagesOf(frame) == Ok(ms) && Acceptable(ms)
    requires ms != [] ==> LastOf(ms, 0) <= DedupStore.Highest(marks, ms[0].clientId)
    ensures Decoded(frames + [frame], acked + [ms]) && Covered(acked + [ms], marks)
    ensures Acks(acked + [ms]) == Acks(acked) + EncodeAck(LastOf(ms, 0))
  {
    SomeMessage(ms);
    hide DedupStore.Highest, MessagesOf, Acceptable, EncodeAck;
  }

  lemma PrintedNext(acked: seq<seq<LogMessage>>, ms: seq<LogMessage>, marks: DedupStore.Watermarks)
    requires Acceptable(ms)
    ensures ms != []
    ensures var before := MarksAfter(acked, marks);
      && MarksAfter(acked + [ms], marks) == DedupStore.Raised(before, ms[0].clientId, LastOf(ms, 0))
      && Printed(acked + [ms], marks)
         == Printed(acked, marks) + Above(ms, DedupStore.Highest(before, ms[0].clientId))
  {
    SomeMessage(ms);
    hide Above, DedupStore.Highest, DedupStore.Raised, Acceptable;
    assert (acked + [ms])[..|acked + [ms]| - 1] == acked;
  }

  lemma RaisedCovers(marks: DedupStore.Watermarks, clientId: Bytes, id: uint64)
    ensures id <= DedupStore.Highest(DedupStore.Raised(marks, clientId, id), clientId)
    ensures forall c :: DedupStore.Highest(marks, c) <= DedupStore.Highest(DedupStore.Raised(marks, clientId, id), c)
  {
  }

  lemma LastOfBatch(ms: seq<LogMessage>)
    requires ms != []
    ensures LastOf(ms, 0) == ms[|ms| - 1].id
  {
  }

  lemma StillCovered(acked: seq<seq<LogMessage>>, marks: DedupStore.Watermarks, marks': DedupStore.Watermarks)
    requires Covered(acked, marks)
    requires forall c :: DedupStore.Highest(marks, c) <= DedupStore.Highest(marks', c)
    ensures Covered(acked, marks')
  {
    hide DedupStore.Highest;
  }

  lemma CutAt(before: Bytes, id: uint64, after: Bytes)
    requires exists k: nat | k < |EncodeAck(id)| :: after == before + EncodeAck(id)[..k]
    ensures CutAck(before, after)
  {
    hide EncodeAck;
  }

  lemma NothingCut(outgoing: Bytes)
    ensures CutAck(outgoing, outgoing)
  {
    assert 0 < |EncodeAck(0)| && outgoing == outgoing + EncodeAck(0)[..0];
  }

  lemma SomeMessage(ms: seq<LogMessage>)
    requires Acceptable(ms)
    ensures ms != []
  {
  }

  lemma CleanEnd(stream: Bytes)
    requires NextFrame(stream) == EndOfStream
    ensures stream == []
  {
  }
}
