/** What the WAL keeps over any sequence of appends, confirmations and restarts, some of which fail. */
module WalHistory {
  import opened Words
  import opened Protocol
  import opened WriteAheadLog

  /**
   `stopped`: an append of this run has failed, after which the client appends no more.
   `confirmed`: the highest id ever confirmed. `known`: the messages whose append returned,
   or which a restart recovered, in order.
   */
  datatype History = History(w: WalState, stopped: bool, confirmed: uint64, known: seq<LogMessage>)

  datatype Operation =
    | Append(m: LogMessage, ok: bool)
    | Confirm(id: uint64, ok: bool)
    | Reload

  ghost predicate Init(h: History) {
    h == History(WalState([], false, []), false, 0, [])
  }

  // Ids are allocated in increasing order and a client never changes its identity.
  ghost predicate Fresh(h: History, m: LogMessage) {
    && h.confirmed < m.id
    && (forall k | k in h.known :: k.id < m.id && k.clientId == m.clientId)
    && (forall k | k in h.w.records :: k.id < m.id && k.clientId == m.clientId)
  }

  // The records of a restarted client, all of which are now known.
  function Merge(known: seq<LogMessage>, records: seq<LogMessage>): seq<LogMessage> {
    if records == [] || records[|records| - 1] in known then known
    else known + [records[|records| - 1]]
  }

  // One append, whatever its id.
  ghost predicate Appended(h: History, m: LogMessage, ok: bool, h': History) {
    && AppendStep(h.w, m, h'.w, ok)
    && h'.stopped == !ok && h'.confirmed == h.confirmed
    && h'.known == if ok then h.known + [m] else h.known
  }

  ghost predicate Step(h: History, op: Operation, h': History) {
    match op
    case Append(m, ok) => !h.stopped && Fresh(h, m) && Appended(h, m, ok, h')
    case Confirm(id, ok) =>
      && ConfirmStep(h.w, id, h'.w, ok)
      && h'.stopped == h.stopped && h'.known == h.known
      && h'.confirmed == if h.confirmed < id then id else h.confirmed
    case Reload =>
      && h'.w == WalState(h.w.records, false, h.w.records)
      && !h'.stopped && h'.confirmed == h.confirmed
      && h'.known == Merge(h.known, h.w.records)
  }

  /**
   On disk: records that are confirmed but not yet rewritten away (`stale`), then exactly the
   pending messages, then at most one record (`extra`) whose append reported a failure.
   */
  ghost predicate Layout(h: History, stale: seq<LogMessage>, extra: seq<LogMessage>) {
    && h.w.records == stale + h.w.pending + extra
    && |extra| <= 1
    && (h.w.torn || extra != [] ==> h.stopped)
    && !(h.w.torn && extra != [])
    && (forall m | m in stale :: m.id <= h.confirmed && m in h.known)
    && (forall m | m in h.w.pending :: m in h.known)
    && (forall m, k | m in extra && k in h.known :: k.id < m.id && k.clientId == m.clientId)
  }

  /** Every known message is on disk until it is confirmed. */
  ghost predicate Durable(h: History) {
    forall m | m in h.known :: m in h.w.records || m.id <= h.confirmed
  }

  ghost predicate Inv(h: History) {
    && Storable(h.w.records) && Storable(h.known) && Durable(h)
    && (exists stale, extra :: Layout(h, stale, extra))
  }

  // ---------- Lists ----------

  /** Confirming splits an increasing list: the confirmed messages first, then the rest. */
  lemma {:induction false} AboveIsSuffix(ms: seq<LogMessage>, id: uint64)
    returns (done: seq<LogMessage>, rest: seq<LogMessage>)
    requires Increasing(ms)
    ensures ms == done + rest && Above(ms, id) == rest
    ensures forall m | m in done :: m.id <= id
    ensures forall m | m in rest :: m.id > id
  {
    if ms == [] {
      done, rest := [], [];
    } else if ms[|ms| - 1].id <= id {
      done, rest := ms, [];
      AboveNone(ms, id);
    } else {
      var init, last := ms[..|ms| - 1], ms[|ms| - 1];
      assert ms == init + [last];
      done, rest := AboveIsSuffix(init, id);
      rest := rest + [last];
    }
  }

  lemma InConcat(m: LogMessage, a: seq<LogMessage>, b: seq<LogMessage>)
    ensures m in a + b <==> m in a || m in b
  {
  }

  lemma StorableParts(a: seq<LogMessage>, b: seq<LogMessage>)
    requires Storable(a + b)
    ensures Storable(a) && Storable(b)
  {
    hide ValidMessage;
    var s := a + b;
    assert forall i | 0 <= i < |a| :: s[i] == a[i];
    assert forall i | 0 <= i < |b| :: s[|a| + i] == b[i];
    assert forall i | 0 <= i < |s| :: s[i].clientId == s[0].clientId;
  }

  lemma StorableExtends(ms: seq<LogMessage>, m: LogMessage)
    requires Storable(ms) && ValidMessage(m)
    requires forall k | k in ms :: k.id < m.id && k.clientId == m.clientId
    ensures Storable(ms + [m])
  {
    if ms != [] {
      assert ms[|ms| - 1] in ms && ms[0] in ms;
    }
    StorableSnoc(ms, m);
  }

  // ---------- One step ----------

  lemma AppendKeeps(h: History, m: LogMessage, ok: bool, h': History)
    requires Inv(h) && Step(h, Append(m, ok), h')
    ensures Inv(h')
  {
    hide ValidMessage, Storable;
    var stale, extra :| Layout(h, stale, extra);
    assert extra == [];
    if h'.w.records == h.w.records {
      assert Layout(h', stale, []);
    } else {
      StorableExtends(h.w.records, m);
      if ok {
        StorableExtends(h.known, m);
        assert h'.w.records == stale + h'.w.pending + [];
        assert Layout(h', stale, []);
      } else {
        assert Layout(h', stale, [m]);
      }
    }
  }

  // The rewrite succeeded: the file holds the rest of the pending messages and nothing else.
  lemma RewriteKeeps(h: History, h': History, stale: seq<LogMessage>, done: seq<LogMessage>,
                     rest: seq<LogMessage>, extra: seq<LogMessage>)
    requires Inv(h) && Layout(h, stale, extra) && h.w.pending == done + rest
    requires forall m | m in done :: m.id <= h'.confirmed
    requires Storable(rest) && h'.w == WalState(rest, false, rest)
    requires h'.known == h.known && h.confirmed <= h'.confirmed
    ensures Inv(h')
  {
    hide ValidMessage, Storable;
    assert rest == [] + rest + [];
    assert Layout(h', [], []);
    forall m | m in h.known ensures m in rest || m.id <= h'.confirmed {
      InConcat(m, stale + h.w.pending, extra);
      InConcat(m, stale, h.w.pending);
      InConcat(m, done, rest);
    }
  }

  // The rewrite failed: the file is as before and holds more confirmed records.
  lemma OldFileKeeps(h: History, h': History, stale: seq<LogMessage>, done: seq<LogMessage>,
                     rest: seq<LogMessage>, extra: seq<LogMessage>)
    requires Inv(h) && Layout(h, stale, extra) && h.w.pending == done + rest
    requires forall m | m in done :: m.id <= h'.confirmed
    requires h'.w == h.w.(pending := rest)
    requires h'.known == h.known && h.confirmed <= h'.confirmed && h'.stopped == h.stopped
    ensures Inv(h')
  {
    hide ValidMessage, Storable;
    assert stale + (done + rest) + extra == (stale + done) + rest + extra;
    assert Layout(h', stale + done, extra);
  }

  lemma ConfirmKeeps(h: History, id: uint64, ok: bool, h': History)
    requires Inv(h) && Step(h, Confirm(id, ok), h')
    ensures Inv(h')
  {
    hide ValidMessage, Storable, Above;
    var stale, extra :| Layout(h, stale, extra);
    StorableParts(stale + h.w.pending, extra);
    StorableParts(stale, h.w.pending);
    StorableIsIncreasing(h.w.pending);
    var done, rest := AboveIsSuffix(h.w.pending, id);
    StorableParts(done, rest);
    hide Inv, Layout;
    if h'.w == WalState(rest, false, rest) && rest != h.w.pending {
      RewriteKeeps(h, h', stale, done, rest, extra);
    } else {
      OldFileKeeps(h, h', stale, done, rest, extra);
    }
  }

  lemma StorableIsIncreasing(ms: seq<LogMessage>)
    requires Storable(ms)
    ensures Increasing(ms)
  {
  }

  lemma ReloadKeeps(h: History, h': History)
    requires Inv(h) && Step(h, Reload, h')
    ensures Inv(h')
  {
    hide ValidMessage, Storable;
    var stale, extra :| Layout(h, stale, extra);
    assert h'.w.records == [] + h'.w.pending + [];
    if extra == [] {
      MergeOfKnown(h.known, h.w.records);
    } else {
      assert h.w.records[|h.w.records| - 1] == extra[0];
      assert extra == [extra[0]];
      StorableParts(stale + h.w.pending, extra);
      StorableHead(extra);
      StorableExtends(h.known, extra[0]);
      assert h'.known == h.known + extra;
    }
    assert Layout(h', [], []);
  }

  lemma StorableHead(ms: seq<LogMessage>)
    requires Storable(ms) && ms != []
    ensures ValidMessage(ms[0])
  {
  }

  lemma MergeOfKnown(known: seq<LogMessage>, records: seq<LogMessage>)
    requires forall m | m in records :: m in known
    ensures Merge(known, records) == known
  {
  }

  /** A known message is pending until it is confirmed: stale records are confirmed, a failed one is not known. */
  lemma UnconfirmedIsPending(h: History, m: LogMessage)
    requires Inv(h) && m in h.known && m.id > h.confirmed
    ensures m in h.w.pending && m in h.w.records
  {
    hide Storable;
    var stale, extra :| Layout(h, stale, extra);
    InConcat(m, stale + h.w.pending, extra);
    InConcat(m, stale, h.w.pending);
  }

  // ---------- Whole runs ----------

  ghost predicate Run(hs: seq<History>, ops: seq<Operation>) {
    && |hs| == |ops| + 1 && Init(hs[0])
    && forall i | 0 <= i < |ops| :: Step(hs[i], ops[i], hs[i + 1])
  }

  lemma StepKeeps(h: History, op: Operation, h': History)
    requires Inv(h) && Step(h, op, h')
    ensures Inv(h')
  {
    match op
    case Append(m, ok) => AppendKeeps(h, m, ok, h');
    case Confirm(id, ok) => ConfirmKeeps(h, id, ok, h');
    case Reload => ReloadKeeps(h, h');
  }

  /** After any operations, in any order, failing or not, the log is as described above. */
  lemma {:induction false} RunKeeps(hs: seq<History>, ops: seq<Operation>, n: nat)
    requires Run(hs, ops) && n < |hs|
    ensures Inv(hs[n])
  {
    if n == 0 {
      assert hs[0].w.records == [] + hs[0].w.pending + [];
      assert Layout(hs[0], [], []);
    } else {
      RunKeeps(hs, ops, n - 1);
      hide Inv, Step;
      StepKeeps(hs[n - 1], ops[n - 1], hs[n]);
    }
  }

  /** So at every moment a restart loads without an error, and finds every known unconfirmed message. */
  lemma RestartRecovers(hs: seq<History>, ops: seq<Operation>, n: nat, content: Bytes)
    requires Run(hs, ops) && n < |hs|
    requires Stores(content, hs[n].w.records, hs[n].w.torn)
    ensures Recover(content, []) == Ok((hs[n].w.records, hs[n].w.torn))
    ensures forall m | m in hs[n].known && m.id > hs[n].confirmed :: m in hs[n].w.records
  {
    RunKeeps(hs, ops, n);
    RecoveryIsExact(content, hs[n].w.records, hs[n].w.torn);
  }

  /**
   Which records on disk can vanish unconfirmed: exactly those whose append had failed, and only
   when the rewrite of a confirmation reaches the disk before the next restart.
   */
  lemma VanishesIffUnknown(hs: seq<History>, ops: seq<Operation>, n: nat, m: LogMessage)
    requires Run(hs, ops) && n < |ops| && m in hs[n].w.records && m.id > hs[n + 1].confirmed
    ensures m !in hs[n + 1].w.records
       <==> ops[n].Confirm? && hs[n + 1].w.records != hs[n].w.records && m !in hs[n].known
  {
    RunKeeps(hs, ops, n);
    RunKeeps(hs, ops, n + 1);
    assert Step(hs[n], ops[n], hs[n + 1]);
    hide Storable, Run, ValidMessage;
    if ops[n].Confirm? {
      var stale, extra :| Layout(hs[n], stale, extra);
      AboveMembers(hs[n].w.pending, ops[n].id);
      hide Above;
    }
  }

  /** It does happen: after a failed append that wrote everything, the next compaction drops the record. */
  lemma FailedAppendCanVanish(m0: LogMessage, m1: LogMessage) returns (hs: seq<History>, ops: seq<Operation>)
    requires ValidMessage(m0) && ValidMessage(m1) && m0.id < m1.id && m0.clientId == m1.clientId
    ensures Run(hs, ops) && |ops| == 3 && ops[1] == Append(m1, false)
    ensures m1 in hs[2].w.records && m1.id > hs[3].confirmed && m1 !in hs[3].w.records
  {
    hide ValidMessage;
    var h0 := History(WalState([], false, []), false, 0, []);
    var h1 := History(WalState([m0], false, [m0]), false, 0, [m0]);
    var h2 := h1.(w := h1.w.(records := [m0] + [m1]), stopped := true);
    var h3 := History(WalState([], false, []), true, m0.id, [m0]);
    VanishingSteps(h0, m0, m1);
    hide Step, Init;
    ops := [Append(m0, true), Append(m1, false), Confirm(m0.id, true)];
    hs := [h0, h1, h2, h3];
    assert Init(hs[0]);
  }

  lemma VanishingSteps(h0: History, m0: LogMessage, m1: LogMessage)
    requires ValidMessage(m0) && ValidMessage(m1) && m0.id < m1.id && m0.clientId == m1.clientId
    requires h0 == History(WalState([], false, []), false, 0, [])
    ensures var h1 := History(WalState([m0], false, [m0]), false, 0, [m0]);
      var h2 := h1.(w := h1.w.(records := [m0] + [m1]), stopped := true);
      && Init(h0) && Step(h0, Append(m0, true), h1) && Step(h1, Append(m1, false), h2)
      && Step(h2, Confirm(m0.id, true), History(WalState([], false, []), true, m0.id, [m0]))
  {
    hide ValidMessage;
    ValidIsPositive(m0);
    assert [] + [m0] == [m0];
    assert [m0][..0] == [];
  }

  lemma ValidIsPositive(m: LogMessage)
    requires ValidMessage(m)
    ensures m.id > 0
  {
  }
}
