/**
 The bounded queue between the two client threads. The class holds what one thread does
 while it has the mutex; QueueMonitor interleaves those sections with waiting and notifying.
 */
module BoundedBlockingQueue {
  import opened Words

  function Min(a: nat, b: nat): nat {
    if a < b then a else b
  }

  // How many items a batch of `held` takes from `queue` while it has the mutex.
  function Taken<T>(queue: seq<T>, held: nat, maxItems: nat): nat
    requires held <= maxItems
  {
    Min(maxItems - held, |queue|)
  }

  class BoundedBlockingQueue<T> {
    const capacity: nat
    var queue: seq<T>
    var closed: bool

    constructor (capacity: nat)
      ensures this.capacity == capacity && queue == [] && !closed
      ensures capacity > 0 ==> Valid()
    {
      this.capacity, queue, closed := capacity, [], false;
    }

    ghost predicate Valid()
      reads this
    {
      0 < capacity && |queue| <= capacity
    }

    // The wait predicates of the two condition variables.
    predicate MayPush()
      reads this
    {
      |queue| < capacity || closed
    }

    predicate MayPop()
      reads this
    {
      queue != [] || closed
    }

    // push() once notFull_ no longer blocks it.
    method PushLocked(value: T) returns (pushed: bool)
      requires Valid() && MayPush()
      modifies this`queue
      ensures Valid() && pushed == !closed
      ensures queue == if pushed then old(queue) + [value] else old(queue)
    {
      if closed {
        return false;
      }
      queue := queue + [value];
      return true;
    }

    // pop() once notEmpty_ no longer blocks it.
    method PopLocked() returns (r: Option<T>)
      requires Valid() && MayPop()
      modifies this`queue
      ensures Valid()
      ensures r.None? <==> old(queue) == []
      ensures r.None? ==> queue == []
      ensures r.Some? ==> old(queue) == [r.value] + queue
    {
      if queue == [] {
        return None;
      }
      r := Some(queue[0]);
      queue := queue[1..];
    }

    /**
     The collecting loop of popBatch(), up to the point where it is done or has to wait. `timedOut`
     says that the thread comes from its timed wait, and the time is over.
     */
    method CollectLocked(held: seq<T>, maxItems: nat, timedOut: bool) returns (batch: seq<T>, mustWait: bool)
      requires Valid() && |held| <= maxItems
      modifies this`queue
      ensures Valid()
      ensures var n := Taken(old(queue), |held|, maxItems);
                batch == held + old(queue)[..n] && queue == old(queue)[n..]
      ensures mustWait <==> |batch| < maxItems && !closed && !(timedOut && old(queue) == [])
      ensures mustWait ==> queue == []
    {
      batch, mustWait := held, false;
      if timedOut && queue == [] && !closed {
        assert held + queue[..0] == held;
        return;
      }
      while |batch| < maxItems
        invariant Valid() && |held| <= |batch| <= maxItems
        invariant var n := |batch| - |held|;
                    n <= |old(queue)| && batch == held + old(queue)[..n] && queue == old(queue)[n..]
      {
        if queue == [] && !closed {
          return batch, true;
        }
        if queue == [] {
          break;
        }
        batch := batch + [queue[0]];
        queue := queue[1..];
      }
    }

    method CloseLocked() returns (first: bool)
      modifies this`closed
      ensures closed && first == !old(closed)
    {
      if closed {
        return false;
      }
      closed := true;
      return true;
    }

    method Size() returns (n: nat)
      ensures n == |queue|
    {
      n := |queue|;
    }
  }
}

/** Any number of threads calling the queue, one atomic step at a time. */
module QueueMonitor {
  import opened Words
  import opened BoundedBlockingQueue

  datatype Call<T> = Push(value: T) | Pop | PopBatch(maxItems: nat, batch: seq<T>)

  // Awake: about to take the mutex and test its predicate, on entry or after a spurious wakeup.
  datatype Phase = Awake | Sleeping | Signalled | TimedOut

  datatype Thread<T> =
    | Idle
    | Waiting(call: Call<T>, phase: Phase)
    | PushNotify                       // has pushed, owes notEmpty_.notify_one()
    | PopNotify(item: T)               // has popped, owes notFull_.notify_one()
    | BatchNotify(maxItems: nat, batch: seq<T>)  // owes notFull_.notify_all()
    | CloseNotifyEmpty                 // has closed, owes both notify_all()
    | CloseNotifyFull                  // owes notFull_.notify_all()
  {
    predicate SleepsOnFull() {
      Waiting? && call.Push? && phase == Sleeping
    }

    predicate SleepsOnEmpty() {
      Waiting? && !call.Push? && phase == Sleeping
    }
  }

  /** `pushed` and `popped` are the items ever added and ever removed, in order. */
  datatype Monitor<T> = Monitor(
    capacity: nat, queue: seq<T>, closed: bool, threads: seq<Thread<T>>,
    pushed: seq<T>, popped: seq<T>)

  datatype Action<T> =
    | Enter(call: Call<T>)
    | Acquire
    | SpuriousWake
    | TimeOut
    | Notify(wakes: Option<nat>)
    | Close

  predicate MayEnter<T>(call: Call<T>) {
    call.PopBatch? ==> call.maxItems > 0 && call.batch == []
  }

  function At<T>(m: Monitor<T>, t: nat, th: Thread<T>): Monitor<T>
    requires t < |m.threads|
  {
    m.(threads := m.threads[t := th])
  }

  // What thread t does between taking the mutex and releasing or waiting on it.
  function PushSection<T>(m: Monitor<T>, t: nat, value: T): Monitor<T>
    requires t < |m.threads|
  {
    if |m.queue| >= m.capacity && !m.closed then At(m, t, Waiting(Push(value), Sleeping))
    else if m.closed then At(m, t, Idle)
    else At(m.(queue := m.queue + [value], pushed := m.pushed + [value]), t, PushNotify)
  }

  function PopSection<T>(m: Monitor<T>, t: nat): Monitor<T>
    requires t < |m.threads|
  {
    if m.queue == [] then At(m, t, if m.closed then Idle else Waiting(Pop, Sleeping))
    else At(m.(queue := m.queue[1..], popped := m.popped + m.queue[..1]), t, PopNotify(m.queue[0]))
  }

  function BatchSection<T>(m: Monitor<T>, t: nat, maxItems: nat, held: seq<T>, timedOut: bool): Monitor<T>
    requires t < |m.threads| && |held| < maxItems
  {
    if m.queue == [] then
      At(m, t, if !m.closed && !timedOut then Waiting(PopBatch(maxItems, held), Sleeping)
               else if held == [] then Idle
               else BatchNotify(maxItems, held))
    else
      var n := Taken(m.queue, |held|, maxItems);
      var batch := held + m.queue[..n];
      At(m.(queue := m.queue[n..], popped := m.popped + m.queue[..n]), t,
         if |batch| < maxItems && !m.closed then Waiting(PopBatch(maxItems, batch), Sleeping)
         else BatchNotify(maxItems, batch))
  }

  function Woken<T>(th: Thread<T>, full: bool): Thread<T> {
    if (full && th.SleepsOnFull()) || (!full && th.SleepsOnEmpty()) then Waiting(th.call, Signalled) else th
  }

  function NotifyAll<T>(threads: seq<Thread<T>>, full: bool): seq<Thread<T>> {
    seq(|threads|, i requires 0 <= i < |threads| => Woken(threads[i], full))
  }

  // notify_one wakes one sleeper of the right condition variable if there is any.
  ghost predicate WakesOne<T>(threads: seq<Thread<T>>, full: bool, wakes: Option<nat>) {
    match wakes
    case Some(u) => u < |threads| && Woken(threads[u], full) != threads[u]
    case None => forall i | 0 <= i < |threads| :: Woken(threads[i], full) == threads[i]
  }

  ghost function NotifyOne<T>(threads: seq<Thread<T>>, full: bool, wakes: Option<nat>): seq<Thread<T>>
    requires WakesOne(threads, full, wakes)
  {
    match wakes
    case Some(u) => threads[u := Woken(threads[u], full)]
    case None => threads
  }

  ghost predicate Step<T>(m: Monitor<T>, t: nat, a: Action<T>, m': Monitor<T>) {
    t < |m.threads| &&
    var th := m.threads[t];
    match a
    case Enter(call) =>
      th == Idle && MayEnter(call) && m' == At(m, t, Waiting(call, Awake))
    case Acquire =>
      && th.Waiting? && th.phase != Sleeping
      && (match th.call
          case Push(value) => m' == PushSection(m, t, value)
          case Pop => m' == PopSection(m, t)
          case PopBatch(maxItems, held) =>
            |held| < maxItems && m' == BatchSection(m, t, maxItems, held, th.phase == TimedOut))
    case SpuriousWake =>
      th.Waiting? && th.phase == Sleeping && m' == At(m, t, Waiting(th.call, Awake))
    case TimeOut =>
      && th.Waiting? && th.phase == Sleeping && th.call.PopBatch? && th.call.batch != []
      && m' == At(m, t, Waiting(th.call, TimedOut))
    case Notify(wakes) =>
      (match th
       case PushNotify =>
         WakesOne(m.threads, false, wakes) && m' == m.(threads := NotifyOne(m.threads, false, wakes)[t := Idle])
       case PopNotify(_) =>
         WakesOne(m.threads, true, wakes) && m' == m.(threads := NotifyOne(m.threads, true, wakes)[t := Idle])
       case BatchNotify(_, _) => m' == m.(threads := NotifyAll(m.threads, true)[t := Idle])
       case CloseNotifyEmpty => m' == m.(threads := NotifyAll(m.threads, false)[t := CloseNotifyFull])
       case CloseNotifyFull => m' == m.(threads := NotifyAll(m.threads, true)[t := Idle])
       case _ => false)
    case Close =>
      th == Idle && m' == if m.closed then m else At(m.(closed := true), t, CloseNotifyEmpty)
  }

  ghost predicate Init<T>(m: Monitor<T>) {
    && m.capacity > 0 && m.queue == m.pushed == m.popped == [] && !m.closed
    && forall i | 0 <= i < |m.threads| :: m.threads[i] == Idle
  }

  // ---------- Owed wakeups ----------

  // Free slots that this thread will still announce, or has been woken to fill.
  function OwedToProducers<T>(th: Thread<T>): nat {
    match th
    case Waiting(Push(_), phase) => if phase == Signalled then 1 else 0
    case Waiting(PopBatch(_, batch), _) => |batch|
    case PopNotify(_) => 1
    case BatchNotify(_, batch) => |batch|
    case _ => 0
  }

  // Items that this thread will still announce, or has been woken to take.
  function OwedToConsumers<T>(th: Thread<T>): nat {
    match th
    case Waiting(call, phase) => if !call.Push? && phase == Signalled then 1 else 0
    case PushNotify => 1
    case _ => 0
  }

  function Owed<T>(threads: seq<Thread<T>>, toProducers: bool): nat {
    if threads == [] then 0
    else Owed(threads[1..], toProducers)
         + if toProducers then OwedToProducers(threads[0]) else OwedToConsumers(threads[0])
  }

  lemma {:induction false} OwedUpdate<T>(threads: seq<Thread<T>>, p: bool, t: nat, th: Thread<T>)
    requires t < |threads|
    ensures p ==> Owed(threads[t := th], p) + OwedToProducers(threads[t]) == Owed(threads, p) + OwedToProducers(th)
    ensures !p ==> Owed(threads[t := th], p) + OwedToConsumers(threads[t]) == Owed(threads, p) + OwedToConsumers(th)
  {
    hide OwedToConsumers, OwedToProducers;
    if t == 0 {
      assert threads[t := th][1..] == threads[1..];
    } else {
      OwedUpdate(threads[1..], p, t - 1, th);
      assert threads[t := th][1..] == threads[1..][t - 1 := th];
    }
  }

  ghost predicate ProducersAwaited<T>(m: Monitor<T>) {
    forall i | 0 <= i < |m.threads| && m.threads[i].SleepsOnFull() ::
      if m.closed then exists c | 0 <= c < |m.threads| :: m.threads[c] in {CloseNotifyEmpty, CloseNotifyFull}
      else m.capacity - |m.queue| <= Owed(m.threads, true)
  }

  ghost predicate ConsumersAwaited<T>(m: Monitor<T>) {
    forall i | 0 <= i < |m.threads| && m.threads[i].SleepsOnEmpty() ::
      if m.closed then exists c | 0 <= c < |m.threads| :: m.threads[c] == CloseNotifyEmpty
      else |m.queue| <= Owed(m.threads, false)
  }

  ghost predicate BatchesFit<T>(m: Monitor<T>) {
    forall i | 0 <= i < |m.threads| ::
      match m.threads[i]
      case Waiting(PopBatch(maxItems, batch), phase) => |batch| < maxItems && (phase == TimedOut ==> batch != [])
      case BatchNotify(maxItems, batch) => 0 < |batch| <= maxItems
      case _ => true
  }

  ghost predicate ClosersClosed<T>(m: Monitor<T>) {
    forall c | 0 <= c < |m.threads| && m.threads[c] in {CloseNotifyEmpty, CloseNotifyFull} :: m.closed
  }

  ghost predicate Inv<T>(m: Monitor<T>) {
    && ClosersClosed(m)
    && m.pushed == m.popped + m.queue && |m.queue| <= m.capacity && m.capacity > 0
    && BatchesFit(m) && ProducersAwaited(m) && ConsumersAwaited(m)
  }

  // ---------- One step ----------

  // Waking up or entering moves nobody into a wait set and promises no less than before.
  lemma RelabelKeeps<T>(m: Monitor<T>, t: nat, th: Thread<T>)
    requires Inv(m) && t < |m.threads| && m.threads[t] !in {CloseNotifyEmpty, CloseNotifyFull}
    requires !th.SleepsOnFull() && !th.SleepsOnEmpty()
    requires th !in {CloseNotifyEmpty, CloseNotifyFull}
    requires OwedToProducers(m.threads[t]) <= OwedToProducers(th)
    requires OwedToConsumers(m.threads[t]) <= OwedToConsumers(th)
    requires BatchesFit(At(m, t, th))
    ensures Inv(At(m, t, th))
  {
    hide OwedToProducers, OwedToConsumers, BatchesFit;
    OwedUpdate(m.threads, true, t, th);
    OwedUpdate(m.threads, false, t, th);
    var m' := At(m, t, th);
    KeepClosers(m.threads, t, th);
    assert ProducersAwaited(m');
    assert ConsumersAwaited(m');
  }

  // Replacing a thread that is not closing keeps every closing thread.
  lemma KeepClosers<T>(threads: seq<Thread<T>>, t: nat, th: Thread<T>)
    requires t < |threads| && threads[t] !in {CloseNotifyEmpty, CloseNotifyFull}
    ensures forall c | 0 <= c < |threads| && threads[c] in {CloseNotifyEmpty, CloseNotifyFull} ::
              threads[t := th][c] == threads[c]
  {
  }

  /**
   The heart of the argument: a thread that leaves a critical section strands no sleeper if it
   accounts for the slots it freed and the items it added, and sleeps only when there are none.
   */
  lemma SectionKeeps<T>(m: Monitor<T>, t: nat, m': Monitor<T>, th: Thread<T>)
    requires Inv(m) && t < |m.threads| && m.threads[t].Waiting?
    requires m'.capacity == m.capacity && m'.closed == m.closed && m'.threads == m.threads[t := th]
    requires m'.pushed == m'.popped + m'.queue && |m'.queue| <= m.capacity && BatchesFit(m')
    requires m.closed ==> !th.SleepsOnFull() && !th.SleepsOnEmpty()
    requires th !in {CloseNotifyEmpty, CloseNotifyFull}
    requires m.closed || |m'.queue| == m.capacity
          || (&& !th.SleepsOnFull()
              && |m.queue| - |m'.queue| <= OwedToProducers(th) - OwedToProducers(m.threads[t]))
    requires m.closed || |m'.queue| == 0
          || (&& !th.SleepsOnEmpty()
              && |m'.queue| - |m.queue| <= OwedToConsumers(th) - OwedToConsumers(m.threads[t]))
    ensures Inv(m')
  {
    hide OwedToProducers, OwedToConsumers, BatchesFit;
    OwedUpdate(m.threads, true, t, th);
    OwedUpdate(m.threads, false, t, th);
    KeepClosers(m.threads, t, th);
    assert ProducersAwaited(m');
    assert ConsumersAwaited(m');
  }

  lemma BatchesFitUpdate<T>(m: Monitor<T>, m': Monitor<T>, t: nat, th: Thread<T>)
    requires BatchesFit(m) && t < |m.threads| && m'.threads == m.threads[t := th]
    requires match th
             case Waiting(PopBatch(maxItems, batch), phase) =>
               |batch| < maxItems && (phase == TimedOut ==> batch != [])
             case BatchNotify(maxItems, batch) => 0 < |batch| <= maxItems
             case _ => true
    ensures BatchesFit(m')
  {
  }

  lemma PushKeeps<T>(m: Monitor<T>, t: nat, value: T)
    requires Inv(m) && t < |m.threads| && m.threads[t].Waiting? && m.threads[t].call == Push(value)
    ensures Inv(PushSection(m, t, value))
  {
    var m' := PushSection(m, t, value);
    assert m.pushed + [value] == m.popped + (m.queue + [value]);
    BatchesFitUpdate(m, m', t, m'.threads[t]);
    SectionKeeps(m, t, m', m'.threads[t]);
  }

  lemma PopKeeps<T>(m: Monitor<T>, t: nat)
    requires Inv(m) && t < |m.threads| && m.threads[t].Waiting? && m.threads[t].call == Pop
    ensures Inv(PopSection(m, t))
  {
    var m' := PopSection(m, t);
    if m.queue != [] {
      assert m.queue == m.queue[..1] + m.queue[1..];
    }
    BatchesFitUpdate(m, m', t, m'.threads[t]);
    SectionKeeps(m, t, m', m'.threads[t]);
  }

  lemma BatchKeeps<T>(m: Monitor<T>, t: nat, maxItems: nat, held: seq<T>, timedOut: bool)
    requires Inv(m) && t < |m.threads| && |held| < maxItems
    requires m.threads[t].Waiting? && m.threads[t].call == PopBatch(maxItems, held)
    ensures Inv(BatchSection(m, t, maxItems, held, timedOut))
  {
    var m' := BatchSection(m, t, maxItems, held, timedOut);
    if m.queue != [] {
      var n := Taken(m.queue, |held|, maxItems);
      assert m.queue == m.queue[..n] + m.queue[n..];
    }
    BatchesFitUpdate(m, m', t, m'.threads[t]);
    SectionKeeps(m, t, m', m'.threads[t]);
  }

  // Delivering notifications is safe if nobody falls asleep and nothing owed to a sleeper is lost.
  lemma DeliveryKeeps<T>(m: Monitor<T>, m': Monitor<T>)
    requires Inv(m) && m' == m.(threads := m'.threads) && |m'.threads| == |m.threads| && BatchesFit(m')
    requires forall i | 0 <= i < |m.threads| :: m'.threads[i].SleepsOnFull() ==>
               m.threads[i].SleepsOnFull() && Owed(m.threads, true) <= Owed(m'.threads, true)
    requires forall i | 0 <= i < |m.threads| :: m'.threads[i].SleepsOnEmpty() ==>
               m.threads[i].SleepsOnEmpty() && Owed(m.threads, false) <= Owed(m'.threads, false)
    requires forall i | 0 <= i < |m.threads| ::
               (m'.threads[i] in {CloseNotifyEmpty, CloseNotifyFull}
                <==> m.threads[i] in {CloseNotifyEmpty, CloseNotifyFull})
    requires forall i | 0 <= i < |m.threads| && m.threads[i] == CloseNotifyEmpty :: m'.threads[i] == CloseNotifyEmpty
    ensures Inv(m')
  {
    hide BatchesFit, Owed;
    assert ProducersAwaited(m');
    assert ConsumersAwaited(m');
  }

  // One notification moves one unit of debt from the notifier to the thread it wakes.
  lemma NotifyOneOwed<T>(threads: seq<Thread<T>>, t: nat, wakes: Option<nat>, full: bool)
    requires t < |threads| && WakesOne(threads, full, wakes)
    requires if full then threads[t].PopNotify? else threads[t].PushNotify?
    ensures var after := NotifyOne(threads, full, wakes)[t := Idle];
      && (wakes.Some? ==> Owed(after, full) == Owed(threads, full))
      && Owed(after, !full) == Owed(threads, !full)
  {
    var woken := NotifyOne(threads, full, wakes);
    if wakes.Some? {
      OwedUpdate(threads, true, wakes.value, woken[wakes.value]);
      OwedUpdate(threads, false, wakes.value, woken[wakes.value]);
    }
    OwedUpdate(woken, true, t, Idle);
    OwedUpdate(woken, false, t, Idle);
    hide Owed;
  }

  lemma NotifyOneKeeps<T>(m: Monitor<T>, t: nat, wakes: Option<nat>, full: bool, m': Monitor<T>)
    requires Inv(m) && t < |m.threads|
    requires if full then m.threads[t].PopNotify? else m.threads[t].PushNotify?
    requires WakesOne(m.threads, full, wakes)
    requires m' == m.(threads := NotifyOne(m.threads, full, wakes)[t := Idle])
    ensures Inv(m')
  {
    hide Owed, ProducersAwaited, ConsumersAwaited, ClosersClosed;
    NotifyOneOwed(m.threads, t, wakes, full);
    assert forall i | 0 <= i < |m.threads| && i != t :: m'.threads[i] in {m.threads[i], Woken(m.threads[i], full)};
    assert BatchesFit(m');
    DeliveryKeeps(m, m');
  }

  lemma {:induction false} NotifyAllFullOwed<T>(threads: seq<Thread<T>>)
    ensures Owed(NotifyAll(threads, true), false) == Owed(threads, false)
  {
    if threads != [] {
      NotifyAllFullOwed(threads[1..]);
      assert NotifyAll(threads, true)[1..] == NotifyAll(threads[1..], true);
    }
  }

  lemma BatchNotifyKeeps<T>(m: Monitor<T>, t: nat, m': Monitor<T>)
    requires Inv(m) && t < |m.threads| && m.threads[t].BatchNotify?
    requires m' == m.(threads := NotifyAll(m.threads, true)[t := Idle])
    ensures Inv(m')
  {
    hide Owed, ProducersAwaited, ConsumersAwaited, ClosersClosed;
    NotifyAllFullOwed(m.threads);
    OwedUpdate(NotifyAll(m.threads, true), false, t, Idle);
    assert forall i | 0 <= i < |m.threads| && i != t :: m'.threads[i] == Woken(m.threads[i], true);
    assert BatchesFit(m');
    DeliveryKeeps(m, m');
  }

  lemma CloseNotifyKeeps<T>(m: Monitor<T>, t: nat, full: bool, m': Monitor<T>)
    requires Inv(m) && t < |m.threads| && m.threads[t] == if full then CloseNotifyFull else CloseNotifyEmpty
    requires m' == m.(threads := NotifyAll(m.threads, full)[t := if full then Idle else CloseNotifyFull])
    ensures Inv(m')
  {
    hide Owed;
    assert m.closed;
    assert forall i | 0 <= i < |m.threads| && i != t :: m'.threads[i] == Woken(m.threads[i], full);
    assert BatchesFit(m');
    forall i | 0 <= i < |m'.threads| && m'.threads[i].SleepsOnFull()
      ensures exists c | 0 <= c < |m'.threads| :: m'.threads[c] in {CloseNotifyEmpty, CloseNotifyFull}
    {
      assert i != t;
      assert m'.threads[t] == CloseNotifyFull;
    }
    forall i | 0 <= i < |m'.threads| && m'.threads[i].SleepsOnEmpty()
      ensures exists c | 0 <= c < |m'.threads| :: m'.threads[c] == CloseNotifyEmpty
    {
      assert i != t && m.threads[i].SleepsOnEmpty();
      var c :| 0 <= c < |m.threads| && m.threads[c] == CloseNotifyEmpty;
      assert m'.threads[c] == CloseNotifyEmpty;
    }
  }

  lemma CloseKeeps<T>(m: Monitor<T>, t: nat, m': Monitor<T>)
    requires Inv(m) && Step(m, t, Close, m')
    ensures Inv(m')
  {
    assert m'.threads[t] == if m.closed then m.threads[t] else CloseNotifyEmpty;
  }

  lemma StepKeeps<T>(m: Monitor<T>, t: nat, a: Action<T>, m': Monitor<T>)
    requires Inv(m) && Step(m, t, a, m')
    ensures Inv(m')
  {
    var th := m.threads[t];
    match a
    case Enter(_) => RelabelKeeps(m, t, m'.threads[t]);
    case SpuriousWake => RelabelKeeps(m, t, m'.threads[t]);
    case TimeOut => RelabelKeeps(m, t, m'.threads[t]);
    case Close => CloseKeeps(m, t, m');
    case Acquire =>
      match th.call {
        case Push(value) => PushKeeps(m, t, value);
        case Pop => PopKeeps(m, t);
        case PopBatch(maxItems, held) => BatchKeeps(m, t, maxItems, held, th.phase == TimedOut);
      }
    case Notify(wakes) =>
      if th.PushNotify? || th.PopNotify? {
        NotifyOneKeeps(m, t, wakes, th.PopNotify?, m');
      } else if th.BatchNotify? {
        BatchNotifyKeeps(m, t, m');
      } else {
        CloseNotifyKeeps(m, t, th == CloseNotifyFull, m');
      }
  }

  // ---------- Whole runs ----------

  ghost predicate Run<T>(ms: seq<Monitor<T>>, steps: seq<(nat, Action<T>)>) {
    && |ms| == |steps| + 1 && Init(ms[0])
    && forall i | 0 <= i < |steps| :: Step(ms[i], steps[i].0, steps[i].1, ms[i + 1])
  }

  /** In every interleaving: first in, first out, within capacity, and every sleeper is awaited. */
  lemma {:induction false} RunKeeps<T>(ms: seq<Monitor<T>>, steps: seq<(nat, Action<T>)>, n: nat)
    requires Run(ms, steps) && n < |ms|
    ensures Inv(ms[n])
  {
    if n > 0 {
      RunKeeps(ms, steps, n - 1);
      hide Inv, Step;
      StepKeeps(ms[n - 1], steps[n - 1].0, steps[n - 1].1, ms[n]);
    }
  }

  /** Items leave in the order they came, and there are never more than the capacity. */
  lemma FirstInFirstOut<T>(ms: seq<Monitor<T>>, steps: seq<(nat, Action<T>)>, n: nat)
    requires Run(ms, steps) && n < |ms|
    ensures ms[n].pushed == ms[n].popped + ms[n].queue && |ms[n].queue| <= ms[n].capacity
  {
    RunKeeps(ms, steps, n);
    hide Run, BatchesFit, ProducersAwaited, ConsumersAwaited, ClosersClosed;
  }

  /**
   The counting behind it all. While the queue is open and somebody sleeps on a full queue, every
   free slot is still to be announced or a woken producer is on its way to it; dually for
   consumers and items. After a close every sleeper is still to be woken by the closer.
   */
  lemma SleepersAreAwaited<T>(ms: seq<Monitor<T>>, steps: seq<(nat, Action<T>)>, n: nat, t: nat)
    requires Run(ms, steps) && n < |ms| && t < |ms[n].threads|
    ensures var m := ms[n];
      && (m.threads[t].SleepsOnFull() && !m.closed ==> m.capacity - |m.queue| <= Owed(m.threads, true))
      && (m.threads[t].SleepsOnEmpty() && !m.closed ==> |m.queue| <= Owed(m.threads, false))
      && (m.threads[t].SleepsOnFull() && m.closed ==> CloseNotifyEmpty in m.threads || CloseNotifyFull in m.threads)
      && (m.threads[t].SleepsOnEmpty() && m.closed ==> CloseNotifyEmpty in m.threads)
  {
    RunKeeps(ms, steps, n);
    hide Run, BatchesFit, ClosersClosed, Owed;
  }

  // No thread has anything left to do but sleep or stay away.
  ghost predicate Quiet<T>(m: Monitor<T>) {
    forall i | 0 <= i < |m.threads| ::
      || m.threads[i] == Idle
      || (&& m.threads[i].Waiting? && m.threads[i].phase == Sleeping
          && (m.threads[i].call.PopBatch? ==> m.threads[i].call.batch == []))
  }

  lemma {:induction false} QuietOwesNothing<T>(threads: seq<Thread<T>>, p: bool)
    requires forall i | 0 <= i < |threads| :: OwedToProducers(threads[i]) == OwedToConsumers(threads[i]) == 0
    ensures Owed(threads, p) == 0
  {
    if threads != [] {
      QuietOwesNothing(threads[1..], p);
    }
  }

  /**
   No lost wakeup: once everything owed has been delivered, a producer sleeps only on a full
   open queue, a consumer only on an empty open one, and after a close nobody sleeps.
   */
  lemma NoLostWakeup<T>(ms: seq<Monitor<T>>, steps: seq<(nat, Action<T>)>, n: nat, t: nat)
    requires Run(ms, steps) && n < |ms| && Quiet(ms[n]) && t < |ms[n].threads|
    ensures ms[n].threads[t].SleepsOnFull() ==> !ms[n].closed && |ms[n].queue| == ms[n].capacity
    ensures ms[n].threads[t].SleepsOnEmpty() ==> !ms[n].closed && ms[n].queue == []
  {
    RunKeeps(ms, steps, n);
    QuietOwesNothing(ms[n].threads, true);
    QuietOwesNothing(ms[n].threads, false);
  }

  // The call of thread `t` that this step ends.
  ghost predicate Returns<T>(m: Monitor<T>, t: nat, m': Monitor<T>) {
    t < |m.threads| && t < |m'.threads| && m.threads[t] != Idle && m'.threads[t] == Idle
  }

  /**
   In every run: once closed the queue stays closed and nothing more is added. A popBatch that
   returns has at least one and at most maxItems items, or none, and then the queue is closed and drained.
   */
  lemma ClosedMeansDrained<T>(ms: seq<Monitor<T>>, steps: seq<(nat, Action<T>)>, n: nat)
    requires Run(ms, steps) && n < |steps|
    ensures ms[n].closed ==> ms[n + 1].closed && ms[n + 1].pushed == ms[n].pushed
    ensures var m, t := ms[n], steps[n].0;
      Returns(m, t, ms[n + 1]) ==>
        match m.threads[t]
        case BatchNotify(maxItems, batch) => 0 < |batch| <= maxItems
        case Waiting(PopBatch(maxItems, batch), _) => m.closed && m.queue == [] && batch == []
        case Waiting(Push(_), _) => m.closed
        case Waiting(Pop, _) => m.closed && m.queue == []
        case _ => true
  {
    RunKeeps(ms, steps, n);
    assert Step(ms[n], steps[n].0, steps[n].1, ms[n + 1]);
    hide Run, Owed, ProducersAwaited, ConsumersAwaited, ClosersClosed;
  }

  /** So no push can succeed after a close, at any distance. */
  lemma {:induction false} NothingAfterClose<T>(ms: seq<Monitor<T>>, steps: seq<(nat, Action<T>)>, i: nat, n: nat)
    requires Run(ms, steps) && i <= n < |ms| && ms[i].closed
    ensures ms[n].closed && ms[n].pushed == ms[i].pushed
  {
    hide Step, Inv;
    if i < n {
      NothingAfterClose(ms, steps, i, n - 1);
      ClosedMeansDrained(ms, steps, n - 1);
    }
  }

  // ---------- Time-outs ----------

  /**
   When the time of a popBatch is over and the queue is empty, taking the mutex ends the call:
   it returns exactly the items it held, and nothing leaves the queue.
   */
  lemma TimedOutReturns<T>(ms: seq<Monitor<T>>, steps: seq<(nat, Action<T>)>, n: nat, maxItems: nat, held: seq<T>)
    requires Run(ms, steps) && n < |steps| && steps[n].1 == Acquire
    requires steps[n].0 < |ms[n].threads|
    requires ms[n].threads[steps[n].0] == Waiting(PopBatch(maxItems, held), TimedOut) && ms[n].queue == []
    ensures held != [] && steps[n].0 < |ms[n + 1].threads|
    ensures ms[n + 1].threads[steps[n].0] == BatchNotify(maxItems, held)
    ensures ms[n + 1].popped == ms[n].popped && ms[n + 1].queue == []
  {
    RunKeeps(ms, steps, n);
    assert Step(ms[n], steps[n].0, steps[n].1, ms[n + 1]);
    hide Run, Owed, ProducersAwaited, ConsumersAwaited, ClosersClosed;
  }

  // Some steps of thread `t` alone.
  ghost predicate Alone<T>(m: Monitor<T>, t: nat, ms: seq<Monitor<T>>, actions: seq<Action<T>>) {
    && |ms| == |actions| + 1 && ms[0] == m
    && forall i | 0 <= i < |actions| :: Step(ms[i], t, actions[i], ms[i + 1])
  }

  lemma AloneThen<T>(m: Monitor<T>, t: nat, a: Action<T>, m1: Monitor<T>, ms: seq<Monitor<T>>, actions: seq<Action<T>>)
    requires Step(m, t, a, m1) && Alone(m1, t, ms, actions)
    ensures Alone(m, t, [m] + ms, [a] + actions)
  {
    hide Step;
    var ms', actions' := [m] + ms, [a] + actions;
    forall i | 0 <= i < |actions'| ensures Step(ms'[i], t, actions'[i], ms'[i + 1]) {
      assert i > 0 ==> ms'[i] == ms[i - 1] && ms'[i + 1] == ms[i] && actions'[i] == actions[i - 1];
    }
  }

  lemma AloneEnds<T>(m: Monitor<T>, t: nat, ms: seq<Monitor<T>>, actions: seq<Action<T>>, a: Action<T>,
                     last: Monitor<T>)
    requires Alone(m, t, ms, actions) && Step(ms[|actions|], t, a, last)
    ensures Alone(m, t, ms + [last], actions + [a])
  {
    hide Step;
    var ms', actions' := ms + [last], actions + [a];
    forall i | 0 <= i < |actions'| ensures Step(ms'[i], t, actions'[i], ms'[i + 1]) {
      assert i < |actions| ==> ms'[i] == ms[i] && ms'[i + 1] == ms[i + 1] && actions'[i] == actions[i];
    }
  }

  // A call that still collects, and has something.
  ghost predicate Collecting<T>(m: Monitor<T>, t: nat) {
    && t < |m.threads| && m.threads[t].Waiting? && m.threads[t].call.PopBatch?
    && 0 < |m.threads[t].call.batch| < m.threads[t].call.maxItems
  }

  // It is done, or it sleeps on an empty queue and its time has come.
  lemma ComesToNotify<T>(m: Monitor<T>, t: nat, emptied: bool) returns (ms: seq<Monitor<T>>, actions: seq<Action<T>>)
    requires Collecting(m, t) && (emptied ==> m.queue == [] && m.threads[t].phase == Sleeping)
    ensures Alone(m, t, ms, actions)
    ensures var call, last := m.threads[t].call, ms[|actions|];
      && t < |last.threads| && last.threads[t].BatchNotify?
      && last.threads[t].maxItems == call.maxItems && call.batch <= last.threads[t].batch
      && last.popped == m.popped + last.threads[t].batch[|call.batch|..]
      && |last.threads[t].batch| <= call.maxItems
    decreases !emptied, m.threads[t].phase == Sleeping
  {
    var call := m.threads[t].call;
    if m.threads[t].phase == Sleeping {
      var m1 := At(m, t, Waiting(call, TimedOut));
      assert Step(m, t, TimeOut, m1);
      if emptied {
        var m2 := At(m1, t, BatchNotify(call.maxItems, call.batch));
        assert Step(m1, t, Acquire, m2);
        assert m2.popped == m.popped + call.batch[|call.batch|..];
        AloneThen(m1, t, Acquire, m2, [m2], []);
        AloneThen(m, t, TimeOut, m1, [m1] + [m2], [Acquire] + []);
        ms, actions := [m] + ([m1] + [m2]), [TimeOut] + ([Acquire] + []);
      } else {
        var rest, more := ComesToNotify(m1, t, false);
        AloneThen(m, t, TimeOut, m1, rest, more);
        ms, actions := [m] + rest, [TimeOut] + more;
      }
    } else {
      var m1 := BatchSection(m, t, call.maxItems, call.batch, m.threads[t].phase == TimedOut);
      assert Step(m, t, Acquire, m1);
      CollectsMore(m, t);
      if m1.threads[t].BatchNotify? {
        AloneThen(m, t, Acquire, m1, [m1], []);
        ms, actions := [m] + [m1], [Acquire] + [];
      } else {
        var rest, more := ComesToNotify(m1, t, true);
        AloneThen(m, t, Acquire, m1, rest, more);
        ms, actions := [m] + rest, [Acquire] + more;
        var last := ms[|actions|];
        var got := m1.threads[t].call.batch;
        assert last.threads[t].batch[|call.batch|..] == got[|call.batch|..] + last.threads[t].batch[|got|..];
      }
    }
  }

  // One turn with the mutex: the call ends, or it sleeps on the queue that it has emptied.
  lemma CollectsMore<T>(m: Monitor<T>, t: nat)
    requires Collecting(m, t) && m.threads[t].phase != Sleeping
    ensures var call := m.threads[t].call;
      var m' := BatchSection(m, t, call.maxItems, call.batch, m.threads[t].phase == TimedOut);
      var th := m'.threads[t];
      && |m'.threads| == |m.threads|
      && (th.BatchNotify? || (Collecting(m', t) && m'.queue == [] && th.phase == Sleeping))
      && var batch := if th.BatchNotify? then th.batch else th.call.batch;
        && (if th.BatchNotify? then th.maxItems else th.call.maxItems) == call.maxItems
        && call.batch <= batch && |batch| <= call.maxItems && m'.popped == m.popped + batch[|call.batch|..]
  {
    var call := m.threads[t].call;
    if m.queue != [] {
      var n := Taken(m.queue, |call.batch|, call.maxItems);
      assert (call.batch + m.queue[..n])[|call.batch|..] == m.queue[..n];
    } else {
      assert call.batch[|call.batch|..] == [];
    }
  }

  /**
   A popBatch that has items never depends on anyone else: from every state of every run, steps of
   its own alone end the call, with the items it had and perhaps more from the front of the queue.
   */
  lemma BatchComesBack<T>(ms: seq<Monitor<T>>, steps: seq<(nat, Action<T>)>, n: nat, t: nat)
    returns (more: seq<Monitor<T>>, actions: seq<Action<T>>)
    requires Run(ms, steps) && n < |ms| && t < |ms[n].threads|
    requires ms[n].threads[t].Waiting? && ms[n].threads[t].call.PopBatch? && ms[n].threads[t].call.batch != []
    ensures Alone(ms[n], t, more, actions) && actions != []
    ensures var call, before, last := ms[n].threads[t].call, more[|actions| - 1], more[|actions|];
      && t < |before.threads| && before.threads[t].BatchNotify? && Returns(before, t, last)
      && var batch := before.threads[t].batch;
        && call.batch <= batch && |batch| <= call.maxItems
        && last.popped == ms[n].popped + batch[|call.batch|..]
  {
    RunKeeps(ms, steps, n);
    assert Collecting(ms[n], t) by {
      hide Run, Owed, ProducersAwaited, ConsumersAwaited, ClosersClosed;
    }
    hide Run, Inv;
    more, actions := ComesToNotify(ms[n], t, false);
    var before := more[|actions|];
    var last := before.(threads := NotifyAll(before.threads, true)[t := Idle]);
    assert Step(before, t, Notify(None), last);
    AloneEnds(ms[n], t, more, actions, Notify(None), last);
    more, actions := more + [last], actions + [Notify(None)];
  }

  // The items a thread has taken and not yet returned from its call.
  function Holds<T>(th: Thread<T>): seq<T> {
    match th
    case Waiting(PopBatch(_, batch), _) => batch
    case PopNotify(item) => [item]
    case BatchNotify(_, batch) => batch
    case _ => []
  }

  ghost predicate OnlyConsumer<T>(m: Monitor<T>, c: nat) {
    && c < |m.threads|
    && forall i | 0 <= i < |m.threads| && i != c ::
         Holds(m.threads[i]) == [] && (m.threads[i].Waiting? ==> m.threads[i].call.Push?)
  }

  ghost predicate EndsWith<T>(s: seq<T>, end: seq<T>) {
    |end| <= |s| && s[|s| - |end|..] == end
  }

  /** With a single consumer, what it holds is always the latest contiguous run of the queue's items. */
  lemma ContiguousBatches<T>(m: Monitor<T>, t: nat, a: Action<T>, m': Monitor<T>, c: nat)
    requires Inv(m) && Step(m, t, a, m') && OnlyConsumer(m, c) && OnlyConsumer(m', c)
    requires EndsWith(m.popped, Holds(m.threads[c]))
    ensures EndsWith(m'.popped, Holds(m'.threads[c]))
  {
    if a == Acquire && t == c {
      var call := m.threads[c].call;
      if call.Pop? {
        PopContiguous(m, c);
      } else if call.PopBatch? {
        BatchContiguous(m, c, call.maxItems, call.batch, m.threads[c].phase == TimedOut);
      }
    } else {
      OthersKeepHolding(m, t, a, m', c);
    }
  }

  /** In any run with one consumer, the batch in its hands is a contiguous run of what was pushed. */
  lemma {:induction false} SingleConsumerBatches<T>(ms: seq<Monitor<T>>, steps: seq<(nat, Action<T>)>, n: nat, c: nat)
    requires Run(ms, steps) && n < |ms| && forall i | 0 <= i <= n :: OnlyConsumer(ms[i], c)
    ensures OnlyConsumer(ms[n], c) && EndsWith(ms[n].popped, Holds(ms[n].threads[c]))
    ensures exists before :: before + Holds(ms[n].threads[c]) + ms[n].queue == ms[n].pushed
  {
    hide Step, Inv, Holds;
    FirstInFirstOut(ms, steps, n);
    assert OnlyConsumer(ms[n], c);
    if n == 0 {
      NothingHeld(ms[0], c);
    } else {
      SingleConsumerBatches(ms, steps, n - 1, c);
      RunKeeps(ms, steps, n - 1);
      assert OnlyConsumer(ms[n - 1], c);
      ContiguousBatches(ms[n - 1], steps[n - 1].0, steps[n - 1].1, ms[n], c);
    }
    var held, popped := Holds(ms[n].threads[c]), ms[n].popped;
    assert popped[..|popped| - |held|] + held == popped;
  }

  lemma NothingHeld<T>(m: Monitor<T>, c: nat)
    requires Init(m) && OnlyConsumer(m, c)
    ensures Holds(m.threads[c]) == []
  {
  }

  lemma PopContiguous<T>(m: Monitor<T>, c: nat)
    requires c < |m.threads|
    ensures EndsWith(PopSection(m, c).popped, Holds(PopSection(m, c).threads[c]))
  {
  }

  lemma BatchContiguous<T>(m: Monitor<T>, c: nat, maxItems: nat, held: seq<T>, timedOut: bool)
    requires c < |m.threads| && |held| < maxItems && EndsWith(m.popped, held)
    ensures var m' := BatchSection(m, c, maxItems, held, timedOut); EndsWith(m'.popped, Holds(m'.threads[c]))
  {
    var m' := BatchSection(m, c, maxItems, held, timedOut);
    if m.queue != [] {
      var taken := m.queue[..Taken(m.queue, |held|, maxItems)];
      assert Holds(m'.threads[c]) == held + taken;
      assert m'.popped == m.popped + taken;
      assert (m.popped + taken)[|m.popped| - |held|..] == m.popped[|m.popped| - |held|..] + taken;
    }
  }

  lemma OthersKeepHolding<T>(m: Monitor<T>, t: nat, a: Action<T>, m': Monitor<T>, c: nat)
    requires Inv(m) && Step(m, t, a, m') && OnlyConsumer(m, c) && !(a == Acquire && t == c)
    ensures m'.popped == m.popped
    ensures Holds(m'.threads[c]) == Holds(m.threads[c]) || Holds(m'.threads[c]) == []
  {
    hide Owed, ProducersAwaited, ConsumersAwaited, ClosersClosed, BatchesFit;
  }
}
