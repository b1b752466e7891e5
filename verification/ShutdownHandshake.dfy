/**
 How TcpServer::stop() and a concurrent acceptClient() agree on who closes what. Every atomic
 load, store or exchange, and every close, is a step of its own; any number of threads may stop.
 */
module ShutdownHandshake {
  import opened Words

  type Fd = nat

  datatype Acceptor =
    | Outside                     // not in acceptClient
    | ExchangeOld                 // clientFd_.exchange(-1) of the previous client
    | CloseOld(fd: Fd)
    | CheckStopped
    | LoadListen
    | Accepting(listen: Option<Fd>)
    | Failed                      // accept has failed, stopped_ is read next
    | StoreClient(fd: Fd)
    | Recheck                     // stopped_ is read again after the store
    | ExchangeNew
    | CloseNew(fd: Fd)
    | Finished                    // returned false or threw; the server's loop ends

  datatype Stopper =
    | NotCalled
    | ExchangeClient              // stopped_ has been set
    | CloseClient(fd: Fd)
    | ExchangeListen
    | CloseListen(fd: Fd)
    | Done

  /** `obtained` are all descriptors ever obtained, `closed` all close() calls ever made. */
  datatype State = State(
    listen: Option<Fd>, client: Option<Fd>, stopped: bool,
    acceptor: Acceptor, stoppers: seq<Stopper>,
    obtained: set<Fd>, closed: multiset<Fd>)

  ghost predicate Init(s: State) {
    && s.listen.Some? && s.client == None && !s.stopped
    && s.acceptor == Outside && (forall i | 0 <= i < |s.stoppers| :: s.stoppers[i] == NotCalled)
    && s.obtained == {s.listen.value} && s.closed == multiset{}
  }

  ghost predicate AcceptorStep(s: State, s': State) {
    match s.acceptor
    case Outside => s' == s.(acceptor := ExchangeOld)
    case ExchangeOld =>
      s' == s.(client := None, acceptor := if s.client.Some? then CloseOld(s.client.value) else CheckStopped)
    case CloseOld(fd) => s' == s.(acceptor := CheckStopped, closed := s.closed + multiset{fd})
    case CheckStopped => s' == s.(acceptor := if s.stopped then Finished else LoadListen)
    case LoadListen => s' == s.(acceptor := Accepting(s.listen))
    case Accepting(listen) =>
      || s' == s.(acceptor := Failed)
      || (&& listen.Some?
          && exists fd: Fd :: fd !in s.obtained
                           && s' == s.(acceptor := StoreClient(fd), obtained := s.obtained + {fd}))
    case Failed => s' == s.(acceptor := Finished)
    case StoreClient(fd) => s' == s.(client := Some(fd), acceptor := Recheck)
    case Recheck => s' == s.(acceptor := if s.stopped then ExchangeNew else Outside)
    case ExchangeNew =>
      s' == s.(client := None, acceptor := if s.client.Some? then CloseNew(s.client.value) else Finished)
    case CloseNew(fd) => s' == s.(acceptor := Finished, closed := s.closed + multiset{fd})
    case Finished => false
  }

  ghost predicate StopperStep(s: State, i: nat, s': State) {
    i < |s.stoppers| &&
    match s.stoppers[i]
    case NotCalled => s' == s.(stopped := true, stoppers := s.stoppers[i := ExchangeClient])
    case ExchangeClient =>
      s' == s.(client := None,
               stoppers := s.stoppers[i := if s.client.Some? then CloseClient(s.client.value) else ExchangeListen])
    case CloseClient(fd) =>
      s' == s.(stoppers := s.stoppers[i := ExchangeListen], closed := s.closed + multiset{fd})
    case ExchangeListen =>
      s' == s.(listen := None,
               stoppers := s.stoppers[i := if s.listen.Some? then CloseListen(s.listen.value) else Done])
    case CloseListen(fd) =>
      s' == s.(stoppers := s.stoppers[i := Done], closed := s.closed + multiset{fd})
    case Done => false
  }

  ghost predicate Step(s: State, s': State) {
    AcceptorStep(s, s') || exists i: nat :: StopperStep(s, i, s')
  }

  // ---------- Where an open descriptor is: how often `fd` is in each place ----------

  function InField(o: Option<Fd>, fd: Fd): nat {
    if o == Some(fd) then 1 else 0
  }

  function WithAcceptor(a: Acceptor, fd: Fd): nat {
    if a == CloseOld(fd) || a == StoreClient(fd) || a == CloseNew(fd) then 1 else 0
  }

  function WithStopper(t: Stopper, fd: Fd): nat {
    if t == CloseClient(fd) || t == CloseListen(fd) then 1 else 0
  }

  function WithStoppers(ts: seq<Stopper>, fd: Fd): nat {
    if ts == [] then 0 else WithStopper(ts[0], fd) + WithStoppers(ts[1..], fd)
  }

  lemma {:induction false} WithUpdate(ts: seq<Stopper>, i: nat, t: Stopper, fd: Fd)
    requires i < |ts|
    ensures WithStoppers(ts[i := t], fd) + WithStopper(ts[i], fd) == WithStoppers(ts, fd) + WithStopper(t, fd)
  {
    hide WithStopper;
    if i == 0 {
      assert ts[i := t][1..] == ts[1..];
    } else {
      WithUpdate(ts[1..], i - 1, t, fd);
      assert ts[i := t][1..] == ts[1..][i - 1 := t];
    }
  }

  function Uses(s: State, fd: Fd): nat {
    InField(s.listen, fd) + InField(s.client, fd) + WithAcceptor(s.acceptor, fd) + WithStoppers(s.stoppers, fd)
    + s.closed[fd]
  }

  /** Every descriptor is in exactly one place: a field, one thread's hands, or closed. */
  ghost predicate Conserved(s: State) {
    forall fd: Fd :: Uses(s, fd) == if fd in s.obtained then 1 else 0
  }

  predicate PastClient(t: Stopper) {
    t != NotCalled && t != ExchangeClient
  }

  // Once a stop has emptied the client field, only an acceptor about to empty it again may fill it.
  ghost predicate Agreed(s: State) {
    && (forall i | 0 <= i < |s.stoppers| && s.stoppers[i] != NotCalled :: s.stopped)
    && (forall i | 0 <= i < |s.stoppers| && PastClient(s.stoppers[i]) ::
          s.client.Some? ==> s.acceptor in {Recheck, ExchangeNew})
    && (forall i | 0 <= i < |s.stoppers| && (s.stoppers[i].CloseListen? || s.stoppers[i].Done?) :: s.listen == None)
    && (s.acceptor != Outside && s.acceptor != ExchangeOld && s.client.Some? ==> s.acceptor in {Recheck, ExchangeNew})
  }

  ghost predicate Inv(s: State) {
    Conserved(s) && Agreed(s)
  }

  // The acceptor only moves descriptors, and adds the one it has just accepted.
  lemma AcceptorMoves(s: State, s': State, fd: Fd)
    requires Inv(s) && AcceptorStep(s, s') && (Uses(s, fd) == if fd in s.obtained then 1 else 0)
    ensures Uses(s', fd) == if fd in s'.obtained then 1 else 0
  {
    hide WithStoppers, Conserved;
  }

  lemma AcceptorConserves(s: State, s': State)
    requires Inv(s) && AcceptorStep(s, s')
    ensures Conserved(s')
  {
    hide Uses, Agreed, AcceptorStep;
    forall fd: Fd ensures Uses(s', fd) == if fd in s'.obtained then 1 else 0 {
      AcceptorMoves(s, s', fd);
    }
  }

  lemma AcceptorAgrees(s: State, s': State)
    requires Agreed(s) && AcceptorStep(s, s')
    ensures Agreed(s')
  {
  }

  lemma StopperMoves(s: State, i: nat, s': State, fd: Fd)
    requires StopperStep(s, i, s')
    ensures Uses(s', fd) == Uses(s, fd) && s'.obtained == s.obtained
  {
    hide WithStoppers;
    WithUpdate(s.stoppers, i, s'.stoppers[i], fd);
  }

  lemma StopperConserves(s: State, i: nat, s': State)
    requires Conserved(s) && StopperStep(s, i, s')
    ensures Conserved(s')
  {
    hide Uses, StopperStep;
    forall fd: Fd ensures Uses(s', fd) == if fd in s'.obtained then 1 else 0 {
      StopperMoves(s, i, s', fd);
      assert Uses(s, fd) == if fd in s.obtained then 1 else 0;
    }
  }

  lemma StopperAgrees(s: State, i: nat, s': State)
    requires Agreed(s) && StopperStep(s, i, s')
    ensures Agreed(s')
  {
    assert forall j | 0 <= j < |s.stoppers| && j != i :: s'.stoppers[j] == s.stoppers[j];
  }

  lemma AcceptorKeeps(s: State, s': State)
    requires Inv(s) && AcceptorStep(s, s')
    ensures Inv(s')
  {
    hide Conserved, Agreed, AcceptorStep;
    AcceptorConserves(s, s');
    AcceptorAgrees(s, s');
  }

  lemma StopperKeeps(s: State, i: nat, s': State)
    requires Inv(s) && StopperStep(s, i, s')
    ensures Inv(s')
  {
    hide Conserved, Agreed, StopperStep;
    StopperConserves(s, i, s');
    StopperAgrees(s, i, s');
  }

  ghost predicate Run(ss: seq<State>) {
    && |ss| > 0 && Init(ss[0])
    && forall i | 0 <= i < |ss| - 1 :: Step(ss[i], ss[i + 1])
  }

  lemma {:induction false} NobodyHolds(ts: seq<Stopper>, fd: Fd)
    requires forall i | 0 <= i < |ts| :: ts[i] in {NotCalled, Done}
    ensures WithStoppers(ts, fd) == 0
  {
    if ts != [] {
      NobodyHolds(ts[1..], fd);
    }
  }

  lemma {:induction false} RunKeeps(ss: seq<State>, n: nat)
    requires Run(ss) && n < |ss|
    ensures Inv(ss[n])
  {
    if n == 0 {
      forall fd: Fd ensures Uses(ss[0], fd) == if fd in ss[0].obtained then 1 else 0 {
        NobodyHolds(ss[0].stoppers, fd);
      }
    } else {
      RunKeeps(ss, n - 1);
      hide Inv, AcceptorStep, StopperStep;
      assert Step(ss[n - 1], ss[n - 1 + 1]);
      if AcceptorStep(ss[n - 1], ss[n]) {
        AcceptorKeeps(ss[n - 1], ss[n]);
      } else {
        var i: nat :| StopperStep(ss[n - 1], i, ss[n]);
        StopperKeeps(ss[n - 1], i, ss[n]);
      }
    }
  }

  /**
   However the calls interleave: once a stop has returned, every other stop that was called has
   too, and the acceptor is out of acceptClient, no descriptor is left in either field and each
   one ever obtained has been closed exactly once.
   */
  lemma StopClosesEverythingOnce(ss: seq<State>, n: nat, i: nat)
    requires Run(ss) && n < |ss| && i < |ss[n].stoppers| && ss[n].stoppers[i] == Done
    requires forall j | 0 <= j < |ss[n].stoppers| :: ss[n].stoppers[j] in {NotCalled, Done}
    requires ss[n].acceptor in {Outside, Finished}
    ensures ss[n].listen == None && ss[n].client == None
    ensures forall fd: Fd :: ss[n].closed[fd] == if fd in ss[n].obtained then 1 else 0
  {
    RunKeeps(ss, n);
    var s := ss[n];
    forall fd: Fd ensures s.closed[fd] == if fd in s.obtained then 1 else 0 {
      NobodyHolds(s.stoppers, fd);
      assert Uses(s, fd) == if fd in s.obtained then 1 else 0;
    }
  }

  /** No descriptor is ever closed twice, nor while a field still names it, at any moment of any run. */
  lemma NeverClosedTwice(ss: seq<State>, n: nat, fd: Fd)
    requires Run(ss) && n < |ss|
    ensures ss[n].closed[fd] <= 1
    ensures ss[n].client == Some(fd) || ss[n].listen == Some(fd) ==> ss[n].closed[fd] == 0
  {
    RunKeeps(ss, n);
    assert Uses(ss[n], fd) <= 1;
  }

  // ---------- A stop comes to an end ----------

  // How many steps acceptClient may still take once a stop has been called.
  function AcceptorLeft(a: Acceptor): nat {
    match a
    case LoadListen => 6
    case Accepting(_) => 5
    case Outside => 4
    case StoreClient(_) => 4
    case ExchangeOld => 3
    case Recheck => 3
    case CloseOld(_) => 2
    case ExchangeNew => 2
    case CheckStopped => 1
    case Failed => 1
    case CloseNew(_) => 1
    case Finished => 0
  }

  function StopperLeft(t: Stopper): nat {
    match t
    case NotCalled => 5
    case ExchangeClient => 4
    case CloseClient(_) => 3
    case ExchangeListen => 2
    case CloseListen(_) => 1
    case Done => 0
  }

  function StoppersLeft(ts: seq<Stopper>): (n: nat)
    ensures n <= 5 * |ts|
  {
    if ts == [] then 0 else StopperLeft(ts[0]) + StoppersLeft(ts[1..])
  }

  function Left(s: State): nat {
    AcceptorLeft(s.acceptor) + StoppersLeft(s.stoppers)
  }

  lemma {:induction false} LeftUpdate(ts: seq<Stopper>, i: nat, t: Stopper)
    requires i < |ts|
    ensures StoppersLeft(ts[i := t]) + StopperLeft(ts[i]) == StoppersLeft(ts) + StopperLeft(t)
  {
    hide StopperLeft;
    if i == 0 {
      assert ts[i := t][1..] == ts[1..];
    } else {
      LeftUpdate(ts[1..], i - 1, t);
      assert ts[i := t][1..] == ts[1..][i - 1 := t];
    }
  }

  lemma StepUsesOneUp(s: State, s': State)
    requires s.stopped && Step(s, s')
    ensures s'.stopped && Left(s') < Left(s) && |s'.stoppers| == |s.stoppers|
  {
    hide AcceptorStep, StopperStep, Left;
    if AcceptorStep(s, s') {
      AcceptorUsesOneUp(s, s');
    } else {
      var i: nat :| StopperStep(s, i, s');
      StopperUsesOneUp(s, i, s');
    }
  }

  lemma AcceptorUsesOneUp(s: State, s': State)
    requires s.stopped && AcceptorStep(s, s')
    ensures s'.stopped && s'.stoppers == s.stoppers && Left(s') < Left(s)
  {
    hide StoppersLeft;
  }

  lemma StopperUsesOneUp(s: State, i: nat, s': State)
    requires s.stopped && StopperStep(s, i, s')
    ensures s'.stopped && |s'.stoppers| == |s.stoppers| && Left(s') < Left(s)
  {
    hide StoppersLeft, AcceptorLeft;
    LeftUpdate(s.stoppers, i, s'.stoppers[i]);
  }

  /** Once a stop has been called nothing goes on for ever: there are at most 6 further steps and 5 for each stop. */
  lemma {:induction false} StopIsBounded(ss: seq<State>, i: nat, n: nat)
    requires Run(ss) && i <= n < |ss| && ss[i].stopped
    ensures ss[n].stopped && |ss[n].stoppers| == |ss[i].stoppers|
    ensures n - i + Left(ss[n]) <= Left(ss[i]) <= 6 + 5 * |ss[i].stoppers|
  {
    hide Step, Init;
    if i < n {
      StopIsBounded(ss, i, n - 1);
      assert Step(ss[n - 1], ss[n - 1 + 1]);
      StepUsesOneUp(ss[n - 1], ss[n]);
    }
  }

  /** Nor does anything get stuck: acceptClient can go on until it has finished, and so can every stop. */
  lemma NobodyIsStuck(s: State, i: nat)
    ensures s.acceptor != Finished ==> exists s' :: AcceptorStep(s, s')
    ensures i < |s.stoppers| && s.stoppers[i] != Done ==> exists s' :: StopperStep(s, i, s')
  {
    if s.acceptor != Finished {
      var s' := AcceptorGoesOn(s);
    }
    if i < |s.stoppers| && s.stoppers[i] != Done {
      var s' := StopperGoesOn(s, i);
    }
  }

  lemma AcceptorGoesOn(s: State) returns (s': State)
    requires s.acceptor != Finished
    ensures AcceptorStep(s, s')
  {
    match s.acceptor
    case Outside => s' := s.(acceptor := ExchangeOld);
    case ExchangeOld =>
      s' := s.(client := None, acceptor := if s.client.Some? then CloseOld(s.client.value) else CheckStopped);
    case CloseOld(fd) => s' := s.(acceptor := CheckStopped, closed := s.closed + multiset{fd});
    case CheckStopped => s' := s.(acceptor := if s.stopped then Finished else LoadListen);
    case LoadListen => s' := s.(acceptor := Accepting(s.listen));
    case Accepting(_) => s' := s.(acceptor := Failed);
    case Failed => s' := s.(acceptor := Finished);
    case StoreClient(fd) => s' := s.(client := Some(fd), acceptor := Recheck);
    case Recheck => s' := s.(acceptor := if s.stopped then ExchangeNew else Outside);
    case ExchangeNew =>
      s' := s.(client := None, acceptor := if s.client.Some? then CloseNew(s.client.value) else Finished);
    case CloseNew(fd) => s' := s.(acceptor := Finished, closed := s.closed + multiset{fd});
  }

  lemma StopperGoesOn(s: State, i: nat) returns (s': State)
    requires i < |s.stoppers| && s.stoppers[i] != Done
    ensures StopperStep(s, i, s')
  {
    var ts := s.stoppers;
    match ts[i]
    case NotCalled => s' := s.(stopped := true, stoppers := ts[i := ExchangeClient]);
    case ExchangeClient =>
      s' := s.(client := None,
               stoppers := ts[i := if s.client.Some? then CloseClient(s.client.value) else ExchangeListen]);
    case CloseClient(fd) => s' := s.(stoppers := ts[i := ExchangeListen], closed := s.closed + multiset{fd});
    case ExchangeListen =>
      s' := s.(listen := None,
               stoppers := ts[i := if s.listen.Some? then CloseListen(s.listen.value) else Done]);
    case CloseListen(fd) => s' := s.(stoppers := ts[i := Done], closed := s.closed + multiset{fd});
  }
}
