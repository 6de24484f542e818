/** Laws of the signal engine of module Signals. */
module SignalLaws {
  import opened Prelude
  import opened ThreadStates
  import opened Signals

  // ------------------------------------------------------------ no signal lost

  /** The signals a log leaves outstanding: entered, and since then neither
      delivered nor discarded. */
  function Outstanding(log: seq<Event>): set<Sig>
  {
    if log == [] then {} else
    var before := Outstanding(log[..|log| - 1]);
    match log[|log| - 1]
    case Entered(n) => before + {n}
    case Delivered(n) => before - {n}
    case Discarded(n) => before - {n}
  }

  /** The pending set is exactly what the log leaves outstanding, and holds only
      signals that exist. */
  predicate Accounted(s: State)
  {
    s.pending == Outstanding(s.log) && forall n :: n in s.pending ==> SigValid(n)
  }

  lemma LogStep(s: State, n: Sig)
    requires Accounted(s)
    ensures SigValid(n) ==> Accounted(Enter(s, n))
    ensures Accounted(Take(s, n)) && Accounted(Discard(s, n))
  {
    assert (s.log + [Entered(n)])[..|s.log|] == s.log;
    assert (s.log + [Delivered(n)])[..|s.log|] == s.log;
    assert (s.log + [Discarded(n)])[..|s.log|] == s.log;
  }

  lemma KillAccounted(s: State, n: Sig, state: ThreadState, cancelled: bool)
    requires Accounted(s)
    ensures Accounted(Kill(s, n, state, cancelled))
  {
    LogStep(s, n);
  }

  lemma {:induction false} KillAllAccounted(s: State, arrivals: seq<Sig>)
    requires Accounted(s)
    ensures Accounted(KillAll(s, arrivals))
  {
    if arrivals != [] {
      KillAllAccounted(s, arrivals[..|arrivals| - 1]);
      KillAccounted(KillAll(s, arrivals[..|arrivals| - 1]), arrivals[|arrivals| - 1], SigWait, false);
    }
  }

  lemma {:induction false} DeliverPendingAccounted(s: State, signo: nat)
    requires 1 <= signo <= NSIG && Accounted(s)
    ensures Accounted(DeliverPending(s, signo))
    decreases |s.script|, 2, |Ready(s)|, NSIG - signo
  {
    if s.stopped || Ready(s) == {} || signo == NSIG {
    } else if signo in Ready(s) {
      DeliverSignalAccounted(s, signo);
      var r := DeliverSignal(s, signo);
      if !r.stopped {
        if |r.script| == |s.script| { Smaller(Ready(r), Ready(s), signo); }
        DeliverPendingAccounted(r, 1);
      }
    } else {
      DeliverPendingAccounted(s, signo + 1);
    }
  }

  lemma {:induction false} DeliverSignalAccounted(s: State, n: Sig)
    requires n < NSIG && Accounted(s)
    ensures Accounted(DeliverSignal(s, n))
    decreases |s.script|, 1
  {
    LogStep(s, n);
    var p, s1 := s.actions[n], Take(s, n);
    if p.handler == User {
      if p.sysv {
        RunHandlerAccounted(s1.(actions := s1.actions[n := p.(handler := SIG_DFL)]), n);
      } else if p.ack {
        RunHandlerAccounted(s1.(blocked := s1.blocked + {n}), n);
      } else {
        RunHandlerAccounted(SetBlocked(s1, s1.blocked + {n} + p.mask), n);
      }
    }
  }

  lemma {:induction false} PauseAccounted(s: State, arrivals: seq<Sig>)
    requires Accounted(s)
    ensures Accounted(PauseFor(s, arrivals))
    decreases |s.script|, 2, |Ready(KillAll(s, arrivals))| + 1, 0
  {
    KillAllAccounted(s, arrivals);
    DeliverPendingAccounted(KillAll(s, arrivals).(counter := 0), 1);
  }

  lemma {:induction false} RunHandlerAccounted(s: State, n: Sig)
    requires Accounted(s)
    ensures Accounted(RunHandler(s, n))
    decreases |s.script|, 0
  {
    if s.script != [] {
      RunCallsAccounted(s.(ran := s.ran + [n], script := s.script[1..]), s.script[0]);
    }
  }

  /** Over every run of calls, handlers re-entering as they please: a signal that
      was entered in the pending set stays there until it is delivered to this
      thread or discarded by sigaction. */
  lemma {:induction false} RunCallsAccounted(s: State, calls: seq<Call>)
    requires Accounted(s)
    ensures Accounted(RunCalls(s, calls))
    decreases |s.script|, 4, |calls|
  {
    if calls != [] && !s.stopped {
      PerformAccounted(s, calls[0]);
      RunCallsAccounted(Perform(s, calls[0]), calls[1..]);
    }
  }

  lemma RaiseIs(s: State, n: Sig)
    ensures Perform(s, Raise(n)) ==
              if !Posts(s, n) then s
              else if s.deferred then Enter(s, n).(counter := s.counter + 1)
              else DeliverPending(Enter(s, n).(counter := 0), 1)
  {
  }

  lemma NativeIs(s: State, n: Sig)
    ensures Perform(s, Native(n)) ==
              if !SigValid(n) then s
              else if s.deferred then Enter(s, n).(counter := s.counter + 1)
              else DeliverSignal(Enter(s, n), n)
  {
  }

  lemma CheckpointIs(s: State)
    ensures Perform(s, Checkpoint) ==
              if s.counter != 0 && !s.deferred then DeliverPending(s.(counter := 0), 1) else s
  {
  }

  lemma {:induction false} RaiseAccounted(s: State, n: Sig)
    requires Accounted(s)
    ensures Accounted(Perform(s, Raise(n)))
    decreases |s.script|, 2, |s.pending| + 2, 0
  {
    RaiseIs(s, n);
    LogStep(s, n);
    if Posts(s, n) {
      var m := Enter(s, n).(counter := 0);
      SubsetCardinality(Ready(m), s.pending + {n});
      DeliverPendingAccounted(m, 1);
    }
  }

  lemma {:induction false} NativeAccounted(s: State, n: Sig)
    requires Accounted(s)
    ensures Accounted(Perform(s, Native(n)))
    decreases |s.script|, 2
  {
    NativeIs(s, n);
    LogStep(s, n);
    if SigValid(n) { DeliverSignalAccounted(Enter(s, n), n); }
  }

  lemma SigactionAccounted(s: State, n: Sig, action: Action)
    requires Accounted(s)
    ensures Accounted(SetAction(s, n, action))
  {
    if n < NSIG { LogStep(s.(actions := s.actions[n := action]), n); }
  }

  lemma {:induction false} PerformAccounted(s: State, call: Call)
    requires Accounted(s)
    ensures Accounted(Perform(s, call))
    decreases |s.script|, 3
  {
    match call
    case Sigmask(how, newSet) =>
      var s1 := if newSet.Some? then SetBlocked(s, NewMask(s, how, newSet.value)) else s;
      DeliverPendingAccounted(s1.(counter := 0), 1);
    case Acknowledge(n) => DeliverPendingAccounted(s.(blocked := s.blocked - {n}, counter := 0), 1);
    case Sigsuspend(mask, arrivals) => PauseAccounted(SetBlocked(s, mask), arrivals);
    case Pause(arrivals) => PauseAccounted(s, arrivals);
    case Checkpoint => DeliverPendingAccounted(s.(counter := 0), 1);
    case KillFrom(n, state, cancelled) => KillAccounted(s, n, state, cancelled);
    case Raise(n) => RaiseAccounted(s, n);
    case Native(n) => NativeAccounted(s, n);
    case Sigaction(n, action) => SigactionAccounted(s, n, action);
  }

  // -------------------------------------------------- what delivery leaves over

  lemma {:induction false} DeliverPendingSettles(s: State, signo: nat)
    requires 1 <= signo <= NSIG && Accounted(s)
    requires forall k :: 1 <= k < signo ==> k !in Ready(s)
    ensures var r := DeliverPending(s, signo);
            r.stopped || Ready(r) == {}
    decreases |s.script|, 2, |Ready(s)|, NSIG - signo
  {
    assert signo == NSIG ==> Ready(s) == {} by {
      assert forall n: Sig :: n in Ready(s) ==> SigValid(n);
    }
    if s.stopped || Ready(s) == {} || signo == NSIG {
    } else if signo in Ready(s) {
      DeliverSignalAccounted(s, signo);
      var r := DeliverSignal(s, signo);
      if !r.stopped {
        if |r.script| == |s.script| { Smaller(Ready(r), Ready(s), signo); }
        DeliverPendingSettles(r, 1);
      }
    } else {
      DeliverPendingSettles(s, signo + 1);
    }
  }

  predicate IsLowest(n: Sig, a: set<Sig>)
  {
    n in a && forall k :: k in a ==> n <= k
  }

  lemma {:induction false} ScanFindsLowest(s: State, signo: nat, n: Sig)
    requires 1 <= signo <= n && Accounted(s) && !s.stopped && IsLowest(n, Ready(s))
    ensures n < NSIG
    ensures var r := DeliverSignal(s, n);
            DeliverPending(s, signo) == if r.stopped then r else DeliverPending(r, 1)
    decreases n - signo
  {
    assert SigValid(n);
    if signo < n {
      ScanFindsLowest(s, signo + 1, n);
    }
  }

  /** The rescanning loop delivers the lowest-numbered deliverable signal first,
      time after time; when it stops without ending the process, whatever is
      pending is blocked, and sigpending reports all of it. This holds whatever
      the handlers do. */
  lemma DeliveryIsLowestFirst(s: State)
    requires Accounted(s)
    ensures var r := DeliverPending(s, 1);
            r.stopped || (r.pending <= r.blocked && r.blocked * r.pending == r.pending)
    ensures s.stopped || Ready(s) == {} ==> DeliverPending(s, 1) == s
    ensures forall n: Sig :: !s.stopped && IsLowest(n, Ready(s)) ==>
              && n < NSIG
              && DeliverPending(s, 1) ==
                 var r := DeliverSignal(s, n); if r.stopped then r else DeliverPending(r, 1)
  {
    DeliverPendingSettles(s, 1);
    forall n: Sig | !s.stopped && IsLowest(n, Ready(s))
      ensures n < NSIG && DeliverPending(s, 1) ==
              var r := DeliverSignal(s, n); if r.stopped then r else DeliverPending(r, 1)
    {
      assert SigValid(n);
      ScanFindsLowest(s, 1, n);
    }
    var r := DeliverPending(s, 1);
    assert r.stopped || r.pending <= r.blocked by {
      if !r.stopped {
        forall n | n in r.pending ensures n in r.blocked {
          assert n !in Ready(r);
        }
      }
    }
  }

  // ------------------------------------------------------------- consequences

  lemma {:induction false} EnteredStaysOutstanding(log: seq<Event>, i: nat, n: Sig)
    requires i < |log| && log[i] == Entered(n)
    requires forall j :: i < j < |log| ==> log[j] != Delivered(n) && log[j] != Discarded(n)
    ensures n in Outstanding(log)
  {
    if i < |log| - 1 {
      EnteredStaysOutstanding(log[..|log| - 1], i, n);
    }
  }

  /** Starting from a fresh thread: if a signal was entered in the pending set and is
      no longer pending, it was delivered or discarded after that. */
  lemma EnteredSignalIsNotLost(s: State, calls: seq<Call>, i: nat, n: Sig)
    requires s.pending == {} && s.log == []
    requires i < |RunCalls(s, calls).log| && RunCalls(s, calls).log[i] == Entered(n)
    ensures var r := RunCalls(s, calls);
            n in r.pending || exists j :: i < j < |r.log| && (r.log[j] == Delivered(n) || r.log[j] == Discarded(n))
  {
    RunCallsAccounted(s, calls);
    var r := RunCalls(s, calls);
    if forall j :: i < j < |r.log| ==> r.log[j] != Delivered(n) && r.log[j] != Discarded(n) {
      EnteredStaysOutstanding(r.log, i, n);
    }
  }

  /** The standard's rule (section 3.3.1.3 of ISO/IEC 9945-1): setting an action
      discards the pending signal if the signal is then ignored, explicitly or by
      default; otherwise it stays pending. */
  predicate MustDiscard(n: Sig, action: Action)
  {
    action.handler == SIG_IGN || (action.handler == SIG_DFL && DflAction(n) == IGNORE)
  }

  /** pthread_sigaction has the default case the wrong way round: for a signal that
      is pending it follows the standard exactly when the new action is not SIG_DFL. */
  lemma SigactionMeetsStandardExactlyUnlessDefault(s: State, n: Sig, action: Action)
    requires n < NSIG && SigValid(n) && n != SIGKILL
    ensures var r := SetAction(s, n, action);
            && r.actions == s.actions[n := action]
            && (r.pending == (if MustDiscard(n, action) then s.pending - {n} else s.pending)
                <==> (n in s.pending ==> action.handler != SIG_DFL))
  {
    assert n in s.pending ==> n in s.pending && n !in s.pending - {n};
  }

  // ------------------------------------------------------- does kill reach its target

  const EINTR: int := 4

  /** How a wait ended: whether the event it waits for was posted (rc == 0), and for a
      read or write the value it returned. */
  datatype Ending = Ending(posted: bool, returned: int)

  /** What a thread does about signals when it leaves the state it was sent one in and
      returns to its caller: pthread_pause delivers, pthread_sleep if it was posted;
      pthread_read and pthread_write deliver if the call returned the value EINTR;
      pthread_select looks at the counter, and the mutex and condition calls end in a
      checkpoint. pthread_join and locking do nothing, nor does a thread that runs, is
      resumed, or gets its state back from a handler thread. */
  function Leave(s: State, state: ThreadState, end: Ending): State
  {
    match state
    case SigWait => DeliverPending(s.(counter := 0), 1)
    case SleepWait => if end.posted then DeliverPending(s.(counter := 0), 1) else s
    case FdrWait => if end.returned == EINTR then DeliverPending(s.(counter := 0), 1) else s
    case FdwWait => if end.returned == EINTR then DeliverPending(s.(counter := 0), 1) else s
    case SelectWait => if s.counter != 0 then DeliverPending(s.(counter := 0), 1) else s
    case MutexWait => Perform(s, Checkpoint)
    case CondWait => Perform(s, Checkpoint)
    case _ => s
  }

  /** Whether that is a delivery, for a thread that has just been sent a signal. */
  predicate Delivers(state: ThreadState, end: Ending, deferred: bool)
  {
    match state
    case SigWait => true
    case SelectWait => true
    case SleepWait => end.posted
    case FdrWait => end.returned == EINTR
    case FdwWait => end.returned == EINTR
    case MutexWait => !deferred
    case CondWait => !deferred
    case _ => false
  }

  lemma LeaveAfterKill(s: State, n: Sig, state: ThreadState, cancelled: bool, end: Ending)
    requires Posts(s, n)
    ensures var k := Kill(s, n, state, cancelled);
            Leave(k, state, end) ==
              if Delivers(state, end, s.deferred) then DeliverPending(k.(counter := 0), 1) else k
  {
  }

  /** Nothing is pending that could be delivered, or the thread goes no further. */
  predicate Settled(r: State)
  {
    r.stopped || r.pending <= r.blocked
  }

  lemma SettledMeansNothingReady(r: State)
    requires !r.stopped
    ensures Settled(r) <==> Ready(r) == {}
  {
    if Ready(r) != {} {
      var m :| m in Ready(r);
      assert m in r.pending && m !in r.blocked;
    } else {
      forall m | m in r.pending ensures m in r.blocked { assert m !in Ready(r); }
    }
  }

  lemma DeliverySettles(s: State)
    requires Accounted(s)
    ensures Settled(DeliverPending(s, 1))
  {
    DeliveryIsLowestFirst(s);
  }

  /** A signal sent by pthread_kill and not ignored is entered; and when the target has
      left the state it was in, everything still pending is blocked if and only if leaving
      that state delivers, or nothing was deliverable anyway. */
  lemma KilledSignalIsDeliveredExactlyOnDelivery(s: State, n: Sig, state: ThreadState, cancelled: bool, end: Ending)
    requires Accounted(s) && !s.stopped && Posts(s, n)
    ensures var k := Kill(s, n, state, cancelled);
            && n in k.pending
            && (Settled(Leave(k, state, end)) <==> Delivers(state, end, s.deferred) || Ready(k) == {})
  {
    var k := Kill(s, n, state, cancelled);
    KillAccounted(s, n, state, cancelled);
    LeaveAfterKill(s, n, state, cancelled, end);
    KillEnters(s, n, state, cancelled);
    if Delivers(state, end, s.deferred) {
      DeliverySettles(k.(counter := 0));
    } else {
      SettledMeansNothingReady(k);
    }
  }

  lemma KillEnters(s: State, n: Sig, state: ThreadState, cancelled: bool)
    requires Posts(s, n)
    ensures var k := Kill(s, n, state, cancelled); n in k.pending && k == Enter(s, n).(counter := k.counter)
  {
  }

  /** A signal sent to a thread in pthread_join, unblocked and with a handler, is still
      pending and its handler has not run when the join returns. The checkpoint of some
      later call finds it. */
  lemma SignalSentToAJoinerIsLeft(s: State, n: Sig, end: Ending)
    requires Accounted(s) && !s.stopped && Posts(s, n) && s.actions[n].handler == User && n !in s.blocked
    ensures var r := Leave(Kill(s, n, ThreadState.Join, false), ThreadState.Join, end);
            && n in r.pending && n !in r.blocked && !r.stopped && r.ran == s.ran
            && (!s.deferred ==> Settled(Perform(r, Checkpoint)))
  {
    LeaveAfterKill(s, n, ThreadState.Join, false, end);
    var r := Kill(s, n, ThreadState.Join, false);
    KillAccounted(s, n, ThreadState.Join, false);
    CheckpointIs(r);
    DeliverySettles(r.(counter := 0));
  }

  /** A signal that aborts a read is not counted, and a read that fails returns -1, which
      is not EINTR: unless signals were counted before, not even a checkpoint finds it. */
  lemma SignalThatAbortsAReadIsForgotten(s: State, n: Sig, posted: bool)
    requires Accounted(s) && !s.stopped && Posts(s, n) && s.counter == 0 && n !in s.blocked
    ensures var r := Leave(Kill(s, n, FdrWait, true), FdrWait, Ending(posted, -1));
            n in r.pending && n !in r.blocked && !r.stopped && Perform(r, Checkpoint) == r
  {
    LeaveAfterKill(s, n, FdrWait, true, Ending(posted, -1));
    CheckpointIs(Kill(s, n, FdrWait, true));
  }

  /** A raised signal that is not ignored does not stay deliverable: when pthread_raise
      returns, deliveries not deferred, it has been delivered or it is blocked. */
  lemma RaisedSignalIsDealtWith(s: State, n: Sig)
    requires Accounted(s) && !s.stopped && !s.deferred
    requires n < NSIG && SigValid(n) && s.actions[n].handler != SIG_IGN
    ensures Settled(Perform(s, Raise(n)))
  {
    RaiseIs(s, n);
    LogStep(s, n);
    DeliverySettles(Enter(s, n).(counter := 0));
  }

  /** Nor does anything that arrives during a pause, once it returns. */
  lemma PauseDeliversWhatArrived(s: State, arrivals: seq<Sig>)
    requires Accounted(s) && !s.stopped
    ensures Settled(Perform(s, Pause(arrivals)))
  {
    KillAllAccounted(s, arrivals);
    DeliverySettles(KillAll(s, arrivals).(counter := 0));
  }

  // ---------------------------------------------------------- when a wait comes back

  /** Handlers that do not wait themselves. */
  predicate AwakeCall(call: Call)
  {
    !call.Pause? && !call.Sigsuspend?
  }

  predicate AwakeScript(script: seq<seq<Call>>)
  {
    forall i, j :: 0 <= i < |script| && 0 <= j < |script[i]| ==> AwakeCall(script[i][j])
  }

  ghost predicate StaysAwake(s: State, r: State)
  {
    r.asleep == s.asleep && AwakeScript(r.script)
  }

  lemma {:induction false} DeliverPendingStaysAwake(s: State, signo: nat)
    requires 1 <= signo <= NSIG && AwakeScript(s.script)
    ensures StaysAwake(s, DeliverPending(s, signo))
    decreases |s.script|, 2, |Ready(s)|, NSIG - signo
  {
    if s.stopped || Ready(s) == {} || signo == NSIG {
    } else if signo in Ready(s) {
      DeliverSignalStaysAwake(s, signo);
      var r := DeliverSignal(s, signo);
      if !r.stopped {
        if |r.script| == |s.script| { Smaller(Ready(r), Ready(s), signo); }
        DeliverPendingStaysAwake(r, 1);
      }
    } else {
      DeliverPendingStaysAwake(s, signo + 1);
    }
  }

  lemma {:induction false} DeliverSignalStaysAwake(s: State, n: Sig)
    requires n < NSIG && AwakeScript(s.script)
    ensures StaysAwake(s, DeliverSignal(s, n))
    decreases |s.script|, 1
  {
    var p, s1 := s.actions[n], Take(s, n);
    if p.handler == User {
      if p.sysv {
        RunHandlerStaysAwake(s1.(actions := s1.actions[n := p.(handler := SIG_DFL)]), n);
      } else if p.ack {
        RunHandlerStaysAwake(s1.(blocked := s1.blocked + {n}), n);
      } else {
        RunHandlerStaysAwake(SetBlocked(s1, s1.blocked + {n} + p.mask), n);
      }
    }
  }

  lemma {:induction false} RunHandlerStaysAwake(s: State, n: Sig)
    requires AwakeScript(s.script)
    ensures StaysAwake(s, RunHandler(s, n))
    decreases |s.script|, 0
  {
    if s.script != [] {
      RunCallsStayAwake(s.(ran := s.ran + [n], script := s.script[1..]), s.script[0]);
    }
  }

  lemma {:induction false} RunCallsStayAwake(s: State, calls: seq<Call>)
    requires AwakeScript(s.script) && forall i :: 0 <= i < |calls| ==> AwakeCall(calls[i])
    ensures StaysAwake(s, RunCalls(s, calls))
    decreases |s.script|, 4, |calls|
  {
    if calls != [] && !s.stopped {
      PerformStaysAwake(s, calls[0]);
      RunCallsStayAwake(Perform(s, calls[0]), calls[1..]);
    }
  }

  lemma {:induction false} PerformStaysAwake(s: State, call: Call)
    requires AwakeScript(s.script) && AwakeCall(call)
    ensures StaysAwake(s, Perform(s, call))
    decreases |s.script|, 3
  {
    match call
    case Raise(n) => DeliverPendingStaysAwake(Enter(s, n).(counter := 0), 1);
    case Sigmask(how, newSet) =>
      var s1 := if newSet.Some? then SetBlocked(s, NewMask(s, how, newSet.value)) else s;
      DeliverPendingStaysAwake(s1.(counter := 0), 1);
    case Acknowledge(n) => DeliverPendingStaysAwake(s.(blocked := s.blocked - {n}, counter := 0), 1);
    case Checkpoint => DeliverPendingStaysAwake(s.(counter := 0), 1);
    case Native(n) => if SigValid(n) { DeliverSignalStaysAwake(Enter(s, n), n); }
    case _ =>
  }

  lemma {:induction false} NothingPostedNothingEntered(s: State, arrivals: seq<Sig>)
    requires !AnyPosts(s, arrivals)
    ensures KillAll(s, arrivals) == s
  {
    if arrivals != [] {
      var front := arrivals[..|arrivals| - 1];
      forall i | 0 <= i < |front| ensures !Posts(s, front[i]) { assert front[i] == arrivals[i]; }
      NothingPostedNothingEntered(s, front);
      assert !Posts(s, arrivals[|arrivals| - 1]);
    }
  }

  lemma {:induction false} KillAllLeavesScript(s: State, arrivals: seq<Sig>)
    ensures KillAll(s, arrivals).script == s.script && KillAll(s, arrivals).asleep == s.asleep
  {
    if arrivals != [] { KillAllLeavesScript(s, arrivals[..|arrivals| - 1]); }
  }

  /** pthread_sigsuspend, with handlers that do not wait: it sleeps for good if and only if
      no signal arrives that is neither ignored nor invalid; then it does so without having
      delivered anything, even what its own mask has just unblocked (section 3.3.7 of
      ISO/IEC 9945-1 would have it return for that). */
  lemma SigsuspendSleepsExactlyWhenNothingArrives(s: State, mask: set<Sig>, arrivals: seq<Sig>)
    requires Accounted(s) && !s.stopped && !s.asleep && AwakeScript(s.script)
    ensures var r := Perform(s, Sigsuspend(mask, arrivals));
            && (r.asleep <==> !AnyPosts(s, arrivals))
            && (r.asleep ==> r.pending == s.pending && r.ran == s.ran)
            && (r.asleep && Ready(r) != {} <==>
                  !AnyPosts(s, arrivals) && s.pending - (mask - s.unmaskable) != {})
  {
    var s1 := SetBlocked(s, mask);
    assert AnyPosts(s1, arrivals) == AnyPosts(s, arrivals) by {
      assert forall n :: Posts(s1, n) == Posts(s, n);
    }
    if AnyPosts(s, arrivals) {
      KillAllLeavesScript(s1, arrivals);
      DeliverPendingStaysAwake(KillAll(s1, arrivals).(counter := 0), 1);
    }
  }
}
