/**
 What a delivery does to the process and to what runs meanwhile, by signal number
 (uthread_init.c, lines 11-41 and 107-152).
 */
module SignalEffects {
  import opened Prelude
  import opened ThreadStates
  import opened Signals
  import opened SignalLaws
  import opened SignalTermination

  /** The signals of _sys_sig_valid, by number. */
  lemma ValidSignals(n: Sig)
    ensures SigValid(n) <==> n in {1, 2, 3, 4, 5, 6, 7, 8, 9, 10, 11, 12, 13, 14, 15, 16, 17, 18, 21}
  {
  }

  /** pthread_sigaction installs an action for these signals but SIGKILL, and signal with
      SIG_ACK acts on these; for all other numbers both do nothing at all. */
  lemma ActionsAreSetExactly(s: State, n: Sig, action: Action)
    ensures var may, r := n in {1, 2, 3, 4, 5, 6, 7, 8, 10, 11, 12, 13, 14, 15, 16, 17, 18, 21},
                          Perform(s, Sigaction(n, action));
            && (may ==> n < NSIG && r.actions == s.actions[n := action] && r.pending >= s.pending - {n})
            && (!may ==> r == s)
  {
    SigactionIs(s, n, action);
  }

  lemma SigactionIs(s: State, n: Sig, action: Action)
    ensures Perform(s, Sigaction(n, action)) == SetAction(s, n, action)
  {
  }

  lemma AcknowledgesExactly(s: State, n: Sig)
    ensures var may, r := n in {1, 2, 3, 4, 5, 6, 7, 8, 10, 11, 12, 13, 14, 15, 16, 17, 18, 21},
                          Perform(s, Acknowledge(n));
            && (!may ==> r == s)
            && (may && s.deferred ==> r == s.(blocked := s.blocked - {n}, counter := s.counter + 1))
  {
  }

  /** SIGABRT, SIGEMT, SIGKILL, SIGBUS and SIGSYS. */
  const FATAL: set<Sig> := {6, 7, 9, 10, 12}

  /** A handler that returns at once. */
  predicate ReturnsAtOnce(s: State)
  {
    s.script == [] || s.script[0] == []
  }

  lemma QuietHandler(m: State, n: Sig)
    requires ReturnsAtOnce(m)
    ensures RunHandler(m, n) == Entry(m, n)
  {
  }

  /** With its mask set. */
  function Masked(s: State, n: Sig): State
    requires n < NSIG
  {
    var s1 := Take(s, n);
    SetBlocked(s1, s1.blocked + {n} + s.actions[n].mask)
  }

  /** The state in which the handler of n starts. */
  function AtHandler(s: State, n: Sig): State
    requires n < NSIG
  {
    var p, s1 := s.actions[n], Take(s, n);
    if p.sysv then s1.(actions := s1.actions[n := p.(handler := SIG_DFL)])
    else if p.ack then s1.(blocked := s1.blocked + {n})
    else Masked(s, n)
  }

  lemma HandledDelivery(s: State, n: Sig)
    requires n < NSIG && s.actions[n].handler == User
    ensures var r, d := RunHandler(AtHandler(s, n), n), DeliverSignal(s, n);
            && d.log == r.log && d.ran == r.ran && (r.stopped || n in FATAL ==> d.stopped)
            && (SigValid(n) && d.stopped ==> r.stopped || n in FATAL)
  {
  }

  lemma HandledDeliveryEnds(s: State, n: Sig)
    requires SigValid(n) && !s.stopped && s.actions[n].handler == User
    ensures n in FATAL ==> DeliverSignal(s, n).stopped
    ensures ReturnsAtOnce(s) ==> (DeliverSignal(s, n).stopped <==> n in FATAL)
  {
    HandledDelivery(s, n);
    if ReturnsAtOnce(s) { QuietHandler(AtHandler(s, n), n); }
  }

  /** When the delivery of a signal ends the process: under SIG_DFL always but for
      SIGUSR1, SIGUSR2 and SIGCLD; under SIG_IGN and SIG_ERR, and after a handler, for
      SIGABRT, SIGEMT, SIGKILL, SIGBUS and SIGSYS, and for no other signal unless the
      handler itself does not return. */
  lemma DeliveryEndsTheProcessExactly(s: State, n: Sig)
    requires SigValid(n) && !s.stopped
    ensures var r, handler := DeliverSignal(s, n), s.actions[n].handler;
            && (handler == SIG_DFL ==> (r.stopped <==> n !in {16, 17, 18}))
            && (handler == SIG_IGN || handler == SIG_ERR ==> (r.stopped <==> n in {6, 7, 9, 10, 12}))
            && (handler == User && n in {6, 7, 9, 10, 12} ==> r.stopped)
            && (handler == User && ReturnsAtOnce(s) ==> (r.stopped <==> n in {6, 7, 9, 10, 12}))
  {
    if s.actions[n].handler == User { HandledDeliveryEnds(s, n); }
  }

  /** And so for the delivery of all that is pending, which begins with the lowest
      deliverable signal: without a handler for it the process ends there, exactly as
      above, with that signal delivered and no other; with one, at the latest after it. */
  lemma PendingDeliveryEndsTheProcess(s: State, n: Sig)
    requires Accounted(s) && !s.stopped && IsLowest(n, Ready(s))
    ensures n < NSIG
    ensures var r, handler := DeliverPending(s, 1), s.actions[n].handler;
            var ends := if handler == SIG_DFL then n !in {16, 17, 18} else n in {6, 7, 9, 10, 12};
            var taken := s.(pending := s.pending - {n}, log := s.log + [Delivered(n)]);
            && (handler != User && ends ==> r == taken.(stopped := true))
            && (handler != User && !ends ==> r == DeliverPending(taken, 1))
            && (handler == User && ends ==> r.stopped)
  {
    DeliveryIsLowestFirst(s);
    DeliveryEndsTheProcessExactly(s, n);
  }

  // ------------------------------------------------------- while a handler runs

  lemma PlainDelivery(s: State, n: Sig)
    requires n < NSIG && s.actions[n].handler == User && !s.actions[n].sysv && !s.actions[n].ack
    ensures var r, d := RunHandler(Masked(s, n), n), DeliverSignal(s, n);
            d.ran == r.ran && (!d.stopped ==> d.blocked == s.blocked)
  {
  }

  lemma HandlerRunSpends(e: State, calls: seq<Call>)
    requires SafeState(e) && forall i :: 0 <= i < |calls| ==> TameCall(calls[i])
    ensures Spent(e, RunCalls(e, calls)) && e.ran <= RunCalls(e, calls).ran
  {
    RunCallsSpends(e, calls);
  }

  lemma OnlyUnblockedRan(e: State, r: State, i: nat)
    requires Spent(e, r) && |e.ran| <= i < |r.ran|
    ensures r.ran[i] in Armed(e)
  {
    assert Ran(e, r)[i - |e.ran|] == r.ran[i];
    assert r.ran[i] in Members(Ran(e, r));
  }

  /** Neither SA_SYSV nor SA_ACK: until the handler of n returns no handler runs of a
      signal that was blocked already, of n itself or of one in sa_mask, but for what
      cannot be masked; afterwards the mask is what it was before. */
  lemma MaskedSignalsWaitForTheHandler(s: State, n: Sig)
    requires 1 <= n < NSIG && s.actions[n].handler == User && !s.actions[n].sysv && !s.actions[n].ack
    requires !s.stopped && TameScript(s.script)
    requires forall k: Sig :: 1 <= k < NSIG && Rearming(s.actions, k) ==>
               (k in s.blocked || k == n || k in s.actions[n].mask) && k !in s.unmaskable
    requires forall k: Sig :: k in s.unmaskable && k < NSIG ==> s.actions[k].handler != User
    ensures var r := DeliverSignal(s, n);
            && |s.ran| < |r.ran| && r.ran[|s.ran|] == n
            && (forall i :: |s.ran| < i < |r.ran| ==>
                  r.ran[i] !in s.blocked && r.ran[i] != n && r.ran[i] !in s.actions[n].mask)
            && (!r.stopped ==> r.blocked == s.blocked)
  {
    var m := Masked(s, n);
    PlainDelivery(s, n);
    var e, r := Entry(m, n), RunHandler(m, n);
    HandlerRunSpends(e, if s.script == [] then [] else s.script[0]);
    assert s.script == [] ==> RunCalls(e, []) == e;
    forall i | |s.ran| < i < |r.ran| ensures r.ran[i] !in m.blocked && r.ran[i] in Armed(e) {
      OnlyUnblockedRan(e, r, i);
    }
  }

  /** A handler that pthread_signal has installed stays installed when it has run, and
      its signal stays blocked until it is acknowledged. */
  lemma InstalledHandlerStaysAndBlocks(s: State, n: Sig)
    requires SigValid(n) && n != SIGKILL && n !in FATAL && !s.stopped && ReturnsAtOnce(s)
    ensures var installed := SetAction(s, n, Acked(User));
            var r := DeliverSignal(installed, n);
            && r.ran == s.ran + [n] && !r.stopped
            && r.actions == installed.actions && r.actions[n].handler == User
            && r.blocked == s.blocked + {n}
            && n !in Perform(r.(deferred := true), Acknowledge(n)).blocked
  {
    var installed := SetAction(s, n, Acked(User));
    HandledDeliveryEnds(installed, n);
    QuietHandler(AtHandler(installed, n), n);
  }

  // ---------------------------------------------------------- what a checkpoint finds

  /** The next checkpoint of a thread that was sent a signal settles it if and only if the
      signal was counted, or another one had been, or nothing is deliverable: it is not
      counted for a thread in a sleep, in a pause, or got out of a file wait. */
  lemma CheckpointAfterKillSettlesExactly(s: State, n: Sig, state: ThreadState, cancelled: bool)
    requires Accounted(s) && !s.stopped && !s.deferred && Posts(s, n)
    ensures var k := Perform(s, KillFrom(n, state, cancelled));
            var aborted := state in {SleepWait, SigWait} || (cancelled && state in {FdrWait, FdwWait});
            && n in k.pending && k.counter == s.counter + (if aborted then 0 else 1)
            && (Settled(Perform(k, Checkpoint)) <==> !aborted || s.counter != 0 || k.pending <= k.blocked)
  {
    var k := Kill(s, n, state, cancelled);
    KillEnters(s, n, state, cancelled);
    KillAccounted(s, n, state, cancelled);
    CheckpointIs(k);
    DeliverySettles(k.(counter := 0));
  }

  /** So a signal sent to a running thread is settled at its next checkpoint. */
  lemma RunningThreadSettlesAtItsCheckpoint(s: State, n: Sig, cancelled: bool)
    requires Accounted(s) && !s.stopped && !s.deferred && Posts(s, n)
    ensures Settled(Perform(Perform(s, KillFrom(n, Running, cancelled)), Checkpoint))
  {
    CheckpointAfterKillSettlesExactly(s, n, Running, cancelled);
  }

  /** What is raised, sent by the system or unblocked by SIG_ACK while deliveries are
      deferred stays pending, and the first checkpoint afterwards settles it. */
  lemma DeferredSignalsAreFound(s: State, n: Sig, call: Call)
    requires Accounted(s) && !s.stopped && s.deferred && SigValid(n)
    requires (call == Raise(n) && s.actions[n].handler != SIG_IGN) || call == Native(n)
             || (call == Acknowledge(n) && n != SIGKILL)
    ensures var r := Perform(s, call);
            && r.pending == (if call == Acknowledge(n) then s.pending else s.pending + {n})
            && r.blocked == (if call == Acknowledge(n) then s.blocked - {n} else s.blocked)
            && !r.stopped && r.ran == s.ran
            && Settled(Perform(r.(deferred := false), Checkpoint))
  {
    RaiseIs(s, n);
    NativeIs(s, n);
    LogStep(s, n);
    var r := Perform(s, call).(deferred := false);
    CheckpointIs(r);
    DeliverySettles(r.(counter := 0));
  }

  // ------------------------------------------------------------------ over whole runs

  /** The histories grow, and if the thread goes on, no signal that ends the process
      whatever its action is was delivered meanwhile. */
  ghost predicate Survived(s: State, r: State)
  {
    && s.ran <= r.ran && s.log <= r.log
    && (!r.stopped ==> forall i :: |s.log| <= i < |r.log| && r.log[i].Delivered? ==> r.log[i].n !in FATAL)
  }

  lemma SurvivedTransitive(s: State, m: State, r: State)
    requires Survived(s, m) && !m.stopped && Survived(m, r)
    ensures Survived(s, r)
  {
    assert forall i :: 0 <= i < |m.log| ==> r.log[i] == m.log[i];
  }

  lemma {:induction false} DeliverPendingSurvived(s: State, signo: nat)
    requires 1 <= signo <= NSIG
    ensures Survived(s, DeliverPending(s, signo))
    decreases |s.script|, 2, |Ready(s)|, NSIG - signo
  {
    if s.stopped || Ready(s) == {} || signo == NSIG {
    } else if signo in Ready(s) {
      DeliverSignalSurvived(s, signo);
      var r := DeliverSignal(s, signo);
      if !r.stopped {
        if |r.script| == |s.script| { Smaller(Ready(r), Ready(s), signo); }
        DeliverPendingSurvived(r, 1);
        SurvivedTransitive(s, r, DeliverPending(r, 1));
      }
    } else {
      DeliverPendingSurvived(s, signo + 1);
    }
  }

  lemma {:induction false} DeliverSignalSurvived(s: State, n: Sig)
    requires n < NSIG
    ensures Survived(s, DeliverSignal(s, n))
    ensures s.actions[n].handler == User ==> s.ran + [n] <= DeliverSignal(s, n).ran
    ensures s.actions[n].handler != User ==> DeliverSignal(s, n).ran == s.ran
    decreases |s.script|, 1, 1
  {
    if s.actions[n].handler == User { HandledSurvived(s, n); }
  }

  lemma {:induction false} HandledSurvived(s: State, n: Sig)
    requires n < NSIG && s.actions[n].handler == User
    ensures Survived(s, DeliverSignal(s, n)) && s.ran + [n] <= DeliverSignal(s, n).ran
    decreases |s.script|, 1, 0
  {
    var m := AtHandler(s, n);
    RunHandlerSurvived(m, n);
    HandledDelivery(s, n);
    TakenSurvived(s, n, m, RunHandler(m, n), DeliverSignal(s, n));
  }

  lemma TakenSurvived(s: State, n: Sig, m: State, r: State, d: State)
    requires m.ran == s.ran && m.log == s.log + [Delivered(n)] && Survived(m, r)
    requires d.log == r.log && d.ran == r.ran && (r.stopped || n in FATAL ==> d.stopped)
    ensures Survived(s, d)
  {
    assert r.log[|s.log|] == m.log[|s.log|];
  }

  lemma {:induction false} RunHandlerSurvived(s: State, n: Sig)
    ensures Survived(s, RunHandler(s, n)) && s.ran + [n] <= RunHandler(s, n).ran
    decreases |s.script|, 0
  {
    if s.script != [] {
      RunCallsSurvived(Entry(s, n), s.script[0]);
    }
  }

  /** In every run that the process survives, none of those five signals has been
      delivered, whatever actions and handlers were installed meanwhile. */
  lemma {:induction false} RunCallsSurvived(s: State, calls: seq<Call>)
    ensures Survived(s, RunCalls(s, calls))
    decreases |s.script|, 4, |calls|
  {
    if calls != [] && !s.stopped {
      PerformSurvived(s, calls[0]);
      var m := Perform(s, calls[0]);
      if m.stopped {
        assert RunCalls(m, calls[1..]) == m;
      } else {
        RunCallsSurvived(m, calls[1..]);
        SurvivedTransitive(s, m, RunCalls(m, calls[1..]));
      }
    }
  }

  lemma {:induction false} KillAllSurvived(s: State, arrivals: seq<Sig>)
    ensures Survived(s, KillAll(s, arrivals)) && KillAll(s, arrivals).stopped == s.stopped
  {
    if arrivals != [] { KillAllSurvived(s, arrivals[..|arrivals| - 1]); }
  }

  /** A delivery made after signals were only entered, or the mask was changed. */
  lemma {:induction false} DeliverySurvived(s: State, m: State)
    requires Survived(s, m) && !m.stopped && m.script == s.script
    ensures Survived(s, DeliverPending(m, 1))
    decreases |s.script|, 2, |Ready(m)| + 1, 0
  {
    DeliverPendingSurvived(m, 1);
    SurvivedTransitive(s, m, DeliverPending(m, 1));
  }

  lemma {:induction false} PauseSurvived(s: State, arrivals: seq<Sig>)
    requires !s.stopped
    ensures Survived(s, PauseFor(s, arrivals))
    decreases |s.script|, 2, |Ready(KillAll(s, arrivals))| + 2, 0
  {
    KillAllSurvived(s, arrivals);
    DeliverySurvived(s, KillAll(s, arrivals).(counter := 0));
  }

  lemma {:induction false} RaiseSurvived(s: State, n: Sig)
    requires !s.stopped
    ensures Survived(s, Perform(s, Raise(n)))
    decreases |s.script|, 3, 0
  {
    RaiseIs(s, n);
    DeliverySurvived(s, Enter(s, n).(counter := 0));
  }

  lemma {:induction false} NativeSurvived(s: State, n: Sig)
    requires !s.stopped
    ensures Survived(s, Perform(s, Native(n)))
    decreases |s.script|, 2
  {
    NativeIs(s, n);
    if SigValid(n) {
      DeliverSignalSurvived(Enter(s, n), n);
      SurvivedTransitive(s, Enter(s, n), DeliverSignal(Enter(s, n), n));
    }
  }

  lemma {:induction false} PerformSurvived(s: State, call: Call)
    requires !s.stopped
    ensures Survived(s, Perform(s, call))
    decreases |s.script|, 3, 1
  {
    match call
    case Sigmask(how, newSet) =>
      var s1 := if newSet.Some? then SetBlocked(s, NewMask(s, how, newSet.value)) else s;
      DeliverySurvived(s, s1.(counter := 0));
    case Acknowledge(n) => DeliverySurvived(s, s.(blocked := s.blocked - {n}, counter := 0));
    case Sigsuspend(mask, arrivals) => PauseSurvived(SetBlocked(s, mask), arrivals);
    case Pause(arrivals) => PauseSurvived(s, arrivals);
    case Checkpoint => DeliverySurvived(s, s.(counter := 0));
    case Raise(n) => RaiseSurvived(s, n);
    case Native(n) => NativeSurvived(s, n);
    case KillFrom(_, _, _) =>
    case Sigaction(_, _) =>
  }
}
