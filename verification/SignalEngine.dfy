/**
 The signal engine as the source has it: the thread's sets, table and counter
 updated in place by mutually recursive routines. Each is tied to its function
 in module Signals.
 */
module SignalEngine {
  import opened Prelude
  import opened ThreadStates
  import S = Signals
  import opened Signals
  import opened SignalLaws

  class ThreadSignals {
    var pending: set<Sig>
    var blocked: set<Sig>
    const actions: array<Action>
    var counter: nat
    var deferred: bool
    const unmaskable: set<Sig>
    var stopped: bool
    var asleep: bool
    var script: seq<seq<Call>>
    ghost var ran: seq<Sig>
    ghost var log: seq<Event>

    ghost predicate Valid()
      reads this
    {
      actions.Length == NSIG
    }

    ghost function View(): State
      requires Valid()
      reads this, actions
    {
      State(pending, blocked, actions[..], counter, deferred, unmaskable, stopped, asleep, script, ran, log)
    }

    /** pthread_init: nothing pending or blocked, default actions. */
    constructor (unmaskable: set<Sig>, script: seq<seq<Call>>)
      ensures Valid() && fresh(actions)
      ensures View() == State({}, {}, seq(NSIG, _ => Action(SIG_DFL, false, true, {})), 0, false,
                              unmaskable, false, false, script, [], [])
    {
      pending, blocked, counter := {}, {}, 0;
      deferred, stopped, asleep := false, false, false;
      actions := new Action[NSIG](_ => Action(SIG_DFL, false, true, {}));
      this.unmaskable, this.script, ran, log := unmaskable, script, [], [];
      new;
      assert actions[..] == seq(NSIG, _ => Action(SIG_DFL, false, true, {}));
    }

    method SetBlocked(mask: set<Sig>)
      requires Valid()
      modifies `blocked
      ensures Valid() && View() == S.SetBlocked(old(View()), mask)
    {
      blocked := mask - unmaskable;
    }

    method Enter(n: Sig)
      requires Valid()
      modifies `pending, `log
      ensures Valid() && View() == S.Enter(old(View()), n)
    {
      pending, log := pending + {n}, log + [Entered(n)];
    }

    /** _sys_deliver_pending_signals. */
    method DeliverPending()
      requires Valid()
      modifies this, actions
      ensures Valid() && View() == S.DeliverPending(old(View()), 1)
      decreases |script|, 2
    {
      var signo := 1;
      while !stopped && pending - blocked != {} && signo < NSIG
        invariant Valid() && 1 <= signo <= NSIG && |script| <= old(|script|)
        invariant stopped ==> View() == S.DeliverPending(old(View()), 1)
        invariant S.DeliverPending(View(), signo) == S.DeliverPending(old(View()), 1)
        decreases |script|, !stopped, |pending - blocked|, NSIG - signo
      {
        if signo in pending - blocked {
          ghost var s := View();
          DeliverSignal(signo);
          if !stopped && |script| == |s.script| {
            Smaller(pending - blocked, Ready(s), signo);
          }
          signo := 1;
        } else {
          signo := signo + 1;
        }
      }
    }

    /** uthread_deliver_signal; reaching uthread_terminate sets stopped. */
    method DeliverSignal(signo: Sig)
      requires Valid() && signo < NSIG
      modifies this, actions
      ensures Valid() && View() == S.DeliverSignal(old(View()), signo)
      decreases |script|, 1
    {
      var p := actions[signo];
      pending, log := pending - {signo}, log + [Delivered(signo)];
      match p.handler {
        case SIG_IGN =>
        case SIG_DFL =>
          if DflAction(signo) != IGNORE {
            stopped := true;
          }
        case SIG_ERR =>
        case User =>
          if p.sysv {
            actions[signo] := p.(handler := SIG_DFL);
            RunHandler(signo);
          } else if p.ack {
            blocked := blocked + {signo};
            RunHandler(signo);
          } else {
            var oldBlocked := blocked;
            SetBlocked(blocked + {signo} + p.mask);
            RunHandler(signo);
            if !stopped {
              blocked := oldBlocked;
            }
          }
      }
      if !stopped && FunAction(signo) == TERM {
        stopped := true;
      }
    }

    /** The call handler(signo): what user code does comes from the script. */
    method RunHandler(signo: Sig)
      requires Valid()
      modifies this, actions
      ensures Valid() && View() == S.RunHandler(old(View()), signo)
      decreases |script|, 0
    {
      ran := ran + [signo];
      if script != [] {
        var calls := script[0];
        script := script[1..];
        RunCalls(calls);
      }
    }

    method RunCalls(calls: seq<Call>)
      requires Valid()
      modifies this, actions
      ensures Valid() && View() == S.RunCalls(old(View()), calls)
      decreases |script|, 4
    {
      var i := 0;
      while i < |calls| && !stopped
        invariant Valid() && 0 <= i <= |calls| && |script| <= old(|script|)
        invariant S.RunCalls(View(), calls[i..]) == S.RunCalls(old(View()), calls)
      {
        Perform(calls[i]);
        i := i + 1;
      }
    }

    method Perform(call: Call)
      requires Valid()
      modifies this, actions
      ensures Valid() && View() == S.Perform(old(View()), call)
      decreases |script|, 3, 2
    {
      match call {
        case Raise(n) => var _ := RaiseSignal(n);
        case Sigmask(how, newSet) => var _, _ := SetMask(how, newSet);
        case Sigaction(n, action) => var _, _ := SetAction(n, Some(action));
        case Acknowledge(n) => var _ := AcknowledgeSignal(n);
        case Sigsuspend(mask, arrivals) => Suspend(mask, arrivals);
        case Pause(arrivals) => Wait(arrivals);
        case Checkpoint =>
          if counter != 0 && !deferred {
            counter := 0;
            DeliverPending();
          }
        case KillFrom(n, state, cancelled) => KillThis(n, state, cancelled);
        case Native(n) =>
          if SigValid(n) {
            Enter(n);
            if deferred {
              counter := counter + 1;
            } else {
              DeliverSignal(n);
            }
          }
      }
    }

    /** pthread_raise. */
    method RaiseSignal(signo: Sig) returns (ok: bool)
      requires Valid()
      modifies this, actions
      ensures Valid() && View() == S.Perform(old(View()), Raise(signo))
      ensures ok <==> SigValid(signo)
      decreases |script|, 3, 0
    {
      if signo < 1 || signo >= NSIG || !SigValid(signo) {
        return false;
      }
      if actions[signo].handler != SIG_IGN {
        Enter(signo);
        if deferred {
          counter := counter + 1;
        } else {
          counter := 0;
          DeliverPending();
        }
      }
      return true;
    }

    /** pthread_sigmask; output is the mask on entry. */
    method SetMask(how: How, newSet: Option<set<Sig>>) returns (ok: bool, output: set<Sig>)
      requires Valid()
      modifies this, actions
      ensures Valid() && View() == S.Perform(old(View()), Sigmask(how, newSet))
      ensures output == old(blocked) && (ok <==> newSet.None? || how != BadHow)
      decreases |script|, 3, 0
    {
      output := blocked;
      match newSet {
        case None =>
        case Some(mask) =>
          var temp;
          match how {
            case SIG_BLOCK => temp := blocked + mask;
            case SIG_UNBLOCK => temp := blocked - mask;
            case SIG_SETMASK => temp := mask;
            case BadHow => return false, output;
          }
          SetBlocked(temp);
      }
      if !deferred {
        counter := 0;
        DeliverPending();
      }
      ok := true;
    }

    /** pthread_sigaction; output is the action on entry. */
    method SetAction(signo: Sig, newAction: Option<Action>) returns (ok: bool, output: Option<Action>)
      requires Valid()
      modifies this, actions
      ensures Valid()
      ensures View() == if newAction.None? then old(View()) else S.SetAction(old(View()), signo, newAction.value)
      ensures ok <==> SigValid(signo) && signo != SIGKILL
      ensures output == if SigValid(signo) && signo != SIGKILL then Some(old(actions[..])[signo]) else None
    {
      if signo < 1 || signo >= NSIG || signo == SIGKILL || !SigValid(signo) {
        return false, None;
      }
      output := Some(actions[signo]);
      if newAction.Some? {
        actions[signo] := newAction.value;
        if (actions[signo].handler == SIG_DFL && DflAction(signo) != IGNORE) || actions[signo].handler == SIG_IGN {
          pending, log := pending - {signo}, log + [Discarded(signo)];
        }
      }
      ok := true;
    }

    /** pthread_signal with a handler. */
    method Install(sig: Sig, handler: Handler) returns (was: Handler)
      requires Valid()
      modifies this, actions
      ensures Valid() && View() == S.SetAction(old(View()), sig, Acked(handler))
      ensures was == if SigValid(sig) && sig != SIGKILL then old(actions[..])[sig].handler else SIG_ERR
    {
      if sig < 1 || sig >= NSIG || sig == SIGKILL || !SigValid(sig) {
        return SIG_ERR;
      }
      var ok, output := SetAction(sig, Some(Acked(handler)));
      was := if ok then output.value.handler else SIG_ERR;
    }

    /** pthread_signal with SIG_ACK; the handler returned is the one installed when it
        returns. */
    method AcknowledgeSignal(sig: Sig) returns (handler: Handler)
      requires Valid()
      modifies this, actions
      ensures Valid() && View() == S.Perform(old(View()), Acknowledge(sig))
      ensures handler == if SigValid(sig) && sig != SIGKILL then actions[sig].handler else SIG_ERR
      decreases |script|, 3, 0
    {
      if sig < 1 || sig >= NSIG || sig == SIGKILL || !SigValid(sig) {
        return SIG_ERR;
      }
      blocked := blocked - {sig};
      if deferred {
        counter := counter + 1;
      } else {
        counter := 0;
        DeliverPending();
      }
      handler := actions[sig].handler;
    }

    /** The target's side of pthread_kill. */
    method KillThis(signo: Sig, state: ThreadState, cancelled: bool)
      requires Valid()
      modifies `pending, `log, `counter
      ensures Valid() && View() == S.Kill(old(View()), signo, state, cancelled)
    {
      if 0 < signo < NSIG && SigValid(signo) && actions[signo].handler != SIG_IGN {
        Enter(signo);
        match state {
          case FdrWait => if !cancelled { counter := counter + 1; }
          case FdwWait => if !cancelled { counter := counter + 1; }
          case SelectWait => counter := counter + 1;
          case SleepWait =>
          case SigWait =>
          case _ => counter := counter + 1;
        }
      }
    }

    /** pthread_pause: arrivals are sent while it waits; if none of them posts its event,
        it does not come back. */
    method Wait(arrivals: seq<Sig>)
      requires Valid()
      modifies this, actions
      ensures Valid() && View() == S.PauseFor(old(View()), arrivals)
      decreases |script|, 3, 0
    {
      var i, posted := 0, false;
      while i < |arrivals|
        invariant Valid() && 0 <= i <= |arrivals| && View() == KillAll(old(View()), arrivals[..i])
        invariant posted == exists k :: 0 <= k < i && Posts(old(View()), arrivals[k])
        invariant actions[..] == old(actions[..]) && |script| == old(|script|)
      {
        posted := posted || (SigValid(arrivals[i]) && actions[arrivals[i]].handler != SIG_IGN);
        KillThis(arrivals[i], ThreadState.SigWait, false);
        assert arrivals[..i + 1][..i] == arrivals[..i];
        i := i + 1;
      }
      assert arrivals[..i] == arrivals;
      if posted {
        counter := 0;
        DeliverPending();
      } else {
        NothingPostedNothingEntered(old(View()), arrivals);
        stopped, asleep := true, true;
      }
    }

    /** pthread_sigsuspend. */
    method Suspend(mask: set<Sig>, arrivals: seq<Sig>)
      requires Valid()
      modifies this, actions
      ensures Valid() && View() == S.Perform(old(View()), Sigsuspend(mask, arrivals))
      decreases |script|, 3, 1
    {
      var oldBlocked := blocked;
      SetBlocked(mask);
      Wait(arrivals);
      if !stopped {
        blocked := oldBlocked;
      }
    }

    /** pthread_sigpending: what is pending is what it reports and what could be
        delivered, with nothing in both; so it reports all that a delivery has left. */
    method PendingSet() returns (out: set<Sig>)
      requires Valid()
      ensures pending == out + Ready(View()) && out !! Ready(View())
      ensures Ready(View()) == {} <==> out == pending
    {
      out := blocked * pending;
    }
  }

  datatype KillResult = Sent | Einval | Esrch

  /** pthread_kill by self: list is the list of live threads, initial says whether target
      is thread 1. native: the signal was handed to the process instead. */
  method Kill(self: ThreadSignals, list: seq<ThreadSignals>, target: ThreadSignals, signo: int,
              state: ThreadState, initial: bool, cancelled: bool)
    returns (rval: KillResult, native: bool)
    requires self.Valid() && target.Valid() && (self != target ==> self.actions != target.actions)
    modifies self, self.actions, target`pending, target`log, target`counter
    ensures self.Valid() && target.Valid()
    ensures rval == if signo < 0 || signo >= NSIG then Einval else if target !in list then Esrch else Sent
    ensures native <==> rval == Sent && state.Running? && initial && signo > 0 && Posts(old(target.View()), signo)
    ensures var t := if rval == Sent && signo > 0 && !native then S.Kill(old(target.View()), signo, state, cancelled)
                     else old(target.View());
            if self == target then self.View() == S.Perform(t, Checkpoint)
            else target.View() == t && self.View() == S.Perform(old(self.View()), Checkpoint)
  {
    native := false;
    if signo < 0 || signo >= NSIG {
      rval := Einval;
    } else {
      var i := 0;
      while i < |list| && list[i] != target
        invariant i <= |list| && target !in list[..i]
      {
        i := i + 1;
      }
      if i == |list| {
        rval := Esrch;
      } else {
        rval := Sent;
        if signo > 0 && SigValid(signo) && target.actions[signo].handler != SIG_IGN {
          if state == ThreadState.Running && initial {
            native := true;
          } else {
            target.KillThis(signo, state, cancelled);
          }
        }
      }
    }
    self.Perform(Checkpoint);
  }
}
