/**
 The per-thread signal engine (uthread_init.c, uthread_raise.c, uthread_sigmask.c,
 uthread_sigaction.c, uthread_signal.c, uthread_sigsuspend.c, uthread_pause.c,
 uthread_sigpending.c, uthread_kill.c) over values.

 Handlers are user code. What the k-th handler invocation does is the k-th entry
 of a finite script of calls, so every function below is total; a handler
 invoked after the script has run out returns at once.
 */
module Signals {
  import opened Prelude
  import opened ThreadStates

  const NSIG: nat := 22
  const SIGKILL: nat := 9

  type Sig = nat

  datatype Disposition = TERM | IGNORE | NEXT

  /** sig_info[n].dfl_action: what SIG_DFL means for n. */
  function DflAction(n: Sig): Disposition
  {
    if n in {4, 5, 8, 11, 15} then NEXT
    else if n in {16, 17, 18} then IGNORE
    else TERM
  }

  /** sig_info[n].fun_action: what happens after the disposition was obeyed. */
  function FunAction(n: Sig): Disposition
  {
    if n in {4, 5, 8, 11} then NEXT
    else if n in {1, 2, 3, 13, 14, 15, 16, 17, 18, 21} then IGNORE
    else TERM
  }

  /** _sys_sig_valid. */
  predicate SigValid(n: Sig)
  {
    1 <= n <= 18 || n == 21
  }

  datatype Handler = SIG_DFL | SIG_IGN | SIG_ERR | User
  datatype Action = Action(handler: Handler, sysv: bool, ack: bool, mask: set<Sig>)
  type Actions = s: seq<Action> | |s| == NSIG witness seq(NSIG, _ => Action(SIG_DFL, false, true, {}))

  datatype How = SIG_BLOCK | SIG_UNBLOCK | SIG_SETMASK | BadHow

  datatype Event = Entered(n: Sig) | Delivered(n: Sig) | Discarded(n: Sig)

  /** What user code, a handler or another thread may do. */
  datatype Call =
    | Raise(n: Sig)
    | Sigmask(how: How, newSet: Option<set<Sig>>)
    | Sigaction(n: Sig, action: Action)
    | Acknowledge(n: Sig)                                // signal(n, SIG_ACK)
    | Sigsuspend(mask: set<Sig>, arrivals: seq<Sig>)
    | Pause(arrivals: seq<Sig>)
    | Checkpoint                                         // "if (sig_pending && !_signals_blocked)"
    | KillFrom(n: Sig, state: ThreadState, cancelled: bool)   // pthread_kill by another thread
    | Native(n: Sig)                                     // the EMX handler

  datatype State = State(
    pending: set<Sig>,
    blocked: set<Sig>,
    actions: Actions,
    counter: nat,                // self->sig_pending
    deferred: bool,              // _signals_blocked != 0
    unmaskable: set<Sig>,        // what SET_BLOCKED filters out
    stopped: bool,               // the thread goes no further: uthread_terminate was reached,
    asleep: bool,                // or it waits in pthread_pause for a signal that does not come
    script: seq<seq<Call>>,      // what the coming handler invocations do
    ran: seq<Sig>,               // handlers run so far
    log: seq<Event>)

  // -------------------------------------------------------------- primitives

  function Enter(s: State, n: Sig): State
  {
    s.(pending := s.pending + {n}, log := s.log + [Entered(n)])
  }

  function Take(s: State, n: Sig): State
  {
    s.(pending := s.pending - {n}, log := s.log + [Delivered(n)])
  }

  function Discard(s: State, n: Sig): State
  {
    s.(pending := s.pending - {n}, log := s.log + [Discarded(n)])
  }

  function SetBlocked(s: State, mask: set<Sig>): State
  {
    s.(blocked := mask - s.unmaskable)
  }

  function Ready(s: State): set<Sig>
  {
    s.pending - s.blocked
  }

  function NewMask(s: State, how: How, mask: set<Sig>): set<Sig>
  {
    match how
    case SIG_BLOCK => s.blocked + mask
    case SIG_UNBLOCK => s.blocked - mask
    case _ => mask
  }

  /** pthread_sigaction, with a non-null new action. */
  function SetAction(s: State, n: Sig, action: Action): State
  {
    if n < 1 || n >= NSIG || n == SIGKILL || !SigValid(n) then s else
    var s1 := s.(actions := s.actions[n := action]);
    if (action.handler == SIG_DFL && DflAction(n) != IGNORE) || action.handler == SIG_IGN
    then Discard(s1, n) else s1
  }

  /** The action that pthread_signal installs for a handler. */
  function Acked(handler: Handler): Action
  {
    Action(handler, false, true, {})
  }

  /** The target's side of pthread_kill, for a target other than thread 1 while it
      runs. cancelled: uthread_so_cancel got a thread out of its file wait. */
  function Kill(s: State, n: Sig, state: ThreadState, cancelled: bool): State
  {
    if n < 1 || n >= NSIG || !SigValid(n) || s.actions[n].handler == SIG_IGN then s else
    match state
    case SleepWait => Enter(s, n)
    case SigWait => Enter(s, n)
    case _ =>
      if (state.FdrWait? || state.FdwWait?) && cancelled then Enter(s, n)
      else Enter(s, n).(counter := s.counter + 1)
  }

  /** pthread_kill enters n, and in a wait that can be aborted it posts its event. */
  predicate Posts(s: State, n: Sig)
  {
    SigValid(n) && s.actions[n].handler != SIG_IGN
  }

  predicate AnyPosts(s: State, arrivals: seq<Sig>)
  {
    exists i :: 0 <= i < |arrivals| && Posts(s, arrivals[i])
  }

  /** The wait of pthread_pause, which no signal ends. */
  function Sleep(s: State): State
  {
    s.(stopped := true, asleep := true)
  }

  function KillAll(s: State, arrivals: seq<Sig>): (r: State)
    ensures r.script == s.script
  {
    if arrivals == [] then s
    else Kill(KillAll(s, arrivals[..|arrivals| - 1]), arrivals[|arrivals| - 1], SigWait, false)
  }

  // ----------------------------------------------------------------- delivery

  /** _sys_deliver_pending_signals, from the scan position signo. */
  function DeliverPending(s: State, signo: nat): (r: State)
    requires 1 <= signo <= NSIG
    ensures |r.script| <= |s.script|
    decreases |s.script|, 2, |Ready(s)|, NSIG - signo
  {
    if s.stopped || Ready(s) == {} || signo == NSIG then s
    else if signo in Ready(s) then
      var r := DeliverSignal(s, signo);
      assert |r.script| == |s.script| && !r.stopped ==> |Ready(r)| < |Ready(s)| by {
        if |r.script| == |s.script| && !r.stopped {
          assert Ready(r) <= Ready(s) - {signo};
          Smaller(Ready(r), Ready(s), signo);
        }
      }
      if r.stopped then r else DeliverPending(r, 1)
    else DeliverPending(s, signo + 1)
  }

  lemma Smaller(a: set<Sig>, b: set<Sig>, x: Sig)
    requires x in b && a <= b - {x}
    ensures |a| < |b|
  {
    assert b - {x} == a + (b - {x} - a);
  }

  /** uthread_deliver_signal. */
  function DeliverSignal(s: State, n: Sig): (r: State)
    requires n < NSIG
    ensures |r.script| <= |s.script|
    ensures |r.script| == |s.script| && !r.stopped ==> r.pending == s.pending - {n} && s.blocked <= r.blocked
    decreases |s.script|, 1
  {
    var p := s.actions[n];
    var s1 := Take(s, n);
    var s2 :=
      match p.handler
      case SIG_IGN => s1
      case SIG_ERR => s1
      case SIG_DFL => if DflAction(n) != IGNORE then s1.(stopped := true) else s1
      case User =>
        if p.sysv then
          RunHandler(s1.(actions := s1.actions[n := p.(handler := SIG_DFL)]), n)
        else if p.ack then
          RunHandler(s1.(blocked := s1.blocked + {n}), n)
        else
          var r := RunHandler(SetBlocked(s1, s1.blocked + {n} + p.mask), n);
          if r.stopped then r else r.(blocked := s1.blocked);
    if !s2.stopped && FunAction(n) == TERM then s2.(stopped := true) else s2
  }

  /** pthread_pause: it waits until one of the signals that arrive posts its event, even
      if something deliverable is pending already. */
  function PauseFor(s: State, arrivals: seq<Sig>): (r: State)
    ensures |r.script| <= |s.script|
    decreases |s.script|, 2, |Ready(KillAll(s, arrivals))| + 1, 0
  {
    if AnyPosts(s, arrivals) then DeliverPending(KillAll(s, arrivals).(counter := 0), 1) else Sleep(s)
  }

  function RunHandler(s: State, n: Sig): (r: State)
    ensures |r.script| <= |s.script|
    ensures |r.script| == |s.script| ==> r == s.(ran := s.ran + [n])
    decreases |s.script|, 0
  {
    var s1 := s.(ran := s.ran + [n]);
    if s.script == [] then s1 else RunCalls(s1.(script := s.script[1..]), s.script[0])
  }

  function RunCalls(s: State, calls: seq<Call>): (r: State)
    ensures |r.script| <= |s.script|
    decreases |s.script|, 4, |calls|
  {
    if calls == [] || s.stopped then s else RunCalls(Perform(s, calls[0]), calls[1..])
  }

  function Perform(s: State, call: Call): (r: State)
    ensures |r.script| <= |s.script|
    decreases |s.script|, 3
  {
    match call
    case Raise(n) =>
      if n < 1 || n >= NSIG || !SigValid(n) || s.actions[n].handler == SIG_IGN then s
      else if s.deferred then Enter(s, n).(counter := s.counter + 1)
      else DeliverPending(Enter(s, n).(counter := 0), 1)
    case Sigmask(how, newSet) =>
      if newSet.Some? && how == BadHow then s else
      var s1 := if newSet.Some? then SetBlocked(s, NewMask(s, how, newSet.value)) else s;
      if s.deferred then s1 else DeliverPending(s1.(counter := 0), 1)
    case Sigaction(n, action) => SetAction(s, n, action)
    case Acknowledge(n) =>
      if n < 1 || n >= NSIG || n == SIGKILL || !SigValid(n) then s else
      var s1 := s.(blocked := s.blocked - {n});
      if s.deferred then s1.(counter := s.counter + 1) else DeliverPending(s1.(counter := 0), 1)
    case Sigsuspend(mask, arrivals) =>
      var r := PauseFor(SetBlocked(s, mask), arrivals);
      if r.stopped then r else r.(blocked := s.blocked)
    case Pause(arrivals) => PauseFor(s, arrivals)
    case Checkpoint =>
      if s.counter != 0 && !s.deferred then DeliverPending(s.(counter := 0), 1) else s
    case KillFrom(n, state, cancelled) => Kill(s, n, state, cancelled)
    case Native(n) =>
      if !SigValid(n) then s
      else if s.deferred then Enter(s, n).(counter := s.counter + 1)
      else DeliverSignal(Enter(s, n), n)
  }
}
