/**
 Condition variables (uthread_cond.c) as micro-steps over one event semaphore and
 one atomic mutex, for any number of threads.

 The event is created with flag 0x0800: a post releases one blocked waiter if
 there is one, and otherwise is latched; a latch absorbs further posts, and the
 next wait takes it without blocking. A signal is one post, a broadcast as many
 posts as c_onwait says.

 That the mutex is atomic is justified by module MutexRefinement: for a fast mutex
 always, for a counting one as long as the kernel has not nested a request.
 */
module CondMachine {
  import opened Prelude
  import opened MutexMachine
  import opened AtomicMutex

  datatype Result = Ok | Etime | Einval | LockError(ret: Ret)

  /** The arguments of a wait, and how often its caller had the mutex. */
  datatype Waiter = Waiter(timed: bool, hasMutex: bool, depth: nat)

  datatype WaitPc =
    | Out(last: Result)
    | Entered(w: Waiter)                  // c_onwait has been incremented
    | Unlocked(w: Waiter)                 // about to wait for the event
    | Asleep(w: Waiter)                   // blocked on the event
    | Woken(w: Waiter)                    // the wait returned 0
    | Leaving(w: Waiter, ret: Result)     // about to decrement c_onwait

  datatype Cond = Cond(
    mutex: Mutex,
    onwait: int,
    latched: bool,
    sleepers: set<Tid>,
    pcs: map<Tid, WaitPc>,
    posts: nat,          // history: posts made, wake-ups, posts absorbed by a set latch
    wakes: nat,
    absorbed: nat)

  function PcOf(s: Cond, t: Tid): WaitPc
  {
    if t in s.pcs then s.pcs[t] else Out(Ok)
  }

  function SetPc(s: Cond, t: Tid, pc: WaitPc): Cond
  {
    s.(pcs := s.pcs[t := pc])
  }

  /** How often t has the mutex. */
  function Owned(m: Mutex, t: Tid): nat
  {
    if m.owner == Some(t) then m.depth else 0
  }

  /** DosPostEventSem; u is the waiter the kernel picks if there are any. */
  function Post(s: Cond, u: Tid): Cond
  {
    var s1 := s.(posts := s.posts + 1);
    if s.sleepers == {} then
      if s.latched then s1.(absorbed := s.absorbed + 1) else s1.(latched := true)
    else if u in s.sleepers && PcOf(s, u).Asleep? then
      SetPc(s1, u, Woken(PcOf(s, u).w)).(sleepers := s.sleepers - {u}, wakes := s.wakes + 1)
    else
      s
  }

  /** The next micro-step of t in its wait. */
  function Advance(s: Cond, t: Tid): Cond
  {
    match PcOf(s, t)
    case Out(_) => s
    case Entered(w) =>
      SetPc(s, t, Unlocked(w)).(mutex := if w.hasMutex then UnlockIt(s.mutex, t).0 else s.mutex)
    case Unlocked(w) =>
      if s.latched then SetPc(s, t, Woken(w)).(latched := false, wakes := s.wakes + 1)
      else SetPc(s, t, Asleep(w)).(sleepers := s.sleepers + {t})
    case Asleep(_) => s
    case Woken(w) =>
      if !w.hasMutex then SetPc(s, t, Leaving(w, Ok))
      else if MayLock(s.mutex, t) then
        var (m, ret) := LockIt(s.mutex, t);
        SetPc(s, t, Leaving(w, if ret == Success then Ok else LockError(ret))).(mutex := m)
      else s
    case Leaving(w, ret) => SetPc(s, t, Out(ret)).(onwait := s.onwait - 1)
  }

  datatype Step =
    | Begin(t: Tid, timed: bool, hasMutex: bool)
    | Go(t: Tid)
    | Fail(t: Tid)              // the event wait times out, or fails
    | PostTo(u: Tid)
    | LockBy(t: Tid)
    | UnlockBy(t: Tid)

  function Apply(s: Cond, step: Step): Cond
  {
    match step
    case Begin(t, timed, hasMutex) =>
      if PcOf(s, t).Out? then
        SetPc(s, t, Entered(Waiter(timed, hasMutex, Owned(s.mutex, t)))).(onwait := s.onwait + 1)
      else s
    case Go(t) => Advance(s, t)
    case Fail(t) =>
      if PcOf(s, t).Unlocked? || PcOf(s, t).Asleep? then
        var w := PcOf(s, t).w;
        SetPc(s, t, Leaving(w, if w.timed then Etime else Einval)).(sleepers := s.sleepers - {t})
      else s
    case PostTo(u) => Post(s, u)
    case LockBy(t) =>
      if PcOf(s, t).Out? && MayLock(s.mutex, t) then s.(mutex := LockIt(s.mutex, t).0) else s
    case UnlockBy(t) =>
      if PcOf(s, t).Out? then s.(mutex := UnlockIt(s.mutex, t).0) else s
  }

  function Run(s: Cond, steps: seq<Step>): Cond
  {
    if steps == [] then s else Apply(Run(s, steps[..|steps| - 1]), steps[|steps| - 1])
  }

  function Fresh(kind: Kind): Cond
  {
    Cond(Mutex(kind, None, 0), 0, false, {}, map[], 0, 0, 0)
  }

  /** A broadcast as one atomic run of posts: one for each choice in q. */
  function PostAll(s: Cond, q: seq<Tid>): Cond
  {
    if q == [] then s else Post(PostAll(s, q[..|q| - 1]), q[|q| - 1])
  }

  /** Each choice is a waiter the kernel could have picked at that post. */
  ghost predicate Choices(s: Cond, q: seq<Tid>)
  {
    forall i :: 0 <= i < |q| ==>
      var m := PostAll(s, q[..i]);
      m.sleepers == {} || q[i] in m.sleepers
  }
}

/** What every interleaving of waits, signals and broadcasts keeps. */
module CondLaws {
  import opened Prelude
  import M = MutexMachine
  import opened AtomicMutex
  import opened CondMachine

  /** Threads between the increment and the decrement of c_onwait. */
  ghost function Inside(s: Cond): set<M.Tid>
  {
    set t | t in s.pcs && !s.pcs[t].Out?
  }

  /** Counted in c_onwait but not yet waiting for the event. */
  ghost function Approaching(s: Cond): set<M.Tid>
  {
    set t | t in s.pcs && (s.pcs[t].Entered? || s.pcs[t].Unlocked?)
  }

  function Less(depth: nat): nat
  {
    if depth == 0 then 0 else depth - 1
  }

  /** How often a thread has the mutex at each point of its wait. */
  ghost predicate Holding(m: Mutex, t: M.Tid, pc: WaitPc)
  {
    match pc
    case Out(_) => true
    case Entered(w) => Owned(m, t) == w.depth
    case Leaving(w, ret) =>
      && (m.kind == M.Fast ==> w.depth <= 1)
      && (!w.hasMutex ==> Owned(m, t) == w.depth)
      && (w.hasMutex && ret == Ok ==> m.owner == Some(t) && Owned(m, t) == Less(w.depth) + 1)
      && (w.hasMutex && ret != Ok ==> Owned(m, t) == Less(w.depth))
      && !ret.LockError?
      && (ret == Etime ==> w.timed)
    case _ =>
      && (m.kind == M.Fast ==> pc.w.depth <= 1)
      && Owned(m, t) == if pc.w.hasMutex then Less(pc.w.depth) else pc.w.depth
  }

  ghost predicate Inv(s: Cond)
  {
    && Consistent(s.mutex)
    && s.sleepers == (set t | t in s.pcs && s.pcs[t].Asleep?)
    && (s.latched ==> s.sleepers == {})
    && s.onwait == |Inside(s)|
    && s.posts == s.wakes + s.absorbed + (if s.latched then 1 else 0)
    && forall t :: t in s.pcs ==> Holding(s.mutex, t, s.pcs[t])
  }

  /** The mutex changed hands, if at all, only by what t did to it. */
  ghost predicate OthersKeepMutex(m: Mutex, m': Mutex, t: M.Tid)
  {
    && Consistent(m') && m'.kind == m.kind
    && forall u :: u != t ==> Owned(m', u) == Owned(m, u) && (m.owner == Some(u) ==> m'.owner == Some(u))
  }

  lemma LockAndUnlockAreOwn(m: Mutex, t: M.Tid)
    requires Consistent(m)
    ensures OthersKeepMutex(m, UnlockIt(m, t).0, t)
    ensures MayLock(m, t) ==> OthersKeepMutex(m, LockIt(m, t).0, t)
  {
  }

  /** From s to s' thread t moved to pc, and nothing else happened to any thread. */
  ghost predicate Moved(s: Cond, s': Cond, t: M.Tid, pc: WaitPc)
  {
    && s'.pcs == s.pcs[t := pc]
    && s'.sleepers == (if pc.Asleep? then s.sleepers + {t} else s.sleepers - {t})
    && s'.onwait == s.onwait + (if pc.Out? then 0 else 1) - (if PcOf(s, t).Out? then 0 else 1)
    && OthersKeepMutex(s.mutex, s'.mutex, t)
    && Holding(s'.mutex, t, pc)
  }

  lemma WhoIsInsideAfterMove(s: Cond, s': Cond, t: M.Tid, pc: WaitPc)
    requires s'.pcs == s.pcs[t := pc]
    ensures Inside(s') == if pc.Out? then Inside(s) - {t} else Inside(s) + {t}
  {
    forall u: M.Tid ensures u in Inside(s') <==> if u == t then !pc.Out? else u in Inside(s) {
    }
  }

  lemma InsideAfterMove(s: Cond, s': Cond, t: M.Tid, pc: WaitPc)
    requires s'.pcs == s.pcs[t := pc]
    ensures |Inside(s')| == |Inside(s)| + (if pc.Out? then 0 else 1) - (if PcOf(s, t).Out? then 0 else 1)
  {
    WhoIsInsideAfterMove(s, s', t, pc);
    OneElement(Inside(s), t);
    assert t in Inside(s) <==> !PcOf(s, t).Out?;
  }

  lemma SleepersAfterMove(s: Cond, s': Cond, t: M.Tid, pc: WaitPc)
    requires Inv(s) && Moved(s, s', t, pc)
    ensures s'.sleepers == (set u | u in s'.pcs && s'.pcs[u].Asleep?)
  {
    forall u: M.Tid ensures u in s'.sleepers <==> u in s'.pcs && s'.pcs[u].Asleep? {
      assert u in s.sleepers <==> u in s.pcs && s.pcs[u].Asleep?;
    }
  }

  lemma MovedKeepsInv(s: Cond, s': Cond, t: M.Tid, pc: WaitPc)
    requires Inv(s) && Moved(s, s', t, pc)
    requires s'.latched ==> s'.sleepers == {}
    requires s'.posts == s'.wakes + s'.absorbed + (if s'.latched then 1 else 0)
    ensures Inv(s')
  {
    InsideAfterMove(s, s', t, pc);
    SleepersAfterMove(s, s', t, pc);
    forall u | u in s'.pcs ensures Holding(s'.mutex, u, s'.pcs[u]) {
      if u != t { assert Holding(s.mutex, u, s.pcs[u]); }
    }
  }

  lemma AdvanceMoves(s: Cond, t: M.Tid)
    requires Inv(s) && Advance(s, t) != s
    ensures Moved(s, Advance(s, t), t, PcOf(Advance(s, t), t))
  {
    assert t in s.pcs && Holding(s.mutex, t, s.pcs[t]);
    LockAndUnlockAreOwn(s.mutex, t);
    assert t in s.sleepers <==> s.pcs[t].Asleep?;
  }

  lemma PostKeepsInv(s: Cond, u: M.Tid)
    requires Inv(s)
    ensures Inv(Post(s, u))
  {
    var s' := Post(s, u);
    if u in s.sleepers {
      assert Holding(s.mutex, u, s.pcs[u]);
      MovedKeepsInv(s, s', u, Woken(s.pcs[u].w));
    } else {
      assert Inside(s') == Inside(s);
    }
  }

  lemma BeginOrFailMoves(s: Cond, step: Step)
    requires Inv(s) && (step.Begin? || step.Fail?) && Apply(s, step) != s
    ensures Moved(s, Apply(s, step), step.t, PcOf(Apply(s, step), step.t))
  {
    var t := step.t;
    assert t in s.pcs ==> Holding(s.mutex, t, s.pcs[t]);
    assert t in s.sleepers <==> PcOf(s, t).Asleep?;
  }

  lemma LockOrUnlockByKeepsInv(s: Cond, step: Step)
    requires Inv(s) && (step.LockBy? || step.UnlockBy?)
    ensures Inv(Apply(s, step))
  {
    var s' := Apply(s, step);
    LockAndUnlockAreOwn(s.mutex, step.t);
    assert Inside(s') == Inside(s);
    forall u | u in s'.pcs ensures Holding(s'.mutex, u, s'.pcs[u]) {
      assert Holding(s.mutex, u, s.pcs[u]);
    }
  }

  lemma StepKeepsInv(s: Cond, step: Step)
    requires Inv(s)
    ensures Inv(Apply(s, step))
  {
    var s' := Apply(s, step);
    if s' != s {
      match step
      case PostTo(u) => PostKeepsInv(s, u);
      case LockBy(_) => LockOrUnlockByKeepsInv(s, step);
      case UnlockBy(_) => LockOrUnlockByKeepsInv(s, step);
      case Go(t) =>
        AdvanceMoves(s, t);
        MovedKeepsInv(s, s', t, PcOf(s', t));
      case _ =>
        BeginOrFailMoves(s, step);
        MovedKeepsInv(s, s', step.t, PcOf(s', step.t));
    }
  }

  /** In every reachable state: c_onwait counts the threads inside a wait; posts are
      accounted for; a latch and a blocked waiter never coexist; and each thread has
      the mutex exactly as often as its place in the wait says. */
  lemma {:induction false} RunKeepsInv(kind: M.Kind, steps: seq<Step>)
    ensures Inv(Run(Fresh(kind), steps))
  {
    if steps == [] {
      assert Inside(Fresh(kind)) == {};
    } else {
      RunKeepsInv(kind, steps[..|steps| - 1]);
      StepKeepsInv(Run(Fresh(kind), steps[..|steps| - 1]), steps[|steps| - 1]);
    }
  }

  // ------------------------------------------------------------- the main results

  /** posts = wake-ups + the latched post + posts absorbed by an already set latch,
      and c_onwait is the number of threads inside a wait. */
  lemma PostsAndWaitersAreAccounted(kind: M.Kind, steps: seq<Step>)
    ensures var s := Run(Fresh(kind), steps);
            && s.posts == s.wakes + (if s.latched then 1 else 0) + s.absorbed
            && s.onwait == |Inside(s)|
            && (s.latched ==> s.sleepers == {})
  {
    RunKeepsInv(kind, steps);
  }

  /** What a wait with a mutex does to it. While it blocks, the caller has given up
      one acquisition: others can get the mutex exactly if it had at most one. On
      return 0 it owns the mutex again, as often as before; on ETIME or an error it
      comes back without the acquisition it gave up, so from depth 1 without the
      mutex (section 11.4 of ISO/IEC 9945-1 would have it reacquired). */
  lemma WaitAndTheMutex(kind: M.Kind, steps: seq<Step>, t: M.Tid)
    requires t in Run(Fresh(kind), steps).pcs
    ensures var s := Run(Fresh(kind), steps);
            var pc := s.pcs[t];
            && (pc.Asleep? && pc.w.hasMutex ==> Owned(s.mutex, t) == Less(pc.w.depth))
            && (pc.Asleep? && pc.w.hasMutex ==> (s.mutex.owner != Some(t) <==> pc.w.depth <= 1))
            && (pc.Leaving? && pc.w.hasMutex ==>
                  (pc.ret == Ok ==> s.mutex.owner == Some(t) && Owned(s.mutex, t) == Less(pc.w.depth) + 1)
                  && (pc.ret != Ok ==> Owned(s.mutex, t) == Less(pc.w.depth))
                  && (pc.ret == Ok <==> Owned(s.mutex, t) == Less(pc.w.depth) + 1))
            && (pc.Leaving? ==> !pc.ret.LockError? && (pc.ret == Etime ==> pc.w.timed))
  {
    RunKeepsInv(kind, steps);
    var s := Run(Fresh(kind), steps);
    assert Holding(s.mutex, t, s.pcs[t]);
  }

  // ------------------------------------------------------------------- broadcast

  /** What n posts leave of s. */
  ghost predicate AfterPosts(s: Cond, r: Cond, n: nat)
    requires Inv(s)
  {
    && r.mutex == s.mutex && r.onwait == s.onwait && r.pcs.Keys == s.pcs.Keys
    && r.sleepers <= s.sleepers
    && |r.sleepers| == (if n <= |s.sleepers| then |s.sleepers| - n else 0)
    && r.latched == (s.latched || n > |s.sleepers|)
    && forall t :: t in s.pcs ==>
         r.pcs[t] == if t in s.sleepers && t !in r.sleepers then Woken(s.pcs[t].w) else s.pcs[t]
  }

  lemma OnePostMore(s: Cond, m: Cond, u: M.Tid, n: nat)
    requires Inv(s) && Inv(m) && AfterPosts(s, m, n) && (m.sleepers == {} || u in m.sleepers)
    ensures AfterPosts(s, Post(m, u), n + 1)
  {
    if m.sleepers != {} {
      assert u in m.pcs && m.pcs[u].Asleep?;
      SubsetCardinality({u}, m.sleepers);
      assert |m.sleepers - {u}| == |m.sleepers| - 1;
    }
  }

  /** n posts with nobody else in between: they wake sleepers one at a time, then set
      the latch, then are absorbed. */
  lemma {:induction false} PostAllEffect(s: Cond, q: seq<M.Tid>)
    requires Inv(s) && Choices(s, q)
    ensures Inv(PostAll(s, q)) && AfterPosts(s, PostAll(s, q), |q|)
  {
    if q != [] {
      var front := q[..|q| - 1];
      forall i | 0 <= i < |front| ensures PostAll(s, front[..i]) == PostAll(s, q[..i]) {
        assert front[..i] == q[..i];
      }
      PostAllEffect(s, front);
      var m, u := PostAll(s, front), q[|q| - 1];
      assert m.sleepers == {} || u in m.sleepers;
      PostKeepsInv(m, u);
      OnePostMore(s, m, u, |front|);
    }
  }

  /** A broadcast that is one atomic step: it makes c_onwait posts, every thread that
      was blocked on the event is released, and a latch is left behind exactly if one
      was set or some thread was counted without being blocked. */
  lemma BroadcastWakesEverySleeper(s: Cond, q: seq<M.Tid>)
    requires Inv(s) && Choices(s, q) && |q| == s.onwait
    ensures var r := PostAll(s, q);
            && Inv(r) && r.sleepers == {} && r.pcs.Keys == s.pcs.Keys
            && (forall t :: t in s.pcs ==>
                  r.pcs[t] == if s.pcs[t].Asleep? then Woken(s.pcs[t].w) else s.pcs[t])
            && (r.latched <==> s.latched || Inside(s) != s.sleepers)
  {
    PostAllEffect(s, q);
    assert s.sleepers <= Inside(s);
    SubsetCardinality(s.sleepers, Inside(s));
    var r := PostAll(s, q);
    assert r.sleepers == {};
    assert forall t :: t in s.sleepers <==> t in s.pcs && s.pcs[t].Asleep?;
  }

  /** Nobody is blocked, and at most one thread is on its way to block, with a latched
      post waiting for it. */
  ghost predicate Calm(s: Cond)
  {
    && s.sleepers == {}
    && (Approaching(s) == {} || (s.latched && exists t :: Approaching(s) == {t}))
  }

  lemma CalmStep(s: Cond, step: Step)
    requires Inv(s) && Calm(s) && !step.Begin?
    ensures Calm(Apply(s, step)) && Approaching(Apply(s, step)) <= Approaching(s)
  {
    var s' := Apply(s, step);
    forall t | t in Approaching(s') ensures t in Approaching(s) {
    }
    assert forall t :: t in s.pcs ==> !s.pcs[t].Asleep? by {
      forall t | t in s.pcs ensures !s.pcs[t].Asleep? { assert t !in s.sleepers; }
    }
    if step.Go? && step.t in s.pcs && s.pcs[step.t].Unlocked? {
      assert step.t in Approaching(s);
      assert Approaching(s) == {step.t};
      assert step.t !in Approaching(s');
      assert Approaching(s') == {};
    } else if Approaching(s) != {} && Approaching(s') != {} {
      var t :| Approaching(s) == {t};
      var t' :| t' in Approaching(s');
      assert Approaching(s') == {t};
      assert s'.latched;
    }
  }

  lemma {:induction false} CalmRun(s: Cond, steps: seq<Step>)
    requires Inv(s) && Calm(s) && forall i :: 0 <= i < |steps| ==> !steps[i].Begin?
    ensures Inv(Run(s, steps)) && Calm(Run(s, steps))
  {
    if steps != [] {
      CalmRun(s, steps[..|steps| - 1]);
      StepKeepsInv(Run(s, steps[..|steps| - 1]), steps[|steps| - 1]);
      CalmStep(Run(s, steps[..|steps| - 1]), steps[|steps| - 1]);
    }
  }

  /** A signal sent while a sole waiter is between entering its wait and blocking is
      kept: as long as nobody starts another wait, the waiter never blocks, whatever
      else happens, and its next step at the event gets it through. */
  lemma SignalBeforeBlockingIsNotLost(s: Cond, t: M.Tid, u: M.Tid, steps: seq<Step>)
    requires Inv(s) && s.sleepers == {} && Approaching(s) == {t}
    requires forall i :: 0 <= i < |steps| ==> !steps[i].Begin?
    ensures var r := Run(Post(s, u), steps);
            && r.sleepers == {}
            && (PcOf(r, t).Unlocked? ==> PcOf(Advance(r, t), t).Woken?)
  {
    var s1 := Post(s, u);
    PostKeepsInv(s, u);
    assert Approaching(s1) == {t};
    CalmRun(s1, steps);
    var r := Run(s1, steps);
    if PcOf(r, t).Unlocked? { assert t in Approaching(r); }
  }

  /** A continuation without new waits or posts in which some thread blocks. */
  ghost predicate CanStrand(s: Cond)
  {
    exists steps :: OnlyGoes(steps) && Run(s, steps).sleepers != {}
  }

  ghost predicate OnlyGoes(steps: seq<Step>)
  {
    forall i :: 0 <= i < |steps| ==> steps[i].Go?
  }

  lemma RunAppend(s: Cond, steps: seq<Step>, step: Step)
    ensures Run(s, steps + [step]) == Apply(Run(s, steps), step)
  {
    assert (steps + [step])[..|steps|] == steps;
  }

  /** Bring an approaching thread to the event. */
  lemma ReachEvent(s: Cond, t: M.Tid) returns (steps: seq<Step>)
    requires t in Approaching(s)
    ensures OnlyGoes(steps)
    ensures var r := Run(s, steps);
            && r.sleepers == s.sleepers && r.latched == s.latched && PcOf(r, t).Unlocked?
            && forall u :: u != t ==> PcOf(r, u) == PcOf(s, u)
  {
    if s.pcs[t].Entered? {
      steps := [Go(t)];
      RunAppend(s, [], Go(t));
      assert [] + [Go(t)] == steps;
    } else {
      steps := [];
    }
  }

  lemma {:induction false} RunConcat(s: Cond, a: seq<Step>, b: seq<Step>)
    ensures Run(s, a + b) == Run(Run(s, a), b)
  {
    if b == [] {
      assert a + b == a;
    } else {
      RunConcat(s, a, b[..|b| - 1]);
      assert (a + b)[..|a + b| - 1] == a + b[..|b| - 1];
    }
  }

  /** A thread at the event takes the latch if there is one, and blocks if not. */
  lemma AtTheEvent(s: Cond, t: M.Tid)
    requires PcOf(s, t).Unlocked?
    ensures var r := Advance(s, t);
            && (s.latched ==> r.sleepers == s.sleepers && !r.latched)
            && (!s.latched ==> r.sleepers == s.sleepers + {t})
            && forall u :: u != t ==> PcOf(r, u) == PcOf(s, u)
  {
  }

  /** Some Go steps bring t to the event and past it. */
  lemma PassEvent(s: Cond, t: M.Tid) returns (steps: seq<Step>)
    requires t in Approaching(s)
    ensures OnlyGoes(steps)
    ensures var r := Run(s, steps);
            && (s.latched ==> r.sleepers == s.sleepers && !r.latched)
            && (!s.latched ==> r.sleepers == s.sleepers + {t})
            && forall u :: u != t ==> PcOf(r, u) == PcOf(s, u)
  {
    var a := ReachEvent(s, t);
    RunAppend(s, a, Go(t));
    AtTheEvent(Run(s, a), t);
    steps := a + [Go(t)];
  }

  /** Two threads on their way to the event and at most one latch: one can block. */
  lemma TwoApproachingCanStrand(s: Cond, t: M.Tid, u: M.Tid)
    requires s.sleepers == {} && t != u && t in Approaching(s) && u in Approaching(s)
    ensures CanStrand(s)
  {
    var a := PassEvent(s, t);
    var s1 := Run(s, a);
    if s.latched {
      assert PcOf(s1, u) == PcOf(s, u) && u in Approaching(s1);
      var b := PassEvent(s1, u);
      RunConcat(s, a, b);
      assert u in Run(s1, b).sleepers;
      assert OnlyGoes(a + b) && Run(s, a + b).sleepers != {};
    } else {
      assert t in s1.sleepers;
    }
  }

  /** An atomic broadcast serves every waiter that c_onwait counted if and only if at
      most one of them had not reached the event yet: one latch cannot stand for two
      posts. */
  lemma BroadcastServesAllExactlyWhenAtMostOneApproaches(s: Cond, q: seq<M.Tid>)
    requires Inv(s) && Choices(s, q) && |q| == s.onwait
    ensures !CanStrand(PostAll(s, q)) <==> |Approaching(s)| <= 1
  {
    var r := PostAll(s, q);
    BroadcastWakesEverySleeper(s, q);
    assert Approaching(r) == Approaching(s) by {
      forall t: M.Tid ensures t in Approaching(r) <==> t in Approaching(s) {
        if t in s.pcs { assert r.pcs[t] == if s.pcs[t].Asleep? then Woken(s.pcs[t].w) else s.pcs[t]; }
      }
    }
    if |Approaching(s)| <= 1 {
      if Approaching(s) != {} {
        var t :| t in Approaching(s);
        SubsetCardinality({t}, Approaching(s));
        assert Approaching(r) == {t};
        assert t in Inside(s) && t !in s.sleepers;
      }
      assert Calm(r);
      forall steps | OnlyGoes(steps) ensures Run(r, steps).sleepers == {} {
        CalmRun(r, steps);
      }
    } else {
      var t :| t in Approaching(s);
      assert Approaching(s) - {t} != {} by { SubsetCardinality(Approaching(s), {t} + (Approaching(s) - {t})); }
      var u :| u in Approaching(s) - {t};
      TwoApproachingCanStrand(r, t, u);
    }
  }
}
