/**
 What the calls of pthread_cond_wait and pthread_cond_timedwait return
 (uthread_cond.c, lines 197-206 and 265-278).
 */
module WaitLaws {
  import opened Prelude
  import M = MutexMachine
  import opened AtomicMutex
  import opened CondMachine
  import opened CondLaws

  /** A wait that was begun: its arguments, and whether its wait for the event failed or
      timed out. */
  datatype Begun = Begun(timed: bool, hasMutex: bool, failed: bool)

  /** The last wait of t in a run. */
  function LastWait(kind: M.Kind, steps: seq<Step>, t: M.Tid): Option<Begun>
  {
    if steps == [] then None
    else
      var front, step := steps[..|steps| - 1], steps[|steps| - 1];
      Noted(LastWait(kind, front, t), PcOf(Run(Fresh(kind), front), t), step, t)
  }

  /** The same after one more step, taken when t was at pc. */
  function Noted(b: Option<Begun>, pc: WaitPc, step: Step, t: M.Tid): Option<Begun>
  {
    if step.Begin? && step.t == t && pc.Out? then Some(Begun(step.timed, step.hasMutex, false))
    else if step == Fail(t) && b.Some? && (pc.Unlocked? || pc.Asleep?) then Some(b.value.(failed := true))
    else b
  }

  /** What a wait returns: 0 if and only if its wait for the event succeeded, otherwise
      ETIME if it is a timed one and EINVAL if not. */
  function Returns(b: Begun): Result
  {
    if !b.failed then Ok else if b.timed then Etime else Einval
  }

  /** The place of a thread in the wait it last began. */
  ghost predicate InPlace(pc: WaitPc, b: Option<Begun>)
  {
    match pc
    case Out(last) => last == if b == None then Ok else Returns(b.value)
    case Leaving(w, ret) =>
      b.Some? && w.timed == b.value.timed && w.hasMutex == b.value.hasMutex && ret == Returns(b.value)
    case _ =>
      b.Some? && pc.w.timed == b.value.timed && pc.w.hasMutex == b.value.hasMutex && !b.value.failed
  }

  lemma GoInPlace(s: Cond, t: M.Tid, b: Option<Begun>)
    requires Inv(s) && InPlace(PcOf(s, t), b)
    ensures InPlace(PcOf(Advance(s, t), t), b)
  {
    StepKeepsInv(s, Go(t));
    var s' := Apply(s, Go(t));
    if t in s'.pcs { assert Holding(s'.mutex, t, s'.pcs[t]); }
  }

  lemma StepInPlace(s: Cond, step: Step, t: M.Tid, b: Option<Begun>)
    requires Inv(s) && InPlace(PcOf(s, t), b)
    ensures InPlace(PcOf(Apply(s, step), t), Noted(b, PcOf(s, t), step, t))
  {
    if step == Go(t) {
      GoInPlace(s, t, b);
    } else if step.PostTo? {
      assert t in s.sleepers ==> PcOf(s, t).Asleep?;
    }
  }

  /** In every run the value that a wait gives its caller, and has in hand while it
      leaves, is that: with a mutex or without, and whether it failed before it blocked or
      while it was blocked. */
  lemma {:induction false} WaitReturnsExactly(kind: M.Kind, steps: seq<Step>, t: M.Tid)
    ensures InPlace(PcOf(Run(Fresh(kind), steps), t), LastWait(kind, steps, t))
  {
    if steps != [] {
      var front := steps[..|steps| - 1];
      WaitReturnsExactly(kind, front, t);
      RunKeepsInv(kind, front);
      StepInPlace(Run(Fresh(kind), front), steps[|steps| - 1], t, LastWait(kind, front, t));
    }
  }

  /** A woken waiter gets the mutex before its wait returns: it stays where it is as long
      as another thread u has the mutex, and returns 0 with it once u has let go. */
  lemma WokenWaiterTakesTheMutexBack(kind: M.Kind, steps: seq<Step>, t: M.Tid, u: M.Tid)
    requires var s := Run(Fresh(kind), steps);
             && PcOf(s, t).Woken? && PcOf(s, t).w.hasMutex && t != u && PcOf(s, u).Out?
             && s.mutex.owner == Some(u) && s.mutex.depth == 1
    ensures var s := Run(Fresh(kind), steps);
            var r := Apply(Apply(s, UnlockBy(u)), Go(t));
            && Apply(s, Go(t)) == s
            && r.mutex.owner == Some(t) && r.mutex.depth == 1 && PcOf(r, t) == Leaving(PcOf(s, t).w, Ok)
  {
    RunKeepsInv(kind, steps);
  }

  /** While a waiter is blocked another thread can have the mutex: one acquisition of the
      waiter's is given up. */
  lemma BlockedWaiterLeavesTheMutex(kind: M.Kind, steps: seq<Step>, t: M.Tid, u: M.Tid)
    requires var s := Run(Fresh(kind), steps);
             && PcOf(s, t).Asleep? && PcOf(s, t).w == Waiter(PcOf(s, t).w.timed, true, 1) && t != u && PcOf(s, u).Out?
    ensures var s := Run(Fresh(kind), steps);
            s.mutex.owner == None ==> Apply(s, LockBy(u)).mutex == Mutex(kind, Some(u), 1)
    ensures Run(Fresh(kind), steps).mutex.owner != Some(t)
  {
    RunKeepsInv(kind, steps);
    KindStays(kind, steps);
    assert Holding(Run(Fresh(kind), steps).mutex, t, PcOf(Run(Fresh(kind), steps), t));
  }

  lemma {:induction false} KindStays(kind: M.Kind, steps: seq<Step>)
    ensures Run(Fresh(kind), steps).mutex.kind == kind
  {
    if steps != [] { KindStays(kind, steps[..|steps| - 1]); }
  }
}
