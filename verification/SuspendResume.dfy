/**
 pthread_suspend_np and pthread_resume_np (uthread_suspend.c, lines 52-68;
 uthread_resume.c, lines 52-69): whom they stop, for how long, and what is left.
 */
module SuspendLaws {
  import opened Prelude
  import opened ThreadStates
  import opened Registry
  import opened RegistryLaws
  import opened HandlerLaws

  /** pthread_suspend_np stops a thread that could go on if and only if its state was
      Running; any other state it only overwrites. */
  lemma SuspendStopsExactlyTheRunning<T>(s: State<T>, p: T)
    requires Free(s, p) && Listed(s.recs[p].phase)
    ensures var s' := Apply(s, Suspend(p));
            && p in s'.recs && s'.recs[p].state == Suspended
            && (Free(s', p) <==> s.recs[p].state != Running)
            && (forall u :: u in s.recs && u != p ==> u in s'.recs && s'.recs[u] == s.recs[u])
  {
  }

  /** Followed by pthread_resume_np it leaves a thread that could go on as it was if and
      only if that was Running: a thread that waits loses the state that says so. */
  lemma SuspendThenResumeRestoresExactlyTheRunning<T>(s: State<T>, p: T)
    requires Free(s, p) && Listed(s.recs[p].phase)
    ensures var s' := Apply(Apply(s, Suspend(p)), Resume(p));
            && p in s'.recs && Free(s', p) && s'.recs[p].state == Running
            && (s' == s <==> s.recs[p].state == Running)
  {
    var s' := Apply(Apply(s, Suspend(p)), Resume(p));
    assert s.recs[p].state == Running ==> s'.recs == s.recs;
  }

  /** Suspended by pthread_suspend_np, and without a handler to come. */
  ghost predicate Stopped<T>(s: State<T>, p: T)
  {
    && p in s.recs && s.recs[p].held && s.recs[p].state.Suspended? && Listed(s.recs[p].phase)
    && !HasHandler(s.live, s.recs, p)
  }

  lemma LeaveKeepsStopped<T>(s: State<T>, g: T, p: T)
    requires Inv(s) && Enabled(s, Leave(g)) && Stopped(s, p)
    ensures Stopped(Apply(s, Leave(g)), p)
  {
    assert g in s.live by { assert g !in s.dead; }
    assert s.recs[g].parent != Some(p);
    LeaveEffect(s, g);
    HandlersLeft(s, Apply(s, Leave(g)), g, p);
  }

  lemma BeginKeepsStopped<T>(s: State<T>, step: Step<T>, p: T)
    requires Inv(s) && step.Begin? && Enabled(s, step) && Stopped(s, p) && step.parent != Some(p)
    ensures Stopped(Apply(s, step), p)
  {
    var s' := Apply(s, step);
    assert forall u :: u in s'.live ==> u == step.t || u in s.live;
  }

  lemma RecordStepKeepsStopped<T>(s: State<T>, step: Step<T>, p: T)
    requires Inv(s) && Enabled(s, step) && Stopped(s, p)
    requires !step.Begin? && !step.Leave? && step != Resume(p)
    ensures var s' := Apply(s, step);
            p in s'.recs && s'.recs[p].held && s'.recs[p].state.Suspended? && Listed(s'.recs[p].phase)
  {
    HeldWritesNothing(s, step, p);
    if OfJoin(step) {
      JoinStepsKeepOthers(s, step, p);
    } else if OfHandler(step) {
      assert step.t in s.live by { assert step.t !in s.dead; }
      assert s.recs[step.t].parent != Some(p);
    }
  }

  lemma StepKeepsStopped<T>(s: State<T>, step: Step<T>, p: T)
    requires Inv(s) && Enabled(s, step) && Stopped(s, p)
    requires step != Resume(p) && (step.Begin? ==> step.parent != Some(p))
    ensures Stopped(Apply(s, step), p)
  {
    if step.Leave? {
      LeaveKeepsStopped(s, step.t, p);
    } else if step.Begin? {
      BeginKeepsStopped(s, step, p);
    } else {
      OtherStepsKeepLists(s, step);
      SameListsKeep(s, Apply(s, step));
      RecordStepKeepsStopped(s, step, p);
    }
  }

  lemma {:induction false} StoppedRun<T>(s: State<T>, steps: seq<Step<T>>, p: T)
    requires Inv(s) && Stopped(s, p)
    requires forall step :: step in steps ==> step != Resume(p) && (step.Begin? ==> step.parent != Some(p))
    ensures Inv(Run(s, steps)) && Stopped(Run(s, steps), p)
  {
    if steps != [] {
      var front, last := steps[..|steps| - 1], steps[|steps| - 1];
      assert steps == front + [last];
      assert forall step :: step in front ==> step in steps;
      StoppedRun(s, front, p);
      StepKeepsInv(Run(s, front), last);
      if Enabled(Run(s, front), last) { StepKeepsStopped(Run(s, front), last, p); }
    }
  }

  /** A running thread without handlers that is suspended takes no step, in any run in
      which pthread_resume_np is not called for it and no handler of it is started. */
  lemma SuspendedThreadStaysStopped<T>(s: State<T>, steps: seq<Step<T>>, p: T)
    requires Inv(s) && Free(s, p) && Listed(s.recs[p].phase) && s.recs[p].state.Running?
    requires !HasHandler(s.live, s.recs, p)
    requires forall step :: step in steps ==> step != Resume(p) && (step.Begin? ==> step.parent != Some(p))
    ensures var r := Run(Apply(s, Suspend(p)), steps); Inv(r) && Stopped(r, p) && !Free(r, p)
  {
    StepKeepsInv(s, Suspend(p));
    OtherStepsKeepLists(s, Suspend(p));
    SameListsKeep(s, Apply(s, Suspend(p)));
    StoppedRun(Apply(s, Suspend(p)), steps, p);
  }

  /** So does a thread created suspended. */
  lemma CreatedSuspendedStaysStopped<T>(s: State<T>, begin: Step<T>, steps: seq<Step<T>>)
    requires Inv(s) && begin.Begin? && begin.suspended && Enabled(s, begin)
    requires forall step :: step in steps ==> step != Resume(begin.t) && (step.Begin? ==> step.parent != Some(begin.t))
    ensures var r := Run(Apply(s, begin), steps); Inv(r) && Stopped(r, begin.t) && !Free(r, begin.t)
  {
    BeginKeepsInv(s, begin);
    NobodyHandlesTheUnregistered(s, begin.t);
    StoppedRun(Apply(s, begin), steps, begin.t);
  }

  lemma NobodyHandlesTheUnregistered<T>(s: State<T>, p: T)
    requires Inv(s) && p !in s.recs
    ensures !HasHandler(s.live, s.recs, p)
  {
    forall u | u in s.live ensures s.recs[u].parent != Some(p) { assert RecInv(s, u); }
  }
}
