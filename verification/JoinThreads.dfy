/**
 What pthread_join gives its caller after a wait, and what a record keeps of its
 registration (uthread_join.c, lines 88-119; uthread_create.c, lines 58-115).
 */
module JoinLaws {
  import opened Prelude
  import opened ThreadStates
  import opened Registry
  import opened RegistryLaws
  import opened HandlerLaws

  /** The step of a run that registered thread t. */
  function Registration<T(==)>(steps: seq<Step<T>>, t: T): Option<Step<T>>
  {
    if steps == [] then None
    else
      var front, step := steps[..|steps| - 1], steps[|steps| - 1];
      if step.Begin? && step.t == t && Enabled(Run(Fresh(), front), step) then Some(step) else Registration(front, t)
  }

  /** Thread t was registered detached, or pthread_detach was called for it. */
  function IsDetached<T(==)>(steps: seq<Step<T>>, t: T): bool
  {
    if steps == [] then false
    else
      var front, step := steps[..|steps| - 1], steps[|steps| - 1];
      if step.Begin? && step.t == t && Enabled(Run(Fresh(), front), step) then step.detached
      else IsDetached(front, t) || (step == Detach(t) && Enabled(Run(Fresh(), front), step))
  }

  /** What no step changes in a record but Begin and Detach. */
  ghost predicate SameOrigin<T>(s: State<T>, step: Step<T>, t: T)
  {
    var s' := Apply(s, step);
    if step.Begin? && step.t == t && Enabled(s, step) then
      && t in s'.recs && s'.recs[t].parent == step.parent && s'.recs[t].sig == step.sig
      && s'.recs[t].detached == step.detached
    else
      && (t in s'.recs <==> t in s.recs)
      && (t in s.recs ==>
            && s'.recs[t].parent == s.recs[t].parent && s'.recs[t].sig == s.recs[t].sig
            && s'.recs[t].detached == (s.recs[t].detached || (step == Detach(t) && Enabled(s, step))))
  }

  lemma LeaveKeepsOrigin<T>(s: State<T>, g: T, t: T)
    requires Inv(s) && Enabled(s, Leave(g))
    ensures SameOrigin(s, Leave(g), t)
  {
    LeaveEffect(s, g);
  }

  lemma JoinStepKeepsOrigin<T>(s: State<T>, step: Step<T>, t: T)
    requires Inv(s) && OfJoin(step) && Enabled(s, step)
    ensures SameOrigin(s, step, t)
  {
  }

  lemma HandlerStepKeepsOrigin<T>(s: State<T>, step: Step<T>, t: T)
    requires Inv(s) && OfHandler(step) && Enabled(s, step)
    ensures SameOrigin(s, step, t)
  {
  }

  lemma StepKeepsOrigin<T>(s: State<T>, step: Step<T>, t: T)
    requires Inv(s)
    ensures SameOrigin(s, step, t)
  {
    if Enabled(s, step) {
      if step.Leave? {
        LeaveKeepsOrigin(s, step.t, t);
      } else if OfJoin(step) {
        JoinStepKeepsOrigin(s, step, t);
      } else if OfHandler(step) {
        HandlerStepKeepsOrigin(s, step, t);
      }
    }
  }

  /** In every reachable state a record has the parent and the signal that its thread was
      registered with, and says detached exactly if it was registered so or detached. */
  lemma {:induction false} RecordsKeepTheirRegistration<T>(steps: seq<Step<T>>, t: T)
    ensures var s, begun := Run(Fresh(), steps), Registration(steps, t);
            && (t in s.recs <==> begun.Some?)
            && (t in s.recs ==>
                  && begun.value.Begin? && begun.value.t == t
                  && s.recs[t].parent == begun.value.parent && s.recs[t].sig == begun.value.sig
                  && s.recs[t].detached == IsDetached(steps, t))
  {
    if steps != [] {
      var front := steps[..|steps| - 1];
      RecordsKeepTheirRegistration(front, t);
      RunKeepsInv(front);
      StepKeepsOrigin(Run(Fresh(), front), steps[|steps| - 1], t);
    }
  }

  /** In every reachable state the end of a join that waited gives its caller the value
      that the thread stored when it last entered pthread_exit, if and only if it is not
      detached, and ESRCH otherwise; and the caller runs again. */
  lemma WaitingJoinReturnsExactly<T>(steps: seq<Step<T>>, j: T)
    requires Enabled(Run(Fresh(), steps), JoinEnd(j))
    ensures var s := Run(Fresh(), steps);
            var t, s' := s.joining[j], Apply(s, JoinEnd(j));
            && LastExit(Fresh(), steps, t).Some?
            && s'.joined == s.joined + [(t, if IsDetached(steps, t) then Esrch else Value(LastExit(Fresh(), steps, t)))]
            && j !in s'.joining && s'.joining == s.joining - {j}
            && s'.recs == s.recs[j := s.recs[j].(state := Running)]
            && s'.live == s.live && s'.dead == s.dead
  {
    RunKeepsInv(steps);
    var s := Run(Fresh(), steps);
    var t := s.joining[j];
    assert RecInv(s, t);
    RetIsLastExit(steps, t);
    RecordsKeepTheirRegistration(steps, t);
  }

  lemma {:induction false} DetachedMeanwhile<T>(s: State<T>, steps: seq<Step<T>>, t: T)
    requires Inv(s) && t in s.recs
    ensures var r := Run(s, steps);
            && Inv(r) && t in r.recs
            && (r.recs[t].detached <==> s.recs[t].detached || Detach(t) in steps)
  {
    if steps != [] {
      var front, last := steps[..|steps| - 1], steps[|steps| - 1];
      DetachedMeanwhile(s, front, t);
      StepKeepsInv(Run(s, front), last);
      StepKeepsOrigin(Run(s, front), last, t);
      assert steps == front + [last];
    }
  }

  /** A join of t that waits fails in the end, with ESRCH, if and only if t is detached
      while it waits. */
  lemma WaitingJoinFailsExactlyIfDetachedMeanwhile<T>(s: State<T>, j: T, t: T, steps: seq<Step<T>>)
    requires Inv(s) && Enabled(s, JoinBegin(j, t)) && Apply(s, JoinBegin(j, t)).joining == s.joining[j := t]
    requires var r := Run(Apply(s, JoinBegin(j, t)), steps);
             Enabled(r, JoinEnd(j)) && r.joining[j] == t
    ensures var r := Run(Apply(s, JoinBegin(j, t)), steps);
            && (Apply(r, JoinEnd(j)).joined == r.joined + [(t, Esrch)] <==> Detach(t) in steps)
            && (Apply(r, JoinEnd(j)).joined == r.joined + [(t, Value(r.recs[t].ret))] <==> Detach(t) !in steps)
  {
    var s1 := Apply(s, JoinBegin(j, t));
    StepKeepsInv(s, JoinBegin(j, t));
    WaitsOnlyForTheUndetached(s, j, t);
    DetachedMeanwhile(s1, steps, t);
    var r := Run(s1, steps);
    assert (r.joined + [(t, Esrch)])[|r.joined|] != (r.joined + [(t, Value(r.recs[t].ret))])[|r.joined|];
  }

  lemma WaitsOnlyForTheUndetached<T>(s: State<T>, j: T, t: T)
    requires Inv(s) && Enabled(s, JoinBegin(j, t)) && Apply(s, JoinBegin(j, t)).joining == s.joining[j := t]
    ensures var s1 := Apply(s, JoinBegin(j, t)); t in s1.recs && !s1.recs[t].detached
  {
    assert j in s.joining[j := t] && j !in s.joining;
  }

  /** So a thread that is not registered detached, in a run without pthread_detach of it,
      is never given up on: no join of it that waited returns ESRCH. */
  lemma UndetachedIsJoined<T>(steps: seq<Step<T>>, j: T)
    requires Enabled(Run(Fresh(), steps), JoinEnd(j))
    requires var t := Run(Fresh(), steps).joining[j];
             Detach(t) !in steps && forall step :: step in steps && step.Begin? && step.t == t ==> !step.detached
    ensures var s := Run(Fresh(), steps);
            var t := s.joining[j];
            Apply(s, JoinEnd(j)).joined == s.joined + [(t, Value(LastExit(Fresh(), steps, t)))]
  {
    WaitingJoinReturnsExactly(steps, j);
    NeverDetached(steps, Run(Fresh(), steps).joining[j]);
  }

  lemma {:induction false} NeverDetached<T>(steps: seq<Step<T>>, t: T)
    requires Detach(t) !in steps && forall step :: step in steps && step.Begin? && step.t == t ==> !step.detached
    ensures !IsDetached(steps, t)
  {
    if steps != [] { NeverDetached(steps[..|steps| - 1], t); }
  }

  /** Thread j can go on if it could, and is no further on its way to its end. */
  predicate StaysFree<T(==)>(s: State<T>, r: State<T>, j: T)
    requires j in s.recs
  {
    j in r.recs && r.recs[j].phase == s.recs[j].phase && (Free(s, j) ==> Free(r, j))
  }

  /** Nothing keeps a thread that can go on and has entered pthread_exit from its end: in
      three steps of its own it is on the list of dead threads, Dead and gone. */
  lemma ExitComesToItsEnd<T>(s: State<T>, t: T)
    requires Inv(s) && Free(s, t) && s.recs[t].phase.Exiting? && t !in s.joining
    ensures var r := Apply(Apply(Apply(s, Leave(t)), Die(t)), End(t));
            && Inv(r) && t in r.recs && r.recs[t].state == Dead && r.recs[t].phase == Gone
            && t !in r.live && r.dead == [t] + s.dead
            && r.recs[t].detached == s.recs[t].detached && r.recs[t].ret == s.recs[t].ret
            && r.joining == s.joining && r.joined == s.joined
            && (forall j :: j in s.recs && j != t ==> StaysFree(s, r, j))
  {
    LeftFirst(s, t);
    DiesAndEnds(Apply(s, Leave(t)), t);
  }

  lemma LeftFirst<T>(s: State<T>, t: T)
    requires Inv(s) && Free(s, t) && s.recs[t].phase.Exiting? && t !in s.joining
    ensures var r := Apply(s, Leave(t));
            && Inv(r) && t in r.recs && r.recs[t] == s.recs[t].(phase := Unlinked) && Free(r, t)
            && t !in r.live && r.dead == [t] + s.dead && r.joining == s.joining && r.joined == s.joined
            && (forall j :: j in s.recs && j != t ==> StaysFree(s, r, j))
  {
    StepKeepsInv(s, Leave(t));
    LeaverIsUnlinked(s, t);
    forall j | j in s.recs && j != t
      ensures StaysFree(s, Apply(s, Leave(t)), j)
    {
      OthersStayFree(s, t, j);
    }
  }

  lemma LeaverIsUnlinked<T>(s: State<T>, t: T)
    requires Inv(s) && Free(s, t) && s.recs[t].phase.Exiting? && t !in s.joining
    ensures var r := Apply(s, Leave(t));
            && t in r.recs && r.recs[t] == s.recs[t].(phase := Unlinked) && Free(r, t)
            && t !in r.live && r.dead == [t] + s.dead && r.joining == s.joining && r.joined == s.joined
  {
    LeaverMoves(s, t);
    MovedIsUnlinked(s, Unlink(s, t), t);
  }

  lemma LeaverMoves<T>(s: State<T>, t: T)
    requires Inv(s) && Enabled(s, Leave(t))
    ensures Moved(s, Unlink(s, t), t) && Apply(s, Leave(t)) == Unlink(s, t)
  {
    LeaveEffect(s, t);
  }

  lemma MovedIsUnlinked<T>(s: State<T>, r: State<T>, t: T)
    requires Moved(s, r, t) && !s.recs[t].held
    ensures t in r.recs && r.recs[t] == s.recs[t].(phase := Unlinked) && Free(r, t)
    ensures t !in r.live && r.dead == [t] + s.dead && r.joining == s.joining && r.joined == s.joined
  {
  }

  lemma OthersStayFree<T>(s: State<T>, t: T, j: T)
    requires Inv(s) && Free(s, t) && s.recs[t].phase.Exiting? && t !in s.joining && j in s.recs && j != t
    ensures StaysFree(s, Apply(s, Leave(t)), j)
  {
    if s.recs[t].parent == Some(j) { LeaveWakesExactly(s, t, j); } else { StrangersStay(s, t, j); }
  }

  lemma StrangersStay<T>(s: State<T>, t: T, j: T)
    requires Inv(s) && Enabled(s, Leave(t)) && j in s.recs && j != t && s.recs[t].parent != Some(j)
    ensures var r := Apply(s, Leave(t)); j in r.recs && r.recs[j] == s.recs[j]
  {
    LeaveEffect(s, t);
  }

  lemma DiesAndEnds<T>(s: State<T>, t: T)
    requires Inv(s) && Free(s, t) && s.recs[t].phase.Unlinked?
    ensures var r := Apply(Apply(s, Die(t)), End(t));
            && Inv(r) && t in r.recs && r.recs[t] == s.recs[t].(state := Dead, phase := Gone)
            && r == s.(recs := r.recs) && (forall j :: j in s.recs && j != t ==> j in r.recs && r.recs[j] == s.recs[j])
  {
    StepKeepsInv(s, Die(t));
    StepKeepsInv(Apply(s, Die(t)), End(t));
    assert Apply(s, Die(t)).recs[t] == s.recs[t].(state := Dead, phase := Marked);
  }

  /** And then a caller of pthread_join that waits for it can go on, and returns with the
      value stored at exit, or ESRCH. */
  lemma JoinerIsServedAfterTheEnd<T>(s: State<T>, t: T, j: T)
    requires Inv(s) && Free(s, t) && s.recs[t].phase.Exiting? && t !in s.joining
    requires j in s.joining && s.joining[j] == t && Free(s, j)
    ensures var r := Apply(Apply(Apply(s, Leave(t)), Die(t)), End(t));
            && Enabled(r, JoinEnd(j)) && j !in Apply(r, JoinEnd(j)).joining
            && Apply(r, JoinEnd(j)).joined
               == s.joined + [(t, if s.recs[t].detached then Esrch else Value(s.recs[t].ret))]
  {
    ExitComesToItsEnd(s, t);
  }
}
