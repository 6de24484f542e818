/**
 A handler thread and its parent (uthread_create.c, lines 140-159; uthread_exit.c, lines
 127-161). The handler sets the parent's state and suspends it in two statements, and the
 parent keeps running in between; on the way out the last handler resumes the parent
 unless its state is then Running or Dead.
 */
module HandlerLaws {
  import opened Prelude
  import opened ThreadStates
  import opened Registry
  import opened RegistryLaws

  /** A step in which p's own state is written, by p itself or by pthread_suspend_np or
      pthread_resume_np of it. */
  predicate WritesState<T(==)>(step: Step<T>, p: T)
  {
    match step
    case Change(t, _) => t == p
    case Suspend(t) => t == p
    case Resume(t) => t == p
    case Die(t) => t == p
    case JoinBegin(j, _) => j == p
    case JoinEnd(j) => j == p
    case _ => false
  }

  /** The state of a thread for which the last handler's exit does nothing. */
  predicate Passed(state: ThreadState)
  {
    state.Running? || state.Dead?
  }

  /** Handler h is the last one of p. */
  predicate IsLast<T(==)>(s: State<T>, h: T, p: T)
  {
    !HasHandler(Without(s.live, h), s.recs, p)
  }

  /** Listed handler h of p. */
  ghost predicate Handles<T>(s: State<T>, h: T, p: T)
  {
    h in s.live && h in s.recs && p in s.recs && s.recs[h].parent == Some(p)
  }

  // ------------------------------------------------------------- one exit

  /** The exit of a handler resumes its parent if and only if it is the last one and the
      parent's state is neither Running nor Dead; otherwise it leaves state and
      suspension as they were. The signal is unblocked in any case, and no other. */
  lemma LeaveWakesExactly<T>(s: State<T>, h: T, p: T)
    requires Inv(s) && Enabled(s, Leave(h)) && s.recs[h].parent == Some(p)
    ensures var r, r' := s.recs[p], Apply(s, Leave(h)).recs[p];
            var wakes := IsLast(s, h, p) && !Passed(r.state);
            && r'.state == (if wakes then Running else r.state)
            && (r'.held <==> r.held && !wakes)
            && r'.blocked == r.blocked - {s.recs[h].sig}
            && r'.phase == r.phase && r'.ret == r.ret
  {
    LeaveEffect(s, h);
    assert RecInv(s, h);
    var wl := Without(s.live, h);
    assert Apply(s, Leave(h)).live == wl;
  }

  // ------------------------------------------------------------- between start and exit

  lemma OtherLeaveKeepsSigThread<T>(s: State<T>, g: T, h: T, p: T)
    requires Inv(s) && Enabled(s, Leave(g)) && g != h && Handles(s, h, p)
    requires s.recs[p].state.SigThread?
    ensures var s' := Apply(s, Leave(g)); Handles(s', h, p) && s'.recs[p].state.SigThread?
    ensures Apply(s, Leave(g)).recs[p].held == s.recs[p].held
  {
    LeaveEffect(s, g);
    var s' := Apply(s, Leave(g));
    assert h in s'.live && h in s.recs && s.recs[h].parent == Some(p);
    assert HasHandler(s'.live, s.recs, p);
  }

  lemma JoinStepsKeepOthers<T>(s: State<T>, step: Step<T>, p: T)
    requires Inv(s) && OfJoin(step) && Enabled(s, step) && !WritesState(step, p) && p in s.recs
    ensures p in Apply(s, step).recs && Apply(s, step).recs[p] == s.recs[p]
  {
  }

  lemma RecordStepKeepsSigThread<T>(s: State<T>, step: Step<T>, p: T)
    requires Inv(s) && Enabled(s, step) && !step.Begin? && !step.Leave? && !OfJoin(step) && !WritesState(step, p)
    requires p in s.recs && s.recs[p].state.SigThread?
    ensures var s' := Apply(s, step);
            p in s'.recs && s'.recs[p].state.SigThread? && (s.recs[p].held ==> s'.recs[p].held)
  {
  }

  lemma StepKeepsSigThread<T>(s: State<T>, step: Step<T>, h: T, p: T)
    requires Inv(s) && Enabled(s, step) && step != Leave(h) && !WritesState(step, p)
    requires Handles(s, h, p) && s.recs[p].state.SigThread?
    ensures var s' := Apply(s, step);
            Handles(s', h, p) && s'.recs[p].state.SigThread? && (s.recs[p].held ==> s'.recs[p].held)
  {
    if step.Leave? {
      OtherLeaveKeepsSigThread(s, step.t, h, p);
    } else if step.Begin? {
    } else {
      OtherStepsKeepLists(s, step);
      if OfJoin(step) { JoinStepsKeepOthers(s, step, p); } else { RecordStepKeepsSigThread(s, step, p); }
    }
  }

  /** While handler h is listed nothing but a step that writes p's own state takes p out
      of the state SigThread, in any run. */
  lemma {:induction false} SigThreadStays<T>(s: State<T>, steps: seq<Step<T>>, h: T, p: T)
    requires Inv(s) && Handles(s, h, p) && s.recs[p].state.SigThread?
    requires forall i :: 0 <= i < |steps| ==> steps[i] != Leave(h) && !WritesState(steps[i], p)
    ensures var s' := Run(s, steps); Inv(s') && Handles(s', h, p) && s'.recs[p].state.SigThread?
  {
    if steps != [] {
      var front, last := steps[..|steps| - 1], steps[|steps| - 1];
      SigThreadStays(s, front, h, p);
      StepKeepsInv(Run(s, front), last);
      if Enabled(Run(s, front), last) { StepKeepsSigThread(Run(s, front), last, h, p); }
    }
  }

  /** A step that writes the state of a suspended thread is not its own. */
  lemma HeldWritesNothing<T>(s: State<T>, step: Step<T>, p: T)
    requires p in s.recs && s.recs[p].held && Enabled(s, step)
    ensures WritesState(step, p) ==> step == Suspend(p) || step == Resume(p)
  {
  }

  /** A parent suspended in the state SigThread stays so while h is listed, unless
      pthread_suspend_np is called for it. */
  lemma {:induction false} HeldParentStays<T>(s: State<T>, steps: seq<Step<T>>, h: T, p: T)
    requires Inv(s) && Handles(s, h, p) && s.recs[p].state.SigThread? && s.recs[p].held
    requires forall i :: 0 <= i < |steps| ==> steps[i] != Leave(h) && steps[i] != Suspend(p)
    ensures var s' := Run(s, steps);
            Inv(s') && Handles(s', h, p) && s'.recs[p].state.SigThread? && s'.recs[p].held
  {
    if steps != [] {
      var front, last := steps[..|steps| - 1], steps[|steps| - 1];
      HeldParentStays(s, front, h, p);
      var s1 := Run(s, front);
      StepKeepsInv(s1, last);
      if Enabled(s1, last) && last != Resume(p) {
        HeldWritesNothing(s1, last, p);
        StepKeepsSigThread(s1, last, h, p);
      }
    }
  }

  lemma AnnounceEffect<T>(s: State<T>, h: T, p: T)
    requires Inv(s) && Enabled(s, Announce(h)) && s.recs[h].parent == Some(p)
    ensures p in s.recs && Inv(Apply(s, Announce(h))) && Handles(Apply(s, Announce(h)), h, p)
    ensures Apply(s, Announce(h)).recs[p] == s.recs[p].(state := SigThread)
  {
    assert RecInv(s, h);
    assert h in s.live by { assert h !in s.dead; }
    StepKeepsInv(s, Announce(h));
  }

  lemma ExitFromSigThread<T>(s: State<T>, h: T, p: T)
    requires Inv(s) && Enabled(s, Leave(h)) && Handles(s, h, p) && s.recs[p].state.SigThread?
    ensures var s' := Apply(s, Leave(h));
            p in s'.recs && s'.recs[p].state == if IsLast(s, h, p) then Running else SigThread
  {
    LeaveWakesExactly(s, h, p);
    LeaveEffect(s, h);
  }

  /** From the start of handler h to its exit. If nothing writes p's own state meanwhile,
      p is Running afterwards when h was the last handler and SigThread when not; so it
      has the state back that it had before if and only if that was this one. */
  lemma ParentGetsItsStateBackExactly<T>(s: State<T>, steps: seq<Step<T>>, h: T, p: T)
    requires Inv(s) && Enabled(s, Announce(h)) && s.recs[h].parent == Some(p)
    requires forall i :: 0 <= i < |steps| ==> steps[i] != Leave(h) && !WritesState(steps[i], p)
    requires Enabled(Run(Apply(s, Announce(h)), steps), Leave(h))
    ensures var s2 := Run(Apply(s, Announce(h)), steps);
            var s3 := Apply(s2, Leave(h));
            && p in s.recs && p in s3.recs
            && s3.recs[p].state == (if IsLast(s2, h, p) then Running else SigThread)
            && (s3.recs[p].state == s.recs[p].state <==>
                  s.recs[p].state == if IsLast(s2, h, p) then Running else SigThread)
  {
    var s1 := Apply(s, Announce(h));
    AnnounceEffect(s, h, p);
    SigThreadStays(s1, steps, h, p);
    ExitFromSigThread(Run(s1, steps), h, p);
  }

  // ------------------------------------------------------------- a parent left suspended

  /** Suspended by the kernel, in a state from which no handler's exit resumes it. */
  predicate HeldRunning<T(==)>(s: State<T>, p: T)
  {
    p in s.recs && s.recs[p].held && Passed(s.recs[p].state)
  }

  /** And there is no handler of p left. */
  ghost predicate Stranded<T>(s: State<T>, p: T)
  {
    HeldRunning(s, p) && !HasHandler(s.live, s.recs, p)
  }

  lemma HandlerStepsHold<T>(s: State<T>, step: Step<T>, p: T)
    requires Inv(s) && OfHandler(step) && Enabled(s, step) && !HeldRunning(s, p)
    ensures HeldRunning(Apply(s, step), p) <==>
              && step.Halt? && s.recs[step.t].parent == Some(p) && p in s.recs
              && Passed(s.recs[p].state) && !s.recs[p].phase.Gone?
  {
    assert RecInv(s, step.t);
  }

  lemma LeaveHoldsNobody<T>(s: State<T>, g: T, p: T)
    requires Inv(s) && Enabled(s, Leave(g)) && !HeldRunning(s, p)
    ensures !HeldRunning(Apply(s, Leave(g)), p)
  {
    LeaveEffect(s, g);
  }

  lemma OwnStepsHoldNobody<T>(s: State<T>, step: Step<T>, p: T)
    requires Inv(s) && !step.Leave? && !OfHandler(step) && !OfJoin(step) && Enabled(s, step) && !HeldRunning(s, p)
    ensures !HeldRunning(Apply(s, step), p)
  {
  }

  lemma JoinStepsHoldNobody<T>(s: State<T>, step: Step<T>, p: T)
    requires Inv(s) && OfJoin(step) && Enabled(s, step) && !HeldRunning(s, p)
    ensures !HeldRunning(Apply(s, step), p)
  {
    if p in s.recs && !WritesState(step, p) { JoinStepsKeepOthers(s, step, p); }
  }

  /** A thread comes to be suspended in the state Running or Dead by one step only: the
      second statement of a handler, if the parent has left SigThread since the first. */
  lemma HeldRunningExactlyByHalt<T>(s: State<T>, step: Step<T>, p: T)
    requires Inv(s) && Enabled(s, step) && !HeldRunning(s, p)
    ensures HeldRunning(Apply(s, step), p) <==>
              && step.Halt? && s.recs[step.t].parent == Some(p) && p in s.recs
              && Passed(s.recs[p].state) && !s.recs[p].phase.Gone?
  {
    if step.Leave? {
      LeaveHoldsNobody(s, step.t, p);
    } else if OfHandler(step) {
      HandlerStepsHold(s, step, p);
    } else if OfJoin(step) {
      JoinStepsHoldNobody(s, step, p);
    } else {
      OwnStepsHoldNobody(s, step, p);
    }
  }

  /** The exit of a handler leaves its parent stranded if and only if it is the last one
      and the parent is suspended while its state is Running or Dead. */
  lemma LeaveStrandsExactly<T>(s: State<T>, h: T, p: T)
    requires Inv(s) && Enabled(s, Leave(h)) && s.recs[h].parent == Some(p)
    ensures Stranded(Apply(s, Leave(h)), p) <==> HeldRunning(s, p) && IsLast(s, h, p)
  {
    LeaveWakesExactly(s, h, p);
    LeaveEffect(s, h);
    assert RecInv(s, h);
    HandlersLeft(s, Apply(s, Leave(h)), h, p);
  }

  lemma LeaveKeepsStranded<T>(s: State<T>, g: T, p: T)
    requires Inv(s) && Enabled(s, Leave(g)) && Stranded(s, p)
    ensures Stranded(Apply(s, Leave(g)), p) && Apply(s, Leave(g)).recs[p] == s.recs[p]
  {
    assert g in s.live by { assert g !in s.dead; }
    assert s.recs[g].parent != Some(p);
    LeaveEffect(s, g);
    HandlersLeft(s, Apply(s, Leave(g)), g, p);
  }

  lemma BeginKeepsStranded<T>(s: State<T>, step: Step<T>, p: T)
    requires Inv(s) && step.Begin? && Enabled(s, step) && Stranded(s, p) && step.parent != Some(p)
    ensures var s' := Apply(s, step); Stranded(s', p) && s'.recs[p] == s.recs[p]
  {
    var s' := Apply(s, step);
    assert forall u :: u in s'.live ==> u == step.t || u in s.live;
  }

  lemma QuietStepsKeepRec<T>(s: State<T>, step: Step<T>, p: T)
    requires Inv(s) && !step.Begin? && !step.Leave? && Enabled(s, step) && Stranded(s, p) && step != Suspend(p)
    ensures var s' := Apply(s, step);
            && p in s'.recs && s'.recs[p].state == s.recs[p].state && s'.recs[p].phase == s.recs[p].phase
            && s'.recs[p].held
  {
    HeldWritesNothing(s, step, p);
    if OfJoin(step) {
      JoinStepsKeepOthers(s, step, p);
    } else if OfHandler(step) {
      assert step.t in s.live by { assert step.t !in s.dead; }
      assert s.recs[step.t].parent != Some(p);
    }
  }

  lemma StepKeepsStranded<T>(s: State<T>, step: Step<T>, p: T)
    requires Inv(s) && Enabled(s, step) && Stranded(s, p)
    requires step != Suspend(p) && (step.Begin? ==> step.parent != Some(p))
    ensures var s' := Apply(s, step);
            Stranded(s', p) && s'.recs[p].state == s.recs[p].state && s'.recs[p].phase == s.recs[p].phase
  {
    if step.Leave? {
      LeaveKeepsStranded(s, step.t, p);
    } else if step.Begin? {
      BeginKeepsStranded(s, step, p);
    } else {
      OtherStepsKeepLists(s, step);
      SameListsKeep(s, Apply(s, step));
      QuietStepsKeepRec(s, step, p);
    }
  }

  lemma StrandedIsNotJoined<T>(s: State<T>, p: T, j: T)
    requires Inv(s) && Stranded(s, p)
    ensures !Free(s, p) && (j in s.joining && s.joining[j] == p ==> !Enabled(s, JoinEnd(j)))
  {
    assert RecInv(s, p);
  }

  /** A stranded thread takes no step any more and its joiners never return, in any run
      in which nobody starts a new handler for it or suspends it by pthread_suspend_np,
      whatever pthread_resume_np is called for. */
  lemma {:induction false} StrandedStays<T>(s: State<T>, steps: seq<Step<T>>, p: T, j: T)
    requires Inv(s) && Stranded(s, p)
    requires forall i :: 0 <= i < |steps| ==>
               steps[i] != Suspend(p) && (steps[i].Begin? ==> steps[i].parent != Some(p))
    ensures var s' := Run(s, steps);
            && Inv(s') && Stranded(s', p) && !Free(s', p)
            && s'.recs[p].state == s.recs[p].state && s'.recs[p].phase == s.recs[p].phase
            && (j in s'.joining && s'.joining[j] == p ==> !Enabled(s', JoinEnd(j)))
  {
    if steps != [] {
      var front, last := steps[..|steps| - 1], steps[|steps| - 1];
      StrandedStays(s, front, p, j);
      var s1 := Run(s, front);
      StepKeepsInv(s1, last);
      if Enabled(s1, last) { StepKeepsStranded(s1, last, p); }
    }
    StrandedIsNotJoined(Run(s, steps), p, j);
  }

  /** Handler h, the last of p and not suspended, is at this stage and phase, and p is
      in this state, suspended or not. */
  ghost predicate Situation<T>(s: State<T>, h: T, p: T, stage: Stage, phase: Phase, state: ThreadState, held: bool)
  {
    && Inv(s) && Handles(s, h, p) && h != p && IsLast(s, h, p)
    && s.recs[h].stage == stage && s.recs[h].phase == phase && !s.recs[h].held && h !in s.joining
    && s.recs[p].state == state && s.recs[p].held == held && Listed(s.recs[p].phase)
  }

  lemma SituationAfter<T>(s: State<T>, step: Step<T>, h: T, p: T)
    requires Inv(s) && Handles(s, h, p) && IsLast(s, h, p)
    requires !step.Begin? && !step.Leave? && Enabled(s, step)
    ensures var s' := Apply(s, step); Inv(s') && Handles(s', h, p) && IsLast(s', h, p)
  {
    StepKeepsInv(s, step);
    OtherStepsKeepLists(s, step);
    SituationFollows(s, Apply(s, step), h, p);
  }

  lemma SituationFollows<T>(s: State<T>, s': State<T>, h: T, p: T)
    requires Inv(s) && SameLists(s, s') && Handles(s, h, p) && IsLast(s, h, p)
    ensures Handles(s', h, p) && IsLast(s', h, p)
  {
    LastFollows(s, s', h, p);
  }

  lemma LastFollows<T>(s: State<T>, s': State<T>, h: T, p: T)
    requires ListsInv(s) && SameLists(s, s') && h in s.live
    ensures IsLast(s, h, p) ==> IsLast(s', h, p)
  {
    WithoutKeeps(s.live, h);
    var rest := Without(s.live, h);
    if HasHandler(rest, s'.recs, p) {
      var u :| u in rest && s'.recs[u].parent == Some(p);
      assert u in s.live && s.recs[u].parent == Some(p);
    }
  }

  /** The parent returns from a wait between the two statements of its handler. */
  function Crossing<T>(h: T, p: T): seq<Step<T>>
  {
    [Announce(h), Change(p, Running), Halt(h), Save(h, 0), Leave(h)]
  }

  lemma CrossingAnnounce<T>(s: State<T>, h: T, p: T, state: ThreadState)
    requires Situation(s, h, p, Untold, Alive, state, false)
    ensures Situation(Apply(s, Announce(h)), h, p, Told, Alive, SigThread, false)
  {
    SituationAfter(s, Announce(h), h, p);
  }

  lemma CrossingChange<T>(s: State<T>, h: T, p: T)
    requires Situation(s, h, p, Told, Alive, SigThread, false)
    ensures Situation(Apply(s, Change(p, Running)), h, p, Told, Alive, Running, false)
  {
    SituationAfter(s, Change(p, Running), h, p);
  }

  lemma CrossingHalt<T>(s: State<T>, h: T, p: T)
    requires Situation(s, h, p, Told, Alive, Running, false)
    ensures Situation(Apply(s, Halt(h)), h, p, Handling, Alive, Running, true)
  {
    SituationAfter(s, Halt(h), h, p);
  }

  lemma CrossingSave<T>(s: State<T>, h: T, p: T)
    requires Situation(s, h, p, Handling, Alive, Running, true)
    ensures Situation(Apply(s, Save(h, 0)), h, p, Handling, Exiting, Running, true)
  {
    SituationAfter(s, Save(h, 0), h, p);
  }

  lemma CrossingLeave<T>(s: State<T>, h: T, p: T)
    requires Situation(s, h, p, Handling, Exiting, Running, true)
    ensures Stranded(Apply(s, Leave(h)), p)
  {
    LeaveStrandsExactly(s, h, p);
  }

  lemma RunOfFive<T>(s: State<T>, a: Step<T>, b: Step<T>, c: Step<T>, d: Step<T>, e: Step<T>)
    ensures Run(s, [a, b, c, d, e]) == Apply(Apply(Apply(Apply(Apply(s, a), b), c), d), e)
  {
    RunNext(s, [], a);
    RunNext(s, [a], b);
    RunNext(s, [a, b], c);
    RunNext(s, [a, b, c], d);
    RunNext(s, [a, b, c, d], e);
    assert [a, b, c, d] + [e] == [a, b, c, d, e] && [a, b, c] + [d] == [a, b, c, d];
    assert [a, b] + [c] == [a, b, c] && [a] + [b] == [a, b] && [] + [a] == [a];
  }

  /** So any thread can be stranded by its last handler, whatever it waits in. */
  lemma CrossingStrands<T>(s: State<T>, h: T, p: T, state: ThreadState)
    requires Situation(s, h, p, Untold, Alive, state, false)
    ensures Stranded(Run(s, Crossing(h, p)), p)
  {
    RunOfFive(s, Announce(h), Change(p, Running), Halt(h), Save(h, 0), Leave(h));
    CrossingAnnounce(s, h, p, state);
    var s1 := Apply(s, Announce(h));
    CrossingChange(s1, h, p);
    var s2 := Apply(s1, Change(p, Running));
    CrossingHalt(s2, h, p);
    CrossingSave(Apply(s2, Halt(h)), h, p);
    CrossingLeave(Apply(Apply(s2, Halt(h)), Save(h, 0)), h, p);
  }

  lemma RunNext<T>(s: State<T>, steps: seq<Step<T>>, step: Step<T>)
    ensures Run(s, steps + [step]) == Apply(Run(s, steps), step)
  {
    assert (steps + [step])[..|steps|] == steps;
  }

  /** And such a situation is reachable. */
  lemma StrandingHappens<T>(p: T, h: T)
    requires p != h
    ensures var steps := [Begin(p, None, 0, false, false), Begin(h, Some(p), 1, false, false)] + Crossing(h, p);
            Stranded(Run(Fresh(), steps), p)
  {
    var b: seq<Step<T>> := [Begin(p, None, 0, false, false), Begin(h, Some(p), 1, false, false)];
    RunNext(Fresh(), [], b[0]);
    RunNext(Fresh(), [b[0]], b[1]);
    assert [b[0]] + [b[1]] == b;
    RunKeepsInv(b);
    var s := Run(Fresh(), b);
    assert s.live == [h, p];
    assert Without([h, p], h) == [p];
    CrossingStrands(s, h, p, Running);
    RunConcat(Fresh(), b, Crossing(h, p));
  }

  lemma {:induction false} RunConcat<T>(s: State<T>, a: seq<Step<T>>, b: seq<Step<T>>)
    ensures Run(s, a + b) == Run(Run(s, a), b)
    decreases |b|
  {
    if b == [] {
      assert a + b == a;
    } else {
      var front, last := b[..|b| - 1], b[|b| - 1];
      RunConcat(s, a, front);
      assert a + b == (a + front) + [last];
      RunNext(s, a + front, last);
    }
  }
}
