/**
 The hand-off of pthread_select (uthread_select.c): the caller allocates a record,
 starts a helper thread on it and waits for an event; the helper polls until it has a
 result or finds that the caller has given up. Whoever is last frees the record, and
 they decide who that is by two of its fields, event and done.

 Every read and every write of the record is a step of its own.
 */
module SelectMachine {
  const ETIMEDOUT := 78

  /** What pthread_select reports: its result, and errno where it sets it. */
  datatype Report = Report(result: int, errno: int)

  datatype CallerPc =
    | Starting                   // the record is filled in; the helper is not started
    | StartFailed                // about to clear event, without a helper
    | Waiting                    // for the event, a signal or the timeout
    | Testing                    // about to read done
    | GivingUp                   // read done = 0, about to clear event
    | SpinTest                   // first read of done in the wait loop
    | SpinThree                  // second read of done in the wait loop
    | Clearing                   // done is 3, about to clear event
    | FetchResult
    | FetchErrno(result: int)
    | Releasing(report: Report)  // about to free the record
    | GaveUp(report: Report)     // done with the record; the next step closes the event
    | Served(report: Report)
    | Unstarted(report: Report)

  datatype HelperPc =
    | Unborn
    | Entry                      // about to copy the event handle
    | Polling                    // about to call select
    | Counting                   // select returned non-zero, about to increment done
    | Copying                    // about to store the descriptor sets
    | LoopEvent                  // the loop condition: reading event
    | LoopDone                   // the loop condition: reading done
    | FinalTest                  // reading event after the loop
    | PutErrno
    | PutResult
    | PutDone
    | Posting                    // done is 3, about to post the event
    | DropDone                   // found event cleared, about to set done
    | Dropping                   // about to free the record
    | Ended

  datatype State = State(
    // the record
    event: bool,                 // not yet cleared by the caller
    done: int,
    result: int,
    errno: int,
    frees: nat,                  // how often it was freed
    strays: nat,                 // reads and writes after it was freed
    // the two threads
    caller: CallerPc,
    helper: HelperPc,
    handle: bool,                // the helper's copy of event
    open: bool,                  // the event that it names is not closed
    polled: int,                 // what its last select returned, and errno then
    pollErrno: int,
    // history: the helper's final test found the record still wanted, and the caller
    // was at that time between reading done = 0 and clearing event
    foundArmed: bool,
    crossed: bool,
    late: bool)                  // the helper's post found the event closed

  datatype Step =
    | Start(ok: bool)            // _beginthread
    | WaitEnds                   // the caller's wait ends, for whatever reason
    | Caller                     // the caller's next step otherwise
    | Poll(result: int, errno: int)
    | Helper                     // the helper's next step otherwise

  function Fresh(): State
  {
    State(true, 0, 0, 0, 0, 0, Starting, Unborn, false, true, 0, 0, false, false, false)
  }

  /** The record is read or written. */
  function Touch(s: State): State
  {
    if s.frees > 0 then s.(strays := s.strays + 1) else s
  }

  function CallerStep(s: State): State
  {
    match s.caller
    case StartFailed => Touch(s).(event := false, caller := Unstarted(Report(-1, 0)))
    case Testing => Touch(s).(caller := if s.done == 0 then GivingUp else SpinTest)
    case GivingUp => Touch(s).(event := false, caller := GaveUp(Report(-1, ETIMEDOUT)))
    case SpinTest => Touch(s).(caller := if s.done == 0 then Clearing else SpinThree)
    case SpinThree => Touch(s).(caller := if s.done == 3 then Clearing else SpinTest)
    case Clearing => Touch(s).(event := false, caller := FetchResult)
    case FetchResult => Touch(s).(caller := FetchErrno(s.result))
    case FetchErrno(result) => Touch(s).(caller := Releasing(Report(result, s.errno)))
    case Releasing(report) => s.(frees := s.frees + 1, caller := Served(report))
    case GaveUp(_) => s.(open := false)
    case Served(_) => s.(open := false)
    case Unstarted(_) => s.(open := false)
    case _ => s
  }

  function HelperStep(s: State): State
  {
    match s.helper
    case Entry => Touch(s).(handle := s.event, helper := Polling)
    case Counting => Touch(s).(done := s.done + 1, helper := if s.polled > 0 then Copying else LoopEvent)
    case Copying => Touch(s).(helper := LoopEvent)
    case LoopEvent => Touch(s).(helper := if s.event then LoopDone else FinalTest)
    case LoopDone => Touch(s).(helper := if s.done == 0 then Polling else FinalTest)
    case FinalTest =>
      if s.event then Touch(s).(helper := PutErrno, foundArmed := true, crossed := s.caller.GivingUp?)
      else Touch(s).(helper := DropDone)
    case PutErrno => Touch(s).(errno := if s.polled < 0 then s.pollErrno else 0, helper := PutResult)
    case PutResult => Touch(s).(result := s.polled, helper := PutDone)
    case PutDone => Touch(s).(done := 3, helper := Posting)
    case Posting => s.(helper := Ended, late := !s.open)
    case DropDone => Touch(s).(done := 3, helper := Dropping)
    case Dropping => s.(frees := s.frees + 1, helper := Ended)
    case _ => s
  }

  function Apply(s: State, step: Step): State
  {
    match step
    case Start(ok) =>
      if !s.caller.Starting? then s
      else if ok then s.(caller := Waiting, helper := Entry)
      else s.(caller := StartFailed)
    case WaitEnds => if s.caller.Waiting? then s.(caller := Testing) else s
    case Caller => CallerStep(s)
    case Poll(result, errno) =>
      if !s.helper.Polling? then s
      else Touch(s).(polled := result, pollErrno := errno, helper := if result == 0 then LoopEvent else Counting)
    case Helper => HelperStep(s)
  }

  function Run(s: State, steps: seq<Step>): State
  {
    if steps == [] then s else Apply(Run(s, steps[..|steps| - 1]), steps[|steps| - 1])
  }
}

/** What every interleaving of the two threads keeps. */
module SelectLaws {
  import opened SelectMachine

  /** The helper has decided to deliver its result. */
  predicate Delivering(s: State)
  {
    s.helper.PutErrno? || s.helper.PutResult? || s.helper.PutDone? || s.helper.Posting?
    || (s.helper.Ended? && s.foundArmed)
  }

  /** The helper has decided that the caller is gone. */
  predicate Discarding(s: State)
  {
    s.helper.DropDone? || s.helper.Dropping? || (s.helper.Ended? && !s.foundArmed)
  }

  /** The result is in the record. */
  predicate Delivered(s: State)
  {
    && s.foundArmed && (s.helper.Posting? || s.helper.Ended?)
    && s.done == 3 && s.result == s.polled && s.polled != 0
    && s.errno == if s.polled < 0 then s.pollErrno else 0
  }

  ghost predicate HelperInv(s: State)
  {
    && (s.foundArmed <==> Delivering(s))
    && (s.helper.Unborn? || s.helper.Entry? || s.helper.Polling? ==> s.done == 0)
    && (s.helper.Polling? ==> s.polled == 0)
    && (s.helper.Unborn? || s.helper.Entry? ==> s.polled == 0)
    && (s.helper.Counting? ==> s.done == 0 && s.polled != 0)
    && (s.helper.Copying? ==> s.done == 1 && s.polled > 0)
    && (s.helper.LoopEvent? || s.helper.LoopDone? || s.helper.FinalTest? || s.helper.DropDone?
        ==> s.done == if s.polled == 0 then 0 else 1)
    && (s.helper.FinalTest? ==> s.done == 1 || !s.event)
    && (s.foundArmed ==> s.polled != 0 && s.handle)
    && (!s.helper.Unborn? && !s.helper.Entry? && s.event ==> s.handle)
    && (s.helper.PutErrno? || s.helper.PutResult? || s.helper.PutDone? ==> s.done == 1)
    && (s.helper.PutResult? || s.helper.PutDone? ==> s.errno == if s.polled < 0 then s.pollErrno else 0)
    && (s.helper.PutDone? ==> s.result == s.polled)
    && (s.helper.Posting? || (s.helper.Ended? && s.foundArmed) ==> Delivered(s))
    && (Discarding(s) ==> s.caller.GaveUp?)
    && (s.helper.Dropping? || s.helper.Ended? ==> s.done == 3)
  }

  ghost predicate CallerInv(s: State)
  {
    && (s.helper.Unborn? <==> s.caller.Starting? || s.caller.StartFailed? || s.caller.Unstarted?)
    && (s.event <==> !(s.caller.FetchResult? || s.caller.FetchErrno? || s.caller.Releasing?
                       || s.caller.GaveUp? || s.caller.Served? || s.caller.Unstarted?))
    && (s.caller.SpinTest? || s.caller.SpinThree? ==> s.done != 0)
    && (s.caller.Clearing? || s.caller.FetchResult? || s.caller.FetchErrno? ==> Delivered(s))
    && (s.caller.Releasing? || s.caller.Served? ==> Delivered(s))
    && (s.caller.FetchErrno? ==> s.caller.result == s.result)
    && (s.caller.Releasing? || s.caller.Served? ==> s.caller.report == Report(s.result, s.errno))
    && (s.caller.GaveUp? ==> s.caller.report == Report(-1, ETIMEDOUT))
    && (s.caller.Unstarted? ==> s.caller.report.result == -1)
    && (s.crossed <==> s.foundArmed && (s.caller.GivingUp? || s.caller.GaveUp?))
  }

  ghost predicate Inv(s: State)
  {
    && HelperInv(s) && CallerInv(s) && s.strays == 0
    && (!s.open ==> s.caller.GaveUp? || s.caller.Served? || s.caller.Unstarted?)
    && (s.late ==> !s.open && s.helper.Ended? && s.foundArmed)
    && s.frees == if s.caller.Served? || (s.helper.Ended? && !s.foundArmed) then 1 else 0
  }

  lemma CallerStepKeepsInv(s: State)
    requires Inv(s)
    ensures Inv(CallerStep(s))
  {
  }

  /** In its loop, and after it. */
  lemma LoopStepKeepsInv(s: State)
    requires Inv(s) && !Delivering(s) && !Discarding(s) && !s.helper.FinalTest?
    ensures Inv(HelperStep(s))
  {
  }

  lemma EndStepKeepsInv(s: State)
    requires Inv(s) && (Delivering(s) || Discarding(s) || s.helper.FinalTest?)
    ensures Inv(HelperStep(s))
  {
  }

  lemma HelperStepKeepsInv(s: State)
    requires Inv(s)
    ensures Inv(HelperStep(s))
  {
    if Delivering(s) || Discarding(s) || s.helper.FinalTest? { EndStepKeepsInv(s); } else { LoopStepKeepsInv(s); }
  }

  lemma StepKeepsInv(s: State, step: Step)
    requires Inv(s)
    ensures Inv(Apply(s, step))
  {
    CallerStepKeepsInv(s);
    HelperStepKeepsInv(s);
  }

  lemma {:induction false} RunKeepsInv(steps: seq<Step>)
    ensures Inv(Run(Fresh(), steps))
  {
    if steps != [] {
      RunKeepsInv(steps[..|steps| - 1]);
      StepKeepsInv(Run(Fresh(), steps[..|steps| - 1]), steps[|steps| - 1]);
    }
  }

  // ------------------------------------------------------------- the main results

  /** In every interleaving the record is freed at most once and nobody touches it
      after that. */
  lemma RecordIsNeverMisused(steps: seq<Step>)
    ensures var s := Run(Fresh(), steps); s.frees <= 1 && s.strays == 0
  {
    RunKeepsInv(steps);
  }

  predicate Finished(s: State)
  {
    s.helper.Ended? && (s.caller.GaveUp? || s.caller.Served?)
  }

  /** When both threads are done the record has been freed, exactly once, if and only if
      the helper's final test of event did not fall between the caller's reading done = 0
      and its clearing event. */
  lemma FreedExactlyUnlessTheyCross(steps: seq<Step>)
    requires Finished(Run(Fresh(), steps))
    ensures var s := Run(Fresh(), steps); (s.frees == 1 <==> !s.crossed) && (s.frees == 0 <==> s.crossed)
  {
    RunKeepsInv(steps);
  }

  /** A caller that is served reports what the helper's last poll returned, which is not
      zero, and its errno on failure. */
  lemma ServedCallerReportsThePoll(steps: seq<Step>)
    requires Run(Fresh(), steps).caller.Served?
    ensures var s := Run(Fresh(), steps);
            s.polled != 0 && s.caller.report == Report(s.polled, if s.polled < 0 then s.pollErrno else 0)
  {
    RunKeepsInv(steps);
  }

  /** A record that is never freed is also a result that is never reported: the caller
      times out although the helper has one. */
  lemma CrossingLosesTheResult(steps: seq<Step>)
    requires Finished(Run(Fresh(), steps)) && Run(Fresh(), steps).frees == 0
    ensures var s := Run(Fresh(), steps);
            s.polled != 0 && s.result == s.polled && s.caller.report == Report(-1, ETIMEDOUT)
  {
    RunKeepsInv(steps);
  }

  /** The crossing does happen. */
  lemma CrossingHappens() returns (steps: seq<Step>)
    ensures Finished(Run(Fresh(), steps)) && Run(Fresh(), steps).frees == 0
  {
    steps := AtTheCrossing();
    steps := Extend(Fresh(), steps, Helper);
    steps := Extend(Fresh(), steps, Helper);
    steps := Extend(Fresh(), steps, Helper);
    steps := Extend(Fresh(), steps, Helper);
  }

  lemma AtTheCrossing() returns (steps: seq<Step>)
    ensures Run(Fresh(), steps)
         == State(false, 1, 0, 0, 0, 0, GaveUp(Report(-1, ETIMEDOUT)), PutErrno, true, true, -1, 4, true, true, false)
  {
    steps := UpToTheCrossing();
    steps := Extend(Fresh(), steps, Helper);
    steps := Extend(Fresh(), steps, Caller);
  }

  lemma UpToTheCrossing() returns (steps: seq<Step>)
    ensures Run(Fresh(), steps)
         == State(true, 1, 0, 0, 0, 0, GivingUp, FinalTest, true, true, -1, 4, false, false, false)
  {
    steps := Extend(Fresh(), [], Start(true));
    steps := Extend(Fresh(), steps, WaitEnds);
    steps := Extend(Fresh(), steps, Caller);
    steps := Extend(Fresh(), steps, Helper);
    steps := Extend(Fresh(), steps, Poll(-1, 4));
    steps := Extend(Fresh(), steps, Helper);
    steps := Extend(Fresh(), steps, Helper);
    steps := Extend(Fresh(), steps, Helper);
  }

  lemma Extend(s: State, steps: seq<Step>, step: Step) returns (more: seq<Step>)
    ensures more == steps + [step] && Run(s, more) == Apply(Run(s, steps), step)
  {
    more := steps + [step];
    assert more[..|steps|] == steps;
  }

  /** A record whose helper could not be started is never freed. */
  lemma UnstartedRecordIsNeverFreed(steps: seq<Step>)
    requires Run(Fresh(), steps).caller.Unstarted?
    ensures Run(Fresh(), steps).frees == 0 && Run(Fresh(), steps).helper.Unborn?
    ensures Run(Fresh(), steps).caller.report.result == -1
  {
    RunKeepsInv(steps);
  }

  // ------------------------------------------------------------- the handle of the event

  /** A helper that gives its record up never posts. A post that finds the event closed
      belongs to a result that was delivered: to a caller that has returned it without
      being woken by the post, or to one that crossed with the helper and timed out. */
  lemma LatePostFollowsDelivery(steps: seq<Step>)
    requires Run(Fresh(), steps).late
    ensures var s := Run(Fresh(), steps);
            s.foundArmed && s.done == 3 && s.helper.Ended? && !s.open && (s.caller.Served? <==> !s.crossed)
  {
    RunKeepsInv(steps);
  }

  /** Nothing keeps the caller from closing the event first: from every reachable state
      in which the helper is about to post there is a run in which it posts too late,
      and it does if and only if the caller has closed the event by then. */
  lemma EveryPostCanBeLate(steps: seq<Step>) returns (more: seq<Step>)
    requires Run(Fresh(), steps).helper.Posting?
    ensures Run(Run(Fresh(), steps), more).late
    ensures Apply(Run(Fresh(), steps), Helper).late <==> !Run(Fresh(), steps).open
  {
    RunKeepsInv(steps);
    var s := Run(Fresh(), steps);
    more := Extend(s, [], WaitEnds);
    more := CallerCloses(s, more);
    more := Extend(s, more, Helper);
  }

  predicate CallerIsDone(s: State)
  {
    s.caller.GaveUp? || s.caller.Served? || s.caller.Unstarted?
  }

  /** The same caller, and the event as open as before. */
  predicate SameCaller(s: State, s': State)
  {
    s'.caller == s.caller && s'.open == s.open
  }

  predicate InLoop(pc: HelperPc)
  {
    pc.Entry? || pc.Counting? || pc.Copying? || pc.LoopEvent? || pc.LoopDone?
  }

  lemma LoopingHelperKeepsTheCaller(s: State)
    requires InLoop(s.helper)
    ensures SameCaller(s, HelperStep(s))
  {
  }

  lemma DeliveringHelperKeepsTheCaller(s: State)
    requires s.helper.PutErrno? || s.helper.PutResult? || s.helper.PutDone?
    ensures SameCaller(s, HelperStep(s))
  {
  }

  lemma OtherHelperKeepsTheCaller(s: State)
    requires !InLoop(s.helper) && !s.helper.PutErrno? && !s.helper.PutResult? && !s.helper.PutDone?
    ensures SameCaller(s, HelperStep(s))
  {
  }

  lemma HelperKeepsTheCaller(s: State)
    ensures SameCaller(s, HelperStep(s))
  {
    if InLoop(s.helper) {
      LoopingHelperKeepsTheCaller(s);
    } else if s.helper.PutErrno? || s.helper.PutResult? || s.helper.PutDone? {
      DeliveringHelperKeepsTheCaller(s);
    } else {
      OtherHelperKeepsTheCaller(s);
    }
  }

  lemma DoneCallerCloses(s: State)
    requires CallerIsDone(s)
    ensures CallerStep(s) == s.(open := false)
  {
  }

  lemma DoneCallerStep(s: State, step: Step)
    requires CallerIsDone(s)
    ensures Apply(s, step).caller == s.caller && (Apply(s, step).open <==> s.open && !step.Caller?)
  {
    match step
    case Helper => HelperKeepsTheCaller(s);
    case Caller => DoneCallerCloses(s);
    case _ =>
  }

  /** A caller that is done with the record, however its call went, closes the event with
      its next step, and it stays closed. */
  lemma {:induction false} DoneCallerClosesTheEvent(s: State, steps: seq<Step>)
    requires CallerIsDone(s)
    ensures Run(s, steps).caller == s.caller && (Run(s, steps).open <==> s.open && CallerSteps(steps) == 0)
  {
    if steps != [] {
      DoneCallerClosesTheEvent(s, steps[..|steps| - 1]);
      DoneCallerStep(Run(s, steps[..|steps| - 1]), steps[|steps| - 1]);
    }
  }

  /** How many steps a caller has left when done is 3, its close included. */
  function ClosingLeft(s: State): nat
  {
    if s.open then CallerLeft(s) + 1 else 0
  }

  lemma ClosingStep(s: State)
    requires Inv(s) && s.helper.Posting? && WaitIsOver(s) && s.open
    ensures var s' := CallerStep(s);
            Inv(s') && s'.helper.Posting? && WaitIsOver(s') && ClosingLeft(s') < ClosingLeft(s)
  {
    CallerStepKeepsInv(s);
  }

  lemma CallerCloses(s: State, steps: seq<Step>) returns (more: seq<Step>)
    requires Inv(Run(s, steps)) && Run(s, steps).helper.Posting? && WaitIsOver(Run(s, steps))
    ensures Run(s, more).helper.Posting? && !Run(s, more).open
    decreases ClosingLeft(Run(s, steps))
  {
    if Run(s, steps).open {
      ClosingStep(Run(s, steps));
      more := Extend(s, steps, Caller);
      more := CallerCloses(s, more);
    } else {
      more := steps;
    }
  }

  // ------------------------------------------------------------------ both get done

  /** The helper has a result, or the caller has given up. */
  predicate Decided(s: State)
  {
    !s.helper.Unborn? && (s.polled != 0 || !s.event)
  }

  /** The step is one that the helper takes: a poll when it polls, otherwise its next. */
  predicate HelperActs(s: State, step: Step)
  {
    (step.Poll? && s.helper.Polling?) || (step.Helper? && !s.helper.Polling?)
  }

  /** How many steps of a run from s are the helper's, and how many the caller's. */
  function HelperSteps(s: State, steps: seq<Step>): nat
  {
    if steps == [] then 0
    else
      var front := steps[..|steps| - 1];
      HelperSteps(s, front) + if HelperActs(Run(s, front), steps[|steps| - 1]) then 1 else 0
  }

  function CallerSteps(steps: seq<Step>): nat
  {
    if steps == [] then 0
    else CallerSteps(steps[..|steps| - 1]) + if steps[|steps| - 1].Caller? then 1 else 0
  }

  /** A bound on the steps of a helper once it is decided. */
  function StepsLeft(s: State): nat
  {
    match s.helper
    case Unborn => 0
    case Ended => 0
    case Posting => 1
    case Dropping => 1
    case PutDone => 2
    case DropDone => 2
    case PutResult => 3
    case PutErrno => 4
    case FinalTest => 5
    case LoopDone => if s.done != 0 then 6 else 11
    case LoopEvent => 7
    case Copying => 8
    case Counting => 9
    case Polling => 10
    case Entry => 11
  }

  /** A bound on the steps of a caller whose wait is over: until the matter is decided,
      and once the helper is done. */
  function UndecidedLeft(s: State): nat
  {
    if s.caller.Testing? then 2 else if s.caller.GivingUp? then 1 else 0
  }

  function CallerLeft(s: State): nat
  {
    match s.caller
    case Testing => 7
    case SpinTest => 6
    case SpinThree => 5
    case Clearing => 4
    case FetchResult => 3
    case FetchErrno(_) => 2
    case Releasing(_) => 1
    case GivingUp => 1
    case _ => 0
  }

  predicate WaitIsOver(s: State)
  {
    !s.caller.Starting? && !s.caller.StartFailed? && !s.caller.Waiting? && !s.caller.Unstarted?
  }

  /** A decided helper gets closer to its end with every step of its own, and no step
      takes it further away. */
  lemma DecidedStep(s: State, step: Step)
    requires Inv(s) && Decided(s)
    ensures var s' := Apply(s, step);
            && Decided(s')
            && StepsLeft(s') <= if HelperActs(s, step) && StepsLeft(s) > 0 then StepsLeft(s) - 1 else StepsLeft(s)
  {
  }

  lemma UndecidedStep(s: State, step: Step)
    requires Inv(s) && WaitIsOver(s)
    ensures var s' := Apply(s, step);
            && WaitIsOver(s')
            && UndecidedLeft(s') <= if step.Caller? && UndecidedLeft(s) > 0 then UndecidedLeft(s) - 1
                                    else UndecidedLeft(s)
  {
  }

  lemma ServedStep(s: State, step: Step)
    requires Inv(s) && WaitIsOver(s) && s.helper.Ended?
    ensures var s' := Apply(s, step);
            && WaitIsOver(s') && s'.helper.Ended?
            && CallerLeft(s') <= if step.Caller? && CallerLeft(s) > 0 then CallerLeft(s) - 1 else CallerLeft(s)
  {
  }

  lemma {:induction false} CallerDecides(s: State, steps: seq<Step>)
    requires Inv(s) && WaitIsOver(s)
    ensures var r := Run(s, steps);
            && Inv(r) && WaitIsOver(r)
            && (UndecidedLeft(r) == 0 || UndecidedLeft(r) + CallerSteps(steps) <= UndecidedLeft(s))
            && (UndecidedLeft(r) == 0 ==> Decided(r))
  {
    if steps != [] {
      var front, last := steps[..|steps| - 1], steps[|steps| - 1];
      CallerDecides(s, front);
      StepKeepsInv(Run(s, front), last);
      UndecidedStep(Run(s, front), last);
    }
  }

  /** A helper that has a result, or whose caller has given up, has ended once eleven
      steps of its own were taken, whatever its polls return and whatever the caller does
      in between. */
  lemma {:induction false} HelperEnds(s: State, steps: seq<Step>)
    requires Inv(s) && Decided(s)
    ensures var r := Run(s, steps);
            && Inv(r) && Decided(r) && (StepsLeft(r) == 0 || StepsLeft(r) + HelperSteps(s, steps) <= StepsLeft(s))
            && (11 <= HelperSteps(s, steps) ==> r.helper.Ended? && r.done == 3)
  {
    if steps != [] {
      var front, last := steps[..|steps| - 1], steps[|steps| - 1];
      HelperEnds(s, front);
      StepKeepsInv(Run(s, front), last);
      DecidedStep(Run(s, front), last);
    }
  }

  lemma {:induction false} CallerEnds(s: State, steps: seq<Step>)
    requires Inv(s) && WaitIsOver(s) && s.helper.Ended?
    ensures var r := Run(s, steps);
            && Inv(r) && WaitIsOver(r) && r.helper.Ended?
            && (CallerLeft(r) == 0 || CallerLeft(r) + CallerSteps(steps) <= CallerLeft(s))
            && (7 <= CallerSteps(steps) ==> Finished(r))
  {
    if steps != [] {
      var front, last := steps[..|steps| - 1], steps[|steps| - 1];
      CallerEnds(s, front);
      StepKeepsInv(Run(s, front), last);
      ServedStep(Run(s, front), last);
    }
  }

  /** Once the caller's wait is over, nothing can hold up either thread. In every run in
      which the caller takes two more steps, the helper then eleven and the caller then
      seven, however these and any others interleave, both get done. The caller's loop on
      done in particular does not outlast the helper. */
  lemma BothFinish(s: State, a: seq<Step>, b: seq<Step>, c: seq<Step>)
    requires Inv(s) && WaitIsOver(s)
    requires 2 <= CallerSteps(a) && 11 <= HelperSteps(Run(s, a), b) && 7 <= CallerSteps(c)
    ensures Finished(Run(Run(Run(s, a), b), c))
  {
    CallerDecides(s, a);
    HelperEnds(Run(s, a), b);
    CallerDecides(Run(s, a), b);
    CallerEnds(Run(Run(s, a), b), c);
  }
}
