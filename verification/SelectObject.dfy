/**
 The record of pthread_select, updated in place by the two functions of
 uthread_select.c, each running alone; module SelectLaws says what holds when their
 steps interleave.
 */
module SelectObject {
  import opened SelectMachine
  import opened SelectLaws

  /** What the polls of a run returned, in order. */
  function PollsOf(steps: seq<Step>): seq<(int, int)>
  {
    if steps == [] then []
    else
      var last := steps[|steps| - 1];
      PollsOf(steps[..|steps| - 1]) + (if last.Poll? then [(last.result, last.errno)] else [])
  }

  lemma PollsOfExtend(steps: seq<Step>, step: Step)
    ensures PollsOf(steps + [step]) == PollsOf(steps) + (if step.Poll? then [(step.result, step.errno)] else [])
  {
    assert (steps + [step])[..|steps|] == steps;
  }

  /** It has not got to the final test of event. */
  predicate BeforeTest(helper: HelperPc)
  {
    helper.Unborn? || helper.Entry? || helper.Polling? || helper.Counting? || helper.Copying?
    || helper.LoopEvent? || helper.LoopDone?
  }

  class SelectRecord {
    var event: bool              // event != 0
    var done: int
    var result: int
    var errno: int               // select_errno
    var frees: nat
    var helper: HelperPc         // where the helper is, and its local variables
    var handle: bool
    var open: bool               // the event semaphore exists
    var polled: int
    var pollErrno: int
    ghost var strays: nat
    ghost var caller: CallerPc
    ghost var foundArmed: bool
    ghost var crossed: bool
    ghost var late: bool

    ghost function View(): State
      reads this
    {
      State(event, done, result, errno, frees, strays, caller, helper, handle, open, polled, pollErrno,
            foundArmed, crossed, late)
    }

    ghost predicate Valid()
      reads this
    {
      Inv(View())
    }

    constructor ()
      ensures Valid() && View() == Fresh()
    {
      event, done, result, errno, frees, strays := true, 0, 0, 0, 0, 0;
      caller, helper, handle, open, polled, pollErrno := Starting, Unborn, false, true, 0, 0;
      foundArmed, crossed, late := false, false, false;
    }

    /** _thread_select. answers are what its polls return, with errno; ended is false if
        there are not enough of them for it to get to its end. */
    method ThreadSelect(answers: seq<(int, int)>) returns (ended: bool, used: nat, ghost steps: seq<Step>)
      requires Valid() && helper.Entry? && answers != []
      modifies this
      ensures Valid() && View() == Run(old(View()), steps)
      ensures used <= |answers| && PollsOf(steps) == answers[..used]
      ensures ended ==> helper.Ended? && done == 3
      ensures !ended ==> helper.Polling? && used == |answers|
      ensures caller == old(caller)
    {
      ghost var s0 := View();
      steps := CopyHandle();
      used := 0;
      var polling := true;
      while polling && used < |answers|
        invariant used <= |answers| && CameFrom(s0, steps, answers[..used])
        invariant helper == if polling then Polling else FinalTest
        invariant polling || (0 < used && answers[used - 1] == (polled, pollErrno))
        invariant caller == old(caller)
        decreases polling, |answers| - used
      {
        polling, steps := PollOnce(answers, used, s0, steps);
        used := used + 1;
      }
      ended := !polling;
      if ended {
        steps := Conclude(answers[used - 1], s0, steps, answers[..used]);
      }
    }

    /** Its first statement. */
    method CopyHandle() returns (ghost steps: seq<Step>)
      requires Valid() && helper.Entry?
      modifies this`handle, this`helper
      ensures CameFrom(old(View()), steps, []) && helper.Polling?
    {
      ghost var s0 := View();
      steps := Extend(s0, [], Helper);
      PollsOfExtend([], Helper);
      StepKeepsInv(s0, Helper);
      handle, helper := event, Polling;
    }

    /** The record is where a run from s0 with these polls has brought it. */
    ghost predicate CameFrom(s0: State, steps: seq<Step>, polls: seq<(int, int)>)
      reads this
    {
      Valid() && View() == Run(s0, steps) && PollsOf(steps) == polls
    }

    /** One turn of its do-while loop, in a run that has come from s0; again is the loop
        condition. */
    method PollOnce(answers: seq<(int, int)>, used: nat, ghost s0: State, ghost steps: seq<Step>)
      returns (again: bool, ghost more: seq<Step>)
      requires used < |answers| && CameFrom(s0, steps, answers[..used]) && helper.Polling?
      modifies this
      ensures CameFrom(s0, more, answers[..used + 1])
      ensures answers[used] == (polled, pollErrno)
      ensures helper == if again then Polling else FinalTest
      ensures again <==> event && answers[used].0 == 0
      ensures caller == old(caller)
    {
      var answer := answers[used];
      assert answers[..used + 1] == answers[..used] + [answer];
      ghost var turn := PollTurn(View(), answer);
      more := Join(s0, steps, turn);
      RunsKeepInv(View(), turn);
      polled, pollErrno := answer.0, answer.1;
      if answer.0 > 0 {
        done := done + 1;
      } else if answer.0 != 0 {
        done := done + 1;
      }
      again := event && done == 0;
      helper := if again then Polling else FinalTest;
    }

    /** What follows its loop. */
    method Conclude(answer: (int, int), ghost s0: State, ghost steps: seq<Step>, ghost polls: seq<(int, int)>)
      returns (ghost more: seq<Step>)
      requires CameFrom(s0, steps, polls) && helper.FinalTest? && answer == (polled, pollErrno)
      modifies this
      ensures CameFrom(s0, more, polls)
      ensures helper.Ended? && done == 3 && caller == old(caller)
    {
      ghost var turn := Ending(View());
      more := Join(s0, steps, turn);
      RunsKeepInv(View(), turn);
      if event {
        Deliver(answer);
      } else {
        done := 3;
        frees := frees + 1;
        helper := Ended;
      }
    }

    method Deliver(answer: (int, int))
      requires event && answer == (polled, pollErrno)
      modifies this
      ensures View() == old(View()).(foundArmed := true, crossed := caller.GivingUp?, result := polled,
                                     errno := if polled < 0 then pollErrno else 0, done := 3, helper := Ended)
    {
      foundArmed, crossed := true, caller.GivingUp?;
      errno := if answer.0 < 0 then answer.1 else 0;
      result := answer.0;
      done := 3;
      helper := Ended;
    }

    method HelperLoops()
      requires BeforeTest(helper) && !helper.Polling? && frees == 0
      modifies this`handle, this`done, this`helper
      ensures View() == HelperStep(old(View()))
    {
      match helper {
        case Entry => handle, helper := event, Polling;
        case Counting => done, helper := done + 1, if polled > 0 then Copying else LoopEvent;
        case Copying => helper := LoopEvent;
        case LoopEvent => helper := if event then LoopDone else FinalTest;
        case LoopDone => helper := if done == 0 then Polling else FinalTest;
        case Unborn =>
      }
    }

    method HelperDecides()
      requires (helper.FinalTest? || helper.DropDone? || helper.Dropping?) && frees == 0
      modifies this
      ensures View() == HelperStep(old(View()))
    {
      match helper {
        case FinalTest =>
          if event {
            foundArmed, crossed := true, caller.GivingUp?;
          }
          helper := if event then PutErrno else DropDone;
        case DropDone => done, helper := 3, Dropping;
        case Dropping => frees, helper := frees + 1, Ended;
      }
    }

    method HelperDelivers()
      requires helper.PutErrno? || helper.PutResult? || helper.PutDone? || helper.Posting?
      requires !helper.Posting? ==> frees == 0
      modifies this`errno, this`result, this`done, this`helper, this`late
      ensures View() == HelperStep(old(View()))
    {
      match helper {
        case PutErrno => errno, helper := if polled < 0 then pollErrno else 0, PutResult;
        case PutResult => result, helper := polled, PutDone;
        case PutDone => done, helper := 3, Posting;
        case Posting => helper, late := Ended, !open;
      }
    }

    /** The helper takes its next step, while the caller sleeps. */
    method HelperGoesOn()
      requires Valid() && !helper.Polling?
      modifies this
      ensures Valid() && View() == HelperStep(old(View())) && caller == old(caller)
    {
      HelperStepKeepsInv(View());
      if BeforeTest(helper) {
        HelperLoops();
      } else if helper == FinalTest || helper == DropDone || helper == Dropping {
        HelperDecides();
      } else if helper != Ended {
        HelperDelivers();
      }
    }

    /** The caller's loop on done, which it found not to be 0. */
    method AwaitDone() returns (ghost steps: seq<Step>)
      requires Valid() && caller.Testing? && done != 0
      modifies this
      ensures Valid() && View() == Run(old(View()), steps) && done == 3 && caller == SpinTest
    {
      ghost var s := View();
      caller := SpinTest;
      steps := Extend(s, [], Step.Caller);
      CallerStepKeepsInv(s);
      while done != 0 && done != 3
        invariant Valid() && View() == Run(s, steps) && caller == SpinTest && done != 0
        decreases StepsLeft(View())
      {
        ghost var v := View();
        ghost var more := OneSpin(v);
        DecidedStep(v, Step.Helper);
        HelperGoesOn();
        RunAll(s, steps, more);
        steps := steps + more;
      }
    }

    /** pthread_select from the end of its wait; while it sleeps in its loop on done the
        helper goes on. */
    method FinishSelect() returns (report: Report, ghost steps: seq<Step>)
      requires Valid() && caller.Testing?
      modifies this
      ensures Valid() && View() == Run(old(View()), steps)
      ensures !open && caller == if old(done) == 0 then GaveUp(report) else Served(report)
    {
      if done == 0 {
        steps := GivingUpSteps(View());
        RunsKeepInv(View(), steps);
        event := false;
        report := Report(-1, ETIMEDOUT);
        caller, open := GaveUp(report), false;
      } else {
        ghost var s := View();
        steps := AwaitDone();
        ghost var more := ServedSteps(View());
        RunsKeepInv(View(), more);
        RunAll(s, steps, more);
        steps := steps + more;
        event := false;
        report := Report(result, errno);
        frees, caller, open := frees + 1, Served(report), false;
      }
    }
  }

  /** A run that has come from s0 goes on. */
  lemma Join(s0: State, steps: seq<Step>, turn: seq<Step>) returns (more: seq<Step>)
    ensures more == steps + turn
    ensures Run(s0, more) == Run(Run(s0, steps), turn) && PollsOf(more) == PollsOf(steps) + PollsOf(turn)
  {
    more := steps + turn;
    RunAll(s0, steps, turn);
    PollsOfAll(steps, turn);
  }

  /** One poll, up to the loop condition. */
  lemma PollAndCount(s: State, answer: (int, int)) returns (steps: seq<Step>)
    requires Inv(s) && s.helper.Polling?
    ensures PollsOf(steps) == [answer]
    ensures Run(s, steps) == s.(polled := answer.0, pollErrno := answer.1,
                                done := if answer.0 == 0 then 0 else 1, helper := LoopEvent)
  {
    var v: State;
    var s1 := s.(polled := answer.0, pollErrno := answer.1);
    steps, v := Next(s, [], s, Poll(answer.0, answer.1));
    if answer.0 != 0 {
      assert v == s1.(helper := Counting);
      steps, v := Next(s, steps, v, Helper);
      if answer.0 > 0 {
        assert v == s1.(done := 1, helper := Copying);
        steps, v := Next(s, steps, v, Helper);
      }
    }
  }

  lemma LoopCondition(s: State) returns (steps: seq<Step>)
    requires s.helper.LoopEvent? && s.frees == 0
    ensures PollsOf(steps) == []
    ensures Run(s, steps) == s.(helper := if s.event && s.done == 0 then Polling else FinalTest)
  {
    var v: State;
    steps, v := Next(s, [], s, Helper);
    if s.event {
      assert v == s.(helper := LoopDone);
      steps, v := Next(s, steps, v, Helper);
    }
  }

  lemma PollTurn(s: State, answer: (int, int)) returns (steps: seq<Step>)
    requires Inv(s) && s.helper.Polling?
    ensures PollsOf(steps) == [answer]
    ensures Run(s, steps) == s.(polled := answer.0, pollErrno := answer.1,
                                done := if answer.0 == 0 then 0 else 1,
                                helper := if s.event && answer.0 == 0 then Polling else FinalTest)
  {
    steps := PollAndCount(s, answer);
    var test := LoopCondition(Run(s, steps));
    steps := Join(s, steps, test);
  }

  lemma Delivery(s: State) returns (steps: seq<Step>)
    requires Inv(s) && s.helper.FinalTest? && s.event
    ensures PollsOf(steps) == []
    ensures Run(s, steps) == s.(foundArmed := true, crossed := s.caller.GivingUp?, result := s.polled,
                                errno := if s.polled < 0 then s.pollErrno else 0,
                                done := 3, helper := Ended)
  {
    var v: State;
    var s1 := s.(foundArmed := true, crossed := s.caller.GivingUp?);
    steps, v := Next(s, [], s, Helper);
    assert v == s1.(helper := PutErrno);
    steps, v := Next(s, steps, v, Helper);
    var s2 := s1.(errno := if s.polled < 0 then s.pollErrno else 0);
    assert v == s2.(helper := PutResult);
    steps, v := Next(s, steps, v, Helper);
    var s3 := s2.(result := s.polled);
    assert v == s3.(helper := PutDone);
    steps, v := Next(s, steps, v, Helper);
    assert v == s3.(done := 3, helper := Posting);
    steps, v := Next(s, steps, v, Helper);
  }

  lemma Disposal(s: State) returns (steps: seq<Step>)
    requires Inv(s) && s.helper.FinalTest? && !s.event
    ensures PollsOf(steps) == []
    ensures Run(s, steps) == s.(done := 3, frees := s.frees + 1, helper := Ended)
  {
    var v: State;
    steps, v := Next(s, [], s, Helper);
    assert v == s.(helper := DropDone);
    steps, v := Next(s, steps, v, Helper);
    assert v == s.(done := 3, helper := Dropping);
    steps, v := Next(s, steps, v, Helper);
  }

  /** What follows the helper's loop, in either case. */
  lemma Ending(s: State) returns (steps: seq<Step>)
    requires Inv(s) && s.helper.FinalTest?
    ensures PollsOf(steps) == []
    ensures Run(s, steps) ==
              if s.event then s.(foundArmed := true, crossed := s.caller.GivingUp?, result := s.polled,
                                 errno := if s.polled < 0 then s.pollErrno else 0, done := 3, helper := Ended)
              else s.(done := 3, frees := s.frees + 1, helper := Ended)
  {
    if s.event { steps := Delivery(s); } else { steps := Disposal(s); }
  }

  lemma GivingUpSteps(s: State) returns (steps: seq<Step>)
    requires Inv(s) && s.caller.Testing? && s.done == 0
    ensures Run(s, steps) == s.(event := false, open := false, caller := GaveUp(Report(-1, ETIMEDOUT)))
  {
    var v: State;
    steps, v := Next(s, [], s, Caller);
    assert v == s.(caller := GivingUp);
    steps, v := Next(s, steps, v, Caller);
    assert v == s.(event := false, caller := GaveUp(Report(-1, ETIMEDOUT)));
    steps, v := Next(s, steps, v, Caller);
  }

  /** Both reads of done in the loop of the caller, and a step of the helper. */
  lemma OneSpin(s: State) returns (steps: seq<Step>)
    requires Inv(s) && s.caller.SpinTest? && s.done != 0 && s.done != 3
    ensures Run(s, steps) == HelperStep(s) && !s.helper.Polling?
    ensures Decided(s) && HelperActs(s, Helper) && StepsLeft(s) > 0
    ensures HelperStep(s).done != 0 && HelperStep(s).caller == SpinTest
  {
    var v: State;
    steps, v := Next(s, [], s, Caller);
    assert v == s.(caller := SpinThree);
    steps, v := Next(s, steps, v, Caller);
    assert v == s;
    steps, v := Next(s, steps, v, Helper);
  }

  lemma ServedSteps(s: State) returns (steps: seq<Step>)
    requires Inv(s) && s.caller.SpinTest? && s.done == 3
    ensures Run(s, steps)
         == s.(event := false, open := false, frees := s.frees + 1, caller := Served(Report(s.result, s.errno)))
  {
    var v: State;
    steps, v := Next(s, [], s, Caller);
    assert v == s.(caller := SpinThree);
    steps, v := Next(s, steps, v, Caller);
    assert v == s.(caller := Clearing);
    steps, v := Next(s, steps, v, Caller);
    var s1 := s.(event := false);
    assert v == s1.(caller := FetchResult);
    steps, v := Next(s, steps, v, Caller);
    assert v == s1.(caller := FetchErrno(s.result));
    steps, v := Next(s, steps, v, Caller);
    assert v == s1.(caller := Releasing(Report(s.result, s.errno)));
    steps, v := Next(s, steps, v, Caller);
    assert v == s1.(frees := s.frees + 1, caller := Served(Report(s.result, s.errno)));
    steps, v := Next(s, steps, v, Caller);
  }

  /** One more step of a run that has come from s0 to v. */
  lemma Next(s0: State, steps: seq<Step>, v: State, step: Step) returns (more: seq<Step>, v': State)
    requires v == Run(s0, steps)
    ensures more == steps + [step] && v' == Apply(v, step) && v' == Run(s0, more)
    ensures PollsOf(more) == PollsOf(steps) + (if step.Poll? then [(step.result, step.errno)] else [])
  {
    more := Extend(s0, steps, step);
    v' := Apply(v, step);
    PollsOfExtend(steps, step);
  }

  lemma {:induction false} RunsKeepInv(s0: State, steps: seq<Step>)
    requires Inv(s0)
    ensures Inv(Run(s0, steps))
  {
    if steps != [] {
      RunsKeepInv(s0, steps[..|steps| - 1]);
      StepKeepsInv(Run(s0, steps[..|steps| - 1]), steps[|steps| - 1]);
    }
  }

  lemma {:induction false} RunAll(s: State, a: seq<Step>, b: seq<Step>)
    ensures Run(s, a + b) == Run(Run(s, a), b)
  {
    if b == [] {
      assert a + b == a;
    } else {
      RunAll(s, a, b[..|b| - 1]);
      assert (a + b)[..|a + b| - 1] == a + b[..|b| - 1];
    }
  }

  lemma {:induction false} PollsOfAll(a: seq<Step>, b: seq<Step>)
    ensures PollsOf(a + b) == PollsOf(a) + PollsOf(b)
  {
    if b == [] {
      assert a + b == a;
    } else {
      PollsOfAll(a, b[..|b| - 1]);
      assert (a + b)[..|a + b| - 1] == a + b[..|b| - 1];
    }
  }
}
