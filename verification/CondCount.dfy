/**
 The count c_onwait of a condition variable, which waits raise and lower without a lock
 of its own (uthread_cond.c, lines 180, 217, 252 and 289): a read and a write, two steps.
 Every waiter has the condition's mutex, a fast one, when it enters its wait. It has it
 again when it lowers the count, unless its wait has timed out or failed.
 */
module CountMachine {
  import opened Prelude
  import M = MutexMachine

  type Tid = M.Tid

  datatype Place =
    | Outside
    | Raising(seen: int)               // has read the count
    | Entered                          // is counted
    | Blocked                          // has given up the mutex
    | Back(locked: bool)               // its wait is over
    | Lowering(seen: int, locked: bool)

  datatype Count = Count(
    onwait: int,
    owner: Option<Tid>,                // of the mutex
    places: map<Tid, Place>,
    lost: int)                         // history: sum of what was there less what was seen, over all writes

  function PlaceOf(s: Count, t: Tid): Place
  {
    if t in s.places then s.places[t] else Outside
  }

  datatype Step = Lock(t: Tid) | Unlock(t: Tid) | Go(t: Tid) | Wake(t: Tid) | Expire(t: Tid)

  function Move(s: Count, t: Tid, place: Place): Count
  {
    s.(places := s.places[t := place])
  }

  function Write(s: Count, onwait: int, seen: int): Count
  {
    s.(onwait := onwait, lost := s.lost + (s.onwait - seen))
  }

  /** The next step of t in its wait, which it enters if it has the mutex. */
  function Advance(s: Count, t: Tid): Count
  {
    match PlaceOf(s, t)
    case Outside => if s.owner == Some(t) then Move(s, t, Raising(s.onwait)) else s
    case Raising(seen) => Move(Write(s, seen + 1, seen), t, Entered)
    case Entered => Move(s, t, Blocked).(owner := None)
    case Blocked => s
    case Back(locked) => Move(s, t, Lowering(s.onwait, locked))
    case Lowering(seen, locked) => Move(Write(s, seen - 1, seen), t, Outside)
  }

  function Apply(s: Count, step: Step): Count
  {
    match step
    case Lock(t) => if s.owner == None && PlaceOf(s, t).Outside? then s.(owner := Some(t)) else s
    case Unlock(t) => if s.owner == Some(t) && PlaceOf(s, t).Outside? then s.(owner := None) else s
    case Go(t) => Advance(s, t)
    case Wake(t) =>   // a post, and the mutex again
      if PlaceOf(s, t).Blocked? && s.owner == None then Move(s, t, Back(true)).(owner := Some(t)) else s
    case Expire(t) => if PlaceOf(s, t).Blocked? then Move(s, t, Back(false)) else s
  }

  function Run(s: Count, steps: seq<Step>): Count
  {
    if steps == [] then s else Apply(Run(s, steps[..|steps| - 1]), steps[|steps| - 1])
  }

  function Fresh(): Count
  {
    Count(0, None, map[], 0)
  }
}

/** When the count is right. */
module CountLaws {
  import opened Prelude
  import opened CountMachine

  /** The threads the count should count. */
  predicate Counted(place: Place)
  {
    place.Entered? || place.Blocked? || place.Back? || place.Lowering?
  }

  ghost function Inside(s: Count): set<Tid>
  {
    set t | t in s.places && Counted(s.places[t])
  }

  lemma InsideAfter(s: Count, s': Count, t: Tid, place: Place)
    requires s'.places == s.places[t := place]
    ensures Inside(s') == if Counted(place) then Inside(s) + {t} else Inside(s) - {t}
  {
    forall u: Tid ensures u in Inside(s') <==> if u == t then Counted(place) else u in Inside(s) {
    }
  }

  lemma StepKeepsBalance(s: Count, step: Step)
    requires s.onwait == |Inside(s)| - s.lost
    ensures Apply(s, step).onwait == |Inside(Apply(s, step))| - Apply(s, step).lost
  {
    var s' := Apply(s, step);
    assert step.t in Inside(s) <==> Counted(PlaceOf(s, step.t));
    OneElement(Inside(s), step.t);
    if s'.places == s.places {
      assert Inside(s') == Inside(s);
    } else {
      InsideAfter(s, s', step.t, PlaceOf(s', step.t));
    }
  }

  /** In every run the count is right but for the writes that went over another one: it is
      the number of threads inside if and only if these cancel out. */
  lemma {:induction false} CountIsRightExactlyUnlessWritesCross(steps: seq<Step>)
    ensures var s := Run(Fresh(), steps); s.onwait == |Inside(s)| - s.lost
    ensures var s := Run(Fresh(), steps); s.onwait == |Inside(s)| <==> s.lost == 0
  {
    if steps == [] {
      assert Inside(Fresh()) == {};
    } else {
      CountIsRightExactlyUnlessWritesCross(steps[..|steps| - 1]);
      StepKeepsBalance(Run(Fresh(), steps[..|steps| - 1]), steps[|steps| - 1]);
    }
  }

  /** Whoever is about to write has the mutex and has seen the count as it is. */
  ghost predicate InTurn(s: Count)
  {
    && s.lost == 0
    && forall t :: t in s.places ==>
         match s.places[t]
         case Outside => true
         case Raising(seen) => s.owner == Some(t) && seen == s.onwait
         case Entered => s.owner == Some(t)
         case Blocked => s.owner != Some(t)
         case Back(locked) => s.owner == Some(t)
         case Lowering(seen, locked) => s.owner == Some(t) && seen == s.onwait
  }

  lemma StepInTurn(s: Count, step: Step)
    requires InTurn(s) && !step.Expire?
    ensures InTurn(Apply(s, step))
  {
  }

  /** As long as no wait times out or fails the mutex protects the count: it is right in
      every interleaving. */
  lemma {:induction false} CountIsRightIfNoWaitExpires(steps: seq<Step>)
    requires forall i :: 0 <= i < |steps| ==> !steps[i].Expire?
    ensures var s := Run(Fresh(), steps); InTurn(s) && s.onwait == |Inside(s)|
  {
    if steps != [] {
      CountIsRightIfNoWaitExpires(steps[..|steps| - 1]);
      StepInTurn(Run(Fresh(), steps[..|steps| - 1]), steps[|steps| - 1]);
    }
    CountIsRightExactlyUnlessWritesCross(steps);
  }

  lemma Extend(steps: seq<Step>, step: Step) returns (more: seq<Step>)
    ensures more == steps + [step] && Run(Fresh(), more) == Apply(Run(Fresh(), steps), step)
  {
    more := steps + [step];
    assert more[..|steps|] == steps;
  }

  /** One that does makes the count wrong: t times out and lowers it without the mutex
      while u, which has the mutex, raises it. Then u is blocked and the count is 0, so a
      broadcast makes no post. */
  lemma ExpiredWaitLosesACount(t: Tid, u: Tid) returns (steps: seq<Step>)
    requires t != u
    ensures var s := Run(Fresh(), steps);
            PlaceOf(s, u).Blocked? && s.onwait == 0 && Inside(s) == {u} && s.lost == 1
  {
    steps := OneExpired(t);
    steps := Extend(steps, Lock(u));
    steps := Extend(steps, Go(u));
    steps := Extend(steps, Go(t));
    steps := Extend(steps, Go(u));
    steps := Extend(steps, Go(t));
    steps := Extend(steps, Go(u));
  }

  lemma OneExpired(t: Tid) returns (steps: seq<Step>)
    ensures Run(Fresh(), steps) == Count(1, None, map[t := Back(false)], 0)
  {
    steps := Extend([], Lock(t));
    steps := Extend(steps, Go(t));
    steps := Extend(steps, Go(t));
    steps := Extend(steps, Go(t));
    steps := Extend(steps, Expire(t));
    assert Run(Fresh(), steps).places == map[t := Back(false)];
  }
}
