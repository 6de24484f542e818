/**
 pthread_once (uthread_once.c) for any number of threads: the state of the control is
 tested, tested again under the control's mutex, and set after the routine has run.
 The routine takes a while, during which others run.
 */
module Once {
  import opened Prelude
  import M = MutexMachine
  import opened AtomicMutex

  datatype Pc =
    | Outside
    | FirstTest
    | Locking
    | SecondTest
    | Running          // in init_routine
    | Setting          // the routine has returned, about to set the state
    | Unlocking
    | Returned

  datatype State = State(
    hasMutex: bool,    // the control's mutex has been initialised; if not, locking it fails at once
    mutex: Mutex,
    done: bool,        // state == PTHREAD_DONE_INIT
    begun: nat,        // history: calls of init_routine, and those that returned
    ended: nat,
    pcs: map<M.Tid, Pc>)

  function Fresh(hasMutex: bool, kind: M.Kind): State
  {
    State(hasMutex, Mutex(kind, None, 0), false, 0, 0, map[])
  }

  function PcOf(s: State, t: M.Tid): Pc
  {
    if t in s.pcs then s.pcs[t] else Outside
  }

  /** The next step of t; it may call again once a call has returned. */
  function Go(s: State, t: M.Tid): State
  {
    match PcOf(s, t)
    case Outside => s.(pcs := s.pcs[t := FirstTest])
    case FirstTest => s.(pcs := s.pcs[t := if s.done then Returned else Locking])
    case Locking =>
      if !s.hasMutex then s.(pcs := s.pcs[t := SecondTest])
      else if MayLock(s.mutex, t) then s.(pcs := s.pcs[t := SecondTest], mutex := LockIt(s.mutex, t).0)
      else s
    case SecondTest =>
      if s.done then s.(pcs := s.pcs[t := Unlocking])
      else s.(pcs := s.pcs[t := Running], begun := s.begun + 1)
    case Running => s.(pcs := s.pcs[t := Setting], ended := s.ended + 1)
    case Setting => s.(pcs := s.pcs[t := Unlocking], done := true)
    case Unlocking =>
      s.(pcs := s.pcs[t := Returned], mutex := if s.hasMutex then UnlockIt(s.mutex, t).0 else s.mutex)
    case Returned => s.(pcs := s.pcs[t := FirstTest])
  }

  /** A run, by the threads that take its steps. */
  function Run(s: State, who: seq<M.Tid>): State
  {
    if who == [] then s else Go(Run(s, who[..|who| - 1]), who[|who| - 1])
  }

  predicate Inside(pc: Pc)
  {
    pc.SecondTest? || pc.Running? || pc.Setting? || pc.Unlocking?
  }

  ghost predicate Inv(s: State)
  {
    && s.hasMutex && Consistent(s.mutex) && s.mutex.depth <= 1
    && (forall t :: t in s.pcs ==> (Inside(s.pcs[t]) <==> s.mutex.owner == Some(t)))
    && (s.mutex.owner.Some? ==> s.mutex.owner.value in s.pcs)
    && s.ended <= s.begun <= 1
    && (s.done ==> s.ended == 1)
    && (s.begun == 1 && !s.done ==> s.mutex.owner.Some? && var t := s.mutex.owner.value;
          PcOf(s, t) == if s.ended == 1 then Setting else Running)
    && (forall t :: t in s.pcs && (s.pcs[t].Running? || s.pcs[t].Setting?) ==> s.begun == 1 && !s.done)
    && (forall t :: t in s.pcs && (s.pcs[t].Unlocking? || s.pcs[t].Returned?) ==> s.done)
  }

  lemma GoKeepsInv(s: State, t: M.Tid)
    requires Inv(s)
    ensures Inv(Go(s, t))
  {
  }

  lemma {:induction false} RunKeepsInv(kind: M.Kind, who: seq<M.Tid>)
    ensures Inv(Run(Fresh(true, kind), who))
  {
    if who != [] {
      RunKeepsInv(kind, who[..|who| - 1]);
      GoKeepsInv(Run(Fresh(true, kind), who[..|who| - 1]), who[|who| - 1]);
    }
  }

  /** With an initialised mutex, in every interleaving the routine is called at most once,
      and no call of pthread_once returns before the routine has. */
  lemma CalledOnceAndCompleteOnReturn(kind: M.Kind, who: seq<M.Tid>, t: M.Tid)
    ensures var s := Run(Fresh(true, kind), who);
            s.begun <= 1 && (PcOf(s, t).Returned? ==> s.begun == 1 && s.ended == 1)
  {
    RunKeepsInv(kind, who);
  }

  /** Once the routine has returned and the state is set, a call that begins returns after
      the first test, without the mutex and without the routine. */
  lemma LaterCallsReturnAtOnce(kind: M.Kind, who: seq<M.Tid>, t: M.Tid)
    requires var s := Run(Fresh(true, kind), who); s.done && (PcOf(s, t).Outside? || PcOf(s, t).Returned?)
    ensures var s := Run(Fresh(true, kind), who);
            && Run(Fresh(true, kind), who + [t]) == s.(pcs := s.pcs[t := FirstTest])
            && Run(Fresh(true, kind), who + [t] + [t]) == s.(pcs := s.pcs[t := Returned]) && s.begun == 1
  {
    RunKeepsInv(kind, who);
    assert (who + [t])[..|who|] == who;
    assert (who + [t] + [t])[..|who| + 1] == who + [t];
    var s := Run(Fresh(true, kind), who);
    assert s.pcs[t := FirstTest][t := Returned] == s.pcs[t := Returned];
  }

  lemma Extend(s: State, who: seq<M.Tid>, t: M.Tid) returns (more: seq<M.Tid>)
    ensures more == who + [t] && Run(s, more) == Go(Run(s, who), t)
  {
    more := who + [t];
    assert more[..|who|] == who;
  }

  /** Without one, as PTHREAD_ONCE_INIT leaves it, two threads can both call it. */
  lemma TwoCallsWithoutMutex(kind: M.Kind) returns (who: seq<M.Tid>)
    ensures Run(Fresh(false, kind), who).begun == 2
  {
    var s := Fresh(false, kind);
    who := Extend(s, [], 0);
    who := Extend(s, who, 0);
    who := Extend(s, who, 0);
    who := Extend(s, who, 1);
    who := Extend(s, who, 1);
    who := Extend(s, who, 1);
    assert PcOf(Run(s, who), 0) == SecondTest && PcOf(Run(s, who), 1) == SecondTest;
    who := Extend(s, who, 0);
    who := Extend(s, who, 1);
  }

  ghost predicate CallsAtMostOnce(hasMutex: bool, kind: M.Kind)
  {
    forall who :: Run(Fresh(hasMutex, kind), who).begun <= 1
  }

  /** The guarantee holds in all interleavings if and only if the mutex is initialised. */
  lemma OnceExactlyWithMutex(hasMutex: bool, kind: M.Kind)
    ensures CallsAtMostOnce(hasMutex, kind) <==> hasMutex
  {
    if hasMutex {
      forall who ensures Run(Fresh(hasMutex, kind), who).begun <= 1 {
        RunKeepsInv(kind, who);
      }
    } else {
      var who := TwoCallsWithoutMutex(kind);
      assert Run(Fresh(hasMutex, kind), who).begun == 2;
    }
  }

  /** A call by t alone, from its start: what it leaves when the routine is still to be
      run, and when not. */
  lemma CallAlone(s: State, t: M.Tid) returns (who: seq<M.Tid>)
    requires Inv(s) && PcOf(s, t).Outside? && (s.done || s.mutex.owner == None)
    ensures forall i :: 0 <= i < |who| ==> who[i] == t
    ensures var r := s.(pcs := s.pcs[t := Returned]);
            Run(s, who) == if s.done then r else r.(done := true, begun := s.begun + 1, ended := s.ended + 1)
  {
    who := Extend(s, [], t);
    assert Run(s, who) == s.(pcs := s.pcs[t := FirstTest]);
    who := Extend(s, who, t);
    if s.done {
      assert s.pcs[t := FirstTest][t := Returned] == s.pcs[t := Returned];
    } else {
      assert s.pcs[t := FirstTest][t := Locking] == s.pcs[t := Locking];
      assert Run(s, who) == s.(pcs := s.pcs[t := Locking]);
      var locked := s.(mutex := LockIt(s.mutex, t).0);
      who := Extend(s, who, t);
      assert s.pcs[t := Locking][t := SecondTest] == s.pcs[t := SecondTest];
      assert Run(s, who) == locked.(pcs := s.pcs[t := SecondTest]);
      who := Finish(s, locked, who, t);
    }
  }

  lemma Finish(s: State, locked: State, before: seq<M.Tid>, t: M.Tid) returns (who: seq<M.Tid>)
    requires s.hasMutex && !s.done && s.mutex.owner == None && s.mutex.depth == 0
    requires locked == s.(mutex := LockIt(s.mutex, t).0) && Run(s, before) == locked.(pcs := s.pcs[t := SecondTest])
    requires forall i :: 0 <= i < |before| ==> before[i] == t
    ensures forall i :: 0 <= i < |who| ==> who[i] == t
    ensures Run(s, who)
         == s.(pcs := s.pcs[t := Returned], done := true, begun := s.begun + 1, ended := s.ended + 1)
  {
    who := Extend(s, before, t);
    assert s.pcs[t := SecondTest][t := Running] == s.pcs[t := Running];
    assert Run(s, who) == locked.(pcs := s.pcs[t := Running], begun := s.begun + 1);
    who := Extend(s, who, t);
    assert s.pcs[t := Running][t := Setting] == s.pcs[t := Setting];
    assert Run(s, who) == locked.(pcs := s.pcs[t := Setting], begun := s.begun + 1, ended := s.ended + 1);
    who := Extend(s, who, t);
    assert s.pcs[t := Setting][t := Unlocking] == s.pcs[t := Unlocking];
    assert Run(s, who)
        == locked.(pcs := s.pcs[t := Unlocking], begun := s.begun + 1, ended := s.ended + 1, done := true);
    who := Extend(s, who, t);
    assert s.pcs[t := Unlocking][t := Returned] == s.pcs[t := Returned];
  }

  /** The control, updated in place. */
  class OnceControl {
    var mutex: Mutex
    var done: bool
    var begun: nat
    var ended: nat
    ghost var pcs: map<M.Tid, Pc>

    ghost function View(): State
      reads this
    {
      State(true, mutex, done, begun, ended, pcs)
    }

    constructor (kind: M.Kind)
      ensures View() == Fresh(true, kind) && Inv(View())
    {
      mutex, done, begun, ended, pcs := Mutex(kind, None, 0), false, 0, 0, map[];
    }

    /** pthread_once, called by t while nobody else is in it. */
    method Call(t: M.Tid) returns (ghost who: seq<M.Tid>)
      requires Inv(View()) && PcOf(View(), t).Outside? && (done || mutex.owner == None)
      modifies this
      ensures View() == Run(old(View()), who) && forall i :: 0 <= i < |who| ==> who[i] == t
      ensures PcOf(View(), t).Returned? && done && begun == 1 && ended == 1
    {
      who := CallAlone(View(), t);
      pcs := pcs[t := Returned];
      if !done {
        mutex := LockIt(mutex, t).0;
        if !done {
          begun := begun + 1;
          ended := ended + 1;
          done := true;
        }
        mutex := UnlockIt(mutex, t).0;
      }
    }
  }
}
