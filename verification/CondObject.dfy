/**
 The condition variable record with its event semaphore, updated in place as
 uthread_cond.c does, together with the mutex record its waits are given; each call
 is tied to the machine of module CondMachine.
 */
module CondObject {
  import opened Prelude
  import M = MutexMachine
  import L = MutexLaws
  import R = MutexRefinement
  import O = MutexObject
  import opened AtomicMutex
  import opened Deadline
  import opened CondMachine
  import opened CondLaws

  /** A mutex record that no thread is in the middle of a call on, with a kernel that
      answers 640 if it is a counting one. */
  ghost predicate AtRest(s: M.State)
  {
    && s.owner == s.holder && s.nest == (if s.holder == None then 0 else 1) && !s.relocked
    && s.count >= 0 && (s.owner == None || s.kind == M.Fast ==> s.count == 0)
    && (s.kind == M.Counting ==> !s.nesting) && s.threads == map[]
  }

  /** What the mutex call of a wait comes to. */
  function FromLock(ret: M.Ret): Result
  {
    if ret == M.Success then Ok else LockError(ret)
  }

  lemma UnlockAtRest(s: M.State, t: M.Tid)
    requires AtRest(s)
    ensures var r := L.Solo(s, t, M.Unlock).(threads := map[]);
            AtRest(r) && r.kind == s.kind && R.Abs(r) == UnlockIt(R.Abs(s), t).0
  {
    L.SoloUnlock(s, t);
  }

  lemma LockAtRest(s: M.State, t: M.Tid)
    requires AtRest(s)
    ensures var lock := L.Solo(s, t, M.Lock);
            var r := lock.(threads := map[]);
            && AtRest(r) && r.kind == s.kind
            && if MayLock(R.Abs(s), t)
               then R.Abs(r) == LockIt(R.Abs(s), t).0 && M.Get(lock, t).pc == M.Idle(LockIt(R.Abs(s), t).1)
               else R.Abs(r) == R.Abs(s) && M.Get(lock, t).pc.At?
  {
    if s.kind == M.Fast { L.SoloLockFast(s, t, M.Lock); } else { L.SoloLockCounting(s, t, M.Lock); }
  }

  class CondVar {
    const mutex: O.Mutex           // the mutex the waits are given
    var onwait: int                // c_onwait
    var latched: bool              // the event's latch
    var sleepers: set<M.Tid>       // threads blocked on the event
    var destroyed: bool
    ghost var pcs: map<M.Tid, WaitPc>
    ghost var posts: nat
    ghost var wakes: nat
    ghost var absorbed: nat

    ghost predicate MutexReady()
      reads mutex, mutex.mutex
    {
      mutex.Valid() && !mutex.destroyed && AtRest(mutex.View())
    }

    ghost function View(): Cond
      requires MutexReady()
      reads this, mutex, mutex.mutex
    {
      Cond(R.Abs(mutex.View()), onwait, latched, sleepers, pcs, posts, wakes, absorbed)
    }

    ghost predicate Valid()
      reads this, mutex, mutex.mutex
    {
      MutexReady() && Inv(View())
    }

    /** pthread_cond_init; kind is that of the mutex. */
    constructor (kind: M.Kind)
      ensures Valid() && View() == Fresh(kind) && !destroyed
    {
      mutex := new O.Mutex(kind, false);
      onwait, latched, sleepers, destroyed := 0, false, {}, false;
      pcs, posts, wakes, absorbed := map[], 0, 0, 0;
      new;
      RunKeepsInv(kind, []);
    }

    /** DosPostEventSem; picked is the waiter released, if there was one. */
    method PostEvent() returns (ghost picked: M.Tid)
      requires Valid()
      modifies this
      ensures Valid() && destroyed == old(destroyed)
      ensures old(sleepers) == {} || picked in old(sleepers)
      ensures View() == Post(old(View()), picked)
    {
      ghost var s := View();
      picked := 0;
      if sleepers != {} {
        var u :| u in sleepers;
        picked := u;
        PostCases(s, u);
        sleepers := sleepers - {u};
        pcs, wakes := pcs[u := Woken(pcs[u].w)], wakes + 1;
      } else {
        PostCases(s, 0);
        if latched {
          absorbed := absorbed + 1;
        } else {
          latched := true;
        }
      }
      posts := posts + 1;
      assert View() == Post(s, picked);
    }

    /** pthread_cond_signal. */
    method Signal() returns (ghost picked: M.Tid)
      requires Valid() && !destroyed
      modifies this
      ensures Valid() && !destroyed
      ensures old(sleepers) == {} || picked in old(sleepers)
      ensures View() == Post(old(View()), picked)
    {
      picked := PostEvent();
    }

    /** pthread_cond_broadcast. */
    method Broadcast() returns (ghost q: seq<M.Tid>)
      requires Valid() && !destroyed
      modifies this
      ensures Valid() && !destroyed
      ensures |q| == old(onwait) && Choices(old(View()), q) && View() == PostAll(old(View()), q)
      ensures sleepers == {}
    {
      ghost var s0 := View();
      q := [];
      var i := onwait;
      while i != 0
        invariant Valid() && !destroyed && 0 <= i && |q| + i == s0.onwait
        invariant Choices(s0, q) && View() == PostAll(s0, q)
      {
        i := i - 1;
        q := PostAgain(s0, q);
      }
      BroadcastWakesEverySleeper(old(View()), q);
    }

    /** One more post of a series that has come from s0. */
    method PostAgain(ghost s0: Cond, ghost q: seq<M.Tid>) returns (ghost q': seq<M.Tid>)
      requires Valid() && Inv(s0) && Choices(s0, q) && View() == PostAll(s0, q)
      modifies this
      ensures Valid() && destroyed == old(destroyed)
      ensures |q'| == |q| + 1 && Choices(s0, q') && View() == PostAll(s0, q')
      ensures |sleepers| == if old(sleepers) == {} then 0 else |old(sleepers)| - 1
    {
      ghost var picked := PostEvent();
      OneMorePost(s0, q, picked);
      q' := q + [picked];
    }

    /** pthread_cond_destroy: posts until nobody is blocked on the event any more,
        then closes it. */
    method Destroy() returns (ghost q: seq<M.Tid>)
      requires Valid() && !destroyed
      modifies this
      ensures Valid() && destroyed && sleepers == {}
      ensures |q| == |old(sleepers)| && Choices(old(View()), q) && View() == PostAll(old(View()), q)
    {
      ghost var s0 := View();
      q := [];
      var busy := sleepers != {};            // DosCloseEventSem returns 301
      if busy {
        q := PostAgain(s0, q);
      }
      while busy
        invariant Valid() && !destroyed && |q| + |sleepers| == |s0.sleepers|
        invariant Choices(s0, q) && View() == PostAll(s0, q)
        invariant !busy ==> sleepers == {}
        decreases busy, |sleepers|
      {
        busy := sleepers != {};
        if busy {
          q := PostAgain(s0, q);
        }
      }
      destroyed := true;
    }

    /** The start of a wait: count the caller in and give up the mutex. */
    method Enter(t: M.Tid, timed: bool, hasMutex: bool)
      requires Valid() && PcOf(View(), t).Out?
      modifies this, mutex, mutex.mutex
      ensures Valid() && destroyed == old(destroyed) && latched == old(latched)
      ensures View() == Advance(Apply(old(View()), Begin(t, timed, hasMutex)), t)
      ensures PcOf(View(), t) == Unlocked(Waiter(timed, hasMutex, Owned(old(View()).mutex, t)))
    {
      StepKeepsInv(View(), Begin(t, timed, hasMutex));
      StepKeepsInv(Apply(View(), Begin(t, timed, hasMutex)), Go(t));
      UnlockAtRest(mutex.View(), t);
      ghost var w := Waiter(timed, hasMutex, Owned(View().mutex, t));
      onwait := onwait + 1;
      if hasMutex {
        var _ := mutex.Unlock(t);
      }
      ghost var pcs0 := pcs;
      pcs := pcs0[t := Entered(w)][t := Unlocked(w)];
    }

    /** DosWaitEventSem: 0, a timeout, or None while the caller is blocked. */
    method AwaitEvent(t: M.Tid, timed: bool, timeout: nat) returns (rc: Option<Result>)
      requires Valid() && PcOf(View(), t).Unlocked? && PcOf(View(), t).w.timed == timed
      modifies this
      ensures Valid() && destroyed == old(destroyed)
      ensures View() == Apply(old(View()), if !old(latched) && timed && timeout == 0 then Fail(t) else Go(t))
      ensures match PcOf(View(), t)
              case Woken(_) => rc == Some(Ok)
              case Leaving(_, ret) => rc == Some(ret)
              case Asleep(_) => rc == None
              case _ => false
    {
      StepKeepsInv(View(), Go(t));
      StepKeepsInv(View(), Fail(t));
      ghost var w := PcOf(View(), t).w;
      if latched {
        latched, wakes := false, wakes + 1;
        pcs := pcs[t := Woken(w)];
        rc := Some(Ok);
      } else if timed && timeout == 0 {
        sleepers := sleepers - {t};
        pcs := pcs[t := Leaving(w, Etime)];
        rc := Some(Etime);
      } else {
        sleepers := sleepers + {t};
        pcs := pcs[t := Asleep(w)];
        rc := None;
      }
    }

    /** The way back to the mutex: None while the caller is blocked on it. */
    method Relock(t: M.Tid, hasMutex: bool) returns (rc: Option<Result>)
      requires Valid() && PcOf(View(), t).Woken? && PcOf(View(), t).w.hasMutex == hasMutex
      modifies this, mutex, mutex.mutex
      ensures Valid() && destroyed == old(destroyed)
      ensures View() == Advance(old(View()), t)
      ensures match PcOf(View(), t)
              case Leaving(_, ret) => rc == Some(ret)
              case Woken(_) => rc == None
              case _ => false
    {
      StepKeepsInv(View(), Go(t));
      ghost var w := PcOf(View(), t).w;
      LockAtRest(mutex.View(), t);
      if !hasMutex {
        rc := Some(Ok);
      } else {
        var ret := mutex.Lock(t);
        match ret {
          case None => return None;
          case Some(r) => rc := Some(FromLock(r));
        }
      }
      pcs := pcs[t := Leaving(w, rc.value)];
    }

    /** The wait of thread t, alone, as far as it gets: None while it is blocked on the
        event or on the mutex. pthread_cond_wait, and pthread_cond_timedwait if timed;
        timeout is the number of milliseconds to wait for the event. */
    method Wait(t: M.Tid, timed: bool, hasMutex: bool, timeout: nat) returns (ret: Option<Result>)
      requires Valid() && !destroyed && PcOf(View(), t).Out?
      modifies this, mutex, mutex.mutex
      ensures Valid() && !destroyed
      ensures View() == Run(old(View()), WaitSteps(t, timed, hasMutex, !old(latched) && timed && timeout == 0))
      ensures ret == if PcOf(View(), t).Out? then Some(PcOf(View(), t).last) else None
      ensures ret == Some(Etime) <==> !old(latched) && timed && timeout == 0
    {
      WaitStepsUnrolled(View(), t, timed, hasMutex, !latched && timed && timeout == 0);
      Enter(t, timed, hasMutex);
      var rc := AwaitEvent(t, timed, timeout);
      ret := ComeBack(t, hasMutex, rc);
    }

    /** A wait from the end of its wait for the event, which gave rc. */
    method ComeBack(t: M.Tid, hasMutex: bool, rc: Option<Result>) returns (ret: Option<Result>)
      requires Valid()
      requires match PcOf(View(), t)
               case Woken(w) => rc == Some(Ok) && w.hasMutex == hasMutex
               case Leaving(_, r) => rc == Some(r) && r != Ok
               case Asleep(_) => rc == None
               case _ => false
      modifies this, mutex, mutex.mutex
      ensures Valid() && destroyed == old(destroyed)
      ensures View() == Advance(Advance(old(View()), t), t)
      ensures ret == if PcOf(View(), t).Out? then Some(PcOf(View(), t).last) else None
      ensures ret == Some(Etime) <==> rc == Some(Etime)
    {
      ret := rc;
      if ret == Some(Ok) {
        ret := Relock(t, hasMutex);
      } else if ret == None {
        return;
      }
      if ret != None {
        Leave(t, ret.value);
      }
    }

    /** pthread_cond_timedwait, with a deadline or without: alone and with no post latched
        it comes back with ETIME at once, whatever the true gap, exactly when there is no
        deadline or its timeout reads as past; otherwise the caller blocks. */
    method TimedWait(t: M.Tid, hasMutex: bool, hasDeadline: bool, deadline: Timespec, now: Timeval)
      returns (ret: Option<Result>)
      requires Valid() && !destroyed && PcOf(View(), t).Out? && (hasDeadline ==> Longs(deadline, now))
      modifies this, mutex, mutex.mutex
      ensures Valid() && !destroyed
      ensures var expires := !old(latched) && (!hasDeadline || ReadsAsPast(RawTimeout(deadline, now)));
              && View() == Run(old(View()), WaitSteps(t, true, hasMutex, expires))
              && (ret == Some(Etime) <==> expires)
    {
      var timeout := TimeoutFor(hasDeadline, deadline, now);
      ret := Wait(t, true, hasMutex, timeout);
    }

    /** The end of a wait: count the caller out. */
    method Leave(t: M.Tid, rc: Result)
      requires Valid() && PcOf(View(), t).Leaving? && PcOf(View(), t).ret == rc
      modifies this
      ensures Valid() && destroyed == old(destroyed)
      ensures View() == Advance(old(View()), t) && PcOf(View(), t) == Out(rc)
    {
      StepKeepsInv(View(), Go(t));
      onwait := onwait - 1;
      pcs := pcs[t := Out(rc)];
    }
  }

  /** The micro-steps of a wait that nobody interferes with. */
  function WaitSteps(t: M.Tid, timed: bool, hasMutex: bool, expires: bool): seq<Step>
  {
    [Begin(t, timed, hasMutex), Go(t), if expires then Fail(t) else Go(t), Go(t), Go(t)]
  }

  lemma WaitStepsUnrolled(s: Cond, t: M.Tid, timed: bool, hasMutex: bool, expires: bool)
    requires Inv(s)
    ensures var s3 := Apply(Apply(Apply(s, Begin(t, timed, hasMutex)), Go(t)), if expires then Fail(t) else Go(t));
            var r := Run(s, WaitSteps(t, timed, hasMutex, expires));
            r == Apply(Apply(s3, Go(t)), Go(t)) && Inv(r)
  {
    var q := WaitSteps(t, timed, hasMutex, expires);
    var s1 := Apply(s, q[0]);
    var s2 := Apply(s1, q[1]);
    var s3 := Apply(s2, q[2]);
    var s4 := Apply(s3, q[3]);
    StepKeepsInv(s, q[0]);
    StepKeepsInv(s1, q[1]);
    StepKeepsInv(s2, q[2]);
    StepKeepsInv(s3, q[3]);
    StepKeepsInv(s4, q[4]);
    assert q == [q[0]] + [q[1]] + [q[2]] + [q[3]] + [q[4]];
    RunAppend(s, [], q[0]);
    assert [] + [q[0]] == [q[0]];
    RunAppend(s, [q[0]], q[1]);
    RunAppend(s, [q[0]] + [q[1]], q[2]);
    RunAppend(s, [q[0]] + [q[1]] + [q[2]], q[3]);
    RunAppend(s, [q[0]] + [q[1]] + [q[2]] + [q[3]], q[4]);
  }

  lemma PostCases(s: Cond, u: M.Tid)
    requires Inv(s) && (s.sleepers == {} || u in s.sleepers)
    ensures Inv(Post(s, u))
    ensures u in s.sleepers ==> u in s.pcs && s.pcs[u].Asleep?
  {
    PostKeepsInv(s, u);
  }

  lemma OneMorePost(s0: Cond, q: seq<M.Tid>, u: M.Tid)
    requires Inv(s0) && Choices(s0, q)
    requires var v := PostAll(s0, q); v.sleepers == {} || u in v.sleepers
    ensures Choices(s0, q + [u]) && PostAll(s0, q + [u]) == Post(PostAll(s0, q), u)
    ensures |PostAll(s0, q + [u]).sleepers|
         == if PostAll(s0, q).sleepers == {} then 0 else |PostAll(s0, q).sleepers| - 1
  {
    ChoicesExtend(s0, q, u);
    PostAllEffect(s0, q);
    PostAllEffect(s0, q + [u]);
  }

  lemma ChoicesExtend(s: Cond, q: seq<M.Tid>, u: M.Tid)
    requires Choices(s, q) && (PostAll(s, q).sleepers == {} || u in PostAll(s, q).sleepers)
    ensures Choices(s, q + [u]) && PostAll(s, q + [u]) == Post(PostAll(s, q), u)
  {
    var q' := q + [u];
    assert q'[..|q|] == q;
    forall i | 0 <= i < |q'| ensures var m := PostAll(s, q'[..i]); m.sleepers == {} || q'[i] in m.sleepers {
      assert i < |q| ==> q'[..i] == q[..i];
    }
  }
}
