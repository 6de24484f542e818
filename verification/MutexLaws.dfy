/** What every interleaving of mutex micro-steps keeps. */
module MutexLaws {
  import opened Prelude
  import opened MutexMachine

  /** The semaphore is held but m_owner does not name the holder yet, or no longer. */
  predicate WindowPoint(p: Point)
  {
    p.SetOwner? || p.ResetCount? || p.Release?
  }

  /** Points reached only by the thread m_owner names. */
  predicate OwnerPoint(p: Point)
  {
    p.Count? || p.ResetCount? || p.CountTest? || p.Decrement? || p.ClearOwner?
  }

  predicate UnlockPoint(p: Point)
  {
    p.NullTest? || p.OwnerTest? || p.CountTest? || p.Decrement? || p.ClearOwner? || p.Release?
  }

  predicate InWindow(s: State, t: Tid)
  {
    Get(s, t).pc.At? && WindowPoint(Get(s, t).pc.point)
  }

  /** What being at a point says about the mutex. */
  ghost predicate PointInv(s: State, t: Tid, op: Op, p: Point)
  {
    && (WindowPoint(p) ==> s.holder == Some(t))
    && (OwnerPoint(p) ==> s.owner == Some(t))
    && (p.Release? ==> s.owner == None)
    && (p.Wait? || (p.Request? && s.kind == Fast) || (p.Check? && s.nesting) ==> s.owner != Some(t))
    && (p.Count? ==> !s.nesting)
    && (p.Check? || p.Count? || p.Wait? || p.ResetCount? || p.CountTest? || p.Decrement? ==> s.kind == Counting)
    && (p.Decrement? ==> s.count != 0)
    && (p.ClearOwner? && s.kind == Counting ==> s.count == 0)
    && (op == Unlock <==> UnlockPoint(p))
  }

  /** What the history of t says about the mutex. */
  ghost predicate DepthInv(s: State, t: Tid, depth: int, inWindow: bool)
  {
    && (s.holder != Some(t) ==> depth == 0)
    && (s.holder == Some(t) && (s.nesting || s.kind == Fast) ==> s.nest == depth + if inWindow then 1 else 0)
    && (s.holder == Some(t) && !s.relocked ==>
          if inWindow then depth == 0
          else s.owner == Some(t) && depth == if s.kind == Fast then 1 else s.count + 1)
    && (s.holder == Some(t) && s.relocked ==> s.nest >= if s.owner == Some(t) || inWindow then 2 else 1)
  }

  ghost predicate ThreadInv(s: State, t: Tid)
  {
    var th := Get(s, t);
    (th.pc.At? ==> PointInv(s, t, th.pc.op, th.pc.point)) && DepthInv(s, t, th.depth, InWindow(s, t))
  }

  /** What relates m_owner, the semaphore and the history. */
  ghost predicate Shared(s: State)
  {
    && (s.nest == 0 <==> s.holder == None)
    && (s.owner.Some? ==> s.holder == s.owner)
    && (s.relocked ==> s.nesting && s.kind == Counting && s.holder.Some?)
    && (!s.relocked ==> s.nest <= 1)
    && s.count >= 0
    && (s.nesting || s.kind == Fast ==> s.count == 0)
  }

  ghost predicate Inv(s: State)
  {
    Shared(s) && forall t :: ThreadInv(s, t)
  }

  /** A step of u moves the semaphore only into or out of u's hands, and touches the
      other fields only while u has it. */
  ghost predicate OwnMove(s: State, s': State, u: Tid)
  {
    && s'.kind == s.kind && s'.nesting == s.nesting
    && (s'.holder != s.holder ==>
          (s.holder == None && s'.holder == Some(u)) || (s.holder == Some(u) && s'.holder == None))
    && (s.holder != Some(u) ==> s'.owner == s.owner && s'.count == s.count && s'.relocked == s.relocked)
    && (s.holder != Some(u) && s'.holder != Some(u) ==> s'.nest == s.nest)
    && (s'.owner == s.owner || s'.owner == None || s'.owner == Some(u))
    && forall t :: t != u ==> Get(s', t) == Get(s, t)
  }

  lemma LockIsOwnMove(s: State, t: Tid, error: bool)
    requires Inv(s) && Enabled(s, t) && Get(s, t).pc.op != Unlock
    ensures OwnMove(s, Next(s, t, error), t)
  {
    assert ThreadInv(s, t);
  }

  lemma UnlockIsOwnMove(s: State, t: Tid, error: bool)
    requires Inv(s) && Enabled(s, t) && Get(s, t).pc.op == Unlock
    ensures OwnMove(s, Next(s, t, error), t)
  {
    assert ThreadInv(s, t);
  }

  lemma StepIsOwnMove(s: State, step: Step)
    requires Inv(s)
    ensures OwnMove(s, Apply(s, step), step.t)
  {
    if step.Go? && Enabled(s, step.t) {
      if Get(s, step.t).pc.op == Unlock { UnlockIsOwnMove(s, step.t, step.error); }
      else { LockIsOwnMove(s, step.t, step.error); }
    }
  }

  lemma OwnMoveKeepsOthers(s: State, s': State, u: Tid, t: Tid)
    requires Inv(s) && t != u && OwnMove(s, s', u)
    ensures ThreadInv(s', t)
  {
    assert ThreadInv(s, t) && ThreadInv(s, u);
  }

  lemma RequestKeepsInv(s: State, t: Tid, error: bool)
    requires Inv(s) && Enabled(s, t) && (Get(s, t).pc.point.Request? || Get(s, t).pc.point.Wait?)
    ensures Shared(Next(s, t, error)) && ThreadInv(Next(s, t, error), t)
  {
    assert ThreadInv(s, t);
  }

  lemma LockKeepsShared(s: State, t: Tid, error: bool)
    requires Inv(s) && Enabled(s, t) && Get(s, t).pc.op != Unlock
    requires !Get(s, t).pc.point.Request? && !Get(s, t).pc.point.Wait?
    ensures Shared(Next(s, t, error))
  {
    assert ThreadInv(s, t);
  }

  lemma TestKeepsInv(s: State, t: Tid, error: bool)
    requires Inv(s) && Enabled(s, t) && Get(s, t).pc.op != Unlock
    requires Get(s, t).pc.point.Test? || Get(s, t).pc.point.Check?
    ensures ThreadInv(Next(s, t, error), t)
  {
    assert ThreadInv(s, t);
  }

  lemma LockKeepsInv(s: State, t: Tid, error: bool)
    requires Inv(s) && Enabled(s, t) && Get(s, t).pc.op != Unlock
    requires !Get(s, t).pc.point.Request? && !Get(s, t).pc.point.Wait?
    ensures ThreadInv(Next(s, t, error), t)
  {
    assert ThreadInv(s, t);
    if Get(s, t).pc.point.Test? || Get(s, t).pc.point.Check? { TestKeepsInv(s, t, error); }
  }

  lemma UnlockKeepsShared(s: State, t: Tid, error: bool)
    requires Inv(s) && Enabled(s, t) && Get(s, t).pc.op == Unlock
    ensures Shared(Next(s, t, error))
  {
    assert ThreadInv(s, t);
  }

  lemma UnlockKeepsInv(s: State, t: Tid, error: bool)
    requires Inv(s) && Enabled(s, t) && Get(s, t).pc.op == Unlock
    ensures ThreadInv(Next(s, t, error), t)
  {
    assert ThreadInv(s, t);
  }

  lemma StepKeepsInv(s: State, step: Step)
    requires Inv(s)
    ensures Inv(Apply(s, step))
  {
    var s' := Apply(s, step);
    assert ThreadInv(s, step.t);
    if step.Go? && Enabled(s, step.t) {
      var point := Get(s, step.t).pc.point;
      if point.Request? || point.Wait? { RequestKeepsInv(s, step.t, step.error); }
      else if Get(s, step.t).pc.op == Unlock {
        UnlockKeepsShared(s, step.t, step.error);
        UnlockKeepsInv(s, step.t, step.error);
      } else {
        LockKeepsShared(s, step.t, step.error);
        LockKeepsInv(s, step.t, step.error);
      }
    }
    StepIsOwnMove(s, step);
    forall t ensures ThreadInv(s', t) {
      if t != step.t { OwnMoveKeepsOthers(s, s', step.t, t); }
    }
  }

  /** Any number of threads, any interleaving of micro-steps. */
  lemma {:induction false} RunKeepsInv(kind: Kind, nesting: bool, steps: seq<Step>)
    ensures var s := Run(Init(kind, nesting), steps);
            Inv(s) && s.kind == kind && s.nesting == nesting
  {
    if steps != [] {
      RunKeepsInv(kind, nesting, steps[..|steps| - 1]);
      var s := Run(Init(kind, nesting), steps[..|steps| - 1]);
      StepKeepsInv(s, steps[|steps| - 1]);
      StepIsOwnMove(s, steps[|steps| - 1]);
    }
  }

  // ----------------------------------------------------------------- exclusion

  /** Under both readings of the kernel and for both kinds: m_owner names only a
      thread that has the semaphore, a free semaphore has no owner recorded, at most
      one thread has more successful locks than unlocks, and while any thread does
      no other can pass a kernel request. */
  lemma MutualExclusion(kind: Kind, nesting: bool, steps: seq<Step>, t: Tid, u: Tid)
    ensures var s := Run(Init(kind, nesting), steps);
            && (s.owner == Some(t) ==> s.holder == Some(t))
            && (s.holder == None ==> s.owner == None && Get(s, t).depth == 0)
            && (Get(s, t).depth != 0 ==> s.holder == Some(t))
            && (Get(s, t).depth != 0 && t != u ==> Get(s, u).depth == 0 && !CanAcquire(s, u))
  {
    RunKeepsInv(kind, nesting, steps);
    var s := Run(Init(kind, nesting), steps);
    assert ThreadInv(s, t) && ThreadInv(s, u);
  }

  /** The fast mutex never nests the semaphore, and a thread has it at most once. */
  lemma FastMutexNeverNests(nesting: bool, steps: seq<Step>, t: Tid)
    ensures var s := Run(Init(Fast, nesting), steps);
            && s.nest <= 1 && !s.relocked
            && 0 <= Get(s, t).depth <= 1
            && (Get(s, t).depth == 1 ==> s.owner == Some(t))
  {
    RunKeepsInv(Fast, nesting, steps);
    assert ThreadInv(Run(Init(Fast, nesting), steps), t);
  }

  /** An unlock by a thread m_owner does not name: the steps of others leave it in
      that position, its own steps change nothing but its pc, and it ends in an
      error. */
  lemma NonOwnerUnlockChangesNothing(s: State, t: Tid, step: Step)
    requires Inv(s) && s.owner != Some(t)
    requires Get(s, t).pc == At(Unlock, NullTest) || Get(s, t).pc == At(Unlock, OwnerTest)
    ensures var s' := Apply(s, step);
            if step.t == t then
              && s' == s.(threads := s'.threads)
              && Get(s', t).depth == Get(s, t).depth
              && Get(s', t).pc in {Get(s, t).pc, At(Unlock, OwnerTest), Idle(EPERM), Idle(NotOwner)}
            else
              Get(s', t) == Get(s, t) && s'.owner != Some(t)
  {
    StepIsOwnMove(s, step);
    StepKeepsInv(s, step);
    assert ThreadInv(s, step.t) && ThreadInv(s, t);
  }

  // --------------------------------------------------------- depth of a counting mutex

  /** While the kernel has not nested a request (never, if it answers 640): the
      owner's depth is m_count + 1, and the semaphore is free exactly when nobody has
      an acquisition left and nobody is in a window. */
  lemma DepthIsCountPlusOne(nesting: bool, steps: seq<Step>, t: Tid)
    ensures var s := Run(Init(Counting, nesting), steps);
            && (!nesting ==> !s.relocked)
            && (!s.relocked ==>
                  && (s.owner == Some(t) && !InWindow(s, t) ==> Get(s, t).depth == s.count + 1)
                  && (Get(s, t).depth != 0 ==> s.owner == Some(t) && Get(s, t).depth == s.count + 1)
                  && (s.holder == Some(t) ==> Get(s, t).depth > 0 || InWindow(s, t)))
  {
    RunKeepsInv(Counting, nesting, steps);
    assert ThreadInv(Run(Init(Counting, nesting), steps), t);
  }

  /** t runs alone for up to n micro-steps, until its call returns or blocks. */
  function Drive(s: State, t: Tid, n: nat): State
    decreases n
  {
    if n == 0 || !Enabled(s, t) then s else Drive(Next(s, t, false), t, n - 1)
  }

  /** No call has more than five micro-steps. */
  const LONGEST_CALL: nat := 5

  function Solo(s: State, t: Tid, op: Op): State
  {
    Drive(Apply(s, Call(t, op)), t, LONGEST_CALL)
  }

  /** A lock or trylock whose kernel request fails comes back with an error, in any
      interleaving: EINVAL, or -1 from a trylock on a fast mutex. It leaves the mutex, and
      what the caller has of it, as they were. */
  lemma FailedRequestChangesNothing(s: State, t: Tid)
    requires Get(s, t).pc.At? && (Get(s, t).pc.point == Request || Get(s, t).pc.point == Wait) && Enabled(s, t)
    ensures var r := Apply(s, Go(t, true));
            && Get(r, t).depth == Get(s, t).depth
            && Get(r, t).pc == Idle(if s.kind == Fast && Get(s, t).pc == At(TryLock, Request) then Busy else EINVAL)
            && (forall u :: u != t ==> Get(r, u) == Get(s, u))
            && r == s.(threads := r.threads)
  {
  }

  lemma GotoTwice(s: State, t: Tid, pc: Pc)
    ensures forall pc' :: Goto(Goto(s, t, pc), t, pc') == Goto(s, t, pc')
    ensures forall r, d :: Return(Goto(s, t, pc), t, r, d) == Return(s, t, r, d)
  {
    forall pc' ensures Goto(Goto(s, t, pc), t, pc') == Goto(s, t, pc') {
      assert Goto(Goto(s, t, pc), t, pc').threads == Goto(s, t, pc').threads;
    }
    forall r, d ensures Return(Goto(s, t, pc), t, r, d) == Return(s, t, r, d) {
      assert Return(Goto(s, t, pc), t, r, d).threads == Return(s, t, r, d).threads;
    }
  }

  function Freed(s: State, t: Tid): State
  {
    if s.holder == Some(t) && s.nest > 0
    then s.(owner := None, nest := s.nest - 1, holder := if s.nest == 1 then None else s.holder)
    else s.(owner := None)
  }

  /** The last two micro-steps of an unlock. */
  lemma ReleaseTail(s: State, t: Tid, n: nat)
    requires n >= 2
    ensures Drive(Goto(s, t, At(Unlock, ClearOwner)), t, n) == Return(Freed(s, t), t, Success, -1)
  {
    var s1 := Goto(s, t, At(Unlock, ClearOwner));
    var s2 := Next(s1, t, false);
    assert Get(s2, t) == Thread(At(Unlock, Release), Get(s, t).depth - 1);
    var s3 := Next(s2, t, false);
    assert s3.threads == Return(Freed(s, t), t, Success, -1).threads;
    assert s3 == Return(Freed(s, t), t, Success, -1);
    assert Drive(s2, t, n - 1) == Drive(s3, t, n - 2) == s3;
  }

  /** What a lone unlock does. */
  lemma SoloUnlock(s: State, t: Tid)
    requires Get(s, t).pc.Idle?
    ensures Solo(s, t, Unlock) ==
            if s.owner == None then Return(s, t, EPERM, 0)
            else if s.owner != Some(t) then Return(s, t, NotOwner, 0)
            else if s.kind == Counting && s.count != 0 then Return(s.(count := s.count - 1), t, Success, -1)
            else Return(Freed(s, t), t, Success, -1)
  {
    var s0 := Goto(s, t, At(Unlock, NullTest));
    GotoTwice(s, t, At(Unlock, NullTest));
    var s1 := Next(s0, t, false);
    assert Drive(s0, t, 5) == Drive(s1, t, 4);
    if s.owner.Some? {
      assert s1 == Goto(s, t, At(Unlock, OwnerTest));
      GotoTwice(s, t, At(Unlock, OwnerTest));
      var s2 := Next(s1, t, false);
      assert Drive(s1, t, 4) == Drive(s2, t, 3);
      if s.owner == Some(t) {
        if s.kind == Counting {
          assert s2 == Goto(s, t, At(Unlock, CountTest));
          GotoTwice(s, t, At(Unlock, CountTest));
          SoloUnlockCounting(s, t);
        } else {
          assert s2 == Goto(s, t, At(Unlock, ClearOwner));
          ReleaseTail(s, t, 3);
        }
      }
    }
  }

  lemma SoloUnlockCounting(s: State, t: Tid)
    requires s.kind == Counting
    ensures Drive(Goto(s, t, At(Unlock, CountTest)), t, 3) ==
            if s.count != 0 then Return(s.(count := s.count - 1), t, Success, -1)
            else Return(Freed(s, t), t, Success, -1)
  {
    GotoTwice(s, t, At(Unlock, CountTest));
    var s1 := Goto(s, t, At(Unlock, CountTest));
    var s2 := Next(s1, t, false);
    assert Drive(s1, t, 3) == Drive(s2, t, 2);
    if s.count == 0 {
      ReleaseTail(s, t, 2);
    } else {
      assert s2 == Goto(s, t, At(Unlock, Decrement));
      var s3 := Next(s2, t, false);
      assert s3.threads == Return(s, t, Success, -1).threads;
      assert Drive(s2, t, 2) == Drive(s3, t, 1) == s3;
    }
  }

  /** The semaphore granted, m_owner set and the count reset. */
  function Taken(s: State, t: Tid): State
  {
    Acquire(s, t).(owner := Some(t), count := if s.kind == Counting then 0 else s.count)
  }

  /** The micro-steps after a granted request. */
  lemma AcquireTail(s: State, t: Tid, op: Op, n: nat)
    requires n >= 2
    ensures Drive(Goto(Acquire(s, t), t, At(op, SetOwner)), t, n) == Return(Taken(s, t), t, Success, 1)
  {
    var a := Acquire(s, t);
    GotoTwice(a, t, At(op, SetOwner));
    var s1 := Goto(a, t, At(op, SetOwner));
    var s2 := Next(s1, t, false);
    assert Drive(s1, t, n) == Drive(s2, t, n - 1);
    if s.kind == Counting {
      var b := a.(owner := Some(t));
      assert s2 == Goto(b, t, At(op, ResetCount));
      GotoTwice(b, t, At(op, ResetCount));
      var s3 := Next(s2, t, false);
      assert s3.threads == Return(Taken(s, t), t, Success, 1).threads;
      assert Drive(s2, t, n - 1) == Drive(s3, t, n - 2) == s3;
    } else {
      assert s2.threads == Return(Taken(s, t), t, Success, 1).threads;
    }
  }

  /** What a lone lock or trylock of a fast mutex does. */
  lemma SoloLockFast(s: State, t: Tid, op: Op)
    requires Get(s, t).pc.Idle? && s.kind == Fast && op != Unlock
    ensures Solo(s, t, op) ==
            if s.owner == Some(t) then Return(s, t, if op == Lock then EDEADLK else EBUSY, 0)
            else if CanAcquire(s, t) then Return(Taken(s, t), t, Success, 1)
            else if op == TryLock then Return(s, t, Busy, 0)
            else Goto(s, t, At(Lock, Request))
  {
    GotoTwice(s, t, At(op, Test));
    var s0 := Goto(s, t, At(op, Test));
    var s1 := Next(s0, t, false);
    assert Drive(s0, t, 5) == Drive(s1, t, 4);
    if s.owner != Some(t) {
      assert s1 == Goto(s, t, At(op, Request));
      GotoTwice(s, t, At(op, Request));
      if CanAcquire(s, t) {
        var s2 := Next(s1, t, false);
        assert Acquire(s1, t) == Goto(Acquire(s, t), t, At(op, Request));
        GotoTwice(Acquire(s, t), t, At(op, Request));
        assert Drive(s1, t, 4) == Drive(s2, t, 3);
        AcquireTail(s, t, op, 3);
      } else if op == TryLock {
        var s2 := Next(s1, t, false);
        assert Drive(s1, t, 4) == Drive(s2, t, 3) == s2;
      }
    }
  }

  /** What a lone lock or trylock of a counting mutex does. */
  lemma SoloLockCounting(s: State, t: Tid, op: Op)
    requires Get(s, t).pc.Idle? && s.kind == Counting && op != Unlock
    ensures Solo(s, t, op) ==
            if CanAcquire(s, t) then Return(Taken(s, t), t, Success, 1)
            else if s.owner == Some(t) then Return(s.(count := s.count + 1), t, Success, 1)
            else if op == TryLock then Return(s, t, Busy, 0)
            else Goto(s, t, At(Lock, Wait))
  {
    GotoTwice(s, t, At(op, Request));
    var s0 := Goto(s, t, At(op, Request));
    var s1 := Next(s0, t, false);
    assert Drive(s0, t, 5) == Drive(s1, t, 4);
    if CanAcquire(s, t) {
      assert Acquire(s0, t) == Goto(Acquire(s, t), t, At(op, Request));
      GotoTwice(Acquire(s, t), t, At(op, Request));
      AcquireTail(s, t, op, 4);
    } else {
      assert s1 == Goto(s, t, At(op, Check));
      CheckTail(s, t, op);
    }
  }

  /** The micro-steps after a request that was answered 640. */
  lemma CheckTail(s: State, t: Tid, op: Op)
    requires s.kind == Counting && op != Unlock && !CanAcquire(s, t)
    ensures Drive(Goto(s, t, At(op, Check)), t, 4) ==
            if s.owner == Some(t) then Return(s.(count := s.count + 1), t, Success, 1)
            else if op == TryLock then Return(s, t, Busy, 0)
            else Goto(s, t, At(Lock, Wait))
  {
    GotoTwice(s, t, At(op, Check));
    var s1 := Goto(s, t, At(op, Check));
    var s2 := Next(s1, t, false);
    assert Drive(s1, t, 4) == Drive(s2, t, 3);
    if s.owner == Some(t) {
      assert s2 == Goto(s, t, At(op, Count));
      GotoTwice(s, t, At(op, Count));
      var s3 := Next(s2, t, false);
      assert s3.threads == Return(s, t, Success, 1).threads;
      assert Drive(s2, t, 3) == Drive(s3, t, 2) == s3;
    }
  }

  lemma {:induction false} DriveKeepsInv(s: State, t: Tid, n: nat)
    requires Inv(s)
    ensures Inv(Drive(s, t, n))
    decreases n
  {
    if n > 0 && Enabled(s, t) {
      StepKeepsInv(s, Go(t, false));
      DriveKeepsInv(Next(s, t, false), t, n - 1);
    }
  }

  /** A lone unlock by the owner takes off exactly one acquisition; the last one
      frees the semaphore. */
  lemma UnlockTakesOneOff(s: State, t: Tid)
    requires Inv(s) && !s.relocked && Get(s, t).pc.Idle? && s.owner == Some(t)
    ensures var s' := Solo(s, t, Unlock);
            && Get(s', t) == Thread(Idle(Success), Get(s, t).depth - 1)
            && (Get(s', t).depth > 0 ==> s'.owner == Some(t) && s'.holder == Some(t))
            && (Get(s', t).depth == 0 ==> s'.owner == None && s'.holder == None)
            && !s'.relocked && Inv(s')
  {
    assert ThreadInv(s, t);
    SoloUnlock(s, t);
    StepKeepsInv(s, Call(t, Unlock));
    DriveKeepsInv(Apply(s, Call(t, Unlock)), t, LONGEST_CALL);
  }

  function Unlocks(s: State, t: Tid, n: nat): State
    decreases n
  {
    if n == 0 then s else Unlocks(Solo(s, t, Unlock), t, n - 1)
  }

  /** n successful locks need exactly n unlocks before another thread can acquire:
      after fewer the semaphore is still held, after n it is free. */
  lemma {:induction false} NUnlocksFree(s: State, t: Tid, n: nat)
    requires Inv(s) && !s.relocked && Get(s, t).pc.Idle? && s.owner == Some(t)
    requires n <= Get(s, t).depth
    ensures var s' := Unlocks(s, t, n);
            if n < Get(s, t).depth then s'.holder == Some(t) else s'.holder == None
    decreases n
  {
    assert ThreadInv(s, t);
    if n > 0 {
      UnlockTakesOneOff(s, t);
      if n < Get(s, t).depth || n > 1 {
        NUnlocksFree(Solo(s, t, Unlock), t, n - 1);
      }
    }
  }

  // ------------------------------------------------- the nesting kernel: a leak

  /** Once a nesting kernel has granted a request by the holder of a counting mutex,
      the semaphore stays with that thread in every continuation: no run of unlocks
      frees it, and no other thread ever acquires. */
  lemma {:induction false} RelockLeaksForever(before: seq<Step>, later: seq<Step>, t: Tid)
    requires var s := Run(Init(Counting, true), before); s.relocked && s.holder == Some(t)
    ensures var s := Run(Init(Counting, true), before + later);
            s.relocked && s.holder == Some(t) && forall u :: u != t ==> Get(s, u).depth == 0
  {
    RunKeepsInv(Counting, true, before + later);
    if later == [] {
      assert before + later == before;
    } else {
      var front := later[..|later| - 1];
      RelockLeaksForever(before, front, t);
      var all := before + later;
      assert all[..|all| - 1] == before + front;
      RunKeepsInv(Counting, true, before + front);
      var s, step := Run(Init(Counting, true), before + front), all[|all| - 1];
      assert ThreadInv(s, step.t) && ThreadInv(s, t);
    }
    forall u | u != t ensures Get(Run(Init(Counting, true), before + later), u).depth == 0 {
      assert ThreadInv(Run(Init(Counting, true), before + later), u);
    }
  }

  /** A thread that locks twice and unlocks twice under a nesting kernel: every call
      but the last succeeds, and the semaphore is still held. */
  lemma TwoLocksTwoUnlocksLeak(t: Tid)
    ensures var s1 := Solo(Init(Counting, true), t, Lock);
            var s2 := Solo(s1, t, Lock);
            var s3 := Solo(s2, t, Unlock);
            var s4 := Solo(s3, t, Unlock);
            && Get(s1, t).pc == Get(s2, t).pc == Get(s3, t).pc == Idle(Success)
            && Get(s4, t).pc == Idle(EPERM)
            && s2.relocked && s4.holder == Some(t) && s4.owner == None
  {
    var s0 := Init(Counting, true);
    SoloLockCounting(s0, t, Lock);
    var s1 := Solo(s0, t, Lock);
    SoloLockCounting(s1, t, Lock);
    var s2 := Solo(s1, t, Lock);
    SoloUnlock(s2, t);
    var s3 := Solo(s2, t, Unlock);
    SoloUnlock(s3, t);
  }

  lemma {:induction false} RelockedUnlocksKeepIt(s: State, t: Tid, n: nat)
    requires Inv(s) && s.kind == Counting && s.relocked && s.holder == Some(t) && Get(s, t).pc.Idle?
    ensures Unlocks(s, t, n).holder == Some(t)
    decreases n
  {
    if n > 0 {
      assert ThreadInv(s, t);
      SoloUnlock(s, t);
      StepKeepsInv(s, Call(t, Unlock));
      DriveKeepsInv(Apply(s, Call(t, Unlock)), t, LONGEST_CALL);
      RelockedUnlocksKeepIt(Solo(s, t, Unlock), t, n - 1);
    }
  }

  /** What a lone lock by a thread that need not wait leaves. */
  lemma LockTaken(s: State, t: Tid)
    requires Inv(s) && s.kind == Counting && !s.relocked && Get(s, t).pc.Idle?
    requires s.holder == None || s.owner == Some(t)
    ensures var s' := Solo(s, t, Lock);
            && Inv(s') && s'.kind == Counting && s'.owner == s'.holder == Some(t) && Get(s', t).pc.Idle?
            && Get(s', t).depth == Get(s, t).depth + 1
            && (s'.relocked <==> s.nesting && s.owner == Some(t))
  {
    assert ThreadInv(s, t);
    SoloLockCounting(s, t, Lock);
    StepKeepsInv(s, Call(t, Lock));
    DriveKeepsInv(Apply(s, Call(t, Lock)), t, LONGEST_CALL);
  }

  /** A lock of a counting mutex that need not wait can be undone by unlocks if and only if
      the kernel does not nest the request: if it answers 640, or the caller does not own
      the mutex yet. */
  lemma LockCanBeUndoneExactly(s: State, t: Tid)
    requires Inv(s) && s.kind == Counting && !s.relocked && Get(s, t).pc.Idle?
    requires s.holder == None || s.owner == Some(t)
    ensures (exists n :: Unlocks(Solo(s, t, Lock), t, n).holder == None) <==> !(s.nesting && s.owner == Some(t))
  {
    LockTaken(s, t);
    var s' := Solo(s, t, Lock);
    assert ThreadInv(s', t);
    if s'.relocked {
      forall n: nat ensures Unlocks(s', t, n).holder != None {
        RelockedUnlocksKeepIt(s', t, n);
      }
    } else {
      NUnlocksFree(s', t, Get(s', t).depth);
    }
  }
}
