/**
 The mutex as its callers see it: one atomic action a call. Module
 MutexRefinement shows that the micro-steps implement it.
 */
module AtomicMutex {
  import opened Prelude
  import opened MutexMachine

  datatype Mutex = Mutex(kind: Kind, owner: Option<Tid>, depth: nat)

  predicate Consistent(m: Mutex)
  {
    (m.owner == None <==> m.depth == 0) && (m.kind == Fast ==> m.depth <= 1)
  }

  /** pthread_mutex_lock blocks exactly while another thread owns the mutex. */
  predicate MayLock(m: Mutex, t: Tid)
  {
    m.owner == None || m.owner == Some(t)
  }

  function LockIt(m: Mutex, t: Tid): (Mutex, Ret)
    requires MayLock(m, t)
  {
    if m.owner == None then (m.(owner := Some(t), depth := 1), Success)
    else if m.kind == Fast then (m, EDEADLK)
    else (m.(depth := m.depth + 1), Success)
  }

  function UnlockIt(m: Mutex, t: Tid): (Mutex, Ret)
  {
    if m.owner == None then (m, EPERM)
    else if m.owner != Some(t) then (m, NotOwner)
    else if m.depth > 1 then (m.(depth := m.depth - 1), Success)
    else (m.(owner := None, depth := 0), Success)
  }

  function TryLockIt(m: Mutex, t: Tid): (Mutex, Ret)
  {
    if m.owner == None then (m.(owner := Some(t), depth := 1), Success)
    else if m.owner != Some(t) then (m, Busy)
    else if m.kind == Fast then (m, EBUSY)
    else (m.(depth := m.depth + 1), Success)
  }
}

/** The micro-steps of MutexMachine refine the atomic mutex. */
module MutexRefinement {
  import opened Prelude
  import opened MutexMachine
  import opened MutexLaws
  import opened AtomicMutex

  /** The owner is whoever holds the semaphore: the window before m_owner is set
      counts as owned, the one after it is cleared not yet as released. */
  function Abs(s: State): Mutex
    requires s.count >= 0
  {
    Mutex(s.kind, s.holder,
          if s.holder == None then 0
          else if s.kind == Fast || InWindow(s, s.holder.value) then 1
          else s.count + 1)
  }

  ghost predicate AtomicStep(m: Mutex, m': Mutex, t: Tid)
  {
    || m' == m
    || (MayLock(m, t) && m' == LockIt(m, t).0)
    || m' == UnlockIt(m, t).0
  }

  /** Every micro-step either is invisible or is one atomic lock or unlock by the
      thread that takes it. */
  lemma StepsAreAtomic(s: State, step: Step)
    requires Inv(s) && !Apply(s, step).relocked
    ensures Apply(s, step).count >= 0
    ensures AtomicStep(Abs(s), Abs(Apply(s, step)), step.t)
  {
    StepIsOwnMove(s, step);
    assert ThreadInv(s, step.t);
    assert s.holder.Some? ==> ThreadInv(s, s.holder.value);
  }

  /** Outside its windows a thread's balance of successful calls is its atomic depth,
      whoever else is in the middle of a call. */
  lemma DepthsAgreeAtRest(s: State, t: Tid)
    requires Inv(s) && !s.relocked && !InWindow(s, t)
    ensures Get(s, t).depth == if Abs(s).owner == Some(t) then Abs(s).depth else 0
    ensures Consistent(Abs(s))
  {
    assert ThreadInv(s, t);
    assert s.holder.Some? ==> ThreadInv(s, s.holder.value);
  }

  /** A call that left s in r did what the atomic call gives. */
  ghost predicate Agrees(r: State, t: Tid, atomic: (Mutex, Ret))
  {
    r.count >= 0 && Abs(r) == atomic.0 && Get(r, t).pc == Idle(atomic.1)
  }

  /** Likewise for a lock, which waits if the atomic one may not go on. */
  ghost predicate LockAgrees(s: State, r: State, t: Tid)
    requires s.count >= 0
  {
    if MayLock(Abs(s), t) then Agrees(r, t, LockIt(Abs(s), t))
    else r.count >= 0 && Abs(r) == Abs(s) && Get(r, t).pc.At? && !Enabled(r, t)
  }

  lemma SoloFastLockIsAtomic(s: State, t: Tid)
    requires Inv(s) && !s.relocked && Get(s, t).pc.Idle? && s.kind == Fast
    ensures LockAgrees(s, Solo(s, t, Lock), t) && Agrees(Solo(s, t, TryLock), t, TryLockIt(Abs(s), t))
  {
    assert ThreadInv(s, t);
    if s.holder.Some? {
      assert ThreadInv(s, s.holder.value);
    }
    SoloLockFast(s, t, Lock);
    SoloLockFast(s, t, TryLock);
  }

  lemma SoloCountingLockIsAtomic(s: State, t: Tid)
    requires Inv(s) && !s.relocked && Get(s, t).pc.Idle? && s.kind == Counting
    ensures LockAgrees(s, Solo(s, t, Lock), t) <==> !(s.nesting && s.owner == Some(t))
    ensures Agrees(Solo(s, t, TryLock), t, TryLockIt(Abs(s), t)) <==> !(s.nesting && s.owner == Some(t))
  {
    assert ThreadInv(s, t);
    if s.holder.Some? {
      assert ThreadInv(s, s.holder.value);
    }
    SoloLockCounting(s, t, Lock);
    SoloLockCounting(s, t, TryLock);
  }

  /** A lock or trylock that runs alone, whatever others are in the middle of, does what
      the atomic call does and returns its result, a lock that has to wait staying in its
      request, if and only if it is not a request that the kernel nests. */
  lemma SoloLockIsAtomic(s: State, t: Tid)
    requires Inv(s) && !s.relocked && Get(s, t).pc.Idle?
    ensures var nested := s.kind == Counting && s.nesting && s.owner == Some(t);
            && (LockAgrees(s, Solo(s, t, Lock), t) <==> !nested)
            && (Agrees(Solo(s, t, TryLock), t, TryLockIt(Abs(s), t)) <==> !nested)
  {
    if s.kind == Fast { SoloFastLockIsAtomic(s, t); } else { SoloCountingLockIsAtomic(s, t); }
  }

  /** An unlock that runs alone has the effect of the atomic one, and returns its result if
      and only if the mutex is not in the hands of a thread whose name is not in m_owner
      yet, or no longer: it then says EPERM for the other error. */
  lemma SoloUnlockIsAtomic(s: State, t: Tid)
    requires Inv(s) && !s.relocked && Get(s, t).pc.Idle?
    ensures var unlock := Solo(s, t, Unlock);
            && unlock.count >= 0 && Abs(unlock) == UnlockIt(Abs(s), t).0
            && (Get(unlock, t).pc == Idle(UnlockIt(Abs(s), t).1) <==> !(s.owner == None && s.holder != None))
  {
    assert ThreadInv(s, t);
    if s.holder.Some? {
      assert ThreadInv(s, s.holder.value);
    }
    SoloUnlock(s, t);
  }
}
