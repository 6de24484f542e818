/**
 pthread_mutex_lock, trylock and unlock (uthread_mutex.c) as micro-steps.

 Every read or write of m_owner and m_count and every kernel call is one step,
 so the windows between a kernel call and the m_owner update are visible. Any
 number of threads interleave freely. The kernel semaphore has a holder and a
 nest count; nesting says what a request by its holder does: true, the kernel
 nests it and returns 0; false, it returns 640 as the counting mutex expects.
 */
module MutexMachine {
  import opened Prelude

  type Tid = nat

  datatype Kind = Fast | Counting
  datatype Op = Lock | TryLock | Unlock

  /** Result codes: Busy and NotOwner are the -1 returns. */
  datatype Ret = Success | EDEADLK | EBUSY | EINVAL | EPERM | Busy | NotOwner

  datatype Point =
    | Test         // fast lock, trylock: m_owner == current?
    | Request      // DosRequestMutexSem (immediate unless a fast lock)
    | Check        // counting, after 640: m_owner == current?
    | Count        // m_count++
    | Wait         // counting lock: DosRequestMutexSem, indefinite
    | SetOwner     // m_owner = current
    | ResetCount   // m_count = 0
    | NullTest     // unlock: m_owner == NULL?
    | OwnerTest    // unlock: m_owner != current?
    | CountTest    // m_count != 0?
    | Decrement    // m_count--
    | ClearOwner   // m_owner = NULL
    | Release      // DosReleaseMutexSem

  datatype Pc = Idle(last: Ret) | At(op: Op, point: Point)

  /** depth: successful locks minus successful unlocks of the thread. */
  datatype Thread = Thread(pc: Pc, depth: int)
  const NEW_THREAD: Thread := Thread(Idle(Success), 0)

  datatype State = State(
    kind: Kind,
    nesting: bool,
    owner: Option<Tid>,      // m_owner
    count: int,              // m_data.m_count
    holder: Option<Tid>,     // of the kernel semaphore
    nest: nat,
    relocked: bool,          // the kernel has granted a request by the holder
    threads: map<Tid, Thread>)

  function Get(s: State, t: Tid): Thread
  {
    if t in s.threads then s.threads[t] else NEW_THREAD
  }

  function Goto(s: State, t: Tid, pc: Pc): State
  {
    s.(threads := s.threads[t := Get(s, t).(pc := pc)])
  }

  /** The call returns; delta is its contribution to the thread's depth. */
  function Return(s: State, t: Tid, ret: Ret, delta: int): State
  {
    s.(threads := s.threads[t := Thread(Idle(ret), Get(s, t).depth + delta)])
  }

  function FirstPoint(kind: Kind, op: Op): Point
  {
    if op == Unlock then NullTest else if kind == Fast then Test else Request
  }

  predicate CanAcquire(s: State, t: Tid)
  {
    s.holder == None || (s.nesting && s.holder == Some(t))
  }

  function Acquire(s: State, t: Tid): State
  {
    s.(holder := Some(t), nest := s.nest + 1, relocked := s.relocked || s.holder == Some(t))
  }

  /** Only a waiting request can keep a thread from its next step. */
  predicate Enabled(s: State, t: Tid)
  {
    match Get(s, t).pc
    case Idle(_) => false
    case At(op, point) =>
      point == Wait || (point == Request && op == Lock && s.kind == Fast) ==> CanAcquire(s, t)
  }

  /** The next micro-step of t; error: a kernel request fails outright. */
  function Next(s: State, t: Tid, error: bool): State
    requires Get(s, t).pc.At?
  {
    var op := Get(s, t).pc.op;
    match Get(s, t).pc.point
    case Test =>
      if s.owner == Some(t) then Return(s, t, if op == Lock then EDEADLK else EBUSY, 0)
      else Goto(s, t, At(op, Request))
    case Request =>
      if error then Return(s, t, if s.kind == Fast && op == TryLock then Busy else EINVAL, 0)
      else if CanAcquire(s, t) then Goto(Acquire(s, t), t, At(op, SetOwner))
      else if s.kind == Fast then Return(s, t, Busy, 0)
      else Goto(s, t, At(op, Check))
    case Check =>
      if s.owner == Some(t) then Goto(s, t, At(op, Count))
      else if op == TryLock then Return(s, t, Busy, 0)
      else Goto(s, t, At(op, Wait))
    case Count => Return(s.(count := s.count + 1), t, Success, 1)
    case Wait =>
      if error then Return(s, t, EINVAL, 0)
      else if CanAcquire(s, t) then Goto(Acquire(s, t), t, At(op, SetOwner))
      else s
    case SetOwner =>
      if s.kind == Fast then Return(s.(owner := Some(t)), t, Success, 1)
      else Goto(s.(owner := Some(t)), t, At(op, ResetCount))
    case ResetCount => Return(s.(count := 0), t, Success, 1)
    case NullTest => if s.owner == None then Return(s, t, EPERM, 0) else Goto(s, t, At(op, OwnerTest))
    case OwnerTest =>
      if s.owner != Some(t) then Return(s, t, NotOwner, 0)
      else Goto(s, t, At(op, if s.kind == Fast then ClearOwner else CountTest))
    case CountTest => Goto(s, t, At(op, if s.count != 0 then Decrement else ClearOwner))
    case Decrement => Return(s.(count := s.count - 1), t, Success, -1)
    case ClearOwner =>
      var s1 := s.(owner := None);
      s1.(threads := s.threads[t := Thread(At(op, Release), Get(s, t).depth - 1)])
    case Release =>
      Return(if s.holder == Some(t) && s.nest > 0
             then s.(nest := s.nest - 1, holder := if s.nest == 1 then None else s.holder)
             else s,
             t, Success, 0)
  }

  datatype Step = Call(t: Tid, op: Op) | Go(t: Tid, error: bool)

  function Apply(s: State, step: Step): State
  {
    match step
    case Call(t, op) => if Get(s, t).pc.Idle? then Goto(s, t, At(op, FirstPoint(s.kind, op))) else s
    case Go(t, error) => if Enabled(s, t) then Next(s, t, error) else s
  }

  function Run(s: State, steps: seq<Step>): State
  {
    if steps == [] then s else Apply(Run(s, steps[..|steps| - 1]), steps[|steps| - 1])
  }

  function Init(kind: Kind, nesting: bool): State
  {
    State(kind, nesting, None, 0, None, 0, false, map[])
  }
}
