/**
 The mutex record and its kernel semaphore as uthread_mutex.c updates them. Each
 call is tied to the micro-step machine of module MutexMachine run by one thread.
 */
module MutexObject {
  import opened Prelude
  import opened MutexMachine
  import opened MutexLaws

  /** Return codes of the kernel calls; WOULD_BLOCK stands for not returning yet. */
  datatype Rc = NO_ERROR | TIMEOUT | SEM_BUSY | NOT_OWNER | WOULD_BLOCK

  /** A kernel mutex semaphore. */
  class Hmtx {
    const nesting: bool
    var holder: Option<Tid>
    var nest: nat
    ghost var relocked: bool
    var open: bool

    ghost predicate Valid()
      reads this
    {
      nest == 0 <==> holder == None
    }

    constructor (nesting: bool)
      ensures Valid() && this.nesting == nesting && holder == None && nest == 0 && !relocked && open
    {
      this.nesting, holder, nest, relocked, open := nesting, None, 0, false, true;
    }

    /** DosRequestMutexSem. */
    method Request(me: Tid, wait: bool) returns (rc: Rc)
      requires Valid()
      modifies this
      ensures Valid() && open == old(open)
      ensures if old(holder) == None || (nesting && old(holder) == Some(me))
              then rc == NO_ERROR && holder == Some(me) && nest == old(nest) + 1
                   && relocked == (old(relocked) || old(holder) == Some(me))
              else rc == (if wait then WOULD_BLOCK else TIMEOUT)
                   && holder == old(holder) && nest == old(nest) && relocked == old(relocked)
    {
      if holder == None || (nesting && holder == Some(me)) {
        relocked := relocked || holder == Some(me);
        holder, nest, rc := Some(me), nest + 1, NO_ERROR;
      } else {
        rc := if wait then WOULD_BLOCK else TIMEOUT;
      }
    }

    /** DosReleaseMutexSem. */
    method Release(me: Tid) returns (rc: Rc)
      requires Valid()
      modifies `holder, `nest
      ensures Valid()
      ensures if old(holder) == Some(me)
              then rc == NO_ERROR && nest == old(nest) - 1 && holder == (if nest == 0 then None else Some(me))
              else rc == NOT_OWNER && holder == old(holder) && nest == old(nest)
    {
      if holder == Some(me) {
        nest := nest - 1;
        if nest == 0 { holder := None; }
        rc := NO_ERROR;
      } else {
        rc := NOT_OWNER;
      }
    }

    /** Its holder releases it for good. */
    method LetGo()
      requires Valid()
      modifies `holder, `nest, `relocked
      ensures Valid() && holder == None && nest == 0
    {
      holder, nest, relocked := None, 0, false;
    }

    /** DosCloseMutexSem. */
    method Close() returns (rc: Rc)
      requires Valid()
      modifies `open
      ensures Valid() && rc == (if holder == None then NO_ERROR else SEM_BUSY)
      ensures open == (old(open) && holder != None)
    {
      if holder == None {
        open, rc := false, NO_ERROR;
      } else {
        rc := SEM_BUSY;
      }
    }
  }

  /** struct pthread_mutex. MUTEX_TYPE_FAST is Fast, MUTEX_TYPE_COUNTING_FAST is
      Counting; destroyed: m_type has been cleared. */
  class Mutex {
    var kind: Kind
    var destroyed: bool
    var owner: Option<Tid>
    var count: int
    const mutex: Hmtx

    ghost predicate Valid()
      reads this, mutex
    {
      mutex.Valid()
    }

    /** The machine's state with these fields and every thread idle. */
    ghost function View(): State
      requires Valid()
      reads this, mutex
    {
      State(kind, mutex.nesting, owner, count, mutex.holder, mutex.nest, mutex.relocked, map[])
    }

    /** The same shared fields, whatever the threads. */
    ghost predicate Shows(s: State)
      requires Valid()
      reads this, mutex
    {
      View() == s.(threads := map[])
    }

    /** pthread_mutex_init. */
    constructor (kind: Kind, nesting: bool)
      ensures Valid() && fresh(mutex) && !destroyed && View() == Init(kind, nesting)
    {
      this.kind, destroyed, owner, count := kind, false, None, 0;
      mutex := new Hmtx(nesting);
    }

    /** pthread_mutex_trylock. */
    method TryLock(current: Tid) returns (ret: Ret)
      requires Valid()
      modifies this, mutex
      ensures Valid() && destroyed == old(destroyed)
      ensures destroyed ==> ret == EINVAL && View() == old(View())
      ensures !destroyed ==>
                var s := Solo(old(View()), current, Op.TryLock);
                Shows(s) && Get(s, current).pc == Idle(ret)
    {
      if !destroyed {
        if kind == Fast { SoloLockFast(View(), current, Op.TryLock); }
        else { SoloLockCounting(View(), current, Op.TryLock); }
      }
      if destroyed {
        return EINVAL;
      }
      match kind {
        case Fast =>
          if owner == Some(current) {
            return EBUSY;
          }
          var rc := mutex.Request(current, false);
          if rc == NO_ERROR {
            owner := Some(current);
            ret := Success;
          } else {
            ret := Busy;
          }
        case Counting =>
          var rc := mutex.Request(current, false);
          if rc == NO_ERROR {
            owner := Some(current);
            count := 0;
            ret := Success;
          } else if rc == TIMEOUT {
            if owner == Some(current) {
              count := count + 1;
              ret := Success;
            } else {
              ret := Busy;
            }
          } else {
            ret := EINVAL;
          }
      }
    }

    /** pthread_mutex_lock; None: the call is blocked in the kernel. */
    method Lock(current: Tid) returns (ret: Option<Ret>)
      requires Valid()
      modifies this, mutex
      ensures Valid() && destroyed == old(destroyed)
      ensures destroyed ==> ret == Some(EINVAL) && View() == old(View())
      ensures !destroyed ==>
                var s := Solo(old(View()), current, Op.Lock);
                Shows(s) &&
                if ret.Some? then Get(s, current).pc == Idle(ret.value)
                else Get(s, current).pc.At? && !Enabled(s, current)
    {
      if !destroyed {
        if kind == Fast { SoloLockFast(View(), current, Op.Lock); }
        else { SoloLockCounting(View(), current, Op.Lock); }
      }
      if destroyed {
        return Some(EINVAL);
      }
      var rc;
      match kind {
        case Fast =>
          if owner == Some(current) {
            return Some(EDEADLK);
          }
          rc := mutex.Request(current, true);
          if rc == WOULD_BLOCK {
            return None;
          }
          if rc == NO_ERROR {
            owner := Some(current);
            ret := Some(Success);
          } else {
            ret := Some(EINVAL);
          }
        case Counting =>
          rc := mutex.Request(current, false);
          if rc == TIMEOUT {
            if owner == Some(current) {
              count := count + 1;
            } else {
              rc := mutex.Request(current, true);
            }
          }
          if rc == WOULD_BLOCK {
            return None;
          }
          ret := Some(Success);
          if rc == NO_ERROR {
            owner := Some(current);
            count := 0;
          } else if rc != TIMEOUT {
            ret := Some(EINVAL);
          }
      }
    }

    /** The end of an unlock: clear m_owner, release the semaphore. */
    method GiveUp(current: Tid)
      requires Valid() && !destroyed
      modifies this`owner, mutex
      ensures Valid() && View() == Freed(old(View()), current)
    {
      owner := None;
      var _ := mutex.Release(current);
    }

    /** pthread_mutex_unlock. */
    method Unlock(current: Tid) returns (ret: Ret)
      requires Valid()
      modifies this, mutex
      ensures Valid() && destroyed == old(destroyed)
      ensures destroyed ==> ret == (if owner == None then EPERM else EINVAL) && View() == old(View())
      ensures !destroyed ==>
                var s := Solo(old(View()), current, Op.Unlock);
                Shows(s) && Get(s, current).pc == Idle(ret)
    {
      if !destroyed {
        SoloUnlock(View(), current);
      }
      if owner == None {
        return EPERM;
      }
      if destroyed {
        return EINVAL;
      }
      ret := Success;
      match kind {
        case Fast =>
          if owner != Some(current) {
            ret := NotOwner;
          } else {
            GiveUp(current);
          }
        case Counting =>
          if owner != Some(current) {
            ret := NotOwner;
          } else if count != 0 {
            count := count - 1;
          } else {
            GiveUp(current);
          }
      }
    }

    /** pthread_mutex_destroy: releases the semaphore as often as the caller has it, then
        closes it. While another thread has it the loop goes round; letsGo says after how
        many turns that thread lets go, None if it never does: then the call does not end,
        and ended is false. */
    method Destroy(current: Tid, letsGo: Option<nat>) returns (ended: bool)
      requires Valid() && mutex.open
      modifies this, mutex
      ensures Valid() && destroyed
      ensures ended <==> old(mutex.holder) == None || old(mutex.holder) == Some(current) || letsGo.Some?
      ensures ended ==> owner == None && mutex.holder == None && !mutex.open
      ensures !ended ==> mutex.open && mutex.holder == old(mutex.holder) && owner == old(owner)
    {
      if kind == Counting {
        count := 0;
      }
      destroyed := true;
      var left: nat := if letsGo.Some? then letsGo.value else 0;
      var rc := mutex.Close();
      if rc == SEM_BUSY {
        var _ := mutex.Release(current);
      }
      while rc == SEM_BUSY
        invariant Valid() && destroyed && owner == old(owner)
        invariant rc == SEM_BUSY || rc == NO_ERROR
        invariant rc == NO_ERROR ==> mutex.holder == None && !mutex.open
        invariant rc == SEM_BUSY ==> mutex.open
        invariant mutex.holder == None || mutex.holder == old(mutex.holder)
        invariant mutex.holder == None ==>
                    old(mutex.holder) == None || old(mutex.holder) == Some(current) || letsGo.Some?
        decreases rc == SEM_BUSY, left, mutex.nest
      {
        if mutex.holder != None && mutex.holder != Some(current) {
          if letsGo == None {
            return false;
          }
          if left == 0 {
            mutex.LetGo();
          } else {
            left := left - 1;
          }
        }
        rc := mutex.Close();
        if rc == SEM_BUSY {
          var _ := mutex.Release(current);
        }
      }
      owner := None;
      ended := true;
    }
  }
}
