/**
 The key table and the per-thread slot arrays as uthread_spec.c keeps them:
 buffers updated in place. Every method is tied to the machine of module Tsd.
 */
module TsdProcess {
  import opened Tsd
  import opened TsdSweep

  class ThreadData {
    const id: Tid
    const parent: ThreadData?
    ghost const depth: nat          // parents were created first
    var specificData: array?<Pointer>
    var specificDataCount: int
    var phase: Phase                // where in its life the thread is

    ghost predicate Valid()
      reads this
    {
      specificData != null ==> specificData.Length == KEYS_MAX
    }

    ghost function View(): Thread
      reads this, specificData
      requires Valid()
    {
      if specificData == null
      then Thread(false, EmptySlots(), specificDataCount, phase)
      else Thread(true, specificData[..], specificDataCount, phase)
    }

    constructor (id: Tid, parent: ThreadData?)
      ensures this.id == id && this.parent == parent && specificData == null
      ensures parent != null ==> parent.depth < depth
      ensures Valid() && View() == Thread(false, EmptySlots(), 0, Live)
    {
      this.id, this.parent := id, parent;
      depth := if parent == null then 0 else parent.depth + 1;
      specificData, specificDataCount, phase := null, 0, Live;
    }

    /** Store a value, counting the slot as it fills or empties. */
    method Store(key: nat, value: Pointer) returns (ghost delta: int)
      requires Valid() && specificData != null && key < KEYS_MAX
      modifies `specificDataCount, specificData
      ensures delta == Delta(old(specificData[key]), value)
      ensures View() == old(View()).(slots := old(specificData[..])[key := value],
                                     count := old(specificDataCount) + delta)
    {
      delta := Delta(specificData[key], value);
      if specificData[key] == NULL {
        if value != NULL {
          specificDataCount := specificDataCount + 1;
        }
      } else {
        if value == NULL {
          specificDataCount := specificDataCount - 1;
        }
      }
      specificData[key] := value;
    }
  }

  /** The thread a signal-handler thread works for. */
  ghost function Root(t: ThreadData): ThreadData
    decreases t.depth
  {
    if t.parent != null && t.parent.depth < t.depth then Root(t.parent) else t
  }

  /** Allocating the slot array first does not change what a store does. */
  lemma AllocationIsInvisible(s: State, t: Tid, key: nat, value: Pointer)
    requires t in s.threads
    ensures Tsd.SetSpecific(s.(threads := s.threads[t := s.threads[t].(hasSlots := true)]), t, key, value)
            == Tsd.SetSpecific(s, t, key, value)
  {
    var th := s.threads[t].(hasSlots := true);
    assert s.threads[t := th][t := th] == s.threads[t := th];
    if key < KEYS_MAX && s.keys[key].count != 0 {
      var th' := th.(slots := th.slots[key := value], count := th.count + Delta(th.slots[key], value));
      assert s.threads[t := th][t := th'] == s.threads[t := th'];
    }
  }

  class Process {
    const keyTable: array<Key>
    var threads: map<Tid, ThreadData>

    ghost var Repr: set<object>
    ghost var owner: map<array<Pointer>, Tid>   // no two threads share a slot array

    ghost predicate Registered(t: ThreadData)
      reads this
    {
      t.id in threads && threads[t.id] == t
    }

    ghost predicate ValidThread(i: Tid)
      requires i in threads
      reads this, threads[i]
    {
      var t := threads[i];
      && t.id == i && t in Repr && t.Valid()
      && (t.specificData != null ==>
            t.specificData in Repr && t.specificData in owner && owner[t.specificData] == i)
      && (t.parent != null ==> Registered(t.parent) && t.parent.depth < t.depth)
    }

    ghost predicate Valid()
      reads this, Repr
    {
      && this in Repr && keyTable in Repr && keyTable.Length == KEYS_MAX
      && (forall i :: i in threads ==> threads[i] in Repr)
      && (forall i :: i in threads ==> ValidThread(i))
    }

    /** API calls may allocate slots; they never free them, nor move a thread on. */
    twostate predicate SameThreads()
      reads this, threads.Values
    {
      && threads == old(threads)
      && forall i :: i in threads ==>
           && threads[i].phase == old(threads[i].phase)
           && (old(threads[i].specificData) != null ==> threads[i].specificData != null)
    }

    ghost function ThreadViews(): map<Tid, Thread>
      requires Valid()
      reads this, Repr
    {
      map i | i in threads :: threads[i].View()
    }

    ghost function View(): State
      requires Valid()
      reads this, Repr
    {
      State(keyTable[..], ThreadViews())
    }

    /** Nothing but thread t, the slots of t and the key table changed. */
    twostate lemma OnlyThreadChanged(t: ThreadData)
      requires old(Valid()) && old(Registered(t)) && unchanged(this)
      requires t.specificData == old(t.specificData)
      requires forall i :: i in threads && threads[i] != t ==>
                 && unchanged(threads[i])
                 && (threads[i].specificData != null ==> unchanged(threads[i].specificData))
      ensures Valid() && Registered(t)
      ensures ThreadViews() == old(ThreadViews())[t.id := t.View()]
    {
    }

    /** Thread t was added, and nothing else changed. */
    twostate lemma ThreadAdded(new t: ThreadData)
      requires old(Valid()) && t.id !in old(threads) && !old(allocated(t))
      requires threads == old(threads)[t.id := t] && Repr == old(Repr) + {t} && owner == old(owner)
      requires t.specificData == null && t.Valid()
      requires t.parent != null ==> Registered(t.parent) && t.parent.depth < t.depth
      requires forall i :: i in old(threads) ==>
                 && unchanged(threads[i])
                 && (threads[i].specificData != null ==> unchanged(threads[i].specificData))
      ensures Valid() && Registered(t)
      ensures ThreadViews() == old(ThreadViews())[t.id := t.View()]
    {
      forall i | i in old(threads)
        ensures i in threads && ValidThread(i) && threads[i].View() == old(threads[i].View()) {
        assert old(ValidThread(i));
      }
    }

    constructor ()
      ensures Valid() && fresh(Repr) && View() == Start()
    {
      keyTable := new Key[KEYS_MAX](_ => Key(0, NULL));
      threads, owner := map[], map[];
      new;
      Repr := {this, keyTable};
      assert keyTable[..] == EmptyTable();
    }

    method Spawn(id: Tid, parent: ThreadData?) returns (t: ThreadData)
      requires Valid() && id !in threads && (parent != null ==> Registered(parent))
      modifies this
      ensures Valid() && Registered(t) && fresh(Repr - old(Repr))
      ensures View() == Apply(old(View()), Tsd.Step.Spawn(id))
    {
      t := new ThreadData(id, parent);
      threads := threads[id := t];
      Repr := Repr + {t};
      ThreadAdded(t);
    }

    method KeyCreate(destructor: Pointer) returns (ret: Status, key: nat)
      requires Valid()
      modifies keyTable
      ensures Valid()
      ensures (View(), ret, key) == CreateKey(old(View()), destructor)
    {
      key := 0;
      while key < KEYS_MAX
        invariant key <= KEYS_MAX
        invariant keyTable[..] == old(keyTable[..])
        invariant FirstFree(keyTable[..]) == key + FirstFree(keyTable[key..])
      {
        if keyTable[key].count == 0 {
          keyTable[key] := keyTable[key].(count := keyTable[key].count + 1);
          keyTable[key] := keyTable[key].(destructor := destructor);
          assert keyTable[..] == old(keyTable[..])[key := Key(old(keyTable[key].count) + 1, destructor)];
          assert ThreadViews() == old(ThreadViews());
          return Success, key;
        }
        assert keyTable[key..][1..] == keyTable[key + 1..];
        key := key + 1;
      }
      ret := Eagain;
      assert ThreadViews() == old(ThreadViews());
    }

    method KeyDelete(key: nat) returns (ret: Status)
      requires Valid()
      modifies keyTable
      ensures Valid()
      ensures (View(), ret) == DeleteKey(old(View()), key)
    {
      if key < KEYS_MAX {
        if keyTable[key].count == 1 {
          keyTable[key] := keyTable[key].(destructor := NULL);
          keyTable[key] := keyTable[key].(count := 0);
          assert keyTable[..] == old(keyTable[..])[key := Key(0, NULL)];
          ret := Success;
        } else if keyTable[key].count == 0 {
          ret := Success;
        } else {
          ret := Ebusy;
        }
      } else {
        ret := Einval;
      }
      assert ThreadViews() == old(ThreadViews());
    }

    method FindRoot(self: ThreadData) returns (t: ThreadData)
      requires Valid() && Registered(self)
      ensures t == Root(self) && Registered(t) && t.parent == null
    {
      t := self;
      while t.parent != null
        invariant Registered(t) && Root(t) == Root(self)
        decreases t.depth
      {
        t := t.parent;
      }
    }

    /** pthread_key_allocate_data, on first use. */
    method AllocateData(t: ThreadData)
      requires Valid() && Registered(t) && t.specificData == null
      modifies this, t`specificData
      ensures Valid() && fresh(Repr - old(Repr)) && threads == old(threads)
      ensures t.specificData != null
      ensures View() == old(View()).(threads := old(View()).threads[t.id := old(t.View()).(hasSlots := true)])
    {
      var slots := new Pointer[KEYS_MAX](_ => NULL);
      assert slots[..] == EmptySlots();
      t.specificData := slots;
      Repr, owner := Repr + {slots}, owner[slots := t.id];
      forall i | i in threads && i != t.id ensures ValidThread(i) && threads[i].View() == old(threads[i].View()) {
        assert old(ValidThread(i));
      }
      assert ThreadViews() == old(ThreadViews())[t.id := t.View()];
    }

    /** Count a slot that fills or empties with its key. */
    method CountReference(key: nat, was: Pointer, value: Pointer)
      requires keyTable.Length == KEYS_MAX && key < KEYS_MAX
      modifies keyTable
      ensures keyTable[..] == AddCount(old(keyTable[..]), key, Delta(was, value))
    {
      if was == NULL {
        if value != NULL {
          keyTable[key] := keyTable[key].(count := keyTable[key].count + 1);
        }
      } else {
        if value == NULL {
          keyTable[key] := keyTable[key].(count := keyTable[key].count - 1);
        }
      }
    }

    /** pthread_setspecific from line 170 on; goal is what the specification gives. */
    method StoreSlot(t: ThreadData, ghost goal: (State, Status), key: nat, value: Pointer) returns (ret: Status)
      requires Valid() && Registered(t) && t.specificData != null && goal == Tsd.SetSpecific(View(), t.id, key, value)
      modifies t`specificDataCount, t.specificData, keyTable
      ensures Valid() && SameThreads()
      ensures (View(), ret) == goal
    {
      if key < KEYS_MAX {
        if keyTable[key].count != 0 {
          CountReference(key, t.specificData[key], value);
          ghost var _ := t.Store(key, value);
          ret := Success;
        } else {
          ret := Einval;
        }
      } else {
        ret := Einval;
      }
      OnlyThreadChanged(t);
    }

    /** pthread_setspecific from line 169 on: t is the root. */
    method SetOnRoot(t: ThreadData, key: nat, value: Pointer) returns (ret: Status)
      requires Valid() && Registered(t)
      modifies Repr
      ensures Valid() && fresh(Repr - old(Repr)) && SameThreads()
      ensures (View(), ret) == Tsd.SetSpecific(old(View()), t.id, key, value)
    {
      ghost var goal := Tsd.SetSpecific(View(), t.id, key, value);
      EnsureData(t, goal, key, value);
      ret := StoreSlot(t, goal, key, value);
    }

    /** Its first part, which makes no difference to what the specification gives. */
    method EnsureData(t: ThreadData, ghost goal: (State, Status), ghost key: nat, ghost value: Pointer)
      requires Valid() && Registered(t) && goal == Tsd.SetSpecific(View(), t.id, key, value)
      modifies this, t`specificData
      ensures Valid() && fresh(Repr - old(Repr)) && SameThreads() && t.specificData != null
      ensures t in Repr && t.specificData in Repr && keyTable in Repr
      ensures Tsd.SetSpecific(View(), t.id, key, value) == goal
    {
      if t.specificData == null {
        AllocationIsInvisible(View(), t.id, key, value);
        AllocateData(t);
      }
    }

    method SetSpecific(self: ThreadData, key: nat, value: Pointer) returns (ret: Status)
      requires Valid() && Registered(self)
      modifies Repr
      ensures Valid() && fresh(Repr - old(Repr)) && threads == old(threads)
      ensures Registered(Root(self))
      ensures (View(), ret) == Tsd.SetSpecific(old(View()), Root(self).id, key, value)
    {
      var t := FindRoot(self);
      ret := SetOnRoot(t, key, value);
    }

    method GetSpecific(self: ThreadData, key: nat) returns (data: Pointer)
      requires Valid() && Registered(self)
      ensures Registered(Root(self)) && data == Tsd.GetSpecific(View(), Root(self).id, key)
    {
      var t := FindRoot(self);
      if t.specificData != null && key < KEYS_MAX {
        if keyTable[key].count != 0 {
          data := t.specificData[key];
        } else {
          data := NULL;
        }
      } else {
        data := NULL;
      }
    }

    /** Some calls made by other threads or by a destructor. */
    method Perform(calls: seq<ApiCall>)
      requires Valid()
      modifies Repr
      ensures Valid() && fresh(Repr - old(Repr)) && SameThreads()
      ensures View() == Run(old(View()), calls)
    {
      ghost var s := View();
      for i := 0 to |calls|
        invariant Valid() && fresh(Repr - old(Repr)) && SameThreads()
        invariant View() == Run(s, calls[..i])
      {
        assert calls[..i + 1][..i] == calls[..i];
        match calls[i]
        case Create(d) => var _, _ := KeyCreate(d);
        case Delete(k) => var _ := KeyDelete(k);
        case Set(t, k, v) =>
          if t in threads && threads[t].phase != Gone {
            var _ := SetOnRoot(threads[t], k, v);
          }
      }
      assert calls[..|calls|] == calls;
    }

    /** One iteration of the inner loop up to the destructor call. */
    method TakeSlot(t: ThreadData, itr: nat, key: nat) returns (destroying: bool)
      requires Valid() && Registered(t) && t.specificData != null
      requires t.phase == Sweeping(itr, key) && key < KEYS_MAX
      modifies t`specificDataCount, t`phase, t.specificData, keyTable
      ensures Valid() && View() == Apply(old(View()), SweepOn(t.id))
      ensures destroying == View().threads[t.id].phase.Destroying?
      ensures destroying ==> t.phase.Destroying? && t.phase.pass == itr && t.phase.key == key
      ensures !destroying ==> t.phase == Gone || t.phase == After(itr, key)
    {
      ghost var s' := Apply(View(), SweepOn(t.id));
      destroying := false;
      if t.specificDataCount != 0 {
        if t.specificData[key] != NULL {
          var data := t.specificData[key];
          ghost var _ := t.Store(key, NULL);
          if keyTable[key].destructor != NULL {
            destroying := true;
            t.phase := Destroying(itr, key, data);
          } else {
            keyTable[key] := keyTable[key].(count := keyTable[key].count - 1);
            t.phase := After(itr, key);
          }
        } else {
          t.phase := After(itr, key);
        }
      } else {
        t.phase := Gone;
      }
      assert t.View() == s'.threads[t.id];
      assert keyTable[..] == s'.keys;
      OnlyThreadChanged(t);
    }

    /** The destructor has returned: line 115. */
    method ReleaseKey(t: ThreadData, itr: nat, key: nat)
      requires Valid() && Registered(t) && t.phase.Destroying? && t.phase.pass == itr && t.phase.key == key < KEYS_MAX
      modifies t`phase, keyTable
      ensures Valid() && View() == Apply(old(View()), Return(t.id)) && t.phase == After(itr, key)
    {
      keyTable[key] := keyTable[key].(count := keyTable[key].count - 1);
      t.phase := After(itr, key);
      OnlyThreadChanged(t);
    }

    /** The destructor call and line 115. */
    method RunDestructor(t: ThreadData, itr: nat, key: nat, calls: seq<ApiCall>)
      requires Valid() && Registered(t) && t.specificData != null
      requires t.phase.Destroying? && t.phase.pass == itr && t.phase.key == key < KEYS_MAX
      modifies Repr
      ensures Valid() && fresh(Repr - old(Repr)) && threads == old(threads) && t.specificData != null
      ensures View() == Apply(Run(old(View()), calls), Return(t.id)) && t.phase == After(itr, key)
    {
      Perform(calls);
      ReleaseKey(t, itr, key);
    }

    method SweepSlot(t: ThreadData, itr: nat, key: nat, calls: seq<ApiCall>)
      requires Valid() && Registered(t) && t.specificData != null
      requires t.phase == Sweeping(itr, key) && MaySweep(View(), t.id)
      modifies Repr
      ensures Valid() && fresh(Repr - old(Repr)) && threads == old(threads) && t.specificData != null
      ensures View() == Iteration(old(View()), t.id, calls)
      ensures t.phase == Gone || t.phase == After(itr, key)
    {
      assert View().threads[t.id] == t.View();
      var destroying := TakeSlot(t, itr, key);
      if destroying {
        RunDestructor(t, itr, key, calls);
      }
    }

    /** One pass over all keys; finished if the early return was taken. */
    method SweepPass(t: ThreadData, itr: nat, oracle: nat -> seq<ApiCall>) returns (finished: bool)
      requires Valid() && Registered(t) && t.specificData != null
      requires itr < DESTRUCTOR_ITERATIONS && t.phase == Sweeping(itr, 0)
      modifies Repr
      ensures Valid() && fresh(Repr - old(Repr)) && threads == old(threads) && t.specificData != null
      ensures MaySweep(old(View()), t.id) && MaySweep(View(), t.id)
      ensures Sweep(View(), t.id, oracle) == Sweep(old(View()), t.id, oracle)
      ensures t.phase == if finished then Gone else After(itr, KEYS_MAX - 1)
    {
      assert View().threads[t.id] == t.View();
      ghost var s := View();
      var key := 0;
      while key < KEYS_MAX
        invariant key <= KEYS_MAX
        invariant Valid() && fresh(Repr - old(Repr)) && threads == old(threads) && t.specificData != null
        invariant t.phase == if key < KEYS_MAX then Sweeping(itr, key) else After(itr, KEYS_MAX - 1)
        invariant MaySweep(View(), t.id) && Sweep(View(), t.id, oracle) == Sweep(s, t.id, oracle)
      {
        assert View().threads[t.id] == t.View();
        SweepSlot(t, itr, key, oracle(Position(t.phase)));
        if t.phase == Gone && After(itr, key) != Gone {
          return true;
        }
        key := key + 1;
      }
      finished := false;
    }

    method CleanupSpecific(t: ThreadData, oracle: nat -> seq<ApiCall>)
      requires Valid() && Registered(t) && t.specificData != null && t.phase == Sweeping(0, 0)
      modifies Repr
      ensures Valid() && fresh(Repr - old(Repr)) && threads == old(threads)
      ensures MaySweep(old(View()), t.id)
      ensures View() == Sweep(old(View()), t.id, oracle) && t.phase == Gone
    {
      assert View().threads[t.id] == t.View();
      var itr := 0;
      while itr < DESTRUCTOR_ITERATIONS
        invariant itr <= DESTRUCTOR_ITERATIONS
        invariant Valid() && fresh(Repr - old(Repr)) && threads == old(threads) && t.specificData != null
        invariant t.phase == if itr < DESTRUCTOR_ITERATIONS then Sweeping(itr, 0) else Gone
        invariant MaySweep(View(), t.id) && Sweep(View(), t.id, oracle) == Sweep(old(View()), t.id, oracle)
      {
        var finished := SweepPass(t, itr, oracle);
        if finished {
          break;
        }
        itr := itr + 1;
      }
      assert View().threads[t.id] == t.View();
    }
  }
}
