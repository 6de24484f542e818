/**
 The thread records on the heap, linked through their own nxt field into the lists
 _thread_link_list and _thread_dead; each method is tied to a step of module Registry.
 */
module RegistryObject {
  import opened Prelude
  import opened ThreadStates
  import opened Registry
  import opened RegistryLaws

  /** A pointer as an optional value. */
  function Maybe(p: Thread?): Option<Thread>
  {
    if p == null then None else var t: Thread := p; Some(t)
  }

  class Thread {
    var nxt: Thread?
    var parentThread: Thread?
    var arg: int                   // of a handler thread: the signal
    var state: ThreadState
    ghost var stage: Stage         // of a handler thread: how far it is in _thread_create2
    ghost var held: bool           // suspended by the kernel
    var sigBlocked: set<int>
    var ret: Option<int>
    var detached: bool
    var threadid: nat
    var sigPending: int            // signals counted since the last delivery
    ghost var phase: Phase
    ghost var born: nat

    ghost function Record(): Rec<Thread>
      reads this
    {
      Rec(Maybe(parentThread), arg, stage, state, held, sigBlocked, ret, detached, phase, born)
    }
  }

  /** The i-th of s, NULL if there is none. */
  function At(s: seq<Thread>, i: int): Thread?
  {
    if 0 <= i < |s| then s[i] else null
  }

  /** Following nxt from first visits exactly s and ends in NULL. */
  ghost predicate Linked(first: Thread?, s: seq<Thread>)
    reads s
  {
    && first == At(s, 0)
    && forall i {:trigger s[i].nxt} :: 0 <= i < |s| ==> s[i].nxt == At(s, i + 1)
  }

  lemma LinkedIsAcyclic(s: seq<Thread>, i: nat, j: nat)
    requires Linked(At(s, 0), s) && i < j < |s|
    ensures s[i] != s[j]
    decreases |s| - j
  {
    assert s[i].nxt == At(s, i + 1) && s[j].nxt == At(s, j + 1);
    if s[i] == s[j] && j + 1 < |s| {
      LinkedIsAcyclic(s, i + 1, j + 1);
    }
  }

  lemma OnlyOnce(s: seq<Thread>, k: nat)
    requires Linked(At(s, 0), s) && k < |s|
    ensures forall i :: 0 <= i < |s| && i != k ==> s[i] != s[k]
  {
    forall i | 0 <= i < |s| && i != k ensures s[i] != s[k] {
      if i < k { LinkedIsAcyclic(s, i, k); } else { LinkedIsAcyclic(s, k, i); }
    }
  }

  ghost function Records(all: set<Thread>): map<Thread, Rec<Thread>>
    reads all
  {
    map u | u in all :: u.Record()
  }

  class Threads {
    var linkList: Thread?
    var deadList: Thread?
    ghost var live: seq<Thread>
    ghost var dead: seq<Thread>
    ghost var all: set<Thread>
    ghost var births: nat
    var joining: map<Thread, Thread>          // the local variables of calls of pthread_join
    ghost var joined: seq<(Thread, Outcome)>

    ghost function View(): State<Thread>
      reads this, all
    {
      State(live, dead, Records(all), births, joining, joined)
    }

    ghost predicate Valid()
      reads this, all
    {
      && (forall u :: u in live ==> u in all) && (forall u :: u in dead ==> u in all)
      && Linked(linkList, live) && Linked(deadList, dead)
    }

    constructor ()
      ensures Valid() && View() == Fresh()
    {
      linkList, deadList, live, dead, all := null, null, [], [], {};
      births, joining, joined := 0, map[], [];
    }

    /** _thread_create2, up to the new state of the thread. */
    method Begin(t: Thread, parent: Thread?, sig: int, suspended: bool, detached: bool)
      requires Valid() && t !in all
      modifies this, t
      ensures Valid() && all == old(all) + {t}
      ensures View() == Register(old(View()), t, Maybe(parent), sig, if suspended then Suspended else Running, detached)
    {
      Fill(t, parent, sig, suspended, detached);
      Push(t);
    }

    method Push(t: Thread)
      requires Valid() && t !in all && t.phase.Alive? && t.born == births
      modifies this`linkList, this`live, this`births, this`all, t`nxt
      ensures Valid() && all == old(all) + {t}
      ensures births == old(births) + 1
      ensures View() == old(View()).(live := [t] + old(live), births := births,
                                     recs := old(View()).recs[t := old(t.Record())])
    {
      t.nxt := linkList;
      linkList := t;
      live, births, all := [t] + live, births + 1, all + {t};
      assert View().recs == old(View()).recs[t := t.Record()];
    }

    method Fill(t: Thread, parent: Thread?, sig: int, suspended: bool, detached: bool)
      modifies t
      ensures t.Record() == Rec(Maybe(parent), sig, Untold, if suspended then Suspended else Running, suspended, {},
                                None, detached, Alive, births)
    {
      t.parentThread, t.arg, t.detached := parent, sig, detached;
      t.sigBlocked, t.ret := {}, None;
      t.state := if suspended then Suspended else Running;
      t.phase, t.born, t.stage, t.held := Alive, births, Untold, suspended;
    }

    /** PTHREAD_NEW_STATE. */
    method NewState(t: Thread, state: ThreadState)
      requires Valid() && t in all
      modifies t`state
      ensures Valid() && View() == SetState(old(View()), t, state)
    {
      t.state := state;
    }

    /** The kernel calls; a thread that has ended is not suspended. */
    ghost method DosSuspendThread(t: Thread)
      requires Valid() && t in all
      modifies t`held
      ensures Valid() && View() == Hold(old(View()), t)
    {
      t.held := t.held || !t.phase.Gone?;
    }

    ghost method DosResumeThread(t: Thread)
      modifies t`held
      ensures !t.held
    {
      t.held := false;
    }

    ghost method NewStage(t: Thread, stage: Stage)
      requires Valid() && t in all
      modifies t`stage
      ensures Valid() && View() == SetStage(old(View()), t, stage)
    {
      t.stage := stage;
    }

    /** A handler thread sets the state of its parent. */
    method Announce(t: Thread)
      requires Valid() && t in all && t.parentThread != null && t.parentThread in all
      modifies t`stage, t.parentThread`state
      ensures Valid() && View() == SetState(SetStage(old(View()), t, Told), old(t.parentThread), SigThread)
    {
      NewStage(t, Told);
      NewState(t.parentThread, SigThread);
    }

    /** And suspends it. */
    method Halt(t: Thread)
      requires Valid() && t in all && t.parentThread != null && t.parentThread in all
      modifies t`stage, t.parentThread`held
      ensures Valid() && View() == Hold(SetStage(old(View()), t, Handling), old(t.parentThread))
    {
      NewStage(t, Handling);
      DosSuspendThread(t.parentThread);
    }

    method Halted(thread: Thread)
      requires Valid() && thread in all && !thread.phase.Gone?
      modifies thread`state, thread`held
      ensures Valid()
      ensures View() == old(View()).(recs := old(View()).recs[thread := Registry.SuspendNp(old(thread.Record()))])
    {
      if thread.state == Running {
        DosSuspendThread(thread);
      }
      NewState(thread, Suspended);
    }

    /** pthread_suspend_np; the error number of the thread is left out. */
    method SuspendNp(thread: Thread) returns (ret: int)
      requires Valid() && forall u :: u in live ==> !u.phase.Gone?
      modifies all`state, all`held
      ensures Valid() && ret == (if thread in live then 0 else -1)
      ensures View() == if thread in live
                        then old(View()).(recs := old(View()).recs[thread := Registry.SuspendNp(old(thread.Record()))])
                        else old(View())
    {
      var found := Search(linkList, thread, live);
      if !found {
        return -1;
      }
      Halted(thread);
      ret := 0;
    }

    /** pthread_resume_np. */
    method ResumeNp(thread: Thread) returns (ret: int)
      requires Valid()
      modifies all`state, all`held
      ensures Valid() && (ret == 0 <==> thread in live && (old(thread.state).Suspended? || old(thread.state).Running?))
      ensures ret != 0 ==> ret == -1
      ensures View() == if thread in live
                        then old(View()).(recs := old(View()).recs[thread := Registry.ResumeNp(old(thread.Record()))])
                        else old(View())
    {
      var found := Search(linkList, thread, live);
      if !found {
        return -1;
      }
      if thread.state == Suspended {
        thread.state := Running;
        DosResumeThread(thread);
        ret := 0;
      } else {
        ret := if thread.state == Running then 0 else -1;
      }
    }

    /** pthread_exit is entered. */
    method Save(t: Thread, ret: int)
      requires Valid() && t in all
      modifies t
      ensures Valid() && View() == Store(old(View()), t, ret)
    {
      t.ret, t.phase := Some(ret), Exiting;
    }

    /** The critical section of pthread_exit. */
    method Leave(t: Thread)
      requires Valid() && t in live && forall u :: u in dead ==> u !in live
      requires t.parentThread != null ==> t.parentThread in all && t.parentThread != t
      modifies this`linkList, this`deadList, this`live, this`dead, all
      ensures Valid() && all == old(all) && View() == Unlink(old(View()), t)
    {
      ghost var s := View();
      TakeOut(t);
      var p := t.parentThread;
      if p != null {
        var listed := HandlerListed(p);
        WakeParent(t, p, listed);
      }
      PushDead(t);
    }

    /** Its search for the thread before t; if t is not in the list nothing changes. */
    method TakeOut(t: Thread)
      requires Valid() && t in live && forall u :: u in dead ==> u !in live
      modifies this`linkList, this`live, all`nxt
      ensures Valid() && View() == old(View()).(live := Without(old(live), t))
      ensures t !in live
    {
      ghost var k, r := Find(live, t), Without(live, t);
      Removal(t);
      var pthread := Before(t);
      ghost var recs := Records(all);
      Bypass(pthread, t, k, r);
      assert Records(all) == recs;
    }

    lemma Removal(t: Thread)
      requires Valid() && t in live
      ensures var r := Without(live, t);
              OneLess(live, r, Find(live, t)) && t !in r && forall u :: u in r ==> u in live
    {
      WithoutAt(live, t);
      OnlyOnce(live, Find(live, t));
    }

    method Bypass(prev: Thread?, t: Thread, ghost k: nat, ghost r: seq<Thread>)
      requires Linked(linkList, live) && forall u :: u in live ==> u in all
      requires OneLess(live, r, k) && t == live[k] && prev == At(live, k - 1)
      modifies this`linkList, this`live, all`nxt
      requires Linked(deadList, dead) && forall u :: u in dead ==> u !in live
      ensures Linked(linkList, r) && live == r && Linked(deadList, dead)
    {
      if k > 0 { OnlyOnce(live, k - 1); }
      assert t.nxt == At(live, k + 1);
      assert prev != null ==> prev in live;
      if prev == null {
        linkList := t.nxt;
      } else {
        prev.nxt := t.nxt;
      }
      ghost var was := live;
      live := r;
      forall i: nat | i < |r| ensures r[i].nxt == At(r, i + 1) {
        if i + 1 == k {
          assert r[i] == prev;
        } else {
          var j: nat := if i < k then i else i + 1;
          assert r[i] == was[j] && was[j] != prev;
        }
      }
    }

    /** The thread before t in the list; NULL if t is its first, or not in it. */
    method Before(t: Thread) returns (pthread: Thread?)
      requires Valid()
      ensures pthread == if t in live then At(live, Find(live, t) - 1) else null
    {
      if linkList == t {
        return null;
      }
      pthread := linkList;
      ghost var k := 0;
      while pthread != null && pthread.nxt != t
        invariant 0 <= k <= |live| && pthread == At(live, k) && t !in live[..k] && At(live, k) != t
        decreases |live| - k
      {
        pthread := pthread.nxt;
        k := k + 1;
      }
      if pthread != null { FindIs(live, t, k + 1); }
    }

    /** Its search for another handler thread of p. */
    method HandlerListed(p: Thread) returns (listed: bool)
      requires Valid()
      ensures listed <==> HasHandler(live, Records(all), p)
    {
      var pthread := linkList;
      ghost var k := 0;
      while pthread != null && pthread.parentThread != p
        invariant 0 <= k <= |live| && pthread == At(live, k)
        invariant forall i :: 0 <= i < k ==> live[i].parentThread != p
        decreases |live| - k
      {
        pthread := pthread.nxt;
        k := k + 1;
      }
      listed := pthread != null;
      assert listed ==> Records(all)[live[k]].parent == Some(p);
    }

    method WakeParent(t: Thread, p: Thread, listed: bool)
      requires Valid() && t in all && p in all && t != p
      requires listed <==> HasHandler(live, Records(all), p)
      modifies p`state, p`held, p`sigBlocked
      ensures Valid()
      ensures View() == old(View()).(recs := old(View()).recs[p := Woken(old(live), old(View()).recs, t, p)])
    {
      ghost var recs := Records(all);
      assert recs[p] == p.Record() && recs[t].sig == t.arg;
      if !listed && p.state != Dead && p.state != Running {
        p.state := Running;
        DosResumeThread(p);
      }
      p.sigBlocked := p.sigBlocked - {t.arg};
      assert p.Record() == Woken(live, recs, t, p);
      assert Records(all) == recs[p := p.Record()];
    }

    method PushDead(t: Thread)
      requires Valid() && t in all && t !in live && t !in dead
      modifies this`deadList, this`dead, t`nxt, t`phase
      ensures Valid()
      ensures View() == old(View()).(dead := [t] + old(dead),
                                     recs := old(View()).recs[t := old(t.Record()).(phase := Unlinked)])
    {
      t.nxt := deadList;
      deadList := t;
      dead, t.phase := [t] + dead, Unlinked;
    }

    /** The walk over one list in pthread_join. */
    method Search(first: Thread?, t: Thread, ghost s: seq<Thread>) returns (found: bool)
      requires Linked(first, s)
      ensures found <==> t in s
    {
      var pthread1 := first;
      ghost var k := 0;
      while pthread1 != null && pthread1 != t
        invariant 0 <= k <= |s| && pthread1 == At(s, k) && t !in s[..k]
        decreases |s| - k
      {
        pthread1 := pthread1.nxt;
        k := k + 1;
      }
      found := pthread1 != null;
    }

    method SearchBoth(t: Thread) returns (found: bool)
      requires Valid()
      ensures found <==> t in live || t in dead
    {
      found := Search(linkList, t, live);
      if !found {
        found := Search(deadList, t, dead);
      }
    }

    /** Its caller j goes to wait for the kernel thread of t to end. */
    method AwaitEnd(j: Thread, t: Thread)
      requires Valid() && j in all
      modifies this`joining, j`state
      ensures Valid() && joined == old(joined)
      ensures View() == SetState(old(View()), j, Join).(joining := old(joining)[j := t])
    {
      NewState(j, Join);
      joining := joining[j := t];
    }

    /** pthread_join up to its wait, called by j: None if it has to wait. */
    method JoinBegin(j: Thread, t: Thread) returns (rval: Option<Outcome>)
      requires Valid() && j in all
      modifies this`joining, this`joined, j`state
      ensures Valid() && View() == StartJoin(old(View()), j, t)
      ensures joined == old(joined) + (if rval == None then [] else [(t, rval.value)])
    {
      ghost var s := View();
      assert t in all ==> s.recs[t] == t.Record();
      var found := SearchBoth(t);
      if !found || t.detached {
        rval := Some(Esrch);
        joined := joined + [(t, Esrch)];
        assert View() == s.(joined := joined);
      } else if t.state != Dead {
        AwaitEnd(j, t);
        rval := None;
      } else {
        rval := Some(Value(t.ret));
        joined := joined + [(t, Value(t.ret))];
        assert View() == s.(joined := joined);
      }
    }

    /** pthread_join from the end of its wait. */
    method JoinEnd(j: Thread, t: Thread) returns (rval: Outcome)
      requires Valid() && j in all && t in all
      modifies this`joining, this`joined, j`state
      ensures Valid() && View() == FinishJoin(old(View()), j, t)
      ensures joined == old(joined) + [(t, rval)]
    {
      NewState(j, Running);
      rval := if !t.detached then Value(t.ret) else Esrch;
      joining, joined := joining - {j}, joined + [(t, rval)];
    }

    /** pthread_detach of a thread whose name the caller has. */
    method Detach(t: Thread)
      requires Valid() && t in all
      modifies t`detached
      ensures Valid() && View() == old(View()).(recs := old(View()).recs[t := old(t.Record()).(detached := true)])
    {
      t.detached := true;
    }

    /** What a thread does after its critical section. */
    method Die(t: Thread)
      requires Valid() && t in all
      modifies t`state, t`phase
      ensures Valid() && View() == SetPhase(SetState(old(View()), t, Dead), t, Marked)
    {
      NewState(t, Dead);
      NewPhase(t, Marked);
    }

    ghost method NewPhase(t: Thread, phase: Phase)
      requires Valid() && t in all
      modifies t`phase
      ensures Valid() && View() == SetPhase(old(View()), t, phase)
    {
      t.phase := phase;
    }

    /** What the method for a step requires. */
    ghost predicate MayPerform(step: Step<Thread>)
      reads this, all, live
    {
      && (step.Announce? || step.Halt? ==>
            step.t in all && step.t.parentThread != null && step.t.parentThread in all)
      && (forall u :: u in live ==> !u.phase.Gone?)
      && (step.Suspend? || step.Resume? ==> step.t in live)
      && (step.Leave? ==>
            && step.t in live && step.t in all && (forall u :: u in dead ==> u !in live)
            && (step.t.parentThread != null ==> step.t.parentThread in all && step.t.parentThread != step.t))
      && (step.JoinEnd? ==> step.j in all && step.j in joining && joining[step.j] in all)
    }

    /** What can be taken as a step finds the records as the method expects them. */
    lemma Ready(step: Step<Thread>)
      requires Valid() && Inv(View()) && Enabled(View(), step)
      ensures MayPerform(step)
    {
      var s := View();
      assert forall u :: u in live ==> s.recs[u] == u.Record();
      if step.Announce? || step.Halt? || step.Leave? || step.Suspend? || step.Resume? {
        var t := step.t;
        assert RecInv(s, t) && s.recs[t] == t.Record();
        assert Listed(s.recs[t].phase);
        assert t in live by { assert t !in dead; }
      }
    }

    /** A step that writes one record. */
    method PerformOnRecord(step: Step<Thread>)
      requires Valid() && Enabled(View(), step)
      requires step.Change? || step.Detach? || step.Save? || step.Die? || step.End?
      modifies step.t
      ensures Valid() && View() == Apply(old(View()), step)
    {
      match step {
        case Change(t, state) => NewState(t, state);
        case Detach(t) => Detach(t);
        case Save(t, ret) => Save(t, ret);
        case Die(t) => Die(t);
        case End(t) => NewPhase(t, Gone);
      }
    }

    /** A step that writes the record of another thread. */
    method PerformOnOther(step: Step<Thread>)
      requires Valid() && (OfHandler(step) || step.Suspend? || step.Resume?) && Enabled(View(), step)
      requires MayPerform(step)
      modifies all
      ensures Valid() && View() == Apply(old(View()), step)
    {
      match step {
        case Announce(t) => Announce(t);
        case Halt(t) => Halt(t);
        case Suspend(t) => var _ := SuspendNp(t);
        case Resume(t) => var _ := ResumeNp(t);
      }
    }

    method PerformBegin(step: Step<Thread>)
      requires Valid() && step.Begin? && Enabled(View(), step)
      modifies this, step.t
      ensures Valid() && View() == Apply(old(View()), step)
    {
      var p: Thread? := null;
      if step.parent.Some? { p := step.parent.value; }
      Begin(step.t, p, step.sig, step.suspended, step.detached);
    }

    method PerformLeave(step: Step<Thread>)
      requires Valid() && step.Leave? && Enabled(View(), step) && MayPerform(step)
      modifies this`linkList, this`deadList, this`live, this`dead, all
      ensures Valid() && View() == Apply(old(View()), step)
    {
      Leave(step.t);
    }

    /** A step of pthread_join. */
    method PerformJoin(step: Step<Thread>)
      requires Valid() && OfJoin(step) && Enabled(View(), step) && MayPerform(step)
      modifies this`joining, this`joined, step.j`state
      ensures Valid() && View() == Apply(old(View()), step)
    {
      match step {
        case JoinBegin(j, t) => var _ := JoinBegin(j, t);
        case JoinEnd(j) => var _ := JoinEnd(j, joining[j]);
      }
    }

    /** Any step but Begin and Leave. */
    method PerformInPlace(step: Step<Thread>)
      requires Valid() && !step.Begin? && !step.Leave? && Enabled(View(), step) && MayPerform(step)
      modifies this, all
      ensures Valid() && View() == Apply(old(View()), step)
    {
      if OfJoin(step) {
        PerformJoin(step);
      } else if OfHandler(step) || step.Suspend? || step.Resume? {
        PerformOnOther(step);
      } else {
        PerformOnRecord(step);
      }
    }

    /** A step of module Registry that can be taken is what the method for it does. */
    method Perform(step: Step<Thread>)
      requires Valid() && Inv(View()) && Enabled(View(), step)
      modifies this, all, if step.Begin? then {step.t} else {}
      ensures Valid() && Inv(View()) && View() == Apply(old(View()), step)
    {
      StepKeepsInv(View(), step);
      Ready(step);
      if step.Begin? {
        PerformBegin(step);
      } else if step.Leave? {
        PerformLeave(step);
      } else {
        PerformInPlace(step);
      }
    }
  }
}
