/**
 The sweep of uthread_terminate (uthread_init.c): before the process ends, every
 thread that waits in one of a number of states is released and then killed, starting
 again at _thread_initial after each.
 */
module Terminate {
  import opened Prelude
  import opened ThreadStates
  import opened Registry
  import opened RegistryLaws
  import opened RegistryObject

  /** How a waiting thread is released. */
  datatype Wakeup = ReleaseMutex | CountSignal | PostAbort | Resume

  function WakeupFor(state: ThreadState): Option<Wakeup>
  {
    if state.MutexWait? then Some(ReleaseMutex)
    else if state.FdlrWait? || state.FdlwWait? || state.FdrWait? || state.FdwWait? then Some(CountSignal)
    else if state.SelectWait? || state.SleepWait? || state.WaitWait? || state.SigWait? then Some(PostAbort)
    else if state.Suspended? || state.SigThread? then Some(Wakeup.Resume)
    else None
  }

  /** The state of a thread after its turn; dies says which threads DosKillThread
      manages to kill. */
  function After(state: ThreadState, turn: Option<Wakeup>, threadid: nat, dies: set<nat>): ThreadState
  {
    if turn == None then state
    else if threadid != 1 && threadid in dies then Dead
    else Running
  }

  function Count(turn: Option<Wakeup>): nat
  {
    if turn == Some(CountSignal) then 1 else 0
  }

  /** The releases of one single pass over the first m of s, when turns says how each is
      released, if it is. */
  function OnePass<T>(s: seq<T>, turns: seq<Option<Wakeup>>, m: nat): seq<(T, Wakeup)>
    requires m <= |s| == |turns|
  {
    if m == 0 then []
    else OnePass(s, turns, m - 1) + (if turns[m - 1] == None then [] else [(s[m - 1], turns[m - 1].value)])
  }

  /** The places of those that are released, in order. */
  function Waiting(turns: seq<Option<Wakeup>>, m: nat): (ix: seq<nat>)
    requires m <= |turns|
    ensures forall i :: 0 <= i < |ix| ==> ix[i] < m && turns[ix[i]].Some?
    ensures forall i, j :: 0 <= i < j < |ix| ==> ix[i] < ix[j]
  {
    if m == 0 then []
    else if turns[m - 1] == None then Waiting(turns, m - 1)
    else Waiting(turns, m - 1) + [m - 1]
  }

  /** Whoever waits is among them. */
  lemma {:induction false} WaitingIsComplete(turns: seq<Option<Wakeup>>, m: nat, k: nat)
    requires k < m <= |turns| && turns[k].Some?
    ensures k in Waiting(turns, m)
  {
    if k < m - 1 {
      WaitingIsComplete(turns, m - 1, k);
    } else {
      var ix := Waiting(turns, m);
      assert ix[|ix| - 1] == k;
    }
  }

  lemma {:induction false} OnePassLength<T>(s: seq<T>, turns: seq<Option<Wakeup>>, m: nat)
    requires m <= |s| == |turns|
    ensures |OnePass(s, turns, m)| == |Waiting(turns, m)|
  {
    if m > 0 { OnePassLength(s, turns, m - 1); }
  }

  /** A single pass releases each waiting thread once, in list order. */
  lemma {:induction false} OnePassInOrder<T>(s: seq<T>, turns: seq<Option<Wakeup>>, m: nat, i: nat)
    requires m <= |s| == |turns| && i < |Waiting(turns, m)| == |OnePass(s, turns, m)|
    ensures var k := Waiting(turns, m)[i]; OnePass(s, turns, m)[i] == (s[k], turns[k].value)
  {
    OnePassLength(s, turns, m - 1);
    var before, ix := OnePass(s, turns, m - 1), Waiting(turns, m - 1);
    if i < |ix| {
      OnePassInOrder(s, turns, m - 1, i);
      assert OnePass(s, turns, m)[i] == before[i] && Waiting(turns, m)[i] == ix[i];
    } else {
      assert turns[m - 1].Some? && i == |ix|;
      assert OnePass(s, turns, m) == before + [(s[m - 1], turns[m - 1].value)];
    }
  }

  /** No thread is still waiting where the sweep left it, and only those that waited have
      been changed. */
  lemma AfterIsNotWaiting(state: ThreadState, threadid: nat, dies: set<nat>)
    ensures var state' := After(state, WakeupFor(state), threadid, dies);
            WakeupFor(state') == None && (state' == state <==> WakeupFor(state) == None)
  {
  }

  /** Whom the sweep leaves alone, and what becomes of the others: threads that wait for a
      condition or in pthread_join are not released, nor threads that run or are dead;
      of the others thread 1 is set Running, and everybody else Dead if he can be killed.
      A signal is counted exactly for those that wait for a file. */
  lemma SweepSparesExactly(state: ThreadState, threadid: nat, dies: set<nat>)
    ensures var turn := WakeupFor(state);
            var state' := After(state, turn, threadid, dies);
            && (turn == None <==> state in {Running, CondWait, Join, Dead})
            && (turn == None ==> state' == state)
            && (turn.Some? ==> state' == if threadid in dies - {1} then Dead else Running)
            && (turn == Some(ReleaseMutex) <==> state == MutexWait)
            && (turn == Some(Wakeup.Resume) <==> state in {Suspended, SigThread})
            && (turn == Some(PostAbort) <==> state in {SelectWait, SleepWait, WaitWait, SigWait})
            && (Count(turn) == 1 <==> state in {FdlrWait, FdlwWait, FdrWait, FdwWait})
            && Count(turn) <= 1
  {
  }

  /** How threads in the given states are released. */
  function Turns(states: seq<ThreadState>): (turns: seq<Option<Wakeup>>)
    ensures |turns| == |states| && forall i :: 0 <= i < |states| ==> turns[i] == WakeupFor(states[i])
  {
    if states == [] then [] else Turns(states[..|states| - 1]) + [WakeupFor(states[|states| - 1])]
  }

  /** The first m threads have had their turn, the others not yet. */
  ghost predicate Swept(s: seq<Thread>, states: seq<ThreadState>, counts: seq<int>, dies: set<nat>, m: nat)
    requires |s| == |states| == |counts|
    reads s
  {
    && (forall i :: 0 <= i < m && i < |s| ==>
          && s[i].state == After(states[i], WakeupFor(states[i]), s[i].threadid, dies)
          && s[i].sigPending == counts[i] + Count(WakeupFor(states[i]))
          && WakeupFor(s[i].state) == None)
    && (forall i :: m <= i < |s| ==> s[i].state == states[i] && s[i].sigPending == counts[i])
  }

  /** How far the sweep has come, and what it has released so far. */
  ghost predicate Progress(s: seq<Thread>, states: seq<ThreadState>, counts: seq<int>, dies: set<nat>, m: nat,
                           log: seq<(Thread, Wakeup)>)
    reads s
  {
    && m <= |s| == |states| == |counts|
    && Swept(s, states, counts, dies, m) && log == OnePass(s, Turns(states), m)
  }

  /** The sweep, with s the threads reachable from initial and the states they are in. It
      ends although it starts over after every release, and what it does is one single
      pass, after which nobody waits any more. */
  method Sweep(initial: Thread?, dies: set<nat>,
               ghost s: seq<Thread>, ghost states: seq<ThreadState>, ghost counts: seq<int>)
    returns (log: seq<(Thread, Wakeup)>)
    requires Linked(initial, s) && |states| == |s| == |counts| && Swept(s, states, counts, dies, 0)
    modifies s`state, s`sigPending
    ensures log == OnePass(s, Turns(states), |s|)
    ensures Swept(s, states, counts, dies, |s|)
  {
    log := [];
    ghost var m := 0;                  // s[..m] have had their turn
    var again := true;
    while again
      invariant Progress(s, states, counts, dies, m, log)
      invariant again || m == |s|
      decreases |s| - m, again
    {
      again, log, m := ReleaseNext(initial, dies, s, states, counts, m, log);
    }
  }

  /** One round of the sweep: the walk to the first thread that waits, and its release. */
  method ReleaseNext(initial: Thread?, dies: set<nat>, ghost s: seq<Thread>,
                     ghost states: seq<ThreadState>, ghost counts: seq<int>, ghost m: nat,
                     log: seq<(Thread, Wakeup)>)
    returns (again: bool, log': seq<(Thread, Wakeup)>, ghost m': nat)
    requires Linked(initial, s) && Progress(s, states, counts, dies, m, log)
    modifies s`state, s`sigPending
    ensures Progress(s, states, counts, dies, m', log')
    ensures if again then m < m' else m' == |s|
  {
    var others, w;
    others, w, m' := NextWaiting(initial, dies, s, states, counts, m);
    NothingToDo(s, states, m, m');
    again, log' := others != null, log;
    if others != null {
      TakeTurn(others, w, dies, s, states, counts, m');
      OneMore(s, states, m', w);
      log' := log + [(others, w)];
      m' := m' + 1;
    }
  }

  /** The walk from the initial thread to the first one that waits, when the first m have
      had their turn. */
  method NextWaiting(initial: Thread?, dies: set<nat>, ghost s: seq<Thread>,
                     ghost states: seq<ThreadState>, ghost counts: seq<int>, ghost m: nat)
    returns (others: Thread?, w: Wakeup, ghost k: nat)
    requires Linked(initial, s) && |states| == |s| == |counts| && Swept(s, states, counts, dies, m) && m <= |s|
    ensures m <= k <= |s| && others == At(s, k) && Swept(s, states, counts, dies, k)
    ensures forall i :: m <= i < k ==> WakeupFor(states[i]) == None
    ensures others != null ==> WakeupFor(states[k]) == Some(w)
  {
    others, k, w := initial, 0, Wakeup.Resume;
    while others != null && WakeupFor(others.state) == None
      invariant k <= |s| && others == At(s, k)
      invariant forall i :: 0 <= i < k ==> WakeupFor(s[i].state) == None
      decreases |s| - k
    {
      others := others.nxt;
      k := k + 1;
    }
    if others != null {
      w := WakeupFor(others.state).value;
    }
    assert forall i :: m <= i < k ==> s[i].state == states[i];
  }

  /** The release of the m-th thread. */
  method TakeTurn(t: Thread, w: Wakeup, dies: set<nat>, ghost s: seq<Thread>,
                  ghost states: seq<ThreadState>, ghost counts: seq<int>, ghost m: nat)
    requires Linked(At(s, 0), s) && |states| == |s| == |counts| && Swept(s, states, counts, dies, m)
    requires m < |s| && t == s[m] && WakeupFor(states[m]) == Some(w)
    modifies t`state, t`sigPending
    ensures Swept(s, states, counts, dies, m + 1)
  {
    OnlyOnce(s, m);
    if w.CountSignal? {
      t.sigPending := t.sigPending + 1;
    }
    t.state := Running;
    if t.threadid != 1 && t.threadid in dies {
      t.state := Dead;
    }
  }

  lemma {:induction false} NothingToDo<T>(s: seq<T>, states: seq<ThreadState>, m: nat, k: nat)
    requires m <= k <= |s| == |states| && forall i :: m <= i < k ==> WakeupFor(states[i]) == None
    ensures OnePass(s, Turns(states), k) == OnePass(s, Turns(states), m)
    decreases k
  {
    if m < k { NothingToDo(s, states, m, k - 1); }
  }

  lemma OneMore<T>(s: seq<T>, states: seq<ThreadState>, m: nat, w: Wakeup)
    requires m < |s| == |states| && WakeupFor(states[m]) == Some(w)
    ensures OnePass(s, Turns(states), m + 1) == OnePass(s, Turns(states), m) + [(s[m], w)]
  {
  }

  /** A list in order of age, the newest thread first. */
  ghost predicate Aged(live: seq<Thread>)
    reads live
  {
    forall i, j :: 0 <= i < j < |live| ==> live[i].born > live[j].born
  }

  /** The list of live threads always is: this is what TerminateFromLive asks of it. */
  lemma LiveListIsAged(r: Threads)
    requires r.Valid() && Inv(r.View())
    ensures Linked(At(r.live, 0), r.live) && Aged(r.live)
  {
    var recs := r.View().recs;
    forall i, j | 0 <= i < j < |r.live| ensures r.live[i].born > r.live[j].born {
      assert recs[r.live[i]].born == r.live[i].born && recs[r.live[j]].born == r.live[j].born;
    }
  }

  /** From a live thread one reaches exactly the live threads that are not newer. */
  lemma OnlyOlderAreReached(live: seq<Thread>, k: nat)
    requires Linked(At(live, 0), live) && Aged(live) && k < |live|
    ensures Linked(live[k], live[k..])
    ensures forall u :: u in live ==> (u in live[k..] <==> u.born <= live[k].born)
  {
    var s := live[k..];
    forall i | 0 <= i < |s| ensures s[i].nxt == At(s, i + 1) {
      assert s[i] == live[k + i];
    }
    forall u | u in live ensures u in s <==> u.born <= live[k].born {
      var i :| 0 <= i < |live| && live[i] == u;
      assert k <= i ==> s[i - k] == u;
      assert forall j :: 0 <= j < |s| ==> s[j] == live[k + j];
    }
  }

  function WithDead(s: seq<Thread>, states: seq<ThreadState>, self: Thread): (states': seq<ThreadState>)
    requires |s| == |states|
    ensures |states'| == |s| && forall i :: 0 <= i < |s| ==> states'[i] == if s[i] == self then Dead else states[i]
  {
    seq(|s|, i requires 0 <= i < |s| => if s[i] == self then Dead else states[i])
  }

  /** uthread_terminate in thread self: it is dead, and then the sweep. */
  method DieAndSweep(self: Thread, initial: Thread?, dies: set<nat>,
                     ghost s: seq<Thread>, ghost states: seq<ThreadState>, ghost counts: seq<int>)
    returns (log: seq<(Thread, Wakeup)>)
    requires Linked(initial, s) && |states| == |s| == |counts| && Swept(s, states, counts, dies, 0)
    modifies s`state, s`sigPending, self`state
    ensures log == OnePass(s, Turns(WithDead(s, states, self)), |s|)
    ensures Swept(s, WithDead(s, states, self), counts, dies, |s|)
  {
    self.state := Dead;
    log := Sweep(initial, dies, s, WithDead(s, states, self), counts);
  }

  /** What the sweep from the k-th thread of a list in order of age reaches. */
  lemma NewerAreNotReached(live: seq<Thread>, k: nat)
    requires Linked(At(live, 0), live) && Aged(live) && k < |live|
    ensures Linked(live[k], live[k..]) && forall u :: u in live[k..] ==> u in live
    ensures forall i :: 0 <= i < k ==> live[i].born > live[k].born && live[i] !in live[k..]
  {
    OnlyOlderAreReached(live, k);
    forall i | 0 <= i < k ensures live[i].born > live[k].born && live[i] !in live[k..] {
      assert live[i].born > live[k].born;
    }
  }

  /** The same for the registry in any state it can be in. */
  lemma NewerRegisteredAreNotReached(r: Threads, k: nat)
    requires r.Valid() && Inv(r.View()) && k < |r.live|
    ensures Linked(r.live[k], r.live[k..]) && forall u :: u in r.live[k..] ==> u in r.live
    ensures forall i :: 0 <= i < k ==> r.live[i].born > r.live[k].born && r.live[i] !in r.live[k..]
  {
    LiveListIsAged(r);
    NewerAreNotReached(r.live, k);
  }

  /** The same while the initial thread, the k-th of the list of live threads, lives. The
      threads before it in the list, which are those created after it, are not reached,
      whatever they wait for; all others that wait are released. */
  method TerminateFromLive(self: Thread, initial: Thread, dies: set<nat>, ghost live: seq<Thread>, ghost k: nat,
                           ghost s: seq<Thread>, ghost states: seq<ThreadState>, ghost counts: seq<int>)
    returns (log: seq<(Thread, Wakeup)>)
    requires Linked(At(live, 0), live) && Aged(live) && k < |live| && initial == live[k] && self in live
    requires s == live[k..] && |states| == |s| == |counts| && Swept(s, states, counts, dies, 0)
    modifies live`state, live`sigPending
    ensures log == OnePass(s, Turns(WithDead(s, states, self)), |s|)
    ensures Swept(s, WithDead(s, states, self), counts, dies, |s|)
    ensures forall i :: 0 <= i < k && live[i] != self ==>
              live[i].born > initial.born && live[i].state == old(live[i].state)
  {
    NewerAreNotReached(live, k);
    log := DieAndSweep(self, initial, dies, s, states, counts);
  }
}
