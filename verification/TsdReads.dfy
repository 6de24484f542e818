/**
 What callers see of thread-specific data, told from the calls alone: which keys exist
 and with which destructor, by what pthread_key_create and pthread_key_delete have
 returned; and what a thread reads, by what it has stored.
 */
module TsdReads {
  import opened Prelude
  import opened Tsd
  import opened TsdAccounting

  /** The step is a successful creation of key k. */
  predicate Creates(s: State, step: Step, k: nat)
  {
    step.Create? && CreateKey(s, step.destructor).1 == Success && CreateKey(s, step.destructor).2 == k
  }

  /** The destructor of key k, if k was created and not deleted since. */
  function Destructor(steps: seq<Step>, k: nat): Option<Pointer>
  {
    if steps == [] then None
    else
      var front, step := steps[..|steps| - 1], steps[|steps| - 1];
      DestructorAfter(Run(Start(), front), step, k, Destructor(front, k))
  }

  function DestructorAfter(s: State, step: Step, k: nat, before: Option<Pointer>): Option<Pointer>
  {
    if Creates(s, step, k) then Some(step.destructor)
    else if step == Delete(k) && DeleteKey(s, k).1 == Success then None
    else before
  }

  /** The last value that t stored under k since it was registered and the key created;
      NULL if there is none. */
  function LastStored(steps: seq<Step>, t: Tid, k: nat): Pointer
  {
    if steps == [] then NULL
    else
      var front, step := steps[..|steps| - 1], steps[|steps| - 1];
      StoredAfter(Run(Start(), front), step, t, k, Destructor(front, k).Some?, LastStored(front, t, k))
  }

  function StoredAfter(s: State, step: Step, t: Tid, k: nat, known: bool, before: Pointer): Pointer
  {
    if step.Set? && step.t == t && step.key == k && Enabled(s, step) && known then step.value
    else if Creates(s, step, k) || (step == Spawn(t) && Enabled(s, step)) then NULL
    else before
  }

  ghost predicate KeyIs(s: State, k: nat, destructor: Option<Pointer>)
  {
    if k < KEYS_MAX && s.keys[k].count != 0 then destructor == Some(s.keys[k].destructor) else destructor == None
  }

  /** What thread t has under k while it lives. */
  ghost predicate SlotIs(s: State, t: Tid, k: nat, destructor: Option<Pointer>, value: Pointer)
  {
    t in s.threads && s.threads[t].phase == Live && destructor.Some? && k < KEYS_MAX ==> s.threads[t].slots[k] == value
  }

  lemma SweepStepKeepsKey(s: State, step: Step, k: nat)
    requires Inv(s) && k < KEYS_MAX && (step.SweepOn? || step.Return?) && Enabled(s, step)
    ensures var s' := Apply(s, step);
            (s'.keys[k].count != 0 <==> s.keys[k].count != 0) && s'.keys[k].destructor == s.keys[k].destructor
  {
    var th := s.threads[step.t];
    if step.SweepOn? && th.slots[k] != NULL { BusyKeyCount(s, k, step.t); }
    if step.Return? && th.phase.key == k { BusyKeyCount(s, k, step.t); }
    assert KeyBalanced(s, k);
  }

  lemma SetKeepsKey(s: State, step: Step, k: nat)
    requires Inv(s) && k < KEYS_MAX && step.Set? && Enabled(s, step)
    ensures var s' := Apply(s, step);
            (s'.keys[k].count != 0 <==> s.keys[k].count != 0) && s'.keys[k].destructor == s.keys[k].destructor
  {
    if s.threads[step.t].slots[k] != NULL { BusyKeyCount(s, k, step.t); }
    assert KeyBalanced(s, k);
  }

  lemma KeyAfterStep(s: State, step: Step, k: nat, destructor: Option<Pointer>)
    requires Inv(s) && KeyIs(s, k, destructor)
    ensures KeyIs(Apply(s, step), k, DestructorAfter(s, step, k, destructor))
  {
    if k < KEYS_MAX && Enabled(s, step) {
      assert KeyBalanced(s, k);
      if step.SweepOn? || step.Return? {
        SweepStepKeepsKey(s, step, k);
      } else if step.Set? {
        SetKeepsKey(s, step, k);
      }
    }
  }

  lemma SlotAfterStep(s: State, step: Step, t: Tid, k: nat, destructor: Option<Pointer>, value: Pointer)
    requires Inv(s) && KeyIs(s, k, destructor) && SlotIs(s, t, k, destructor, value)
    ensures SlotIs(Apply(s, step), t, k, DestructorAfter(s, step, k, destructor),
                   StoredAfter(s, step, t, k, destructor.Some?, value))
  {
    if Creates(s, step, k) && t in s.threads {
      assert KeyBalanced(s, k);
      assert t !in Holders(s, k);
    }
  }

  lemma {:induction false} Known(steps: seq<Step>, t: Tid, k: nat)
    ensures var s, d := Run(Start(), steps), Destructor(steps, k);
            Inv(s) && KeyIs(s, k, d) && SlotIs(s, t, k, d, LastStored(steps, t, k))
  {
    RunKeepsInv(steps);
    if steps != [] {
      var front, step := steps[..|steps| - 1], steps[|steps| - 1];
      Known(front, t, k);
      KeyAfterStep(Run(Start(), front), step, k, Destructor(front, k));
      SlotAfterStep(Run(Start(), front), step, t, k, Destructor(front, k), LastStored(front, t, k));
    }
  }

  // ------------------------------------------------------------- the main results

  /** In every reachable state a live thread reads, under a key that exists, the value it
      last stored under it since the key was created, and NULL if it stored none; under
      any other key it reads NULL. */
  lemma ReadsWhatWasStored(steps: seq<Step>, t: Tid, k: nat)
    requires t in Run(Start(), steps).threads && Run(Start(), steps).threads[t].phase == Live
    ensures GetSpecific(Run(Start(), steps), t, k)
            == if Destructor(steps, k).Some? then LastStored(steps, t, k) else NULL
  {
    Known(steps, t, k);
    assert ThreadBalanced(Run(Start(), steps).threads[t]);
  }

  /** A store succeeds exactly if the key exists, and is EINVAL and without effect on any
      read if not. It is what the thread then reads under the key; under other keys, and
      for other threads, nothing changes. */
  lemma StoreThenRead(steps: seq<Step>, t: Tid, k: nat, value: Pointer, u: Tid, j: nat)
    requires t in Run(Start(), steps).threads && u in Run(Start(), steps).threads
    ensures var s := Run(Start(), steps);
            var (s', status) := SetSpecific(s, t, k, value);
            && status == (if Destructor(steps, k).Some? then Success else Einval)
            && u in s'.threads
            && GetSpecific(s', u, j)
               == if u == t && j == k && status == Success then value else GetSpecific(s, u, j)
  {
    Known(steps, t, k);
    Known(steps, u, j);
    var s := Run(Start(), steps);
    assert ThreadBalanced(s.threads[t]);
    if k < KEYS_MAX && j == k && s.keys[k].count != 0 {
      KeyStaysCounted(s, t, k, value);
    }
  }

  lemma KeyStaysCounted(s: State, t: Tid, k: nat, value: Pointer)
    requires Inv(s) && t in s.threads && k < KEYS_MAX && s.keys[k].count != 0
    ensures SetSpecific(s, t, k, value).0.keys[k].count != 0
  {
    if s.threads[t].slots[k] != NULL { BusyKeyCount(s, k, t); }
    assert KeyBalanced(s, k);
  }

  /** The sweep at exit calls a destructor for slot k exactly if the slot holds a value
      and k was created with a destructor; the value is what the thread reads there, and
      it reads NULL afterwards. */
  lemma SweepCallsTheKeysDestructor(steps: seq<Step>, t: Tid)
    requires Enabled(Run(Start(), steps), SweepOn(t))
    ensures var s := Run(Start(), steps);
            var k, s' := s.threads[t].phase.key, Advance(s, t);
            && t in s'.threads && GetSpecific(s', t, k) == NULL
            && (s'.threads[t].phase.Destroying? <==>
                  GetSpecific(s, t, k) != NULL && Destructor(steps, k).Some? && Destructor(steps, k).value != NULL)
            && (s'.threads[t].phase.Destroying? ==>
                  s'.threads[t].phase.data == GetSpecific(s, t, k) && s'.threads[t].phase.key == k)
  {
    var s := Run(Start(), steps);
    var th := s.threads[t];
    Known(steps, t, th.phase.key);
    assert ThreadBalanced(th);
    if th.count == 0 { ZeroCountMeansEmpty(th); }
    if th.slots[th.phase.key] != NULL { BusyKeyCount(s, th.phase.key, t); }
  }

  /** pthread_key_delete in every reachable state: EINVAL exactly out of range; 0 and no
      effect for a number that is not in use; EBUSY and no effect exactly while some
      thread has a value under the key or a destructor for it runs. */
  lemma DeletionAnswers(steps: seq<Step>, k: nat)
    ensures var s := Run(Start(), steps);
            var (s', status) := DeleteKey(s, k);
            && (status == Einval <==> k >= KEYS_MAX)
            && (status == Ebusy <==>
                  k < KEYS_MAX && Destructor(steps, k).Some? && (Holders(s, k) != {} || InFlight(s, k) != {}))
            && status in {Success, Einval, Ebusy}
            && (s' == s <==> !(status == Success && Destructor(steps, k).Some?))
  {
    Known(steps, 0, k);
    if k < KEYS_MAX && Run(Start(), steps).keys[k].count != 0 { DeleteWorksExactlyWhenUnused(steps, k); }
  }

  /** Thread t has called pthread_setspecific. */
  ghost predicate HasStored(steps: seq<Step>, t: Tid)
  {
    exists i :: 0 <= i < |steps| && steps[i].Set? && steps[i].t == t && Enabled(Run(Start(), steps[..i]), steps[i])
  }

  lemma HasStoredAfter(front: seq<Step>, step: Step, t: Tid)
    ensures HasStored(front + [step], t)
            <==> HasStored(front, t) || (step.Set? && step.t == t && Enabled(Run(Start(), front), step))
  {
    var steps := front + [step];
    assert steps[..|front|] == front;
    forall i | 0 <= i < |front| ensures steps[..i] == front[..i] && steps[i] == front[i] {
    }
    if HasStored(front, t) {
      var i :| 0 <= i < |front| && front[i].Set? && front[i].t == t && Enabled(Run(Start(), front[..i]), front[i]);
      assert steps[i].Set? && steps[..i] == front[..i];
    }
  }

  predicate SlotsAre(s: State, t: Tid, stored: bool)
  {
    if t in s.threads then s.threads[t].hasSlots <==> stored else !stored
  }

  lemma SlotsAfterStep(s: State, step: Step, t: Tid, stored: bool)
    requires SlotsAre(s, t, stored)
    ensures SlotsAre(Apply(s, step), t, stored || (step.Set? && step.t == t && Enabled(s, step)))
  {
  }

  lemma {:induction false} SlotsAreAllocatedByStores(steps: seq<Step>, t: Tid)
    ensures SlotsAre(Run(Start(), steps), t, HasStored(steps, t))
  {
    if steps != [] {
      var front, step := steps[..|steps| - 1], steps[|steps| - 1];
      SlotsAreAllocatedByStores(front, t);
      SlotsAfterStep(Run(Start(), front), step, t, HasStored(front, t));
      HasStoredAfter(front, step, t);
      assert steps == front + [step];
    }
  }

  /** A thread that exits makes the whole sweep, from the first slot of the first pass, if
      and only if it has ever called pthread_setspecific, were it without success. */
  lemma SweepRunsExactlyAfterAStore(steps: seq<Step>, t: Tid)
    requires Enabled(Run(Start(), steps), BeginExit(t))
    ensures var s' := Apply(Run(Start(), steps), BeginExit(t));
            t in s'.threads && s'.threads[t].phase == if HasStored(steps, t) then Sweeping(0, 0) else Gone
  {
    SlotsAreAllocatedByStores(steps, t);
  }
}
