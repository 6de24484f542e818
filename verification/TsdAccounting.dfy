/** What the machine of module Tsd keeps over every run. */
module TsdAccounting {
  import opened Prelude
  import opened Tsd

  // ------------------------------------------------------- the three counters

  /** Writing one slot moves the number of filled slots by Delta. */
  lemma FilledAfterWrite(slots: Slots, k: nat, v: Pointer)
    requires k < KEYS_MAX
    ensures |Filled(slots[k := v])| == |Filled(slots)| + Delta(slots[k], v)
  {
    var before, after := Filled(slots), Filled(slots[k := v]);
    if v == NULL {
      assert after == before - {k};
    } else {
      assert after == before + {k};
    }
  }

  /** Replacing one thread's record moves the holders of k by its slot for k... */
  lemma HoldersAfterUpdate(s: State, s': State, t: Tid, k: nat)
    requires k < KEYS_MAX && t in s.threads && t in s'.threads
    requires s'.threads == s.threads[t := s'.threads[t]]
    ensures |Holders(s', k)| == |Holders(s, k)| + Delta(s.threads[t].slots[k], s'.threads[t].slots[k])
  {
    if s'.threads[t].slots[k] == NULL {
      assert Holders(s', k) == Holders(s, k) - {t};
    } else {
      assert Holders(s', k) == Holders(s, k) + {t};
    }
  }

  /** ... and the destructors in flight by its phase. */
  lemma InFlightAfterUpdate(s: State, s': State, t: Tid, k: nat)
    requires t in s.threads && t in s'.threads
    requires s'.threads == s.threads[t := s'.threads[t]]
    ensures |InFlight(s', k)| ==
            |InFlight(s, k)| - (if t in InFlight(s, k) then 1 else 0) + (if t in InFlight(s', k) then 1 else 0)
  {
    if t in InFlight(s', k) {
      assert InFlight(s', k) == InFlight(s, k) + {t};
    } else {
      assert InFlight(s', k) == InFlight(s, k) - {t};
    }
  }

  /** A thread whose counter is zero holds nothing. */
  lemma ZeroCountMeansEmpty(th: Thread)
    requires ThreadBalanced(th)
    ensures th.count == 0 <==> th.slots == EmptySlots()
  {
    assert Filled(EmptySlots()) == {};
    if th.count == 0 {
      assert Filled(th.slots) == {};
      forall k | 0 <= k < KEYS_MAX ensures th.slots[k] == EmptySlots()[k] {
        assert k !in Filled(th.slots);
      }
    }
  }

  /** A key that is held or whose destructor runs has a count of at least 2. */
  lemma BusyKeyCount(s: State, k: nat, t: Tid)
    requires Inv(s) && k < KEYS_MAX && (t in Holders(s, k) || t in InFlight(s, k))
    ensures s.keys[k].count >= 2
  {
    assert KeyBalanced(s, k);
    if t in Holders(s, k) {
      SubsetCardinality({t}, Holders(s, k));
    } else {
      SubsetCardinality({t}, InFlight(s, k));
    }
  }

  lemma CreateKeepsInv(s: State, d: Pointer)
    requires Inv(s)
    ensures Inv(CreateKey(s, d).0)
  {
    var (s', _, key) := CreateKey(s, d);
    forall k | 0 <= k < KEYS_MAX ensures KeyBalanced(s', k) {
      assert KeyBalanced(s, k);
      assert Holders(s', k) == Holders(s, k) && InFlight(s', k) == InFlight(s, k);
    }
  }

  lemma DeleteKeepsInv(s: State, key: nat)
    requires Inv(s)
    ensures Inv(DeleteKey(s, key).0)
  {
    var s' := DeleteKey(s, key).0;
    forall k | 0 <= k < KEYS_MAX ensures KeyBalanced(s', k) {
      assert KeyBalanced(s, k);
      assert Holders(s', k) == Holders(s, k) && InFlight(s', k) == InFlight(s, k);
    }
  }

  lemma SetKeepsInv(s: State, t: Tid, key: nat, v: Pointer)
    requires Inv(s) && t in s.threads && s.threads[t].phase != Gone
    ensures Inv(SetSpecific(s, t, key, v).0)
  {
    var s' := SetSpecific(s, t, key, v).0;
    var th, th' := s.threads[t], s'.threads[t];
    if key < KEYS_MAX && s.keys[key].count != 0 {
      FilledAfterWrite(th.slots, key, v);
    }
    assert ThreadBalanced(th');
    forall k | 0 <= k < KEYS_MAX ensures KeyBalanced(s', k) {
      assert KeyBalanced(s, k);
      HoldersAfterUpdate(s, s', t, k);
      InFlightAfterUpdate(s, s', t, k);
      if s.keys[k].count != 0 && k == key && th.slots[k] != NULL {
        BusyKeyCount(s, k, t);
      } else if s.keys[k].count == 0 && k != key {
        assert t !in Holders(s, k) && t !in InFlight(s, k);
      } else if s.keys[k].count == 0 {
        assert t !in Holders(s, k) && t !in InFlight(s, k);
      }
    }
  }

  lemma AdvanceKeepsInv(s: State, t: Tid)
    requires Inv(s) && Enabled(s, SweepOn(t))
    ensures Inv(Advance(s, t))
  {
    var s' := Advance(s, t);
    var th, key := s.threads[t], s.threads[t].phase.key;
    FilledAfterWrite(th.slots, key, NULL);
    assert ThreadBalanced(s'.threads[t]);
    forall k | 0 <= k < KEYS_MAX ensures KeyBalanced(s', k) {
      assert KeyBalanced(s, k);
      HoldersAfterUpdate(s, s', t, k);
      InFlightAfterUpdate(s, s', t, k);
      if t in Holders(s, k) { BusyKeyCount(s, k, t); }
      assert t !in InFlight(s, k);
    }
  }

  lemma ReturnKeepsInv(s: State, t: Tid)
    requires Inv(s) && Enabled(s, Return(t))
    ensures Inv(DestructorReturns(s, t))
  {
    var s' := DestructorReturns(s, t);
    assert ThreadBalanced(s'.threads[t]);
    forall k | 0 <= k < KEYS_MAX ensures KeyBalanced(s', k) {
      assert KeyBalanced(s, k);
      HoldersAfterUpdate(s, s', t, k);
      InFlightAfterUpdate(s, s', t, k);
      if t in InFlight(s, k) { BusyKeyCount(s, k, t); }
    }
  }

  lemma OtherStepsKeepInv(s: State, step: Step)
    requires Inv(s) && (step.Spawn? || step.BeginExit?)
    ensures Inv(Apply(s, step))
  {
    var s' := Apply(s, step);
    assert Filled(EmptySlots()) == {};
    forall k | 0 <= k < KEYS_MAX ensures KeyBalanced(s', k) {
      assert KeyBalanced(s, k);
      assert Holders(s', k) == Holders(s, k);
      assert InFlight(s', k) == InFlight(s, k);
    }
  }

  lemma StepKeepsInv(s: State, step: Step)
    requires Inv(s)
    ensures Inv(Apply(s, step))
  {
    if Enabled(s, step) {
      match step
      case Create(d) => CreateKeepsInv(s, d);
      case Delete(k) => DeleteKeepsInv(s, k);
      case Set(t, k, v) => SetKeepsInv(s, t, k, v);
      case SweepOn(t) => AdvanceKeepsInv(s, t);
      case Return(t) => ReturnKeepsInv(s, t);
      case Spawn(_) => OtherStepsKeepInv(s, step);
      case BeginExit(_) => OtherStepsKeepInv(s, step);
    }
  }

  /** In every reachable state the counters balance: a created key counts itself,
      the threads holding a value under it (abandoned values included) and its
      running destructors; a thread counts its non-null slots. */
  lemma {:induction false} RunKeepsInv(steps: seq<Step>)
    ensures Inv(Run(Start(), steps))
  {
    if steps == [] {
      forall k | 0 <= k < KEYS_MAX ensures KeyBalanced(Start(), k) {
        assert Holders(Start(), k) == {} && InFlight(Start(), k) == {};
      }
    } else {
      RunKeepsInv(steps[..|steps| - 1]);
      StepKeepsInv(Run(Start(), steps[..|steps| - 1]), steps[|steps| - 1]);
    }
  }

  // ------------------------------------------------------- what callers rely on

  /** The count of a key that exists, split as the design has it. */
  lemma CountOfCreatedKey(steps: seq<Step>, k: nat)
    requires k < KEYS_MAX
    ensures var s := Run(Start(), steps);
            var live := set t | t in Holders(s, k) && s.threads[t].phase != Gone;
            var abandoned := set t | t in Holders(s, k) && s.threads[t].phase == Gone;
            s.keys[k].count == 0
            || s.keys[k].count == 1 + |live| + |InFlight(s, k)| + |abandoned|
  {
    RunKeepsInv(steps);
    var s := Run(Start(), steps);
    assert KeyBalanced(s, k);
    var live := set t | t in Holders(s, k) && s.threads[t].phase != Gone;
    var abandoned := set t | t in Holders(s, k) && s.threads[t].phase == Gone;
    assert Holders(s, k) == live + abandoned;
  }

  /** A key handed out by key_create is NULL in every thread, and no destructor
      of a former owner of the number is still running. */
  lemma NewKeyIsNullEverywhere(steps: seq<Step>, d: Pointer)
    ensures var (s, status, k) := CreateKey(Run(Start(), steps), d);
            status == Success ==>
              && k < KEYS_MAX && InFlight(s, k) == {}
              && forall t :: t in s.threads ==> s.threads[t].slots[k] == NULL && GetSpecific(s, t, k) == NULL
  {
    var s0 := Run(Start(), steps);
    RunKeepsInv(steps);
    var (s, status, k) := CreateKey(s0, d);
    if status == Success {
      assert KeyBalanced(s0, k);
      assert InFlight(s, k) == InFlight(s0, k);
      forall t | t in s.threads ensures s.threads[t].slots[k] == NULL {
        assert t !in Holders(s0, k);
      }
    }
  }

  /** key_create fails exactly when all keys are in use. */
  lemma CreateFailsOnlyWhenFull(s: State, d: Pointer)
    ensures CreateKey(s, d).1 == Eagain <==> forall k :: 0 <= k < KEYS_MAX ==> s.keys[k].count != 0
  {
    var k := FirstFree(s.keys);
  }

  /** key_delete of an existing key works exactly when nobody holds a value and
      no destructor for it is in flight; called from the key's own destructor it
      is refused and changes nothing. */
  lemma DeleteWorksExactlyWhenUnused(steps: seq<Step>, k: nat)
    requires k < KEYS_MAX && Run(Start(), steps).keys[k].count != 0
    ensures var s := Run(Start(), steps);
            var (s', status) := DeleteKey(s, k);
            && (Holders(s, k) == {} && InFlight(s, k) == {} ==>
                  status == Success && s' == s.(keys := s.keys[k := Key(0, NULL)]))
            && (Holders(s, k) != {} || InFlight(s, k) != {} ==> status == Ebusy && s' == s)
  {
    RunKeepsInv(steps);
    var s := Run(Start(), steps);
    assert KeyBalanced(s, k);
    if t :| t in Holders(s, k) { BusyKeyCount(s, k, t); }
    if t :| t in InFlight(s, k) { BusyKeyCount(s, k, t); }
  }

  /** Only key_delete takes an existing key's count below 1. */
  lemma OnlyDeleteFreesAKey(steps: seq<Step>, step: Step, k: nat)
    requires k < KEYS_MAX && Run(Start(), steps).keys[k].count != 0
    ensures var s := Run(Start(), steps);
            s.keys[k].count >= 1 && (step == Delete(k) || Apply(s, step).keys[k].count >= 1)
  {
    RunKeepsInv(steps);
    var s := Run(Start(), steps);
    assert KeyBalanced(s, k);
    if Enabled(s, step) {
      if step.Set? && s.threads[step.t].slots[k] != NULL {
        assert step.t in Holders(s, k);
        BusyKeyCount(s, k, step.t);
      } else if step.SweepOn? && s.threads[step.t].slots[k] != NULL {
        assert step.t in Holders(s, k);
        BusyKeyCount(s, k, step.t);
      } else if step.Return? && s.threads[step.t].phase.key == k {
        assert step.t in InFlight(s, k);
        BusyKeyCount(s, k, step.t);
      }
    }
  }

  // --------------------------------------------------------------- exit sweep

  const SWEEP_LENGTH: nat := DESTRUCTOR_ITERATIONS * KEYS_MAX

  /** How many destructors thread t can still start. */
  ghost function Budget(s: State, t: Tid): int
  {
    if t !in s.threads then SWEEP_LENGTH else
    match s.threads[t].phase
    case Live => SWEEP_LENGTH
    case Sweeping(pass, key) => SWEEP_LENGTH - (pass * KEYS_MAX + key)
    case Destroying(pass, key, _) => SWEEP_LENGTH - (pass * KEYS_MAX + key) - 1
    case Gone => 0
  }

  ghost predicate Starts(s: State, step: Step, t: Tid)
  {
    step == SweepOn(t) && Enabled(s, step) && Apply(s, step).threads[t].phase.Destroying?
  }

  /** The number of destructors thread t starts in a run. */
  ghost function Started(steps: seq<Step>, t: Tid): nat
  {
    if steps == [] then 0 else
    var front := steps[..|steps| - 1];
    Started(front, t) + if Starts(Run(Start(), front), steps[|steps| - 1], t) then 1 else 0
  }

  lemma StepSpendsBudget(s: State, step: Step, t: Tid)
    requires Inv(s)
    ensures Budget(Apply(s, step), t) + (if Starts(s, step, t) then 1 else 0) <= Budget(s, t)
    ensures Budget(s, t) >= 0
  {
    if t in s.threads { assert ThreadBalanced(s.threads[t]); }
    if Enabled(s, step) && t in s.threads {
      var s' := Apply(s, step);
      match step
      case SweepOn(u) => if u != t { assert s'.threads[t] == s.threads[t]; }
      case Return(u) => if u != t { assert s'.threads[t] == s.threads[t]; }
      case _ =>
    }
  }

  /** An exit sweep starts at most 4 * 256 destructors, whatever they do. */
  lemma {:induction false} AtMost1024Destructors(steps: seq<Step>, t: Tid)
    ensures Started(steps, t) + Budget(Run(Start(), steps), t) <= SWEEP_LENGTH
    ensures Started(steps, t) <= SWEEP_LENGTH
  {
    RunKeepsInv(steps);
    if steps != [] {
      var front := steps[..|steps| - 1];
      AtMost1024Destructors(front, t);
      RunKeepsInv(front);
      StepSpendsBudget(Run(Start(), front), steps[|steps| - 1], t);
    }
    StepSpendsBudget(Run(Start(), steps), Delete(0), t);
  }

  /** Where the values of thread t come from in one step. */
  lemma ValuesCameFrom(s: State, step: Step, t: Tid)
    requires Inv(s) && t in Apply(s, step).threads
    ensures var th := Apply(s, step).threads[t];
            && (forall k :: 0 <= k < KEYS_MAX && th.slots[k] != NULL ==>
                  step == Set(t, k, th.slots[k]) || (t in s.threads && s.threads[t].slots[k] == th.slots[k]))
            && (th.phase.Destroying? ==>
                  && t in s.threads
                  && (th.phase == s.threads[t].phase
                      || (th.phase.key < KEYS_MAX && s.threads[t].slots[th.phase.key] == th.phase.data != NULL)))
  {
    if t in s.threads { assert ThreadBalanced(s.threads[t]); }
  }

  /** Whatever a slot holds, or a running destructor was given, was stored by an
      earlier pthread_setspecific of that thread under that key. */
  lemma {:induction false} ValuesWereStored(steps: seq<Step>, t: Tid)
    requires t in Run(Start(), steps).threads
    ensures var th := Run(Start(), steps).threads[t];
            && (forall k :: 0 <= k < KEYS_MAX && th.slots[k] != NULL ==> Set(t, k, th.slots[k]) in steps)
            && (th.phase.Destroying? ==> Set(t, th.phase.key, th.phase.data) in steps)
  {
    if steps != [] {
      var front, last := steps[..|steps| - 1], steps[|steps| - 1];
      var s := Run(Start(), front);
      if t in s.threads {
        ValuesWereStored(front, t);
      }
      RunKeepsInv(front);
      ValuesCameFrom(s, last, t);
      assert steps == front + [last];
    }
  }

  /** The early return is taken only by a thread that holds nothing. */
  lemma EarlyReturnMeansEmpty(steps: seq<Step>, t: Tid)
    requires Enabled(Run(Start(), steps), SweepOn(t))
    ensures var s := Run(Start(), steps);
            s.threads[t].count == 0 ==>
              && Advance(s, t).threads[t].phase == Gone
              && Advance(s, t).threads[t].slots == EmptySlots()
  {
    RunKeepsInv(steps);
    ZeroCountMeansEmpty(Run(Start(), steps).threads[t]);
  }

  /** Nothing is stored on behalf of t. */
  ghost predicate Quiet(steps: seq<Step>, t: Tid)
  {
    forall i :: 0 <= i < |steps| && steps[i].Set? && steps[i].t == t ==> steps[i].value == NULL
  }

  /** Slot k lies behind the sweep: it has been passed at least once. */
  ghost predicate Passed(phase: Phase, k: nat)
  {
    match phase
    case Live => false
    case Sweeping(pass, key) => pass > 0 || k < key
    case Destroying(pass, key, _) => pass > 0 || k <= key
    case Gone => true
  }

  /** Every slot the sweep has passed is clear. */
  ghost predicate ClearedSoFar(th: Thread)
  {
    th.phase != Live && forall k :: 0 <= k < KEYS_MAX && Passed(th.phase, k) ==> th.slots[k] == NULL
  }

  lemma QuietStepKeepsCleared(s: State, step: Step, t: Tid)
    requires Inv(s) && t in s.threads && ClearedSoFar(s.threads[t]) && Quiet([step], t)
    ensures t in Apply(s, step).threads && ClearedSoFar(Apply(s, step).threads[t])
  {
    assert [step][0] == step;
    var th, th' := s.threads[t], Apply(s, step).threads[t];
    assert ThreadBalanced(th);
    if step == SweepOn(t) && Enabled(s, step) {
      ZeroCountMeansEmpty(th);
    } else if step.Set? && step.t == t && Enabled(s, step) {
      assert forall k :: 0 <= k < KEYS_MAX && th.slots[k] == NULL ==> th'.slots[k] == NULL;
    }
  }

  /** If nothing stores a value for t once its sweep has begun, the first pass
      clears every slot, later passes find nothing, and nothing is abandoned. */
  lemma {:induction false} QuietSweepClearsInOnePass(before: seq<Step>, during: seq<Step>, t: Tid)
    requires t in Run(Start(), before).threads && Run(Start(), before).threads[t].phase == Sweeping(0, 0)
    requires Quiet(during, t)
    ensures var s := Run(Start(), before + during);
            && t in s.threads && ClearedSoFar(s.threads[t])
            && (s.threads[t].phase == Gone ==> s.threads[t].slots == EmptySlots())
  {
    if during == [] {
      assert before + during == before;
    } else {
      var front, last := during[..|during| - 1], during[|during| - 1];
      QuietSweepClearsInOnePass(before, front, t);
      RunKeepsInv(before + front);
      var all := before + during;
      assert all[..|all| - 1] == before + front && all[|all| - 1] == last;
      QuietStepKeepsCleared(Run(Start(), before + front), last, t);
    }
  }

  /** A value abandoned after the fourth pass pins its key for good. */
  lemma {:induction false} AbandonedKeyIsNeverDeleted(before: seq<Step>, later: seq<Step>, t: Tid, k: nat)
    requires k < KEYS_MAX && t in Run(Start(), before).threads
    requires Run(Start(), before).threads[t].phase == Gone && Run(Start(), before).threads[t].slots[k] != NULL
    ensures var s := Run(Start(), before + later);
            && t in s.threads && s.threads[t] == Run(Start(), before).threads[t]
            && s.keys[k].count >= 2 && DeleteKey(s, k) == (s, Ebusy)
  {
    if later == [] {
      assert before + later == before;
    } else {
      AbandonedKeyIsNeverDeleted(before, later[..|later| - 1], t, k);
      var all := before + later;
      assert all[..|all| - 1] == before + later[..|later| - 1];
    }
    RunKeepsInv(before + later);
    assert t in Holders(Run(Start(), before + later), k);
    BusyKeyCount(Run(Start(), before + later), k, t);
  }
}
