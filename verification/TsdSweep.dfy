/**
 The exit sweep of one thread run from start to end, as _thread_cleanupspecific
 does, with everything that is called by and beside its destructors taken from
 an arbitrary script.
 */
module TsdSweep {
  import opened Tsd
  import opened TsdAccounting

  type ApiCall = step: Step | step.Create? || step.Delete? || step.Set? witness Create(NULL)

  /** API calls move no thread along in its exit. */
  lemma {:induction false} CallsKeepPhases(s: State, calls: seq<ApiCall>)
    ensures Run(s, calls).threads.Keys == s.threads.Keys
    ensures forall t :: t in s.threads ==> Run(s, calls).threads[t].phase == s.threads[t].phase
  {
    if calls != [] {
      CallsKeepPhases(s, calls[..|calls| - 1]);
    }
  }

  ghost predicate MaySweep(s: State, t: Tid)
  {
    t in s.threads &&
    match s.threads[t].phase
    case Sweeping(pass, key) => pass < DESTRUCTOR_ITERATIONS && key < KEYS_MAX
    case Gone => true
    case _ => false
  }

  /** One iteration of the sweep of t; calls are made, by the destructor or by
      other threads, while the destructor runs if there is one. */
  ghost function Iteration(s: State, t: Tid, calls: seq<ApiCall>): (s': State)
    requires MaySweep(s, t) && s.threads[t].phase != Gone
    ensures MaySweep(s', t) && Budget(s', t) < Budget(s, t)
  {
    var s1 := Apply(s, SweepOn(t));
    if s1.threads[t].phase.Destroying? then
      CallsKeepPhases(s1, calls);
      Apply(Run(s1, calls), Return(t))
    else
      s1
  }

  /** The iterations before this one. */
  function Position(phase: Phase): nat
    requires phase.Sweeping?
  {
    phase.pass * KEYS_MAX + phase.key
  }

  /** The whole sweep; oracle gives the calls made at each position. */
  ghost function Sweep(s: State, t: Tid, oracle: nat -> seq<ApiCall>): State
    requires MaySweep(s, t)
    decreases Budget(s, t)
  {
    if s.threads[t].phase == Gone then s
    else Sweep(Iteration(s, t, oracle(Position(s.threads[t].phase))), t, oracle)
  }

  lemma {:induction false} RunAppend(s: State, a: seq<Step>, b: seq<Step>)
    ensures Run(s, a + b) == Run(Run(s, a), b)
  {
    if b == [] {
      assert a + b == a;
    } else {
      RunAppend(s, a, b[..|b| - 1]);
      assert (a + b)[..|a + b| - 1] == a + b[..|b| - 1];
    }
  }

  lemma IterationIsARun(s: State, t: Tid, calls: seq<ApiCall>) returns (steps: seq<Step>)
    requires MaySweep(s, t) && s.threads[t].phase != Gone
    ensures Run(s, steps) == Iteration(s, t, calls)
  {
    steps := [SweepOn(t)];
    assert steps[..0] == [];
    var s1 := Run(s, steps);
    assert Run(s, []) == s && s1 == Apply(s, SweepOn(t));
    if s1.threads[t].phase.Destroying? {
      CallsKeepPhases(s1, calls);
      var during: seq<Step> := calls;
      var tail := during + [Return(t)];
      assert tail[..|tail| - 1] == during;
      RunAppend(s, steps, tail);
      steps := steps + tail;
    }
  }

  /** The sequential sweep, whatever the script, is one of the machine's runs:
      everything proved of runs holds of it. */
  lemma {:induction false} SweepIsARun(s: State, t: Tid, oracle: nat -> seq<ApiCall>) returns (steps: seq<Step>)
    requires MaySweep(s, t)
    ensures Sweep(s, t, oracle) == Run(s, steps)
    decreases Budget(s, t)
  {
    if s.threads[t].phase == Gone {
      steps := [];
    } else {
      var one := IterationIsARun(s, t, oracle(Position(s.threads[t].phase)));
      var rest := SweepIsARun(Run(s, one), t, oracle);
      RunAppend(s, one, rest);
      steps := one + rest;
    }
  }

  // ------------------------------------------------------ abandonment happens

  /** Thread t holds v under key 0 and nothing else, and the key has a destructor. */
  ghost predicate HoldsOnly(s: State, t: Tid, v: Pointer)
  {
    && v != NULL && t in s.threads
    && s.threads[t].slots == EmptySlots()[0 := v] && s.threads[t].count == 1
    && s.keys[0].count >= 2 && s.keys[0].destructor != NULL
  }

  /** A destructor that stores its value again undoes its iteration. */
  lemma StubbornIteration(s: State, t: Tid, v: Pointer)
    requires MaySweep(s, t) && s.threads[t].phase != Gone && HoldsOnly(s, t, v)
    ensures HoldsOnly(Iteration(s, t, [Set(t, 0, v)]), t, v)
  {
    var s1 := Apply(s, SweepOn(t));
    var calls: seq<ApiCall> := [Set(t, 0, v)];
    if s.threads[t].phase.key == 0 {
      assert s1.threads[t].slots == EmptySlots();
      assert calls[..0] == [];
      assert Run(s1, []) == s1 && Run(s1, calls) == Apply(s1, Set(t, 0, v));
      assert Run(s1, calls).threads[t].slots == EmptySlots()[0 := v];
    } else {
      assert s.threads[t].slots[s.threads[t].phase.key] == NULL;
    }
  }

  /** If the destructor stores the value again every time, the sweep ends, after its four
      passes, with the value still in its slot: it is abandoned. */
  lemma {:induction false} StubbornDestructorAbandons(s: State, t: Tid, v: Pointer)
    requires MaySweep(s, t) && HoldsOnly(s, t, v)
    ensures var r := Sweep(s, t, _ => [Set(t, 0, v)]);
            HoldsOnly(r, t, v) && r.threads[t].phase == Gone
    decreases Budget(s, t)
  {
    if s.threads[t].phase != Gone {
      StubbornIteration(s, t, v);
      StubbornDestructorAbandons(Iteration(s, t, [Set(t, 0, v)]), t, v);
    }
  }

  /** It happens from the start: a thread that stores one value under a key with such a
      destructor, and exits. */
  lemma AbandonmentHappens(t: Tid, d: Pointer, v: Pointer) returns (steps: seq<Step>)
    requires d != NULL && v != NULL
    ensures var s := Run(Start(), steps);
            t in s.threads && s.threads[t].phase == Gone && s.threads[t].slots[0] == v
  {
    var s1 := Apply(Start(), Spawn(t));
    var s2 := Apply(s1, Create(d));
    var s3 := Apply(s2, Set(t, 0, v));
    var s4 := Apply(s3, BeginExit(t));
    steps := [Spawn(t)];
    assert steps[..0] == [] && Run(Start(), steps) == s1 by { assert Run(Start(), []) == Start(); }
    steps := OneMore(steps, Create(d));
    assert FirstFree(s1.keys) == 0;
    steps := OneMore(steps, Set(t, 0, v));
    steps := OneMore(steps, BeginExit(t));
    assert s4.threads[t].slots == EmptySlots()[0 := v];
    var rest := SweepIsARun(s4, t, _ => [Set(t, 0, v)]);
    StubbornDestructorAbandons(s4, t, v);
    RunAppend(Start(), steps, rest);
    steps := steps + rest;
  }

  lemma OneMore(steps: seq<Step>, step: Step) returns (more: seq<Step>)
    ensures more == steps + [step] && Run(Start(), more) == Apply(Run(Start(), steps), step)
  {
    more := steps + [step];
    assert more[..|steps|] == steps;
  }

  // ------------------------------------------------------ and exactly when

  /** The sweep has visited slot k for the last time. */
  predicate Late(phase: Phase, k: nat)
  {
    match phase
    case Sweeping(pass, key) => pass == DESTRUCTOR_ITERATIONS - 1 && key > k
    case Destroying(pass, key, _) => pass == DESTRUCTOR_ITERATIONS - 1 && key >= k
    case _ => false
  }

  /** A call that stores for t under k: the key exists. */
  predicate Stores(s: State, step: Step, t: Tid, k: nat)
    requires k < KEYS_MAX
  {
    step.Set? && step.t == t && step.key == k && Enabled(s, step) && s.keys[k].count != 0
  }

  /** What the last store for t under k since then stored; NULL if there was none. */
  function LateStore(steps: seq<Step>, t: Tid, k: nat): Pointer
    requires k < KEYS_MAX
  {
    if steps == [] then NULL
    else
      var front, last := steps[..|steps| - 1], steps[|steps| - 1];
      var s := Run(Start(), front);
      if Stores(s, last, t, k) && Late(s.threads[t].phase, k) then last.value else LateStore(front, t, k)
  }

  /** What slot k holds, when value is the late store so far. */
  ghost predicate SlotIs(s: State, t: Tid, k: nat, value: Pointer)
    requires k < KEYS_MAX
  {
    if t in s.threads && (Late(s.threads[t].phase, k) || s.threads[t].phase == Gone)
    then s.threads[t].slots[k] == value
    else value == NULL
  }

  lemma SlotAfterStep(s: State, step: Step, t: Tid, k: nat, value: Pointer)
    requires Inv(s) && k < KEYS_MAX && SlotIs(s, t, k, value)
    ensures SlotIs(Apply(s, step), t, k,
                   if Stores(s, step, t, k) && Late(s.threads[t].phase, k) then step.value else value)
  {
    if t in s.threads {
      assert ThreadBalanced(s.threads[t]);
      if s.threads[t].count == 0 { ZeroCountMeansEmpty(s.threads[t]); }
    }
  }

  lemma {:induction false} SlotAfterLastVisit(steps: seq<Step>, t: Tid, k: nat)
    requires k < KEYS_MAX
    ensures SlotIs(Run(Start(), steps), t, k, LateStore(steps, t, k))
  {
    if steps != [] {
      var front, last := steps[..|steps| - 1], steps[|steps| - 1];
      RunKeepsInv(front);
      SlotAfterLastVisit(front, t, k);
      SlotAfterStep(Run(Start(), front), last, t, k, LateStore(front, t, k));
    }
  }

  /** When a thread is gone its slot k holds a value if and only if the last store for it
      under k, after the sweep had visited k for the last time, stored one; and it is that
      value. */
  lemma AbandonedExactlyWhenStoredLate(steps: seq<Step>, t: Tid, k: nat)
    requires k < KEYS_MAX && t in Run(Start(), steps).threads && Run(Start(), steps).threads[t].phase == Gone
    ensures Run(Start(), steps).threads[t].slots[k] == LateStore(steps, t, k)
  {
    SlotAfterLastVisit(steps, t, k);
  }
}
