/**
 A broadcast whose posts other threads get between (uthread_cond.c, lines 352-353):
 c_onwait is read once, and the posts that follow are steps like any others.
 */
module BroadcastLaws {
  import opened Prelude
  import M = MutexMachine
  import opened AtomicMutex
  import opened CondMachine
  import opened CondLaws

  /** Blocked on the event, or on the way to it. */
  ghost function Pool(s: Cond): set<M.Tid>
  {
    set t | t in s.pcs && (s.pcs[t].Entered? || s.pcs[t].Unlocked? || s.pcs[t].Asleep?)
  }

  lemma OwnStepShrinksPool(s: Cond, step: Step, t: M.Tid)
    requires Inv(s) && !step.Begin? && t in Pool(Apply(s, step))
    ensures t in Pool(s) && (t in s.sleepers ==> t in Apply(s, step).sleepers)
  {
    assert forall u :: u in s.sleepers <==> u in s.pcs && s.pcs[u].Asleep?;
    if step.Go? || step.Fail? { assert step.t in s.sleepers <==> PcOf(s, step.t).Asleep?; }
  }

  lemma PostShrinksPool(s: Cond, u: M.Tid)
    requires Inv(s) && s.sleepers != {} && Post(s, u) != s
    ensures u in Pool(s) && u !in Pool(Post(s, u)) && Post(s, u).posts == s.posts + 1
  {
    assert u in s.sleepers;
  }

  /** A step in which t stays blocked: each post it makes takes another thread out of
      the pool. */
  lemma PoolStep(s: Cond, step: Step, t: M.Tid)
    requires Inv(s) && !step.Begin? && t in s.sleepers && t in Pool(Apply(s, step))
    ensures var s' := Apply(s, step);
            t in s'.sleepers && |Pool(s')| + (s'.posts - s.posts) <= |Pool(s)|
  {
    var s' := Apply(s, step);
    OwnStepShrinksPool(s, step, t);
    forall u | u in Pool(s') ensures u in Pool(s) {
      OwnStepShrinksPool(s, step, u);
    }
    SubsetCardinality(Pool(s'), Pool(s));
    if step.PostTo? && s' != s {
      PostShrinksPool(s, step.u);
      SubsetCardinality(Pool(s') + {step.u}, Pool(s));
    }
  }

  lemma {:induction false} PoolRun(s: Cond, steps: seq<Step>, t: M.Tid)
    requires Inv(s) && t in s.sleepers && forall i :: 0 <= i < |steps| ==> !steps[i].Begin?
    ensures var r := Run(s, steps);
            && Inv(r)
            && (t in Pool(r) ==> t in r.sleepers && |Pool(r)| + (r.posts - s.posts) <= |Pool(s)|)
  {
    if steps != [] {
      var front, last := steps[..|steps| - 1], steps[|steps| - 1];
      PoolRun(s, front, t);
      var m := Run(s, front);
      StepKeepsInv(m, last);
      if t in Pool(Apply(m, last)) {
        OwnStepShrinksPool(m, last, t);
        PoolStep(m, last, t);
      }
    }
  }

  /** In every run from s in which no wait begins, as many posts as c_onwait said at s
      release everybody who was blocked at s, whichever sleepers the kernel picks and
      whatever the other threads do between the posts. */
  lemma PostsReleaseAllUnlessAWaitBegins(s: Cond, steps: seq<Step>)
    requires Inv(s) && forall i :: 0 <= i < |steps| ==> !steps[i].Begin?
    requires Run(s, steps).posts >= s.posts + s.onwait
    ensures forall t :: t in s.sleepers ==> t !in Run(s, steps).sleepers
  {
    var r := Run(s, steps);
    SubsetCardinality(Pool(s), Inside(s));
    forall t | t in s.sleepers ensures t !in r.sleepers {
      PoolRun(s, steps, t);
      assert t in r.sleepers ==> t in Pool(r);
      assert t in Pool(r) ==> |Pool(r)| > 0;
    }
  }

  /** A broadcast that reads another count than the number of threads inside leaves
      somebody blocked if and only if it makes fewer posts than there are sleepers. */
  lemma ShortBroadcastStrandsExactly(s: Cond, q: seq<M.Tid>)
    requires Inv(s) && Choices(s, q)
    ensures PostAll(s, q).sleepers != {} <==> |q| < |s.sleepers|
  {
    PostAllEffect(s, q);
  }

  /** Thread u begins a wait without a mutex and blocks. */
  lemma GoesToSleep(s: Cond, u: M.Tid) returns (steps: seq<Step>)
    requires PcOf(s, u).Out? && !s.latched
    ensures var r := Run(s, steps);
            && PcOf(r, u).Asleep? && !PcOf(r, u).w.hasMutex && r.sleepers == s.sleepers + {u}
            && r.posts == s.posts && |steps| == 3
  {
    var s1 := Apply(s, Begin(u, false, false));
    assert PcOf(s1, u).Entered? && !PcOf(s1, u).w.hasMutex;
    var s2 := Apply(s1, Go(u));
    assert PcOf(s2, u).Unlocked?;
    RunAppend(s, [], Begin(u, false, false));
    RunAppend(s, [Begin(u, false, false)], Go(u));
    RunAppend(s, [Begin(u, false, false), Go(u)], Go(u));
    assert [] + [Begin(u, false, false)] == [Begin(u, false, false)];
    steps := [Begin(u, false, false), Go(u)] + [Go(u)];
  }

  /** It is woken by a post and returns. */
  lemma WakesAndReturns(s: Cond, u: M.Tid) returns (steps: seq<Step>)
    requires u in s.sleepers && PcOf(s, u).Asleep? && !PcOf(s, u).w.hasMutex
    ensures var r := Run(s, steps);
            PcOf(r, u).Out? && r.sleepers == s.sleepers - {u} && r.posts == s.posts + 1
    ensures steps == [PostTo(u), Go(u), Go(u)]
  {
    var s1 := Apply(s, PostTo(u));
    assert PcOf(s1, u).Woken?;
    var s2 := Apply(s1, Go(u));
    assert PcOf(s2, u).Leaving?;
    RunAppend(s, [], PostTo(u));
    RunAppend(s, [PostTo(u)], Go(u));
    RunAppend(s, [PostTo(u), Go(u)], Go(u));
    assert [] + [PostTo(u)] == [PostTo(u)];
    steps := [PostTo(u), Go(u)] + [Go(u)];
  }

  lemma {:induction false} RunFromKeepsInv(s: Cond, steps: seq<Step>)
    requires Inv(s)
    ensures Inv(Run(s, steps))
  {
    if steps != [] {
      RunFromKeepsInv(s, steps[..|steps| - 1]);
      StepKeepsInv(Run(s, steps[..|steps| - 1]), steps[|steps| - 1]);
    }
  }

  lemma PassedOnce(s: Cond, u: M.Tid) returns (steps: seq<Step>)
    requires Inv(s) && PcOf(s, u).Out? && s.sleepers != {}
    ensures var r := Run(s, steps);
            Inv(r) && r.sleepers == s.sleepers && PcOf(r, u).Out? && r.posts == s.posts + 1
  {
    assert u !in s.sleepers;
    var a := GoesToSleep(s, u);
    var b := WakesAndReturns(Run(s, a), u);
    RunConcat(s, a, b);
    steps := a + b;
    RunFromKeepsInv(s, steps);
  }

  /** If waits do begin, no number of posts is enough: from every reachable state with
      somebody blocked, a thread that is outside can take each post for itself by waiting
      once more, and everybody who was blocked stays so. */
  lemma {:induction false} NewWaitsCanTakeEveryPost(s: Cond, u: M.Tid, posts: nat) returns (steps: seq<Step>)
    requires Inv(s) && PcOf(s, u).Out? && s.sleepers != {}
    ensures var r := Run(s, steps);
            Inv(r) && r.sleepers == s.sleepers && PcOf(r, u).Out? && r.posts == s.posts + posts
  {
    if posts == 0 {
      steps := [];
    } else {
      var a := NewWaitsCanTakeEveryPost(s, u, posts - 1);
      var b := PassedOnce(Run(s, a), u);
      RunConcat(s, a, b);
      steps := a + b;
    }
  }
}
