/**
 When delivery terminates, how often each handler runs, and what that does to
 the mask. A tame handler raises signals, is sent signals, waits and passes
 checkpoints; it does not change dispositions or unblock anything.
 */
module SignalTermination {
  import opened Prelude
  import opened Signals
  import opened SignalLaws

  predicate TameCall(call: Call)
  {
    call.Raise? || call.KillFrom? || call.Pause? || call.Checkpoint?
  }

  predicate TameScript(script: seq<seq<Call>>)
  {
    forall i, j :: 0 <= i < |script| && 0 <= j < |script[i]| ==> TameCall(script[i][j])
  }

  /** The handler of n keeps n blocked only while it runs (neither SA_SYSV nor
      SA_ACK), and the process survives n. */
  predicate Rearming(actions: Actions, n: Sig)
  {
    n < NSIG && actions[n].handler == User && !actions[n].sysv && !actions[n].ack && FunAction(n) != TERM
  }

  /** No unblocked signal has a rearming handler. sigaction refuses SIGKILL, so
      what cannot be masked has no handler. */
  ghost predicate Safe(actions: Actions, blocked: set<Sig>, unmaskable: set<Sig>)
  {
    && (forall n :: 1 <= n < NSIG && n !in blocked ==> !Rearming(actions, n))
    && (forall n :: n in unmaskable && n < NSIG ==> actions[n].handler != User)
  }

  ghost predicate SafeState(s: State)
  {
    Safe(s.actions, s.blocked, s.unmaskable) && TameScript(s.script)
  }

  /** The signals whose handler may still run. */
  ghost function Armed(s: State): set<Sig>
  {
    set n | 1 <= n < NSIG && n !in s.blocked && s.actions[n].handler == User
  }

  ghost function Members(q: seq<Sig>): set<Sig>
  {
    set i | 0 <= i < |q| :: q[i]
  }

  predicate NoRepeats(q: seq<Sig>)
  {
    forall i, j :: 0 <= i < j < |q| ==> q[i] != q[j]
  }

  /** The handlers run between s and r. */
  ghost function Ran(s: State, r: State): seq<Sig>
    requires |s.ran| <= |r.ran|
  {
    r.ran[|s.ran|..]
  }

  /** From s to r each handler ran at most once, was armed, and took at most one
      entry of the script. */
  ghost predicate RanOnce(s: State, r: State)
  {
    && |s.ran| <= |r.ran| && r.ran[..|s.ran|] == s.ran
    && NoRepeats(Ran(s, r)) && Members(Ran(s, r)) <= Armed(s)
    && |s.script| <= |r.script| + |Ran(s, r)|
    && r.unmaskable == s.unmaskable && r.deferred == s.deferred
  }

  /** The mask grew by exactly the SA_ACK signals handled, and exactly the SA_SYSV
      handlers were reset. */
  ghost predicate Effect(s: State, ran: seq<Sig>, r: State)
  {
    && SafeState(r)
    && r.blocked == s.blocked + (set n | n in ran && n < NSIG && !s.actions[n].sysv)
    && forall n :: 0 <= n < NSIG ==>
         r.actions[n] == if n in ran && s.actions[n].sysv
                         then s.actions[n].(handler := SIG_DFL) else s.actions[n]
  }

  ghost predicate Spent(s: State, r: State)
  {
    RanOnce(s, r) && (!r.stopped ==> Effect(s, Ran(s, r), r))
  }

  lemma SpentLeavesRestArmed(s: State, r: State)
    requires Spent(s, r) && !r.stopped
    ensures Armed(r) == Armed(s) - Members(Ran(s, r))
  {
    forall n: Sig ensures n in Armed(r) <==> n in Armed(s) - Members(Ran(s, r)) {
      assert n in Ran(s, r) <==> n in Members(Ran(s, r));
    }
  }

  lemma EffectTransitive(s: State, a: seq<Sig>, m: State, b: seq<Sig>, r: State)
    requires Effect(s, a, m) && Effect(m, b, r) && forall n :: n in a ==> n !in b
    ensures Effect(s, a + b, r)
  {
    assert forall n :: n in a + b <==> n in a || n in b;
  }

  lemma SpentTransitive(s: State, m: State, r: State)
    requires Spent(s, m) && !m.stopped && Spent(m, r)
    ensures Spent(s, r)
  {
    var a, b := Ran(s, m), Ran(m, r);
    assert Ran(s, r) == a + b;
    SpentLeavesRestArmed(s, m);
    assert forall n :: n in a <==> n in Members(a);
    assert forall n :: n in b <==> n in Members(b);
    forall n | n in Members(a + b) ensures n in Armed(s) {
      assert n in a || n in b;
    }
    forall i, j | 0 <= i < j < |a + b| ensures (a + b)[i] != (a + b)[j] {
      if i < |a| <= j { assert a[i] in a && b[j - |a|] in b; }
    }
    if !r.stopped {
      EffectTransitive(s, a, m, b, r);
    }
  }

  lemma SpentNothing(s: State, r: State)
    requires SafeState(s) && r.script == s.script && r.ran == s.ran && r.blocked == s.blocked
    requires r.actions == s.actions && r.unmaskable == s.unmaskable && r.deferred == s.deferred
    ensures Spent(s, r)
  {
    assert Ran(s, r) == [];
  }

  lemma {:induction false} KillAllKeeps(s: State, arrivals: seq<Sig>)
    ensures var r := KillAll(s, arrivals);
            r == s.(pending := r.pending, log := r.log, counter := r.counter)
  {
    if arrivals != [] { KillAllKeeps(s, arrivals[..|arrivals| - 1]); }
  }

  lemma {:induction false} DeliverPendingSpends(s: State, signo: nat)
    requires 1 <= signo <= NSIG && SafeState(s)
    ensures Spent(s, DeliverPending(s, signo))
    decreases |s.script|, 2, |Ready(s)|, NSIG - signo
  {
    if s.stopped || Ready(s) == {} || signo == NSIG {
      SpentNothing(s, s);
    } else if signo in Ready(s) {
      DeliverSignalSpends(s, signo);
      var r := DeliverSignal(s, signo);
      if !r.stopped {
        if |r.script| == |s.script| { Smaller(Ready(r), Ready(s), signo); }
        DeliverPendingSpends(r, 1);
        SpentTransitive(s, r, DeliverPending(r, 1));
      }
    } else {
      DeliverPendingSpends(s, signo + 1);
    }
  }

  /** The states a handler of n may start in. */
  ghost predicate HandlerEntry(s: State, m: State, n: Sig)
  {
    && 1 <= n < NSIG && n in Armed(s) && !s.stopped && !m.stopped
    && m.ran == s.ran && m.script == s.script && m.unmaskable == s.unmaskable && m.deferred == s.deferred
    && SafeState(s) && Safe(m.actions, m.blocked, m.unmaskable) && Armed(m) <= Armed(s) - {n}
  }

  /** The handler of n has just been called. */
  function Entry(m: State, n: Sig): State
  {
    m.(ran := m.ran + [n], script := if m.script == [] then [] else m.script[1..])
  }

  /** Handlers that ran after n's was entered, and n itself. */
  lemma RanOncePrepend(s: State, m: State, n: Sig, r: State)
    requires m.ran == s.ran + [n] && n in Armed(s) && Armed(m) <= Armed(s) - {n}
    requires |s.script| <= |m.script| + 1 && m.unmaskable == s.unmaskable && m.deferred == s.deferred
    requires RanOnce(m, r)
    ensures RanOnce(s, r) && Ran(s, r) == [n] + Ran(m, r)
  {
    var rest := Ran(m, r);
    assert r.ran[..|s.ran|] == r.ran[..|m.ran|][..|s.ran|] == s.ran;
    assert Ran(s, r) == [n] + rest by {
      assert r.ran[|s.ran|] == r.ran[..|m.ran|][|s.ran|] == n;
    }
    forall i | 0 <= i < |rest| ensures rest[i] in Armed(m) {
      assert rest[i] in Members(rest);
    }
    assert forall x :: x in Members([n] + rest) ==> x == n || x in Members(rest);
  }

  /** From the entry of n's handler to its end: like Spent, with n run first. */
  lemma {:induction false} RunHandlerSpends(s: State, m: State, n: Sig)
    requires HandlerEntry(s, m, n)
    ensures var r := RunHandler(m, n);
            RanOnce(s, r) && Ran(s, r) == [n] + Ran(Entry(m, n), r) && Spent(Entry(m, n), r)
    decreases |m.script|, 0, 0
  {
    var m1 := Entry(m, n);
    if m.script == [] {
      SpentNothing(m1, m1);
    } else {
      RunCallsSpends(m1, m.script[0]);
    }
    assert Armed(m1) == Armed(m);
    RanOncePrepend(s, m1, n, RunHandler(m, n));
  }

  lemma HeadNotInRest(n: Sig, rest: seq<Sig>)
    requires NoRepeats([n] + rest)
    ensures n !in rest
  {
    forall i | 0 <= i < |rest| ensures rest[i] != n {
      var q := [n] + rest;
      assert q[0] == n && q[i + 1] == rest[i];
    }
  }

  /** After an SA_SYSV or SA_ACK handler. */
  lemma HandlerSpends(s: State, m: State, n: Sig, r: State)
    requires HandlerEntry(s, m, n) && Effect(s, [n], m)
    requires var r0 := RunHandler(m, n); r == r0 || r == r0.(stopped := true)
    ensures Spent(s, r)
    decreases |m.script|, 0, 1
  {
    RunHandlerSpends(s, m, n);
    var r0 := RunHandler(m, n);
    assert Ran(s, r) == Ran(s, r0);
    if !r.stopped {
      HeadNotInRest(n, Ran(Entry(m, n), r0));
      EffectTransitive(s, [n], Entry(m, n), Ran(Entry(m, n), r0), r);
    }
  }

  lemma {:induction false} DeliverSignalSpends(s: State, n: Sig)
    requires 1 <= n < NSIG && n !in s.blocked && !s.stopped && SafeState(s)
    ensures Spent(s, DeliverSignal(s, n))
    decreases |s.script|, 1, 1
  {
    if s.actions[n].handler == User {
      DeliverToUserSpends(s, n);
    } else {
      SpentNothing(s, DeliverSignal(s, n));
    }
  }

  lemma {:induction false} DeliverToUserSpends(s: State, n: Sig)
    requires 1 <= n < NSIG && n !in s.blocked && !s.stopped && SafeState(s) && s.actions[n].handler == User
    ensures Spent(s, DeliverSignal(s, n))
    decreases |s.script|, 1, 0
  {
    var p, s1, r := s.actions[n], Take(s, n), DeliverSignal(s, n);
    if p.sysv {
      HandlerSpends(s, s1.(actions := s1.actions[n := p.(handler := SIG_DFL)]), n, r);
    } else if p.ack {
      HandlerSpends(s, s1.(blocked := s1.blocked + {n}), n, r);
    } else {
      RunHandlerSpends(s, SetBlocked(s1, s1.blocked + {n} + p.mask), n);
      assert r.stopped;
    }
  }

  lemma {:induction false} RunCallsSpends(s: State, calls: seq<Call>)
    requires SafeState(s) && forall i :: 0 <= i < |calls| ==> TameCall(calls[i])
    ensures Spent(s, RunCalls(s, calls))
    decreases |s.script|, 4, |calls|
  {
    if calls == [] || s.stopped {
      SpentNothing(s, s);
    } else {
      PerformSpends(s, calls[0]);
      var m := Perform(s, calls[0]);
      if m.stopped {
        assert RunCalls(m, calls[1..]) == m;
      } else {
        RunCallsSpends(m, calls[1..]);
        SpentTransitive(s, m, RunCalls(m, calls[1..]));
      }
    }
  }

  lemma {:induction false} PauseSpends(s: State, arrivals: seq<Sig>)
    requires SafeState(s) && !s.stopped
    ensures Spent(s, PauseFor(s, arrivals))
    decreases |s.script|, 2, |Ready(KillAll(s, arrivals))| + 1, 0
  {
    if AnyPosts(s, arrivals) {
      var m := KillAll(s, arrivals).(counter := 0);
      KillAllKeeps(s, arrivals);
      SpentNothing(s, m);
      DeliverPendingSpends(m, 1);
      SpentTransitive(s, m, DeliverPending(m, 1));
    } else {
      SpentNothing(s, Sleep(s));
    }
  }

  lemma {:induction false} RaiseSpends(s: State, n: Sig)
    requires SafeState(s) && !s.stopped
    ensures Spent(s, Perform(s, Raise(n)))
    decreases |s.script|, 2, NSIG + |s.pending| + 2, 0
  {
    RaiseIs(s, n);
    var m, r := Enter(s, n).(counter := 0), Perform(s, Raise(n));
    if Posts(s, n) && !s.deferred {
      SpentNothing(s, m);
      SubsetCardinality(Ready(m), s.pending + {n});
      DeliverPendingSpends(m, 1);
      SpentTransitive(s, m, r);
    } else {
      SpentNothing(s, r);
    }
  }

  lemma {:induction false} PerformSpends(s: State, call: Call)
    requires SafeState(s) && TameCall(call) && !s.stopped
    ensures Spent(s, Perform(s, call))
    decreases |s.script|, 3
  {
    match call
    case Raise(n) => RaiseSpends(s, n);
    case Pause(arrivals) => PauseSpends(s, arrivals);
    case Checkpoint =>
      CheckpointIs(s);
      var m := s.(counter := 0);
      SpentNothing(s, s);
      SpentNothing(s, m);
      DeliverPendingSpends(m, 1);
      SpentTransitive(s, m, DeliverPending(m, 1));
    case KillFrom(n, state, cancelled) => SpentNothing(s, Kill(s, n, state, cancelled));
    case _ =>
  }

  // ------------------------------------------------------------ the main results

  lemma MembersOfAppend(q: seq<Sig>, n: Sig)
    ensures Members(q + [n]) == Members(q) + {n}
  {
    var r := q + [n];
    forall x: Sig ensures x in Members(r) <==> x in Members(q) + {n} {
      assert x in Members(r) <==> x in r;
      assert x in Members(q) <==> x in q;
    }
  }

  lemma {:induction false} NoRepeatsCardinality(q: seq<Sig>)
    requires NoRepeats(q)
    ensures |Members(q)| == |q|
  {
    if q == [] {
      assert Members(q) == {};
    } else {
      var front, last := q[..|q| - 1], q[|q| - 1];
      NoRepeatsCardinality(front);
      MembersOfAppend(front, last);
      assert q == front + [last];
      assert last !in Members(front);
    }
  }

  lemma SpentIsBounded(s: State, r: State)
    requires Spent(s, r)
    ensures |Ran(s, r)| <= |Armed(s)| < NSIG
    ensures |s.script| <= |r.script| + |Armed(s)|
  {
    NoRepeatsCardinality(Ran(s, r));
    SubsetCardinality(Members(Ran(s, r)), Armed(s));
    BoundedCardinality(Armed(s), NSIG);
    assert 0 !in Armed(s);
    BoundedCardinality(Armed(s) + {0}, NSIG);
  }

  /** With SA_ACK and SA_SYSV handlers that raise what they like, one delivery runs
      each handler at most once, hence fewer than NSIG handlers and as many script
      entries, however long the script: delivery terminates. */
  lemma HandlersRunAtMostOnce(s: State)
    requires SafeState(s)
    ensures var r := DeliverPending(s, 1);
            && |s.ran| <= |r.ran| && NoRepeats(Ran(s, r)) && Members(Ran(s, r)) <= Armed(s)
            && |Ran(s, r)| < NSIG && |s.script| - |r.script| < NSIG
  {
    DeliverPendingSpends(s, 1);
    SpentIsBounded(s, DeliverPending(s, 1));
  }

  /** One run of a rearming handler that raises its own signal changes nothing but
      the history. */
  lemma SelfRaiseRound(s: State, n: Sig)
    requires Accounted(s) && !s.stopped && !s.deferred && s.pending == {n}
    requires 1 <= n < NSIG && n !in s.blocked && n !in s.unmaskable && Rearming(s.actions, n) && SigValid(n)
    requires s.script != [] && s.script[0] == [Raise(n)]
    ensures DeliverSignal(s, n) ==
            s.(counter := 0, script := s.script[1..], ran := s.ran + [n], log := s.log + [Delivered(n), Entered(n)])
  {
    var s1 := Take(s, n);
    var m := SetBlocked(s1, s1.blocked + {n} + s.actions[n].mask);
    var h := Entry(m, n);
    var e := Enter(h, n).(counter := 0);
    assert Ready(e) == {};
    assert Perform(h, Raise(n)) == e;
    assert [Raise(n)][1..] == [];
    assert RunCalls(h, [Raise(n)]) == RunCalls(e, []) == e;
    assert s.log + [Delivered(n)] + [Entered(n)] == s.log + [Delivered(n), Entered(n)];
    assert e.(blocked := s1.blocked).pending == s.pending;
  }

  /** A rearming handler that raises its own signal k times over is run k + 1 times
      by one delivery, for every k: there is no bound. */
  lemma {:induction false} RearmingHandlerIsUnbounded(s: State, n: Sig, k: nat)
    requires Accounted(s) && !s.stopped && !s.deferred && s.pending == {n}
    requires 1 <= n < NSIG && n !in s.blocked && n !in s.unmaskable && Rearming(s.actions, n) && SigValid(n)
    requires s.script == seq(k, _ => [Raise(n)])
    ensures var r := DeliverPending(s, 1);
            r.script == [] && !r.stopped && |r.ran| == |s.ran| + k + 1
    decreases k
  {
    ScanFindsLowest(s, 1, n);
    DeliverSignalAccounted(s, n);
    if k > 0 {
      SelfRaiseRound(s, n);
      var r := DeliverSignal(s, n);
      assert s.script[1..] == seq(k - 1, _ => [Raise(n)]);
      RearmingHandlerIsUnbounded(r, n, k - 1);
    } else {
      var r := DeliverSignal(s, n);
      assert r.pending == {};
      assert DeliverPending(r, 1) == r;
    }
  }

  /** Some number bounds the script entries any delivery uses up. */
  ghost predicate BoundedBy(actions: Actions, blocked: set<Sig>, unmaskable: set<Sig>, bound: nat)
  {
    forall s: State ::
      s.actions == actions && s.blocked == blocked && s.unmaskable == unmaskable
      && Accounted(s) && !s.stopped && !s.deferred && TameScript(s.script)
      ==> |s.script| - |DeliverPending(s, 1).script| <= bound
  }

  /** Delivery terminates whatever the (tame) handlers raise if and only if no
      unblocked signal has a rearming handler. */
  lemma DeliveryTerminatesExactlyWhenSafe(actions: Actions, blocked: set<Sig>, unmaskable: set<Sig>)
    requires forall n :: n in unmaskable && n < NSIG ==> actions[n].handler != User
    requires forall n :: 0 <= n < NSIG && !SigValid(n) ==> actions[n].handler != User
    ensures (exists bound :: BoundedBy(actions, blocked, unmaskable, bound)) <==> Safe(actions, blocked, unmaskable)
  {
    if Safe(actions, blocked, unmaskable) {
      forall s: State |
        s.actions == actions && s.blocked == blocked && s.unmaskable == unmaskable
        && Accounted(s) && !s.stopped && !s.deferred && TameScript(s.script)
        ensures |s.script| - |DeliverPending(s, 1).script| <= NSIG
      {
        HandlersRunAtMostOnce(s);
      }
      assert BoundedBy(actions, blocked, unmaskable, NSIG);
    } else {
      var n: Sig :| 1 <= n < NSIG && n !in blocked && Rearming(actions, n);
      forall bound: nat ensures !BoundedBy(actions, blocked, unmaskable, bound) {
        var s := State({n}, blocked, actions, 0, false, unmaskable, false, false,
                       seq(bound + 1, _ => [Raise(n)]), [], [Entered(n)]);
        assert [Entered(n)][..0] == [];
        RearmingHandlerIsUnbounded(s, n, bound + 1);
      }
    }
  }

  /** Handlers installed by pthread_signal never endanger termination, and installing
      one in place of a rearming handler removes that danger. */
  lemma InstallingKeepsSafe(s: State, n: Sig, handler: Handler)
    requires n !in s.unmaskable && n != SIGKILL
    ensures Safe(s.actions, s.blocked, s.unmaskable) ==>
              var r := SetAction(s, n, Acked(handler)); Safe(r.actions, r.blocked, r.unmaskable)
    ensures SigValid(n) && Safe(s.actions, s.blocked + {n}, s.unmaskable) ==>
              var r := SetAction(s, n, Acked(handler)); Safe(r.actions, r.blocked, r.unmaskable)
  {
    var r := SetAction(s, n, Acked(handler));
    assert forall k :: 0 <= k < NSIG && k != n ==> r.actions[k] == s.actions[k];
  }

  /** With SA_ACK handlers only, a delivery adds exactly the signals it handled to the
      mask, and what is still pending afterwards is in it. */
  lemma MaskAfterDelivery(s: State)
    requires Accounted(s) && SafeState(s) && forall n :: 0 <= n < NSIG ==> !s.actions[n].sysv
    ensures var r := DeliverPending(s, 1);
            && |s.ran| <= |r.ran|
            && (!r.stopped ==> r.blocked == s.blocked + Members(Ran(s, r)) && r.pending <= r.blocked)
  {
    var r := DeliverPending(s, 1);
    DeliverPendingSpends(s, 1);
    DeliverPendingSettles(s, 1);
    if !r.stopped {
      forall n | n in Ran(s, r) ensures n < NSIG {
        assert n in Members(Ran(s, r));
      }
      assert forall n :: n in r.pending ==> n in r.blocked || n in Ready(r);
    }
  }

  /** The mask that pthread_sigmask asks for: SIG_BLOCK adds signals to the old one,
      SIG_UNBLOCK takes them off, SIG_SETMASK replaces it. */
  ghost predicate Asked(how: How, was: set<Sig>, mask: set<Sig>, wanted: set<Sig>)
  {
    && how != BadHow
    && (how == SIG_BLOCK ==> forall n: Sig :: n in wanted <==> n in was || n in mask)
    && (how == SIG_UNBLOCK ==> forall n: Sig :: n in wanted <==> n in was && n !in mask)
    && (how == SIG_SETMASK ==> forall n: Sig :: n in wanted <==> n in mask)
  }

  lemma AskedIsNewMask(s: State, how: How, mask: set<Sig>, wanted: set<Sig>)
    requires Asked(how, s.blocked, mask, wanted)
    ensures NewMask(s, how, mask) == wanted
  {
  }

  /** pthread_sigmask, deliveries not deferred: the mask afterwards is the requested
      one (less what cannot be masked) plus exactly the signals handled on the way
      out by SA_ACK handlers; all that is still pending is in it. */
  lemma MaskAfterSigmask(s: State, how: How, mask: set<Sig>, wanted: set<Sig>)
    requires Accounted(s) && !s.stopped && !s.deferred && Asked(how, s.blocked, mask, wanted)
    requires SafeState(s.(blocked := wanted - s.unmaskable))
    requires forall n :: 0 <= n < NSIG ==> !s.actions[n].sysv
    ensures var r := Perform(s, Sigmask(how, Some(mask)));
            && |s.ran| <= |r.ran|
            && (!r.stopped ==>
                  && (forall n: Sig :: n in r.blocked <==> (n in wanted && n !in s.unmaskable) || n in Ran(s, r))
                  && r.pending <= r.blocked)
  {
    AskedIsNewMask(s, how, mask, wanted);
    MaskAfterDelivery(SetBlocked(s, wanted).(counter := 0));
    var r := Perform(s, Sigmask(how, Some(mask)));
    assert forall n: Sig :: n in Members(Ran(s, r)) <==> n in Ran(s, r);
  }

  /** While deliveries are deferred it only sets the mask; and it does not count what it
      has unblocked, so a later checkpoint delivers that if and only if something else
      was counted. */
  lemma DeferredSigmaskIsFoundExactlyIfCounted(s: State, how: How, mask: set<Sig>, wanted: set<Sig>)
    requires Accounted(s) && !s.stopped && s.deferred && Asked(how, s.blocked, mask, wanted)
    ensures var r := Perform(s, Sigmask(how, Some(mask)));
            && r == s.(blocked := r.blocked)
            && (forall n: Sig :: n in r.blocked <==> n in wanted && n !in s.unmaskable)
            && (Settled(Perform(r.(deferred := false), Checkpoint)) <==> s.counter != 0 || s.pending <= r.blocked)
  {
    AskedIsNewMask(s, how, mask, wanted);
    var r := Perform(s, Sigmask(how, Some(mask))).(deferred := false);
    CheckpointIs(r);
    DeliverySettles(r.(counter := 0));
  }

  /** Without a new set the mask stays, but what is pending is delivered; an unknown how
      does nothing. */
  lemma SigmaskWithoutASet(s: State, how: How, mask: set<Sig>)
    requires Accounted(s) && !s.stopped
    ensures var r := Perform(s, Sigmask(how, None));
            && (s.deferred ==> r == s)
            && (!s.deferred ==> r == Perform(s.(counter := 1), Checkpoint) && Settled(r))
    ensures Perform(s, Sigmask(BadHow, Some(mask))) == s
  {
    CheckpointIs(s.(counter := 1));
    DeliverySettles(s.(counter := 0));
  }

  lemma AcknowledgeDelivers(s: State, n: Sig)
    requires !s.deferred && SigValid(n) && n != SIGKILL
    ensures Perform(s, Acknowledge(n)) == DeliverPending(s.(blocked := s.blocked - {n}, counter := 0), 1)
  {
  }

  /** The same for pthread_signal with SIG_ACK: the signal is unblocked, and blocked again
      exactly if its handler ran on the way out. */
  lemma MaskAfterAcknowledge(s: State, n: Sig)
    requires Accounted(s) && !s.stopped && !s.deferred && SigValid(n) && n != SIGKILL
    requires SafeState(s.(blocked := s.blocked - {n}))
    requires forall k :: 0 <= k < NSIG ==> !s.actions[k].sysv
    ensures var r := Perform(s, Acknowledge(n));
            && |s.ran| <= |r.ran|
            && (!r.stopped ==> r.blocked == (s.blocked - {n}) + Members(Ran(s, r)) && r.pending <= r.blocked)
  {
    AcknowledgeDelivers(s, n);
    MaskAfterDelivery(s.(blocked := s.blocked - {n}, counter := 0));
  }

  /** pthread_sigsuspend gives the entry mask back exactly, whatever the handlers
      did, and leaves pending only what the temporary mask, or an SA_ACK handler run
      meanwhile, kept blocked. */
  lemma SigsuspendRestoresMask(s: State, mask: set<Sig>, arrivals: seq<Sig>)
    requires Accounted(s) && !s.stopped
    ensures var r := Perform(s, Sigsuspend(mask, arrivals));
            !r.stopped ==>
              && r.blocked == s.blocked
              && (SafeState(SetBlocked(s, mask)) ==>
                    && |s.ran| <= |r.ran|
                    && r.pending <= (mask - s.unmaskable) + Members(Ran(s, r)))
  {
    var s0 := SetBlocked(s, mask);
    var s1 := KillAll(s0, arrivals).(counter := 0);
    KillAllKeeps(s0, arrivals);
    KillAllAccounted(s0, arrivals);
    DeliverPendingSettles(s1, 1);
    var r := DeliverPending(s1, 1);
    if !r.stopped && SafeState(s0) {
      DeliverPendingSpends(s1, 1);
      forall n | n in r.pending ensures n in (mask - s.unmaskable) + Members(Ran(s, r)) {
        assert n !in Ready(r);
      }
    }
  }
}
