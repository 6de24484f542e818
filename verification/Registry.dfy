/**
 The life of a thread record: registered by _thread_create2 on the list of live
 threads, moved by pthread_exit to the list of dead ones, and read by pthread_join
 (uthread_create.c, uthread_exit.c, uthread_join.c). A handler thread has a parent,
 which it puts into the state SigThread and then suspends when it starts, and wakes
 when it exits. A suspended thread takes no steps.

 T names thread records. A step is what one thread does inside one critical section,
 or one access outside.
 */
module Registry {
  import opened Prelude
  import opened ThreadStates

  datatype Phase =
    | Alive
    | Exiting        // in pthread_exit, its return value is stored
    | Unlinked       // on the list of dead threads
    | Marked         // and its state is set to Dead
    | Gone           // the kernel thread has ended

  /** How far a handler thread has come with its parent. */
  datatype Stage =
    | Untold
    | Told           // it has set the parent's state
    | Handling       // and suspended it

  datatype Rec<T> = Rec(
    parent: Option<T>,
    sig: int,                  // the signal a handler thread handles
    stage: Stage,
    state: ThreadState,
    held: bool,                // suspended by the kernel
    blocked: set<int>,
    ret: Option<int>,          // None until pthread_exit stores it
    detached: bool,
    phase: Phase,
    born: nat)

  datatype Outcome = Value(ret: Option<int>) | Esrch

  datatype State<T> = State(
    live: seq<T>,              // _thread_link_list, from its head
    dead: seq<T>,              // _thread_dead
    recs: map<T, Rec<T>>,
    births: nat,
    joining: map<T, T>,        // who waits for whom in pthread_join
    joined: seq<(T, Outcome)>) // history: what joins of whom returned

  function Fresh<T>(): State<T>
  {
    State([], [], map[], 0, map[], [])
  }

  predicate Listed(phase: Phase)
  {
    phase.Alive? || phase.Exiting?
  }

  /** Some listed thread is a handler thread of p. */
  predicate HasHandler<T(==)>(live: seq<T>, recs: map<T, Rec<T>>, p: T)
  {
    exists u :: u in live && u in recs && recs[u].parent == Some(p)
  }

  /** The critical section of _thread_create2. */
  function Register<T(==)>(s: State<T>, t: T, parent: Option<T>, sig: int, state: ThreadState, detached: bool): State<T>
  {
    s.(live := [t] + s.live, births := s.births + 1,
       recs := s.recs[t := Rec(parent, sig, Untold, state, state.Suspended?, {}, None, detached, Alive, s.births)])
  }

  function SetState<T(==)>(s: State<T>, t: T, state: ThreadState): State<T>
  {
    if t in s.recs then s.(recs := s.recs[t := s.recs[t].(state := state)]) else s
  }

  function SetStage<T(==)>(s: State<T>, t: T, stage: Stage): State<T>
  {
    if t in s.recs then s.(recs := s.recs[t := s.recs[t].(stage := stage)]) else s
  }

  /** DosSuspendThread on a thread; one that has ended is not suspended. */
  function Hold<T(==)>(s: State<T>, t: T): State<T>
  {
    if t in s.recs && !s.recs[t].phase.Gone? then s.(recs := s.recs[t := s.recs[t].(held := true)]) else s
  }

  /** pthread_suspend_np and pthread_resume_np. */
  function SuspendNp(r: Rec): Rec
  {
    r.(state := Suspended, held := r.held || r.state.Running?)
  }

  function ResumeNp(r: Rec): Rec
  {
    if r.state.Suspended? then r.(state := Running, held := false) else r
  }

  /** What the exit of handler thread t does to its parent p, when live is what is left
      of the list. */
  function Woken<T(==)>(live: seq<T>, recs: map<T, Rec<T>>, t: T, p: T): Rec<T>
    requires t in recs && p in recs
  {
    var r := recs[p];
    var r' := if !HasHandler(live, recs, p) && !r.state.Dead? && !r.state.Running?
              then r.(state := Running, held := false) else r;
    r'.(blocked := r'.blocked - {recs[t].sig})
  }

  /** The critical section of pthread_exit. */
  function Unlink<T(==)>(s: State<T>, t: T): State<T>
  {
    if t !in s.recs then s
    else
      var live := Without(s.live, t);
      var recs := match s.recs[t].parent
        case None => s.recs
        case Some(p) => if p in s.recs then s.recs[p := Woken(live, s.recs, t, p)] else s.recs;
      s.(live := live, dead := [t] + s.dead, recs := recs[t := recs[t].(phase := Unlinked)])
  }

  datatype Step<T> =
    | Begin(t: T, parent: Option<T>, sig: int, suspended: bool, detached: bool)
    | Announce(t: T)                         // a handler thread sets its parent's state
    | Halt(t: T)                             // and suspends it
    | Change(t: T, state: ThreadState)       // a thread changes its own state
    | Suspend(t: T)                          // pthread_suspend_np of it, by any thread
    | Resume(t: T)                           // pthread_resume_np
    | Detach(t: T)
    | Save(t: T, ret: int)                   // pthread_exit is entered
    | Leave(t: T)                            // its critical section
    | Die(t: T)
    | End(t: T)
    | JoinBegin(j: T, t: T)
    | JoinEnd(j: T)

  /** The thread can take steps. */
  predicate Free<T(==)>(s: State<T>, t: T)
  {
    t in s.recs && !s.recs[t].held
  }

  /** Whether the step can be taken. */
  predicate Enabled<T(==)>(s: State<T>, step: Step<T>)
  {
    match step
    case Begin(t, parent, _, _, _) => t !in s.recs && (parent.Some? ==> parent.value in s.recs)
    case Announce(t) =>
      Free(s, t) && s.recs[t].phase.Alive? && s.recs[t].parent.Some? && s.recs[t].stage.Untold? && t !in s.joining
    case Halt(t) =>
      Free(s, t) && s.recs[t].phase.Alive? && s.recs[t].parent.Some? && s.recs[t].stage.Told? && t !in s.joining
    case Change(t, state) =>
      Free(s, t) && Listed(s.recs[t].phase) && !state.SigThread? && !state.Dead? && !state.Suspended?
    case Suspend(t) => t in s.recs && Listed(s.recs[t].phase)
    case Resume(t) => t in s.recs && Listed(s.recs[t].phase)
    case Detach(t) => t in s.recs
    case Save(t, _) =>
      Free(s, t) && Listed(s.recs[t].phase) && t !in s.joining && (s.recs[t].parent.Some? ==> s.recs[t].stage.Handling?)
    case Leave(t) => Free(s, t) && s.recs[t].phase.Exiting? && t !in s.joining
    case Die(t) => Free(s, t) && s.recs[t].phase.Unlinked?
    case End(t) => Free(s, t) && s.recs[t].phase.Marked?
    case JoinBegin(j, t) => Free(s, j) && Listed(s.recs[j].phase) && j !in s.joining
    case JoinEnd(j) => Free(s, j) && j in s.joining && s.joining[j] in s.recs && s.recs[s.joining[j]].phase.Gone?
  }

  function SetPhase<T(==)>(s: State<T>, t: T, phase: Phase): State<T>
  {
    if t in s.recs then s.(recs := s.recs[t := s.recs[t].(phase := phase)]) else s
  }

  /** What the check at the end of pthread_join returns. */
  function Report<T(==)>(s: State<T>, t: T): Outcome
  {
    if t !in s.recs || s.recs[t].detached then Esrch else Value(s.recs[t].ret)
  }

  function Log<T(==)>(s: State<T>, t: T): State<T>
  {
    s.(joined := s.joined + [(t, Report(s, t))])
  }

  /** pthread_exit is entered. */
  function Store<T(==)>(s: State<T>, t: T, ret: int): State<T>
  {
    if t in s.recs then s.(recs := s.recs[t := s.recs[t].(phase := Exiting, ret := Some(ret))]) else s
  }

  /** pthread_join called by j, up to its wait for t. */
  function StartJoin<T(==)>(s: State<T>, j: T, t: T): State<T>
  {
    if (t !in s.live && t !in s.dead) || t !in s.recs || s.recs[t].detached then
      s.(joined := s.joined + [(t, Esrch)])
    else if !s.recs[t].state.Dead? then SetState(s, j, Join).(joining := s.joining[j := t])
    else Log(s, t)
  }

  /** pthread_join called by j, from the end of its wait for t. */
  function FinishJoin<T(==)>(s: State<T>, j: T, t: T): State<T>
  {
    Log(SetState(s, j, Running).(joining := s.joining - {j}), t)
  }

  function Apply<T(==)>(s: State<T>, step: Step<T>): State<T>
  {
    if !Enabled(s, step) then s
    else
      match step
      case Begin(t, parent, sig, suspended, detached) =>
        Register(s, t, parent, sig, if suspended then Suspended else Running, detached)
      case Announce(t) => SetState(SetStage(s, t, Told), s.recs[t].parent.value, SigThread)
      case Halt(t) => Hold(SetStage(s, t, Handling), s.recs[t].parent.value)
      case Change(t, state) => SetState(s, t, state)
      case Suspend(t) => s.(recs := s.recs[t := SuspendNp(s.recs[t])])
      case Resume(t) => s.(recs := s.recs[t := ResumeNp(s.recs[t])])
      case Detach(t) => s.(recs := s.recs[t := s.recs[t].(detached := true)])
      case Save(t, ret) => Store(s, t, ret)
      case Leave(t) => Unlink(s, t)
      case Die(t) => SetPhase(SetState(s, t, Dead), t, Marked)
      case End(t) => SetPhase(s, t, Gone)
      case JoinBegin(j, t) => StartJoin(s, j, t)
      case JoinEnd(j) => FinishJoin(s, j, s.joining[j])
  }

  function Run<T(==)>(s: State<T>, steps: seq<Step<T>>): State<T>
  {
    if steps == [] then s else Apply(Run(s, steps[..|steps| - 1]), steps[|steps| - 1])
  }
}

/** What every run of registrations, exits and joins keeps. */
module RegistryLaws {
  import opened Prelude
  import opened ThreadStates
  import opened Registry

  ghost predicate Distinct<T>(s: seq<T>)
  {
    forall i, j :: 0 <= i < j < |s| ==> s[i] != s[j]
  }

  /** Each record is on exactly one of the two lists, once, and its phase says on which. */
  ghost predicate ListsInv<T>(s: State<T>)
  {
    && Distinct(s.live) && Distinct(s.dead)
    && (forall t :: t in s.live ==> t in s.recs && Listed(s.recs[t].phase))
    && (forall t :: t in s.dead ==> t in s.recs && !Listed(s.recs[t].phase))
    && (forall t :: t in s.recs ==> t in s.live || t in s.dead)
  }

  /** Newer threads come first. */
  ghost predicate AgeInv<T>(s: State<T>)
  {
    && (forall t :: t in s.live ==> t in s.recs)
    && (forall t :: t in s.recs ==> s.recs[t].born < s.births)
    && (forall i, j :: 0 <= i < j < |s.live| ==> s.recs[s.live[i]].born > s.recs[s.live[j]].born)
  }

  ghost predicate RecInv<T>(s: State<T>, t: T)
    requires t in s.recs
  {
    var r := s.recs[t];
    && (r.parent.Some? ==> r.parent.value in s.recs && r.parent.value != t)
    && (r.state.SigThread? ==> HasHandler(s.live, s.recs, t))
    && (r.state.Dead? ==> r.phase.Marked? || r.phase.Gone?)
    && (!r.phase.Alive? ==> r.ret.Some?)
    && (r.held ==> !r.phase.Gone?)
  }

  ghost predicate JoinInv<T>(s: State<T>)
  {
    && (forall j :: j in s.joining ==> j in s.recs && Listed(s.recs[j].phase) && s.joining[j] in s.recs)
    && (forall i :: 0 <= i < |s.joined| && s.joined[i].1.Value? ==>
          var t := s.joined[i].0;
          t in s.recs && !Listed(s.recs[t].phase) && s.joined[i].1.ret == s.recs[t].ret)
  }

  ghost predicate Inv<T>(s: State<T>)
  {
    && ListsInv(s) && AgeInv(s) && JoinInv(s)
    && forall t :: t in s.recs ==> RecInv(s, t)
  }

  /** A step that leaves both lists alone and changes only what a record may change
      while it stays on its list. */
  ghost predicate SameLists<T>(s: State<T>, s': State<T>)
  {
    && s'.live == s.live && s'.dead == s.dead && s'.births == s.births && s'.recs.Keys == s.recs.Keys
    && forall t :: t in s.recs ==>
         && s'.recs[t].parent == s.recs[t].parent && s'.recs[t].born == s.recs[t].born
         && (Listed(s'.recs[t].phase) <==> Listed(s.recs[t].phase))
         && (s'.recs[t].ret == s.recs[t].ret || Listed(s.recs[t].phase))
  }

  lemma SameListsKeep<T>(s: State<T>, s': State<T>)
    requires ListsInv(s) && AgeInv(s) && SameLists(s, s')
    ensures ListsInv(s') && AgeInv(s')
    ensures forall p :: p in s.recs ==> (HasHandler(s'.live, s'.recs, p) <==> HasHandler(s.live, s.recs, p))
  {
    forall p | p in s.recs ensures HasHandler(s'.live, s'.recs, p) <==> HasHandler(s.live, s.recs, p) {
      assert forall u :: u in s.live ==> s'.recs[u].parent == s.recs[u].parent;
    }
  }

  lemma StartJoinKeepsLists<T>(s: State<T>, j: T, t: T)
    requires j in s.recs
    ensures SameLists(s, StartJoin(s, j, t))
  {
  }

  lemma FinishJoinKeepsLists<T>(s: State<T>, j: T, t: T)
    requires j in s.recs
    ensures SameLists(s, FinishJoin(s, j, t))
  {
  }

  /** What a handler thread does to its own record and to its parent's. */
  predicate OfHandler<T>(step: Step<T>)
  {
    step.Announce? || step.Halt?
  }

  predicate OfJoin<T>(step: Step<T>)
  {
    step.JoinBegin? || step.JoinEnd?
  }

  /** Joins that wait or have returned are left alone. */
  predicate OnlyRecords<T(==)>(s: State<T>, s': State<T>)
  {
    s'.joining == s.joining && s'.joined == s.joined
  }

  lemma OneRecordKeepsLists<T>(s: State<T>, t: T, r: Rec<T>)
    requires t in s.recs && r.parent == s.recs[t].parent && r.born == s.recs[t].born
    requires Listed(r.phase) <==> Listed(s.recs[t].phase)
    requires r.ret == s.recs[t].ret || Listed(s.recs[t].phase)
    ensures SameLists(s, s.(recs := s.recs[t := r]))
  {
  }

  lemma TwoRecordsKeepLists<T>(s: State<T>, t: T, stage: Stage, p: T, state: ThreadState, held: bool)
    requires t in s.recs && p in s.recs && p != t
    ensures var recs := s.recs[t := s.recs[t].(stage := stage)][p := s.recs[p].(state := state, held := held)];
            var s' := s.(recs := recs);
            SameLists(s, s') && OnlyRecords(s, s')
  {
  }

  lemma HandlerStepsKeepLists<T>(s: State<T>, step: Step<T>)
    requires Inv(s) && OfHandler(step) && Enabled(s, step)
    ensures SameLists(s, Apply(s, step)) && OnlyRecords(s, Apply(s, step))
  {
    var t := step.t;
    var p := s.recs[t].parent.value;
    assert RecInv(s, t);
    var r := Apply(s, step).recs[p];
    var stage := if step.Announce? then Told else Handling;
    assert Apply(s, step).recs
        == s.recs[t := s.recs[t].(stage := stage)][p := s.recs[p].(state := r.state, held := r.held)];
    TwoRecordsKeepLists(s, t, stage, p, r.state, r.held);
  }

  lemma JoinStepsKeepLists<T>(s: State<T>, step: Step<T>)
    requires Inv(s) && OfJoin(step) && Enabled(s, step)
    ensures SameLists(s, Apply(s, step))
  {
    if step.JoinBegin? {
      StartJoinKeepsLists(s, step.j, step.t);
    } else {
      FinishJoinKeepsLists(s, step.j, s.joining[step.j]);
    }
  }

  lemma OwnStepsKeepLists<T>(s: State<T>, step: Step<T>)
    requires Inv(s) && !step.Begin? && !step.Leave? && !OfHandler(step) && !OfJoin(step) && Enabled(s, step)
    ensures SameLists(s, Apply(s, step)) && OnlyRecords(s, Apply(s, step))
  {
    var r := Apply(s, step).recs[step.t];
    assert Apply(s, step) == s.(recs := s.recs[step.t := r]);
    OneRecordKeepsLists(s, step.t, r);
  }

  lemma OtherStepsKeepLists<T>(s: State<T>, step: Step<T>)
    requires Inv(s) && !step.Begin? && !step.Leave? && Enabled(s, step)
    ensures SameLists(s, Apply(s, step)) && (!OfJoin(step) ==> OnlyRecords(s, Apply(s, step)))
  {
    if OfHandler(step) {
      HandlerStepsKeepLists(s, step);
    } else if OfJoin(step) {
      JoinStepsKeepLists(s, step);
    } else {
      OwnStepsKeepLists(s, step);
    }
  }

  lemma StartJoinKeepsRec<T>(s: State<T>, j: T, t: T, u: T)
    requires Inv(s) && Free(s, j) && Listed(s.recs[j].phase) && u in s.recs
    ensures var s' := StartJoin(s, j, t);
            u in s'.recs && ((HasHandler(s'.live, s'.recs, u) <==> HasHandler(s.live, s.recs, u)) ==> RecInv(s', u))
  {
    assert RecInv(s, u);
  }

  lemma FinishJoinKeepsRec<T>(s: State<T>, j: T, t: T, u: T)
    requires Inv(s) && j in s.recs && u in s.recs
    ensures var s' := FinishJoin(s, j, t);
            u in s'.recs && ((HasHandler(s'.live, s'.recs, u) <==> HasHandler(s.live, s.recs, u)) ==> RecInv(s', u))
  {
    assert RecInv(s, u);
  }

  lemma HandlerStepsKeepRec<T>(s: State<T>, step: Step<T>, u: T)
    requires Inv(s) && OfHandler(step) && Enabled(s, step) && u in s.recs
    ensures var s' := Apply(s, step);
            u in s'.recs && ((HasHandler(s'.live, s'.recs, u) <==> HasHandler(s.live, s.recs, u)) ==> RecInv(s', u))
  {
    var t := step.t;
    assert RecInv(s, u) && RecInv(s, t);
    assert t in s.live by { assert t !in s.dead; }
    assert s.recs[t].parent == Some(u) ==> HasHandler(s.live, s.recs, u);
  }

  lemma OwnStepsKeepRec<T>(s: State<T>, step: Step<T>, u: T)
    requires Inv(s) && !step.Begin? && !step.Leave? && !OfHandler(step) && !OfJoin(step) && Enabled(s, step)
    requires u in s.recs
    ensures var s' := Apply(s, step);
            u in s'.recs && ((HasHandler(s'.live, s'.recs, u) <==> HasHandler(s.live, s.recs, u)) ==> RecInv(s', u))
  {
    assert RecInv(s, u);
  }

  lemma OtherStepsKeepRec<T>(s: State<T>, step: Step<T>, u: T)
    requires Inv(s) && !step.Begin? && !step.Leave? && Enabled(s, step) && u in s.recs
    ensures var s' := Apply(s, step);
            u in s'.recs && ((HasHandler(s'.live, s'.recs, u) <==> HasHandler(s.live, s.recs, u)) ==> RecInv(s', u))
  {
    if step.JoinBegin? {
      StartJoinKeepsRec(s, step.j, step.t, u);
    } else if step.JoinEnd? {
      FinishJoinKeepsRec(s, step.j, s.joining[step.j], u);
    } else if OfHandler(step) {
      HandlerStepsKeepRec(s, step, u);
    } else {
      OwnStepsKeepRec(s, step, u);
    }
  }

  lemma StartJoinKeepsJoins<T>(s: State<T>, j: T, t: T)
    requires Inv(s) && j in s.recs && Listed(s.recs[j].phase) && j !in s.joining
    ensures JoinInv(StartJoin(s, j, t))
  {
    if t in s.recs { assert RecInv(s, t); }
  }

  lemma FinishJoinKeepsJoins<T>(s: State<T>, j: T, t: T)
    requires Inv(s) && j in s.recs && t in s.recs && s.recs[t].phase.Gone?
    ensures JoinInv(FinishJoin(s, j, t))
  {
    assert RecInv(s, t);
  }

  lemma RecordsKeepJoins<T>(s: State<T>, s': State<T>)
    requires JoinInv(s) && SameLists(s, s') && OnlyRecords(s, s')
    ensures JoinInv(s')
  {
  }

  lemma OtherStepsKeepJoins<T>(s: State<T>, step: Step<T>)
    requires Inv(s) && !step.Begin? && !step.Leave? && Enabled(s, step)
    ensures JoinInv(Apply(s, step))
  {
    if step.JoinBegin? {
      StartJoinKeepsJoins(s, step.j, step.t);
    } else if step.JoinEnd? {
      FinishJoinKeepsJoins(s, step.j, s.joining[step.j]);
    } else {
      OtherStepsKeepLists(s, step);
      RecordsKeepJoins(s, Apply(s, step));
    }
  }

  /** Every step but Begin and Leave. */
  lemma OtherStepsKeepInv<T>(s: State<T>, step: Step<T>)
    requires Inv(s) && !step.Begin? && !step.Leave? && Enabled(s, step)
    ensures Inv(Apply(s, step))
  {
    var s' := Apply(s, step);
    OtherStepsKeepLists(s, step);
    SameListsKeep(s, s');
    OtherStepsKeepJoins(s, step);
    forall u | u in s'.recs ensures RecInv(s', u) {
      OtherStepsKeepRec(s, step, u);
    }
  }

  lemma BeginKeepsRec<T>(s: State<T>, step: Step<T>, u: T)
    requires Inv(s) && step.Begin? && Enabled(s, step) && u in Apply(s, step).recs
    ensures RecInv(Apply(s, step), u)
  {
    var s', t := Apply(s, step), step.t;
    if u != t {
      assert RecInv(s, u);
      if HasHandler(s.live, s.recs, u) {
        var h :| h in s.live && s.recs[h].parent == Some(u);
        assert h in s'.live && s'.recs[h].parent == Some(u);
      }
    }
  }

  lemma BeginKeepsInv<T>(s: State<T>, step: Step<T>)
    requires Inv(s) && step.Begin? && Enabled(s, step)
    ensures Inv(Apply(s, step))
  {
    var s', t := Apply(s, step), step.t;
    assert forall u :: u in s.live || u in s.dead ==> u != t;
    assert s'.live == [t] + s.live;
    forall u | u in s'.recs ensures RecInv(s', u) {
      BeginKeepsRec(s, step, u);
    }
  }

  lemma WithoutKeeps<T>(live: seq<T>, t: T)
    requires Distinct(live) && t in live
    ensures OneLess(live, Without(live, t), Find(live, t)) && Distinct(Without(live, t))
    ensures forall u :: u in Without(live, t) <==> u in live && u != t
  {
    WithoutAt(live, t);
    var r, k := Without(live, t), Find(live, t);
    forall u | u in live && u != t ensures u in r {
      var i :| 0 <= i < |live| && live[i] == u;
      assert i < k ==> r[i] == u;
      assert i > k ==> r[i - 1] == u;
    }
  }

  /** From s to s' thread t has moved from the list of live threads to the front of the
      dead ones; every other record is on the list it was on. */
  ghost predicate Moved<T>(s: State<T>, s': State<T>, t: T)
  {
    && t in s.recs
    && OneLess(s.live, s'.live, Find(s.live, t)) && Distinct(s'.live)
    && (forall u :: u in s'.live ==> u in s.live && u != t)
    && (forall u :: u in s.live && u != t ==> u in s'.live)
    && s'.dead == [t] + s.dead && s'.recs.Keys == s.recs.Keys
    && s'.births == s.births && s'.joining == s.joining && s'.joined == s.joined
    && s'.recs[t] == s.recs[t].(phase := Unlinked)
    && forall u :: u in s.recs ==>
         && s'.recs[u].parent == s.recs[u].parent && s'.recs[u].born == s.recs[u].born
         && s'.recs[u].ret == s.recs[u].ret && (u != t ==> s'.recs[u].phase == s.recs[u].phase)
  }

  /** pthread_exit moves the thread that calls it, and only that; of the other records
      it changes at most the parent's. */
  lemma LeaveEffect<T>(s: State<T>, t: T)
    requires Inv(s) && t in s.recs && s.recs[t].phase.Exiting?
    ensures var s' := Unlink(s, t);
            && Moved(s, s', t)
            && (forall u :: u in s.recs && u != t && s.recs[t].parent != Some(u) ==> s'.recs[u] == s.recs[u])
            && (forall p :: p in s.recs && s.recs[t].parent == Some(p) ==> s'.recs[p] == Woken(s'.live, s.recs, t, p))
  {
    assert t in s.live || t in s.dead;
    WithoutKeeps(s.live, t);
    assert RecInv(s, t);
  }

  lemma MovedKeepsLists<T>(s: State<T>, s': State<T>, t: T)
    requires ListsInv(s) && Moved(s, s', t) && t in s.live
    ensures ListsInv(s')
  {
    assert t !in s.dead;
  }

  lemma MovedKeepsAges<T>(s: State<T>, s': State<T>, t: T)
    requires AgeInv(s) && Moved(s, s', t)
    ensures AgeInv(s')
  {
    var k := Find(s.live, t);
    forall i, j | 0 <= i < j < |s'.live| ensures s'.recs[s'.live[i]].born > s'.recs[s'.live[j]].born {
      var i', j' := if i < k then i else i + 1, if j < k then j else j + 1;
      assert s'.live[i] == s.live[i'] && s'.live[j] == s.live[j'];
    }
  }

  lemma MovedKeepsJoins<T>(s: State<T>, s': State<T>, t: T)
    requires JoinInv(s) && Moved(s, s', t) && t !in s.joining
    ensures JoinInv(s')
  {
  }

  /** The handlers of p that are still listed once t has left. */
  lemma HandlersLeft<T>(s: State<T>, s': State<T>, t: T, p: T)
    requires ListsInv(s) && Moved(s, s', t) && p in s.recs
    ensures HasHandler(s'.live, s'.recs, p) <==> HasHandler(s'.live, s.recs, p)
    ensures s.recs[t].parent != Some(p) ==> (HasHandler(s'.live, s'.recs, p) <==> HasHandler(s.live, s.recs, p))
  {
    if HasHandler(s.live, s.recs, p) && s.recs[t].parent != Some(p) {
      var h :| h in s.live && s.recs[h].parent == Some(p);
      assert h in s'.live && s'.recs[h].parent == Some(p);
    }
  }

  lemma LeaveKeepsRec<T>(s: State<T>, s': State<T>, t: T, p: T)
    requires Inv(s) && Moved(s, s', t) && s.recs[t].phase.Exiting? && p in s.recs
    requires p != t && s.recs[t].parent != Some(p) ==> s'.recs[p] == s.recs[p]
    requires s.recs[t].parent == Some(p) ==> s'.recs[p] == Woken(s'.live, s.recs, t, p)
    ensures RecInv(s', p)
  {
    assert RecInv(s, p) && RecInv(s, t);
    HandlersLeft(s, s', t, p);
  }

  lemma LeaveKeepsInv<T>(s: State<T>, t: T)
    requires Inv(s) && Enabled(s, Leave(t))
    ensures Inv(Unlink(s, t))
  {
    LeaveEffect(s, t);
    var s' := Unlink(s, t);
    assert t in s.live || t in s.dead;
    MovedKeepsLists(s, s', t);
    MovedKeepsAges(s, s', t);
    MovedKeepsJoins(s, s', t);
    forall p | p in s.recs ensures RecInv(s', p) {
      LeaveKeepsRec(s, s', t, p);
    }
  }

  lemma StepKeepsInv<T>(s: State<T>, step: Step<T>)
    requires Inv(s)
    ensures Inv(Apply(s, step))
  {
    if Enabled(s, step) {
      match step
      case Begin(_, _, _, _, _) => BeginKeepsInv(s, step);
      case Leave(t) => LeaveKeepsInv(s, t);
      case _ => OtherStepsKeepInv(s, step);
    }
  }

  lemma {:induction false} RunKeepsInv<T>(steps: seq<Step<T>>)
    ensures Inv(Run(Fresh(), steps))
  {
    if steps != [] {
      RunKeepsInv(steps[..|steps| - 1]);
      StepKeepsInv(Run(Fresh(), steps[..|steps| - 1]), steps[|steps| - 1]);
    }
  }

  // ------------------------------------------------------------- the main results

  /** At every moment each registered thread is on exactly one of the two lists, once;
      and the list of live threads is in order of age, the newest first. */
  lemma EachThreadIsOnExactlyOneList<T>(steps: seq<Step<T>>, t: T)
    ensures var s := Run(Fresh(), steps);
            && (t in s.recs <==> t in s.live || t in s.dead)
            && !(t in s.live && t in s.dead)
            && Distinct(s.live) && Distinct(s.dead) && AgeInv(s)
  {
    RunKeepsInv(steps);
  }

  /** While a thread is in the state SigThread one of its handler threads is listed. */
  lemma SigThreadHasAHandler<T>(steps: seq<Step<T>>, p: T)
    requires p in Run(Fresh(), steps).recs && Run(Fresh(), steps).recs[p].state.SigThread?
    ensures var s := Run(Fresh(), steps); HasHandler(s.live, s.recs, p)
  {
    RunKeepsInv(steps);
    assert RecInv(Run(Fresh(), steps), p);
  }

  /** The value of the last pthread_exit that thread t entered in a run. */
  function LastExit<T(==)>(s: State<T>, steps: seq<Step<T>>, t: T): Option<int>
  {
    if steps == [] then None
    else
      var front, last := steps[..|steps| - 1], steps[|steps| - 1];
      if last.Save? && last.t == t && Enabled(Run(s, front), last) then Some(last.ret)
      else LastExit(s, front, t)
  }

  lemma RetAfterStep<T>(s: State<T>, step: Step<T>, t: T)
    requires Inv(s) && Enabled(s, step)
    ensures var s' := Apply(s, step);
            t in s'.recs ==>
              s'.recs[t].ret == if step.Save? && step.t == t then Some(step.ret)
                                else if t in s.recs then s.recs[t].ret else None
  {
    if step.Leave? { LeaveEffect(s, step.t); }
  }

  lemma {:induction false} RetIsLastExit<T>(steps: seq<Step<T>>, t: T)
    requires t in Run(Fresh(), steps).recs
    ensures Run(Fresh(), steps).recs[t].ret == LastExit(Fresh(), steps, t)
  {
    if steps != [] {
      var front, last := steps[..|steps| - 1], steps[|steps| - 1];
      var s := Run(Fresh(), front);
      RunKeepsInv(front);
      if Enabled(s, last) { RetAfterStep(s, last, t); }
      if t in s.recs {
        RetIsLastExit(front, t);
      } else {
        NeverExited(front, t);
      }
    }
  }

  lemma {:induction false} NeverExited<T>(steps: seq<Step<T>>, t: T)
    requires t !in Run(Fresh(), steps).recs
    ensures LastExit(Fresh(), steps, t) == None
  {
    if steps != [] {
      var front, last := steps[..|steps| - 1], steps[|steps| - 1];
      RunKeepsInv(front);
      KnownStaysKnown(Run(Fresh(), front), last, t);
      NeverExited(front, t);
    }
  }

  lemma KnownStaysKnown<T>(s: State<T>, step: Step<T>, t: T)
    requires Inv(s)
    ensures t in s.recs ==> t in Apply(s, step).recs
  {
    if Enabled(s, step) && step.Leave? { LeaveEffect(s, step.t); }
  }

  /** Whatever a pthread_join of t has returned so far is the value that t stored when it
      last entered pthread_exit; and t has left the list of live threads. */
  lemma JoinReturnsWhatWasStored<T>(steps: seq<Step<T>>, i: nat)
    requires i < |Run(Fresh(), steps).joined| && Run(Fresh(), steps).joined[i].1.Value?
    ensures var s := Run(Fresh(), steps);
            var t := s.joined[i].0;
            && s.joined[i].1.ret.Some? && s.joined[i].1.ret == LastExit(Fresh(), steps, t)
            && t !in s.live && t in s.dead
  {
    RunKeepsInv(steps);
    var s := Run(Fresh(), steps);
    var t := s.joined[i].0;
    assert RecInv(s, t);
    RetIsLastExit(steps, t);
  }

  /** pthread_join is refused at once, with ESRCH, exactly for a thread that was never
      registered or is detached; it returns at once with a value exactly for one whose
      state says it is dead; otherwise the caller waits. */
  lemma JoinOutcome<T>(steps: seq<Step<T>>, j: T, t: T)
    requires var s := Run(Fresh(), steps); Free(s, j) && Listed(s.recs[j].phase) && j !in s.joining
    ensures var s := Run(Fresh(), steps);
            var s' := Apply(s, JoinBegin(j, t));
            if t !in s.recs || s.recs[t].detached then s' == s.(joined := s.joined + [(t, Esrch)])
            else if s.recs[t].state == Dead then s' == s.(joined := s.joined + [(t, Value(s.recs[t].ret))])
            else s'.joined == s.joined && s'.joining == s.joining[j := t] && s'.recs[j].state == Join
  {
    RunKeepsInv(steps);
  }

  /** A thread that is past its death and not in the state Dead. */
  predicate Revived<T(==)>(s: State<T>, p: T)
  {
    p in s.recs && (s.recs[p].phase.Marked? || s.recs[p].phase.Gone?) && !s.recs[p].state.Dead?
  }

  lemma RevivedLeave<T>(s: State<T>, t: T, p: T)
    requires Inv(s) && Enabled(s, Leave(t)) && Revived(s, p)
    ensures Revived(Apply(s, Leave(t)), p)
  {
    LeaveEffect(s, t);
  }

  lemma RevivedStep<T>(s: State<T>, step: Step<T>, p: T)
    requires Inv(s) && Revived(s, p)
    ensures Revived(Apply(s, step), p)
  {
    if Enabled(s, step) && step.Leave? { RevivedLeave(s, step.t, p); }
  }

  /** A dead thread that a handler has put into another state never is Dead again, so no
      pthread_join of it takes the short way any more. */
  lemma {:induction false} RevivedStaysRevived<T>(s: State<T>, steps: seq<Step<T>>, p: T)
    requires Inv(s) && Revived(s, p)
    ensures Inv(Run(s, steps)) && Revived(Run(s, steps), p)
  {
    if steps != [] {
      RevivedStaysRevived(s, steps[..|steps| - 1], p);
      StepKeepsInv(Run(s, steps[..|steps| - 1]), steps[|steps| - 1]);
      RevivedStep(Run(s, steps[..|steps| - 1]), steps[|steps| - 1], p);
    }
  }
}
