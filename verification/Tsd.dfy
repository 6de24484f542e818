/**
 Thread-specific data (uthread_spec.c) as a machine over values.

 One step is one API call of some thread, or one iteration of the exit sweep
 of some thread; a destructor that is running is a phase of its thread, so
 every interleaving of re-entrant destructors, other threads' calls and other
 threads' sweeps is a sequence of steps.
 */
module Tsd {
  const KEYS_MAX: nat := 256
  const DESTRUCTOR_ITERATIONS: nat := 4

  /** A data pointer or a function pointer; 0 is the null pointer. */
  type Pointer = nat
  const NULL: Pointer := 0

  datatype Status = Success | Eagain | Einval | Ebusy

  datatype Key = Key(count: int, destructor: Pointer)
  type KeyTable = s: seq<Key> | |s| == KEYS_MAX witness seq(KEYS_MAX, _ => Key(0, NULL))
  type Slots = s: seq<Pointer> | |s| == KEYS_MAX witness seq(KEYS_MAX, _ => NULL)

  function EmptyTable(): KeyTable { seq(KEYS_MAX, _ => Key(0, NULL)) }
  function EmptySlots(): Slots { seq(KEYS_MAX, _ => NULL) }

  /** Where a thread is. Gone: its slot array has been freed; what the array
      still held is what the sweep abandoned. */
  datatype Phase =
    | Live
    | Sweeping(pass: nat, key: nat)
    | Destroying(pass: nat, key: nat, data: Pointer)
    | Gone

  datatype Thread = Thread(hasSlots: bool, slots: Slots, count: int, phase: Phase)

  type Tid = nat
  datatype State = State(keys: KeyTable, threads: map<Tid, Thread>)

  // ---------------------------------------------------------------- API calls

  function FirstFree(keys: seq<Key>): (k: nat)
    ensures k <= |keys|
    ensures k < |keys| ==> keys[k].count == 0
    ensures forall j :: 0 <= j < k ==> keys[j].count != 0
  {
    if keys == [] || keys[0].count == 0 then 0 else 1 + FirstFree(keys[1..])
  }

  function CreateKey(s: State, destructor: Pointer): (State, Status, nat)
  {
    var k := FirstFree(s.keys);
    if k < KEYS_MAX
    then (s.(keys := s.keys[k := Key(s.keys[k].count + 1, destructor)]), Success, k)
    else (s, Eagain, k)
  }

  function DeleteKey(s: State, key: nat): (State, Status)
  {
    if key < KEYS_MAX then
      if s.keys[key].count == 1 then (s.(keys := s.keys[key := Key(0, NULL)]), Success)
      else if s.keys[key].count == 0 then (s, Success)
      else (s, Ebusy)
    else
      (s, Einval)
  }

  function AddCount(keys: KeyTable, k: nat, d: int): KeyTable
    requires k < KEYS_MAX
  {
    keys[k := keys[k].(count := keys[k].count + d)]
  }

  /** +1 when a slot fills, -1 when it empties, 0 otherwise. */
  function Delta(before: Pointer, after: Pointer): int
  {
    if before == NULL then if after != NULL then 1 else 0
    else if after == NULL then -1 else 0
  }

  function SetSpecific(s: State, t: Tid, key: nat, value: Pointer): (State, Status)
    requires t in s.threads
  {
    var th := s.threads[t].(hasSlots := true);
    if key < KEYS_MAX && s.keys[key].count != 0 then
      var d := Delta(th.slots[key], value);
      (State(AddCount(s.keys, key, d),
             s.threads[t := th.(slots := th.slots[key := value], count := th.count + d)]),
       Success)
    else
      (s.(threads := s.threads[t := th]), Einval)
  }

  function GetSpecific(s: State, t: Tid, key: nat): Pointer
    requires t in s.threads
  {
    var th := s.threads[t];
    if th.hasSlots && key < KEYS_MAX && s.keys[key].count != 0 then th.slots[key] else NULL
  }

  // --------------------------------------------------------------- exit sweep

  /** The position after (pass, key) in the two nested loops. */
  function After(pass: nat, key: nat): Phase
  {
    if key + 1 < KEYS_MAX then Sweeping(pass, key + 1)
    else if pass + 1 < DESTRUCTOR_ITERATIONS then Sweeping(pass + 1, 0)
    else Gone
  }

  /** pthread_exit runs the sweep only if the thread ever allocated slots. */
  function Exit(s: State, t: Tid): State
    requires t in s.threads
  {
    var th := s.threads[t];
    s.(threads := s.threads[t := th.(phase := if th.hasSlots then Sweeping(0, 0) else Gone)])
  }

  function Advance(s: State, t: Tid): State
    requires t in s.threads && s.threads[t].phase.Sweeping? && s.threads[t].phase.key < KEYS_MAX
  {
    var th := s.threads[t];
    var pass, key := th.phase.pass, th.phase.key;
    if th.count == 0 then
      s.(threads := s.threads[t := th.(phase := Gone)])
    else if th.slots[key] == NULL then
      s.(threads := s.threads[t := th.(phase := After(pass, key))])
    else
      var cleared := th.(slots := th.slots[key := NULL], count := th.count - 1);
      if s.keys[key].destructor != NULL then
        s.(threads := s.threads[t := cleared.(phase := Destroying(pass, key, th.slots[key]))])
      else
        State(AddCount(s.keys, key, -1), s.threads[t := cleared.(phase := After(pass, key))])
  }

  function DestructorReturns(s: State, t: Tid): State
    requires t in s.threads && s.threads[t].phase.Destroying? && s.threads[t].phase.key < KEYS_MAX
  {
    var th := s.threads[t];
    State(AddCount(s.keys, th.phase.key, -1),
          s.threads[t := th.(phase := After(th.phase.pass, th.phase.key))])
  }

  // --------------------------------------------------------------------- runs

  datatype Step =
    | Spawn(t: Tid)
    | Create(destructor: Pointer)
    | Delete(key: nat)
    | Set(t: Tid, key: nat, value: Pointer)
    | BeginExit(t: Tid)
    | SweepOn(t: Tid)
    | Return(t: Tid)

  predicate Enabled(s: State, step: Step)
  {
    match step
    case Spawn(t) => t !in s.threads
    case Create(_) => true
    case Delete(_) => true
    case Set(t, _, _) => t in s.threads && s.threads[t].phase != Gone
    case BeginExit(t) => t in s.threads && s.threads[t].phase == Live
    case SweepOn(t) => t in s.threads && s.threads[t].phase.Sweeping? && s.threads[t].phase.key < KEYS_MAX
    case Return(t) => t in s.threads && s.threads[t].phase.Destroying? && s.threads[t].phase.key < KEYS_MAX
  }

  /** A step that is not enabled leaves the state alone. */
  function Apply(s: State, step: Step): State
  {
    if !Enabled(s, step) then s else
    match step
    case Spawn(t) => State(s.keys, s.threads[t := Thread(false, EmptySlots(), 0, Live)])
    case Create(d) => CreateKey(s, d).0
    case Delete(k) => DeleteKey(s, k).0
    case Set(t, k, v) => SetSpecific(s, t, k, v).0
    case BeginExit(t) => Exit(s, t)
    case SweepOn(t) => Advance(s, t)
    case Return(t) => DestructorReturns(s, t)
  }

  function Run(s: State, steps: seq<Step>): State
  {
    if steps == [] then s
    else Apply(Run(s, steps[..|steps| - 1]), steps[|steps| - 1])
  }

  function Start(): State { State(EmptyTable(), map[]) }

  // --------------------------------------------------------------- accounting

  /** Threads with a non-null value under k, whether live or abandoned. */
  ghost function Holders(s: State, k: nat): set<Tid>
    requires k < KEYS_MAX
  {
    set t | t in s.threads && s.threads[t].slots[k] != NULL
  }

  /** Threads whose destructor for k is running. */
  ghost function InFlight(s: State, k: nat): set<Tid>
  {
    set t | t in s.threads && s.threads[t].phase.Destroying? && s.threads[t].phase.key == k
  }

  ghost function Filled(slots: Slots): set<nat>
  {
    set k | 0 <= k < KEYS_MAX && slots[k] != NULL
  }

  ghost predicate KeyBalanced(s: State, k: nat)
    requires k < KEYS_MAX
  {
    if s.keys[k].count == 0
    then Holders(s, k) == {} && InFlight(s, k) == {}
    else s.keys[k].count == 1 + |Holders(s, k)| + |InFlight(s, k)|
  }

  ghost predicate ThreadBalanced(th: Thread)
  {
    && th.count == |Filled(th.slots)|
    && (!th.hasSlots ==> th.slots == EmptySlots() && !th.phase.Sweeping? && !th.phase.Destroying?)
    && (th.phase.Sweeping? || th.phase.Destroying? ==>
          th.phase.pass < DESTRUCTOR_ITERATIONS && th.phase.key < KEYS_MAX)
  }

  ghost predicate Inv(s: State)
  {
    && (forall t :: t in s.threads ==> ThreadBalanced(s.threads[t]))
    && (forall k :: 0 <= k < KEYS_MAX ==> KeyBalanced(s, k))
  }
}
