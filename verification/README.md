# Verification of the uthread POSIX threads layer

A Dafny 4.11 model of the stateful parts of `src/pthread`, a POSIX threads layer over OS/2
kernel semaphores and threads, with proofs of what they guarantee and of exactly when they
fail to. The requirements they are measured against are those of P1003.1c, as published in
ISO/IEC 9945-1:1996 (sections 3.3.1.3, 11.3, 11.4 and 17.1).

Each part has two layers. A machine over values gives every step a thread can take; the
main results are for all runs, all interleavings and any number of threads. Beside it stand
classes whose methods update fields, arrays and linked records in place, as the C code does;
each method is proved to take its object from one state of the machine to the next, so what
is proved of runs holds of them. Where several threads work on one record at once (mutex,
condition variable, select, once) the interleaving exists only in the machine, because a
Dafny method runs alone; the methods are then the calls of one thread that nobody interferes
with. `struct pthread` is split: each class has the fields its functions use.

| files | what they model |
|---|---|
| `Tsd`, `TsdAccounting`, `TsdReads`, `TsdSweep`, `TsdProcess` | thread-specific data: key table, slots, counters, what is read back, the exit sweep with destructors that call back |
| `Signals`, `SignalLaws`, `SignalTermination`, `SignalEffects`, `SignalEngine` | per-thread signal delivery with handlers that re-enter it |
| `MutexMachine`, `MutexLaws`, `AtomicMutex`, `MutexObject` | fast and counting mutexes as micro-steps, and the atomic mutex they refine |
| `CondMachine`, `CondResults`, `CondBroadcast`, `CondCount`, `CondObject`, `Deadline` | condition variables over one event semaphore; what waits return; interleaved broadcasts; the unlocked count of waiters; the timeout arithmetic |
| `SelectMachine`, `SelectObject` | the record that `pthread_select` shares with its helper thread |
| `ThreadQueue` | intrusive queues and list removal |
| `Registry`, `JoinThreads`, `HandlerThreads`, `SuspendResume`, `RegistryObject`, `Terminate` | live and dead lists, exit, join, handler threads and the suspension of their parents, suspending and resuming, the sweep before process termination |
| `Once`, `Cleanup` | one-time initialisation; cleanup handlers |
| `Prelude`, `ThreadStates` | shared vocabulary |

## What the proofs found

- **sigaction has the default case the wrong way round.** For a pending signal it follows
  section 3.3.1.3 exactly when the new action is not `SIG_DFL`
  (`SigactionMeetsStandardExactlyUnlessDefault`).
- **Delivery may not terminate.** It does, whatever the handlers raise, if and only if no
  unblocked signal has a handler that is neither `SA_ACK` nor `SA_SYSV` and survives it
  (`DeliveryTerminatesExactlyWhenSafe`).
- **A signal sent with kill may not be acted on.** When the target leaves the state it was
  in, everything still pending is blocked if and only if leaving that state delivers
  (`KilledSignalIsDeliveredExactlyOnDelivery`). Join, file locks, a sleep that timed out, and
  reads and writes that do not return the value `EINTR` do not (`SignalSentToAJoinerIsLeft`);
  after a read that a signal aborted not even a checkpoint finds it
  (`SignalThatAbortsAReadIsForgotten`). A mask changed while deliveries are deferred is not
  counted either (`DeferredSigmaskIsFoundExactlyIfCounted`).
- **Five signals end the process even when they are ignored or handled**: SIGABRT, SIGEMT,
  SIGKILL, SIGBUS and SIGSYS (`DeliveryEndsTheProcessExactly`, `RunCallsSurvived`).
- **sigsuspend sleeps on a signal it has just unblocked** if and only if nothing else arrives
  (`SigsuspendSleepsExactlyWhenNothingArrives`).
- **A counting mutex needs a kernel that answers 640 to its owner.** If the kernel nests the
  request instead, locking twice keeps the semaphore for ever (`RelockLeaksForever`): a lock
  can be undone if and only if the kernel does not nest, or the caller does not own the
  mutex yet (`LockCanBeUndoneExactly`).
- **A broadcast can strand waiters.** It serves everybody it counted if and only if at most
  one of them had not reached the event yet
  (`BroadcastServesAllExactlyWhenAtMostOneApproaches`). With other steps between its posts
  it still releases everybody who was blocked, unless new waits begin
  (`PostsReleaseAllUnlessAWaitBegins`, `NewWaitsCanTakeEveryPost`).
- **A wait that times out can make `c_onwait` wrong**, because it lowers it without the
  mutex; while none does, the count is right (`CountIsRightIfNoWaitExpires`,
  `ExpiredWaitLosesACount`), and a count too low strands a sleeper
  (`ShortBroadcastStrandsExactly`). A wait that fails or times out comes
  back without the mutex (`WaitAndTheMutex`), which section 11.4 does not allow.
- **Far deadlines expire at once, and long expired ones wait**: the timeout is right if and
  only if its exact value fits in 32 bits, or lies so far in the past that it still reads as
  past (`TimeoutIsExactExactlyWhen`, `FarDeadlinesTimeOutAtOnce`, `LongPastDeadlinesWait`);
  a later deadline can wait shorter than an earlier one exactly beyond that range
  (`OvertakenExactlyBeyondRange`).
- **A select record is never freed, and its result lost,** if and only if the helper's last
  look at the event falls between two steps of the caller (`FreedExactlyUnlessTheyCross`,
  `CrossingLosesTheResult`), and always if the helper could not be started. The helper's post
  can always come after the caller has closed the event (`EveryPostCanBeLate`).
- **Removing a thread from the wrong queue** reports failure and cuts the right queue off
  behind it, unless it was the last there (`RemoveFromWrongQueue`).
- **A handler thread does not give its parent's state back.** If nothing else writes that
  state, the parent is Running after its last handler, so it has its state back if and only
  if it was Running (`ParentGetsItsStateBackExactly`); a dead thread that a handler has put
  into another state is never marked dead again (`RevivedStaysRevived`).
- **A parent can stay suspended for good.** Its last handler resumes it if and only if its
  state is then neither Running nor Dead (`LeaveWakesExactly`), and that can be the case when
  the parent returned from a wait between the two statements by which the handler had set its
  state and suspended it (`HeldRunningExactlyByHalt`, `LeaveStrandsExactly`,
  `StrandedStays`, `StrandingHappens`).
- **Suspending a thread that waits does not stop it**; it only loses the state that says
  what it waits for (`SuspendStopsExactlyTheRunning`,
  `SuspendThenResumeRestoresExactlyTheRunning`).
- **The terminate sweep does not reach threads created after the initial one**
  (`OnlyOlderAreReached`), and releases none that waits for a condition or in join
  (`SweepSparesExactly`).
- **`pthread_once` is safe if and only if the control's mutex was initialised**, which
  `PTHREAD_ONCE_INIT` does not do (`OnceExactlyWithMutex`).
- **A value stored after the sweep's last visit** of its slot is abandoned, and no other
  (`AbandonedExactlyWhenStoredLate`, `AbandonmentHappens`); it keeps its key from ever being
  deleted (`AbandonedKeyIsNeverDeleted`).

## Assumptions

- Memory is sequentially consistent and allocation succeeds. Each access of a shared field
  and each kernel call is one step; critical sections (`DosEnterCritSec`) and the walks over
  the thread lists in join are atomic, and so is each call of the thread-specific data
  interface, which has no lock of its own. So are the updates of `c_onwait` in `CondMachine`
  (`CondCount` takes them apart) and of a thread's sets of pending and blocked signals
  (`sig_pending &= ~mask`, line 121 of `uthread_init.c`, against the `sigaddset` of kill,
  which the source marks as to be done), `pthread_suspend_np` and `pthread_resume_np`.
  `_signals_blocked` does not change during a run.
- Kernel contracts: a suspended thread takes no step until it is resumed, and one
  resumption undoes any number of suspensions; one that has ended is not suspended. A mutex
  semaphore has a holder and a nest count, an immediate request
  that fails returns 640, a close of a semaphore in use 301; what a request by the holder
  does is a parameter (`nesting`). An event created with flag 0x0800 releases one waiter per
  post and keeps one post if nobody waits. No scheduling fairness is assumed.
- Thread-specific data: keys are non-negative, and `specific_data_count` starts at 0,
  although the code never sets it.
- Signals: `NSIG` is 22, the size of the tables in `uthread_init.c`; `sig_descr` holds name,
  default action and function action in that order; `SET_BLOCKED` stores the mask less a
  set of signals that cannot be masked, which is a parameter (`unmaskable`). `EINTR` is 4 and
  `ETIMEDOUT` is 78. Signals that arrive during a pause are sent with kill.
- User code (handlers, destructors, cleanup routines, the calls of other threads) is given
  by scripts over which every result quantifies; a script is finite, of any length.
- A thread's new state at the end of `_thread_create2` (lines 111 and 114) counts as part of
  its registration.

## Model

| member | source | states |
|---|---|---|
| TsdAccounting.RunKeepsInv | src/pthread/uthread_spec.c:105-126 | in every reachable state, inside re-entrant destructors too, each created key counts 1 + its holders + its running destructors, and each thread its non-NULL slots |
| TsdAccounting.CountOfCreatedKey | src/pthread/uthread_spec.c:169-183 | the count of an existing key is 1 + live holders + destructors in flight + abandoned values, in every reachable state |
| TsdAccounting.NewKeyIsNullEverywhere | src/pthread/uthread_spec.c:52-58 | a number is never handed out while a thread holds a value under it or a destructor for it runs: it reads NULL in every thread |
| TsdAccounting.CreateFailsOnlyWhenFull | src/pthread/uthread_spec.c:52-59 | key creation returns EAGAIN if and only if every key is in use |
| TsdAccounting.DeleteWorksExactlyWhenUnused | src/pthread/uthread_spec.c:73-83 | an existing key is deleted exactly when nobody holds a value and no destructor for it runs; otherwise EBUSY and nothing changes, so always from its own destructor |
| TsdAccounting.OnlyDeleteFreesAKey | src/pthread/uthread_spec.c:109-115 | no step but key deletion takes the count of an existing key below 1 |
| TsdAccounting.AtMost1024Destructors | src/pthread/uthread_spec.c:105-126 | the sweep of one thread starts at most 4 * 256 destructors in any run, whatever they call |
| TsdAccounting.ValuesWereStored | src/pthread/uthread_spec.c:108-115 | every slot value, and every value given to a destructor, was stored earlier by that thread under that key |
| TsdAccounting.EarlyReturnMeansEmpty | src/pthread/uthread_spec.c:117-122 | a thread that takes the early return holds NULL in every slot |
| TsdAccounting.QuietSweepClearsInOnePass | src/pthread/uthread_spec.c:105-126 | if nothing is stored for the thread during its sweep, every slot passed once stays clear and nothing is abandoned |
| TsdAccounting.AbandonedKeyIsNeverDeleted | src/pthread/uthread_spec.c:73-83 | a value left after the last pass makes every later deletion of its key fail with EBUSY |
| TsdReads.ReadsWhatWasStored | src/pthread/uthread_spec.c:231-242 | over every run, a live thread reads under an existing key what it last stored there since the key was created, NULL if nothing, and NULL under any other key; told from the calls and their results alone |
| TsdReads.StoreThenRead | src/pthread/uthread_spec.c:175-195 | a store returns 0 if and only if the key exists, else EINVAL; the same thread then reads the value under that key, and no other read changes |
| TsdReads.SweepCallsTheKeysDestructor | src/pthread/uthread_spec.c:108-115 | the sweep calls a destructor if and only if the thread reads a value under the key and the key was created with one, which is given that value; the thread then reads NULL |
| TsdReads.DeletionAnswers | src/pthread/uthread_spec.c:62-91 | EINVAL exactly out of range, EBUSY exactly for an existing key in use, 0 otherwise; only deleting an existing key has an effect |
| TsdReads.SweepRunsExactlyAfterAStore | src/pthread/uthread_exit.c:88-91 | an exit makes the whole sweep if and only if the thread has ever called setspecific, even in vain |
| TsdSweep.IterationIsARun | src/pthread/uthread_spec.c:106-124 | one loop iteration with arbitrary calls made meanwhile is a run of the step machine |
| TsdSweep.SweepIsARun | src/pthread/uthread_spec.c:93-130 | the whole sequential sweep, for every script of destructor calls, is a run of the step machine |
| TsdProcess.AllocationIsInvisible | src/pthread/uthread_spec.c:132-143 | allocating the slot array on first use does not change what a store does or returns |
| TsdSweep.AbandonedExactlyWhenStoredLate | src/pthread/uthread_spec.c:105-126 | when a thread is gone, slot k holds a value if and only if the last store for it under k, after the sweep's last visit of k, stored one, and it is that value |
| TsdSweep.StubbornDestructorAbandons | src/pthread/uthread_spec.c:105-126 | a destructor that stores its value again every time leaves it in its slot after the four passes |
| TsdSweep.AbandonmentHappens | src/pthread/uthread_spec.c:105-126 | such a run exists from the start, for every value and destructor |
| TsdProcess.Process.KeyCreate | src/pthread/uthread_spec.c:47-60 | the search loop over the key array has exactly the effect and result of the specification |
| TsdProcess.Process.KeyDelete | src/pthread/uthread_spec.c:62-91 | the same for deletion, all four branches |
| TsdProcess.Process.FindRoot | src/pthread/uthread_spec.c:164-167 | the walk over parents ends at the thread the values belong to |
| TsdProcess.Process.SetSpecific | src/pthread/uthread_spec.c:145-198 | a store through a chain of handler threads, with allocation, has the specified effect on the root thread's slots, both counters and the result, and on nothing else |
| TsdProcess.Process.GetSpecific | src/pthread/uthread_spec.c:200-244 | a read returns what the specification gives for the root thread |
| TsdProcess.Process.SweepPass | src/pthread/uthread_spec.c:106-124 | one pass over the slots is the specified sequence of iterations |
| TsdProcess.Process.CleanupSpecific | src/pthread/uthread_spec.c:93-130 | the two nested loops with the early return do exactly the specified sweep, whatever the destructors call |
| SignalLaws.RunCallsAccounted | src/pthread/uthread_kill.c:72-109 | over every run of calls and re-entering handlers the pending set is exactly what was entered and not yet delivered or discarded |
| SignalLaws.EnteredSignalIsNotLost | src/pthread/uthread_init.c:121 | a signal that was entered and is no longer pending was delivered or discarded after that |
| SignalLaws.DeliverPendingSettles | src/pthread/uthread_init.c:154-165 | when delivery stops with the process alive nothing deliverable is left, whatever the handlers did |
| SignalLaws.DeliveryIsLowestFirst | src/pthread/uthread_init.c:154-165 | each scan delivers the lowest deliverable number and starts over; afterwards pending is a subset of blocked, so sigpending reports all of it |
| SignalLaws.SigactionMeetsStandardExactlyUnlessDefault | src/pthread/uthread_sigaction.c:56-61 | for a pending signal sigaction discards as section 3.3.1.3 requires if and only if the new action is not the default |
| SignalLaws.KilledSignalIsDeliveredExactlyOnDelivery | src/pthread/uthread_kill.c:72-109 | a signal sent and not ignored is entered; once the target has left the state it was in, all still pending is blocked if and only if leaving that state delivers (pause, a posted sleep, select, a read or write that returned EINTR, mutex and condition calls if not deferred) or nothing was deliverable |
| SignalLaws.SignalSentToAJoinerIsLeft | src/pthread/uthread_join.c:88-125 | an unblocked signal with a handler, sent to a thread in join, is still pending and unhandled when the join returns; a later checkpoint finds it |
| SignalLaws.SignalThatAbortsAReadIsForgotten | src/pthread/uthread_read.c:24-31 | a signal that aborts a read is neither delivered when the read fails nor, with nothing else counted, found by a later checkpoint |
| SignalLaws.SigsuspendSleepsExactlyWhenNothingArrives | src/pthread/uthread_sigsuspend.c:21-24 | with handlers that do not themselves wait, sigsuspend sleeps for good if and only if no signal arrives that posts its event, even on a signal its own mask has just unblocked |
| SignalLaws.RaisedSignalIsDealtWith | src/pthread/uthread_raise.c:23-31 | when raise returns, whatever is still pending is blocked |
| SignalLaws.PauseDeliversWhatArrived | src/pthread/uthread_pause.c:25-28 | when a pause returns, whatever arrived and is still pending is blocked |
| SignalTermination.HandlersRunAtMostOnce | src/pthread/uthread_init.c:107-165 | with SA_ACK and SA_SYSV handlers that raise anything, one delivery runs each handler at most once and uses fewer than NSIG script entries |
| SignalTermination.RearmingHandlerIsUnbounded | src/pthread/uthread_init.c:140-145 | a handler unblocked again on return that raises its own signal k times runs k + 1 times in one delivery, for every k |
| SignalTermination.DeliveryTerminatesExactlyWhenSafe | src/pthread/uthread_init.c:107-165 | the work of a delivery is bounded for all handlers if and only if no unblocked signal has such a handler |
| SignalTermination.InstallingKeepsSafe | src/pthread/uthread_signal.c:34-44 | handlers installed by pthread_signal keep delivery terminating, and replacing a dangerous handler by one removes the danger |
| SignalTermination.MaskAfterSigmask | src/pthread/uthread_sigmask.c:49-77 | signal by signal: after SIG_BLOCK the mask holds what was in the old one or the new set, after SIG_UNBLOCK what was in the old one and not in the set, after SIG_SETMASK the set, always less what cannot be masked and plus exactly the signals handled in the call; it covers what is still pending |
| SignalTermination.DeferredSigmaskIsFoundExactlyIfCounted | src/pthread/uthread_sigmask.c:49-77 | while deliveries are deferred only the mask changes, as above, and a later checkpoint delivers what was unblocked if and only if something else was counted |
| SignalTermination.SigmaskWithoutASet | src/pthread/uthread_sigmask.c:49-77 | without a new set the mask stays and what is pending is delivered, unless deferred; an unknown how does nothing |
| SignalEffects.DeliveryEndsTheProcessExactly | src/pthread/uthread_init.c:107-152 | by signal number: under SIG_DFL delivery ends the process for all but 16, 17 and 18; under SIG_IGN and SIG_ERR exactly for 6, 7, 9, 10 and 12; after a handler always for these, and for no other if the handler just returns |
| SignalEffects.PendingDeliveryEndsTheProcess | src/pthread/uthread_init.c:154-165 | the same for the delivery of all that is pending, at its lowest deliverable signal |
| SignalEffects.RunCallsSurvived | src/pthread/uthread_init.c:147-148 | over every run of calls and handlers: if the process survives, none of those five was delivered, whatever actions were set |
| SignalEffects.ValidSignals | src/pthread/uthread_init.c:13-15 | the valid signals by number |
| SignalEffects.ActionsAreSetExactly | src/pthread/uthread_sigaction.c:50-57 | sigaction installs the action for exactly the valid signals but 9, and otherwise does nothing |
| SignalEffects.AcknowledgesExactly | src/pthread/uthread_signal.c:21-33 | SIG_ACK does nothing for other numbers, and while deferred only unblocks the signal and counts |
| SignalEffects.MaskedSignalsWaitForTheHandler | src/pthread/uthread_init.c:140-145 | while a handler with sa_mask runs, no handler of a blocked or masked signal or of its own runs; the mask is restored |
| SignalEffects.InstalledHandlerStaysAndBlocks | src/pthread/uthread_signal.c:34-44 | a handler installed by pthread_signal stays installed after it has run, with its signal blocked until it is acknowledged |
| SignalEffects.CheckpointAfterKillSettlesExactly | src/pthread/uthread_kill.c:72-109 | the target's next checkpoint settles a signal sent by kill if and only if it was counted, as for all states but sleep, pause and an aborted file wait, or another one was, or nothing is deliverable |
| SignalEffects.RunningThreadSettlesAtItsCheckpoint | src/pthread/uthread_kill.c:98-100 | a signal sent to a running thread is settled at its next checkpoint |
| SignalEffects.DeferredSignalsAreFound | src/pthread/uthread_raise.c:23-31 | what is raised, sent by the system or unblocked by SIG_ACK while deliveries are deferred is settled by the first checkpoint afterwards |
| SignalTermination.MaskAfterAcknowledge | src/pthread/uthread_signal.c:26-32 | after signal(n, SIG_ACK) the mask is the old one without n plus exactly the signals handled in the call, and covers what is still pending |
| SignalTermination.SigsuspendRestoresMask | src/pthread/uthread_sigsuspend.c:21-24 | the entry mask comes back exactly, whatever the handlers did; what stays pending was blocked by the temporary mask or handled meanwhile |
| SignalEngine.ThreadSignals.constructor | src/pthread/uthread_init.c:194-202 | a new thread has nothing pending or blocked and default actions |
| SignalEngine.ThreadSignals.DeliverPending | src/pthread/uthread_init.c:154-165 | the loop on the fields, with handlers re-entering it, does what the specification says and terminates |
| SignalEngine.ThreadSignals.DeliverSignal | src/pthread/uthread_init.c:107-152 | delivery of one signal, all disposition and flag branches, ties to its specification |
| SignalEngine.ThreadSignals.RaiseSignal | src/pthread/uthread_raise.c:15-33 | the re-entrant raise ties to its specification and succeeds exactly for valid signals |
| SignalEngine.ThreadSignals.SetMask | src/pthread/uthread_sigmask.c:43-81 | mask change then delivery; the old mask is what it was on entry even if handlers change it |
| SignalEngine.ThreadSignals.SetAction | src/pthread/uthread_sigaction.c:45-69 | replaces the action, discards in its two cases, returns the action on entry or an error |
| SignalEngine.ThreadSignals.Install | src/pthread/uthread_signal.c:34-44 | installs with SA_ACK and returns the handler it replaced, or SIG_ERR |
| SignalEngine.ThreadSignals.AcknowledgeSignal | src/pthread/uthread_signal.c:21-33 | unblocks the signal and delivers, or counts it for later; returns the handler installed afterwards, or SIG_ERR |
| SignalEngine.ThreadSignals.KillThis | src/pthread/uthread_kill.c:72-109 | what kill does to the target's pending set and counter in each of its states |
| SignalEngine.Kill | src/pthread/uthread_kill.c:42-123 | EINVAL exactly for a number out of range, ESRCH exactly for a thread not listed; otherwise the effect on the target, or the hand-over to the process for thread 1 while it runs; then the sender's own checkpoint, also when it is the target |
| SignalEngine.ThreadSignals.Wait | src/pthread/uthread_pause.c:15-33 | the pause delivers what arrived if some arrival posted its event, and otherwise does not come back |
| SignalEngine.ThreadSignals.Suspend | src/pthread/uthread_sigsuspend.c:15-27 | swap, pause and, if the pause returns, restore |
| SignalEngine.ThreadSignals.PendingSet | src/pthread/uthread_sigpending.c:15-22 | what is pending is what it reports and what could be delivered, with nothing in both; so it reports all that is pending exactly when nothing is deliverable, as after every delivery |
| MutexLaws.RunKeepsInv | src/pthread/uthread_mutex.c:180-440 | any number of threads, any interleaving of micro-steps, either kernel: the invariant tying m_owner, m_count, the semaphore and every pc holds |
| MutexLaws.MutualExclusion | src/pthread/uthread_mutex.c:196-212 | m_owner names only the holder, a free semaphore has no owner, at most one thread is between lock and unlock, and nobody else can acquire then |
| MutexLaws.FastMutexNeverNests | src/pthread/uthread_mutex.c:280-302 | the fast mutex never nests the semaphore and is held at most once |
| MutexLaws.NonOwnerUnlockChangesNothing | src/pthread/uthread_mutex.c:373-410 | an unlock by a thread that does not own the mutex changes nothing and ends in an error, whatever others do meanwhile |
| MutexLaws.FailedRequestChangesNothing | src/pthread/uthread_mutex.c:290-336 | a failing kernel request makes the call return EINVAL, or -1 from a fast trylock, and changes nothing, in any interleaving |
| MutexLaws.DepthIsCountPlusOne | src/pthread/uthread_mutex.c:305-337 | if the kernel answers 640 the acquisition depth of the owner is m_count + 1 in every reachable state |
| MutexLaws.UnlockTakesOneOff | src/pthread/uthread_mutex.c:403-426 | an unlock by the owner takes off exactly one acquisition and the last one frees the semaphore |
| MutexLaws.NUnlocksFree | src/pthread/uthread_mutex.c:403-426 | n successful locks need exactly n unlocks: after fewer the semaphore is still held, after n it is free |
| MutexLaws.RelockLeaksForever | src/pthread/uthread_mutex.c:312-330 | once a nesting kernel has granted its holder another request, the semaphore stays with that thread in every continuation |
| MutexLaws.LockCanBeUndoneExactly | src/pthread/uthread_mutex.c:312-330 | a lock of a counting mutex that need not wait can be undone by unlocks if and only if the kernel does not nest or the caller does not own the mutex yet |
| MutexLaws.TwoLocksTwoUnlocksLeak | src/pthread/uthread_mutex.c:305-337 | two locks and two unlocks under a nesting kernel leave the semaphore held with no owner recorded |
| MutexLaws.SoloLockFast | src/pthread/uthread_mutex.c:280-302 | what a fast lock or trylock does when nobody interferes, blocking included |
| MutexLaws.SoloLockCounting | src/pthread/uthread_mutex.c:305-337 | the same for a counting mutex |
| MutexLaws.SoloUnlock | src/pthread/uthread_mutex.c:373-426 | the same for unlock |
| MutexRefinement.StepsAreAtomic | src/pthread/uthread_mutex.c:264-440 | while the kernel has not nested a request, every micro-step is invisible or is one atomic lock or unlock by the thread that takes it |
| MutexRefinement.DepthsAgreeAtRest | src/pthread/uthread_mutex.c:305-337 | while the kernel has not nested a request, outside its windows the balance of a thread's successful calls is its depth in the atomic mutex |
| MutexRefinement.SoloLockIsAtomic | src/pthread/uthread_mutex.c:180-356 | whatever others are in the middle of, a lone lock or trylock has the effect and result of the atomic call, or waits exactly when that may not go on, if and only if it is not a request that the kernel nests |
| MutexRefinement.SoloUnlockIsAtomic | src/pthread/uthread_mutex.c:358-440 | a lone unlock has the effect of the atomic call, and its result if and only if the mutex is not held by a thread that m_owner does not name yet, or no longer |
| MutexObject.Mutex.TryLock | src/pthread/uthread_mutex.c:180-262 | on the record itself: the shared fields and result after the call are those of the micro-steps run alone |
| MutexObject.Mutex.Lock | src/pthread/uthread_mutex.c:264-356 | the same, reporting when it would wait |
| MutexObject.Mutex.Unlock | src/pthread/uthread_mutex.c:358-440 | the same, with the errors for no owner and for a destroyed mutex |
| MutexObject.Mutex.Destroy | src/pthread/uthread_mutex.c:124-178 | the close loop ends, with the semaphore released and no owner, if and only if nobody else holds it or that thread lets go |
| CondLaws.RunKeepsInv | src/pthread/uthread_cond.c:180-217 | any interleaving of waits, timed waits, posts and mutex calls keeps counters, latch, blocked set and mutex ownership consistent |
| CondLaws.PostsAndWaitersAreAccounted | src/pthread/uthread_cond.c:317-320 | posts = wake-ups + latched post + absorbed posts, c_onwait is the number of threads inside a wait, and a latch and a blocked waiter never coexist |
| CondLaws.WaitAndTheMutex | src/pthread/uthread_cond.c:191-206 | a wait given a mutex returns 0 exactly when it has it again: as often as before, or once if it did not have it; ETIME and errors return without the acquisition given up (a counting mutex: with a kernel that does not nest its requests) |
| WaitLaws.WaitReturnsExactly | src/pthread/uthread_cond.c:197-206 | in every run the last wait of a thread returns 0 if and only if its wait for the event did not fail, else ETIME from timedwait and EINVAL from wait, with a mutex or without, blocked before or not |
| WaitLaws.WokenWaiterTakesTheMutexBack | src/pthread/uthread_cond.c:197-199 | a woken waiter does not return while another thread has the mutex, and returns 0 with it once it is free |
| WaitLaws.BlockedWaiterLeavesTheMutex | src/pthread/uthread_cond.c:191 | while a waiter that had the mutex once is blocked it does not own it, and another thread can lock it |
| CondLaws.SignalBeforeBlockingIsNotLost | src/pthread/uthread_cond.c:191-195 | a signal sent after the only waiter entered its wait and before it blocks is never lost, whatever else runs but new waits |
| CondLaws.PostAllEffect | src/pthread/uthread_cond.c:352-353 | n posts in a row wake that many blocked threads, then set the latch, then are absorbed |
| CondLaws.BroadcastWakesEverySleeper | src/pthread/uthread_cond.c:352-353 | a broadcast that is one atomic step leaves nobody blocked, and a latch exactly if one was set or a counted thread was not blocked |
| CondLaws.TwoApproachingCanStrand | src/pthread/uthread_cond.c:191-195 | of two threads on their way to the event one can block for want of a second latch |
| CondLaws.BroadcastServesAllExactlyWhenAtMostOneApproaches | src/pthread/uthread_cond.c:352-353 | no thread counted by an atomic broadcast can block afterwards if and only if at most one of them had not reached the event |
| BroadcastLaws.PostsReleaseAllUnlessAWaitBegins | src/pthread/uthread_cond.c:352-353 | in every run in which no wait begins, as many posts as c_onwait said at its start release everybody who was blocked then, whatever happens between the posts |
| BroadcastLaws.NewWaitsCanTakeEveryPost | src/pthread/uthread_cond.c:191-195 | otherwise any number of posts can be taken by new waits of one thread while everybody who was blocked stays blocked |
| BroadcastLaws.ShortBroadcastStrandsExactly | src/pthread/uthread_cond.c:352-353 | a broadcast that reads a wrong count leaves somebody blocked if and only if it makes fewer posts than there are sleepers |
| CountLaws.CountIsRightExactlyUnlessWritesCross | src/pthread/uthread_cond.c:180-217 | with the updates of c_onwait taken apart, it is the number of threads inside if and only if the writes that went over others cancel out |
| CountLaws.CountIsRightIfNoWaitExpires | src/pthread/uthread_cond.c:242-289 | among callers that have the mutex the count is right in every interleaving in which no wait times out or fails |
| CountLaws.ExpiredWaitLosesACount | src/pthread/uthread_cond.c:242-289 | one that does can leave the count 0 with a thread blocked |
| CondObject.CondVar.PostEvent | src/pthread/uthread_cond.c:319 | a post on the record releases one waiter, or latches, or is absorbed |
| CondObject.CondVar.Broadcast | src/pthread/uthread_cond.c:336-366 | the countdown loop makes c_onwait posts and leaves nobody blocked |
| CondObject.CondVar.Destroy | src/pthread/uthread_cond.c:120-166 | the close loop posts once for each blocked thread and ends |
| CondObject.CondVar.Wait | src/pthread/uthread_cond.c:168-299 | wait and timedwait, with their calls on the mutex record, do the micro-steps of the machine, return its result, and report when they stay blocked; the mutex record is at rest, and a counting one under a kernel that answers 640 |
| CondObject.CondVar.TimedWait | src/pthread/uthread_cond.c:229-299 | with no post latched, timedwait comes back with ETIME at once exactly when there is no deadline or its 32-bit timeout reads as past; the mutex record as in Wait |
| Deadline.TimeoutIsWithinOneMillisecond | src/pthread/uthread_cond.c:242-243 | under C division on unbounded integers the timeout is strictly less than a millisecond off the true gap either way |
| Deadline.TimeoutWrapsOnce | src/pthread/uthread_cond.c:242-243 | the 32-bit value is the unbounded one reduced once, whatever wraps on the way |
| Deadline.NoOverflowExactlyWhenItFits | src/pthread/uthread_cond.c:242-243 | before clamping the 32-bit value is the exact one if and only if that fits in 32 bits |
| Deadline.TimeoutIsExactExactlyWhen | src/pthread/uthread_cond.c:242-244 | the timeout used is the clamped exact one if and only if that fits, or lies in the past and reads as past after reduction too |
| Deadline.FarDeadlinesTimeOutAtOnce | src/pthread/uthread_cond.c:242-244 | every deadline from 2^31 to 2^32 milliseconds ahead gives a timeout of 0 |
| Deadline.LongPastDeadlinesWait | src/pthread/uthread_cond.c:242-244 | every deadline that passed from 2^31 to 2^32 milliseconds ago gives a positive timeout |
| Deadline.ExpiredDeadlineWaits | src/pthread/uthread_cond.c:242-244 | a deadline that passed 2147484 seconds ago waits 2147483296 milliseconds |
| Deadline.OvertakenExactlyBeyondRange | src/pthread/uthread_cond.c:240-245 | the timeout used of a deadline is shorter than that of some earlier one in range if and only if its exact value exceeds 2^31 - 1 and does not reduce to that; up to there the timeout is monotone |
| Deadline.LaterDeadlineWaitsShorter | src/pthread/uthread_cond.c:240-245 | 2147485 seconds ahead does not wait, 1000 seconds ahead does |
| Deadline.TimeoutFor | src/pthread/uthread_cond.c:235-245 | the timeout is in the range of a long; it is 0 exactly without a deadline or when the exact value reads as past, and otherwise equal to that modulo 2^32, so within a millisecond of the gap when it fits |
| SelectLaws.RunKeepsInv | src/pthread/uthread_select.c:87-106 | every interleaving of caller and helper keeps the invariant on event, done, result and who may free |
| SelectLaws.RecordIsNeverMisused | src/pthread/uthread_select.c:158-175 | the record is freed at most once and never touched after that |
| SelectLaws.FreedExactlyUnlessTheyCross | src/pthread/uthread_select.c:96-106 | when both are done it was freed exactly once if and only if the helper's last test of event did not fall between the caller's reading done = 0 and clearing event |
| SelectLaws.ServedCallerReportsThePoll | src/pthread/uthread_select.c:166-174 | a served caller reports the non-zero result of the helper's last poll, and its errno on failure |
| SelectLaws.CrossingLosesTheResult | src/pthread/uthread_select.c:160-164 | a record that is never freed is a result that is never reported |
| SelectLaws.CrossingHappens | src/pthread/uthread_select.c:96-106 | there is an interleaving that ends with the record not freed |
| SelectLaws.UnstartedRecordIsNeverFreed | src/pthread/uthread_select.c:152-154 | if the helper cannot be started the call returns -1 and the record is never freed |
| SelectLaws.DoneCallerClosesTheEvent | src/pthread/uthread_select.c:176 | however its call went, the caller's last step closes the event, in every run |
| SelectLaws.LatePostFollowsDelivery | src/pthread/uthread_select.c:101-102 | a post to a closed event belongs to a delivered result, whose caller was served or crossed with the helper; a helper that gives up never posts |
| SelectLaws.EveryPostCanBeLate | src/pthread/uthread_select.c:102-176 | from every reachable state before the post there is a run in which the caller closes the event first; the post is late exactly then |
| SelectLaws.HelperEnds | src/pthread/uthread_select.c:51-106 | a helper with a result, or whose caller gave up, has ended after eleven of its own steps in any run, whatever its polls return and the caller does in between |
| SelectLaws.BothFinish | src/pthread/uthread_select.c:158-175 | once the caller's wait is over, both are done in every run in which the caller takes two steps, the helper then eleven and the caller then seven, interleaved in any way with each other and anything else |
| SelectObject.SelectRecord.ThreadSelect | src/pthread/uthread_select.c:39-108 | the polling loop on the record is a run of the helper's steps that polls exactly the given answers, and ends with done = 3 |
| SelectObject.SelectRecord.FinishSelect | src/pthread/uthread_select.c:158-176 | the end of pthread_select on the record, with its loop on done while the helper goes on, is a run that ends in giving up, exactly when done was 0, or in reporting and freeing, and with the event closed |
| ThreadQueue.LinkedIsUnique | src/pthread/uthread_queue.c:52-119 | the links determine the list they stand for |
| ThreadQueue.LinkedIsAcyclic | src/pthread/uthread_queue.c:52-119 | a list that ends in NULL has no thread twice |
| ThreadQueue.Queue.Enqueue | src/pthread/uthread_queue.c:51-64 | appends exactly the thread; head, tail, links and back pointers stay right |
| ThreadQueue.Queue.Dequeue | src/pthread/uthread_queue.c:74-90 | takes exactly the first thread and clears its links, or returns NULL; q_last is the last thread or NULL |
| ThreadQueue.Queue.Remove | src/pthread/uthread_queue.c:92-119 | takes out exactly the named thread, returns 0 if and only if it was there, clears its links in any case |
| ThreadQueue.OtherQueueIsKept | src/pthread/uthread_queue.c:92-119 | a queue without the thread concerned is not disturbed by a call on another one |
| ThreadQueue.CutAt | src/pthread/uthread_queue.c:115-116 | clearing the link of the k-th thread ends the list there; the list is whole if and only if that was the last |
| ThreadQueue.RemoveFromWrongQueue | src/pthread/uthread_queue.c:115-116 | removal from a queue the thread is not in returns -1 and cuts the queue it is in, unless it is the last there |
| ThreadQueue.ListHead.LlistRemove | src/pthread/uthread_queue.c:121-137 | removes exactly the named thread through the pointer to a pointer and leaves its own link alone |
| ThreadQueue.FirstInFirstOut | src/pthread/uthread_queue.c:52-119 | over every run, those served and then those waiting are the enqueued threads in order of arrival, less one for each successful removal |
| ThreadQueue.Perform | src/pthread/uthread_queue.c:52-119 | a run of calls on the heap serves and keeps exactly what the plain sequence does |
| RegistryLaws.RunKeepsInv | src/pthread/uthread_exit.c:77-169 | the invariant on lists, states, parents and join results holds in every reachable state |
| RegistryLaws.EachThreadIsOnExactlyOneList | src/pthread/uthread_create.c:101-105 | every registered thread is on exactly one of the two lists, once, and the live list is in order of age |
| RegistryLaws.LeaveEffect | src/pthread/uthread_exit.c:99-169 | exit moves the calling thread from its place to the front of the dead list, keeps the order of the rest, and changes no other record but its parent's |
| RegistryLaws.SigThreadHasAHandler | src/pthread/uthread_exit.c:128-154 | a thread is in the state PS_SIGTHREAD only while one of its handler threads is listed (it may stay suspended, see LeaveStrandsExactly) |
| RegistryLaws.RetIsLastExit | src/pthread/uthread_exit.c:77-78 | the stored return value is that of the last pthread_exit the thread entered |
| RegistryLaws.JoinReturnsWhatWasStored | src/pthread/uthread_join.c:88-119 | every value a join ever returned is the one stored at exit, and the thread has left the live list |
| RegistryLaws.JoinOutcome | src/pthread/uthread_join.c:55-119 | ESRCH at once exactly for unregistered or detached threads, a value at once exactly for dead ones, otherwise a wait |
| JoinLaws.RecordsKeepTheirRegistration | src/pthread/uthread_create.c:58-71 | over every run a record has the parent and signal its thread was registered with, and is detached if and only if it was registered so or detached since |
| JoinLaws.WaitingJoinReturnsExactly | src/pthread/uthread_join.c:96-111 | in every reachable state a join that waited returns the value of the thread's last exit if the thread is not detached, ESRCH otherwise; its caller runs again |
| JoinLaws.WaitingJoinFailsExactlyIfDetachedMeanwhile | src/pthread/uthread_join.c:88-111 | over every run from the start of the wait to its end: ESRCH if and only if the thread was detached meanwhile |
| JoinLaws.UndetachedIsJoined | src/pthread/uthread_join.c:101-107 | no join that waited for a thread never detached returns ESRCH |
| JoinLaws.ExitComesToItsEnd | src/pthread/uthread_exit.c:99-177 | a thread in pthread_exit that is not suspended comes to its end in three steps, and holds nobody else up |
| JoinLaws.JoinerIsServedAfterTheEnd | src/pthread/uthread_join.c:93-111 | and then whoever waits for it can return, with its value or ESRCH |
| SuspendLaws.SuspendStopsExactlyTheRunning | src/pthread/uthread_suspend.c:56-66 | suspending a thread that could go on stops it if and only if its state was Running |
| SuspendLaws.SuspendThenResumeRestoresExactlyTheRunning | src/pthread/uthread_resume.c:56-68 | suspend and resume leave it as it was if and only if its state was Running |
| SuspendLaws.SuspendedThreadStaysStopped | src/pthread/uthread_suspend.c:56-66 | a running thread that was suspended takes no step in any run without a resume or a handler of it |
| SuspendLaws.CreatedSuspendedStaysStopped | src/pthread/uthread_create.c:111-113 | nor does a thread created suspended |
| RegistryLaws.RevivedStaysRevived | src/pthread/uthread_create.c:140 | a dead thread put into another state by a handler is never marked dead again |
| HandlerLaws.LeaveWakesExactly | src/pthread/uthread_exit.c:128-160 | in any reachable state a handler's exit resumes its parent and makes it Running if and only if it is the last one and the parent is neither Running nor Dead; otherwise both stay as they were, and in any case exactly its signal is unblocked |
| HandlerLaws.SigThreadStays | src/pthread/uthread_exit.c:128-154 | while a handler is listed no step but one that writes the parent's own state takes it out of PS_SIGTHREAD, in any run |
| HandlerLaws.HeldParentStays | src/pthread/uthread_create.c:140-141 | and once it is suspended in that state only `pthread_suspend_np` of it does |
| HandlerLaws.ParentGetsItsStateBackExactly | src/pthread/uthread_exit.c:149-154 | over every run from a handler's start to its exit in which nothing else writes the parent's state, the parent has back what it had before if and only if that was Running and the handler is the last one, or PS_SIGTHREAD and it is not |
| HandlerLaws.HeldRunningExactlyByHalt | src/pthread/uthread_create.c:140-141 | a thread comes to be suspended while its state is Running or Dead exactly by a handler's suspension after the state has changed again |
| HandlerLaws.LeaveStrandsExactly | src/pthread/uthread_exit.c:149-154 | the exit of a handler leaves its parent suspended with nobody to resume it if and only if it is the last one and the parent is suspended while its state is Running or Dead |
| HandlerLaws.StrandedStays | src/pthread/uthread_resume.c:52-69 | such a thread takes no step again and no join of it returns, in any run without a new handler or `pthread_suspend_np` for it, whatever `pthread_resume_np` is called for |
| HandlerLaws.CrossingStrands | src/pthread/uthread_create.c:140-141 | from every reachable state with a new handler, the only one of its parent, neither of them suspended, there is a run that strands the parent |
| HandlerLaws.StrandingHappens | src/pthread/uthread_create.c:140-141 | such a run exists from the start |
| RegistryObject.Threads.Begin | src/pthread/uthread_create.c:58-115 | fills the record and pushes it on the live list |
| RegistryObject.Threads.Announce | src/pthread/uthread_create.c:140 | sets the parent's state, dead or alive |
| RegistryObject.Threads.Halt | src/pthread/uthread_create.c:141 | suspends the parent, whatever its state is by then |
| RegistryObject.Threads.SuspendNp | src/pthread/uthread_suspend.c:52-74 | a listed thread becomes Suspended, and is suspended exactly if it was Running; -1 and no change if it is not listed |
| RegistryObject.Threads.ResumeNp | src/pthread/uthread_resume.c:52-75 | a listed thread is resumed exactly if its state is Suspended; 0 exactly if it was Suspended or Running |
| RegistryObject.Threads.Before | src/pthread/uthread_exit.c:100-114 | the search finds the thread before the caller in the list |
| RegistryObject.Threads.HandlerListed | src/pthread/uthread_exit.c:133-143 | the search finds a handler of the same parent if and only if one is listed |
| RegistryObject.Threads.Leave | src/pthread/uthread_exit.c:99-169 | the whole critical section on the linked records is the specified step: unlink, wake the parent, unblock the signal, push on the dead list |
| RegistryObject.Threads.Search | src/pthread/uthread_join.c:55-73 | a walk over a list finds the thread if and only if it is on it |
| RegistryObject.Threads.JoinBegin | src/pthread/uthread_join.c:55-119 | the two walks and the checks return what the specification says, or start the wait |
| RegistryObject.Threads.JoinEnd | src/pthread/uthread_join.c:96-113 | the end of the wait returns the stored value, or ESRCH if detached meanwhile |
| RegistryObject.Threads.Perform | src/pthread/uthread_exit.c:64-177 | every step of the specification that can be taken is what a method does to the heap, so runs of the heap are runs of the machine |
| Terminate.WaitingIsComplete | src/pthread/uthread_init.c:57-102 | a single pass leaves out no thread that waits |
| Terminate.OnePassInOrder | src/pthread/uthread_init.c:57-102 | a single pass releases in list order, each thread at most once |
| Terminate.AfterIsNotWaiting | src/pthread/uthread_init.c:60-98 | a released thread is in no state that would be released again, and only waiting threads change |
| Terminate.SweepSparesExactly | src/pthread/uthread_init.c:60-98 | by state: who is released and how, who is counted a signal, and that exactly threads that run, are dead, or wait for a condition or in join are left alone; the released are Dead if they can be killed and are not thread 1, else Running |
| Terminate.Sweep | src/pthread/uthread_init.c:57-102 | the loop that starts over after each release ends, and does what a single pass would; nobody reachable waits afterwards |
| Terminate.OnlyOlderAreReached | src/pthread/uthread_create.c:103-104 | from a live thread the links lead exactly to the live threads that are not newer |
| Terminate.NewerRegisteredAreNotReached | src/pthread/uthread_create.c:103-104 | in every state the registry can be in, no thread newer than a live one is reached from it |
| Terminate.TerminateFromLive | src/pthread/uthread_init.c:49-105 | with the initial thread alive, every older live thread that waits is released and no newer one is touched |
| Once.CalledOnceAndCompleteOnReturn | src/pthread/uthread_once.c:45-52 | with an initialised mutex the routine is called at most once in every interleaving, and no call returns before it has |
| Once.LaterCallsReturnAtOnce | src/pthread/uthread_once.c:45-52 | once the state is set, every later call returns after its first test |
| Once.OnceExactlyWithMutex | src/pthread/pthread.h:163 | the routine is called at most once in all interleavings if and only if the mutex is initialised |
| Once.OnceControl.Call | src/pthread/uthread_once.c:40-54 | a call on the control itself, alone, is a run of the steps and leaves the routine run exactly once |
| Cleanup.AboveRunsFirst | src/pthread/uthread_exit.c:80-82 | all that is above on the stack runs, with all it pushes, before anything below |
| Cleanup.EachRunsOnce | src/pthread/uthread_exit.c:80-82 | every handler runs, those pushed by handlers too, each as often as it was pushed |
| Cleanup.Thread.Push | src/pthread/uthread_clean.c:44-58 | the linked stack gets the handler on top |
| Cleanup.Thread.Pop | src/pthread/uthread_clean.c:60-74 | takes the top off, runs it only if asked, does nothing on an empty stack |
| Cleanup.Thread.RunAll | src/pthread/uthread_exit.c:80-82 | the loop of pthread_exit ends with the stack empty and has run all handlers in stack order |

## Left out

- SignalLaws.KilledSignalIsDeliveredExactlyOnDelivery: goes by the state kill saw; a waiting thread whose state `pthread_suspend_np` or a handler thread has overwritten leaves by the way of its real wait. A kill of thread 1 while it runs goes to the kernel and is left out.
- SignalTermination.HandlersRunAtMostOnce: handlers that change dispositions, unblock signals or are entered by the EMX handler are outside the claim; the EMX handler delivers without testing the blocked set (`uthread_sigaction.c` line 39).
- CondLaws.BroadcastWakesEverySleeper: takes the loop of posts as one atomic step; `PostsReleaseAllUnlessAWaitBegins` is about posts with other steps between them.
- CondObject.CondVar.Wait: the mutex record is one that nobody else is in the middle of a call on; a counting one needs a kernel that answers 640. The machine has the other interleavings.
- CondObject.CondVar.TimedWait: as `Wait`.
- SignalLaws.SigsuspendSleepsExactlyWhenNothingArrives: handlers that themselves wait are outside the claim.
- CountLaws.CountIsRightIfNoWaitExpires: callers that wait without a mutex or with different ones, and counting mutexes, are outside the claim.
- CondLaws.SignalBeforeBlockingIsNotLost: is about a sole waiter; a wait that begins later may take the post.
- Once.CalledOnceAndCompleteOnReturn: the routine does not call `pthread_once` on its own control, and nobody locks the control's mutex for another purpose.
- Once.OnceControl.Call: made while nobody else is inside; the interleaved calls are in the machine.
- A handler thread that stores a value for a parent whose sweep has ended: the parent's slots are freed memory then, and nothing is claimed.
- Null pointers, unknown mutex and condition types and failing `Dos` creation calls: single error returns, except where a result depends on them (`Once`).
- Signal checkpoints at the end of mutex, condition and select calls: they run the engine of `Signals` and touch nothing of these machines.
- In-place code that several threads run at once: the methods show one thread alone; the interleavings are proved on values, because a Dafny method cannot be interrupted.
- The descriptor sets, the polling and the special case of standard input in select, and `EINTR` when a signal ended its wait: unseen libraries; the helper may write the caller's sets after the caller has timed out, and nothing is claimed about them.
- Handler threads have no creator in this repository: `_thread_create` is only called without a parent, but its parent branch is modelled.
- The `errno` values of `pthread_suspend_np` and `pthread_resume_np`.
- Priorities, attributes, `pthread_yield`, timers, file locking, `dl_*.c`, read and write wrappers: single-branch code or I/O, no invariant of its own.
- Liveness and fairness of the kernel scheduler, memory allocation failure, weak memory order.
- The messages and priority change of `uthread_terminate`, and the exit of the process after its sweep.
- When the initial thread has exited, the terminate sweep walks the dead list from it; `Terminate.Sweep` covers that walk, `Terminate.TerminateFromLive` does not.
