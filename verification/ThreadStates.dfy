/** What a thread is doing, as other threads see it (enum pthread_state). */
module ThreadStates {
  datatype ThreadState =
    | Running | SigThread | MutexWait | CondWait | FdlrWait | FdlwWait | FdrWait | FdwWait
    | SelectWait | SleepWait | WaitWait | SigWait | Join | Suspended | Dead
}
