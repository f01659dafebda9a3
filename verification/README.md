# Verified models of a MapReduce engine and a user-level thread scheduler

Two systems of the repository, each built around mutable shared state, are modelled as state machines, and properties of
all their runs are proved.

**The MapReduce engine** (`ex3`). N threads claim inputs through an atomic counter, emit into private vectors, sort them
and meet at a barrier; then thread 0 groups the pairs by key while all threads already reduce the groups it hands out
through a locked queue, a semaphore and a flag.

- `Keys`, `Shuffle`, `ShuffleTheorems`: keys, the rounds of the shuffle as functions, and what their groups are worth.
- `ShuffleLoops`: the loops of the shuffle, erasing in place, proved against those functions.
- `Barrier`: the counting barrier, over any number of rounds.
- `Protocol`: the engine as a transition system with one program counter per thread. Every operation on shared data is a
  step of its own: the fetch-and-add, each emission, the barrier's arrival, wait and return, each push, each post, the
  write and the read of the flag, `sem_wait`, the locked pop. A run is any order in which threads take their steps.
- `ProtocolInvariant`, `Progress`: the invariant, safety of all runs, no deadlock, termination.
- `EndToEnd`: the output against a sequential program that maps every input, groups by key and reduces each group once.
- `Law`: every way to share out the inputs occurs in some run, and hence, for every client and every outer sort, exactly
  when all runs end with the output of the sequential program.
- `AddressOrder`: what that means for the outer sort as written, which compares addresses.
- `Framework`: the shared data as a class, one method for each atomic step, and a scheduler that picks threads freely.
- `Sorts`: sorts that meet the requirements on the two calls of `std::sort`, so the theorems are not about nothing, and a
  program that breaks the law.

Pointers are integers (addresses). `K2::operator<` is an arbitrary strict weak order on them. The client's `map` and
`reduce` are functions to finite sequences of emissions; the two calls of `std::sort` are functions that permute.

**The thread library** (`ex2`). `Uthreads` describes each library call and the timer tick on values, with an explicit
status for undefined behaviour (a null or out-of-range entry of the thread table, or an empty deque). `UthreadsInvariant`
couples the ready list, the block flags, the waiting lists, the free ids and the quantum counters; `UthreadsRuns` proves
what holds over whole runs; `UthreadsEffects` what each call and the timer promise, in terms of the threads, the ready
list and the running thread alone, and what follows for runs; `UthreadsLibrary` is the library as classes over a table
of thread objects, and `UthreadsProgram` executes any sequence of calls on it. A call is atomic with respect to the timer,
which is what the signal mask is there for.

## Where the code differs from its documentation

- `vectorComp` compares addresses, not keys, so one key can be handed to several calls of `reduce`, while the client
  interface promises all values of a key at once. `Law.LawIff` gives the exact condition, for every client, on what its
  map emits and the number of threads; `AddressOrder.AddressOrderIff` puts it more simply for a map that emits at most one pair for
  each input, and `Sorts.SampleJobBreaksLaw` is a program that fails.
- `Barrier::barrier` waits under an `if`. A wakeup without a signal, which POSIX.1-2017 allows for `pthread_cond_wait`,
  lets a thread leave early (`Barrier.SpuriousWakeupLeavesEarly`); all else is proved for runs without one, and
  `Barrier.SafeForeverIff` shows that nothing else is needed. The engine's transition system has no such wakeups.
- `uthread_terminate` promises to remove the victim from all control structures, but leaves a victim that itself waits in
  the list of the thread it waits for. `UthreadsRuns.StaleWaiterIsUsed` and `UthreadsRuns.ReusedIdIsReadyTwice` give runs,
  and `UthreadsInvariant.KeptIff` the exact condition.
- `is_used` and `is_valid` return the opposite of what their comments say. The two cancel out for ids inside the table
  and let ids outside it through (`UthreadsRuns.RejectsIff`).

## Model

| member | source | states |
|---|---|---|
| `ShuffleTheorems.GroupsPartition` | ex3/MapReduceFramework.cpp:97-147 | for any outer order: the groups are non-empty, carry one key each, and together are exactly the input pairs |
| `ShuffleTheorems.SplitBound` | ex3/MapReduceFramework.cpp:106-147 | for any outer order: no key is spread over more groups than there were vectors holding it, hence not over more than N |
| `ShuffleTheorems.RunStaysTogether` | ex3/MapReduceFramework.cpp:121-142 | for any outer order: all pairs a vector holds of one key land in a single group |
| `ShuffleTheorems.OneGroupPerKeyIff` | ex3/MapReduceFramework.cpp:118-124 | the groups have pairwise inequivalent keys if and only if in no round a vector behind the early break still holds the current key |
| `ShuffleTheorems.KeyOrderAscends` | ex3/MapReduceFramework.cpp:106-147 | with the heads in key order the break loses nothing and the groups come in strictly ascending key order |
| `ShuffleTheorems.KeyOrderCompletes` | ex3/MapReduceFramework.cpp:106-147 | with the heads in key order each group holds exactly the pairs of its key from all vectors |
| `ShuffleLoops.SortedRun` | ex3/MapReduceFramework.cpp:125-136 | on a key-sorted vector the erased pairs are one contiguous run, everything before is below and everything after above the key, and the rest stays sorted |
| `ShuffleLoops.EraseRun` | ex3/MapReduceFramework.cpp:125-136 | the innermost loop ends and moves exactly the pairs of the key, in order, leaving the others in order |
| `ShuffleLoops.Round` | ex3/MapReduceFramework.cpp:118-142 | the two inner loops end and compute the group and the remaining non-empty vectors of the round |
| `ShuffleLoops.ShuffleContext.ShufflePhase` | ex3/MapReduceFramework.cpp:97-153 | alone, the phase ends, appends all groups in order, posts once for each group and once for each thread, sets the flag and empties the vectors |
| `Barrier.Barrier.Enter` | ex3/Barrier.cpp:32-43 | the count goes up or, on the last arrival, back to 0, and the caller learns which |
| `Barrier.InvKeptIff` | ex3/Barrier.cpp:26-48 | a step keeps the barrier's invariant if and only if it is not a wakeup without a signal |
| `Barrier.SafeForeverIff` | ex3/Barrier.cpp:32-33 | after a step no continuation without such wakeups ever has an early leave if and only if the step itself is not one |
| `Barrier.InvMeans` | ex3/Barrier.cpp:26-48 | nobody has left a round that somebody has not reached, rounds differ by at most one, the waiting threads are those that have arrived in the open round and their number is the count |
| `Barrier.RoundsAreSafe` | ex3/Barrier.cpp:26-48 | the same for every run of any number of threads and rounds: no early leave, rounds within one, the waiting threads are the arrivals of the open round and are as many as the count |
| `Barrier.SpuriousWakeupLeavesEarly` | ex3/Barrier.cpp:32-33 | in every reachable state, waking any waiter without a signal lets it leave before all have arrived |
| `Barrier.SomeoneCanMove` | ex3/Barrier.cpp:26-48 | the barrier never blocks all threads |
| `ProtocolInvariant.StepKeepsInv` | ex3/MapReduceFramework.cpp:207-232 | every step of every thread keeps the engine's invariant and stays inside its vectors |
| `ProtocolInvariant.OpeningIsMapped` | ex3/MapReduceFramework.cpp:72-93 | when the barrier opens every input has been claimed by one thread, and each vector is the sort of the emissions of its thread's inputs, in the order of the claims |
| `ProtocolInvariant.MappedMeans` | ex3/MapReduceFramework.cpp:72-93 | then each vector is key-sorted and holds exactly the emissions of its thread's inputs |
| `ProtocolInvariant.EmptyQueueMeansDone` | ex3/MapReduceFramework.cpp:160-168 | whenever the locked section finds the queue empty, the flag is already set |
| `Progress.RunsAreSafe` | ex3/MapReduceFramework.cpp:143-174 | in every run no thread reduces a null group, tokens are conserved, posts trail pushes by at most one, and each pushed group is in the queue or popped once |
| `Progress.QueueStaysEmpty` | ex3/MapReduceFramework.cpp:156-174 | once a thread has found the queue empty it stays empty and nothing is pushed in any continuation |
| `Progress.ShuffleOwnsVectors` | ex3/MapReduceFramework.cpp:89-104 | once thread 0 is past the barrier all are, and nobody else changes the intermediate vectors |
| `Progress.DeadlockFree` | ex3/MapReduceFramework.cpp:155-176 | a reachable state in which no thread can step is one in which all have returned |
| `Progress.FinalState` | ex3/MapReduceFramework.cpp:149-176 | when all have returned the semaphore is 0, each thread holds exactly one of the N final tokens, every group has been pushed, popped and reduced once |
| `Progress.StepLowers` | ex3/MapReduceFramework.cpp:207-232 | every step lowers a lexicographic rank, so every run is finite |
| `Progress.EveryRunReturns` | ex3/MapReduceFramework.cpp:207-232 | under every schedule that only names threads able to step, all threads return |
| `EndToEnd.MapCoverage` | ex3/MapReduceFramework.cpp:72-86 | at the barrier the private vectors together hold exactly the emissions of all inputs |
| `EndToEnd.FinishedRun` | ex3/MapReduceFramework.cpp:207-232 | for the code as written: the output of any finished run is one reduce per group of a single-key partition of all emissions, no key in more than N groups |
| `EndToEnd.GroupsGiveSequential` | ex3/MapReduceClient.h:63-67 | reducing any one-group-per-key partition gives the output of the sequential program |
| `EndToEnd.SequentialIff` | ex3/MapReduceFramework.cpp:106-147 | the groups give the sequential output for every order-insensitive reduce if and only if the early break never skips a vector with the current key |
| `EndToEnd.FinishedRunIff` | ex3/MapReduceFramework.cpp:97-176 | the same condition is exact for what a finished run has reduced |
| `EndToEnd.KeyOrderedRunIsSequential` | ex3/MapReduceFramework.cpp:72-176 | for every N and every interleaving: with heads sorted by key the output equals that of the sequential program as a multiset, with groups in ascending key order |
| `EndToEnd.EveryRunIsSequential` | ex3/MapReduceFramework.cpp:235-277 | with the heads sorted by key, as intended, every run ends, and with the sequential output |
| `Law.EveryShareOccurs` | ex3/MapReduceFramework.cpp:76-85 | every way of sharing out the inputs among the threads is that of some finished run |
| `Law.LawIff` | ex3/MapReduceFramework.cpp:72-176 | for every client, number of threads and outer sort: all runs and all order-insensitive reduces give the output of the sequential program if and only if no way of sharing out the inputs gives vectors of which the early break loses a pair |
| `AddressOrder.UntangledNeverSkips` | ex3/MapReduceFramework.cpp:117-124 | for the outer sort as written the early break loses nothing, however the pairs are spread over vectors, unless they are tangled: a pair whose key occurs twice, behind it in memory one with a higher key, behind that one whose key is not higher |
| `AddressOrder.TwoNeverSkip` | ex3/MapReduceFramework.cpp:118-124 | with at most two vectors the early break loses nothing, whatever the outer sort |
| `AddressOrder.TrapSkips` | ex3/MapReduceFramework.cpp:29-31 | three vectors that hold tangled pairs apart lose a pair to the early break in some round, whatever else they hold |
| `AddressOrder.AddressOrderedRunIsSequential` | ex3/MapReduceFramework.cpp:72-176 | for the code as written: every finished run has the output of the sequential program if there are at most two threads or the emitted pairs are untangled |
| `AddressOrder.AddressOrderIff` | ex3/MapReduceFramework.cpp:29-31 | if map emits at most one pair for each input that condition is exact: otherwise some run and some order-insensitive reduce give another output |
| `AddressOrder.SampleBreaksLaw` | ex3/MapReduceFramework.cpp:29-31 | with any sort by address, three threads and three inputs suffice for a run with another output |
| `Sorts.SampleJobBreaksLaw` | ex3/MapReduceFramework.cpp:29-31 | a complete program, with its client and its sorts, for which the code as written does not always give the sequential output |
| `Framework.Framework.constructor` | ex3/MapReduceFramework.cpp:238-262 | the shared data start in the initial state of the transition system |
| `Framework.Framework.ShuffleRound` | ex3/MapReduceFramework.cpp:106-142 | the loops of one round compute the round step, or the outer loop ends |
| `Framework.Framework.TakeStep` | ex3/MapReduceFramework.cpp:49-176 | each atomic operation of a thread, done on the shared data and the barrier object by a method of its own, is the step of the transition system |
| `Framework.Framework.RunToEnd` | ex3/MapReduceFramework.cpp:207-232 | with steps given to threads in any order the program ends, with all threads returned |
| `Framework.RunMapReduceFramework` | ex3/MapReduceFramework.cpp:235-290 | whatever the scheduler does, the call ends with the output described by the end-to-end theorems |
| `UthreadsInvariant.KeptIff` | ex2/uthreads.cpp:175-455 | from a sound state a call or tick leads to a sound one if and only if it neither terminates a thread that waits for another nor names an id outside the table; the process ends exactly on terminating the main thread |
| `UthreadsInvariant.DispatchKeeps` | ex2/uthreads.cpp:200-211 | every switch finds a live runnable thread at the front of the deque, runs it and counts one quantum |
| `UthreadsInvariant.TerminateIs` | ex2/uthreads.cpp:346-363 | terminating drops the victim from the ready list and appends exactly its waiters that are not directly blocked, in list order; if it was running the front runs next |
| `UthreadsInvariant.ReleaseIs` | ex2/uthreads.cpp:352-355 | the release loop clears the flag of every waiter and appends those not directly blocked, in order |
| `UthreadsInvariant.TerminatedWaiterDangles` | ex2/uthreads.cpp:336-366 | terminating a waiting thread always breaks the coupling of flags and waiting lists |
| `UthreadsInvariant.StartWaitingKeeps` | ex2/uthreads.cpp:450-451 | sync keeps the coupling: a thread waits exactly if it occurs once, in one live thread's list |
| `UthreadsRuns.RunsAreSound` | ex2/uthreads.cpp:175-455 | a run without faulty calls never pops an empty deque or uses a null entry, and keeps the whole invariant |
| `UthreadsRuns.ThreadsArePartitioned` | ex2/uthreads.cpp:175-455 | in every run each live thread is exactly one of running, ready (once in the list) and blocked, and the list holds live threads only |
| `UthreadsRuns.RunsAgainAfterTermination` | ex2/uthreads.cpp:442-455 | after a successful sync the caller runs again only if the thread it named has been terminated |
| `UthreadsRuns.BlockedUntilResumed` | ex2/uthreads.cpp:379-432 | a directly blocked thread does not run before it is resumed |
| `UthreadsRuns.BothReleasesNeeded` | ex2/uthreads.cpp:352-428 | a thread that waits and is blocked in between runs again only after both releases |
| `UthreadsRuns.TerminationReleases` | ex2/uthreads.cpp:352-355 | termination makes a waiter ready if and only if it is not directly blocked |
| `UthreadsRuns.ResumeReleases` | ex2/uthreads.cpp:423-428 | resume makes a blocked thread ready if and only if it does not wait |
| `UthreadsRuns.ReadyOnTermination` | ex2/uthreads.cpp:352-355 | a thread that waits, was blocked and has been resumed is not ready, whatever happens, until the termination, which makes it ready |
| `UthreadsRuns.ReadyOnResume` | ex2/uthreads.cpp:423-428 | a blocked thread released by the termination is not ready, whatever happens, until the resume, which makes it ready |
| `UthreadsRuns.WaitersStayInOrderInRuns` | ex2/uthreads.cpp:451 | in every run the list of threads that wait for a live thread only grows at its end |
| `UthreadsRuns.FirstComeFirstReleased` | ex2/uthreads.cpp:352-355 | of two threads that wait for the same one and are not blocked otherwise, the earlier is ahead in the ready list after its termination |
| `UthreadsRuns.BoundedWaiting` | ex2/uthreads.cpp:196-207 | a thread at index k of the ready list runs within k + 1 switches unless it is blocked or terminated |
| `UthreadsRuns.ReadyStep` | ex2/uthreads.cpp:196-207 | no event moves a ready thread back, and each switch moves it one place forward or runs it |
| `UthreadsRuns.ReadyIsShort` | ex2/uthreads.h:9 | the ready list never holds more than 99 threads, so the bound is 99 switches |
| `UthreadsRuns.SpawnTakesLeastId` | ex2/uthreads.cpp:96-106 | spawn returns the least id without a thread and fails if and only if 100 threads are alive |
| `UthreadsRuns.QuantumsConserved` | ex2/uthreads.cpp:209-211 | in every run the total is the sum of the quantums of all live and terminated threads |
| `UthreadsRuns.QuantumsAreTurns` | ex2/uthreads.h:103-110 | in every run the quantums of a live thread grow by exactly the number of switches that have run it |
| `UthreadsRuns.RejectsIff` | ex2/uthreads.cpp:114-122 | the id check agrees with the existence of a thread exactly for ids inside the table |
| `UthreadsRuns.StaleWaiterIsUsed` | ex2/uthreads.cpp:352-355 | a run that ends in the use of a null thread entry |
| `UthreadsRuns.ReusedIdIsReadyTwice` | ex2/uthreads.cpp:352-355 | a run that puts a thread into the ready list twice |
| `UthreadsEffects.TickEffect` | ex2/uthreads.cpp:196-211 | the preempted thread goes to the end of the ready list, the front of which runs for one quantum more; no flag and no waiting list changes |
| `UthreadsEffects.SpawnEffect` | ex2/uthreads.cpp:290-322 | a new thread is not blocked, nobody waits for it and it is last in the ready list; nothing else changes, and nothing at all on failure |
| `UthreadsEffects.BlockEffect` | ex2/uthreads.cpp:379-399 | the thread is blocked, neither ready nor running, all others are undisturbed in their order, and another one runs exactly if it was running |
| `UthreadsEffects.ResumeEffect` | ex2/uthreads.cpp:408-432 | a blocked thread loses the block and is last in the ready list unless it waits as well; resuming any other thread has no effect |
| `UthreadsEffects.SyncEffect` | ex2/uthreads.cpp:442-455 | the caller waits, last in the list of the thread it names, and is not blocked in any other way; nobody else is touched and the next ready thread runs |
| `UthreadsEffects.TerminateEffect` | ex2/uthreads.cpp:336-366 | the victim leaves the table and the ready list and frees its id; exactly its waiters stop waiting, and those not blocked directly join the ready list, first come, first; another thread runs exactly if it was running |
| `UthreadsEffects.CodeIff` | ex2/uthreads.h:37-82 | for ids in the table a call succeeds exactly if a thread with the id exists and the documented exceptions do not apply |
| `UthreadsEffects.FailureHasNoEffect` | ex2/uthreads.cpp:338-341 | a call that returns -1 leaves everything as it was |
| `UthreadsEffects.OutsideTable` | ex2/uthreads.cpp:114-122 | an id outside the table passes the check, and its table entry is used |
| `UthreadsEffects.NewQuantum` | ex2/uthreads.cpp:175-211 | a new quantum starts exactly at a tick and when the running thread blocks itself, waits or terminates itself |
| `UthreadsEffects.TotalCounts` | ex2/uthreads.h:92-100 | the total is 1 after init and grows by one with each scheduling decision of the run |
| `UthreadsEffects.BlockedByCall` | ex2/uthreads.cpp:379-399 | after a successful block the thread does not run before it is resumed |
| `UthreadsEffects.ResumeEndsBlock` | ex2/uthreads.cpp:379-432 | a runnable thread that is blocked and later resumed is ready then and not before |
| `UthreadsEffects.TerminationEndsSync` | ex2/uthreads.cpp:352-455 | the caller of sync is ready when the thread it named is terminated and not before, unless somebody blocks it in between |
| `UthreadsEffects.SpawnedRuns` | ex2/uthreads.cpp:317-318 | a new thread runs within as many switches as there were ready threads, and one more |
| `UthreadsEffects.RoundRobin` | ex2/uthreads.cpp:196-211 | after as many ticks as there are runnable threads each of them has had one quantum and all are in their old places |
| `UthreadsLibrary.UniqueId.constructor` | ex2/uthreads.cpp:88-93 | all ids but 0 are free |
| `UthreadsLibrary.UniqueId.GenerateId` | ex2/uthreads.cpp:96-106 | takes the least free id or reports -1 |
| `UthreadsLibrary.UniqueId.RemoveId` | ex2/uthreads.cpp:109-111 | frees an id |
| `UthreadsLibrary.Library.constructor` | ex2/uthreads.cpp:259-273 | a successful init leaves the main thread running in its first quantum |
| `UthreadsLibrary.Library.SwitchThreads` | ex2/uthreads.cpp:195-211 | the old thread is put back, deleted or left, and the front of the deque runs |
| `UthreadsLibrary.Library.Spawn` | ex2/uthreads.cpp:290-322 | the table, the free ids and the ready list change as the state machine says |
| `UthreadsLibrary.Library.ReleaseWaiters` | ex2/uthreads.cpp:352-355 | the loop in place does what the release function says, and stops at a null entry |
| `UthreadsLibrary.Library.Terminate` | ex2/uthreads.cpp:336-366 | the table, the ids, the lists and the result change as the state machine says |
| `UthreadsLibrary.Library.Block` | ex2/uthreads.cpp:379-399 | the same for block |
| `UthreadsLibrary.Library.Resume` | ex2/uthreads.cpp:408-432 | the same for resume |
| `UthreadsLibrary.Library.Sync` | ex2/uthreads.cpp:442-455 | the same for sync |
| `UthreadsProgram.Play` | ex2/uthreads.cpp:175-455 | any sequence of calls and ticks on the library's objects leads to the state of the run and returns its codes; without faulty calls the whole invariant holds |

## Left out

- Signal masks, timers, handlers, `sigsetjmp` and `siglongjmp`, mangled addresses and stacks: a context switch is the
  change of the running thread, and a call is one step.
- `uthread_init` with a non-positive quantum, and the accessors `uthread_get_tid`, `uthread_get_total_quantums` and
  `uthread_get_quantums`: they only read fields.
- What happens after undefined behaviour, and after the main thread is terminated: the run stops there.
- Error returns of the pthread and semaphore calls, and the `exit(1)` paths.
- Memory deallocation, and the wrap-around of the `unsigned long` input counter.
- Fewer than one thread: the engine's arrays would have negative length.
- The insides of `std::sort` and `std::remove_if`: the sorts are functions that permute, with the order their comparison
  gives; erasing the empty vectors is one step of thread 0.
- Interleavings inside a locked section or between a lock and its unlock: a locked section is one step.
- ShuffleLoops.ShuffleContext.ShufflePhase: states the effect without other threads; the interleaved effect is that of
  the steps of `Protocol`.
- AddressOrder.AddressOrderIff: covers maps that emit at most one pair for each input; `Law.LawIff` is the condition for
  all maps.
- `ex4` (sockets and a name registry) and `ex5` (an unfinished page table).
