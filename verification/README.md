# Models of Fuchsia's promise, file descriptor and I/O libraries

This project models the components of these libraries whose correctness is a matter of protocol, and
proves what they promise for every input, every run and every interleaving.

| file | models |
|---|---|
| Scheduler.dfy | the run queue and the reference-counted tickets of `fpromise::subtle::scheduler` |
| Executor.dfy | the single-threaded executor as a protocol: mutex-guarded blocks, notify, wake-up, shutdown |
| SuspendedTask.dfy | `suspended_task` handles and the programs that use them |
| Scope.dfy | `fpromise::scope`: an intrusive list of promises, down to its pointers |
| CleanPath.dfy | the path normaliser, its meaning, and the two path joins that rely on it |
| RouteCache.dfy | the least-recently-used route cache of datagram sockets |
| FileLock.dfy | the reader/writer lock with its waiting maps and completers |
| FdTable.dfy | descriptor slots over reference-counted objects |
| FdCalls.dfy | the calls on descriptors by many threads at once, and their serial order |
| Spawn.dfy | the two passes of process spawning over its actions |
| GetVmo.dfy | copying a file into a VMO through mapped windows |
| Timer.dfy | timerfd arithmetic |
| Iovec.dfy | copying to and from the buffers of a vector |
| Debuglog.dfy | the debug log's line buffer |
| Arithmetic.dfy, Wrappers.dfy | division by variables and counting; options |

`dafny verify dfyconfig.toml` verifies all of it.

## How to read it

Each module has three layers. Functions on values say what an operation does. Lemmas state what the
design promises about them: invariants over all runs, conservation, order independence, round trips,
or agreement with an independent definition. Classes and methods are the code, with its fields, loops
and early returns; their contracts tie the new state to those functions.

Concurrent components are state machines. A block under a mutex is one step; what a thread does after
it left the mutex is a step of its own. `Enabled` says which steps some thread could take and holds the
rules that the code imposes on its callers through assertions; `Reachable` are the states of all runs.

Calls into other parts of the system are parameters: a value or a function that gives the answer to
each call. Every statement is for all answers.

## What turned out not to hold

- A notify of the executor can reach a deleted dispatcher, because notify_one is called after the mutex
  is released. `Executor.SpuriousWakeLeavesNotify` reaches such a state through a spurious wake-up, and
  `Executor.ShutdownSafeIff` gives the exact condition.
- A full route cache gives up an entry even when it only refreshes one: `RouteCache.RefreshShrinksFullCache`
  is a run of calls that leaves 511 entries, and `RouteCache.RefreshLosesIff` gives the exact condition.
- Destroying a file lock does not complete every waiting request and return. Both loops of the destructor
  go over the readers, whose completers are one-shot, so with a reader waiting the process aborts
  (`FileLock.DestroyAbortsOnReader`), and a waiting writer is never told (`FileLock.DestroyMissesWriter`).
  `FileLock.DestroyCompletesOnceIff` and `FileLock.DestroyAbortsIff` give the exact conditions.
- Two closes of the last two descriptors of an object can both return success without its status
  (`FdCalls.CloseStatusLost`, `FdCalls.CanLoseStatus`); `FdCalls.CloseReportsIff` gives the exact condition.
- The join law of cleaned paths fails exactly for an empty first part (`CleanPath.CleanJoinIff`).
- timerfd_gettime reports a negative time for a repeating timer that is disarmed or behind
  (`Timer.RemainingNotNegative`, `Timer.DisarmedShowsNegative`).
- fdio/include/lib/fdio/spawn.h:139-141 says that cloned namespace entries come before those of actions.
  The code sends them after; the model follows the code. `Spawn.DocumentedOrderFails` is a call where that
  decides what the new process sees; `Spawn.DocumentedOrderIff` and `Spawn.DocumentedWinnerIff` are exact.

## Model

| member | source | states |
|---|---|---|
| Scheduler.SuspendedIffHolder | fit-promise/scheduler.cc:110-116 | the counter of suspended tasks is positive exactly if some record holds a task, so every assertion on the counter holds |
| Scheduler.ObtainValid | fit-promise/scheduler.cc:23-27 | a new ticket is unused and keeps the table valid; only its own references change |
| Scheduler.DuplicateValid | fit-promise/scheduler.cc:52-59 | duplicating keeps the table valid and adds one reference to that ticket only |
| Scheduler.FinalizeValid | fit-promise/scheduler.cc:29-50 | finalizing keeps the table valid (a record that holds a task was never resumed, the counter counts the holders) and takes one reference of that ticket only |
| Scheduler.ReleaseValid | fit-promise/scheduler.cc:61-77 | the same for release |
| Scheduler.ResumeValid | fit-promise/scheduler.cc:79-99 | the same for resume |
| Scheduler.TakeAllValid | fit-promise/scheduler.cc:106-119 | taking all tasks keeps the tickets and their references |
| Scheduler.FinalizeCount | fit-promise/scheduler.cc:29-50 | a task passed in ends up in the scheduler or back with the caller, once; every other task stays where it was in number |
| Scheduler.ReleaseCount | fit-promise/scheduler.cc:61-77 | a task leaves the scheduler exactly if it is handed back |
| Scheduler.ResumeCount | fit-promise/scheduler.cc:79-99 | resuming neither loses nor doubles a task |
| Scheduler.TakeAllCount | fit-promise/scheduler.cc:106-119 | what is taken is every runnable and every parked task as often as it was there, and nothing stays |
| Scheduler.TakeAllOrder | fit-promise/scheduler.cc:106-119 | what is taken is the queue in its order and then the parked tasks, each at the place of its ticket; a record loses its task and keeps the rest |
| Scheduler.SummaryOfBag | fit-promise/scheduler.cc:23-99 | references, resumption and finalization after a run of ticket operations depend on the multiset of the operations alone |
| Scheduler.SuspensionOutcome | fit-promise/scheduler.cc:23-99 | for every interleaving of copies, resumes and releases with one finalize, the whole scheduler and the tasks handed back are those of the summary |
| Scheduler.SuspensionResolvesOnce | fit-promise/scheduler.cc:23-99 | an unfinished task is enqueued exactly once if any handle resumed it, handed back exactly once if all were dropped, and otherwise still parked; the ticket is gone exactly with its last reference |
| Scheduler.SuspensionOrderIndependent | fit-promise/scheduler.cc:23-99 | two legal orders of the same operations leave equal schedulers and hand back the same tasks |
| Scheduler.TaskScheduler.constructor | fit-promise/include/lib/fpromise/scheduler.h:144-147 | the scheduler starts empty, with tickets from one on |
| Scheduler.TaskScheduler.ScheduleTask | fit-promise/scheduler.cc:18-21 | appends to the run queue and changes nothing else |
| Scheduler.TaskScheduler.ObtainTicket | fit-promise/scheduler.cc:23-27 | refines Obtain and keeps the table valid |
| Scheduler.TaskScheduler.FinalizeTicket | fit-promise/scheduler.cc:29-50 | refines Finalize, including what is left with the caller, and keeps the table valid |
| Scheduler.TaskScheduler.DuplicateTicket | fit-promise/scheduler.cc:52-59 | refines Duplicate and keeps the table valid |
| Scheduler.TaskScheduler.ReleaseTicket | fit-promise/scheduler.cc:61-77 | refines Release; the counter assertion holds |
| Scheduler.TaskScheduler.ResumeTaskWithTicket | fit-promise/scheduler.cc:79-99 | refines Resume; the result is true exactly if a task was enqueued |
| Scheduler.TaskScheduler.TakeRunnableTasks | fit-promise/scheduler.cc:101-104 | hands over the queue in order and empties it |
| Scheduler.TaskScheduler.TakeAllTasks | fit-promise/scheduler.cc:106-119 | the loop over the table collects the queue and then the parked tasks in ticket order, and leaves every record without task |
| Executor.StepKeeps | fit-promise/single_threaded_executor.cc:82-222 | every mutex-guarded block, notify and wake-up keeps the invariant: references are live handles plus the current task, a sleeper is owed a notify or has nothing to do, the dispatcher is deleted at most once |
| Executor.ReachableInv | fit-promise/single_threaded_executor.cc:82-222 | the invariant holds in every state of every run |
| Executor.ReachableStep | fit-promise/single_threaded_executor.cc:82-222 | whatever step some thread takes next continues the run: no assertion of the code can fail |
| Executor.NoLostWakeup | fit-promise/single_threaded_executor.cc:106-119 | a sleeping thread that no notify is on its way to has nothing runnable, and some live handle belongs to a parked task; the wake flag is only set while the thread waits |
| Executor.ResumeWakesSleeper | fit-promise/single_threaded_executor.cc:191-222 | resuming such a handle queues its task and sends exactly one notify |
| Executor.DropDoesNotResume | fit-promise/single_threaded_executor.cc:191-201 | dropping a handle leaves the queue as it is and touches no other ticket; the parked task is destroyed exactly if this was the last handle, and otherwise stays parked |
| Executor.ResumeQueues | fit-promise/single_threaded_executor.cc:191-201 | resuming a handle queues the parked task behind the others, destroys none and leaves nothing parked under the ticket |
| Executor.NotifiesExactly | fit-promise/single_threaded_executor.cc:106-119 | a notify is sent exactly by a schedule or resolve that finds the wake flag set and leaves something to run or nothing to wait for, and then the flag is cleared |
| Executor.FlagsTellHistory | fit-promise/single_threaded_executor.cc:82-222 | over all runs: shut down exactly after a shutdown; a ticket counts as resumed exactly if some handle of it was resumed |
| Executor.ReturnedTask | fit-promise/single_threaded_executor.cc:169-182 | over all runs, what becomes of a task that returns: destroyed if finished, never suspended, or left without handles and never resumed; queued again if some handle was resumed meanwhile; parked otherwise |
| Executor.RunReturnsWhenDone | fit-promise/single_threaded_executor.cc:121-167 | run returns exactly when nothing is runnable and no record holds a task |
| Executor.RunCanReturn | fit-promise/single_threaded_executor.cc:121-167 | from every reachable state before shutdown some continuation, without spurious wake-ups, dropped handles or new tasks, ends with run() having come back |
| Executor.DispatcherLifetime | fit-promise/single_threaded_executor.cc:82-104 | the dispatcher is deleted at most once, exactly after shutdown and the last handle, with all that its destructor asserts, and afterwards only a notify in flight can reach it |
| Executor.ShutdownSafeIff | fit-promise/single_threaded_executor.cc:90-119 | after shutdown no run can touch the deleted dispatcher if and only if no thread is between the mutex and notify_one at that time |
| Executor.NoSpuriousWakeNoUse | fit-promise/single_threaded_executor.cc:151-167 | in runs without spurious wake-ups of the condition variable the deleted dispatcher is never touched |
| Executor.SpuriousWakeLeavesNotify | fit-promise/single_threaded_executor.cc:151-167 | a reachable state, after one spurious wake-up, in which run has returned while a notify is in flight, so the condition of ShutdownSafeIff can fail |
| Executor.StepQueues | fit-promise/single_threaded_executor.cc:121-134 | only taking the queue shortens it, and only a return shortens the batch |
| Executor.TaskHistory | fit-promise/single_threaded_executor.cc:121-182 | in every run, tasks executed, then the batch, then the queue are the history of enqueues; and every task that was scheduled is queued, in the batch, parked or destroyed, once each |
| Executor.Dispatcher.ScheduleTask | fit-promise/single_threaded_executor.cc:106-119 | refines the guarded block; notifies exactly if the wake flag was set |
| Executor.Dispatcher.SuspendCurrentTask | fit-promise/single_threaded_executor.cc:139-148 | refines the guarded block: two references for the first handle of a run, one for the others |
| Executor.Dispatcher.WaitForRunnableTasks | fit-promise/single_threaded_executor.cc:151-167 | one turn of the wait loop: tasks, all done, or sleep with the flag set |
| Executor.Dispatcher.FinalizeCurrentTask | fit-promise/single_threaded_executor.cc:169-182 | refines the guarded block and clears the current ticket |
| Executor.Dispatcher.DuplicateTicket | fit-promise/single_threaded_executor.cc:184-189 | refines the guarded block: one reference more and the same ticket |
| Executor.Dispatcher.ResolveOne | fit-promise/single_threaded_executor.cc:191-222 | refines the guarded block, and says whether to notify, to delete or to return |
| Executor.Dispatcher.ShutDown | fit-promise/single_threaded_executor.cc:90-104 | refines the guarded block, and says whether to delete |
| SuspendedTask.OpRuns | fit-promise/promise.cc:9-56 | copy, move, assignment, swap, resume, reset and destruction, undisturbed, make only calls that the executor allows, each on a live ticket, also when both handles share a ticket |
| SuspendedTask.OpBacked | fit-promise/promise.cc:9-56 | afterwards the executor counts for every ticket exactly the handles that hold it |
| SuspendedTask.OnlyResumeQueues | fit-promise/promise.cc:9-56 | of all handle operations only resume_task changes the queue: it adds the task parked under its ticket |
| SuspendedTask.MicroKeeps | fit-promise/promise.cc:9-56 | every single call and every single change of a handle, in any interleaving with everything else, keeps the executor's counts equal to the handles and the tickets that are on their way between them |
| SuspendedTask.OpSplits | fit-promise/promise.cc:9-56 | each handle operation is a sequence of such single steps, with its calls in the order of the code, and leads to the result of the operation |
| SuspendedTask.ProgramKeeps | fit-promise/promise.cc:9-56 | the same over every program, where other threads may act between any two calls of an operation |
| SuspendedTask.HappensSnoc | fit-promise/promise.cc:9-56 | whatever single step can be taken after a program continues it, so nothing is assumed about the states in between |
| SuspendedTask.HandlesAreReferences | fit-promise/promise.cc:9-56 | for every program, the reference count of a ticket is the number of handles holding it, plus the copies on their way, plus one while its task runs; after shutdown the dispatcher is gone exactly when no handle holds a ticket and none is on its way |
| SuspendedTask.SuspendedTask.CopyOf | fit-promise/promise.cc:9-11 | the copy holds the same ticket and makes one duplicate call, none for an empty handle |
| SuspendedTask.SuspendedTask.MovedFrom | fit-promise/promise.cc:13-16 | the ticket moves, the source is empty and no call is made |
| SuspendedTask.SuspendedTask.ResolveNow | fit-promise/promise.cc:20-29 | an empty handle does nothing; otherwise one resolve call is made and the handle is empty |
| SuspendedTask.SuspendedTask.AssignCopy | fit-promise/promise.cc:31-38 | self-assignment does nothing; otherwise the old ticket is released before the new one is duplicated, on the resolvers of the two handles, be they equal or not |
| SuspendedTask.SuspendedTask.AssignMove | fit-promise/promise.cc:40-48 | self-assignment does nothing; otherwise the old ticket is released and the other one moves |
| SuspendedTask.SuspendedTask.SwapWith | fit-promise/promise.cc:50-56 | the handles exchange resolver and ticket without a call |
| Scope.PushFrontLinks | fit-promise/scope.cc:72-79 | linking a new holder in front keeps a well-formed doubly linked list, pointer by pointer |
| Scope.UnlinkLinks | fit-promise/scope.cc:101-109 | unlinking takes out exactly that holder and leaves a well-formed list, wherever it was |
| Scope.StepKeeps | fit-promise/scope.cc:15-141 | every step of every thread keeps the list, memory and count invariants and follows no dangling pointer |
| Scope.HoldersAreListed | fit-promise/scope.cc:26-125 | in every run the holders reachable from the head form a doubly linked list of exactly the promises with a live handle until the scope is exited, and none after |
| Scope.NoDanglingPointer | fit-promise/scope.cc:26-141 | no step that some thread can take follows a pointer to a deleted holder, and a running promise exists |
| Scope.PromiseDestroyedOnce | fit-promise/scope.cc:54-125 | a promise is destroyed at most once, exactly when its holder is gone, and not while its handle could still run it |
| Scope.FlagsTellHistory | fit-promise/scope.cc:26-63 | over all runs: destroyed exactly after a destroying exit, exited exactly after any exit, and the live handles are those of promises adopted before the exit and not dropped |
| Scope.StateLifetime | fit-promise/scope.cc:15-20 | over all runs the state is deleted at most once, exactly after a destroying exit and the last handle, with all that its destructor asserts, and cannot be reached afterwards |
| Scope.ExitDestroysAll | fit-promise/scope.cc:26-63 | after the exit and its deletions every promise ever adopted was destroyed exactly once, whether or not its handle is still there |
| Scope.AcquiresUntilExit | fit-promise/scope.cc:127-137 | in every run a promise can be run exactly until the exit |
| Scope.CleanedUp | fit-promise/scope.cc:54-62 | once the scope is destroyed, handles are dropped and deletions are done, every promise ever adopted was destroyed exactly once and so was the state |
| Scope.CleanupTerminates | fit-promise/scope.cc:54-62 | the deletions reach that point from every such state |
| Scope.ScopeState.AdoptPromise | fit-promise/scope.cc:65-86 | refines the step of the protocol: before the exit the holder is linked in front and counted; after it the promise is aborted and the handle is null |
| Scope.ScopeState.DropPromise | fit-promise/scope.cc:88-125 | refines the step of the protocol: a null handle does nothing; before the exit exactly that holder is unlinked and deleted; after it only the count drops, and the last handle of a destroyed scope deletes the state |
| Scope.ScopeState.TryAcquirePromise | fit-promise/scope.cc:127-137 | acquires exactly before the exit and counts it; otherwise the counter is as before |
| Scope.ScopeState.ReleasePromise | fit-promise/scope.cc:139-141 | takes the count back |
| Scope.ScopeState.ExitScope | fit-promise/scope.cc:26-63 | refines the step of the protocol; the loop deletes exactly the taken chain of holders, and the result says whether to delete the state |
| CleanPath.CleanInto | fdio/cleanpath.cc:21-102 | the index-juggling loops compute the stack-of-names specification; success exactly for paths shorter than PATH_MAX; the buffer never outgrows PATH_MAX-1; is_dir exactly if the last raw segment is empty, a dot or a dotdot |
| CleanPath.ReadOne | fdio/cleanpath.cc:41-94 | one turn of the loop: the rest of the path folded onto the stack that the buffer stands for is still the result |
| CleanPath.PopOrKeep | fdio/cleanpath.cc:55-79 | a dotdot removes the last name from the buffer, vanishes at the root or is appended, as on the stack |
| CleanPath.CopyName | fdio/cleanpath.cc:87-92 | copies exactly up to the end of the name, and gives up exactly if the name ends at PATH_MAX or later |
| CleanPath.AppendName | fdio/cleanpath.cc:80-93 | a name is appended with a separator exactly if the buffer has one already; gives up exactly if the name ends at PATH_MAX or later |
| CleanPath.StackOfClean | fdio/cleanpath.cc:41-99 | cleaning keeps the stack of names and whether the path is rooted |
| CleanPath.CleanIdempotent | fdio/cleanpath.cc:21-102 | cleaning twice is cleaning once |
| CleanPath.CleanPreservesWalk | fdio/cleanpath.cc:41-99 | from every directory, walking the cleaned path ends where walking the path ends |
| CleanPath.CleanIsNormalForm | fdio/cleanpath.cc:41-99 | two paths have the same cleaned form if and only if they mean the same from every directory |
| CleanPath.CleanShortens | fdio/cleanpath.cc:21-102 | the cleaned path is no longer than the path, except that the empty path becomes a dot |
| CleanPath.NamesDirIff | fdio/cleanpath.cc:41-100 | is_dir is set exactly for the empty path, a dot, a dotdot, and paths that end in a slash, in a slash and a dot, or in a slash and a dotdot |
| CleanPath.CleanJoin | fdio/unistd.cc:1451-1463 | for a nonempty a, cleaning a/b is cleaning the join of the cleaned a with b |
| CleanPath.CleanJoinIff | fdio/unistd.cc:1451-1463 | the join law holds exactly for a nonempty first part |
| CleanPath.WalkJoined | fdio/unistd.cc:1451-1463 | walking a/b is walking a and then b |
| CleanPath.ResolvePath | fdio/unistd.cc:1443-1464 | success exactly if the joined path fits; the result is clean and means the relative path walked from the working directory |
| CleanPath.RealPathOf | fdio/unistd.cc:1189-1228 | which error is returned when; otherwise the absolute path is cleaned, and its stat decides, except under an unreachable working directory |
| CleanPath.ResolveTwice | fdio/unistd.cc:1443-1464 | resolving b against the resolved a is resolving a/b, and fits whenever that does |
| RouteCache.MoveToFrontKeeps | zxio/dgram_cache.cc:181-187 | moving an entry to the front keeps list, map and iterators consistent and makes its key the first, in front of the others in their order |
| RouteCache.EvictsLeastRecentlyUsed | zxio/dgram_cache.cc:312-319 | the key that a full cache gives up was used before every key it keeps |
| RouteCache.RecentByLastUse | zxio/dgram_cache.cc:176-187 | the reference order: a list of exactly the used keys, by last use |
| RouteCache.StoreKeeps | zxio/dgram_cache.cc:311-337 | storing a reply keeps the invariant: no key twice, list and map have the same keys, every iterator is at its own node, at most 512 entries, ordered by last use, entries are the latest replies |
| RouteCache.StoreSize | zxio/dgram_cache.cc:311-337 | the exact size after a store |
| RouteCache.RefreshLosesIff | zxio/dgram_cache.cc:311-337 | storing a reply for a key that is in the cache loses an entry exactly if the cache is full and the key is not the least recently used one |
| RouteCache.RefreshShrinksFullCache | zxio/dgram_cache.cc:311-337 | 512 calls from an empty cache after which one more call, for a key that it holds, leaves 511 entries |
| RouteCache.TurnKeeps | zxio/dgram_cache.cc:202-342 | every turn of the loop keeps the invariant, whatever kernel and server answer |
| RouteCache.TurnReturnsIff | zxio/dgram_cache.cc:202-342 | what a turn returns, exactly: a raised error signal, a failed wait, a bad reply or a size that the cache may serve; an error leaves the cache as it was |
| RouteCache.GetReturnsAt | zxio/dgram_cache.cc:190-343 | the first turn that decides, after any number that did not, makes the call return its size or its error; an error leaves the cache as it was then |
| RouteCache.GetReturnedAt | zxio/dgram_cache.cc:190-343 | whenever the call returns it is because of such a turn |
| RouteCache.TurnConnects | zxio/dgram_cache.cc:258-342 | only a complete answer to a call without address changes the connected peer, to the address it names |
| RouteCache.CacheIsMostRecentlyUsed | zxio/dgram_cache.cc:190-343 | after any calls the cache holds the n most recently used keys in that order, n at most 512, each with its own node and the latest reply received for it; both assertions of the code hold |
| RouteCache.SizeIsFresh | zxio/dgram_cache.cc:190-343 | after any calls, every size that the next one returns is that of the latest reply for the looked-up key among all replies ever received, and in that turn no error was signalled and none of that reply's tokens was closed |
| RouteCache.PreflightThenHit | zxio/dgram_cache.cc:258-342 | after a successful preflight the next quiet turn returns its size, also for a connected socket |
| RouteCache.QuietAsksOnce | zxio/dgram_cache.cc:190-343 | in quiet surroundings a call returns within two turns and asks the server at most once |
| RouteCache.Routes.LruAddToFront | zxio/dgram_cache.cc:176-179 | refines AddToFront |
| RouteCache.Routes.LruMoveToFront | zxio/dgram_cache.cc:181-187 | refines MoveToFront, which erases through the iterator unless it is at the front |
| RouteCache.Routes.MakeRoom | zxio/dgram_cache.cc:311-319 | refines Evict and keeps the invariant; the erased key was there |
| RouteCache.Routes.StoreReply | zxio/dgram_cache.cc:311-337 | refines Store and keeps the invariant |
| RouteCache.Routes.UseEntry | zxio/dgram_cache.cc:247-256 | a hit returns the entry's size and makes it the most recently used |
| RouteCache.Routes.Ask | zxio/dgram_cache.cc:258-342 | which replies are errors, and that the others are stored under the right address |
| RouteCache.Routes.TakeTurn | zxio/dgram_cache.cc:202-342 | one turn of the loop refines OneTurn |
| RouteCache.Routes.Get | zxio/dgram_cache.cc:190-343 | the loop refines the fold of the turns and keeps the invariant |
| FileLock.LockValid | file-lock/file-lock.cc:22-143 | every request keeps the invariant: nobody is in two of the four roles, a writer excludes readers, readers wait only for a writer, and waiters only for a holder |
| FileLock.CompatibleGranted | file-lock/file-lock.cc:30-142 | a request that no other client's lock stands against is granted, everybody it lets in is completed with ZX_OK and its own completer is run last |
| FileLock.IncompatibleWaits | file-lock/file-lock.cc:77-123 | any other request is stored or told to wait; the client loses the lock it had, nobody else's changes |
| FileLock.LockRuns | file-lock/file-lock.cc:22-143 | each completer is run as often as it stops being stored or was just passed in |
| FileLock.LockSafety | file-lock/file-lock.cc:22-143 | over every sequence of requests the invariant holds, and a completer has been run exactly as often as it was submitted and is no longer stored |
| FileLock.HolderUnlocks | file-lock/file-lock.cc:53-75 | an unlock by a holder lowers holders plus waiters by exactly one and completes everybody it wakes with ZX_OK |
| FileLock.UnlockLeaves | file-lock/file-lock.cc:124-140 | after an unlock that is not refused the client holds nothing and waits for nothing |
| FileLock.WriterUnlockAdmits | file-lock/file-lock.cc:53-75 | who gets the lock when a writer unlocks: all waiting readers, told in the order of their ids, if they outnumber the writers; otherwise the least waiting writer; and with nobody waiting the lock is free |
| FileLock.ReaderUnlockAdmits | file-lock/file-lock.cc:124-140 | the last reader lets the least waiting writer in, the others just leave |
| FileLock.DowngradeAdmits | file-lock/file-lock.cc:30-47 | a writer that asks to read lets exactly the waiting readers in, told in the order of their ids |
| FileLock.GrantMovesNobody | file-lock/file-lock.cc:22-143 | every other granted request only gives the client what it asked for |
| FileLock.WaitingRefused | file-lock/file-lock.cc:25-28 | a client that waits is refused and nothing changes |
| FileLock.DrainGrantsEverybody | file-lock/file-lock.cc:53-75 | as many unlocks by holders as there are holders and waiters empty the lock, and by then every waiting request was granted once |
| FileLock.DrainExists | file-lock/file-lock.cc:160-163 | such a run exists from every state |
| FileLock.DestroyCompletesOnceIff | file-lock/file-lock.cc:11-20 | over every run of requests: the destructor returns with every completer run as often as submitted if and only if nobody waits, and the completers alone are right if and only if no writer waits |
| FileLock.DestroyAbortsIff | file-lock/file-lock.cc:11-20 | over every run of requests, the second loop ends the process exactly if a reader waits; by then every waiting reader was cancelled once, and nobody else |
| FileLock.DestroyedIs | fit/include/lib/fit/function.h:463-472 | completers are one-shot: the first loop runs and empties every waiting reader's, and the second one meets an empty one |
| FileLock.DestroyBalance | file-lock/file-lock.cc:11-20 | however the destructor ends, each completer has been run as often as it was submitted, except that those of waiting writers never are |
| FileLock.DestroyAbortsOnReader | file-lock/file-lock.cc:14-19 | two requests with a reader waiting: it is cancelled once and then the process ends |
| FileLock.DestroyMissesWriter | file-lock/file-lock.cc:14-19 | two requests with a writer waiting: the destructor returns and its completer is never run |
| FileLock.LockTable.LockFile | file-lock/file-lock.cc:22-143 | refines Lock, including the order in which completers are run, and keeps the invariant |
| FileLock.LockTable.LockAsWriter | file-lock/file-lock.cc:30-76 | the branches of the exclusive owner refine the specification |
| FileLock.LockTable.LockBehindWriter | file-lock/file-lock.cc:77-101 | the branches of others under a writer refine the specification |
| FileLock.LockTable.LockAmongReaders | file-lock/file-lock.cc:102-142 | the branches without a writer refine the specification |
| FileLock.LockTable.Forget | file-lock/file-lock.cc:145-158 | true exactly if the lock is there and the client was not waiting; then it has no part in the lock, and otherwise nothing changed |
| FileLock.LockTable.Destroy | file-lock/file-lock.cc:11-20 | the two loops over one-shot completers refine Destroyed |
| FdTable.StepKeeps | fdio/fdio_slot.cc:9-66 | every slot operation and every change of a reference keeps the invariant: counts are holders, nothing leads to a dead object, each object is closed once |
| FdTable.ReachableInv | fdio/fdio_slot.cc:9-66 | the invariant holds in every state of every run, in any interleaving of threads |
| FdTable.ObjectLifetime | fdio/internal.h:184-208 | in every run: a held object has as many references as slots and outside references hold it and was not closed; an object that nobody holds is being closed by its one owner; one that is gone was closed exactly once |
| FdTable.ClosedStaysClosed | fdio/internal.h:239-242 | once closed, an object is never held or closed again, whatever follows |
| FdTable.ReservationsDisplaceNothing | fdio/fdio_slot.cc:27-66 | setting, reserving, filling and releasing a reservation never take an object out of a slot |
| FdTable.LowestFrom | fdio/fdio_unistd.cc:16-23 | the lowest available descriptor from a start on, or none (section 2.14 of POSIX.1-2017 System Interfaces) |
| FdTable.CloseClosesLast | fdio/unistd.cc:176-187 | close empties the slot, and closes the object and returns its answer exactly if no other slot or reference held it; nothing else changes; EBADF without effect if the descriptor leads nowhere |
| FdTable.DupThenClose | fdio/unistd.cc:781-792 | closing the duplicate undoes a dup |
| FdTable.Dup2Self | fdio/unistd.cc:763-778 | dup2 onto the same descriptor changes nothing |
| FdTable.DupLaw | fdio/unistd.cc:781-839 | each error of dup and F_DUPFD exactly when; otherwise exactly the lowest available descriptor from the start on leads to the same object, and counts and closes are those of the holders |
| FdTable.Dup2Law | fdio/unistd.cc:763-778 | dup2: exactly the target leads to the object, what it led to has one holder fewer and is closed without one; EBADF exactly when |
| FdTable.BindLaw | fdio/fdio.cc:65-89 | the reference is consumed in every case; EINVAL and EMFILE exactly when; a given descriptor leads to the object, and without one the lowest available from the start on does |
| FdTable.UnbindLaw | fdio/fdio.cc:92-104 | a sole holder is handed out; a shared object loses the descriptor and the others keep it |
| FdTable.TransferLaw | fdio/fd.cc:49-73 | the descriptor is lost in every case; a sole holder is unwrapped, a shared object cloned or refused |
| FdTable.UnbindThenBind | fdio/fdio.cc:65-104 | handing out a sole holder and binding it back restores the table |
| FdTable.Dup2BreaksReservation | fdio/unistd.cc:763-778 | after dup2 onto a reserved slot, filling and releasing the reservation change nothing |
| FdTable.TakeLastSteps | fdio/null.cc:81-86 | asking for the last reference and closing through it ends in the same state as dropping the reference |
| FdTable.DropSteps | fdio/internal.h:239-242 | dropping the last reference closes and deletes the object, dropping another one only counts down |
| FdTable.Table.SlotGet | fdio/fdio_slot.cc:9-15 | takes a new reference to the object in the slot, if any |
| FdTable.Table.SlotRelease | fdio/fdio_slot.cc:17-25 | the slot's reference moves out and the slot is available |
| FdTable.Table.SlotTrySet | fdio/fdio_slot.cc:27-33 | succeeds exactly on an available slot |
| FdTable.Table.SlotReplace | fdio/fdio_slot.cc:35-42 | installs the object and moves the reference of the previous one out, if any |
| FdTable.Table.SlotTryReserve | fdio/fdio_slot.cc:44-50 | succeeds exactly on an available slot |
| FdTable.Table.SlotTryFill | fdio/fdio_slot.cc:52-58 | succeeds exactly on a reserved slot |
| FdTable.Table.SlotReleaseReservation | fdio/fdio_slot.cc:62-66 | frees a reserved slot and no other |
| FdTable.Table.Bind | fdio/fdio_unistd.cc:16-23 | the search loop takes the lowest available slot, or none |
| FdTable.Table.FdToIo | fdio/fdio_unistd.cc:41-47 | a new reference exactly if the descriptor is in range and holds an object |
| FdTable.Table.Unbind | fdio/fdio_unistd.cc:54-60 | the slot's reference exactly if the descriptor is in range and holds an object |
| FdTable.Table.TryTakeLast | fdio/null.cc:81-86 | ownership exactly with a count of one |
| FdTable.Table.DropReference | fdio/internal.h:239-242 | one holder fewer; without the last one the object is closed once and gone |
| FdTable.Table.Duplicate | fdio/unistd.cc:781-839 | dup and F_DUPFD: the new descriptor leads to the same object, EINVAL, EBADF and EMFILE exactly when the source says |
| FdTable.Table.DuplicateTo | fdio/unistd.cc:763-778 | dup2: the target leads to the object, what it led to before has one holder fewer |
| FdTable.Table.CloseDescriptor | fdio/unistd.cc:176-187 | close: the slot is empty, its object has one holder fewer, and the result is the object's only for the last holder |
| FdTable.Table.BindAt | fdio/fdio.cc:65-89 | the reference is consumed in every case; errors and the chosen slot as the source says |
| FdTable.Table.UnbindSole | fdio/fdio.cc:92-104 | only the sole holder is handed out; otherwise the descriptor is lost all the same |
| FdTable.Table.TransferFrom | fdio/fd.cc:49-73 | the descriptor is gone in every case, whatever the backend answers; unwrapped exactly if it was the sole holder |
| FdTable.Table.AllocatedCount | fdio/fdio.cc:121-130 | the number of slots that are reserved or hold an object |
| FdCalls.HappenSteps | fdio/fdio_slot.cc:9-66 | a call is split at every change of a slot and of a reference count; each piece is one step of the table |
| FdCalls.EventKeeps | fdio/unistd.cc:176-187 | whatever some thread does next keeps the invariant: every reference and every object to close belongs to one call, a slot read under the lock still holds what was read, and the serial order of the calls explains the table |
| FdCalls.NothingDangles | fdio/internal.h:184-208 | in every interleaving of calls, no call uses a reference or closes an object that is gone |
| FdCalls.Linearizable | fdio/unistd.cc:763-792 | in every interleaving of open, close, dup, dup2, transfer and clone there is an order in which the calls, one at a time, leave the same table and have the same results |
| FdCalls.OneEffect | fdio/fdio_unistd.cc:16-60 | each call has its effect in one step; every other step, the drops included, leaves what the table amounts to as it is |
| FdCalls.OpenLaw | fdio/fdio_unistd.cc:16-23 | a new object is under exactly the lowest available descriptor, or closed if there is none |
| FdCalls.OrderRespectsTime | fdio/fdio_unistd.cc:16-60 | a call that returned before another one started comes before it in that order |
| FdCalls.QuietIsSerial | fdio/internal.h:239-242 | once all calls returned, counts, slots and closes are exactly those of the calls one at a time, and no reference is left |
| FdCalls.AllCanReturn | fdio/fdio_unistd.cc:16-60 | from every state all calls can come back without a new one: no deadlock on the lock |
| FdCalls.TakenTwice | fdio/unistd.cc:176-187 | two calls both get the object of one descriptor only if the descriptor was bound again in between |
| FdCalls.ExactlyOneTakes | fdio/unistd.cc:176-187 | of several closes and transfers of a bound descriptor, in any interleaving, exactly one gets its object |
| FdCalls.CloseReportsIff | fdio/unistd.cc:181-186 | a close reports what the object's own close says exactly if it is the only holder left when it asks |
| FdCalls.TransferUnwrapsIff | fdio/fd.cc:49-73 | among concurrent calls, a transfer unwraps exactly if it is the only holder left when it asks, and otherwise clones or fails |
| FdCalls.CloseStatusLost | fdio/unistd.cc:181-186 | from any state where two descriptors are all that leads to an object, closing both at once can lose that status, which the second close reports one at a time |
| FdCalls.CanLoseStatus | fdio/unistd.cc:181-186 | a run from the empty table that ends that way |
| Spawn.CountActions | fdio/spawn.cc:713-773 | the counting loop succeeds exactly if every action is acceptable and there is a name, and then has the number of handles and names, the shared directories, whether the root is shared, and the last name |
| Spawn.GoodDirIff | fdio/spawn.cc:749-765 | a shared directory is accepted exactly if it is rooted and does not end in a slash, unless it is the root |
| Spawn.FillFits | fdio/spawn.cc:451-629 | the second pass never needs more handles than the first one counted, and exactly the counted names on success |
| Spawn.NoTargetTwice | fdio/spawn.cc:468-588 | no descriptor is sent twice and all are in range, for every list of actions and flags |
| Spawn.FillAllSucceedsIff | fdio/spawn.cc:501-563 | the loop over the actions goes through exactly if their target descriptors are in range and pairwise different and the handles can be made; then it adds exactly one handle for each |
| Spawn.StdioSends | fdio/spawn.cc:566-588 | a standard descriptor is cloned exactly if no action set it and it can be cloned; which failures end the call |
| Spawn.FillSucceedsIff | fdio/spawn.cc:481-603 | exactly when the second pass goes through, and then exactly which handles are sent, in which order and under which ids |
| Spawn.CapacityIsUsed | fdio/spawn.cc:716-811 | the counted capacity is exactly what is sent, up to standard descriptors that are not cloned |
| Spawn.ActionError | fdio/spawn.cc:468-563 | the loop stops at the first action that cannot be placed: out of range, already set by an action before it, or with the status of the handle that could not be made |
| Spawn.FillError | fdio/spawn.cc:481-603 | the error of the second pass is the first one in the order job, actions, the three standard descriptors, clock |
| Spawn.SpawnError | fdio/spawn.cc:698-926 | the error of the whole call is the first one in the order of its steps, and how much of the two messages was sent by then |
| Spawn.LastNameIs | fdio/spawn.cc:744-750 | the name is that of the last action that sets one, or else the first argument |
| Spawn.AcceptedCarry | fdio/spawn.cc:713-773 | accepted actions carry valid handles only, and none brings a clock if the clock is to be cloned |
| Spawn.LoaderIsLast | fdio/spawn.cc:169-170 | the loader service sent is the last one an interpreter brought, or else the calling process's, if asked for |
| Spawn.SharedIff | fdio/spawn.cc:670-696 | an entry of the calling process is passed on exactly if all are or some action shares a directory whose parts are the first parts of its path |
| Spawn.FillBalanced | fdio/spawn.cc:501-603 | at the first message or error the arrays hold exactly the handles of the consumed actions and those made on the way |
| Spawn.HandlesConsumedOnce | fdio/spawn.cc:358-421 | on success and on every error, every handle that actions carry or that was made, loader services included, is handed on or closed, exactly once |
| Spawn.DescriptorsConsumedOnce | fdio/spawn.cc:404-421 | every descriptor that an action gives away is transferred or closed, in order, on success and on every error |
| Spawn.SuccessSendsAll | fdio/spawn.cc:605-626 | on success the entries of the actions come first and then the shared ones, as many as counted, and only unshared entries and replaced loaders are closed |
| Spawn.DocumentedOrderIff | fdio/include/lib/fdio/spawn.h:139-141 | the entries come in the documented order exactly if there are no added or no shared ones |
| Spawn.DocumentedWinnerIff | fdio/include/lib/fdio/spawn.h:143-146 | a path with an added entry leads to that entry; this is what the documented order gives exactly for the paths that do not have both kinds |
| Spawn.DocumentedOrderFails | fdio/spawn.cc:612-620 | a successful call with FDIO_SPAWN_CLONE_NAMESPACE that adds an entry under a path of the caller, where the documented order would give the other one |
| Spawn.UnderIsByParts | fdio/spawn.cc:670-678 | the prefix test holds exactly if the parts of the prefix are the first parts of the path |
| Spawn.KeptOrRejected | fdio/spawn.cc:680-696 | the filter keeps or closes every handle, once |
| Spawn.Matches | fdio/spawn.cc:670-678 | true exactly if some prefix matches |
| Spawn.FilterFlatNamespace | fdio/spawn.cc:680-696 | the in-place loop leaves the matching entries in order and closes the handles of the others |
| Spawn.Outbox.PutInfo | fdio/spawn.cc:434-439 | AddNext, whose capacity assertion is the precondition |
| Spawn.Outbox.Check | fdio/spawn.cc:469-479 | the mask, the range and the use of a target descriptor; it is marked exactly on success |
| Spawn.Outbox.ConsumeAll | fdio/spawn.cc:501-563 | the loop refines FillAll and stays within both capacities |
| Spawn.Outbox.CloneStdio | fdio/spawn.cc:566-588 | the loop skips set, closed and uncloneable descriptors and stays within the capacity |
| Spawn.Outbox.FillFrom | fdio/spawn.cc:481-603 | with the counted capacity, the arrays are filled as specified and never overflow |
| Spawn.FreeFrom | fdio/spawn.cc:363-421 | the destructor closes exactly the handles and the descriptors of the actions that are left, in order |
| Spawn.KeepLastLoader | fdio/spawn.cc:169-170 | the last loader service stays and every one before it is closed |
| Spawn.Prepare | fdio/spawn.cc:778-910 | the first error between the passes in the order of the code, and the loader service to send |
| Spawn.Send | fdio/spawn.cc:451-629 | refines Sent, and the number of names is the counted one |
| Spawn.SpawnVmo | fdio/spawn.cc:698-926 | refines Spawned: validation, counting, the steps between the passes, filtering and sending together, with what is released on every error |
| GetVmo.ReadAt | zxio/get_vmo.cc:16-42 | waits and retries until there are bytes of the file, at least one and no more than asked for, or an error |
| GetVmo.ReadFails | zxio/get_vmo.cc:16-42 | which error a read ends with: that of the first wait or read that fails, or out of range if the file ended; otherwise nothing failed |
| GetVmo.WindowInside | zxio/get_vmo.cc:87-91 | a page-aligned window ends inside the page-rounded VMO |
| GetVmo.FillWindow | zxio/get_vmo.cc:96-107 | the inner loop fills the window with the file's bytes through any short reads |
| GetVmo.CopyMapped | zxio/get_vmo.cc:84-109 | every mapping is page aligned, whole pages, inside the VMO, and undone on every path |
| GetVmo.CopySmall | zxio/get_vmo.cc:67-83 | the small copy makes progress or fails |
| GetVmo.CopyTurn | zxio/get_vmo.cc:66-110 | one turn of the loop: windows follow each other while four pages or more are left; it ends with the error of the one call that failed |
| GetVmo.ReadFileIntoVmo | zxio/get_vmo.cc:44-114 | terminates; on success the VMO is the file for the whole content size and zero after it; it succeeds if no call fails and the file is long enough; every call before the first failing one went well and that one gives the error; where exactly windows are mapped, and that all are unmapped |
| Timer.CatchUp | fdio/timer.cc:59-98 | for every sequence of reads at any times, the counts of a repeating timer sum up to the most that was due at any of them, and the deadline is the next point of the original grid, saturated |
| Timer.ReadStaysOnGrid | fdio/timer.cc:59-98 | a read with room for the count delivers exactly what is missing and puts the deadline on the next point of the grid, or has to wait; one without room changes nothing |
| Timer.DeliveredByNow | fdio/timer.cc:78-84 | after a read that delivered, the sum is floor((now - first) / interval) + 1 and the deadline is on the grid, strictly in the future |
| Timer.OneShot | fdio/timer.cc:86-92 | a timer without interval delivers one, once, exactly if some read was made in time |
| Timer.DisarmedNeverDelivers | fdio/timer.cc:68-71 | a timer that is not armed never delivers, whatever its interval |
| Timer.RejectedIff | fdio/timer.cc:45-51 | a timespec is refused exactly if a part is negative or its seconds alone exceed the greatest duration |
| Timer.DurationRoundTrip | fdio/timer.cc:38-51 | every duration survives the way to a timespec and back |
| Timer.TimespecRoundTrip | fdio/timer.cc:38-51 | an accepted timespec survives the way to a duration and back exactly if its nanoseconds are below a second and nothing saturates |
| Timer.Set | fdio/timer.cc:238-251 | zero disarms, everything else gives a deadline in the future |
| Timer.CountsDown | fdio/timer.cc:193-203 | from the setting to the deadline, what is shown as left is the duration asked for, cut off at the greatest time, less the time gone by |
| Timer.SetThenShown | fdio/timer.cc:193-251 | what was just set is what is shown exactly if both specs are normal, the deadline does not saturate, and a disarmed timer has no interval or the clock is at zero |
| Timer.RemainingNotNegative | fdio/timer.cc:193-203 | the reported time left is not negative exactly if the timer does not repeat or is not behind |
| Timer.DisarmedShowsNegative | fdio/timer.cc:193-203 | a timer disarmed with an interval reports a negative time left |
| Timer.CountFits | fdio/timer.cc:78-95 | a count is positive and fits into the eight bytes that are copied out |
| Timer.TimerFd.Readv | fdio/timer.cc:59-98 | refines Read: buffer too small, should wait, or the count with the new deadline; the buffers hold the bytes of the count and are otherwise unchanged |
| Timer.TimerFd.SetTime | fdio/timer.cc:217-256 | flags, a rejected timespec or a failing kernel call have no effect; otherwise the new state and, if asked for, the old setting |
| Timer.SetTimeOf | fdio/timer.cc:205-257 | EBADF and EINVAL exactly when, and that every error leaves the timer as it was |
| Timer.TimerFd.GetTime | fdio/timer.cc:193-203 | what is reported about the timer |
| Timer.GetTimeOf | fdio/timer.cc:259-273 | the same for timerfd_gettime |
| Iovec.Capacity | fdio/iovec.cc:8-14 | the loop adds up to the length of the buffers taken as one |
| Iovec.FilledIs | fdio/iovec.cc:16-29 | the bytes are at the front of the buffers taken as one, as far as there is room, and nothing else changes |
| Iovec.CopyTo | fdio/iovec.cc:16-29 | the loop refines Filled and reports how much was copied |
| Iovec.CopyFrom | fdio/iovec.cc:31-44 | the loop fills the front of the buffer from the vector and leaves the rest |
| Iovec.CopyRoundTrip | fdio/iovec.cc:16-44 | what was copied to a vector with room for it can be copied back |
| Debuglog.ChunkingIndependent | zxio/debuglog.cc:65-157 | while writes succeed, records and waiting bytes depend only on the stream of bytes and flush marks, not on how calls and entries divide it |
| Debuglog.VectorIsStream | zxio/include/lib/zxio/cpp/vector.h:10-34 | the entries are one stream; the reported size is that of the entries before the first failing write, and the failure is returned only if that is zero |
| Debuglog.WrittenIsStream | zxio/include/lib/zxio/cpp/vector.h:10-34 | the entries counted as written went through, and all of them are exactly if no write failed |
| Debuglog.BytesAreKept | zxio/debuglog.cc:130-151 | unless a write fails, records and waiting bytes, joined, are the input without marks, line ends and control characters |
| Debuglog.FailureLoses | zxio/debuglog.cc:78-83 | a write that fails ends the run, its status is returned, it was the only one that failed, and just the bytes it carried are lost |
| Debuglog.WritesMakeRecords | zxio/debuglog.cc:78-83 | without a failure every write succeeded and made one record |
| Debuglog.FeedAllKeeps | zxio/debuglog.cc:142-150 | no record exceeds the maximum, the buffer always has room, and nothing that is dropped gets into them |
| Debuglog.LineRecords | zxio/debuglog.cc:130-150 | between marks and line ends only full records are written, as many as the kept bytes fill; control characters neither end nor fill one |
| Debuglog.MarkWrites | zxio/debuglog.cc:121-138 | a mark or a line end is exactly one write of what waits, be it nothing; afterwards nothing waits, even if the write failed |
| Debuglog.DebuglogFile.Put | zxio/debuglog.cc:130-151 | one byte: flush at a line end, drop a control character, flush when full |
| Debuglog.DebuglogFile.WriteEntry | zxio/debuglog.cc:85-154 | the loop over an entry refines the stream, up to the first failing write |
| Debuglog.DebuglogFile.WriteEntries | zxio/include/lib/zxio/cpp/vector.h:10-34 | the loop over the vector refines DoVector |
| Debuglog.DebuglogFile.Writev | zxio/debuglog.cc:65-157 | flags are refused without effect; otherwise the vector is written, with the buffer made on first use |

## Left out

- FileLock.LockTable.Destroy: completers that call back into the lock, whose mutex is held then, are outside the model, as everywhere in FileLock.
- FileLock.DrainGrantsEverybody: grants waiters as holders unlock; that no new request keeps overtaking a waiting writer is not promised by the code and not stated.
- The split between fetch_add and fetch_sub in try_acquire_promise (fit-promise/scope.cc:127-137) against a second exit, and relaxed memory ordering: acquiring is one step.
- Executor.StepKeeps: the order in which a condition variable wakes threads is not modelled; one thread runs, as the code asserts, and a notify wakes it if it sleeps.
- Tasks, promises and tokens are identities: what a promise computes, sequencer and barrier are not modelled.
- CleanPath.RealPathOf: the copy into the caller's buffer is not modelled.
- update_cwd_path (fdio/unistd.cc:277-336), openat and the directory walk are not modelled.
- RouteCache.SizeIsFresh: is per key; which peer a connected socket has is the server's business. Replies are taken to have fewer than 64 tokens, as the code's own assertion demands.
- RouteCache.Routes.Get: takes the answers of finitely many turns; a server that never lets it return is a longer list of answers. Addresses are opaque, so the field-by-field comparison and hashing of keys are equality here. The lock around it makes each call one step.
- The cmsg cache and send path of datagram sockets (zxio/dgram_cache.cc:60-142) are not modelled.
- FdCalls.Linearizable: is about which descriptor leads where and who gets it; whether the object's own answer to close, unwrap or clone is reported depends on who is last and is stated by FdCalls.CloseReportsIff. Reservations and references given out by fdio_unsafe_fd_to_io are not among these calls.
- accept4, socketpair and other users of the slots (fdio/bsdsocket.cc) are not modelled.
- Spawn.SpawnVmo: ends where the launch message is built. How "#!" directives are parsed and limited (fdio/spawn.cc:229-328) is not modelled; the loader services they bring and the error they end with are given.
- Spawn.DescriptorsConsumedOnce: is about the calls made on descriptors; closing the descriptor of a failed transfer finds it gone already (fdio/fd.cc:49-59), which FdTable.Table.TransferFrom says.
- Process argument types (PA_FD and others), ZX_LOG_RECORD_DATA_MAX and the saturating arithmetic of zx::time come from headers that are not part of the repository; they are written out with their documented values.
- GetVmo.ReadFileIntoVmo: the page size is any number that divides 64 MiB, which every power of two up to it does; rounding with a bit mask is rounding to multiples. The file does not change while it is copied.
- Timer.TimerFd.Readv: the calls that arm and cancel the kernel timer are taken to succeed, as the code asserts.
- Iovec.CopyTo: a vector is the contents of its buffers, so buffers that overlap are outside the model, as is an overflow of the sum of capacities.
- Debuglog.DebuglogFile.Writev: an entry with a null pointer and a positive capacity is outside the model, since the code would read through it.
- FIDL plumbing, sockets, remote I/O, namespaces, zxio dispatch, errno tables, utf and elf helpers: their logic is shallow or in files that are not part of the repository.
