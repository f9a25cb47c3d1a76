# A Dafny model of libyaooi

libyaooi is an asynchronous I/O library in C.  A program starts a *request* on a file
descriptor (read, write, accept) or hands a task to a thread pool, and later takes completed
requests from a *queue* with `yo_queue_poll`.  This project models the parts of the library
whose correctness depends on state shared between many calls, threads and data structures,
and proves properties of that model.  The command for the whole project is
`dafny verify dfyconfig.toml`.

| file | models |
|---|---|
| `SlotList.dfy` | the intrusive lists of `src/utils/lists.h` on the heap: nodes with a `next` pointer and a *slot pointer*, the address of whichever pointer refers to the node |
| `FdAccounting.dfy` | the operations a request can stand for, and what a descriptor records about its pending requests: the list, the two counters, the interest mask computed from them |
| `Requests.dfy` | requests, descriptors and queues as heap objects, with the pending lists and the ready lists linked through the requests; starting, stopping, cancelling, direct delivery and closing |
| `Engine.dfy`, `EngineSafety.dfy`, `EnginePlaces.dfy`, `EngineTheorems.dfy`, `EngineRuns.dfy`, `EngineSchedules.dfy`, `EngineProgress.dfy` | the whole engine as a step machine: one thread that calls the library and any number of pool workers, interleaved at the granularity of the queue lock, with the self-pipe and the kernel's interest set |
| `EngineMasks.dfy`, `EngineKernel.dfy`, `EngineShared.dfy` | counters, lists and kernel masks over whole runs of that machine: over any kernel, over one that answers steadily, and for descriptors used from several queues |
| `Pool.dfy`, `PoolTheorems.dfy`, `PoolTasks.dfy`, `PoolProgress.dfy` | the thread pool as a step machine: submitter, workers, locks, conditions and slots; its growth counted in slots and in tasks, and how soon it comes to rest |
| `Interest.dfy`, `PollBackend.dfy`, `EpollBackend.dfy` | the two poll backends against one finite map of registrations |
| `CommandLine.dfy`, `EnvBlock.dfy` | the Windows command line and environment block, with the readers that undo them |
| `Signals.dfy` | reference-counted signal blocking |
| `Address.dfy` | IPv4 and IPv6 address parsing |
| `Time.dfy` | time arithmetic and the waits computed with it |

A request on the heap is a list node whose embedded structure is the union of
`src/queue.h:27-47`, modelled as a datatype with one constructor per phase.  `Requests` and
`Engine` describe a descriptor by the same functions (`Start`, `Stop`, `GetReq` in
`FdAccounting`): the heap methods are proved to compute them, and the step machine takes its
steps with them.  In the step machines `place`, `eperm`, `home`, `known`, `refused`, `accepted`,
`peak`, `busy` and `trace` are history variables; no enabling condition depends on them except
that a request in flight is not started again, that a task is submitted once, and that a
descriptor number names one descriptor for the whole run.  Operating-system calls are
parameters of the methods, or free choices in the steps.

Where the code does not do what its own comments or callers expect, the model follows the
code, and a lemma or contract gives the exact condition under which the expectation is met:

- A registration refused with `EPERM` completes the request without undoing the counter
  (`src/unix/pollish.c:64-80`): counters are exact if and only if there was none
  (`StartKeepsExactIff`, `CountersExactIffClean`).  For a descriptor that the kernel refuses always
  or never, as the type of the file decides, and that is used from one queue, the masks are right
  all the same and no report is in vain (`EngineKernel`); a kernel that refuses a descriptor and
  later accepts the same one can make the poll loop spin (`PhantomCountSpins`).
- Requests of several queues may be on one descriptor (`src/unix/pollish.c:139`), but a stop brings
  only the mask of its own queue up to date (`src/unix/pollish.c:99`): a poller finds a request
  behind every report if and only if what its queue has registered is still within the interest of
  the descriptor (`ReportFindsIff`).  A descriptor used from one queue always meets that
  (`CountersAndMasksExact`); one used from two can make a poll loop spin (`SharedDescriptorSpins`).
- `pthread_create` reports failure with a positive number, but the code tests for a negative one
  (`src/pool.c:84`): an accepted task has ended when all is at rest if and only if it does not sit
  with a worker whose thread was not created (`RestMeansDone`, `UncreatedThreadIsReached`).
- So does `pthread_sigmask` (`src/unix/impl.c:1021`): from a state in sync the process mask is the
  recorded set throughout if and only if no mask call fails that way (`InSyncThroughoutIff`).
- Switching the last signal off records the empty set, whatever mask the process inherited:
  balanced use gives the inherited mask back if and only if it was empty or no mask call took
  effect (`BalancedInheritedIff`).
- `inc/yaooi/signo.h:21` says that a bad operation combines two signals of the system; the code
  adds a third, the floating-point error (`src/unix/impl.c:1008`): `DocumentedIff`.
- Between the end of a task and the clearing of its slot the worker still counts as occupied
  (`src/pool.c:35-40`): slots and unfinished tasks are the same if and only if no worker is in
  between (`SlotsAreTasksIff`, `SlotsCountTasks`), so the growth bound holds for tasks over runs
  that submit only then (`TasksBoundWhenCleared`), and not over all (`EndedTaskStillCounts`).
- When `realloc` fails, the recorded capacity has already been doubled (`src/unix/poll.c:64-68`):
  array and capacity match after `Poll` if and only if it does not return `YO_ENOMEM`.
- The statement at `src/unix/poll.c:75` clears the entry *after* the one just filled: all the
  entries it clears during one poll belong to the array if and only if there are fewer
  registrations than the capacity the poll starts filling (`Build`, `Poll`).
- Compressed IPv6 forms are not decoded as section 2.2 of RFC 4291 says; the test at
  `src/addr.c:79` cannot succeed after the one at line 74: `CompressedIff`.
- `yo_timeadd` carries only past a full second, so a sum can be left at exactly 10^9 nanoseconds,
  which `yo_timecmp` does not recognise (`src/time.c:9`): `TimeAdd`, `TimeCmp`.  As a deadline such
  a sum gives `ppoll` an improper wait if and only if the current time is a whole second that is
  not past the deadline's seconds (`WaitNs`), and never sets the timer of the epoll backend
  (`src/unix/epoll.c:59`): that is set if and only if the deadline is a proper time (`ArmTimer`).
- An empty entry ends the walk over an environment block early (`src/win/impl.c:1280`): the walk
  returns the whole list if and only if no entry is empty (`WalkIsWholeIff`).
- `src/unix/pollish.h:65` speaks of a descriptor of -1 when there is nothing to wait for; neither
  backend does that, and the model has no such case.

## Model

| member | source | states |
|---|---|---|
| SlotList.DList.Add | src/utils/lists.h:9-14 | prepends: the list is valid again (`*slot(n) == n`, every `next` right) and its node sequence is the new node followed by the old sequence; any other valid list stays valid with the same nodes |
| SlotList.Unlink | src/utils/lists.h:15-17 | unlinks a node at any position through its slot alone: exactly that node leaves, the others keep their order, the node keeps its own links, and any other valid list stays valid with the same nodes |
| SlotList.SlotRefersToNode | src/utils/lists.h:9-17 | for every member of a valid list the slot pointer points at the pointer that refers to it, and that pointer is the head of this list or a field of another member |
| SlotList.MembershipIsUnique | src/utils/lists.h:9-17 | a node cannot be in two valid lists |
| SlotList.ListsAreDisjoint | src/utils/lists.h:9-17 | two different valid lists share no node |
| SlotList.WithoutIndex | src/utils/lists.h:15-17 | taking a node out of a duplicate-free sequence removes exactly its position and keeps the order of the rest |
| FdAccounting.PerformsWhatWasAsked | src/unix/pollish.c:46-60 | the operation performed for a request is the one its entry point was called for |
| FdAccounting.ServesIff | src/unix/pollish.c:22-45 | a report concerns a kind of request if and only if it lets the operation of that kind proceed: reads and accepts take input, writes need room for output |
| FdAccounting.StartRegisters | src/unix/pollish.c:61-75 | the mask a start hands over has the side its operation waits for, and all sides the mask had before |
| FdAccounting.ExactIsAwaited | src/unix/pollish.c:68-75 | with exact counters the mask has exactly the sides some pending operation waits for, and is empty if and only if nothing is pending |
| FdAccounting.PendingCanStop | src/unix/pollish.c:85-91 | no counter underflows: a pending request was counted |
| FdAccounting.StartAccounts | src/unix/pollish.c:61-84 | after a start each counter equals the pending requests of its direction plus the starts that were refused with EPERM |
| FdAccounting.StartKeepsExactIff | src/unix/pollish.c:61-84 | a start keeps the counters exact if and only if the registration is not refused with EPERM |
| FdAccounting.StopAccounts | src/unix/pollish.c:85-100 | stopping a pending request keeps that accounting for both counters |
| FdAccounting.StopUndoesStart | src/unix/pollish.c:61-100 | stopping a request just started restores list and counters |
| FdAccounting.GetReqIsFirst | src/unix/pollish.c:39-45 | the search finds the first request in list order whose operation the report lets proceed, and nothing only when there is none |
| FdAccounting.WaitingIsFound | src/unix/pollish.c:39-45 | a report of the side a pending operation waits for finds a request |
| FdAccounting.AnsweredIff | src/unix/pollish.c:39-45 | every report a kernel may make for a registration finds a request if and only if every direction registered has a request behind it |
| FdAccounting.NeverSpinsIff | src/unix/pollish.c:39-45 | for the registration computed from the counters: if and only if every positive counter has a request behind it |
| FdAccounting.ReportFindsRequest | src/unix/pollish.c:166-167 | with exact counters every report finds a request |
| FdAccounting.PhantomCountSpins | src/unix/pollish.c:61-84 | over a kernel that refuses a descriptor with EPERM and later accepts the same one: after one EPERM start and one ordinary start a readable report finds nobody |
| Requests.Queue.SetMask | src/unix/pollish.h:59-62 | mask 0 removes the registration, another mask inserts or replaces it with that very mask, every other descriptor keeps its own, a refused call changes nothing |
| Requests.Queue.Notify | src/unix/pollish.c:128-135 | one more byte in the self-pipe, unless it is full |
| Requests.Queue.Pop | src/queue.c:39-54 | takes the newest completed request with its code and leaves the linked list of the others valid and in order, or reports that there is none |
| Requests.ReqEnd | src/queue.c:25-33 | the request gives up its running phase for its ready phase with the given code, linked in front of its own queue's list, which stays valid; afterwards the pipe holds a byte |
| Requests.Fd.CountDown | src/unix/pollish.c:88-91 | undoes CountUp, and needs a positive counter |
| Requests.Fd.CountUp | src/unix/pollish.c:64-67 | counts one more request on the side its operation waits for, and none on the other |
| Requests.Fd.Link | src/unix/pollish.c:82 | the descriptor's view gains the request in front, with the links on the heap kept valid; any other list stays as it was |
| Requests.Fd.Unhook | src/unix/pollish.c:97 | the descriptor's view loses exactly the entry of the request; any other list stays as it was |
| Requests.ReqStart | src/unix/pollish.c:61-84 | list, counters, phase and result of a start, for every answer of the kernel: EPERM completes at once without linking, any other answer links the request; from exact counters, a granted registration leaves the descriptor registered for exactly the sides its pending operations wait for, every other registration as it was, and a refused one changes none; any other descriptor keeps its list and counters |
| Requests.ReqStop | src/unix/pollish.c:85-100 | list and counters after a stop, with the kernel's answer returned; from exact counters, they stay exact and a granted registration is for exactly the sides the remaining operations wait for, or gone if none remains; any other descriptor keeps its list and counters |
| Requests.ReqCancel | src/queue.c:93-98 | the request leaves the descriptor and arrives on its own queue with YO_ECANCELED, and the registration is left as after a stop; a request cancelled before is left alone; any other descriptor keeps its list and counters |
| Requests.FindReq | src/unix/pollish.c:39-45 | the walk over the heap list finds what the search function finds |
| Requests.DeliverDirect | src/unix/pollish.c:166-173 | whatever queues the requests belong to: the first one an event can serve leaves list and counters, its own queue's registration is left as after a stop and every other queue keeps its own, and it is returned with its operation's code; if there is none, nothing changes; the accounting is kept either way, and any other descriptor keeps its list and counters |
| Requests.CloseTurn | src/unix/pollish.c:138-142 | one turn of the close: the request becomes ready, cancelled, in front of its own queue's list, and that queue forgets the descriptor unless the kernel refuses; any other queue stays as it is |
| Requests.OnClose | src/unix/pollish.c:137-143 | the walk ends although every node changes hands under it, every pending request becomes ready with YO_ECANCELED, and any queue ends up with exactly its own requests added, in reverse list order, without the registration if and only if the kernel granted it one of its removals, and with a byte in its pipe if it owned a request; any other descriptor keeps its list and counters |
| Requests.CloseConserves | src/unix/pollish.c:137-143 | a queue gains each request exactly as often as it was pending and owned by that queue |
| Requests.CloseGains | src/unix/pollish.c:137-143 | a queue gains something if and only if it owned a pending request, and when the kernel grants every removal it forgets the descriptor exactly then |
| EngineSafety.CountedStep | src/unix/pollish.c:61-100 | every step of the engine keeps the accounting of every open descriptor |
| EngineSafety.WakesEnd | src/queue.c:25-33 | the pending wakeup survives every step of a completing thread, also when the pipe is full |
| EngineSafety.WakesOther | src/unix/pollish.c:145-164 | the pending wakeup survives, and holds when the poller begins to wait after draining outside the lock |
| EngineSafety.LocksEnd | src/queue.c:25-33 | a completing thread owns the queue lock exactly while its position says so |
| EngineTheorems.StepKeepsInv | src/unix/pollish.c:35-175 | every step of start, execute, cancel, close, poll and completion keeps the whole invariant |
| EngineTheorems.ExactlyOnePlace | src/unix/pollish.c:35-175 | in every reachable state a request in flight is in exactly one place (its descriptor's list, one thread's hand, its own queue's ready list), once, and any other request is nowhere |
| EngineTheorems.TraceIsLegal | src/queue.c:21-54 | every request goes through start, production of a code, delivery, over and over, and never deviates |
| EngineTheorems.DeliveredOncePerStart | src/queue.c:21-54 | per request, starts exceed deliveries by one exactly while it is in flight |
| EngineTheorems.StartsMatchDeliveries | src/queue.c:21-54 | the same, for every legal trace |
| EngineTheorems.DeliveredCodeWasProduced | src/unix/pollish.c:166-173 | every delivery hands over the code produced last for that request, and cancel and close produce YO_ECANCELED |
| EngineRuns.DeliveredWasReturned | src/unix/pollish.c:46-80 | over every run, every delivery hands over the result that some action brought for that request, with nothing happening to the request in between: the result of the callback of the worker that held it, of the operation run after a refused registration or a report, or YO_ECANCELED of a cancel or close |
| EngineRuns.StepReturns | src/pool.c:35 | every code an action produces is the result the callback or operation returned in it, or YO_ECANCELED of a cancel or close |
| EngineTheorems.MutualExclusion | src/queue.c:25-54 | at most one thread is inside a queue's lock |
| EngineTheorems.NoLostWakeup | src/unix/pollish.c:128-164 | whenever the poller waits and a request is ready, the self-pipe holds a byte or a thread inside the lock is about to write one |
| EngineSchedules.HolderProceeds | src/queue.c:25-33 | a thread inside a queue's lock can always take its next step, wherever the poller is and whatever the list holds |
| EngineSchedules.NeverStuck | src/unix/pollish.c:145-164 | while a request is ready and the poller is between its wait and its pop, the poller or the lock's holder can move, without any report of a descriptor |
| EngineSchedules.StepProgress | src/unix/pollish.c:145-164 | every such step, a report of a descriptor included, returns with a request or leaves strictly fewer steps to go |
| EngineSchedules.EveryScheduleDelivers | src/unix/pollish.c:145-164 | from every reachable state in which the poller waits and a request is ready, every schedule of the poller (all its steps but a timeout) and the lock's holder is at most eight steps longer than the reads that empty the pipe, and one in which neither can move any more has returned with a request, and with one of the polled queue if every descriptor reported on the way is used from that queue |
| EngineSchedules.DeliveringSchedule | src/unix/pollish.c:145-164 | such a schedule exists without any report, and it delivers a request of the polled queue |
| EngineSchedules.NotificationIsUsedUp | src/unix/pollish.c:158-164 | from every reachable state in which the poller waits and nothing is ready, a schedule of its own steps without timeout and report is at most four steps longer than the reads that empty the pipe, and one that can go no further has emptied it and waits again, unless another thread is inside the lock |
| EngineRuns.WokenOncePerNotification | src/unix/pollish.c:128-164 | over every run, between two waits of one queue that a notification ended another one was written |
| EngineRuns.PipeIsWritten | src/unix/pollish.c:128-135 | over every run, a self-pipe holds no more bytes than it has room for, nor more than were written to it, and while its poller reads nothing it holds all of them or is full |
| EngineProgress.StartableIff | src/unix/pollish.c:61-84 | a request can be started on an open descriptor if and only if its last start has been delivered, whether the kernel will refuse the registration or not |
| EngineProgress.CancellableIff | src/queue.c:93-98 | exactly the requests pending on an open descriptor can be cancelled |
| EngineProgress.ReportableIff | src/unix/pollish.c:155-167 | the poller can be told of everything the pending operations of a descriptor wait for, alone or together, and of failures, and of nothing else |
| EngineProgress.NobodyIsStuck | src/queue.c:21-54 | no deadlock: in every reachable state each thread inside a call can take a step, or stands before a lock whose holder can |
| EngineProgress.CallReturns | src/unix/pollish.c:137-143 | however workers interleave, a close of k pending requests returns after exactly 5 k + 1 steps of the calling thread, and a cancel after its four |
| EngineMasks.CountersAndMasksExact | src/unix/pollish.c:61-100 | in every reachable state, for a descriptor used from one queue that never met EPERM, whatever other descriptors are used from: the counters count the list, the descriptor is registered if and only if something is pending, for exactly the sides the pending operations wait for, and no other queue has it registered |
| EngineMasks.CountersExactIffClean | src/unix/pollish.c:64-80 | in every reachable state the counters of a descriptor are exact if and only if no start on it was refused with EPERM |
| EngineMasks.DeliveredProceeds | src/unix/pollish.c:166-173 | a request is handed over by a report only if the report lets its operation proceed, and with the result of that operation |
| EngineMasks.CleanReportDelivers | src/unix/pollish.c:159-173 | whatever any kernel reports for such a descriptor, that very step delivers a request of the polled queue |
| EngineMasks.Elsewhere | src/unix/pollish.c:61-175 | a step about another descriptor leaves list, counters, refusals and every queue's registration of this one as they were |
| EngineMasks.CloseLeavesNoRegistration | src/unix/pollish.c:137-143 | after the close of such a descriptor no queue has it registered |
| EngineKernel.ReportedIsClean | src/unix/pollish.c:61-84 | a descriptor that the kernel refuses always or never is reported only if no start on it was refused |
| EngineKernel.ReportDelivers | src/unix/pollish.c:159-173 | the poll loop never spins on such a descriptor used from one queue: whatever is reported, that very step delivers a request of the polled queue |
| EngineKernel.MasksExact | src/unix/pollish.c:61-100 | such a descriptor, while open, is registered with its one queue for exactly the directions somebody waits for, and with no other; its counters count its list if it can be registered |
| EngineKernel.CloseUnregisters | src/unix/pollish.c:137-143 | when the close of such a descriptor has walked its list no queue has it registered |
| EngineShared.ReportFindsIff | src/unix/pollish.c:85-175 | in every reachable state, for a descriptor that never met EPERM and any queue that has it registered: every report finds a request if and only if what that queue has registered is within the descriptor's interest |
| EngineShared.SharedDescriptorSpins | src/unix/pollish.c:85-175 | a reachable state of a descriptor used from two queues in which nothing is pending and a poller goes round for ever: report, empty pop, the same state again |
| Pool.SlotStep | src/pool.c:28-41 | every step keeps slots and thread positions consistent: a running worker holds its task, a sleeping one has an empty slot or is about to be signalled |
| Pool.LockStep | src/pool.c:25-66 | every step keeps each worker's lock owned exactly by whoever is inside it |
| Pool.BusyStep | src/pool.c:51-92 | every step keeps what the scan has established, and the bound on the list |
| PoolTheorems.SlotIsSafe | src/pool.c:35-66 | an occupied slot changes only when its own worker empties it after that very task ended: nothing is overwritten, and clearing never drops a newer task |
| PoolTheorems.TraceIsLegal | src/pool.c:22-93 | a task begins, is run by one worker and ended by the same one, and nothing else happens to it; an accepted one has begun, a refused one never runs |
| PoolTheorems.RunAtMostOnce | src/pool.c:22-93 | a task ends no more often than it runs, runs no more often than it begins, and begins at most once |
| PoolTheorems.StatusTallies | src/pool.c:22-93 | in every legal trace a task's status says how often it began, ran and ended |
| PoolTheorems.NoLostWakeup | src/pool.c:28-66 | a worker asleep on an occupied slot is about to be signalled by the submitter, whose own next steps wake it |
| PoolTheorems.QuietIsIdle | src/pool.c:22-93 | when no step is possible the submitter is outside yo_req_exec: nothing deadlocks inside it |
| PoolTheorems.QuietWorkers | src/pool.c:22-49 | when no step is possible every worker is asleep or was never really created |
| PoolTheorems.RestMeansDone | src/pool.c:51-93 | when everything has come to rest an accepted task has ended if and only if it does not sit with a worker whose thread was never created |
| PoolProgress.StepCounts | src/pool.c:22-93 | every step but a submission and a wait that returns by itself uses up part of the work left |
| PoolProgress.RestComesSoon | src/pool.c:22-93 | from every reachable state, a run without a new submission has at most ten steps, two for each listed worker, five for each worker and three for each wait that returns by itself |
| PoolProgress.EveryTaskRuns | src/pool.c:22-93 | every such run that goes on as long as anybody can move is that short and at its end an accepted task has ended if and only if it does not sit with a worker whose thread was never created |
| PoolProgress.RestIsReached | src/pool.c:22-93 | such runs exist |
| PoolTheorems.UncreatedThreadLosesTask | src/pool.c:84-92 | the task of a thread whose creation failed with a positive result is never run and its worker never used again, over every continuation |
| PoolTheorems.UncreatedThreadIsReached | src/pool.c:84-92 | such a worker is reachable, and its submission is accepted |
| PoolTheorems.GrowsOnlyWhenFull | src/pool.c:53-69 | a worker is created only if every existing slot was occupied when the scan began, whatever happened during the scan |
| PoolTheorems.PoolIsBounded | src/pool.c:53-92 | for every run that ends with n + 1 workers, some scan of the run began with at least n slots occupied: the pool never outgrows the most slots occupied at the beginning of a scan, plus one |
| PoolTheorems.EndedTaskStillCounts | src/pool.c:35-40 | over runs that submit at other times the bound fails for tasks: with one worker and every task ended, one more submission can still create a second worker |
| PoolTasks.SlotsAreTasksIff | src/pool.c:35-40 | in every reachable state the workers whose task has not ended are exactly those with an occupied slot if and only if no worker is between the end of its task and the clearing of its slot |
| PoolTasks.SlotsCountTasks | src/pool.c:35-92 | between two calls the occupied slots are as many as the outstanding tasks and the workers that have not cleared theirs |
| PoolTasks.GrowsOnlyWhenWorking | src/pool.c:53-69 | a scan that begins while no slot waits to be cleared creates a worker only if every worker has a task that has not ended, one each |
| PoolTasks.PoolIsBoundedByTasks | src/pool.c:53-92 | for every run, some scan began with so many tasks outstanding and slots not yet cleared that the pool has at most one worker more |
| PoolTasks.TasksBoundWhenCleared | src/pool.c:53-92 | ... with so many tasks outstanding alone, over every run that submits only while no slot waits to be cleared |
| Interest.LastCallDecides | src/unix/pollish.h:59-62 | over a history of calls a descriptor is registered if and only if its last call had a non-zero mask, and with what that call said |
| Interest.HonestIsReportable | src/unix/epoll.c:87-90 | the masks a backend can report for a registration are exactly those the engine's poll step reckons with |
| PollBackend.UpdatedOneEach | src/unix/poll.c:30-61 | the list never holds two nodes for one descriptor |
| PollBackend.UpdatedKeeps | src/unix/poll.c:30-61 | all other entries are kept |
| PollBackend.UpdatedRefines | src/unix/poll.c:30-61 | the list after a call stands for the map after the call |
| PollBackend.HistoryRefines | src/unix/poll.c:30-61 | ... over every history of calls |
| PollBackend.PollQueue.constructor | src/unix/poll.c:145-151 | an empty list, and an array that matches capacity 0 |
| PollBackend.PollQueue.Find | src/unix/poll.c:32-45 | the node of the descriptor, or null if there is none |
| PollBackend.PollQueue.Drop | src/unix/poll.c:34 | the list loses exactly that entry |
| PollBackend.PollQueue.Insert | src/unix/poll.c:48-57 | the list gains the entry in front |
| PollBackend.PollQueue.SetMask | src/unix/poll.c:30-61 | the list becomes what the specification says, and YO_ENOMEM is returned, with nothing changed, exactly when a new node is needed and cannot be allocated |
| PollBackend.PollQueue.AddFd | src/unix/poll.c:62-86 | growth from 0 to 16 and by doubling, earlier entries kept, the new entry describing its node, the node knowing its index; the entry behind it is cleared if and only if the capacity has one; it fails, leaving array and capacity in disagreement, exactly when it had to grow and could not |
| PollBackend.PollQueue.Build | src/unix/poll.c:120-124 | afterwards the array has one entry per node in list order and every node knows its own, unless growing failed: exactly when it would fail at one of the capacities reached, the first of which is reported; for either outcome, the exact condition for every entry it cleared to belong to the array |
| PollBackend.PollQueue.Wait | src/unix/poll.c:88-117 | the kernel fills in reports for the built entries and nothing else |
| PollBackend.PollQueue.Scan | src/unix/poll.c:128-142 | the first node in list order with something to report, with its pointer and mask, or YO_ETIMEOUT exactly when there is none |
| PollBackend.PollQueue.Poll | src/unix/poll.c:119-143 | both loops together: YO_ENOMEM if and only if growing would fail at one of the capacities reached, and otherwise the first registration with something to report or a timeout; array and capacity match afterwards if and only if it is not YO_ENOMEM; and the exact condition for every cleared entry to belong to the array |
| EpollBackend.Kernel.Ctl | src/unix/epoll.c:37-50 | the contract of epoll_ctl the code relies on: ENOENT and EEXIST say whether the descriptor is registered, a failed call changes nothing |
| EpollBackend.SetMask | src/unix/epoll.c:27-50 | MOD, ADD and DEL together insert, replace or remove in the same map, removal of an absent descriptor included; a fault changes nothing and is returned |
| EpollBackend.ReturnedIsReportable | src/unix/epoll.c:27-90 | for every registration the backend has made, what the kernel can return makes the poll step see exactly the masks the engine reckons with |
| EpollBackend.ToMask | src/unix/epoll.c:87-90 | the reported events as the mask both backends hand to the engine |
| CommandLine.LineRoundTrips | src/win/impl.c:155-197 | reading the line by Microsoft's rules gives back exactly the arguments, for all arguments |
| CommandLine.BodyIsRead | src/win/impl.c:164-191 | the reader undoes the quoting of one argument, whatever backslashes are pending |
| CommandLine.BodyFits | src/win/impl.c:147 | twice the length suffices for the quoted text, and is needed exactly when it is all backslashes and quotes |
| CommandLine.PackedFits | src/win/impl.c:143-151 | the whole output fits the computed size, and fills it exactly when every argument is such a text |
| CommandLine.PackedRoundTrips | src/win/impl.c:155-197 | the terminated output of a non-empty vector has its only NUL at its end and reads back as the vector |
| CommandLine.PutUnit | src/win/impl.c:166-184 | what one turn of the loop appends, and the run left pending |
| CommandLine.PutArgument | src/win/impl.c:162-191 | appends the quoted argument behind the cursor, inside the buffer |
| CommandLine.Measure | src/win/impl.c:144-148 | computes the size: three and twice the bytes per argument |
| CommandLine.Encode | src/win/impl.c:137-201 | null exactly when an allocation or a conversion fails, otherwise exactly the packed line |
| EnvBlock.BlockFits | src/win/impl.c:205-213 | the block fits the computed size |
| EnvBlock.ConvertInto | src/win/impl.c:216-220 | the contract of the conversion into what is left of the buffer |
| EnvBlock.WriteEntries | src/win/impl.c:214-222 | every entry fits in what is left of the computed size; it stops at an entry that does not convert, and otherwise has written the whole block but its last terminator |
| EnvBlock.EncodeBlock | src/win/impl.c:202-228 | null exactly for a null environment, a failed conversion or a failed shrink, otherwise exactly the block |
| EnvBlock.EnvIter.Length | src/win/impl.c:1279 | the search for the terminator stays inside the block |
| EnvBlock.EnvIter.Next | src/win/impl.c:1276-1292 | the entry at the cursor and the cursor after it, or the end, or a failed conversion, both leaving the cursor |
| EnvBlock.WalkRoundTrips | src/win/impl.c:1276-1292 | call n returns entry n until the first empty entry or the end, and every later call reports the end |
| EnvBlock.WalkIsWholeIff | src/win/impl.c:1276-1292 | the walk up to the end it reports returns the entries before the first empty one, and the whole list if and only if no entry is empty |
| EnvBlock.Entries | src/win/impl.c:1276-1292 | asking the iterator n times gives those entries in order, and then the end as often as it is asked |
| Signals.TablesAgree | src/unix/impl.c:243-262 | the conversion table is the inverse of the sets the two switches add and remove |
| Signals.DocumentedIff | src/unix/impl.c:996-1020 | the sets are those the header documents, for every signal of the system but the floating-point error |
| Signals.SignalTable.SigOn | src/unix/impl.c:988-1043 | counter, recorded set and process mask after the call, and its result, for every result of the mask call; a refused call changes nothing |
| Signals.SignalTable.SigOff | src/unix/impl.c:1044-1101 | the same for switching off, also when the signal is not on |
| Signals.UnionByConversion | src/unix/impl.c:243-262 | the set is the union of the signals that are on if and only if it holds exactly the system signals that convert to one that is on |
| Signals.AlwaysUnion | src/unix/impl.c:988-1101 | over every history of calls, failures included, the recorded set is that union |
| Signals.InSyncIff | src/unix/impl.c:1021-1025 | from a state in sync one call leaves the process mask equal to the recorded set if and only if its mask call does not fail with a positive result |
| Signals.InSyncThroughoutIff | src/unix/impl.c:988-1101 | ... and the two are equal after every prefix of a history if and only if no mask call in it fails that way |
| Signals.KernelIsLastSet | src/unix/impl.c:988-1101 | after every history, failures included, the process mask is what the last successful mask call recorded, or the inherited mask if there was none |
| Signals.EffectSyncs | src/unix/impl.c:988-1101 | whatever was inherited, the process mask is the recorded set once a mask call took effect, as long as none fails with a positive result |
| Signals.BalancedRestoresIff | src/unix/impl.c:988-1101 | a history of calls gives every counter back if and only if, for each signal, as many `on` calls were accepted as `off` calls undid one, in any order and however the signals interleave; and then it gives the recorded set back |
| Signals.BalancedInheritedIff | src/unix/impl.c:988-1101 | over every such history from the beginning in which no mask call fails with a positive result, the inherited mask comes back if and only if it was empty or no mask call took effect; otherwise nothing is left blocked |
| Address.ParseGroup | src/addr.c:19-27 | the value of the digit run, or rejection when it is empty or above 255, with the accumulator never above 1009 |
| Address.ParseIpv4 | src/addr.c:10-42 | the loop computes the specification of four dotted groups |
| Address.Ipv4Accepts | src/addr.c:10-42 | the IPv4 parser accepts a string if and only if it is four dotted decimal groups of at most 255, leading zeros allowed, and returns their values |
| Address.ParseHextet | src/addr.c:64-72 | the value of up to four hexadecimal digits, within 16 bits |
| Address.ParseIpv6 | src/addr.c:43-97 | the loop computes the specification of up to eight groups, and the branches for an inner double colon and for moving groups are unreachable |
| Address.Ipv6Accepts | src/addr.c:43-97 | the IPv6 parser accepts a string if and only if it is the double colon alone or, with or without a double colon in front, one to eight groups of one to four digits, where a colon may be missing only after four digits and may follow the last group only if it is the eighth |
| Address.ReadableGroups | src/addr.c:43-97 | ... and then the groups fill the address from the left and zeros fill the rest, the double colon notwithstanding |
| Address.Ipv4RoundTrips | example.lua:687 | parsing undoes the dotted format for every address |
| Address.Ipv6RoundTrips | example.lua:689-694 | parsing undoes the eight-group format for every address |
| Address.Ipv4RejectsPrinted6 | src/addr.c:99-101 | the IPv4 attempt rejects every printed IPv6 address |
| Address.ParseUndoesPrint | src/addr.c:99-103 | yo_addrparse inverts the printer on every address |
| Address.AddrParse | src/addr.c:99-103 | IPv4 first, then IPv6, otherwise nothing |
| Address.ParseIgnoresCase | src/addr.c:64-72 | two texts that differ only in the case of letters are parsed alike |
| Address.DigitsInOrder | src/addr.c:64-72 | a digit's value is its position among the sixteen digits, in either case |
| Address.AddrCmp | src/addr.c:104-112 | two addresses compare equal if and only if they print the same |
| Address.CompressedIsRead | src/addr.c:51-88 | a compressed form, with groups written in any way, is rejected if groups precede the double colon, and otherwise read with its groups moved to the front |
| Address.CompressedIff | src/addr.c:51-95 | a compressed form of hexadecimal groups, leading zeros and upper case allowed, gets the meaning of section 2.2 of RFC 4291 if and only if nothing precedes the double colon and all that follows is zero |
| Time.TimeAdd | src/time.c:7-14 | total nanoseconds are preserved; a sum of normal times is normal unless the nanoseconds add up to exactly 10^9 |
| Time.TimeSub | src/time.c:15-28 | total nanoseconds are preserved, also when the minuend was left at a full second |
| Time.SubUndoesAdd | src/time.c:7-28 | `(a + b) - b` is `a`, field for field |
| Time.AddUndoesSubIff | src/time.c:7-28 | `(a - b) + b` is `a` if and only if `a` has nanoseconds or `b` has none |
| Time.TimeCmp | src/time.c:29-33 | orders times by their totals if and only if they are not the two ways to write one instant |
| Time.TimeMs | src/time.c:34-36 | the exact ceiling in milliseconds |
| Time.WaitMs | src/unix/poll.c:92-103 | for every deadline `yo_timeadd` can give, a full second of nanoseconds included: the wait never ends before a future deadline, asks for less than a millisecond too much, and is zero for a past one |
| Time.WaitNs | src/unix/poll.c:92-99 | for the same deadlines the wait with full resolution is exactly the time left, or zero; it is a proper timespec if and only if the deadline is normal, or the current time is not a whole second, or it is past the deadline's seconds |
| Time.ArmTimer | src/unix/epoll.c:55-62 | a deadline counts as passed exactly when it lies before now, or is the same instant written with a full second; any other one is what the timer is set to if and only if it is a proper time other than zero, and one left at a full second leaves the timer as it was |

## Left out

- Operating-system calls themselves; their results are parameters or free choices, with the contracts named above for epoll_ctl, the mask calls and the text conversions.
- Teardown of queues and pools (`yo_queue_free`, `yoi_pool_free`), so `kys` is never set; pool cancellation, because the worker back-pointer it reads is never assigned.
- The multithreaded wait of `src/fallback/queue.c` and the forwarding macros of `src/fallback/async.c`; the single-threaded branch of `src/pool.c`.
- Other errors of a registration than EPERM in `Engine`, whose runs see OK or EPERM; `Requests.ReqStart` covers every error.
- Requests.ReqCancel: sets the cancelled flag while the request is still running; the code writes it into the union after the request has become ready (`src/queue.c:97`).
- Requests.Queue.Notify: does not model write errors other than a full pipe.
- Requests.Queue.Pop: models the list, not the lock around it; the steps of the lock are those of `Engine`.
- Requests.ReqEnd: the same.
- PollBackend.PollQueue.Wait: models the reports, not the wait and its repetition after EINTR; the length of the wait is `Time.WaitMs` and `Time.WaitNs`.
- Two threads calling the library at once (several pollers, or a start during a poll); several submitters of one pool.
- The self-pipe under the poll backend, whose initialisation never creates it (`src/unix/poll.c:145-151`); the wakeup theorems speak of a queue whose pipe is registered, as under epoll (`src/unix/epoll.c:111`).
- The timer descriptor of the epoll backend and its value in the event's data union; in `Engine` a deadline is a step that may end the wait.
- Wrap-around of the `unsigned` counters and of `size_t` sizes beyond their range; `Time` and the code units of `CommandLine` have their width.
- CommandLine.LineRoundTrips: applies the documented rules to every argument; the C runtime treats the first one by simpler rules. The unescaped variant at `src/win/impl.c:108-136` is not modelled, and UTF-16 text is assumed not to be longer than its UTF-8 form.
- EnvBlock.EncodeBlock: assumes that its unchecked malloc succeeds (`src/win/impl.c:212`).
- EnvBlock.EnvIter.Next: models the cursor, not the freeing of the last string.
- Error-code tables, file metadata, paths, terminals, name resolution and process spawning.
- Memory-model effects below the lock, and byte-level layout of the unions.
