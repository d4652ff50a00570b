# libawe in Dafny

libawe is a small C event library. This project models the parts of it in which several threads, several
owners or several representations of the same data have to agree, and proves what they keep.

`dafny verify dfyconfig.toml` checks the whole project.

## What is modelled

**The timed-task looper** (`src/looper.c`, `src/timer_task.c`, `src/unix/thread.c`). `Looper` is a state
machine over atomic steps, cut at every lock, unlock, wait and unlocked read, with one program counter per
thread: the worker, any number of posting and cancelling clients, and start, stop, clear and destroy. The
clock is an input of each step, so it may also run backwards; a wait may end at any moment. `LooperInv` is
the invariant of every interleaving, `LooperRuns` what follows for whole runs (one place for each task, at
most one call, at most one free, cancellation, order), `LooperControl` what start, stop, clear and destroy
guarantee when they do not overlap, `LooperOverlaps` what happens when they do, `LooperStarts` and
`LooperLosses` exactly when a start loses its worker, without and with overlapping stops, and
`LooperExamples` runs on which these things happen. Memory is sequentially consistent, and a task id is not
given out again.

**The linked list** (`include/awe/dlist.h`). `Dlist` works on node objects with `next` and `prev`; `Ring`
ties them to a sequence of nodes. `TimerTasks` is the sorted list on top of it, and `LooperLists` connects
this list to the protocol: its operations on the nodes are the protocol's operations on its queue.
`EntryLists` are lists in the order of arrival; `UxEventLists` and `ObjectLists` connect them to the event
table and to the lists of references in the same way.

**The byte ring** (`src/ringbuffer.c`). `Words` has the `size_t` arithmetic: wrap-around at 2^64 and the bit
mask. `RingBuffers` is the ring as a first-in-first-out queue of bytes for one thread; `RingSpsc` is the same
code as a state machine of one producer and one consumer, byte by byte. `RingAmounts` says how many bytes a
call moves there, and `RingOverruns` which calls can go beyond their caller's buffer.

**The UX scheduler** (`src/uxscheduler.c`). `UxTable` is the event table as an insertion-ordered map (with
`Bits` for its conditions),
`UxScheduler` the operations on it and the dispatch loop with handlers that change the table while it runs,
`UxRound` what a round calls, and how long it may wait.

**Ownership** (`src/linkedlist.c`, `src/connection.c`, `src/scheduler.c`, `src/connector.c`). `RefLists` has
the reference counts and the lists that hold references; `Connections` the handles and the bindings of UX
connections to UDP connections; `Schedulers` the records behind watcher and timer tokens and the callbacks
of the loop, which is a set of active watchers, and `SchedulerTokens` what a token stands for over a whole
run; `Connectors` the race between connecting and its timeout;
`UxConnectors` the same race on the UX scheduler.

**The slot ring** (`src/ringarray.c`). `RingArrays` has the two-phase calls of one writer and one reader.

Where the source changes objects in place the model has classes and methods; each method is tied to a
function of the old state, and the lemmas are about these functions.

## Where the code does not do what it is for

These came out of the proofs. The code is modelled as it is; each point names the member that shows it.

- `_min_` evaluates its second argument twice, so a concurrent `awe_ringbuffer_get` or `_put` can handle more
  bytes than it was asked for: exactly a call that asks for at least what it sees and for less than a
  capacity (`RingOverruns.GetOverrunsExactly`, `RingOverruns.PutOverrunsExactly`; whole runs:
  `RingOverruns.SafeCallsNeverOverrun`, `RingOverruns.FirstUnsafeCallMayOverrun`).
- `awe_ringbuffer_moveReadPosition` checks nothing (exactly when it is right:
  `RingBuffers.RingBuffer.MoveReadPosition`).
- `awe_thread_start` clears `_exit_pending` after creating the thread, and `awe_looper_stop` raises it without
  the mutex, so a new worker may find it up and leave, and the looper counts as started without a worker.
  As long as each start that finds `_started` down finds `_running` down, this is the only way to lose a
  worker (`LooperLosses.WorkerIsLostExactly`). It can happen before the starter has cleared the flag
  (`LooperExamples.StartMayLoseItsWorker`), and nothing else can if starts and stops do not overlap
  (`LooperStarts.LostExactlyByLookingTooEarly`). It can happen after that exactly if, when the worker is
  created, an overlapping stop has given up the mutex and not yet raised the flag, or an old worker is about
  to raise it (`LooperLosses.LateLossExactly`, `LooperExamples.LateStopLosesNewWorker`).
- A clear beside a running worker can crash it, exactly if it comes between the worker's finding and picking
  (`LooperOverlaps.ClearCrashesExactly`).
- A start that finds `_started` down and `_running` up meets the old worker: it aborts, or creates a second
  worker whose `_running` the old one may then lower (`LooperOverlaps.StartBesideOldWorkerExactly`,
  `LooperOverlaps.OldWorkerLowersNewFlag`). A second stop returns early, exactly if `_running` is still up
  (`LooperOverlaps.StopLeavesWorkerExactly`). Starts that overlap only starts do neither
  (`LooperOverlaps.ApartRunsAreSafe`).
- `scheduler_evtimer_cb` reads the record after the callback and deletes it without stopping its watcher
  (exactly when this is right: `Schedulers.TimerCallbackIsSafe`). The connector's own timeout handler is
  always on the wrong side of it (`Connectors.TimeoutReadsFreedRecord`).
- The connect handler of the UX connector asserts that its timeout can still be cancelled; a stop during the
  round that calls it trips the assertion (exactly when: `UxConnectors.AssertionFailsExactly`).
- A negative configured delay makes a UX scheduler round ignore its pending tasks
  (`UxRound.NegativeDelayWaitsForever`), and the `int32_t` cast misjudges distant tasks
  (`UxRound.TakenExactlyWhenDue`, `UxRound.WaitIsBoundedExactly`).
- `awe_ringarray_readFinish` refuses token 0 (`RingArrays.ReadRemovesExactly`), so from creation nothing ever
  leaves the ring (`RingArrays.NothingLeavesAsWritten`).
- `awe_connection_dgram` of a family other than AF_INET and AF_INET6 releases a record whose `_impl` is still
  null, and the close inside that release calls through it (`Connections.Connections.Dgram`).

## Model

| member | source | states |
|---|---|---|
| TimedOrder.InsertPosSplits | src/timer_task.c:52-63 | The place the backward scan finds separates the tasks due no later from the tasks due later, so insertion keeps the list sorted and equal deadlines stay in posting order |
| LooperInv.LockStep | src/looper.c:34-189 | A step of any thread takes, keeps or gives up the mutex exactly as its place in the code says |
| LooperInv.FlagStep | src/unix/thread.c:57-142 | A step changes `_tid`, the life of the worker thread and `_running` only together, and `_running` is raised only by a starter |
| LooperInv.ThreadStep | src/unix/thread.c:57-125 | Mutual exclusion, and at most one worker whose thread id is still recorded, survive every step of every thread |
| LooperInv.AcceptKept | src/timer_task.c:46-66 | A post keeps the list sorted by (deadline, posting order) and adds exactly one task to the account |
| LooperInv.CancelKept | src/timer_task.c:72-89 | A cancel moves no task and keeps the account |
| LooperInv.ClearKept | src/timer_task.c:91-103 | A clear frees exactly the pending tasks, each once |
| LooperInv.PopKept | src/looper.c:52-58 | The popped task is from then on the worker's, no longer pending and not yet freed |
| LooperInv.TestKept | src/looper.c:64-67 | After the unlocked test the proc runs for the first time or the task was cancelled |
| LooperInv.FreeKept | src/looper.c:68-68 | The worker frees a task once, and only after it ran or was cancelled |
| LooperInv.InvStep | src/looper.c:34-189 | The whole invariant (mutex, thread, places of all tasks, their history, list order) is kept by every step of worker, clients and control threads, for any clock |
| LooperRuns.RunInv | src/looper.c:34-189 | The invariant holds in every state of every run |
| LooperRuns.EachTaskInOnePlace | src/looper.c:34-76 | Each accepted task is in exactly one of: pending, held by the worker, freed; and is allocated exactly until it is freed |
| LooperRuns.RunsAtMostOnce | src/looper.c:64-67 | No proc is called twice for the same task in any run |
| LooperRuns.FreedAtMostOnce | src/looper.c:68-68 | No task is destroyed twice, whether by the worker or by clear |
| LooperRuns.HistoryIsWhatHappened | src/looper.c:34-189 | The recorded history of a state is exactly the calls, frees, cancels and clears of the steps before it |
| LooperRuns.FateOfFreedTask | src/looper.c:50-68 | When a task is freed, its proc ran if and only if it was neither cancelled successfully nor dropped by a clear |
| LooperRuns.CancelledNeverRuns | src/looper.c:171-183 | If a cancel returns AWE_OK, that task's proc is called at no moment of the run, before or after |
| LooperRuns.PoppedRecordIsStable | src/looper.c:64-65 | A task off the list has a record that no step changes until it is freed, so the worker's unlocked read is stable |
| LooperRuns.RecordStep | src/timer_task.c:46-103 | Deadlines never change, states change only by a cancel of a listed task, and tasks leave the list only by a pop or a clear |
| LooperRuns.PopIsDueAndLeast | src/looper.c:52-58 | A popped task is due at the clock reading of its pop and is the least pending task by (deadline, posting order) |
| LooperRuns.GoneStaysGone | src/timer_task.c:68-103 | A task that left the list never returns, and its deadline is what it was |
| LooperRuns.PopsFollowOrder | src/looper.c:50-58 | Two tasks pending together are popped in (deadline, posting order), for arbitrary, also backward-moving, clocks |
| LooperRuns.PostLists | src/looper.c:155-169 | A post to a started looper lists a new valid task whose deadline is the clock of the post plus the delay, and changes no other task; a post to a stopped looper does nothing |
| LooperRuns.EachTaskWasPosted | src/timer_task.c:46-66 | Every accepted task goes back to one posting step, and keeps that step's clock plus delay as its deadline as long as it lives |
| LooperRuns.PoppedAfterItsDelay | src/looper.c:52-58 | No task is taken before its delay, counted from its post, has passed on the clock |
| LooperRuns.DueTaskIsTaken | src/looper.c:52-67 | A worker that looks takes the first task exactly if it is due, and else waits; then it calls the proc exactly if the task is still valid |
| LooperControl.FoundStep | src/looper.c:38-58 | The list found non-empty stays non-empty until the worker has picked, since others only insert or mark, provided no clear comes in between |
| LooperControl.CrashMeansEmptyList | src/looper.c:53-55 | Of all reads of task records only the read of the first task can fail, and it does if and only if the list is empty |
| LooperControl.FoundInRun | src/looper.c:38-58 | In every run in which no clear comes between the worker's finding and picking, no step reads a missing record |
| LooperControl.SerialStep | src/looper.c:117-153 | With start, stop, clear and destroy one at a time, every step keeps at most one worker thread and keeps it out of the quiet phases of stop and clear |
| LooperControl.RunningFlagIsExact | src/unix/thread.c:67-69 | `_running` is up only while a worker thread exists; with non-overlapping control it is up exactly then, except between creating the worker and raising the flag, so it is never left stuck |
| LooperControl.StopLeavesNoWorker | src/looper.c:134-153 | In runs whose start, stop, clear and destroy do not overlap: when stop returns, no worker thread is left |
| LooperControl.NoProcAfterStop | src/looper.c:134-153 | In such runs: after stop returned no proc begins before the next successful start |
| LooperControl.DisciplinedRunIsSafe | src/looper.c:117-189 | In such runs no missing record is ever read, and only a failing pthread_create aborts |
| LooperControl.NothingLeftAfterDestroy | src/looper.c:95-115 | In such runs: after destroy no task and no worker is left, and every task ever accepted has been freed at some step |
| LooperControl.StartReturnsStarted | src/looper.c:117-132 | In every run a start that is about to return leaves the looper started |
| LooperControl.DestroyGoesThrough | src/looper.c:95-115 | A destroy goes on, through the clear, until the looper is destroyed, and nothing else destroys it |
| LooperOverlaps.ClearCrashesExactly | src/looper.c:185-189 | A clear lets the worker read the first task of an empty list, in some continuation without another clear, if and only if the worker is at that moment between finding the list non-empty and picking |
| LooperOverlaps.SingleStep | src/unix/thread.c:57-125 | At most one worker, and `_running` up while there is one, is kept by every step but a start that finds `_started` down and `_running` up |
| LooperOverlaps.SafeStartsKeepOneWorker | src/looper.c:117-132 | The same in every run without such a start, however control operations overlap otherwise |
| LooperOverlaps.StopLeavesWorkerExactly | src/looper.c:134-153 | In these runs a stop that returns leaves a worker behind if and only if `_running` is still up |
| LooperOverlaps.StartBesideOldWorkerExactly | src/unix/thread.c:97-125 | The first such start aborts if and only if the old worker's thread id is still recorded, and otherwise creates a second worker; with `_running` down it does neither |
| LooperOverlaps.SafeStartsNeverAbort | src/looper.c:125-126 | Without such a start only a failing pthread_create aborts |
| LooperOverlaps.OldWorkerLowersNewFlag | src/unix/thread.c:67-69 | From every start that creates a second worker some schedule leads to the old worker's `_running = 0` landing over the new worker |
| LooperOverlaps.StuckUntilNextStart | src/unix/thread.c:121-122 | From the state that this reaches, the flag stays down until another start creates a worker |
| LooperOverlaps.ApartInRun | src/looper.c:117-153 | If starts and stops do not overlap one another (starts may overlap starts, stops stops), no start finds `_started` down and `_running` up |
| LooperOverlaps.DisciplinedIsApart | src/looper.c:117-153 | Runs whose control operations do not overlap at all are a special case, so what holds of the former holds of them |
| LooperOverlaps.ApartRunsAreSafe | src/looper.c:117-153 | So in these runs nothing aborts but for pthread_create, and a stop leaves a worker only beside another stop that is still under way |
| LooperStarts.StartStep | src/unix/thread.c:57-125 | Whether the worker serves, and the state of `_exit_pending`, are tracked through every step of runs whose starts and stops do not overlap |
| LooperStarts.LostExactlyByLookingTooEarly | src/unix/thread.c:112-122 | In these runs, while the looper is started, no worker serves its tasks (it is gone or on its way out) if and only if the worker of the latest start read `_exit_pending` before its starter cleared it |
| LooperLosses.QuitStep | src/looper.c:37-46 | Whether the worker has found `_exit_pending` up since its creation decides whether it serves, through every step from a state with a single worker |
| LooperLosses.WorkerIsLostExactly | src/looper.c:37-37 | In every run of safe starts, while the looper is started, no worker serves its tasks if and only if the worker of the latest start found `_exit_pending` up, whoever raised it and when |
| LooperLosses.LostIsLost | src/looper.c:117-132 | A lost worker is not replaced while the looper stays started |
| LooperLosses.LateLossExactly | src/looper.c:144-146 | A start that creates a worker can lose it after having cleared the flag, in some continuation without another creation, if and only if at the creation a stopper is between giving up the mutex and raising the flag, or an old worker is about to raise it |
| LooperLosses.SafeStartLosesLateExactly | src/looper.c:144-146 | For safe starts after safe starts: if and only if some stopper is at that point |
| LooperExamples.StartMayLoseItsWorker | src/unix/thread.c:112-122 | The condition of LooperStarts.WorkerIsLostExactly does occur: a run whose start succeeds and leaves no worker |
| LooperExamples.OverlappingStopReturnsEarly | src/looper.c:134-139 | A concrete run: a second, overlapping stop returns while the worker is still in its loop |
| LooperExamples.OverlappingStartAborts | src/looper.c:125-126 | A concrete run: a start that overlaps a stop trips the assertion although a thread could be created |
| LooperExamples.OverlappingStartLosesItsFlag | src/unix/thread.c:67-69 | A concrete run: a start that overlaps the end of a stop leaves a worker in its loop with `_running` down |
| LooperExamples.LateStopLosesNewWorker | src/looper.c:144-146 | A concrete run of safe starts: the stop's late write sends the new worker away, and the looper counts as started without any thread |
| LooperExamples.ClearWhileRunningCrashes | src/looper.c:185-189 | A concrete run: a clear beside the running worker makes it read the first task of an empty list |
| LooperLists.Post | src/looper.c:163-163 | On real nodes an insert does to the list what the protocol's post does to its queue, node for node |
| LooperLists.Cancel | src/looper.c:179-179 | On real nodes a cancel is the protocol's cancel and reports exactly whether the task was listed |
| LooperLists.Pop | src/looper.c:53-58 | On real nodes the pop takes the node of the protocol's first task |
| LooperLists.Clear | src/looper.c:187-187 | On real nodes a clear frees exactly the protocol's pending tasks, in list order |
| Dlist.NextPrev | include/awe/dlist.h:46-80 | In a ring every node is the `prev` of its `next` and the `next` of its `prev` |
| Dlist.RingIsUnique | include/awe/dlist.h:204-212 | The pointers determine the sequence: two rings with the same first node are the same |
| Dlist.InitListHead | include/awe/dlist.h:36-38 | Leaves a ring of one node |
| Dlist.AddBetween | include/awe/dlist.h:46-54 | Links the node between its two neighbours |
| Dlist.ListAdd | include/awe/dlist.h:64-67 | Inserts behind the given position, any position of the ring |
| Dlist.ListAddTail | include/awe/dlist.h:77-80 | Inserts in front of the given position, any position of the ring |
| Dlist.ListEmpty | include/awe/dlist.h:144-147 | True exactly when the head is alone in its ring |
| Dlist.ListDel | include/awe/dlist.h:89-105 | Leaves the ring of the other nodes in their order, and clears the removed node's pointers |
| Dlist.ListDelInit | include/awe/dlist.h:111-115 | The same, leaving the removed node as a ring of its own |
| Dlist.ListMove | include/awe/dlist.h:122-126 | Removal from one ring and insertion behind a position of another ring or of the same one |
| Dlist.ListMoveTail | include/awe/dlist.h:133-138 | Removal from one ring and insertion in front of a position of another ring or of the same one |
| Dlist.Splice | include/awe/dlist.h:149-161 | Concatenates the entries of two disjoint rings, in order |
| Dlist.ListSpliceInit | include/awe/dlist.h:181-188 | The same for any, also empty, list, which ends as an empty ring |
| TimerTasks.TimerTaskList.First | src/timer_task.c:42-44 | Returns a task whose deadline is the least of the list |
| TimerTasks.TimerTaskList.InsertPoint | src/timer_task.c:52-62 | The backward scan ends at the place behind the last task due no later |
| TimerTasks.TimerTaskList.Insert | src/timer_task.c:46-66 | Stable sorted insertion on the nodes; the ring stays well formed and sorted |
| TimerTasks.TimerTaskList.Del | src/timer_task.c:68-70 | Removes exactly that task and keeps the others' order |
| TimerTasks.TimerTaskList.Cancel | src/timer_task.c:72-89 | Marks the task invalid if it is listed, says so, and changes nothing else |
| TimerTasks.TimerTaskList.Clear | src/timer_task.c:91-103 | The safe iteration frees each original task once, in order, and ends with an empty ring |
| Words.PowerOf2IsExact | src/ringbuffer.c:15-15 | The bit test accepts exactly the powers of two |
| Words.MaskIsMod | src/ringbuffer.c:55-56 | Masking with capacity - 1 is the remainder by the capacity |
| Words.Counters | src/ringbuffer.c:65-65 | Wrapped counter subtraction gives the used bytes, and the free space computed in put is the capacity minus these |
| Words.AdvanceOut | src/ringbuffer.c:46-49 | What the used amount becomes, modulo the word, when `_out` is advanced by any size_t |
| Words.WrapKeepsSlot | src/ringbuffer.c:54-58 | A counter and its wrapped value address the same byte |
| RingBuffers.StoreAt | src/ringbuffer.c:66-70 | The two-part copy puts each byte into its own slot and leaves all other slots alone |
| RingBuffers.StoreAppends | src/ringbuffer.c:66-70 | Seen from the read position, the two-part copy appends the data |
| RingBuffers.FetchIsWindow | src/ringbuffer.c:54-58 | The two-part copy of get yields the bytes from the read position on |
| RingBuffers.DropWindow | src/ringbuffer.c:59-59 | Advancing the read counter, also over the word boundary, drops the first bytes |
| RingBuffers.RingBuffer.constructor | src/ringbuffer.c:26-36 | A power-of-two capacity gives an empty ring |
| RingBuffers.RingBuffer.Put | src/ringbuffer.c:63-73 | Appends exactly the first min(size, free) bytes and returns how many |
| RingBuffers.RingBuffer.Get | src/ringbuffer.c:51-61 | Returns and removes exactly the first min(size, used) bytes, leaving the rest of the caller's buffer alone |
| RingBuffers.RingBuffer.MoveReadPosition | src/ringbuffer.c:46-49 | The ring stays consistent if and only if the move skips at most the used bytes or, as a move back, fits the free space; and which bytes it then holds |
| RingSpsc.Amounts | src/ringbuffer.c:53-65 | Used and free computed on wrapped counters are the true amounts in every state of the concurrent machine |
| RingSpsc.PutWritesFreeSlot | src/ringbuffer.c:66-70 | Each byte the producer writes goes inside the ring into a slot of no byte still to be got |
| RingSpsc.GetReadsPutByte | src/ringbuffer.c:54-58 | Each byte the consumer reads is inside the ring and is the byte put there |
| RingSpsc.InvStep | src/ringbuffer.c:51-73 | Every byte-level step of producer and consumer keeps the invariant |
| RingSpsc.GotIsPrefixOfPut | src/ringbuffer.c:51-73 | Under every interleaving, up to a first overrun, all bytes got are a prefix of all bytes put, at most one capacity behind |
| RingAmounts.PutPublishes | src/ringbuffer.c:63-73 | Beside a running consumer a put publishes all its bytes if there is more room when it starts, and else the first n, n being the room at its second reading |
| RingAmounts.GetTakes | src/ringbuffer.c:51-61 | Beside a running producer a get takes exactly its size if more is there when it starts, and else all that is there at its second reading; they are the next bytes put |
| RingSpsc.OverrunExactly | src/ringbuffer.c:16-16 | No step leaves the ring or a caller's buffer, except a second evaluation inside `_min_` that sees more than was asked for |
| RingSpsc.UndisturbedPutFits | src/ringbuffer.c:65-65 | A put during whose comparison nothing is got stays within its size |
| RingSpsc.UndisturbedGetFits | src/ringbuffer.c:53-53 | A get during whose comparison nothing is put stays within its size |
| RingOverruns.GetOverrunsExactly | src/ringbuffer.c:53-53 | A get can go beyond its caller's buffer, under some behaviour of the producer, if and only if it asks for at least the used bytes but for less than a capacity (and the producer's own put is not about to overrun) |
| RingOverruns.PutOverrunsExactly | src/ringbuffer.c:65-65 | A put can, under some behaviour of the consumer, if and only if it brings at least the free space but less than a capacity (and the consumer's own get is not about to overrun) |
| RingOverruns.SafeCallsNeverOverrun | src/ringbuffer.c:51-73 | A run whose calls all ask for less than they see or for at least a capacity never overruns |
| RingOverruns.FirstUnsafeCallMayOverrun | src/ringbuffer.c:51-73 | After any run of such calls, the next call can overrun if and only if it is not one of them |
| RingOverruns.NewRingMayOverrun | src/ringbuffer.c:16-16 | Both failures are reachable on every new ring: a get at once, a put once the ring is full |
| RingOverruns.FillUp | src/ringbuffer.c:63-73 | The producer can fill the ring while a get stands still |
| RingOverruns.DrainAll | src/ringbuffer.c:51-61 | The consumer can empty it while a put stands still |
| UxTable.LookupAt | src/uxscheduler.c:72-83 | The search finds the one entry of a descriptor, exactly if there is one |
| UxTable.TableIsDetermined | src/uxscheduler.c:320-379 | Order and entries determine the table |
| UxTable.ApplyUpdates | src/uxscheduler.c:320-379 | Add, remove, enable and disable refine an insertion-ordered map with at most one entry per descriptor and none for 0 |
| UxTable.EnableAdds | src/uxscheduler.c:356-363 | Bit for bit, enabling adds the given conditions to those of a registered descriptor and changes nothing else; an unknown one is left alone |
| UxTable.DisableDrops | src/uxscheduler.c:347-354 | Bit for bit, disabling takes the given conditions away and changes nothing else |
| UxTable.AddSets | src/uxscheduler.c:320-345 | Adding gives the descriptor exactly these conditions and this handler, registered before or not; a new one goes last; no conditions is a removal |
| UxTable.RmRemoves | src/uxscheduler.c:365-370 | Removing leaves all others, in their order |
| UxTable.OthersUntouched | src/uxscheduler.c:320-379 | No operation touches another descriptor's entry, and adding descriptor 0 does nothing |
| UxTable.ZeroIsNeverIn | src/uxscheduler.c:322-324 | Descriptor 0 is never registered |
| UxScheduler.UxScheduler.Start | src/uxscheduler.c:275-291 | A first start takes the delay over unless it exceeds 60000, then 1000; a second changes nothing |
| UxScheduler.UxScheduler.Find | src/uxscheduler.c:72-83 | The loop stops at the first entry of the descriptor |
| UxScheduler.UxScheduler.AddEvent | src/uxscheduler.c:320-345 | The map update of add, also with no conditions (a removal) and descriptor 0 (refused) |
| UxScheduler.UxScheduler.DisableEvent | src/uxscheduler.c:347-354 | The map update of disable |
| UxScheduler.UxScheduler.EnableEvent | src/uxscheduler.c:356-363 | The map update of enable |
| UxScheduler.UxScheduler.RmEvent | src/uxscheduler.c:365-379 | The map update of rm |
| UxScheduler.UxScheduler.BuildSets | src/uxscheduler.c:110-118 | The loop builds the descriptors that want to read and to write, in table order |
| UxScheduler.UxScheduler.VisitSet | src/uxscheduler.c:151-166 | The dispatch loop makes the calls and leaves the table that the round's specification gives, whatever the handlers do to the table |
| UxScheduler.UxScheduler.Dispatch | src/uxscheduler.c:149-166 | The same for both sets, the readable first |
| EntryLists.EntryList.Find | include/awe/dlist.h:204-205 | The forward iteration stops at the first node whose entry matches, or at the head |
| EntryLists.EntryList.Size | src/uxscheduler.c:62-70 | The count is the number of entries |
| EntryLists.EntryList.Append | include/awe/dlist.h:77-80 | Linking a node in front of the head appends its entry |
| EntryLists.EntryList.Delete | include/awe/dlist.h:100-105 | Unlinking a node removes its entry and no other |
| EntryLists.EntryList.Update | src/uxscheduler.c:336-340 | Rewriting a node's entry changes that entry only |
| UxEventLists.FindEvent | src/uxscheduler.c:72-83 | The search over the nodes is the table's search |
| UxEventLists.AddEvent | src/uxscheduler.c:320-345 | On linked nodes, add is the table's add |
| UxEventLists.DisableEvent | src/uxscheduler.c:347-354 | On linked nodes, disable is the table's |
| UxEventLists.EnableEvent | src/uxscheduler.c:356-363 | On linked nodes, enable is the table's |
| UxEventLists.RmEvent | src/uxscheduler.c:365-370 | On linked nodes, rm is the table's |
| UxRound.SetIsExact | src/uxscheduler.c:110-118 | A set names each registered descriptor with that condition once and nothing else, never descriptor 0, so its insertions fit `ufd_size` |
| UxRound.CalledOnlyWhileRegistered | src/uxscheduler.c:149-166 | Each handler called is the one registered at that moment, and sees the table as the handlers before it left it |
| UxRound.RemovedIsNotCalled | src/uxscheduler.c:149-166 | A descriptor gone at some call is not called later in the round unless a handler registers it again |
| UxRound.RegisteredIsCalled | src/uxscheduler.c:149-166 | A reported descriptor that stays registered is called |
| UxRound.ReportedIsCalled | src/uxscheduler.c:149-166 | In a whole round every descriptor reported readable (writable) that is registered and stays so is called for reading (writing) |
| UxRound.ReadsThenWrites | src/uxscheduler.c:149-166 | All calls for reading come before all calls for writing, and no descriptor of a set is called twice for it |
| UxRound.LastOperation | src/uxscheduler.c:155-155 | A handler's operations on the table take effect one after the other |
| UxRound.RemovedByHandlerIsNotCalled | src/uxscheduler.c:149-166 | A descriptor that a handler removes last of all is not called later in the round unless a later handler registers it again |
| UxRound.WaitsUntilFirstDue | src/uxscheduler.c:120-131 | For a non-negative delay and a first task whose difference fits int32, the wait is between 0 and the delay, never longer than until any pending task is due, and equal to one of these |
| UxRound.WaitIsBoundedExactly | src/uxscheduler.c:125-130 | For a positive delay and a first task less than 2^32 ms overdue, no pending task is overslept if and only if the first is at most 2^31 ms overdue |
| UxRound.NegativeDelayWaitsForever | src/uxscheduler.c:126-143 | The wait respects the first task if and only if the configured delay is non-negative or the task is overdue |
| UxRound.TimeoutEncodesDelay | src/uxscheduler.c:138-143 | The timeval is normalised and encodes exactly that many milliseconds |
| UxRound.TakenExactlyWhenDue | src/uxscheduler.c:183-191 | Within 2^32 ms the cast difference decides dueness correctly if and only if the difference fits int32 |
| RefLists.NodeAdded | src/linkedlist.c:59-64 | Adding an object to a list adds one owner and one count |
| RefLists.NodeMoved | src/linkedlist.c:40-48 | Removing a node hands its reference to the caller; no count changes |
| RefLists.ReferenceDropped | src/scheduler.c:115-128 | A release gives one reference back and frees the object exactly when it was the last |
| RefLists.World.Create | include/awe/object.h:16-16 | A new object has one outside owner |
| RefLists.World.AddRef | include/awe/object.h:17-17 | One more outside owner, one more count |
| RefLists.World.Release | src/scheduler.c:115-128 | The object is freed exactly when no outside owner and no list node is left; other counts stay |
| RefLists.World.Add | src/linkedlist.c:59-64 | Appends to one list; size and all counts stay right |
| RefLists.World.Find | src/linkedlist.c:128-139 | The loop stops at the first matching node |
| RefLists.World.Remove | src/linkedlist.c:74-87 | Takes the first match off and transfers its reference; nothing else changes |
| RefLists.World.Del | src/linkedlist.c:89-126 | Takes the first match off and releases its reference |
| RefLists.World.Clear | src/linkedlist.c:141-153 | Releases one reference per node and leaves the list empty |
| ObjectLists.Add | src/linkedlist.c:35-38 | On linked nodes, add keeps the list in step with the reference counts |
| ObjectLists.Remove | src/linkedlist.c:74-87 | On linked nodes, the first match leaves and its reference goes to the caller |
| ObjectLists.Del | src/linkedlist.c:89-126 | On linked nodes, the first match leaves and its reference is released |
| Connections.ReleaseKeepsBalance | src/connection.c:101-122 | After a release and its cascade every count is again handles plus live bindings |
| Connections.AllocatedIffOwned | src/connection.c:87-122 | A connection is allocated if and only if a handle leads to it along bindings: no leak, no dangling binding |
| Connections.ReleaseFreesTheUnowned | src/connection.c:101-122 | A release frees exactly the connections that no remaining handle leads to |
| Connections.DestroyedByExactly | src/connection.c:101-122 | The cascade destroys exactly the connections it frees, each once, and begins (and closes) a connection before the one it is bound to |
| Connections.ClosesExactly | src/connection_impl.c:15-22 | The descriptors that destroying some connections closes are the open ones among theirs, each as often as it is held |
| Connections.CascadeBelow | src/connection.c:101-110 | The connection under destruction is out of the reach of its own cascade |
| Connections.NewKeepsBalance | src/connection.c:67-90 | A new connection, bound or not, keeps counts equal to owners and bindings acyclic |
| Connections.CallsNullExactly | src/connection.c:132-134 | A release calls through a null `_impl` if and only if a connection it would free has none |
| Connections.Connections.Create | src/connection.c:23-90 | The new handle has one reference, its descriptor and its interface; a binding adds one to its target and nothing else changes |
| Connections.Connections.Stream | src/connection.c:23-38 | A stream connection, unbound |
| Connections.Connections.Dgram | src/connection.c:44-61 | Gives a connection for AF_INET and AF_INET6, and for any other family, and only then, faults by closing through a null `_impl` |
| Connections.Connections.Ux | src/connection.c:67-90 | A UX connection, bound to the one that carries it, which gains a reference |
| Connections.Connections.AddRef | src/connection.c:96-99 | One more handle, one more count |
| Connections.Connections.Close | src/connection_impl.c:15-22 | Closes an open descriptor once; a second close does nothing; without an interface it faults |
| Connections.Connections.Autorelease | src/connection.c:112-122 | The whole effect of releasing a handle, without a fault: who is freed, which descriptors are closed, in the order of the bindings, and memory given back in the opposite order; a null handle does nothing |
| Connections.Connections.Destroy | src/connection.c:101-110 | Close, then release the binding, then free, or the first fault on the way |
| Schedulers.CallStep | src/scheduler.c:341-467 | With any token a call keeps lists, records and watchers consistent, and it uses a missing record if and only if it enables or disables a token that is not a live watcher's |
| Schedulers.StaleTokenIsHarmless | src/scheduler.c:385-467 | Restarting or destroying a stale token changes nothing |
| Schedulers.TimerCallbackIsSafe | src/scheduler.c:154-168 | The read behind the callback is of a live record if and only if the callback did not destroy its own token; and no freed watcher stays active if and only if, besides, a delayed task did not restart itself |
| Schedulers.IoCallbackIsSafe | src/scheduler.c:140-143 | An io callback may destroy any token, its own too |
| Schedulers.StepIsSafe | src/scheduler.c:140-467 | A step is safe and keeps the account if and only if it obeys the stated rules |
| Schedulers.EachRecordFreedOnce | src/scheduler.c:341-467 | In every state of every rule-abiding run each record is allocated and listed once, or has been freed once |
| Schedulers.FreedNeverFires | src/scheduler.c:385-467 | No callback is made for a freed record |
| Schedulers.DelayedRunsAtMostOnce | src/scheduler.c:154-168 | A delayed task fires at most once and its record is freed then |
| SchedulerTokens.TimerLives | src/scheduler.c:402-446 | Over whole runs a timer keeps its kind and callback until its token is destroyed, a delayed one also until it fires; its argument is that of its last restart; it runs unless it fired and was not restarted; so a periodic task outlives its firings |
| SchedulerTokens.WatcherLives | src/scheduler.c:341-383 | Over whole runs a watcher keeps its callback until its token is destroyed, with the conditions it was created with as switched since, and is watched unless nothing was left when it was last switched |
| Schedulers.Scheduler.Watch | src/scheduler.c:341-355 | The new record is listed with one reference and is active |
| Schedulers.Scheduler.NewTimer | src/scheduler.c:402-417 | The same for a timer |
| Schedulers.Scheduler.TaskAgain | src/scheduler.c:429-446 | Restarts a listed timer with the new argument, refuses any other token |
| Schedulers.Scheduler.SockTokenDestroy | src/scheduler.c:385-399 | Stops, unlists and frees a listed record; any other token only becomes null |
| Schedulers.Scheduler.TaskTokenDestroy | src/scheduler.c:451-467 | The same for a timer |
| Schedulers.Scheduler.Enable | src/scheduler.c:372-383 | Adds conditions and runs the watcher; a token that is not a live watcher's is used all the same, and this is reported |
| Schedulers.Scheduler.Disable | src/scheduler.c:357-370 | Removes conditions, the watcher runs while any is left; likewise |
| Schedulers.Scheduler.TimerCallback | src/scheduler.c:154-168 | For any callback: its calls, the read behind it, and the deletion of a non-periodic record, or the use of a freed record |
| Schedulers.Scheduler.Unlink | src/linkedlist.c:74-87 | The search goes by identity and takes one node off |
| Connectors.DestroysFree | src/connector.c:105-110 | Both records of the connector are gone and all others unchanged |
| Connectors.UseKeeps | src/connector.c:52-110 | Open, close, takeout, handler changes and foreign scheduler calls keep tokens and records in step, and every open answered, given up or waiting |
| Connectors.OpenWaits | src/connector.c:52-74 | An open waits for the connection to become writable and for its timeout; one that fails waits for nothing |
| Connectors.CloseGivesUp | src/connector.c:82-110 | Closing, taking out and removing the handler let go of both records, touch no other, and give a waiting open up |
| Connectors.SetHandlerWatches | src/connector.c:97-103 | A handler is set only where there is none, and waits for reading |
| Connectors.WaitingIsWatched | src/connector.c:63-68 | In every state of a run the loop watches the connection of a waiting open for writing and runs its timer |
| Connectors.EnteredKeeps | src/connector.c:15-30 | When a handler calls the program, both tokens are cleared and the open is counted as answered |
| Connectors.TimeoutReadsFreedRecord | src/connector.c:25-30 | Whenever the connect timeout fires, the timer callback behind it reads a freed record |
| Connectors.StepKeeps | src/connector.c:15-110 | A step is safe and keeps the account if and only if the timeout does not fire and no other timer's callback destroys or restarts its own timer |
| Connectors.OneAnswerPerOpen | src/connector.c:52-74 | From any point of a run in which the timeout has not fired, the program is notified at most once for each open waiting there or made since |
| Connectors.OneAnswerWithTimeout | src/connector.c:25-30 | The same when the run ends in a firing timeout, up to the read of the freed record; the timeout is the one answer to its open |
| Connectors.Connector.RmEventHandler | src/connector.c:82-110 | Destroys both tokens; a waiting open is given up |
| Connectors.Connector.Takeout | src/connector.c:89-95 | The same, and the connection is handed out |
| Connectors.Connector.Open | src/connector.c:52-74 | Timer first, then watcher; on failure nothing is left registered |
| Connectors.Connector.SetEventHandler | src/connector.c:97-103 | Registers a watcher only if there is no token |
| Connectors.Connector.Answer | src/connector.c:15-23 | The answer goes out after both records are gone |
| UxConnectors.StepKeeps | src/connector.c:113-227 | While the connect handler is registered its timeout is listed and valid, or the scheduler was stopped when the open posted it |
| UxConnectors.AssertionFailsExactly | src/connector.c:115-115 | In every run the connect handler's assertion fails if and only if the scheduler has been stopped by then, or was when the open posted its timeout |
| UxConnectors.BlindIsOpenedStopped | src/uxscheduler.c:384-387 | The recorded circumstance is that of the last open of the run |
| UxConnectors.StopDuringRoundAborts | src/uxscheduler.c:299-306 | A concrete run: a stop from another thread while a round is about to call the handler aborts the process |
| UxConnectors.EachOpenAnsweredOnce | src/connector.c:113-227 | As long as the scheduler is not stopped after its start, each open that posted its timeout is answered once, or given up once, or still waits |
| UxConnectors.OpenWaits | src/connector.c:150-160 | An open registers the connect handler for writing and lists a new timeout |
| UxConnectors.OpenFails | src/connector.c:166-175 | An open that fails leaves nothing registered and posts nothing |
| UxConnectors.CloseDisarms | src/connector.c:201-227 | A close removes the connection's entry, and no timeout calls after it if the scheduler is started |
| UxConnectors.SetHandlerReads | src/connector.c:217-220 | The handler set afterwards is called for reading |
| UxConnectors.UxConnector.Open | src/connector.c:150-176 | Posts the timeout, then registers the handler; on failure nothing is left registered |
| UxConnectors.UxConnector.RmEventHandler | src/connector.c:222-227 | Removes the descriptor's entry and marks the timeout, if the scheduler is started |
| UxConnectors.UxConnector.ConnectHandling | src/connector.c:113-121 | Cancels the timeout or aborts, then removes the entry and answers |
| UxConnectors.UxConnector.ConnectTimeout | src/connector.c:123-129 | Closes, then answers |
| RingArrays.FinishWrite | src/ringarray.c:53-69 | A finished write appends its element and keeps the indices consistent |
| RingArrays.FinishRead | src/ringarray.c:70-86 | A finished read that is not refused removes the first element |
| RingArrays.ReadRemovesExactly | src/ringarray.c:78-81 | With the guard of the write side every read token removes; as written a token removes if and only if it is not 0 |
| RingArrays.StepKeeps | src/ringarray.c:53-86 | Tokens in use stay current whatever the other side does |
| RingArrays.ReadyRefuses | src/ringarray.c:53-77 | A write is refused exactly if the ring is full, a read exactly if it is empty |
| RingArrays.WriteAppends | src/ringarray.c:61-69 | A write that was given a slot puts its element last, a refused one does nothing |
| RingArrays.ReadGetsFirst | src/ringarray.c:78-86 | A read that was given a slot gets the first element, and removes it if its token is not refused |
| RingArrays.QueueWithWriteGuard | src/ringarray.c:61-64 | With the write side's guard the ring is a bounded first-in-first-out queue under every interleaving of calls |
| RingArrays.NothingLeavesAsWritten | src/ringarray.c:78-86 | As written, from creation nothing is ever removed, at most `capacity` writes are accepted, and every read yields the first element |
| RingArrays.RingArray.WriteReady | src/ringarray.c:53-60 | Gives the write slot, or -2 exactly when the ring is full |
| RingArrays.RingArray.WriteFinish | src/ringarray.c:61-69 | For the current token, appends the element of the slot and keeps the indices consistent; a refused token changes nothing |
| RingArrays.RingArray.ReadReady | src/ringarray.c:70-77 | Gives the slot of the first element, or -2 exactly when the ring is empty |
| RingArrays.RingArray.ReadFinish | src/ringarray.c:78-86 | For the current token, removes the first element if the token is above 0, else nothing; the indices stay consistent |

## Left out

- Liveness: that a due task is eventually run, that a stop eventually returns. Only safety is stated.
- Weak memory: all steps of the looper and of the byte ring are sequentially consistent.
- LooperRuns.EachTaskInOnePlace: a task id is a number that is not reused; the C code uses addresses, so a stale id may meet a new task at the same address.
- Looper: deadlines are unbounded integers, so overflow of the 64-bit sum of clock and delay is not modelled; a stop called from inside a proc (src/looper.c:144) is not modelled either.
- LooperControl.StopLeavesNoWorker: for control operations that do not overlap; LooperOverlaps says what holds when they do.
- LooperControl.NoProcAfterStop: likewise.
- LooperControl.NothingLeftAfterDestroy: likewise.
- LooperOverlaps.ClearCrashesExactly: for awe_looper_clear itself; the clear inside awe_looper_destroy ends the model, so what a worker left behind does with the freed looper is not described.
- UxScheduler.UxScheduler.RmEvent: a removal by another thread during the unlocked dispatch, with its bounded wait for the end of the round, is not modelled.
- UxScheduler.UxScheduler.Start: the thread that is started, its assertion and the returned status are those of the looper and are not modelled again.
- RingSpsc.GotIsPrefixOfPut: a run ends at its first overrun, because memory outside the ring is not modelled; RingOverruns says which calls can bring one about.
- UxScheduler: the thread loop around the rounds follows the looper's pattern and is not modelled again; post and cancel are those of TimerTasks.
- RefLists.World.Clear: the safe iteration that empties a list is proved on nodes for the timer list (TimerTasks.TimerTaskList.Clear) and on sequences here.
- Connections.Connections.Create: addresses and identifiers are left out; opening, reading and writing are system calls.
- Schedulers: libev is a set of active watchers that it may fire in any order; the order of expiry, the trigger socketpair and awe_scheduler_stop, which frees records without stopping their watchers (src/scheduler.c:308-310), are outside the model. All calls are between start and stop and on the loop's thread.
- Connectors.OneAnswerPerOpen: a run ends with the first firing timeout, because the code behind it reads freed memory; Connectors.OneAnswerWithTimeout covers it up to that read.
- Connectors.Connector.SetEventHandler: for a connector that holds a connection in between, since a watcher set without one would be overwritten by the next open; the connection itself is a flag here.
- UxConnectors.AssertionFailsExactly: the connector is used on the thread of its scheduler, where posting the timeout and registering the handler are not interrupted; deadlines are left out, so any listed task may be taken; what the program does inside its callbacks follows as further steps.
- RingArrays: the Ready and Finish calls are atomic and paired; `_nmemb` is neither atomic nor locked in the code, so calls that overlap in time are not covered.
- Sockets, the UX transport, logging, allocation failure, packets and pools.
