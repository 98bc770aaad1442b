# Verification of the RocketMQ C++ client's concurrency, printing and storage code

This project models, in Dafny, the parts of the client and of its bundled libraries
in which a mistake would be hard to see, and proves what those parts are for. There is
one module per component.

Concurrent components are state machines: a state, a step relation with one step per
atomic action of the code, an inductive invariant, and theorems about every state of
every run with any number of threads (`Runs` holds the inductions; `Lists` and `Words`
hold facts that several modules share). Single-threaded
components, and those whose every operation runs under one lock, are classes with
arrays, sequences and maps for fields; each method is proved against a specification
function, and the promises are proved about that function.

- `MpmcQueue` (with `Bits`, `Fifo`), `MpmcTrace`: spdlog's lock-free bounded queue refines an
  atomic FIFO, and answers false only when it was full or empty.
- `AsyncLogger`: the asynchronous logger over that FIFO delivers everything, once, in order.
- `CondImpl`, `CondTrace`: the condition variable that kpr builds from semaphores on Windows wakes exactly the right threads.
- `RecursiveMutex`, `MutexTrace`: the recursive mutex with condition hand-off excludes and does
  not deadlock, its depth counted from the calls that came back.
- `Monitor`, `MonitorSections`: deferred notifications reach the condition section by section.
- `ThreadPool`, `TimerThread`, `TimerTasks`: the pool's queue and limits, the timer's
  firings, and the flag that keeps two runs of a timer task apart.
- `RotatingSink`: the rotating log files as a shift register over the log's history.
- `BatchAllocator`: bump pointer and free list, blocks at page and offset addresses.
- `JsonValue`, `JsonOrder`: the order and equality of JSON values.
- `Numerals`, `JsonText`, `Rfc8259`, `JsonMeaning`, `JsonRoundTrip`, `JsonWriters`, `JsonStrip`,
  `JsonLayout`, `JsonReading`, `JsonIndent`, `JsonStyled`: an RFC 8259 parser finds in the
  documents of the three JSON printers what says the value, and the printers agree.
- `FmtCount`, `FmtInt`, `FmtWriter`, `FmtFields`: digit counts, decimal writing and `write_int` of fmt.
- `FmtSyntax`, `FmtScanner`, `FmtLaws`, `FmtRoundTrip`, `FmtMeaning`, `FmtSpelling`: the
  format-string scanner of fmt, a single pass that equals reading first and evaluating
  afterwards, and what a format string asks for.

## Where the code does not keep the promise

Each of these is stated as a theorem, with the exact condition or an input that shows it.

- `parse_nonnegative_int` reads 5000000000 as 705032704: its wrap test does not notice
  every overflow (`FmtLaws.NumberReadRightIff`, `FmtLaws.MissedOverflow`).
- The field `{:}` takes its alignment from the character behind its closing brace, so
  `{:}=` applies numeric alignment, which a character argument refuses
  (`FmtRoundTrip.EmptySpecificationLooksAhead`).
- `RemoveIdleThreads` may leave fewer running workers than the minimum when a worker
  told to stop is still listed (`ThreadPool.MinimumKeptIffNoneStopping`), and such a pool
  is reached in three calls (`ThreadPool.BelowMinimumIsReachable`).
- A message logged at level off stops the asynchronous logger like the destructor's own:
  later messages are never delivered (`AsyncLogger.DeliveredIffNoStrayOff`,
  `AsyncLogger.StrayOffLosesMessages`), and once the queue behind the stopped worker is
  full, and only then, calls and the destructor never return (`AsyncLogger.CallReturnsIff`,
  `AsyncLogger.BlockedIsReachable`).
- The printers count array elements in an int: an array with the element 2147483648 is
  printed as if it were empty (`JsonWriters.CountIsRightIff`, `JsonWriters.LargeIndexIsNotCounted`),
  and from 715827883 elements on the styled writers' margin test overflows
  (`JsonStyled.MarginTestRightIff`).
- A stream writer's indentation that is not blank shows in every document that breaks
  (`JsonLayout.DocumentIsBareIff`).
- The pool's constructor exceeds a maximum of 1 to 4 that is below the minimum asked for,
  because the minimum is then reset to 5 (`ThreadPool.ThreadPool.constructor`,
  `ThreadPool.StartAboveMaximum`).
- `async_msg`'s move constructor drops `thread_id`; the queue only uses the assignment
  (`AsyncLogger.MoveConstructionLosesThreadId`).
- `BatchAllocator` leaves its page when objectPerAllocation does not divide
  objectsPerPage (`BatchAllocator.PageSafeIffDivides`, `BatchAllocator.PageOf255LeavesItsMemory`).

## Model

| member | source | states |
|---|---|---|
| `MpmcQueue.Construct` | libs/spdlog/include/spdlog/details/mpmc_bounded_q.h:78-90 | accepts exactly the powers of two from 2 up and starts cell i with sequence i |
| `MpmcQueue.SlotIsRemainder` | libs/spdlog/include/spdlog/details/mpmc_bounded_q.h:104 | masking a position with size - 1 is its remainder modulo the size |
| `MpmcQueue.NextKeepsInv` | libs/spdlog/include/spdlog/details/mpmc_bounded_q.h:98-149 | every atomic step of every thread keeps the invariant that ties cells, tickets, positions and history together |
| `MpmcQueue.InvHolds` | libs/spdlog/include/spdlog/details/mpmc_bounded_q.h:98-149 | the invariant holds in every state of every run, for any number of threads |
| `MpmcQueue.StepRefinesFifo` | libs/spdlog/include/spdlog/details/mpmc_bounded_q.h:98-149 | a step that wins enqueue_pos puts its item at the back of an atomic FIFO, one that wins dequeue_pos takes the front item, and no other step changes the FIFO |
| `MpmcQueue.RefinesFifo` | libs/spdlog/include/spdlog/details/mpmc_bounded_q.h:98-149 | along every run the queue moves as an atomic FIFO bounded by the buffer size |
| `MpmcQueue.NothingLostOrDuplicated` | libs/spdlog/include/spdlog/details/mpmc_bounded_q.h:98-149 | 0 <= enqueue_pos - dequeue_pos <= size; the item delivered under ticket k is the item stored under ticket k; an undelivered ticket is held by exactly one dequeuer |
| `MpmcQueue.UndeliveredIsHeld` | libs/spdlog/include/spdlog/details/mpmc_bounded_q.h:126-149 | a claimed ticket whose item is not delivered yet belongs to some thread inside dequeue |
| `MpmcQueue.QuiescentContents` | libs/spdlog/include/spdlog/details/mpmc_bounded_q.h:98-149 | with no call in progress the delivered tickets are exactly those below dequeue_pos and the others lie in order in their cells |
| `MpmcQueue.NoDataRace` | libs/spdlog/include/spdlog/details/mpmc_bounded_q.h:121-147 | two threads about to touch the data of a cell never have the same cell |
| `MpmcQueue.EnqueueSeesFull` | libs/spdlog/include/spdlog/details/mpmc_bounded_q.h:101-115 | the sequence loaded is below pos if and only if ticket pos - size is not completely dequeued; what enqueue then answers is `MpmcTrace.EnqueueReturns` |
| `MpmcQueue.DequeueSeesEmpty` | libs/spdlog/include/spdlog/details/mpmc_bounded_q.h:129-142 | the sequence loaded is below pos + 1 if and only if pos is the head ticket and its item is not published |
| `MpmcTrace.EnqueueReturns` | libs/spdlog/include/spdlog/details/mpmc_bounded_q.h:101-124 | in every run: enqueue returns false exactly when, in the state in which it loaded the sequence, the buffer was full up to its position and ticket pos - size not yet taken; when the ticket was already published it loads again; otherwise it claims the ticket or tries the next one |
| `MpmcTrace.DequeueReturns` | libs/spdlog/include/spdlog/details/mpmc_bounded_q.h:129-149 | dequeue returns false exactly when, in the state in which it loaded the sequence, its position was the head ticket and the item there not published; when the ticket was already taken it loads again |
| `MpmcTrace.EnqueueAlone` | libs/spdlog/include/spdlog/details/mpmc_bounded_q.h:98-124 | an enqueue left to run alone ends after at most five steps: false if ticket tail - size has not been taken, and otherwise the item published under the tail ticket |
| `MpmcTrace.DequeueAlone` | libs/spdlog/include/spdlog/details/mpmc_bounded_q.h:126-149 | a dequeue left to run alone ends after at most five steps: false if the head ticket is not published, and otherwise with the item stored under it |
| `CondImpl.NextKeepsInv` | src/kpr/Condition.cpp:42-112 | every step of Notify, PreWait, Wait and postwait keeps the invariant over gate, token, counters and wave |
| `CondImpl.WavesAreExact` | src/kpr/Condition.cpp:42-112 | in every run each finished broadcast released exactly its targets and each finished single notify exactly one of them |
| `CondImpl.GateSeesCompletedPreWaits` | src/kpr/Condition.cpp:42-71 | a notifier that passes the gate finds exactly the threads that have completed PreWait |
| `CondImpl.DecisionUsesGateSnapshot` | src/kpr/Condition.cpp:47-63 | the notifier starts a wave on exactly that set, sized for a broadcast or a single notify, or reopens the gate when it is empty |
| `CondImpl.ReleasedWasTarget` | src/kpr/Condition.cpp:66-112 | a thread that takes the wake-up token was a target of the wave and had not been released before: a later PreWait cannot steal it |
| `CondImpl.LastReleaseCompletes` | src/kpr/Condition.cpp:94-106 | when the last quota is used up the wave is complete: all targets after a broadcast, one after a notify |
| `CondImpl.GateReopenedOncePerWave` | src/kpr/Condition.cpp:97-106 | while a wave is on the gate stays shut and no release is undone; the one step that ends it opens the gate and leaves no token or quota behind |
| `CondImpl.WaveCanContinue` | src/kpr/Condition.cpp:42-112 | in every reachable state of a wave some thread inside a call can take a step |
| `CondImpl.StepShortensWave` | src/kpr/Condition.cpp:42-112 | a new call costs a wave nothing, and every other step inside it brings it nearer its end |
| `CondImpl.WavesAreBounded` | src/kpr/Condition.cpp:42-112 | within a wave the threads inside calls take at most six steps for each target and seven more, and while it is on one of them can take the next: every wave ends |
| `CondImpl.HistoryBlocksNothing` | src/kpr/Condition.cpp:42-112 | in every reachable state a thread can step if and only if the semaphore or mutex it is about to take lets it: what the steps record of the history holds nothing back |
| `CondTrace.WakeUpsAreExact` | src/kpr/Condition.cpp:42-112 | end to end, by program counters: behind every finished wave is one Notify or NotifyAll that passed the gate, decided, and whose wave opened the gate again; the threads released in between are exactly those that had completed PreWait when it passed the gate, or exactly one of them, and the gate stayed shut |
| `CondTrace.DecisionBefore` | src/kpr/Condition.cpp:42-63 | a wave that is on was started by a call that passed the gate and decided; its targets are the threads waiting at that gate step and its released threads those released since the decision |
| `RecursiveMutex.NextKeepsInv` | src/kpr/Mutex.cpp:99-271 | every step of lock, tryLock, unlock, GetOwner and a condition wait keeps the invariant over m_count, m_owner, m_internal and m_mutex |
| `RecursiveMutex.MutualExclusion` | src/kpr/Mutex.cpp:125-254 | in every run at most one thread has a positive depth outside a wait, and m_count is that depth; that depth counts the calls is `MutexTrace.DepthIsCounted` |
| `RecursiveMutex.WaitRegainsDepth` | src/kpr/Condition.cpp:123-141 | a thread that waits on the condition comes back as owner with exactly the depth it gave up |
| `RecursiveMutex.InternalHolderIsServed` | src/kpr/Mutex.cpp:125-226 | whoever blocks on m_mutex while it has m_internal waits for a thread whose next step gives m_mutex back without m_internal |
| `RecursiveMutex.NoDeadlock` | src/kpr/Mutex.cpp:125-271 | while a call is unfinished, some call can take a step or m_mutex is held by a thread running protected code |
| `RecursiveMutex.GetOwnerIsExact` | src/kpr/Mutex.cpp:114-123 | GetOwner names the caller if and only if the caller holds the mutex |
| `MutexTrace.DepthIsCounted` | src/kpr/Mutex.cpp:125-254 | along every run the recorded depth of a thread is the number of its Lock and successful tryLock calls that have come back less its Unlock calls, counted from program counters, up to the call in progress |
| `MutexTrace.SectionsExclude` | src/kpr/Mutex.cpp:125-254 | mutual exclusion by calls: no two threads are between a Lock and the Unlock that undoes it, nested or not, and m_count is the number of the owner's Lock calls not yet undone |
| `MutexTrace.LockIsRight` | src/kpr/Mutex.cpp:125-183 | Lock waits exactly when the mutex is another thread's own, enters once more when it is the caller's, and takes it when it is nobody's |
| `MutexTrace.TryLockIsRight` | src/kpr/Mutex.cpp:185-226 | tryLock fails exactly when the mutex is another thread's own, enters once more when it is the caller's, and takes it when it is nobody's |
| `MutexTrace.UnlockIsRight` | src/kpr/Mutex.cpp:228-254 | Unlock gives the mutex up exactly when it undoes the last Lock |
| `MutexTrace.WaitSavesAll` | src/kpr/Condition.cpp:123-141 | a condition wait saves exactly the number of Lock calls not yet undone |
| `Monitor.Monitor.constructor` | src/kpr/Monitor.cpp:20-28 | a fresh monitor has no owner, a notification count of zero and an empty ledger |
| `Monitor.Monitor.DoLock` | src/kpr/Monitor.cpp:83-89 | the ledger takes a Lock; what a section then delivers, by its calls alone, is `MonitorSections.SectionDelivers` |
| `Monitor.Monitor.DoUnlock` | src/kpr/Monitor.cpp:91-99 | only the outermost Unlock passes the section's notifications on, before the mutex is given up |
| `Monitor.Monitor.DoNotify` | src/kpr/Monitor.cpp:66-74 | a Notify is recorded for the section and nothing is signalled yet |
| `Monitor.Monitor.DoNotifyAll` | src/kpr/Monitor.cpp:76-81 | a NotifyAll replaces whatever count was pending |
| `Monitor.Monitor.BeginWait` | src/kpr/Monitor.cpp:30-46 | a wait passes the pending notifications on first and gives the whole depth up |
| `Monitor.Monitor.EndWait` | src/kpr/Monitor.cpp:36-46 | after a wait the section starts without pending notifications |
| `Monitor.Monitor.Flush` | src/kpr/Monitor.cpp:101-119 | the condition receives one broadcast for -1 and otherwise that many signals |
| `Monitor.PendingAppend` | src/kpr/Monitor.cpp:66-81 | m_notifyCount is the number of Notify calls of the section, or -1 for ever once a NotifyAll came |
| `Monitor.ApplyKeepsLedger` | src/kpr/Monitor.cpp:30-119 | every operation keeps: what the condition received is what the finished sections asked for, and a section belongs to one thread |
| `Monitor.EveryRunDelivers` | src/kpr/Monitor.cpp:30-119 | over every run the condition received, in order, exactly what each section of the ledger asked for, and no section mixes two threads' calls |
| `Monitor.SectionIsDelivered` | src/kpr/Monitor.cpp:30-119 | the release or wait that closes the ledger's section adds one broadcast if it has a NotifyAll and otherwise one signal per Notify |
| `MonitorSections.SectionDelivers` | src/kpr/Monitor.cpp:30-119 | from the list of calls alone: from a thread's outermost Lock, or return from a wait, to the Unlock that undoes it, or the next wait, with any nested Lock and Unlock between, the condition is told one broadcast if there was a NotifyAll and otherwise one signal for each Notify |
| `MonitorSections.NothingElseDelivers` | src/kpr/Monitor.cpp:30-119 | no other call makes the condition be told anything |
| `MonitorSections.DepthIsCounted` | src/kpr/Monitor.cpp:83-99 | the depth held or suspended is the number of the thread's Lock calls less its Unlock calls |
| `AsyncLogger.MsgSlot.FromLog` | libs/spdlog/include/spdlog/details/async_log_helper.h:90-96 | an async_msg takes every field of the log_msg |
| `AsyncLogger.MsgSlot.MoveFrom` | libs/spdlog/include/spdlog/details/async_log_helper.h:69-74 | the move constructor takes every field except thread_id |
| `AsyncLogger.MsgSlot.MoveAssign` | libs/spdlog/include/spdlog/details/async_log_helper.h:76-84 | move assignment takes every field and empties the source's strings |
| `AsyncLogger.MsgSlot.FillLogMsg` | libs/spdlog/include/spdlog/details/async_log_helper.h:100-108 | fill_log_msg gives back the log_msg that the async_msg was built from |
| `AsyncLogger.Travel` | libs/spdlog/include/spdlog/details/async_log_helper.h:76-108 | a message moved through a cell into the worker arrives unchanged |
| `AsyncLogger.MoveConstructionLosesThreadId` | libs/spdlog/include/spdlog/details/async_log_helper.h:69-74 | a message moved by construction arrives unchanged if and only if the uninitialised thread_id happens to be right |
| `AsyncLogger.NextKeepsInv` | libs/spdlog/include/spdlog/details/async_log_helper.h:192-270 | every step of producers, worker and destructor keeps the invariant over queue, sinks and history |
| `AsyncLogger.SinksSeeEnqueueOrder` | libs/spdlog/include/spdlog/details/async_log_helper.h:245-270 | at any moment every sink holds a prefix of the messages in enqueue order, at most the one being handed over behind the others |
| `AsyncLogger.ProducerOrderKept` | libs/spdlog/include/spdlog/details/async_log_helper.h:206-222 | with block_retry each thread's messages enter the queue in the order of its calls, none missing but the one being retried |
| `AsyncLogger.NothingAddedOrReordered` | libs/spdlog/include/spdlog/details/async_log_helper.h:206-222 | with either policy, what a thread has got into the queue is what it logged, in order and each message at most once, with some messages perhaps left out |
| `AsyncLogger.StoppedAtFirstOff` | libs/spdlog/include/spdlog/details/async_log_helper.h:245-262 | when the worker has stopped, every sink has received exactly the messages accepted before the first one of level off, and what was accepted after it is still queued |
| `AsyncLogger.DeliveredIffNoStrayOff` | libs/spdlog/include/spdlog/details/async_log_helper.h:192-262 | with block_retry, once the worker has stopped, every sink has received every thread's messages exactly once and in order if and only if nobody but the destructor logged at level off |
| `AsyncLogger.StoppedIsForever` | libs/spdlog/include/spdlog/details/async_log_helper.h:231-256 | a stopped worker stays stopped and no sink receives anything more |
| `AsyncLogger.FullQueueBlocksForever` | libs/spdlog/include/spdlog/details/async_log_helper.h:210-219 | behind a stopped worker with a full queue a block_retry call, the destructor's included, stays in its loop for ever |
| `AsyncLogger.CallReturnsIff` | libs/spdlog/include/spdlog/details/async_log_helper.h:206-222 | in every reachable state a call retrying with block_retry can still put its message into the queue if and only if it is not the case that the worker has stopped and the queue is full |
| `AsyncLogger.CallCanEnter` | libs/spdlog/include/spdlog/details/async_log_helper.h:206-262 | unless the worker has stopped and the queue is full, the worker alone makes the room in at most as many steps as there are sinks and two more |
| `AsyncLogger.BlockedIsReachable` | libs/spdlog/include/spdlog/details/async_log_helper.h:192-222 | a run into the blocked state, by a third message or by the destructor, for any messages and any number of sinks |
| `AsyncLogger.StrayOffLosesMessages` | libs/spdlog/include/spdlog/details/logger_impl.h:266-273 | a run in which a message of level off is followed by one that is accepted and never delivered, for any number of sinks |
| `RotatingSink.RotatingSink.constructor` | libs/spdlog/include/spdlog/sinks/file_sinks.h:74-86 | the files found on disk become the archive, file 0 is created if missing and its size is taken over |
| `RotatingSink.RotatingSink.SinkIt` | libs/spdlog/include/spdlog/sinks/file_sinks.h:94-103 | writing a message moves the archive as its specification says and leaves other numbered files alone |
| `RotatingSink.RotatingSink.Rotate` | libs/spdlog/include/spdlog/sinks/file_sinks.h:122-143 | the loop of removals and renames shifts every existing file by one, drops the oldest and empties file 0 |
| `RotatingSink.ShiftKeepsHistory` | libs/spdlog/include/spdlog/sinks/file_sinks.h:122-143 | a rotation keeps dropped content followed by the files, oldest first |
| `RotatingSink.AppendAddsToHistory` | libs/spdlog/include/spdlog/sinks/file_sinks.h:94-103 | a message is added at the end of the history, in one piece |
| `RotatingSink.HistoryIsComplete` | libs/spdlog/include/spdlog/sinks/file_sinks.h:94-143 | over every run dropped content followed by the files, oldest first, is the initial content followed by all messages |
| `RotatingSink.AppendKeepsLimit` | libs/spdlog/include/spdlog/sinks/file_sinks.h:94-143 | a step drops nothing or exactly the whole oldest file and keeps every file within the limit unless it holds one chunk |
| `RotatingSink.FilesStayWithinLimit` | libs/spdlog/include/spdlog/sinks/file_sinks.h:94-143 | over every run no file grows past _max_size unless it is a single chunk |
| `RotatingSink.MessageGoesWhereItFits` | libs/spdlog/include/spdlog/sinks/file_sinks.h:94-103 | a message goes to the end of file 0 if and only if that file stays within _max_size with it; otherwise it starts a new file 0 and every file becomes the next older one |
| `RotatingSink.RunPacks` | libs/spdlog/include/spdlog/sinks/file_sinks.h:94-143 | over every run, after r rotations: the files older than file r are the initial ones, file r begins with the initial file 0, and each newer file was started only because its first message no longer fitted the one before |
| `RotatingSink.FreshSinkFits` | libs/spdlog/include/spdlog/sinks/file_sinks.h:74-86 | a sink just opened, whatever the sizes of the files it finds, meets the condition of the run results |
| `BatchAllocator.BatchAllocator.constructor` | libs/jsoncpp-src-0.5.0/src/lib_json/json_batchallocator.h:30-39 | the allocator starts with the full dummy page, nothing live and nothing free, and is consistent if and only if objectPerAllocation divides objectsPerPage |
| `BatchAllocator.BatchAllocator.Allocate` | libs/jsoncpp-src-0.5.0/src/lib_json/json_batchallocator.h:53-77 | the block is new to the caller, inside its page, and overlaps no live block |
| `BatchAllocator.BatchAllocator.TakeFree` | libs/jsoncpp-src-0.5.0/src/lib_json/json_batchallocator.h:55-60 | the head of the free list is handed out and the list read from its link word |
| `BatchAllocator.BatchAllocator.TakeNew` | libs/jsoncpp-src-0.5.0/src/lib_json/json_batchallocator.h:61-76 | with an empty free list the block is the next one of the head page, or, when that is full, the first one of a new page at the head |
| `BatchAllocator.BatchAllocator.AllocateBatch` | libs/jsoncpp-src-0.5.0/src/lib_json/json_batchallocator.h:67-72 | only when every page is full is a new empty page put at the head, and it becomes the current one |
| `BatchAllocator.BatchAllocator.Bump` | libs/jsoncpp-src-0.5.0/src/lib_json/json_batchallocator.h:74-76 | the block lies at the bump pointer of the head page, which moves by one block and stays within the page |
| `BatchAllocator.BatchAllocator.Release` | libs/jsoncpp-src-0.5.0/src/lib_json/json_batchallocator.h:81-86 | a released block leaves the live set and heads the free list |
| `BatchAllocator.BatchAllocator.ReleaseToList` | libs/jsoncpp-src-0.5.0/src/lib_json/json_batchallocator.h:84-85 | writing the old head into the block keeps the list linked |
| `BatchAllocator.BatchAllocator.WriteBlock` | libs/jsoncpp-src-0.5.0/src/lib_json/json_batchallocator.h:51-53 | whatever a caller writes into a block it owns, link word included, the allocator stays consistent |
| `BatchAllocator.BatchAllocator.BlocksAreDisjoint` | libs/jsoncpp-src-0.5.0/src/lib_json/json_batchallocator.h:53-86 | no two live blocks overlap |
| `BatchAllocator.LinkedFrame` | libs/jsoncpp-src-0.5.0/src/lib_json/json_batchallocator.h:81-86 | writing outside the free blocks keeps the free list |
| `BatchAllocator.PageSafeIffDivides` | libs/jsoncpp-src-0.5.0/src/lib_json/json_batchallocator.h:61-108 | handing out blocks of a new page, as Bump does until used_ meets end_, stays inside its memory if and only if objectPerAllocation divides objectsPerPage |
| `BatchAllocator.PageOf255LeavesItsMemory` | libs/jsoncpp-src-0.5.0/src/lib_json/json_batchallocator.h:32-108 | with eight objects a block and the default of 255 a page, block number 255 is handed out and begins where the page's memory ends |
| `TimerThread.TimerThread.RegisterTimer` | src/kpr/TimerThread.cpp:83-98 | a timer with a fresh id joins the map with outTime at minus its initial delay |
| `TimerThread.TimerThread.UnRegisterTimer` | src/kpr/TimerThread.cpp:100-112 | exactly the timer with that id is removed, and the result says whether there was one |
| `TimerThread.TimerThread.ResetTimer` | src/kpr/TimerThread.cpp:114-134 | exactly that timer's counter is set, to its interval if persistent and to zero otherwise |
| `TimerThread.TimerThread.CheckTimeOut` | src/kpr/TimerThread.cpp:136-175 | the loop over the map gives the specified map and list of firings; the result says whether any timer was registered |
| `TimerThread.TimerThread.Visit` | src/kpr/TimerThread.cpp:144-169 | erasing one-shot timers while iterating skips no timer and visits none twice |
| `TimerThread.CheckedAscends` | src/kpr/TimerThread.cpp:136-175 | a check keeps the map ordered by id and adds no id |
| `TimerThread.FiredAscends` | src/kpr/TimerThread.cpp:136-175 | a check lists a timer to fire at most once, in the order of the ids, and with its interval over |
| `TimerThread.CheckIsPerTimer` | src/kpr/TimerThread.cpp:136-175 | what a check makes of a timer, and whether it fires, does not depend on the other timers |
| `TimerThread.LifeInvHolds` | src/kpr/TimerThread.cpp:147-164 | over any sequence of checks the counter is the time since the last firing, or since the delayed start |
| `TimerThread.FiringsTakeTime` | src/kpr/TimerThread.cpp:83-98 | n firings take at least initialDelay + n * elapse; a one-shot timer fires at most once and is then, and only then, gone |
| `TimerThread.FiringsAreTimely` | src/kpr/TimerThread.cpp:136-175 | if no check step exceeds d, every gap between firings is at most elapse + d |
| `TimerThread.TimerFollowsItsLife` | src/kpr/TimerThread.cpp:83-175 | over any calls that register, remove, reset and fire other timers, what is left of a timer and its firing times are what the checks alone make of it |
| `TimerThread.FiringsInTheThread` | src/kpr/TimerThread.cpp:83-175 | a timer just registered, in any run of the thread that neither removes nor resets it: n firings take at least initialDelay + n * elapse, gaps are between elapse and elapse + d, and a one-shot timer fires at most once and is then gone |
| `TimerThread.ResetInTheThread` | src/kpr/TimerThread.cpp:114-175 | after a reset, in any run of the thread that leaves the timer alone: a persistent timer fires at the next check and then at least its interval apart; a one-shot timer fires at the first check at which its interval has passed since, and is then gone |
| `TimerTasks.StepKeepsInv` | src/kpr/TimerTaskManager.cpp:74-86 | every step of a time-out or a worker keeps the invariant over mutex, flags, queue and running threads |
| `TimerTasks.RunsNeverOverlap` | src/kpr/TimerTaskManager.cpp:74-86 | two runs of one timer task never overlap, and while one runs it is marked and not queued |
| `TimerTasks.ProcessingIsAccountedFor` | src/kpr/TimerTaskManager.h:34-48 | an unmarked timer task is nowhere; a queued one is marked, queued once and with no thread |
| `TimerTasks.TimeOutIsDroppedIff` | src/kpr/TimerTaskManager.cpp:74-86 | until the pool is destroyed a time-out is dropped if and only if its timer task is queued or with a thread that is to submit, run or clear it |
| `TimerTasks.HistoryBlocksNothing` | src/kpr/TimerTaskManager.cpp:74-86 | in every reachable state an idle worker can take the next task, and a thread inside OnTimeOut or DoTask can step if and only if the mutex it is about to lock is free: the history holds nothing back |
| `ThreadPool.ThreadPool.constructor` | src/kpr/ThreadPool.cpp:133-184 | the normalised limits and count, with fresh workers; m_count starts at or above the minimum, and within the maximum if and only if the maximum is 0, or at least the minimum, or at least 5 |
| `ThreadPool.StartAboveMaximum` | src/kpr/ThreadPool.cpp:133-184 | with a count of 3, a minimum of 4 and a maximum of 3 the pool starts 5 threads |
| `ThreadPool.ThreadPool.AddThreads` | src/kpr/ThreadPool.cpp:191-218 | m_count and the worker list grow together, by idle workers at the end |
| `ThreadPool.ThreadPool.SetIdle` | src/kpr/ThreadPool.cpp:43-48 | a worker changes its own idle flag and time, at any moment, and nothing else |
| `ThreadPool.ThreadPool.WakeOneThread` | src/kpr/ThreadPool.cpp:349-362 | while the workers go on changing their flags, the first worker found idle when it was looked at is marked busy; the result is false if and only if each was found busy |
| `ThreadPool.ThreadPool.AddWork` | src/kpr/ThreadPool.cpp:252-279 | the work is appended unless destroyed; the first worker found idle is woken, and only if each was found busy does the pool grow; the bound is kept |
| `ThreadPool.ThreadPool.Grow` | src/kpr/ThreadPool.cpp:262-276 | step threads are added behind the others, or as many as the maximum leaves, and none is stopped |
| `ThreadPool.ThreadPool.GetWork` | src/kpr/ThreadPool.cpp:281-294 | works leave in the order added, each once: added equals handed out followed by the queue |
| `ThreadPool.ThreadPool.RemoveThread` | src/kpr/ThreadPool.cpp:302-317 | exactly that worker leaves the list, the others keep their order, and m_count stays the length |
| `ThreadPool.ThreadPool.RemoveIdleThreads` | src/kpr/ThreadPool.cpp:319-347 | one call is the specified sweep over the workers as each was when visited, or nothing with a maximal idle time of zero |
| `ThreadPool.ThreadPool.StopIdle` | src/kpr/ThreadPool.cpp:333-346 | the loop of that call stops those that the recursive sweep stops, while the workers go on |
| `ThreadPool.ThreadPool.BeginDestroy` | src/kpr/ThreadPool.cpp:220-238 | the first call tells every listed worker to stop, a later one does nothing |
| `ThreadPool.SweepStopsFew` | src/kpr/ThreadPool.cpp:333-346 | a sweep stops at most as many workers as are listed beyond the minimum |
| `ThreadPool.SweepStopsTheFirstLate` | src/kpr/ThreadPool.cpp:333-346 | a sweep tells just the first workers beyond the minimum to stop that have been idle for longer than allowed |
| `ThreadPool.IdleTimeIsTimeIdle` | src/kpr/ThreadPool.cpp:43-62 | a worker's idle time is the sum of the intervals visited since it last became idle, and zero while it is busy |
| `ThreadPool.GrowthIsLargest` | src/kpr/ThreadPool.cpp:262-276 | the pool grows by the step, or by as much of it as the maximum allows |
| `ThreadPool.HostileSweep` | src/kpr/ThreadPool.cpp:333-346 | with stopped workers marked busy and all others idle too long, a sweep stops that many of the others |
| `ThreadPool.MinimumKeptIffNoneStopping` | src/kpr/ThreadPool.cpp:319-347 | a call leaves the minimum running for all idle times if and only if no listed worker was stopped before |
| `ThreadPool.MinimumHoldsOverRuns` | src/kpr/ThreadPool.cpp:252-347 | over every run of SetIdle, AddWork, GetWork, leaving workers and sweeps, at least the minimum stay running and m_count stays at least that, whenever each sweep finds no worker listed that was told to stop |
| `ThreadPool.StepKeepsMinimum` | src/kpr/ThreadPool.cpp:302-347 | each of these steps keeps the minimum running |
| `ThreadPool.BelowMinimumIsReachable` | src/kpr/ThreadPool.cpp:319-362 | seven fresh workers with a minimum of five: a sweep, a wake-up of a stopped worker by new work and a second sweep leave four running |
| `JsonValue.StrTotal` | libs/jsoncpp-src-0.5.0/src/lib_json/json_value.cpp:583-586 | strcmp orders any two strings without NUL in exactly one way |
| `JsonValue.StrTransitive` | libs/jsoncpp-src-0.5.0/src/lib_json/json_value.cpp:583-586 | the order by strcmp is transitive |
| `JsonValue.KeyTotal` | libs/jsoncpp-src-0.5.0/src/lib_json/json_value.cpp:217-231 | keys of one kind are ordered in exactly one way, and equal keys are the same key |
| `JsonValue.KeyTransitive` | libs/jsoncpp-src-0.5.0/src/lib_json/json_value.cpp:217-223 | the order on keys of one kind is transitive |
| `JsonValue.EqualIsIdentity` | libs/jsoncpp-src-0.5.0/src/lib_json/json_value.cpp:626-668 | operator== holds exactly between trees of the same content |
| `JsonValue.LessIsTotal` | libs/jsoncpp-src-0.5.0/src/lib_json/json_value.cpp:564-606 | exactly one of a < b, a == b, b < a, by induction through the nested maps |
| `JsonValue.LessIsTransitive` | libs/jsoncpp-src-0.5.0/src/lib_json/json_value.cpp:564-606 | operator< is transitive, maps compared by size first and then lexicographically |
| `JsonValue.EqualIsCongruence` | libs/jsoncpp-src-0.5.0/src/lib_json/json_value.cpp:564-668 | operator== is an equivalence and operator< does not tell equal trees apart |
| `JsonOrder.StrLessMeans` | libs/jsoncpp-src-0.5.0/src/lib_json/json_value.cpp:583-586 | strcmp is negative if and only if the strings agree up to a position where the first ends or has the smaller character |
| `JsonOrder.EntriesLessMeans` | libs/jsoncpp-src-0.5.0/src/lib_json/json_value.cpp:591-593 | maps of one size compare by the first entry in which they differ, its key before its value |
| `JsonOrder.LessMeans` | libs/jsoncpp-src-0.5.0/src/lib_json/json_value.cpp:564-606 | operator< written out: by type in the order null, Int, UInt, string, bool, array, object; then by value, false before true; containers by number of entries and then by their first different entry |
| `JsonText.UintToString` | libs/jsoncpp-src-0.5.0/src/lib_json/json_writer.cpp:30-40 | the cells before current hold the decimal numeral and the terminator; no other cell changes |
| `JsonText.IntToString` | libs/jsoncpp-src-0.5.0/src/lib_json/json_writer.cpp:42-54 | the text of every Int, the least one included, within the 32-byte buffer |
| `JsonText.UIntToString` | libs/jsoncpp-src-0.5.0/src/lib_json/json_writer.cpp:57-64 | the text of every UInt within the 32-byte buffer |
| `JsonText.ValueToQuotedString` | libs/jsoncpp-src-0.5.0/src/lib_json/json_writer.cpp:111-172 | the fast path and the escaping loop give the same quoted string |
| `JsonText.EscapePlain` | libs/jsoncpp-src-0.5.0/src/lib_json/json_writer.cpp:114-115 | a string without special and control characters is its own escape |
| `Numerals.NumeralDenotes` | libs/jsoncpp-src-0.5.0/src/lib_json/json_writer.cpp:34-39 | a numeral denotes its number, in every base from 2 to 16 |
| `Numerals.NumeralDigits` | libs/jsoncpp-src-0.5.0/src/lib_json/json_writer.cpp:34-39 | a numeral has only digits of its base and no leading zero |
| `Numerals.NumeralLength` | libs/spdlog/include/spdlog/details/format.h:745-750 | a numeral has at most k digits if and only if the number is below base^k |
| `JsonRoundTrip.CharsParse` | libs/jsoncpp-src-0.5.0/src/lib_json/json_writer.cpp:123-171 | the characters of a string in RFC 8259 section 7 read back from their escapes |
| `JsonRoundTrip.NumberParses` | libs/jsoncpp-src-0.5.0/src/lib_json/json_writer.cpp:42-64 | an integer reads back from its text by RFC 8259 section 6 |
| `JsonRoundTrip.ValueParses` | libs/jsoncpp-src-0.5.0/src/lib_json/json_writer.cpp:207-263 | every tree without reals and NUL characters reads back from its compact text, whatever follows it |
| `JsonRoundTrip.DocumentParses` | libs/jsoncpp-src-0.5.0/src/lib_json/json_writer.cpp:197-204 | the whole document reads back, for both separators |
| `JsonWriters.FindListed` | libs/jsoncpp-src-0.5.0/src/lib_json/json_value.cpp:1062-1073 | looking the key of an entry up, a member name or an array index, finds the value listed with it |
| `JsonWriters.FindAbsent` | libs/jsoncpp-src-0.5.0/src/lib_json/json_value.cpp:1002-1006 | a key without an entry is not found |
| `JsonWriters.ElementIsListedOrNull` | libs/jsoncpp-src-0.5.0/src/lib_json/json_value.cpp:995-1006 | an element of a sparse array is the value listed for its index or, for a hole, null, and so it stands in the tree printed |
| `JsonWriters.CountIsRightIff` | libs/jsoncpp-src-0.5.0/src/lib_json/json_value.cpp:885-892 | the writers' int count covers every element put into an array if and only if every index is below 2^31 - 1 |
| `JsonWriters.LargeIndexIsNotCounted` | libs/jsoncpp-src-0.5.0/src/lib_json/json_writer.cpp:233-234 | the array that v[2147483648u] = x makes is printed as [] |
| `JsonWriters.DenseAt` | libs/jsoncpp-src-0.5.0/src/lib_json/json_writer.cpp:233-239 | the elements printed from any index on are those of the whole array, as many as the int size says |
| `JsonWriters.ToJsonIsPlain` | libs/jsoncpp-src-0.5.0/src/lib_json/json_writer.cpp:207-263 | the tree printed has integers and strings that the parser covers |
| `JsonWriters.ToJsonMeans` | libs/jsoncpp-src-0.5.0/src/lib_json/json_writer.cpp:207-263 | the tree printed stands for the value: literals, numbers and strings are its own, each array element is the value listed for its index or null, and the members are the entries in order |
| `JsonWriters.FastWriter.Write` | libs/jsoncpp-src-0.5.0/src/lib_json/json_writer.cpp:197-204 | the document is one JSON text by RFC 8259, and what a parser finds in it says the value: the relation `JsonMeaning.Means` between parsed trees and values, which knows nothing of the printer |
| `JsonWriters.FastWriter.WriteValue` | libs/jsoncpp-src-0.5.0/src/lib_json/json_writer.cpp:207-263 | exactly the compact text of the value is appended; that text says the value by `JsonWriters.ToJsonMeans` and `JsonRoundTrip.ValueParses` |
| `JsonWriters.FastWriter.WriteArray` | libs/jsoncpp-src-0.5.0/src/lib_json/json_writer.cpp:230-242 | an array is its elements in brackets |
| `JsonWriters.FastWriter.WriteElements` | libs/jsoncpp-src-0.5.0/src/lib_json/json_writer.cpp:233-239 | commas stand between the elements from 0 to the int size - 1 and nowhere else |
| `JsonWriters.FastWriter.WriteObject` | libs/jsoncpp-src-0.5.0/src/lib_json/json_writer.cpp:243-261 | members are written in name order with commas between them and nowhere else |
| `JsonWriters.FastWriter.WriteMember` | libs/jsoncpp-src-0.5.0/src/lib_json/json_writer.cpp:251-257 | a member is its quoted name, the separator and its value |
| `JsonStrip.StripAppend` | libs/jsoncpp-src-0.5.0/src/lib_json/json_writer.cpp:207-263 | removing blanks outside strings works piece by piece, given whether a string is open |
| `JsonStrip.QuotedIsBare` | libs/jsoncpp-src-0.5.0/src/lib_json/json_writer.cpp:111-172 | a quoted string closes itself and loses nothing when blanks are removed |
| `JsonStrip.RenderIsBare` | libs/jsoncpp-src-0.5.0/src/lib_json/json_writer.cpp:207-263 | the compact text has no blanks outside strings but the one after a YAML colon |
| `JsonLayout.LayoutIsBare` | libs/jsoncpp-src-0.5.0/src/lib_json/json_writer.cpp:266-480 | with blank indentation the layout without blanks outside strings is the fast writer's text, for both styled writers and at every depth |
| `JsonLayout.DocumentIsBareIff` | libs/jsoncpp-src-0.5.0/src/lib_json/json_writer.cpp:544-563 | the same holds of a document with any indentation if and only if the indentation is blank or nothing is indented |
| `JsonLayout.OneLineIffFlat` | libs/jsoncpp-src-0.5.0/src/lib_json/json_writer.cpp:351-401 | a value is printed without a line break if and only if it is a scalar, an empty container or an array that fits; such an array is shorter than rightMargin_ |
| `JsonLayout.LayoutEnds` | libs/jsoncpp-src-0.5.0/src/lib_json/json_writer.cpp:445-457 | no value ends in a space or line break, so the next indentation always starts a line |
| `JsonLayout.LayoutInk` | libs/jsoncpp-src-0.5.0/src/lib_json/json_writer.cpp:266-480 | every layout that breaks shows its indentation: it has at least the compact text's nonblank characters and those of one indentation more |
| `JsonLayout.StripKeepsInk` | libs/jsoncpp-src-0.5.0/src/lib_json/json_writer.cpp:266-480 | removing blanks outside strings loses no nonblank character, whatever quotes the text has |
| `JsonLayout.OneLineLength` | libs/jsoncpp-src-0.5.0/src/lib_json/json_writer.cpp:421-426 | the length the code adds up is the length of the line |
| `JsonLayout.ManyNeverFit` | libs/jsoncpp-src-0.5.0/src/lib_json/json_writer.cpp:408 | an array with size * 3 >= rightMargin_ cannot fit, so the early answer loses no line |
| `JsonLayout.OneLineIsBare` | libs/jsoncpp-src-0.5.0/src/lib_json/json_writer.cpp:388-399 | the line of an array is its compact text with blanks |
| `JsonReading.LayoutParses` | libs/jsoncpp-src-0.5.0/src/lib_json/json_writer.cpp:266-480 | a value laid out with blank indentation at any depth reads back by RFC 8259 as the tree, whatever follows it |
| `JsonReading.StyledDocumentParses` | libs/jsoncpp-src-0.5.0/src/lib_json/json_writer.cpp:276-287 | so does the whole document, or with any indentation when nothing is indented |
| `JsonIndent.LayoutIsNeat` | libs/jsoncpp-src-0.5.0/src/lib_json/json_writer.cpp:290-480 | at every depth each line of a layout is indented by as many steps as brackets are open where it starts, one less if it starts by closing one |
| `JsonIndent.DocumentIsIndented` | libs/jsoncpp-src-0.5.0/src/lib_json/json_writer.cpp:276-480 | a whole document is so indented, its brackets are balanced, and it has one line for each child and each closing bracket of every container that is spread out |
| `JsonStyled.MarginTestRightIff` | libs/jsoncpp-src-0.5.0/src/lib_json/json_writer.cpp:407-408 | the int product size*3 answers the margin test as meant if and only if size <= 715827882 or size >= 1431655790 |
| `JsonStyled.StyledWriter.Write` | libs/jsoncpp-src-0.5.0/src/lib_json/json_writer.cpp:276-287 | the document of either writer is the specified layout and a line break; with blank indentation, or if nothing is indented, a parser finds in it what says the value (`JsonMeaning.Means`) |
| `JsonStyled.StyledWriter.WriteValue` | libs/jsoncpp-src-0.5.0/src/lib_json/json_writer.cpp:290-348 | exactly the value's layout is appended, which says the value by `JsonWriters.ToJsonMeans` and `JsonReading.LayoutParses`; while an array is measured only texts are collected and the document stays |
| `JsonStyled.StyledWriter.WriteArrayValue` | libs/jsoncpp-src-0.5.0/src/lib_json/json_writer.cpp:351-401 | exactly the array's layout is appended; an array with elements gets no line break if and only if it fits |
| `JsonStyled.StyledWriter.IsMultilineArray` | libs/jsoncpp-src-0.5.0/src/lib_json/json_writer.cpp:404-432 | the answer is whether the array fits; childValues_ then holds exactly one text per element; no int overflows |
| `JsonStyled.StyledWriter.HasContainer` | libs/jsoncpp-src-0.5.0/src/lib_json/json_writer.cpp:410-416 | the loop finds out whether some element is a container with content |
| `JsonStyled.StyledWriter.CollectTexts` | libs/jsoncpp-src-0.5.0/src/lib_json/json_writer.cpp:417-430 | the measured length is that of the line to be printed, and it fits an int |
| `JsonStyled.StyledWriter.AddTexts` | libs/jsoncpp-src-0.5.0/src/lib_json/json_writer.cpp:421-427 | the loop collects one text per element and adds up their lengths and those of brackets and commas |
| `JsonStyled.StyledWriter.WriteLines` | libs/jsoncpp-src-0.5.0/src/lib_json/json_writer.cpp:360-387 | bracket, one indented line for each element, commas between them, and the closing bracket on a line of its own |
| `JsonStyled.StyledWriter.WriteElements` | libs/jsoncpp-src-0.5.0/src/lib_json/json_writer.cpp:366-384 | each element on its own line at one indentation, with commas at the line ends, from the collected texts where there are any |
| `JsonStyled.StyledWriter.WriteOneLine` | libs/jsoncpp-src-0.5.0/src/lib_json/json_writer.cpp:388-399 | the collected texts with commas between them, in one pair of brackets |
| `JsonStyled.StyledWriter.WriteObjectValue` | libs/jsoncpp-src-0.5.0/src/lib_json/json_writer.cpp:318-345 | bracket, one indented line for each member, commas between them, and the closing bracket on a line of its own |
| `JsonStyled.StyledWriter.WriteMember` | libs/jsoncpp-src-0.5.0/src/lib_json/json_writer.cpp:325-332 | a member is a line with its quoted name, a colon between blanks and its value's layout |
| `JsonStyled.StyledWriter.WriteIndent` | libs/jsoncpp-src-0.5.0/src/lib_json/json_writer.cpp:445-457 | a line break and the indentation, in StyledWriter nothing on a line already indented |
| `FmtCount.CountDigits64` | libs/spdlog/include/spdlog/details/format.h:745-750 | for every 64-bit n the result d has 10^(d-1) <= n < 10^d, d = 1 for zero, and the table index is in range |
| `FmtCount.CountDigits32` | libs/spdlog/include/spdlog/details/format.h:771-774 | the same for every 32-bit n and the shorter table |
| `FmtCount.CountDigitsByDivision` | libs/spdlog/include/spdlog/details/format.h:753-766 | the fallback loop gives the same count for every n |
| `FmtCount.DigitCountIsNumeralLength` | libs/spdlog/include/spdlog/details/format.h:743-745 | a number's digit count is the length of its decimal numeral, and no other number is |
| `FmtCount.Estimate` | libs/spdlog/include/spdlog/details/format.h:748 | 1233/4096 of the bit length is the digit count or one less, and never leaves the tables |
| `FmtCount.Drift` | libs/spdlog/include/spdlog/details/format.h:748 | 1024^k stays within three parts in a hundred per step of 1000^k up to k = 6, which is why 64 bits are covered |
| `FmtCount.TableIsPowers` | libs/spdlog/include/spdlog/details/format.cc:596-609 | the tables hold the powers of ten |
| `FmtInt.DecimalBackward` | libs/spdlog/include/spdlog/details/format.h:779-797 | two digits at a time from the right give the decimal numeral and touch no other cell |
| `FmtInt.FormatDecimal` | libs/spdlog/include/spdlog/details/format.h:779-797 | given count_digits' answer exactly that many cells are filled, with the numeral |
| `FmtInt.FormatInt.FromSigned` | libs/spdlog/include/spdlog/details/format.h:2832-2845 | the text of every 64-bit signed number, the least one included; the 22-byte buffer does not underflow |
| `FmtInt.FormatInt.FromUnsigned` | libs/spdlog/include/spdlog/details/format.h:2846-2848 | the text of every 64-bit unsigned number |
| `FmtInt.FormatInt.Size` | libs/spdlog/include/spdlog/details/format.h:2853 | size() is the length of the text |
| `FmtInt.FormatInt.CStr` | libs/spdlog/include/spdlog/details/format.h:2865-2868 | the terminator goes behind the text and changes none of it |
| `FmtInt.AtMostTwentyDigits` | libs/spdlog/include/spdlog/details/format.h:2806 | a 64-bit number has at most 20 digits, so digits10 + 3 cells hold sign and terminator too |
| `FmtWriter.MemoryBuffer.Grow` | libs/spdlog/include/spdlog/details/format.h:555-571 | the new capacity is the larger of the request and one and a half times the old, and the content is kept |
| `FmtWriter.MemoryBuffer.Resize` | libs/spdlog/include/spdlog/details/format.h:453-457 | the size changes and the common part of the content is kept |
| `FmtWriter.MemoryBuffer.Reserve` | libs/spdlog/include/spdlog/details/format.h:464-467 | the content is kept and there is room |
| `FmtWriter.MemoryBuffer.PushBack` | libs/spdlog/include/spdlog/details/format.h:471-475 | exactly one element is appended, across growth |
| `FmtWriter.MemoryBuffer.Append` | libs/spdlog/include/spdlog/details/format.h:487-493 | exactly the given elements are appended, across growth |
| `FmtWriter.FillPadding` | libs/spdlog/include/spdlog/details/format.h:2203-2216 | both sides of the content are filled, the left one with half of the padding rounded down, and nothing else is written |
| `FmtWriter.PlaceInField` | libs/spdlog/include/spdlog/details/format.h:2256-2278 | sign, prefix and padding stand where the alignment says, and the returned place is that of the last digit |
| `FmtWriter.BasicWriter.PrepareIntBuffer` | libs/spdlog/include/spdlog/details/format.h:2221-2279 | the buffer grows by max(width, prefix + digits), what was there is kept, and all but the digits is laid out |
| `FmtWriter.BasicWriter.WriteInt` | libs/spdlog/include/spdlog/details/format.h:2283-2361 | exactly the specified field is appended for every 32- or 64-bit value, the least one included; an unknown type changes nothing and is reported |
| `FmtWriter.BasicWriter.WriteShifted` | libs/spdlog/include/spdlog/details/format.h:2304-2355 | the cases of bases 2, 8 and 16: counting and writing digits by shifting agree |
| `FmtWriter.BasicWriter.WriteDecimalField` | libs/spdlog/include/spdlog/details/format.h:2297-2303 | the decimal case: count_digits, layout and format_decimal fit together |
| `FmtWriter.BasicWriter.WriteDecimal` | libs/spdlog/include/spdlog/details/format.h:1950-1958 | write_decimal appends the plain text of the value |
| `FmtWriter.UnsignedMagnitude` | libs/spdlog/include/spdlog/details/format.h:2286-2291 | negating in the unsigned type gives the magnitude, for the least value too |
| `FmtWriter.WriteBackward` | libs/spdlog/include/spdlog/details/format.h:2319-2321 | the digits end at the given place and nothing else is written |
| `FmtWriter.CountShifts` | libs/spdlog/include/spdlog/details/format.h:2310-2313 | the number of shifts is the number of digits |
| `FmtWriter.LeadingZeros` | libs/spdlog/include/spdlog/details/format.h:2267-2277 | zeros in front do not change what a numeral denotes |
| `FmtWriter.LayoutAroundDigits` | libs/spdlog/include/spdlog/details/format.h:2221-2279 | the field has max(width, prefix + digits) characters, the digits in one piece |
| `FmtWriter.FieldMeansValue` | libs/spdlog/include/spdlog/details/format.h:2283-2361 | the digits denote the magnitude of the value, in its base and without leading zero; a minus stands first exactly for negative values; the width is at least that asked for |
| `FmtWriter.ZeroPaddingKeepsValue` | libs/spdlog/include/spdlog/details/format.h:2267-2277 | with the zero flag all that follows the prefix is one numeral of the magnitude, every character a digit of the base |
| `FmtFields.FieldReadsBack` | libs/spdlog/include/spdlog/details/format.h:2283-2361 | with '#', or in decimal, sign, base prefix and digits read back as a C++ integer literal of the value |
| `FmtFields.SignIs` | libs/spdlog/include/spdlog/details/format.h:2287-2296 | a minus stands first for negative values only, and a plus or a space for the others if and only if that sign was asked for |
| `FmtFields.CaseIs` | libs/spdlog/include/spdlog/details/format.h:2304-2327 | digits above 9 are capitals for 'X' and small letters otherwise |
| `FmtFields.FieldPlaces` | libs/spdlog/include/spdlog/details/format.h:2221-2279 | sign, prefix and digits stand together at the left end, the right end or in the middle of the field, or with numeric alignment the digits alone at the right end; all else is the fill character |
| `FmtScanner.ParseNonnegativeInt` | libs/spdlog/include/spdlog/details/format.cc:258-273 | the loop with its wrap test reads what the specification says and stops behind the digits |
| `FmtScanner.BasicFormatter.NextArg` | libs/spdlog/include/spdlog/details/format.cc:854-859 | automatic lookup and the index state after it |
| `FmtScanner.BasicFormatter.CheckNoAutoIndex` | libs/spdlog/include/spdlog/details/format.cc:861-869 | explicit lookup is allowed exactly while no automatic index was used |
| `FmtScanner.BasicFormatter.GetArg` | libs/spdlog/include/spdlog/details/format.cc:871-874 | explicit lookup and the index state after it |
| `FmtScanner.BasicFormatter.GetNamedArg` | libs/spdlog/include/spdlog/details/format.cc:800-810 | named lookup finds the first argument of that name and counts as explicit |
| `FmtScanner.BasicFormatter.ParseArgIndex` | libs/spdlog/include/spdlog/details/format.cc:813-822 | reading an index or none, and looking the argument up |
| `FmtScanner.BasicFormatter.ParseArgName` | libs/spdlog/include/spdlog/details/format.cc:825-837 | reading a name to its end, and looking the argument up |
| `FmtScanner.BasicFormatter.ScanAlign` | libs/spdlog/include/spdlog/details/format.cc:1059-1091 | the two-character look-ahead for fill and alignment agrees with the grammar, within the terminator |
| `FmtScanner.BasicFormatter.ScanFlags` | libs/spdlog/include/spdlog/details/format.cc:1093-1121 | signs, # and 0 are accepted exactly where the argument type allows them |
| `FmtScanner.BasicFormatter.ScanCount` | libs/spdlog/include/spdlog/details/format.cc:1123-1156 | width or precision as digits or from an argument, which must be an integer from 0 to INT_MAX |
| `FmtScanner.BasicFormatter.ScanPrecision` | libs/spdlog/include/spdlog/details/format.cc:1158-1196 | a dot must be followed by a precision |
| `FmtScanner.BasicFormatter.ScanCounts` | libs/spdlog/include/spdlog/details/format.cc:1123-1202 | width and precision in turn; a precision is refused for integers and pointers |
| `FmtScanner.BasicFormatter.ScanSpec` | libs/spdlog/include/spdlog/details/format.cc:1058-1207 | a specification is accepted exactly when it reads and evaluates, with the same result; which specification that is `FmtMeaning.SpecMeans` writes out |
| `FmtScanner.BasicFormatter.FormatArg` | libs/spdlog/include/spdlog/details/format.cc:1049-1215 | a field's tail succeeds exactly when it reads, evaluates and the argument prints; `FmtMeaning.FormatMeans` writes out the specification the argument is printed with |
| `FmtScanner.BasicFormatter.FormatField` | libs/spdlog/include/spdlog/details/format.cc:1232-1233 | a whole field succeeds exactly when it reads and evaluates, and ends behind its brace |
| `FmtScanner.BasicFormatter.Format` | libs/spdlog/include/spdlog/details/format.cc:1218-1236 | the one-pass scanner terminates, stays within the terminator, and throws exactly when reading everything first and evaluating it then fails; otherwise output and index state agree; what that output is `FmtMeaning.FormatMeans` writes out |
| `FmtLaws.DoubledFormatsToItself` | libs/spdlog/include/spdlog/details/format.cc:1221-1228 | text with every brace doubled formats to itself for all arguments |
| `FmtLaws.NumberReadRightIff` | libs/spdlog/include/spdlog/details/format.cc:258-273 | a numeral is read as intended if and only if it is at most INT_MAX, or the wrap test strikes on some digit, or its value modulo 2^32 exceeds INT_MAX |
| `FmtLaws.AccumulateIsResidue` | libs/spdlog/include/spdlog/details/format.cc:260-269 | the loop computes the value modulo 2^32 unless the wrap test strikes |
| `FmtLaws.NumberReadsBack` | libs/spdlog/include/spdlog/details/format.cc:258-273 | every number up to INT_MAX reads back from its numeral |
| `FmtLaws.MissedNumeral` | libs/spdlog/include/spdlog/details/format.cc:262-267 | numerals ending in 0 on which the wrap test does not strike: the value modulo 2^32 is read, although a value above INT_MAX should be refused |
| `FmtLaws.MissedOverflow` | libs/spdlog/include/spdlog/details/format.cc:262-267 | 5000000000 is read as 705032704 |
| `FmtLaws.NumberingIsNeverMixed` | libs/spdlog/include/spdlog/details/format.cc:839-874 | a string that does not throw numbers all arguments automatically or none, nested ones included, and uses as many as it has automatic references |
| `FmtRoundTrip.NumberedWritesTheSame` | libs/spdlog/include/spdlog/details/format.cc:854-859 | automatic references consume 0, 1, 2, ...: writing those numbers out changes neither output nor failure |
| `FmtRoundTrip.AutomaticIsZeroOneTwo` | libs/spdlog/include/spdlog/details/format.cc:1049-1236 | the same for the format strings themselves |
| `FmtRoundTrip.TextReadsBack` | libs/spdlog/include/spdlog/details/format.cc:1049-1236 | every canonical list of literals and fields reads back from its text |
| `FmtRoundTrip.PrintedStringMeansItsPieces` | libs/spdlog/include/spdlog/details/format.cc:1049-1236 | such a text does for all arguments what its pieces say |
| `FmtRoundTrip.EmptySpecificationLooksAhead` | libs/spdlog/include/spdlog/details/format.cc:1060-1091 | the field {:} is formatted with the default specification if and only if the text behind it does not begin with < > = or ^ |
| `FmtMeaning.SpecMeans` | libs/spdlog/include/spdlog/details/format.cc:1058-1207 | the specification for an argument type, written out: with the zero flag fill 0 and numeric alignment, otherwise fill and alignment as written; sign, # and type as written; width and precision as written or the integer argument named, from 0 to INT_MAX; and exactly which types accept which flags |
| `FmtMeaning.PiecesMean` | libs/spdlog/include/spdlog/details/format.cc:1049-1236 | literals and fields produce an output if and only if their references are all automatic or all explicit and the output is, piece by piece, the literal or what the renderer makes of the argument selected with the specification that stands in the field |
| `FmtMeaning.FormatMeans` | libs/spdlog/include/spdlog/details/format.cc:1049-1236 | the same for every format string printed from its pieces |
| `FmtMeaning.ZeroFlagFormats` | libs/spdlog/include/spdlog/details/format.cc:1115-1121 | an integer formatted with {:05}, or with any other field that has the zero flag, is sign and base prefix and then one numeral of its magnitude, every character a digit |
| `FmtRoundTrip.TextReadsOn` | libs/spdlog/include/spdlog/details/format.cc:1049-1236 | the text of canonical pieces reads as those pieces whatever follows it |
| `FmtSpelling.StrayBraceThrows` | libs/spdlog/include/spdlog/details/format.cc:1218-1236 | a closing brace that is not doubled, behind any text and fields, throws |
| `FmtSpelling.UnclosedFieldThrows` | libs/spdlog/include/spdlog/details/format.cc:1209-1236 | an opening brace that is neither doubled nor followed by any closing brace throws |
| `FmtSpelling.BraceFillThrows` | libs/spdlog/include/spdlog/details/format.cc:1059-1091 | an opening brace as the fill character throws |
| `FmtSpelling.ShortFormMeansTheSame` | libs/spdlog/include/spdlog/details/format.cc:1059-1091 | an alignment without a fill, as in {:<5}, means fill with spaces, whatever stands around the field |

## Left out

- Weak memory orders and the wrap of 64-bit tickets in the queue: atomics are sequentially consistent; a compare-and-exchange may fail spuriously.
- Timed waits: a timed-out `postwait` may leave a token behind, so exactness is proved for untimed waits; semaphores and mutexes are modelled by their meaning.
- `RecursiveMutex` is modelled in its POSIX form, in which the condition wait releases `m_mutex` itself; the Windows form differs in `reset4Condvar`.
- Exceptions thrown by waits, sinks, formatters and thread creation; interrupted waits.
- `AsyncLogger.DeliveredIffNoStrayOff`: is about `block_retry`; with `discard_log_msg` the terminating message itself can be discarded. Periodic flushing, sleeping and replacing the formatter are not modelled.
- `RecursiveMutex.NoDeadlock`: says that a step exists, not that the scheduler takes it; fairness and starvation are not modelled.
- `ThreadPool.ThreadPool.AddWork`: does not promise that queued work is picked up, because a worker between `GetWork` returning null and `SetIdle(true)` is not seen as idle; which worker is found idle depends on when each sets its flag. The clearing of the queue at the end of `Destroy` and the inner loop of `Run` are not modelled.
- `Monitor.Monitor.BeginWait`: is the wait up to giving the mutex up and `EndWait` the rest, so that other threads can run in between; how the condition wakes threads is the subject of `CondImpl`.
- `RotatingSink`: file names are numbers and file operations succeed; sizes stay below the range of size_t.
- `BatchAllocator`: the linked list of pages is a sequence, and addresses are page and offset, so pages never overlap by construction; malloc succeeds.
- Timer counters and ids that overflow.
- `TimerThread.FiringsInTheThread`: is about a timer that is not reset while it is observed; the firings after a reset are `TimerThread.ResetInTheThread`.
- `TimerTasks.TimeOutIsDroppedIff`: says nothing about a destroyed pool, where the flag of a task that was refused stays set.
- `JsonReading.StyledDocumentParses`: with an indentation that is not blank a document that breaks is in general no JSON text, and when it is one it need not say the value.
- `JsonIndent.DocumentIsIndented`: is for an indentation of spaces and tabs.
- `FmtMeaning.ZeroFlagFormats`: is for an argument formatter that hands integers to `write_int`; the one for booleans and characters is not modelled.
- `AsyncLogger.CallReturnsIff`: says that a continuation lets the call in, not that the scheduler chooses it.
- JSON reals, comments, null string pointers, resizing, removing and swapping of values, `Path`, and the build with internal maps. Characters are taken as Unicode code points without their encoding in bytes.
- `JsonStyled.StyledWriter.Write`: is for documents in whose measuring no int overflows (arrays of at most 715827882 elements, lines of leaves of at most 2147483647 characters); beyond that the C++ behaviour is undefined. Both styled writers share one class with a style for the two lines in which they differ.
- Maps of 2^31 and more entries in `operator<`, whose size difference is cut to an int.
- The member-name list of an object is the order of its map; building maps is not modelled, a legal value has ascending keys.
- `FmtWriter.BasicWriter.WriteInt`: without a precision; the precision path reserves room without counting existing content. Doubles, strings, wide characters and the printf formatter are left out.
- `FmtInt.PairDigit` stands for the 200-character table of two-digit numerals.
- `FmtScanner.BasicFormatter.Format`: prints an argument through a function of argument and specification that may fail, standing for the argument formatter; custom arguments, which read the format string themselves, are left out, and neither error texts nor the partial output of a run that throws are part of the contracts.
- `FmtRoundTrip.TextReadsBack`: covers fields whose type is a letter and whose fill is no brace, and specifications that ask for something.
- Sockets, client facades, headers, configuration, zlib, benchmarks, daily and console sinks: plumbing without a property of this kind.
