# Verified models of the system utilities

This project models six components of the repository in Dafny and proves what their clients rely on: the
blocking queue, the worker pool and the queue logger built on it; the multikey tree; the property reader;
the size-limited file logger; and the timer.

## How the concurrent components are modelled

The queue (`TsQueue`), the pool (`TaskProcessor`), the concurrent use of the tree (`MultikeyConcurrent`) and the
timer (`Timer`) are transition systems over an arbitrary number of threads. Every thread has a program counter;
a run is any sequence of enabled steps, so a statement about all runs is a statement about all interleavings.

* A region under a mutex is cut where it reads a flag that is written without that mutex, so such a write can land
  between the check and the operation that follows it. Flags are read and written in one global order.
* Each condition variable has its sleepers and its signalled threads (program counters `...Asleep` and
  `...Signalled`). Sleepers may wake spuriously at any time; `notify_one` wakes an arbitrary sleeper.
* Histories (`accepted`, `removed`, `ran`, `finished`, ...) record what happened and influence nothing.
* A pool step either moves one thread inside the queue, by a step of the queue's machine, or changes the pool's own
  fields (`TaskProcessorQueue`), so the theorems about the queue hold of a pool's queue.

The classes `TsQueueMonitor.Monitor`, `TaskProcessorPool.Pool`, `QueueLoggerObject.Logger`,
`TimerObject.TimerPrototype` and `LimitedFileLogger.LimitedLogger` hold the source's fields. Their methods change
them in place, region by region. Each is proved to be the corresponding step of the machine and, where the machine has an
invariant, to keep it: an object's `Valid()` is the invariant from which the theorems follow.

## What is proved

* Queue: each answer is justified; the accepted pushes are, in order, the removed elements followed by the queue, whatever the schedule; no push
  wakeup is lost although each push notifies one thread; no stop is lost; a stop is final.
* Pool: every task is in exactly one place; `working_threads_` is exact; what `wait` guarantees, and the run showing it
  guarantees no more; nobody in a `wait` is stuck; draining and shutdown terminate. `process_on_stop` keeps its promise if and
  only if no `add_task` is between its check of the flag and its push when the first stop sets the flag: in the other case
  there is always a continuation in which `join_all` returns and that very task never runs, even if the destructor is
  called only after `add_task` has returned (`TaskProcessorStop.ProcessOnStopExactly`).
* Queue logger: with N workers at most N-1 earlier messages are unwritten when a message is written; with one worker
  the output is a prefix of the acceptance order.
* Multikey tree: the heap structure is a map from strings; concurrent descents build the same set of nodes whatever
  the schedule, one per path.
* Property reader: what a line is taken for is stated character by character; including a file is textual substitution; exactly when a setting does not depend on how the regular
  expression splits the line; a rendered map is read back if and only if its values are clean; splitting is a homomorphism at
  delimiters.
* Limited file logger: every line is read back; what is on disk is a suffix of everything logged; the bound on disk space holds if and only if no
  message is counted for less than it takes; the counter's exact surplus; a log is archived only when it is full.
* Timer: a stop is lost if and only if `end` sets the flag while `begin` is between its two unlocked writes. Otherwise at most
  one more call begins after the flag is set, and exactly one if and only if the thread was between its check and its
  call; the thread sleeps between any two calls and is never left asleep; it exits within five of its own steps, the method's body aside.

## Where the code and its documentation differ

The models follow the code.

* The comments above `pop` and `ts_pop` (sources/ts_queue/ts_queue.h:119-141) are swapped: `ts_pop` takes the mutex.
* `end` is meant to stop a started timer, but `begin` (sources/timer/timer.cpp:20-25) sets `started_` before it clears
  `should_stop_`: an `end` that comes in between is undone, and every later one returns at once (`TimerLost`).
* `sleep_microseconds_` (sources/timer/timer.cpp:38-51) is a number of milliseconds (`SleepInterval`).
* A line `include = x` is an include line, not a setting of the key `include` (`PropertyLine.SpacedLine`).
* README:29 promises at most twice the limit on disk. That fails if the counter falls short, which it does by ten bytes a
  message when no `logger<>` has been constructed, since it reads that instantiation's level strings, and by six if the
  time stamp it measured had no fraction of a second (`LoggerWrite.Shortfalls`, `LimitedFileLogger.DiskBoundExactly`).
* `trim` strips tabs and spaces only: its literal ends at the NUL character. A regular expression's `\s` matches more,
  so with a carriage return the value can depend on the split (`PropertySplits.AssignUniqueExactly`).

## Model

| member | source | states |
|---|---|---|
| `TsQueueInvariant.StepKeepsInvariant` | sources/ts_queue/ts_queue.h:63-181 | every step of every method keeps mutual exclusion, conservation, both signalling bounds, and finality of stop |
| `TsQueueInvariant.StepKeepsPushesSignalled` | sources/ts_queue/ts_queue.h:108-118 | a sleeping consumer means at least as many signalled consumers as elements, although a push notifies one |
| `TsQueueInvariant.StepKeepsStopsSignalled` | sources/ts_queue/ts_queue.h:63-83 | a thread that sleeps or is about to with the flag set is owed a notify by a stop call |
| `TsQueueInvariant.StepKeepsWaitersBlocked` | sources/ts_queue/ts_queue.h:93-102 | whoever empties the list wakes all threads in `wait` |
| `TsQueueTheorems.RunKeepsInvariant` | sources/ts_queue/ts_queue.h:50-181 | all of these hold along every run of any number of threads |
| `TsQueueTheorems.FifoConservation` | sources/ts_queue/ts_queue.h:72-181 | the pushes that returned true, in mutex order, are the removed elements in removal order followed by the queue; those handed out are the ones not deleted |
| `TsQueueTheorems.DeliveredInOrder` | sources/ts_queue/ts_queue.h:108-181 | while nothing has been deleted, consumers have received exactly a prefix of what was pushed |
| `TsQueueTheorems.EachElementOnce` | sources/ts_queue/ts_queue.h:72-181 | each pushed element is queued, popped once or deleted once, never two of these |
| `TsQueueTheorems.AnswersJustified` | sources/ts_queue/ts_queue.h:93-181 | `push` refuses and `wait_pop` gives NULL only with the flag set, `ts_pop` also on an empty queue; `wait` returns only with the flag set or on an empty queue |
| `TsQueueTheorems.ReturnsOrSleeps` | sources/ts_queue/ts_queue.h:93-181 | whoever holds the mutex next returns or falls asleep: no method spins |
| `TsQueueTheorems.WakesJustified` | sources/ts_queue/ts_queue.h:63-181 | a sleeper is woken by a stop's notify, by the push that picks it, or by whoever takes the last element, and by nothing else but itself |
| `TsQueueTheorems.StoppedReturnsAtOnce` | sources/ts_queue/ts_queue.h:93-166 | with the flag set every method but the two stops returns as soon as it is called, changing nothing |
| `TsQueueTheorems.NoPushWakeupLost` | sources/ts_queue/ts_queue.h:108-118 | before a stop, with the mutex free, a sleeping consumer implies that the queue is no longer than the number of signalled consumers |
| `TsQueueTheorems.NonEmptyQueueMoves` | sources/ts_queue/ts_queue.h:163-181 | a non-empty queue never leaves every thread in `wait_pop` unable to move |
| `TsQueueTheorems.NoStopLost` | sources/ts_queue/ts_queue.h:63-102 | a thread asleep with the flag set is owed a notify; nobody sleeps in `wait` on an empty queue |
| `TsQueueTheorems.StopReturnedStep` | sources/ts_queue/ts_queue.h:63-83 | the final phase begins exactly when a stop call returns |
| `TsQueueTheorems.StopIsFinal` | sources/ts_queue/ts_queue.h:63-181 | once a stop call has returned nobody is asleep, no push is accepted and no pop yields an element, ever |
| `TsQueueMonitor.Monitor.constructor` | sources/ts_queue/ts_queue.h:50-54 | a new queue is the initial state |
| `TsQueueMonitor.Monitor.PushEnter` | sources/ts_queue/ts_queue.h:108-111 | the unlocked check of `push` |
| `TsQueueMonitor.Monitor.PushLocked` | sources/ts_queue/ts_queue.h:112-114 | the check of `push` under the mutex |
| `TsQueueMonitor.Monitor.PushBack` | sources/ts_queue/ts_queue.h:115-118 | appends the value and signals one sleeping consumer, if any |
| `TsQueueMonitor.Monitor.WaitPopLocked` | sources/ts_queue/ts_queue.h:167-174 | the check of `wait_pop` under the mutex, on entry and after each wakeup |
| `TsQueueMonitor.Monitor.WaitPopTest` | sources/ts_queue/ts_queue.h:170-180 | sleeps on an empty list, else takes the front |
| `TsQueueMonitor.Monitor.TsPopTest` | sources/ts_queue/ts_queue.h:149-155 | returns NULL on an empty list, else takes the front |
| `TsQueueMonitor.Monitor.PopFront` | sources/ts_queue/ts_queue.h:176-180 | removes the front and wakes the waiters if the list is then empty |
| `TsQueueMonitor.Monitor.WaitLocked` | sources/ts_queue/ts_queue.h:97-101 | `wait` returns on an empty list or a set flag, else goes to sleep |
| `TsQueueMonitor.Monitor.StopNotifyAll` | sources/ts_queue/ts_queue.h:66-68 | wakes every sleeper on both condition variables |
| `TsQueueMonitor.Monitor.StopProcessingFlush` | sources/ts_queue/ts_queue.h:75-82 | the loop deletes the whole list from the front, then wakes everybody |
| `TsQueueMonitor.Monitor.Run` | sources/ts_queue/ts_queue.h:63-181 | whatever region a thread is in, running it is the machine's step |
| `TaskProcessorQueue.StepByQueue` | sources/task_processor/task_processor.h:99-147 | each pool step that touches the queue is a step of the queue's machine |
| `TaskProcessorQueue.QueueStepIsMove` | sources/task_processor/task_processor.h:99-147 | what such a step changes of the pool: the thread's place, the answer it gets, and one list operation |
| `TaskProcessorQueue.LocalStepEffect` | sources/task_processor/task_processor.h:99-147 | what the other steps change: counter, histories, flag, and whom they wake |
| `TaskProcessorInvariant.StepKeepsInvariant` | sources/task_processor/task_processor.h:59-147 | every step keeps the counter exact, each task in one place and run at most once, and the order of shutdown |
| `TaskProcessorInvariant.MoveKeepsCustody` | sources/task_processor/task_processor.h:130-139 | a popped task is with one worker or finished, never both, and no two workers share one |
| `TaskProcessorInvariant.LocalKeepsRunOnce` | sources/task_processor/task_processor.h:133-146 | the bodies run are those of finished and uncounted tasks, each once |
| `TaskProcessorInvariant.LocalKeepsCounting` | sources/task_processor/task_processor.h:133-146 | `working_threads_` is the number of workers between the two locked blocks; nobody sleeps when it is zero |
| `TaskProcessorInvariant.MoveKeepsDraining` | sources/task_processor/task_processor.h:116-124 | without late adds nothing is queued or under way once a draining stop reaches the queue's stop |
| `TaskProcessorTheorems.ExactAccounting` | sources/task_processor/task_processor.h:99-147 | each accepted task is in exactly one of: queued, popped, counted, finished, deleted with the queue |
| `TaskProcessorTheorems.EveryAddAnswered` | sources/task_processor/task_processor.h:99-104 | each task handed to `add_task` is accepted, refused or inside the call, and only one of these |
| `TaskProcessorTheorems.CounterExact` | sources/task_processor/task_processor.h:133-146 | the counter is the number of counted workers, positive at each decrement and while anybody sleeps on it |
| `TaskProcessorTheorems.WaitGuarantee` | sources/task_processor/task_processor.h:109-115 | for a call of `wait` that is left, by whatever step, in a queue nobody has stopped: the counter is then zero, and every task accepted before the call is finished or held by a worker that has not counted itself; at most N are unfinished |
| `TaskProcessorTheorems.LeavesAtZero` | sources/task_processor/task_processor.h:112-114 | a thread leaves `wait` only by its own test of the counter, and only if that is zero |
| `TaskProcessorTheorems.WokenAtZero` | sources/task_processor/task_processor.h:140-145 | a thread asleep on the counter is woken only by the worker that brings it to zero |
| `TaskProcessorTheorems.ZeroLeaves` | sources/task_processor/task_processor.h:112-115 | and with the counter at zero that test does leave |
| `TaskProcessorRuns.WaitWindowIsReachable` | sources/task_processor/task_processor.h:130-136 | a run in which `wait` can return while the only accepted task has not been started |
| `TaskProcessorTheorems.DestructorRunsEverything` | sources/task_processor/task_processor.h:59-124 | in process-on-stop mode without a late add, once `join_all` has returned every accepted task has run exactly once, with any number of stop calls |
| `TaskProcessorTheorems.DestructorSplits` | sources/task_processor/task_processor.h:59-63 | in either mode the accepted tasks are then those that ran once and those left to the queue's destructor |
| `TaskProcessorStop.ProcessOnStopExactly` | sources/task_processor/task_processor.h:59-124 | with at least one worker, after a first stop by `stop()` or by the destructor, `join_all` can return with an accepted task not run if and only if some `add_task` is between its check and its push when that stop sets the flag; and any such task can be the one |
| `TaskProcessorStop.LateAddCanBeLost` | sources/task_processor/task_processor.h:99-124 | from every such state, however full the queue and busy the workers, a continuation loses the task of the given call |
| `TaskProcessorStop.DestroyLater` | sources/task_processor/task_processor.h:59-63 | a destructor called after a stop has returned leaves the queue as it is |
| `TaskProcessorStop.NothingLost` | sources/task_processor/task_processor.h:116-124 | without a late add no continuation loses anything |
| `TaskProcessorRuns.LateAddIsReachable` | sources/task_processor/task_processor.h:101-103 | the window of a late add occurs |
| `TaskProcessorTheorems.NonEmptyQueueMoves` | sources/task_processor/task_processor.h:126-147 | with at least one worker a non-empty queue leaves some worker awake and able to move, or the mutex holder able to move |
| `TaskProcessorTheorems.WaitersNotStuck` | sources/task_processor/task_processor.h:109-115 | while a thread sleeps in either wait, the mutex holder, a worker that is awake, or a stop call owing its notify can move |
| `TaskProcessorDrain.DrainStep` | sources/task_processor/task_processor.h:116-147 | while a stop drains the queue, every step of a worker takes something off the work left, and no other step but a spurious wakeup adds any |
| `TaskProcessorDrain.DrainTerminates` | sources/task_processor/task_processor.h:116-147 | so until the queue is stopped the workers take at most 6 steps each, 7 for each element and 9 for a push under way, plus 2 for each spurious wakeup |
| `TaskProcessorDrain.DrainMoves` | sources/task_processor/task_processor.h:116-124 | until the queue is empty somebody who brings that nearer can move; once it is, the stop's wait returns |
| `TaskProcessorTheorems.ShutdownTerminates` | sources/task_processor/task_processor.h:116-147 | after the queue's stop has returned the workers take at most four steps each, and the rank left is zero exactly when all have exited |
| `TaskProcessorTheorems.StoppedWorkersMove` | sources/task_processor/task_processor.h:126-147 | until then every worker that has not exited has a step |
| `TaskProcessorPool.Pool.constructor` | sources/task_processor/task_processor.h:49-57 | a new pool is the initial state |
| `TaskProcessorPool.Pool.AddTask` | sources/task_processor/task_processor.h:99-102 | the check of `add_task` |
| `TaskProcessorPool.Pool.AddTaskPush` | sources/task_processor/task_processor.h:103-104 | the push of `add_task` begins |
| `TaskProcessorPool.Pool.FetchTask` | sources/task_processor/task_processor.h:130-132 | `wait_pop` begins, or the worker exits |
| `TaskProcessorPool.Pool.CountTaskIn` | sources/task_processor/task_processor.h:133-136 | `++working_threads_` |
| `TaskProcessorPool.Pool.CountTaskOut` | sources/task_processor/task_processor.h:140-145 | `--working_threads_`, waking all waiters at zero |
| `TaskProcessorPool.Pool.WaitForQueue` | sources/task_processor/task_processor.h:109-111 | the queue's wait begins |
| `TaskProcessorPool.Pool.WaitForWorkers` | sources/task_processor/task_processor.h:112-115 | the loop of `wait`: sleeps while the counter is not zero |
| `TaskProcessorPool.Pool.Stop` | sources/task_processor/task_processor.h:116-120 | the flag is set in process-on-stop mode only |
| `TaskProcessorPool.Pool.StopDrain` | sources/task_processor/task_processor.h:121-121 | the stop waits for the queue to be empty |
| `TaskProcessorPool.Pool.StopTaskQueue` | sources/task_processor/task_processor.h:123-123 | the queue's stop begins |
| `TaskProcessorPool.Pool.JoinAll` | sources/task_processor/task_processor.h:59-63 | possible when all workers have exited; the queue's destructor follows |
| `TaskProcessorPool.Pool.RunInQueue` | sources/task_processor/task_processor.h:99-132 | running a thread inside the queue and acting on what the queue's method returns |
| `QueueLogger.BoundedOvertaking` | sources/queue_logger/queue_logger.h:83-93 | when a message is written at most N-1 earlier accepted messages are unwritten |
| `TaskProcessorRuns.OvertakingIsReachable` | sources/task_processor/task_processor.h:126-147 | with two workers the second message can be written first |
| `QueueLogger.WrittenAtMostOnce` | sources/queue_logger/queue_logger.h:45-48 | no message is written twice, none that was refused or is still queued |
| `QueueLogger.SingleWorkerInOrder` | sources/queue_logger/queue_logger.h:83-93 | with one worker the output is always a prefix of the acceptance order |
| `QueueLogger.SingleWorkerLogsInOrder` | sources/queue_logger/queue_logger.h:70-77 | and so is each logger's own stream when several share the pool |
| `QueueLogger.OtherStepsKeep` | sources/queue_logger/queue_logger.h:83-93 | no step of the pool but running one of the logger's own tasks concerns its stream |
| `QueueLoggerObject.Logger.Write` | sources/queue_logger/queue_logger.h:83-86 | creates one task, unless the pool's flag refuses it; the stream is untouched |
| `QueueLoggerObject.Logger.WritePush` | sources/queue_logger/queue_logger.h:83-88 | the push begins; a task the queue's flag refuses is deleted |
| `QueueLoggerObject.Logger.WriteOn` | sources/queue_logger/queue_logger.h:83-88 | the push goes on; the task is deleted exactly if it is refused |
| `QueueLoggerObject.Logger.Discard` | sources/queue_logger/queue_logger.h:86-87 | deleting a refused task takes nothing from the stream, since it has not run |
| `QueueLoggerObject.Logger.RunLoggerTask` | sources/queue_logger/queue_logger.h:45-48 | the task's body appends its own message, so the stream stays the messages of the tasks run, in order |
| `QueueLoggerObject.Logger.RealWrite` | sources/queue_logger/queue_logger.h:89-93 | appends one message to the stream |
| `MultikeyPaths.Hash` | sources/multikey_tree/multikey_tree.h:18-28 | a child index below 76, or the exception |
| `MultikeyPaths.LegalRange` | sources/multikey_tree/multikey_tree.h:18-32 | the legal characters are those from '/' to 'z', and there is one child slot for each |
| `MultikeyPaths.LegalLengthRange` | sources/multikey_tree/multikey_tree.h:18-28 | a key is legal throughout if and only if all its characters are in that range; else its longest legal prefix ends before the first that is not |
| `MultikeyPaths.HashBijective` | sources/multikey_tree/multikey_tree.h:18-28 | legal characters and child indices correspond one to one |
| `MultikeyPaths.VisitedMeaning` | sources/multikey_tree/multikey_tree.h:63-79 | a descent visits exactly the non-empty legal prefixes of its key |
| `MultikeyTree.Node.constructor` | sources/multikey_tree/multikey_tree.h:46-50 | a node starts with the default value and 76 null children |
| `MultikeyTree.ChildForEdit` | sources/multikey_tree/multikey_tree.h:72-76 | the locked block leaves a child in the slot, new if there was none, and all other nodes as they were |
| `MultikeyTree.GetForEditFrom` | sources/multikey_tree/multikey_tree.h:63-79 | the recursion on the rest of the key |
| `MultikeyTree.GetForEdit` | sources/multikey_tree/multikey_tree.h:59-79 | adds exactly the missing legal prefixes of the key, with default values, and changes no other value; returns the key's node if all its characters are from '/' to 'z', else throws |
| `MultikeyTree.EditAll` | sources/multikey_tree/multikey_tree.h:59-79 | after any sequence of edits the new paths are exactly the legal prefixes of the keys |
| `MultikeyTree.GetForRead` | sources/multikey_tree/multikey_tree.h:82-102 | finds a node if and only if the path exists; complains of the symbol exactly if the path up to the first character outside '/' to 'z' exists |
| `MultikeyTree.Assign` | sources/multikey_tree/multikey_tree.h:59-79 | writing through one key's pointer changes the value of that key only |
| `MultikeyTree.PathsLegal` | sources/multikey_tree/multikey_tree.h:18-28 | no path in the tree contains an illegal character |
| `MultikeyTree.Clear` | sources/multikey_tree/multikey_tree.h:104-112 | everything is dropped except the root's value |
| `MultikeyConcurrent.StepKeepsInvariant` | sources/multikey_tree/multikey_tree.h:63-79 | every step of every descent keeps one node per path, each hanging in its parent's slot |
| `MultikeyConcurrent.SlotsStable` | sources/multikey_tree/multikey_tree.h:72-77 | a child pointer once set never changes, and the read after the mutex block always sees one |
| `MultikeyConcurrent.SameKeySameNode` | sources/multikey_tree/multikey_tree.h:63-79 | descents return the same node if and only if their keys are equal |
| `MultikeyConcurrent.DescentAnswers` | sources/multikey_tree/multikey_tree.h:63-79 | a descent returns the node of its own key, all of whose characters are from '/' to 'z', or throws at the first that is not, the path before it being there |
| `MultikeyConcurrent.FinalNodes` | sources/multikey_tree/multikey_tree.h:63-79 | when all descents are over the nodes are the prefix closure of the keys, whatever the schedule |
| `PropertyText.TrimmedParts` | sources/property_reader/property_reader.cpp:138-158 | `trim` removes tabs and spaces at both ends, nothing else, and leaves none there |
| `PropertyText.TrimmedCharacters` | sources/property_reader/property_reader.cpp:138-158 | the same in terms of characters: only ' ' and '\t' are cut off, and neither is left at an end |
| `PropertyText.TrimmedUnique` | sources/property_reader/property_reader.cpp:138-158 | and this determines its result |
| `PropertyText.Trim` | sources/property_reader/property_reader.cpp:149-158 | cutting between the first and the last character that is no blank computes it |
| `PropertyText.BeforeComment` | sources/property_reader/property_reader.cpp:44-51 | the longest prefix without '#' and ';' |
| `PropertyText.DeleteComment` | sources/property_reader/property_reader.cpp:44-51 | computes that prefix, trimmed |
| `PropertyText.SplitAtDelimiter` | sources/property_reader/property_reader.cpp:168-177 | splitting is a homomorphism at delimiters |
| `PropertyText.SplitTokensClean` | sources/property_reader/property_reader.cpp:168-177 | no token is empty or contains a delimiter |
| `PropertyText.SplitOfJoin` | sources/property_reader/property_reader.cpp:168-177 | joining clean tokens and splitting gives the tokens back |
| `PropertyText.SplitPadded` | sources/property_reader/property_reader.cpp:168-177 | blanks around the text do not matter |
| `PropertyText.Split` | sources/property_reader/property_reader.cpp:168-177 | cutting, trimming each piece and erasing the empty ones computes it |
| `PropertyGrammar.LineForms` | sources/property_reader/property_reader.cpp:29-136 | with the three patterns written out by characters: a line is skipped, an include line, a setting, an addition or malformed exactly if the first of these that fits does, and its name or value is a capture, trimmed |
| `PropertyGrammar.SettingMatches` | sources/property_reader/property_reader.cpp:98-119 | the matcher succeeds exactly on the lines that split into the pattern's parts, with the one key possible |
| `PropertyGrammar.GreedyCapture` | sources/property_reader/property_reader.cpp:71-107 | of the values possible the greedy one is captured: from the first character that is no white space to the end |
| `PropertyGrammar.IncludeMatches` | sources/property_reader/property_reader.cpp:69-75 | and so does the matcher for include lines |
| `PropertyLine.AssignSplitFound` | sources/property_reader/property_reader.cpp:98-103 | whenever a split fits the pattern the matcher succeeds, with the same name |
| `PropertyLine.AssignParsedSplit` | sources/property_reader/property_reader.cpp:98-107 | what the matcher returns is one of the splits |
| `PropertyLine.AssignUnique` | sources/property_reader/property_reader.cpp:98-134 | name and trimmed value are the same for every split |
| `PropertyLine.AssignFormsDisjoint` | sources/property_reader/property_reader.cpp:100-119 | the forms with `=` and `+=` never both match |
| `PropertySplits.CaptureUniqueExactly` | sources/property_reader/property_reader.cpp:98-107 | every split of a text gives the same trimmed capture if and only if the white space at its ends is tabs and spaces, or it is one character |
| `PropertySplits.AssignUniqueExactly` | sources/property_reader/property_reader.cpp:98-134 | the trimmed value of a setting is the same for every split of the line if and only if that holds of what follows the operator |
| `PropertySplits.IncludeUniqueExactly` | sources/property_reader/property_reader.cpp:69-80 | and likewise the file name of an include line |
| `PropertyLine.CarriageReturnMatters` | sources/property_reader/property_reader.cpp:100-107 | with a carriage return in the line the value depends on the split |
| `PropertyLine.IncludeSplitFound` | sources/property_reader/property_reader.cpp:69-75 | whenever a split fits the include pattern the matcher succeeds |
| `PropertyLine.IncludeParsedSplit` | sources/property_reader/property_reader.cpp:69-79 | what the matcher captures is one of the splits |
| `PropertyLine.IncludeUnique` | sources/property_reader/property_reader.cpp:69-79 | the trimmed file name is the same for every split |
| `PropertyLine.RenderedLine` | sources/property_reader/property_reader.cpp:44-136 | `key=value` and `key+=value` are read as that setting |
| `PropertyLine.SettingRead` | sources/property_reader/property_reader.cpp:44-136 | whatever the value, the line is read as that setting with the value's comment cut off and the rest trimmed, or is a format error if nothing is left |
| `PropertyLine.CleanExactly` | sources/property_reader/property_reader.cpp:44-51 | cutting and trimming leave a value alone exactly if it is clean |
| `PropertyLine.SpacedLine` | sources/property_reader/property_reader.cpp:52-116 | with spaces around the operator too, except that the key `include` makes an include line |
| `PropertyReader.IncludeIsSubstitution` | sources/property_reader/property_reader.cpp:29-97 | parsing with includes gives the settings, and fails in the cases, of parsing the flattened lines without opening a file |
| `PropertyReader.FlattenFirst` | sources/property_reader/property_reader.cpp:29-97 | so flattening first and parsing then is the same, and nothing is left to include |
| `PropertyReader.RankIrrelevant` | sources/property_reader/property_reader.cpp:83-97 | the outcome does not depend on the ranking that shows the include graph acyclic |
| `PropertyReader.IncludeFindsFile` | sources/property_reader/property_reader.cpp:83-97 | an include line reads the file of that name, or else the one below the default path, lines counted from one again; a missing or unreadable file ends the parse with the settings so far |
| `PropertyReader.ParseConcat` | sources/property_reader/property_reader.cpp:29-43 | lines are read in order, each with the settings left by those before it, up to the first that fails |
| `PropertyReader.MalformedLine` | sources/property_reader/property_reader.cpp:31-42 | the first malformed line ends the parse with its number, counted from one |
| `PropertyReader.SettingLine` | sources/property_reader/property_reader.cpp:106-132 | a setting replaces what was there; an addition of nothing changes nothing |
| `PropertyReader.BlankLine` | sources/property_reader/property_reader.cpp:34-39 | blank lines are counted and otherwise ignored |
| `PropertyRoundTrip.RoundTrip` | sources/property_reader/property_reader.cpp:29-116 | rendering a map with legal keys and clean values, in any order, and parsing gives the map back |
| `PropertyRoundTrip.RoundTripExactly` | sources/property_reader/property_reader.cpp:29-116 | with only plain white space in the values, it does so if and only if every value is clean |
| `PropertyRoundTrip.ListsConcatenate` | sources/property_reader/property_reader.cpp:117-214 | after `k=a` and `k+=, b` the values of k are those of a followed by those of b |
| `PropertyRoundTrip.OrderMatters` | sources/property_reader/property_reader.cpp:98-136 | the two orders of `=` and `+=` give different settings |
| `PropertyRoundTrip.AppendsInOrder` | sources/property_reader/property_reader.cpp:117-136 | lines `k+=v`, whether k is set or not, leave it with its old value, or nothing, followed by each v in order with one space before it, and leave other keys alone |
| `PropertyRoundTrip.AppendSets` | sources/property_reader/property_reader.cpp:128-132 | in particular an append to a key that is not set sets it |
| `PropertyRoundTrip.NoValues` | sources/property_reader/property_reader.cpp:208-214 | a key that is not set, or set to nothing, has no values |
| `PropertyReaderObject.Reader.ParseIstream` | sources/property_reader/property_reader.cpp:29-43 | the loop computes the parser's outcome, with the line number of a bad line |
| `PropertyReaderObject.Reader.ParseLine` | sources/property_reader/property_reader.cpp:52-61 | the three forms in turn |
| `PropertyReaderObject.Reader.IncludeLine` | sources/property_reader/property_reader.cpp:62-80 | an include line reads the file it names, any other line changes nothing |
| `PropertyReaderObject.Reader.ReadSubPropertyFile` | sources/property_reader/property_reader.cpp:83-97 | the name, else below the default path, else one of two exceptions |
| `PropertyReaderObject.Reader.StringWithSetting` | sources/property_reader/property_reader.cpp:98-116 | assigns the trimmed value |
| `PropertyReaderObject.Reader.AdditionalStringWithSetting` | sources/property_reader/property_reader.cpp:117-136 | appends a space and the trimmed value, if there is one |
| `PropertyReaderObject.Reader.GetValues` | sources/property_reader/property_reader.cpp:208-214 | the split value, or nothing for a missing key |
| `LoggerWrite.LineReadBack` | sources/logger/logger.cpp:39-55 | a prefixed line is read back: an opening bracket, the time stamp, the level's own string, the message, the line end, in this order |
| `LoggerWrite.PlainLine` | sources/logger/logger.cpp:8-36 | without prefix a line is the message and the line end; a logger that is turned off writes and counts nothing |
| `LoggerWrite.SurplusOfMessage` | sources/limited_file_logger/limited_file_logger.cpp:29-52 | the message itself is counted exactly; what is over or short does not depend on it |
| `LoggerWrite.UniformSurplus` | sources/logger/logger.cpp:25-55 | with initialised level strings and stamps of the measured width the surplus depends on the line end only |
| `LoggerWrite.Shortfalls` | sources/limited_file_logger/limited_file_logger.cpp:40-52 | two ways the counter falls short |
| `LimitedFileLogger.KeepsRecent` | sources/limited_file_logger/limited_file_logger.h:67-95 | in append mode from a fresh start, `.old` followed by the current file is a suffix of everything logged |
| `LimitedFileLogger.StepDrops` | sources/limited_file_logger/limited_file_logger.h:67-95 | a step drops nothing, or exactly the previous `.old` |
| `LimitedFileLogger.CounterDrift` | sources/limited_file_logger/limited_file_logger.h:67-95 | the counter exceeds the file by the sum of the surpluses of the messages since opening or rotation |
| `LimitedFileLogger.UniformDrift` | sources/limited_file_logger/limited_file_logger.h:67-95 | which is their number times the surplus if all have the same |
| `LimitedFileLogger.CounterExact` | sources/limited_file_logger/limited_file_logger.cpp:29-52 | ordinarily by one byte for each prefixed message, and by nothing without prefix |
| `LimitedFileLogger.DiskBound` | README:28-29 | if each message is counted below the limit and for no less than it takes, both files stay below the limit |
| `LimitedFileLogger.DiskBoundExactly` | sources/limited_file_logger/limited_file_logger.h:67-77 | for messages of one level and stamp the bound holds if and only if they are not counted for less than they take |
| `LimitedFileLogger.ArchivedWhenFull` | sources/limited_file_logger/limited_file_logger.h:67-95 | a write archives the whole current log, and only when its counted size and the message reach the limit; in bytes they fall short of it by their surpluses at most |
| `LimitedFileLogger.SessionText` | sources/limited_file_logger/limited_file_logger.h:67-95 | whatever files the log is opened on: below the limit the text begun with, none if truncating, is kept and extended and the archive stays; else it becomes the archive |
| `LimitedFileLogger.BoundAfterOpen` | sources/limited_file_logger/limited_file_logger.h:67-95 | and the current file stays below the limit, as does every archive but those already there |
| `LimitedFileLogger.LimitedLogger.constructor` | sources/limited_file_logger/limited_file_logger.h:35-40 | opening measures the file and rotates it if it has reached the limit |
| `LimitedFileLogger.LimitedLogger.FillFileSizeOnOpen` | sources/limited_file_logger/limited_file_logger.h:79-85 | the size on opening is the file's |
| `LimitedFileLogger.LimitedLogger.Rename` | sources/limited_file_logger/limited_file_logger.h:86-95 | the current file replaces `.old`, and a new file begins |
| `LimitedFileLogger.LimitedLogger.WriteMessage` | sources/limited_file_logger/limited_file_logger.h:67-77 | rotates first if the message would reach the limit, then counts and writes it |
| `Timer.StepKeepsInvariant` | sources/timer/timer.cpp:20-72 | every step keeps the count of calls after the stop exact, every stopped sleeper owed a notify, and the flag set unless `begin` clears it |
| `Timer.CallsAfterStop` | sources/timer/timer.cpp:26-72 | if `end` sets the flag while `begin` is not between its writes, at most one more call begins: one if the thread was between its check and its call, none otherwise, and none if the method itself called `end` |
| `TimerLost.CallsBoundedExactly` | sources/timer/timer.cpp:20-36 | the calls after `end` has set the flag are bounded if and only if `begin` was not between its two writes |
| `TimerLost.StopLostExactly` | sources/timer/timer.cpp:20-36 | after `begin`'s second write an `end` that set the flag can return with the flag clear and the thread running if and only if some `end` set it between the two writes |
| `TimerLost.EarlyIsReachable` | sources/timer/timer.cpp:20-31 | a run of one `begin` and one `end` in which that happens |
| `TimerLost.LostForGood` | sources/timer/timer.cpp:26-36 | if the timer is then unstarted and no `end` is under way, every later `end` returns at once and only an exception of the method ends the thread |
| `TimerLost.LostIsUnstoppable` | sources/timer/timer.cpp:26-36 | once a stop is lost and no `end` is under way the timer is unstarted with the flag clear |
| `Timer.WindowIsReachable` | sources/timer/timer.cpp:58-61 | that window occurs |
| `Timer.CallsAreCounted` | sources/timer/timer.cpp:61-61 | the calls counted are the thread's entries into the method |
| `Timer.SleepsBetweenCalls` | sources/timer/timer.cpp:57-67 | between two calls of the method the thread sleeps |
| `Timer.SleepEnds` | sources/timer/timer.cpp:64-66 | it wakes by time or by the notify of an `end`, and then takes the mutex again |
| `Timer.ThrowIsFinal` | sources/timer/timer.cpp:54-71 | after the method has thrown no call begins any more |
| `Timer.NeverForgotten` | sources/timer/timer.cpp:30-34 | the thread is asleep with the flag set only while an `end` owes its notify, and then it can be given |
| `Timer.EndStops` | sources/timer/timer.cpp:26-36 | unless that has happened, the flag is set whenever `end` returns after `begin`, at either check or at its end |
| `Timer.StopTerminates` | sources/timer/timer.cpp:52-72 | once the flag is set after `begin`, the thread takes at most five steps in any run, the checks of an `end` in the method's body aside |
| `Timer.StoppedMoves` | sources/timer/timer.cpp:15-19 | and until it has exited its own step or the notify it is owed brings it nearer, or the method's body finds the flag set and goes on, so the join returns |
| `TimerObject.TimerPrototype.BeginStarted` | sources/timer/timer.cpp:22-22 | the first write of `begin` |
| `TimerObject.TimerPrototype.BeginRunning` | sources/timer/timer.cpp:23-24 | the second write, which clears the flag whoever has set it, and the start of the thread |
| `TimerObject.TimerPrototype.EndCheck` | sources/timer/timer.cpp:28-29 | `end` returns at once exactly if the timer is unstarted |
| `TimerObject.TimerPrototype.EndFurther` | sources/timer/timer.cpp:28-35 | the rest of `end`: the check of the flag, setting it, the notify under the mutex, unstarted |
| `TimerObject.TimerPrototype.EndInside` | sources/timer/timer.cpp:26-36 | the same inside the method, which owns the recursive mutex |
| `TimerObject.TimerPrototype.Processing` | sources/timer/timer.cpp:57-66 | the loop, from one read of the flag to the next |
| `TimerObject.TimerPrototype.MethodEnds` | sources/timer/timer.cpp:61-71 | the method returns, or its exception ends the thread |
| `TimerObject.TimerPrototype.SleepInterval` | sources/timer/timer.cpp:38-51 | the wake-up is that many milliseconds later; the nanoseconds fit 32 bits and are normalised exactly if the sum is below a second |

## Left out

- `ts_queue::pop` (sources/ts_queue/ts_queue.h:124-136), which touches the list without the mutex, and `size` and `empty`.
- `ts_queue::restart`, which clears the flag without the mutex: the flag is only ever set here.
- The weaker memory orders a `volatile` flag allows: reads and writes of a flag happen in one global order.
- Allocators, `create_task`, `destroy` and pointer lifetimes: a task is an identity, not NULL (a NULL
  in the queue would end a worker), and handed to `add_task` at most once.
- Bodies of tasks: they terminate and have no effect but being recorded; one calling back into its pool is one more client.
- A stream shared by two loggers: each message is one whole write to its own logger's stream.
- `multikey_tree::clear` beside other threads, which takes no lock, concurrent `get_for_read`, and deleting the nodes.
- Include cycles that the parse reaches, on which the source recurses without end (README:15 excludes them).
- The regular expression engine itself: a pattern matches if some split of the line fits it.
- `lexical_cast`, stream errors, and the property calls `get_value`, `set_value`, `rename_parameter`, `delete_value`: small map operations.
- Real files: the log's files are texts in memory; flushing, open failures and the wrap-around of `size_t` are not modelled.
- Clocks: time stamps are parameters, and a timed wait may end at any time.
- Calling `timer_prototype::begin` twice, `timer_prototype_with_object` (the same protocol again), and the wrap-around of seconds.
- `file_logger`, `ts_logger`, `time_tracker`, `shared_name_storage`, `system_processor`, `windows_service`: thin wrappers, or operating-system calls.
