# FreeRTOS kernel core and packet encoders, in Dafny

This project models the FreeRTOS V10.4.4 kernel core that the repository ships, in its
configuration (preemption, 32-bit ticks, 56 priorities, generic task selection, mutexes and
timers), and the two packet encoders written for it, and proves what they are for. The code that
changes state in place is modelled in place: classes with the kernel's variables, the linked list
with its pointers, arrays for the byte rings and packets, the loops with their invariants. Each
such method is proved to compute a function of the old state, and the promises are theorems about
those functions: invariants over every run and every interleaving, and refinements of an
unbounded clock, a bounded deque, a sequence of messages.

## Layout

| files | what they hold |
|---|---|
| Wrappers, Word32 | shared types; the wrapping tick type and its relation to unbounded time |
| ListView, LinkedList | list operations on sequences; list.c on the heap, proved to do them |
| Tasks, Kernel | what the functions of tasks.c do to the scheduler state; their code in place |
| TaskPartition, TaskTime, TaskRuns | one list per task; the delayed lists as an unbounded clock; all runs |
| TaskTurns, TaskPriorities, TaskEvents | taking turns; priorities lent and given back; the order of event lists, and the run that breaks it |
| TaskSwitches, TaskUnblock, TaskLives | when a switch is asked for; the cached unblock time; creation and deletion |
| Timeouts | `xTaskCheckForTimeOut` and `xTaskDelayUntil` against unbounded time |
| Queue, QueueLaws | queue.c as deque sections and on its byte ring; who gets which item, and whom a call wakes |
| QueueProtocol, QueueCalls | the wakeup protocol under interleaving; one call from its first look to its end |
| Mutex, MutexLoans, LostYield | take, timed take and give of mutexes, step by step: accounting and bounded priority inversion; what is lent and taken back; the run that breaks the bound |
| Timers, TimerRuns | the timer daemon in place; exact callbacks over all runs |
| StreamBuffer, StreamProtocol, StreamCalls | the byte ring and message framing; one writer and one reader interleaved; their whole calls |
| EventGroup, EventGroupCode, EventRuns, Barrier | event words and groups; the walk on the heap; all runs; the rendezvous |
| Mqtt, Dns | the PUBLISH packet written and read; the query packet; both as their standards read them |

## Where the code falls short

Four promises hold only under a condition. Each is given with an input for which it fails, and
with the exact condition, proved for all inputs.

* Bounded priority inversion (`MutexInversion.BoundedExactly`): it holds exactly if no task takes a
  free mutex while it is below the first task that waits for it. queue.c:899-929 can let that
  happen: it looks at `xYieldRequired` only if nobody waits for the mutex, so a giver that falls
  to its base priority and wakes a task that does not outrank it keeps running although a third
  task may outrank it (`MutexInversion.GiveTop` says exactly when), and may then take a just-given
  mutex whose waiters outrank it. `LostYieldExample.LostYieldInverts` is such a run from start-up;
  where no give loses its yield the bound holds (`MutexInversion.RunBounded`).
* The highest priority task waiting for an event is the first to be woken (tasks.c:3096-3107): event
  lists are sorted when a task joins, and not again when the priority of a waiting task changes
  (tasks.c:4085-4093). They stay in order exactly if no such change moves a waiter past its
  neighbour (`TaskEvents.OrderedExactly`); `RaisedWaiterExample.SignalPassesOverTheBest` is a run
  from start-up in which one does.
* `MQTT_Read_PUBLISH` weights the high byte of the topic length by 128 where the writer uses 256
  (mqtt_client.c:239 and 463): `Mqtt.RecoversExactly`, and `Mqtt.LongTopicLost` for an input.
* `xTaskCheckForTimeOut` cannot see that whole wraps went by: `Timeouts.RightUnlessAliased`, and
  `Timeouts.LateUnseen` for an input.

## Reading the proofs

A sum of clock wraps and the tick count is the unbounded time; nothing in the code holds it.
Histories such as callbacks made, bytes sent or rounds completed are kept in the state so that
theorems can speak of whole runs. A run is any sequence of actions; an action that is not enabled
leaves the state alone. Critical sections are single steps, a yield is a scheduling step, and a
block time is a step that may end the wait at any moment.

## Model

| member | source | states |
|---|---|---|
| LinkedList.List.constructor | Libraries/FreeRTOS/list.c:50-72 | an initialised list is the end marker alone, linked to itself, count 0 |
| LinkedList.List.Link | Libraries/FreeRTOS/list.c:101-113 | the four link assignments keep next and previous inverse, containers right and the count equal to the length |
| LinkedList.List.InsertEnd | Libraries/FreeRTOS/list.c:87-114 | on the links: the item goes in just before the one under the index |
| LinkedList.List.FindPosition | Libraries/FreeRTOS/list.c:137-173 | the search ends for every value, `portMAX_DELAY` included, at the last item whose value is not greater |
| LinkedList.List.Insert | Libraries/FreeRTOS/list.c:117-185 | on the links: the item lands after every smaller or equal value; the index stays on its item |
| LinkedList.List.Remove | Libraries/FreeRTOS/list.c:188-214 | on the links: exactly that item leaves, an index on it steps back, the new count is returned |
| LinkedList.List.NextEntry | Libraries/FreeRTOS/include/list.h:281-292 | the index moves on over the end marker and its owner is returned |
| ListView.SortedInsert | Libraries/FreeRTOS/list.c:137-173 | inserting into a sorted list gives a sorted list with equal values in arrival order |
| ListView.RoundRobin | Libraries/FreeRTOS/include/list.h:281-292 | from any list state, n next-entry steps on n items visit each exactly once |
| ListView.VisitsFollowOrder | Libraries/FreeRTOS/include/list.h:281-292 | any number of next-entry steps follows the cyclic visiting order |
| ListView.InsertEndOrder | Libraries/FreeRTOS/list.c:87-114 | a new item is visited after all items but the one the index sits on; the order of the others stays |
| ListView.RemoveOrder | Libraries/FreeRTOS/list.c:188-214 | removing any item, also the one under the index, keeps the visiting order of the others |
| Kernels.Kernel.IncrementTick | Libraries/FreeRTOS/tasks.c:2727-2896 | the tick in place: it computes the specified state and asks for a switch exactly when the specification does |
| Kernels.Kernel.UnblockDueTasks | Libraries/FreeRTOS/tasks.c:2761-2837 | the draining loop of the tick computes what waking all due sleepers means, and ends |
| Kernels.Kernel.ResumeAll | Libraries/FreeRTOS/tasks.c:2211-2315 | the two loops of the last resume: pending tasks are readied, then every held-back tick is replayed |
| Kernels.Kernel.SwitchContext | Libraries/FreeRTOS/tasks.c:3012-3085 | the downward search from the cached bound stops at the highest non-empty ready list, whose next entry runs |
| Kernels.Kernel.AddCurrentTaskToDelayedList | Libraries/FreeRTOS/tasks.c:5274-5346 | the caller moves to the suspended, overflow or current delayed list, and the cached unblock time is lowered if needed |
| Kernels.Kernel.ResetNextTaskUnblockTime | Libraries/FreeRTOS/tasks.c:3997-4015 | the cache becomes the first wake time, or the maximum if nobody sleeps |
| Kernels.Kernel.RemoveFromEventList | Libraries/FreeRTOS/tasks.c:3174-3239 | the first waiter leaves its event list and is readied, or held pending while the scheduler is suspended |
| Kernels.Kernel.PlaceOnEventList | Libraries/FreeRTOS/tasks.c:3088-3110 | the caller's event item is sorted in by priority and the caller blocks |
| Kernels.Kernel.PriorityInherit | Libraries/FreeRTOS/tasks.c:4065-4148 | the holder is raised, moved between ready lists if ready, and the return value tells whether it runs on a borrowed priority |
| Kernels.Kernel.PriorityDisinherit | Libraries/FreeRTOS/tasks.c:4155-4228 | the giver falls to its base exactly when it gives its last mutex on a borrowed priority |
| Kernels.Kernel.DisinheritAfterTimeout | Libraries/FreeRTOS/tasks.c:4235-4331 | a holder of one mutex falls to the larger of its base and the best waiter left |
| TaskPartition.InheritanceKeeps | Libraries/FreeRTOS/tasks.c:4065-4331 | inheriting and both ways of disinheriting keep every ready task in the list of its priority, the count and the bound |
| TaskPartition.IncrementTickKeeps | Libraries/FreeRTOS/tasks.c:2727-2855 | a tick keeps every state item in exactly one list, the count and the bound |
| TaskPartition.AddCurrentToDelayedKeeps | Libraries/FreeRTOS/tasks.c:5274-5346 | blocking keeps the partition of the tasks over the lists |
| TaskPartition.RemoveFromEventListKeeps | Libraries/FreeRTOS/tasks.c:3174-3239 | waking by an event keeps the partition |
| TaskPartition.ResumeAllKeeps | Libraries/FreeRTOS/tasks.c:2211-2315 | resuming keeps the partition, whatever was pending |
| TaskPartition.AddNewTaskKeeps | Libraries/FreeRTOS/tasks.c:1069-1150 | a created task is counted and in the ready list of its priority |
| TaskPartition.DeleteTaskKeeps | Libraries/FreeRTOS/tasks.c:1155-1243 | a deleted task leaves its lists; one that deletes itself is still counted, in the termination list |
| TaskPartition.CleanUpKeeps | Libraries/FreeRTOS/tasks.c:3689-3714 | freeing a terminated task keeps count and lists in step |
| TaskPartition.SwitchContextPicksHighest | Libraries/FreeRTOS/tasks.c:136-151 | with some task ready, the switch picks a ready task that no ready task outranks, and the bound becomes its priority |
| TaskTime.DeadlinesByEpoch | Libraries/FreeRTOS/tasks.c:201-213 | the current list holds exactly the sleepers of this epoch of the unbounded clock, the overflow list those of the next, all within one wrap |
| TaskTime.SwitchFindsEmptyList | Libraries/FreeRTOS/tasks.c:201-213 | the assertion at the swap holds: when the tick count wraps, the current list is empty |
| TaskTime.TickWakesExactly | Libraries/FreeRTOS/tasks.c:2727-2837 | one tick advances the unbounded clock by one, readies exactly the sleepers whose deadline that is, and touches no other task |
| TaskTime.WakeDueEffect | Libraries/FreeRTOS/tasks.c:2761-2837 | the loop readies exactly the sleepers due now and repairs the cached unblock time |
| TaskTime.PreemptorExact | Libraries/FreeRTOS/tasks.c:2819-2834 | the loop asks for a switch exactly if it wakes a task of at least the running priority |
| TaskTime.DelaySetsDeadline | Libraries/FreeRTOS/tasks.c:5274-5346 | blocking for n ticks sets the deadline n ticks after the tick count seen, whichever list it lands in; without a limit no tick wakes it |
| TaskTime.EventWakeTime | Libraries/FreeRTOS/tasks.c:3174-3239 | waking by an event leaves all other tasks and the clock invariants alone |
| TaskTime.ReplayTime | Libraries/FreeRTOS/tasks.c:2266-2290 | ticks held back are replayed one by one: each sleeper wakes at its own tick |
| TaskTime.ResumeWakesExactly | Libraries/FreeRTOS/tasks.c:2211-2320 | after the last resume the clock has advanced by the held-back ticks and exactly the sleepers they reach, or events woke, are ready |
| TaskRuns.StepKeeps | Libraries/FreeRTOS/tasks.c:1069-5346 | every scheduler call keeps partition, clock and event lists in order, and wakes sleepers only as time or its own purpose demands |
| TaskRuns.RunKeeps | Libraries/FreeRTOS/tasks.c:1069-5346 | so does every sequence of them |
| TaskRuns.TicksAccounted | Libraries/FreeRTOS/tasks.c:2727-2837 | ticks delivered are always 2^32 times the wraps, plus the count, plus the ticks held back, minus the initial count |
| TaskRuns.SleepsExactly | Libraries/FreeRTOS/tasks.c:2727-2837 | over any run a sleeper that nothing else wakes sleeps on before its deadline and is ready in the step that reaches it, pended ticks included |
| TaskRuns.PartitionAlways | Libraries/FreeRTOS/tasks.c:3657-3686 | from start-up: every task in exactly one list, the right one if ready, the task count the total, the bound above every non-empty ready list |
| TaskTurns.TopExists | Libraries/FreeRTOS/tasks.c:136-151 | if any task is ready there is a highest priority with a ready task, and the switch finds it from any cached bound that is not too low |
| TaskTurns.SwitchTakesTurn | Libraries/FreeRTOS/tasks.c:3012-3085 | with a ready task of the highest priority and nothing suspended, the first in turn of that priority runs and goes to the end of the turns; no control block and no list changes otherwise |
| TaskTurns.EachRunsOnce | Libraries/FreeRTOS/tasks.c:136-151 | as many switches in a row as tasks are ready at the highest priority run each of them exactly once |
| TaskTurns.ReadyComesLast | Libraries/FreeRTOS/tasks.c:221-225 | a task that becomes ready takes its turn after all others of its priority but the one that the index is on |
| TaskTurns.LeavingKeepsTurns | Libraries/FreeRTOS/list.c:188-214 | a task that leaves its ready list changes nobody else's turn |
| TaskTurns.WokenComeLast | Libraries/FreeRTOS/tasks.c:2761-2837 | the tasks that a tick wakes take their turns after the others, in the order in which they slept |
| TaskTurns.PendingComeLast | Libraries/FreeRTOS/tasks.c:2236-2258 | tasks woken while the scheduler was suspended take their turns after the others, in the order of their events |
| TaskPriorities.InheritExact | Libraries/FreeRTOS/tasks.c:4065-4148 | a holder that inherits has the larger of its own and the caller's priority; if it is ready it moves to the end of the turns of that priority; nobody else is touched |
| TaskPriorities.DisinheritExact | Libraries/FreeRTOS/tasks.c:4155-4228 | the giver of its last mutex has its base priority and the turn that goes with it; giving any other changes no priority |
| TaskPriorities.TimeoutExact | Libraries/FreeRTOS/tasks.c:4235-4331 | after a timeout a holder of one mutex has the best of its base priority and the waiters left, in the ready list of it if it was ready; a holder of several mutexes is unchanged |
| TaskEvents.PlaceExact | Libraries/FreeRTOS/tasks.c:3088-3110 | on a list that goes from high to low priority the caller waits behind every task that it does not outrank and before the rest, and the list stays in order |
| TaskEvents.SignalTakesBest | Libraries/FreeRTOS/tasks.c:3174-3239 | on such a list the task that is taken off is one that no other waiter outranks, and the rest stay in order; it is ready, or last of those held pending |
| TaskEvents.PriorityOrder | Libraries/FreeRTOS/tasks.c:4065-4331 | a change of priority leaves all event lists in order if and only if it does not move a waiting task past its neighbour |
| TaskEvents.OrderedExactly | Libraries/FreeRTOS/tasks.c:3096-3107 | in every run, all event lists go from high to low priority in every state if and only if no such change moves a waiter past its neighbour |
| TaskEvents.SignalsWakeTheBest | Libraries/FreeRTOS/tasks.c:3096-3107 | so from start-up, in every run in which waiting tasks keep their priority, the highest priority task is the first to be woken |
| RaisedWaiterExample.SignalPassesOverTheBest | Libraries/FreeRTOS/tasks.c:4085-4093 | without that condition it fails: in a run from start-up a waiter inherits priority 3 behind a waiter of priority 2, and the signal wakes the latter |
| TaskSwitches.TickAsksExactly | Libraries/FreeRTOS/tasks.c:2819-2896 | a tick asks for a switch exactly if one is pending, it wakes a task of at least the running priority, or another task shares that priority; not while the scheduler is suspended |
| TaskSwitches.SignalAsksExactly | Libraries/FreeRTOS/tasks.c:3217-3236 | an event leaves a switch pending exactly if one was or the task it wakes outranks the running one |
| TaskSwitches.ReplayAsksExactly | Libraries/FreeRTOS/tasks.c:2266-2290 | the ticks held back ask for a switch exactly as they would have done at their time |
| TaskSwitches.ResumeAsksExactly | Libraries/FreeRTOS/tasks.c:2236-2304 | the last resume leaves a switch pending exactly if one was, if it readies a task of at least the running priority, or if a tick was held back and another task shares that priority |
| TaskSwitches.StepRight | Libraries/FreeRTOS/tasks.c:1069-5346 | each call, made while no ready task outranks the running one, leaves that so or yields or leaves a switch pending |
| TaskSwitches.NoPreemptionMissed | Libraries/FreeRTOS/tasks.c:1069-5346 | in every run in which giving up a wait only lowers another task: whenever no switch is due or pending, the running task is ready and no ready task outranks it |
| TaskSwitches.RightFromStart | Libraries/FreeRTOS/tasks.c:1069-5346 | the same from start-up |
| TaskUnblock.WakeDueExact | Libraries/FreeRTOS/tasks.c:2761-2795 | after the loop of a tick the cached unblock time is exactly the first wake time in the current list, or the maximum if it is empty |
| TaskUnblock.TickKeepsCache | Libraries/FreeRTOS/tasks.c:2727-2837 | a tick keeps the cache exact, also when the delayed lists change places |
| TaskUnblock.DeleteExact | Libraries/FreeRTOS/tasks.c:1217-1225 | deleting another task makes the cache exact again |
| TaskUnblock.PendingExact | Libraries/FreeRTOS/tasks.c:2253-2264 | so does a resume that readies a task |
| TaskUnblock.DelayKeepsCache | Libraries/FreeRTOS/tasks.c:5274-5346 | blocking keeps it exact: it is lowered exactly if the caller is now the first to wake |
| TaskUnblock.SleepsBehindEquals | Libraries/FreeRTOS/tasks.c:5308-5342 | a task goes to sleep behind all that wake no later, so tasks with one wake time wake in the order in which they blocked |
| TaskLives.CreateExact | Libraries/FreeRTOS/tasks.c:1069-1150 | a new task runs at its own priority, holds and waits for nothing, and takes its turn after its equals; nobody else is touched |
| TaskLives.DeletedIsGone | Libraries/FreeRTOS/tasks.c:1155-1226 | a task deleted by another leaves the task count and all its lists at once, and nobody else's turn or place changes |
| TaskLives.DeletedItself | Libraries/FreeRTOS/tasks.c:1155-1213 | a task that deletes itself still counts, and waits for the idle task behind those that did so before |
| TaskLives.ReapsFirst | Libraries/FreeRTOS/tasks.c:3689-3714 | the idle task frees the one that has waited longest |
| Timeouts.TimeOut.CheckForTimeOut | Libraries/FreeRTOS/tasks.c:3311-3373 | the method that rewrites the time-out structure computes the specified verdict, remaining ticks and mark |
| Timeouts.RightUnlessAliased | Libraries/FreeRTOS/tasks.c:3347-3368 | the verdict on expiry is wrong if and only if at least one whole wrap went by, what exceeds the whole wraps is within the limit, and it carries the tick count past another wrap or the 32-bit wrap counter has come round |
| Timeouts.LateUnseen | Libraries/FreeRTOS/tasks.c:3347-3368 | an input for which it is wrong: a limit of 10 ticks is not seen to have passed after 2^32 + 2 ticks |
| Timeouts.NeverWithoutLimit | Libraries/FreeRTOS/tasks.c:3336-3345 | without a limit no check of any sequence ever expires |
| Timeouts.CheckExact | Libraries/FreeRTOS/tasks.c:3311-3373 | with at most one wrap since the last call, expiry and remaining time are exact |
| Timeouts.BudgetConserved | Libraries/FreeRTOS/tasks.c:3311-3373 | over any sequence of checks, remaining plus unbounded elapsed time is the original budget until the first expiry, which comes exactly when the budget is used up |
| Timeouts.ChecksEndAtFirstLate | Libraries/FreeRTOS/tasks.c:3311-3373 | the first check that is late enough, and no earlier one, ends the sequence |
| Timeouts.DelayDecisionExact | Libraries/FreeRTOS/tasks.c:1264-1309 | a periodic delay sleeps exactly if the next wake time is ahead, and for exactly the ticks that are left |
| Timeouts.DelayUntil | Libraries/FreeRTOS/tasks.c:1250-1330 | the whole call, through suspend, block and resume, computes the specified state, result and next wake time |
| Timeouts.DelayUntilDeadline | Libraries/FreeRTOS/tasks.c:1250-1330 | the whole call: the caller sleeps with the deadline one period after its previous wake time, however late it called, and stays ready if that time has passed |
| Timeouts.NoDrift | Libraries/FreeRTOS/tasks.c:1300-1301 | after any number of calls the stored wake time is the start plus all the periods |
| QueueRing.RingIsModulo | Libraries/FreeRTOS/queue.c:281-284 | stepping with wrap is addition modulo the length |
| QueueRing.BackAppends | Libraries/FreeRTOS/queue.c:2187-2200 | writing the slot after the last item appends to the deque |
| QueueRing.FrontPrepends | Libraries/FreeRTOS/queue.c:2201-2213 | writing the read slot and stepping it back prepends to the deque |
| QueueRing.ReadAdvances | Libraries/FreeRTOS/queue.c:2242-2259 | stepping the read slot takes the head off the deque |
| QueueRing.OffsetIsProduct | Libraries/FreeRTOS/queue.c:281-284 | the byte offset of a slot is slot times item size |
| QueueRing.FlatSlot | Libraries/FreeRTOS/queue.c:2187-2200 | a slot is found at its byte offset, and overwriting those bytes replaces that item only |
| QueueRing.PointerWraps | Libraries/FreeRTOS/queue.c:2192-2195 | the pointer comparison detects exactly the wrap of the slot number |
| QueueRing.RingQueue.constructor | Libraries/FreeRTOS/queue.c:266-330 | a reset queue is the empty deque, unlocked, with nobody waiting |
| QueueRing.RingQueue.CopyDataToQueue | Libraries/FreeRTOS/queue.c:2159-2239 | on the bytes: append, prepend or overwrite, for any length and item size, semaphores included; the write slot stays read slot + 1 + count modulo the length |
| QueueRing.RingQueue.RemoveItem | Libraries/FreeRTOS/queue.c:1386-1390 | on the bytes: the head item is copied out and counted off |
| QueueRing.RingQueue.Send | Libraries/FreeRTOS/queue.c:829-932 | the critical section of a send on the byte ring does what the deque section does |
| QueueRing.RingQueue.Receive | Libraries/FreeRTOS/queue.c:1376-1415 | the critical section of a receive or take on the byte ring |
| QueueRing.RingQueue.Peek | Libraries/FreeRTOS/queue.c:1738-1790 | a peek copies the head and puts the read position back: the deque is unchanged |
| QueueRing.RingQueue.SendISR | Libraries/FreeRTOS/queue.c:1050-1175 | a send from an interrupt deposits, and wakes a receiver or only counts itself on a locked queue |
| QueueRing.RingQueue.ReceiveISR | Libraries/FreeRTOS/queue.c:1864-1955 | a receive from an interrupt, likewise for senders |
| QueueRing.RingQueue.UnlockQueueTx | Libraries/FreeRTOS/queue.c:2263-2349 | the first half of the unlock wakes one receiver per counted send, while there are any, and unlocks |
| QueueRing.RingQueue.UnlockQueueRx | Libraries/FreeRTOS/queue.c:2352-2380 | the second half, for senders |
| QueueLaws.FrontIsNext | Libraries/FreeRTOS/queue.c:2201-2213 | a send to the front works exactly if there is room; the next receive, by a task or an interrupt, gets that item and leaves what was there before |
| QueueLaws.BackIsLast | Libraries/FreeRTOS/queue.c:2187-2200 | a send to the back works exactly if there is room; with n items there it is delivered by the (n+1)-th receive, after the n others in order, and then nothing is left |
| QueueLaws.OverwriteReplaces | Libraries/FreeRTOS/queue.c:2215-2230 | overwriting a queue of length 1 always works, and the next receive gets the new item and leaves nothing |
| QueueLaws.PeekShowsNext | Libraries/FreeRTOS/queue.c:1738-1790 | a peek shows what the next receive gets, and leaves it there |
| QueueLaws.SendWakes | Libraries/FreeRTOS/queue.c:829-932 | a send that fails changes nothing; one that works wakes the first receiver, if any, and leaves all else; from an interrupt on a locked queue it is counted instead |
| QueueLaws.ReceiveWakes | Libraries/FreeRTOS/queue.c:1376-1415 | likewise for a receive and the first sender |
| QueueLaws.PeekWakes | Libraries/FreeRTOS/queue.c:1738-1790 | a peek that finds an item wakes the next receiver in its own stead |
| QueueLaws.UnlockWakes | Libraries/FreeRTOS/queue.c:2263-2380 | an unlock wakes the first waiting tasks in order, as many as transfers were counted or as there are |
| QueueLaws.FirstInFirstOut | Libraries/FreeRTOS/queue.c:804-2380 | over any run of sends to the back, receives, peeks, locks and unlocks by tasks and interrupts: the items received, then those still there, are those at the start, then those sent, in order |
| QueueLaws.ItemsConserved | Libraries/FreeRTOS/queue.c:804-2380 | over any run without overwriting, whichever end items are sent to: every item accepted is received once or still there |
| QueueCalls.FirstLook | Libraries/FreeRTOS/queue.c:829-953 | a look at the queue serves the call exactly if there is an item, or room, or it overwrites; else it fails at once if it must not wait, and changes nothing |
| QueueCalls.Locks | Libraries/FreeRTOS/queue.c:964-970 | before it looks again the task has stopped all other tasks, and both lock counts are in use |
| QueueCalls.TriesAgain | Libraries/FreeRTOS/queue.c:999-1003 | a call that can be served by then tries again at once, on no event list and with the queue unlocked |
| QueueCalls.GoesToSleep | Libraries/FreeRTOS/queue.c:1446-1462 | one that cannot joins the event list of its kind, unless the unlock has woken it already for what interrupts did meanwhile |
| QueueCalls.GivesUp | Libraries/FreeRTOS/queue.c:1004-1012 | when its time is over a sender gives up, and a receiver looks once more |
| QueueCalls.LastLookEnds | Libraries/FreeRTOS/queue.c:1471-1490 | it gives up too exactly if there is still no item |
| QueueProtocol.StepKeeps | Libraries/FreeRTOS/queue.c:804-2380 | every critical section and interrupt keeps the account of units, woken tasks and counted interrupts balanced on both sides |
| QueueProtocol.NoLostWakeup | Libraries/FreeRTOS/queue.c:251-263 | in every interleaving, while a task waits to receive, the messages are at most the woken receivers that have not looked again plus the counted sends; mirrored for senders |
| QueueProtocol.QuiescentMeansServed | Libraries/FreeRTOS/queue.c:1376-1490 | once no call is in progress and no woken task is left, nobody waits for what is there |
| QueueProtocol.NeverOverfull | Libraries/FreeRTOS/queue.c:829-833 | the number of items never exceeds the length, interrupts included |
| QueueProtocol.LockLimitLosesWakeups | Libraries/FreeRTOS/queue.c:1158-1167 | why the asserts on the lock counts matter: in a run from any fresh queue of more than 127 items, 128 sends from interrupts wrap the 8-bit count, and a receiver waits on with 128 messages there and nothing in progress |
| MutexAccounting.TakeAccounted | Libraries/FreeRTOS/queue.c:1532-1553 | taking a mutex adds it to the mutexes that name the task and to its counter |
| MutexAccounting.GiveAccounted | Libraries/FreeRTOS/queue.c:2170-2186 | giving one takes it off both, and the priority is the base once none is left |
| MutexAccounting.BlockAccounted | Libraries/FreeRTOS/queue.c:1620-1650 | blocking with inheritance changes no count and no holder |
| MutexAccounting.AfterTimeoutAccounted | Libraries/FreeRTOS/tasks.c:4235-4331 | disinheriting after a timeout keeps the accounts |
| MutexAccounting.RunAccounted | Libraries/FreeRTOS/queue.c:511-534 | over any run and any number of mutexes: count 0 iff held, counter = number of mutexes naming the task, priority at least the base and equal to it when none is held |
| MutexInversion.TakeThis | Libraries/FreeRTOS/queue.c:1532-1553 | a take by a task not below the first waiter leaves a holder that outranks every task still waiting |
| MutexInversion.UnsafeBreaks | Libraries/FreeRTOS/queue.c:1532-1553 | a take by a task below the first waiter breaks the bound at once |
| MutexInversion.LedTakesSafely | Libraries/FreeRTOS/queue.c:1532-1553 | while no ready task outranks the running one, whoever finds a mutex free is not below its waiters, because the task woken for it is ready |
| MutexInversion.BlockBounded | Libraries/FreeRTOS/tasks.c:4065-4148 | after a task blocks, every holder still outranks its waiters |
| MutexInversion.DisinheritedFacts | Libraries/FreeRTOS/queue.c:2134-2154 | after a timeout the holder falls no lower than the best task that still waits |
| MutexInversion.GiveTop | Libraries/FreeRTOS/queue.c:897-929 | after a give no ready task outranks the running one, or a switch is due, if and only if the give did not lose its yield |
| MutexInversion.BoundedExactly | Libraries/FreeRTOS/tasks.c:4065-4334 | in every run with no task blocking while it holds a mutex: in every state each holder's priority is at least that of every task waiting for its mutex, if and only if every take of a free mutex is by a task not below the first one that waits |
| MutexInversion.RunBounded | Libraries/FreeRTOS/tasks.c:4065-4334 | so the bound holds in every such run in which no give loses its yield |
| LostYieldExample.GivesBoth | Libraries/FreeRTOS/queue.c:897-929 | the step of that run that goes wrong: the give wakes a task of priority 1, lowers the giver to 1 and does not yield to the ready task of priority 3 |
| LostYieldExample.LostYieldInverts | Libraries/FreeRTOS/queue.c:897-929 | without that condition it fails: in a run from start-up in which nobody blocks while holding a mutex, a lost yield and a retake leave a holder of priority 1 below a task of priority 2 that waits for its mutex |
| MutexLoans.LoanBegins | Libraries/FreeRTOS/queue.c:1618-1650 | a task that blocks on a held mutex: the holder has the larger of both priorities, the caller waits behind all that are not below it, and the call remembers that it lent exactly if the holder's base priority is lower |
| MutexLoans.LoanTaken | Libraries/FreeRTOS/queue.c:1532-1575 | a free mutex is taken: the taker holds one more, and no priority changes |
| MutexLoans.LoanRepaid | Libraries/FreeRTOS/queue.c:897-929 | a give: the giver of its last mutex has its base priority, the first waiter is ready, and a switch is due exactly if that one outranks the giver, or nobody waits and the giver fell |
| MutexLoans.WaitEnds | Libraries/FreeRTOS/tasks.c:2787-2834 | a waiter whose time is over alone leaves the list, and a switch is due unless the running task outranks it |
| MutexLoans.LoanEnds | Libraries/FreeRTOS/tasks.c:4235-4331 | it gives up: a holder of this mutex alone falls to its base priority or, if higher, the best waiter left, and to the base if nobody is left; a holder of several mutexes and all other tasks keep what they have |
| MutexLoans.CallMoves | Libraries/FreeRTOS/queue.c:1494-1706 | the other moves of a call change nothing else; it ends when the mutex is taken and it must not wait, or when its time is over and it has lent nothing |
| MutexLoans.RunLoans | Libraries/FreeRTOS/tasks.c:4065-4331 | over every run in which a task asks for a mutex only while it holds none, and takes are safe, a waiter that the holder's base does not cover remembers its loan, and every raised holder has a lender |
| MutexLoans.NoLoanOutlivesItsLender | Libraries/FreeRTOS/tasks.c:4235-4331 | so from start-up, in every such run: a task above its base priority holds a mutex that a task of exactly that priority waits for, or is about to try again or to give up |
| Timers.TimerDaemon.InsertTimerInActiveList | Libraries/FreeRTOS/timers.c:710-751 | the method computes the specified lists and verdict |
| Timers.TimerDaemon.ReloadTimer | Libraries/FreeRTOS/timers.c:517-533 | the reload loop computes the specified reload, and ends |
| Timers.TimerDaemon.ProcessExpiredTimer | Libraries/FreeRTOS/timers.c:536-559 | the head timer is unlinked, reloaded or deactivated, and called back |
| Timers.TimerDaemon.SwitchTimerLists | Libraries/FreeRTOS/timers.c:902-924 | the loop drains the current list, and ends, before the lists change places |
| Timers.TimerDaemon.SampleTimeNow | Libraries/FreeRTOS/timers.c:687-707 | the lists are switched when the sampled count is below the last |
| Timers.TimerDaemon.ProcessCommand | Libraries/FreeRTOS/timers.c:754-899 | the body of the command loop, command by command |
| Timers.TimerDaemon.ProcessTimerOrBlockTask | Libraries/FreeRTOS/timers.c:598-684 | process the head, or block for the specified time |
| TimerRuns.InsertExact | Libraries/FreeRTOS/timers.c:710-751 | with less than a wrap between command and handling, a timer is reported expired iff its unbounded expiry is not after now, and else filed under exactly that time, in the right epoch's list |
| TimerRuns.ReloadExact | Libraries/FreeRTOS/timers.c:517-533 | a backlogged reload calls back once per further elapsed expiry and files the first one ahead |
| TimerRuns.BacklogExact | Libraries/FreeRTOS/timers.c:517-533 | that number of callbacks is the exact count of elapsed expiries |
| TimerRuns.ProcessExpiredExact | Libraries/FreeRTOS/timers.c:536-559 | all elapsed expiries of the head are called back, and no other timer is touched |
| TimerRuns.SwitchExact | Libraries/FreeRTOS/timers.c:902-924 | switching calls back everything due before the wrap, and moves every other timer unchanged into the next epoch |
| TimerRuns.SampleExact | Libraries/FreeRTOS/timers.c:687-707 | with samples less than a wrap apart, the lists are switched exactly when an epoch has ended |
| TimerRuns.RoundExact | Libraries/FreeRTOS/timers.c:598-684 | the daemon blocks only when no active timer is due: until exactly the first one in the current list is due, else until the count wraps (not at all at count 0), without limit exactly if no timer is active |
| TimerRuns.CommandExact | Libraries/FreeRTOS/timers.c:754-899 | start, stop, change-period and delete mean for the named timer what they say, however late they are handled; all others only move through elapsed expiries |
| TimerRuns.RunKeeps | Libraries/FreeRTOS/timers.c:562-595 | after every step of every run, timers created, commands handled and samples taken, a timer is active iff it is in exactly one list, and both lists are sorted |
| TimerRuns.ConsistentAlways | Libraries/FreeRTOS/timers.c:562-595 | the same from the daemon's start, with every listed expiry in the epoch of its list |
| TimerRuns.ListsByEpoch | Libraries/FreeRTOS/timers.c:687-751 | the current list holds exactly the expiries of the epoch of the last sample, the overflow list those of the next |
| TimerRuns.RunAccounts | Libraries/FreeRTOS/timers.c:562-595 | over any run the callbacks of an untouched timer are for its own expiries in turn, each elapsed |
| TimerRuns.CallbacksExact | Libraries/FreeRTOS/timers.c:517-559 | whenever the daemon has caught up, an auto-reload timer's expiry at start + k * period has been called back if and only if it has elapsed: once each, no more and no fewer |
| StreamRing.CountBytesExact | Libraries/FreeRTOS/stream_buffer.c:1230-1248 | the byte count on 32-bit words is right if and only if length plus distance fits a word or the head is behind |
| StreamRing.CountsExact | Libraries/FreeRTOS/stream_buffer.c:497-526 | up to 2^31 bytes both counts are exact, and together they are the length less one |
| StreamRing.StageMore | Libraries/FreeRTOS/stream_buffer.c:1140-1183 | writing behind the head leaves every unread byte alone |
| StreamRing.Published | Libraries/FreeRTOS/stream_buffer.c:756-760 | moving the head makes exactly the staged bytes unread |
| StreamRing.Consumed | Libraries/FreeRTOS/stream_buffer.c:1007-1013 | moving the tail consumes exactly the first unread bytes |
| StreamRing.LengthRoundTrip | Libraries/FreeRTOS/stream_buffer.c:735-741 | the length field is read back as written |
| StreamRing.FirstFrame | Libraries/FreeRTOS/stream_buffer.c:976-998 | in a buffer of framed messages the first four unread bytes give the first message and where the next begins |
| StreamBuffers.StreamBuffer.WriteBytes | Libraries/FreeRTOS/stream_buffer.c:1140-1183 | the two copies around the end of the array put every byte in its place and touch no other |
| StreamBuffers.StreamBuffer.ReadBytes | Libraries/FreeRTOS/stream_buffer.c:1186-1227 | the two copies around the end of the array fetch the bytes in order |
| StreamBuffers.StreamBuffer.WriteMessage | Libraries/FreeRTOS/stream_buffer.c:723-763 | a message goes in framed and whole or not at all, a stream takes what fits; an empty message is never published |
| StreamBuffers.StreamBuffer.Send | Libraries/FreeRTOS/stream_buffer.c:672-720 | a send accepts exactly what the free space allows and appends it to what is unread |
| StreamBuffers.StreamBuffer.ReadMessage | Libraries/FreeRTOS/stream_buffer.c:967-1016 | the first message comes out whole, or, with too little room, stays |
| StreamBuffers.StreamBuffer.Receive | Libraries/FreeRTOS/stream_buffer.c:910-964 | a receive takes the first bytes, or the first message, and leaves the rest |
| StreamBuffers.StreamBuffer.NextMessageLength | Libraries/FreeRTOS/stream_buffer.c:870-907 | the length reported is that of the first message, or 0 |
| StreamProtocol.UnreadNeverOverwritten | Libraries/FreeRTOS/stream_buffer.c:723-763 | no step of writer or reader changes an unread byte: the one only appends, the other only takes from the front |
| StreamProtocol.ReceivedIsPrefix | Libraries/FreeRTOS/stream_buffer.c:541-669 | in every interleaving of index reads, byte copies and index writes, bytes sent = bytes received + bytes unread |
| StreamProtocol.DeliveredIsPrefix | Libraries/FreeRTOS/stream_buffer.c:967-1016 | in every interleaving the messages delivered are the first ones accepted, whole and in order, and the buffer holds exactly the others |
| StreamProtocol.CountsAlways | Libraries/FreeRTOS/stream_buffer.c:1230-1248 | in every state spaces + bytes = length - 1, and a message buffer holds nothing or more than a length field |
| StreamProtocol.TooSmallLeavesMessage | Libraries/FreeRTOS/stream_buffer.c:985-1013 | a reader with too little room gets nothing and leaves the message; otherwise it fetches exactly that message |
| StreamProtocol.DecidesOnCurrentSpace | Libraries/FreeRTOS/stream_buffer.c:497-526 | in every interleaving a writer counts again if the tail has moved, and else decides on the space that is free at that moment: a message whole or not at all, of a stream what fits |
| StreamCalls.StreamReceives | Libraries/FreeRTOS/stream_buffer.c:910-964 | a whole receive from a stream takes the bytes that are there, as many as it has room for, and leaves the rest |
| StreamCalls.MessageReceives | Libraries/FreeRTOS/stream_buffer.c:967-1016 | a whole receive from a message buffer gets the first message if it has room for it, and else nothing, and then it stays |
| StreamCalls.WritingFinishes | Libraries/FreeRTOS/stream_buffer.c:723-763 | once decided, the writer's bytes follow the unread ones, and show all at once |
| EventWords.PackRoundTrip | Libraries/FreeRTOS/event_groups.c:376-397 | packing a condition into a word loses nothing, and the packed test is the wait condition |
| EventWords.SnapshotRoundTrip | Libraries/FreeRTOS/event_groups.c:603-610 | a woken task finds the snapshot, and can tell it from a timeout |
| EventGroupCode.EventGroup.SetBits | Libraries/FreeRTOS/event_groups.c:533-625 | on the linked list: the walk that unlinks items under its own feet visits each once and computes the specified group |
| EventGroupCode.EventGroup.WaitBits | Libraries/FreeRTOS/event_groups.c:317-406 | the first half of a wait on the linked list |
| EventGroupCode.EventGroup.Sync | Libraries/FreeRTOS/event_groups.c:194-254 | the first half of a rendezvous on the linked list |
| EventGroups.SetBitsExact | Libraries/FreeRTOS/event_groups.c:533-625 | setting bits wakes exactly the waiters met by old and new bits together, hands all the same snapshot, then clears exactly the bits that woken clear-on-exit waiters waited for |
| EventGroups.NotMetKeepsOrder | Libraries/FreeRTOS/event_groups.c:560-616 | those left waiting keep their order |
| EventGroups.SetBitsUnsatisfied | Libraries/FreeRTOS/event_groups.c:533-625 | after setting bits no waiting task's condition is met |
| EventRuns.NoSatisfiedWaiter | Libraries/FreeRTOS/event_groups.c:317-625 | in every reachable state no task on the list has its condition met by the bits |
| EventRuns.WaitExact | Libraries/FreeRTOS/event_groups.c:317-406 | the entry of a wait: it blocks exactly if its condition, all of the bits or one of them, is not met and it may; else it returns the bits found; a bit goes exactly if the condition is met, clearing was asked for and the bit was waited for; nobody else is touched |
| EventRuns.MeetExact | Libraries/FreeRTOS/event_groups.c:194-254 | the entry of a rendezvous: it blocks exactly if not all bits are there and it may; what it returns, and bit by bit what is cleared, by it and by the tasks that its bits wake |
| EventRuns.ClearExact | Libraries/FreeRTOS/event_groups.c:473-498 | clearing takes away exactly those bits and wakes nobody |
| EventRuns.ExpireExact | Libraries/FreeRTOS/tasks.c:2787-2800 | a waiting task whose time is over stops waiting; the others keep their order, the bits and values stay |
| EventRuns.ReturnExact | Libraries/FreeRTOS/event_groups.c:418-462 | a task woken by bits returns a snapshot that met its condition and changes nothing; one that timed out returns the bits now, and a bit goes exactly if the condition is met by now, clearing was asked for and it was waited for |
| Barrier.LastOneReleasesAll | Libraries/FreeRTOS/event_groups.c:214-254 | a rendezvous completes exactly when everybody else waits; then all are woken and the last returns the whole mask |
| Barrier.LeaveExact | Libraries/FreeRTOS/event_groups.c:268-306 | every woken task returns the whole mask, and changes nothing |
| Barrier.NobodyLeavesEarly | Libraries/FreeRTOS/event_groups.c:194-314 | in every interleaving no task has left a round that another has not entered |
| Barrier.RoundStartsClear | Libraries/FreeRTOS/event_groups.c:218-228 | while nobody waits no bit of the mask is set |
| Mqtt.CountLengthBytes | Application/source/sw/mqtt_client.c:423-431 | the loop over powers of 128 finds the number of bytes that the length loop emits |
| Mqtt.RemainingRoundTrip | Application/source/sw/mqtt_client.c:447-461 | the standard's decoder reads back every length |
| Mqtt.WriteRemaining | Application/source/sw/mqtt_client.c:447-461 | the length loop, shared by CONNECT, SUBSCRIBE and UNSUBSCRIBE, writes exactly the encoding and nothing else |
| Mqtt.WritePublish | Application/source/sw/mqtt_client.c:414-483 | PUBLISH fills its allocation exactly, byte for byte |
| Mqtt.ReadPublish | Application/source/sw/mqtt_client.c:215-264 | the in-place shift leaves the last bytes of the packet, as many as computed, in front, with a NUL behind, and the rest alone |
| Mqtt.MessageLength | Application/source/sw/mqtt_client.c:215-247 | the scan and the subtractions compute the specified length |
| Mqtt.RecoversExactly | Application/source/sw/mqtt_client.c:239-247 | the reader finds the message length if and only if the topic is under 256 bytes or one topic byte happens to make up for the weight 128 of the high byte, for topics of any length |
| Mqtt.LongTopicLost | Application/source/sw/mqtt_client.c:239-247 | an input for which it does not: a topic of 256 letters a, with any message |
| Mqtt.PublishRoundTrip | Application/source/sw/mqtt_client.c:215-264 | for topics under 256 bytes what was written is what is read |
| Mqtt.StandardLength | Application/source/sw/mqtt_client.c:447-461 | the remaining length in the packet is the number of bytes that follow it |
| MqttStandard.StandardReads | Application/source/sw/mqtt_client.c:414-483 | a receiver that follows section 3.3 of MQTT Version 5.0 reads topic, properties and message as given, in a PUBLISH of quality of service 0 without flags, if and only if the length of the topic fits two bytes |
| Dns.QuerySize | Application/source/sw/dns_client.c:61-65 | header, name and trailer fill exactly len + 17 bytes |
| Dns.WriteName | Application/source/sw/dns_client.c:104-160 | the nested loops write the encoded name and end at its final 0 |
| Dns.BuildQuery | Application/source/sw/dns_client.c:62-168 | the whole packet, byte for byte |
| Dns.QueryDecodes | Application/source/sw/dns_client.c:104-160 | the labels joined by dots are the host name, and a server decodes them from the packet if and only if each is 1 to 63 bytes long |
| DnsStandard.StandardReads | Application/source/sw/dns_client.c:62-168 | a server that follows section 4.1 of RFC 1035 reads a standard query, recursion desired, with one question: the host name, type A, class IN |

## Left out

- `xNumOfOverflows` in the scheduler model is an unbounded count; module Timeouts has it as the 32-bit word it is.
- The held-back tick count of a suspended scheduler is a 32-bit word, but ticks are proved to be accounted for only while it does not wrap (fewer than 2^32 ticks during one suspension).
- `vTaskPrioritySet`, `vTaskSuspend` and `vTaskResume`: while a priority is inherited the first changes only the base, so the accounting of mutexes does not hold with it.
- `xQueueGenericReset` on a queue in use (it wakes one sender although every slot becomes free), queue deletion, and deletion of a task that is inside a queue, mutex or event group call.
- QueueRing.RingQueue.CopyDataToQueue: excludes `queueOVERWRITE` on a queue of length 1 with item size 0, which the source accepts (queue.c:814-815) and for which it counts one message more, past the length; item size 0 means a semaphore.
- QueueRing.RingQueue.Send: the same call is excluded.
- QueueRing.RingQueue.SendISR: the same call is excluded.
- Mqtt.CountLengthBytes: excludes lengths above 268435455, the largest the standard allows; the code then converts the fifth power of 128 to a 32-bit `size_t`, which C does not define.
- Mqtt.WritePublish: the same lengths are excluded.
- Mqtt.ReadPublish: excludes packets for which the subtractions wrap or the buffer has no room for the NUL; the code then reads and writes outside its buffer.
- The lock counts of a queue are assumed to stay below 127, as the code asserts where it increments them; `QueueProtocol.LockLimitLosesWakeups` shows what happens at the limit.
- Queue sets, the queue registry, recursive mutexes, co-routines, `xTaskAbortDelay`, tickless idle, the MPU, tracing, run-time statistics, stack checks and static allocation, which are off or only for debugging.
- Task notifications: a stream buffer's waiting is an abstract step that may repeat its check, and the trigger level is not modelled.
- Recomputing an event item value while an event group has borrowed it: the scheduler model keeps the borrowed value, the mutex model assumes that no event group is in use by its tasks.
- The kernel's lists are sequences with an index in the scheduler model; module LinkedList proves that the pointer code does those operations, but the scheduler class does not hold pointers itself. In the queue model an event list is a sequence in arrival order of the wakeups, and a task may join it at any place.
- Stream buffer lengths above 2^31 bytes, where the 32-bit counts can be wrong: `StreamRing.CountBytesExact` says exactly when.
- Resetting a stream buffer, changing its trigger level, and its creation in caller-supplied memory.
- `vEventGroupDelete`, and setting bits from interrupts, which is deferred to the timer daemon as an ordinary call.
- Pended function calls of the timer daemon, its command queue as a queue, and timer names and identifiers; a command names a timer that exists.
- A 32-bit word of event bits is modelled as the set of its one bits.
- The CONNECT, SUBSCRIBE and UNSUBSCRIBE packets beyond their length loop, the acknowledgement readers, and the packet identifier counter.
- The check of a host name that is already an IPv4 address, the random transaction identifier (a parameter), and the reading of the DNS answer.
- Sockets, TLS, lwIP, the board support code, the NTP and DHCP clients and the task wiring of the application.
