# libcorpc in Dafny

This project models the concurrent and stateful core of libcorpc, a C++ framework for
coroutine-based RPC, and proves what that core promises.

* **Coroutine switching** (`SharedStack`): coroutines that share stacks by copying them in and
  out refine coroutines that own their stacks.
* **Synchronisation** (`Mutex`, `MutexOrder`, `Semaphore`, `RWMutex`, with `Counting` and
  `Primitives`): the single-word mutex with starvation mode, the compare-exchange semaphore and the
  readers-writer lock are step machines over any number of coroutines. The mutex and the semaphore
  refine the lock and the counter of `Primitives`, and the upper layers are built on those.
* **Queues** (`MpscQueue`, `MpmcQueue`): the lock-free queue of one consumer with the pipe that
  wakes it, over an explicit heap with re-used addresses, and the blocking queue of many.
* **Time** (`TimerWheel` with `BitWords`, `IntrusiveLists`, `TimeoutLists`): the hashed timing
  wheel with its bitmap scan, the intrusive lists of the event loop, and the skip list of
  deadlines with rings of equal times, on the heap.
* **Messages** (`Crc`, `Codec`, `Framing`): checksum, cipher, head, encoding and decoding, and
  the pipelines between frames and chunks of a byte stream.
* **Reliable conversations** (`NormalLinks`, `MessageBuffers`, `SerialLink`): the buffer of
  unacknowledged messages, serial numbers, acknowledgements and replay over connections that
  break and are resumed.
* **Calls and pools** (`RpcCalls`, `ConnectPool`): the life of RPC calls across client threads,
  where a call is known by a re-usable coroutine address and its expiry, and the redis
  connection pool.

`dafny verify dfyconfig.toml` checks everything.

## What the models take for granted

* Atomic accesses are sequentially consistent, and one step is one such access. A weak
  compare-exchange may fail for no reason. Elapsed times, the pause detour of the mutex and the
  moment of every event are free choices, so the theorems hold for all of them.
* Clients unlock only what they hold, and a coroutine makes one call at a time.
* A readers-writer lock has fewer than 2^30 - 1 coroutines, its own limit of readers.
* Clocks are positive, and two passes of the wheel lie less than 2^31 milliseconds apart.
  `RpcCalls` lets its clock stand still but not go back; the wheel also covers a clock that
  goes back.
* In a timeout list the id is new, as the assertion at corpc/src/corpc_timeout_list.h:149 demands
  and `RpcCalls.TimerIdsAreNew` shows of its client, and the deadline lies strictly between 0 and
  2^64 - 1, the times of tail and header. The level of a new node is a parameter.
* A coroutine that is resumed is suspended and has not ended, one that is freed is not in the
  chain of resumptions, and that chain holds at most 128, the size of its array.
* The list given to `IntrusiveLists.Link.Join` is not empty unless the receiving one is: its
  first item is written to without a test.
* In `SerialLink` a connection sends fewer than 2^32 numbered messages. `Codec` and `Framing`
  count serials modulo 2^32.

## Where promises and code differ

* A comment at corpc/src/corpc_message_terminal.cpp:78-82 says that with a buffer configured an
  unbuffered message has serial 0. The code numbers it and lets the buffer skip the serial; the
  model follows the code.
* A comment at corpc/src/corpc_message_terminal.cpp:334 says that the checksum covers the head.
  The code covers the body only, and so does the model.
* A message of type 0 is sent with serial 0 but counted by the receiver.
  `SerialLink.TypeZeroIsRefused` is the instance, `SerialLink.SendIsAccepted` the exact condition.
* Replay bridges the gaps between buffered messages, but neither one before the first nor one
  after the last of them. `SerialLink.ReplayIsAccepted`, `SerialLink.NextAfterReplay` and
  `SerialLink.ResumableIsExact` give the exact conditions. `SerialLink.UnbufferedIsStuck` is the
  instance of a gap before the first: the connection is then never resumed again
  (`SerialLink.StuckForGood`), while a gap at the end is mended by the next buffered message
  (`SerialLink.StuckIsExact`).
* With a maximum of 0 connections every take() of a pool waits for nothing.
  `ConnectPool.RedisConnectPool.WaitersAreServed` says that this is the only such case.
* At co/src/co_routine.cpp:591 the mask is shifted by 64 when the second ends on bit 63, that is
  for a start index of 23 modulo 64; C++ leaves the result open. The parameter `full` of
  `TimerWheel.Wheel.GetNextTimeoutInASecond` says whether all bits or none come out. With none
  the wait is too short for the first timer if and only if that timer is 944 to 1000 milliseconds
  ahead, and it is never too long. `TimerWheel.OneTimerIsMissed` is an instance.

## Model

| member | source | states |
|---|---|---|
| `Mutex.PackedArithmetic` | corpc/src/corpc_mutex.cpp:22-29 | packing and unpacking the state word are inverse, and the fetch-adds on it change exactly one field each |
| `Mutex.HandOffArithmetic` | corpc/src/corpc_mutex.cpp:141-151 | the single fetch-add of a hand-off takes the lock and one waiter off, and ends starvation when asked to |
| `Mutex.StepKeepsInv` | corpc/src/corpc_mutex.cpp:22-274 | every atomic step of every coroutine keeps the invariant: who holds the lock, who owns WOKEN or a hand-off, the waiter count, the park list |
| `Mutex.RunsKeepInv` | corpc/src/corpc_mutex.cpp:22-274 | the invariant holds in every state of every interleaving of any number of coroutines |
| `Mutex.MutualExclusion` | corpc/src/corpc_mutex.cpp:22-29 | in every reachable state at most one coroutine is between the return of lock() and its unlock(), and then LOCKED is set |
| `Mutex.RefinesLock` | corpc/src/corpc_mutex.cpp:22-214 | seen from outside each step is a step of the abstract lock: holder unchanged, free lock taken by the stepping coroutine, or given back by its holder |
| `Mutex.NeverAborts` | corpc/src/corpc_mutex.cpp:90-186 | neither "inconsistent mutex state" exit nor the "unlock of unlocked mutex" exit is ever reached |
| `Mutex.TokensAreUnique` | corpc/src/corpc_mutex.cpp:75-160 | WOKEN has exactly one owner in normal mode; in starvation mode exactly one hand-off is under way while LOCKED is clear; a poster never finds an older deposit |
| `Mutex.WaitersAreAccounted` | corpc/src/corpc_mutex.cpp:75-152 | the waiter count equals the coroutines that queued, less the wake-ups already granted to them |
| `Mutex.NoWaiterIsStranded` | corpc/src/corpc_mutex.cpp:178-214 | waiters under a word with no flag always have an unlocker that will still try to wake one |
| `Mutex.DepositHasTaker` | corpc/src/corpc_mutex.cpp:216-274 | a wake-up deposited in dontWait_ always has a coroutine on its way into wait() that takes it |
| `Mutex.ParkedIsNotLost` | corpc/src/corpc_mutex.cpp:216-274 | a parked coroutine is in the park list, or popped by a post, or has its resume record |
| `Mutex.WordFitsInt32` | corpc/src/corpc_mutex.h:24-29 | with fewer than 2^28 coroutines the state word never leaves the non-negative range of int32_t |
| `MutexOrder.LocalsMove` | corpc/src/corpc_mutex.cpp:31-166 | a step changes what lockSlow remembers only so: a wait() marks waited, a wait() that was too long marks starving, and only getting the lock ends the memory |
| `MutexOrder.StepKeepsRemembered` | corpc/src/corpc_mutex.cpp:31-166 | what a coroutine remembers of its waits is what the history of the run says |
| `MutexOrder.QueueMoves` | corpc/src/corpc_mutex.cpp:216-274 | the park list changes by one parking, in front exactly if the history knows an earlier wait() in the same lock(), or by one post that takes the first |
| `MutexOrder.StepKeepsOrdered` | corpc/src/corpc_mutex.cpp:216-274 | every step keeps the park list in order: those that waited before first, the latest of them foremost, then the newcomers by arrival |
| `MutexOrder.LogsAreOrdered` | corpc/src/corpc_mutex.cpp:216-274 | the park list is in that order in every state of every run |
| `MutexOrder.WokenInOrder` | corpc/src/corpc_mutex.cpp:250-274 | in every run a post wakes the first in that order: among newcomers the one parked first, and anyone that waited before ahead of all newcomers |
| `MutexOrder.StarvationIsDeclared` | corpc/src/corpc_mutex.cpp:83-99 | in every run a coroutine that waited too long and has to queue again leaves the mutex in starvation mode |
| `MutexOrder.StarvationHandsOver` | corpc/src/corpc_mutex.cpp:129-158 | in every run nobody gets the lock in starvation mode but a coroutine that returned from wait(), and the mode ends exactly if that one was not late or saw itself the last waiter |
| `MutexOrder.Acquirers` | corpc/src/corpc_mutex.cpp:22-166 | the lock is got in three ways only: the fast path on a zero word, the slow path on a free word that is not starving, or a hand-off |
| `MutexOrder.UncontendedLock` | corpc/src/corpc_mutex.cpp:22-29 | with a zero word lock() returns after one compare-exchange, and unlock() restores the state |
| `MutexOrder.FreeIsTaken` | corpc/src/corpc_mutex.cpp:75-112 | a coroutine in lockSlow that runs alone takes a mutex that is neither locked nor handed over |
| `MutexOrder.UnlockWakesFirst` | corpc/src/corpc_mutex.cpp:168-274 | an unlock() that runs alone, with coroutines parked and no wake-up under way, writes the resume record of the first of them, in either mode |
| `Semaphore.StepKeepsInv` | corpc/src/corpc_semaphore.cpp:23-103 | every atomic step of wait() and post() keeps the invariant over res_, the list and the resume records |
| `Semaphore.RunsKeepInv` | corpc/src/corpc_semaphore.cpp:23-103 | that invariant holds in every state of every interleaving |
| `Semaphore.RefinesCounter` | corpc/src/corpc_semaphore.cpp:23-103 | each step is a step of the abstract counter, and permits change by exactly the posts made less the waits returned |
| `Semaphore.UnitsAreConserved` | corpc/src/corpc_semaphore.cpp:23-103 | initial units plus posts equal finished waits plus permits still about, and a free unit means an empty list |
| `Semaphore.ListIsGuarded` | corpc/src/corpc_semaphore.cpp:31-44 | only the coroutine that set res_ to -1 touches the waiter list, and there is one such at most |
| `Semaphore.ParkedIsNotLost` | corpc/src/corpc_semaphore.cpp:31-44 | a parked coroutine is queued, popped by a post or has its resume record: exactly one of the three, once |
| `Semaphore.StepKeepsOrdered` | corpc/src/corpc_semaphore.cpp:31-103 | every step keeps the waiter list in the order of parking |
| `Semaphore.LogsAreOrdered` | corpc/src/corpc_semaphore.cpp:31-103 | it is in that order in every state of every run |
| `Semaphore.ServedInOrder` | corpc/src/corpc_semaphore.cpp:65-103 | in every run a post that finds coroutines parked resumes the one that was parked first |
| `Semaphore.UnitIsTaken` | corpc/src/corpc_semaphore.cpp:50-54 | a wait() that runs alone takes a free unit |
| `Semaphore.PostFrees` | corpc/src/corpc_semaphore.cpp:65-103 | a post() that runs alone adds a unit if one is free or nobody waits |
| `Semaphore.PostWakesFirst` | corpc/src/corpc_semaphore.cpp:65-103 | a post() that runs alone writes the resume record of the first waiter, and adds no unit |
| `RWMutex.StepKeepsInv` | corpc/src/corpc_rwmutex.cpp:22-78 | every step keeps the balance between readerCount_, readerWait_, the two semaphores and the coroutines at each program point |
| `RWMutex.RunsKeepInv` | corpc/src/corpc_rwmutex.cpp:22-78 | that balance holds in every state of every interleaving |
| `RWMutex.UsesPrimitives` | corpc/src/corpc_rwmutex.cpp:22-78 | every step uses the abstract lock and counters as meant: it takes what is free, and wlock_ is given back by its holder only |
| `RWMutex.WriterExcludesAll` | corpc/src/corpc_rwmutex.cpp:22-63 | while a writer is inside no reader and no other writer is |
| `RWMutex.NeverAborts` | corpc/src/corpc_rwmutex.cpp:35-78 | the exits for unlocking an unlocked lock and for reader overflow are never reached by clients that pair their calls |
| `RWMutex.WriterIsPostedOnce` | corpc/src/corpc_rwmutex.cpp:65-78 | a post of the writer or its permit exists exactly when a writer sleeps and readerWait_ is zero, and then all earlier readers have left |
| `RWMutex.UnlockGrantsAllBehind` | corpc/src/corpc_rwmutex.cpp:35-50 | unlock() sets out to post one grant for each reader registered behind the writer, and no grant is left over from before |
| `RWMutex.NoReaderIsStranded` | corpc/src/corpc_rwmutex.cpp:35-63 | with no writer announced and no grant left to post, every waiting reader has a permit |
| `MpscQueue.ConsumeKeepsInv` | corpc/src/corpc_queue.h:70-98 | every step of pop() (detach, reversal node by node, take and free) keeps the invariant over both lists and the pipe |
| `MpscQueue.ProduceKeepsInv` | corpc/src/corpc_queue.h:54-68 | every step of push(), with a failed or a stale compare-exchange and a re-used address, keeps that invariant |
| `MpscQueue.RunsKeepInv` | corpc/src/corpc_queue.h:54-134 | that invariant holds in every state of every interleaving of any number of producers and the consumer |
| `MpscQueue.PopsInPushOrder` | corpc/src/corpc_queue.h:54-98 | the values that the producers were given, in order of their successful compare-exchanges, are the values popped followed by those still queued: none lost, changed, doubled or overtaken |
| `MpscQueue.BlockedOnlyWhenEmpty` | corpc/src/corpc_routine_env.cpp:267-326 | a consumer blocked on the empty pipe, with no producer before its write, has an empty queue, although writes to a full pipe are dropped |
| `MpscQueue.NoDanglingAccess` | corpc/src/corpc_queue.h:70-98 | neither side ever accesses a freed node |
| `MpmcQueue.StepKeepsInv` | corpc/src/corpc_queue.h:305-344 | every step keeps the balance of permits, queued items and coroutines between mutex and semaphore |
| `MpmcQueue.RunsKeepInv` | corpc/src/corpc_queue.h:305-344 | that balance holds in every state of every interleaving |
| `MpmcQueue.UsesPrimitives` | corpc/src/corpc_queue.h:305-344 | every step uses the abstract lock and counter as meant: the mutex is given back by its holder only |
| `MpmcQueue.PopsInPushOrder` | corpc/src/corpc_queue.h:310-338 | pop() never takes from an empty list, and what was pushed is what was popped and then what is queued |
| `MpmcQueue.BlockedOnlyWhenEmpty` | corpc/src/corpc_queue.h:328-338 | consumers blocked without a permit in sight wait on an empty queue |
| `ConnectPool.RedisConnectPool.constructor` | corpc_redis/src/corpc_redis.cpp:71-73 | an empty pool satisfies the invariant: count = idle + lent + being connected, at most the maximum, no connection in two places, nobody waits while one is idle |
| `ConnectPool.RedisConnectPool.Take` | corpc_redis/src/corpc_redis.cpp:75-159 | take() to its first yield gives the newest idle connection, or counts a new attempt, or queues at the end exactly when the pool is full; the rest is unchanged and the invariant kept |
| `ConnectPool.RedisConnectPool.TakeConnected` | corpc_redis/src/corpc_redis.cpp:88-143 | after the attempt the client owns the new connection, or the count goes back and every waiter is woken and fails too |
| `ConnectPool.RedisConnectPool.PopIdle` | corpc_redis/src/corpc_redis.cpp:79-83 | the newest idle connection leaves the list for a client that no other client shares |
| `ConnectPool.RedisConnectPool.Wake` | corpc_redis/src/corpc_redis.cpp:150-157 | a resumed waiter gets the newest idle connection or reports failure when there is none |
| `ConnectPool.RedisConnectPool.WakeAll` | corpc_redis/src/corpc_redis.cpp:133-143 | all waiters are resumed in order of arrival, each with a failure, and the list ends empty |
| `ConnectPool.RedisConnectPool.Put` | corpc_redis/src/corpc_redis.cpp:161-226 | put() keeps the invariant in all four cases of error and waiters: hand-over to the first waiter, return to the list, discard, or reconnect for the first waiter |
| `ConnectPool.RedisConnectPool.PutReconnected` | corpc_redis/src/corpc_redis.cpp:182-208 | after the reconnect the chosen waiter owns the new connection, or falls back to an idle one or to failure, and then every other waiter is woken and fails |
| `ConnectPool.RedisConnectPool.ClearIdle` | corpc_redis/src/corpc_redis.cpp:244-262 | exactly the expired connections at the front are closed and the count drops by their number |
| `ConnectPool.RedisConnectPool.WaitersAreServed` | corpc_redis/src/corpc_redis.cpp:75-226 | while somebody waits nothing is idle and all of the maximum is lent or being connected; so there is something to wait for if and only if the maximum is not 0 |
| `SharedStack.BytesSurviveSuspension` | co/src/co_routine.cpp:863-955 | over any run of the specification, a suspended coroutine finds its stack bytes unchanged, whatever the others do |
| `SharedStack.ResumeReturns` | co/src/co_routine.cpp:738-780 | a coroutine that is resumed runs, and when it yields or ends the chain of resumers is as before |
| `SharedStack.ChainIsKept` | co/src/co_routine.cpp:738-780 | over any run the part of the chain that is never unwound stays as it was |
| `SharedStack.ControlReturns` | co/src/co_routine.cpp:738-780 | over any run, after any balanced sequence of operations control is back with the same coroutine, below it the same resumers |
| `SharedStack.WrittenIsFound` | co/src/co_routine.cpp:863-955 | what a coroutine left on its stack before it resumed another or yielded is what it finds when it runs again |
| `SharedStack.NewStartsEmpty` | co/src/co_routine.cpp:631-689 | a new coroutine starts on an empty stack |
| `SharedStack.EndedForGood` | co/src/co_routine.cpp:616-629 | over any run a coroutine that has ended is not resumed again before it is released |
| `SharedStack.RunningSeesItsBytes` | co/src/co_routine.cpp:863-955 | the live part of the stack under the running coroutine is its private bytes of the specification |
| `SharedStack.SwapOutBystander` | co/src/co_routine.cpp:825-910 | the first half of co_swap leaves a third coroutine its bytes, in the memory or in its save buffer |
| `SharedStack.SwapInRestores` | co/src/co_routine.cpp:912-955 | the second half of co_swap puts the saved bytes of the coroutine switched to back in place and touches no other stack |
| `SharedStack.SwapKeeps` | co/src/co_routine.cpp:863-955 | a whole co_swap, fresh or resumed, same stack or not, keeps the bytes of every coroutine |
| `SharedStack.SwitchRefines` | co/src/co_routine.cpp:863-955 | so a switch of the shared-stack store is a switch of the private-stack specification |
| `SharedStack.CreateRefines` | co/src/co_routine.cpp:631-689 | creating a coroutine on a shared or an own stack refines creation in the specification |
| `SharedStack.ResumeRefines` | co/src/co_routine.cpp:738-751 | co_resume refines a resume in the specification |
| `SharedStack.RunRefines` | co/src/co_routine.cpp:616-629 | a coroutine that rewrites its whole stack changes its own private bytes only |
| `SharedStack.YieldRefines` | co/src/co_routine.cpp:772-780 | co_yield_env refines a yield in the specification |
| `SharedStack.EndRefines` | co/src/co_routine.cpp:616-629 | the end of a coroutine refines an end in the specification |
| `SharedStack.ReleaseRefines` | co/src/co_routine.cpp:703-729 | freeing a coroutine, occupant or not, refines a release and leaves the others their bytes |
| `SharedStack.Env.constructor` | co/src/co_routine.cpp:1017-1034 | a thread starts with its main coroutine alone on its own stack |
| `SharedStack.Env.SaveStackBuffer` | co/src/co_routine.cpp:825-853 | the save buffer becomes exactly the live bytes of the stack |
| `SharedStack.Env.SwapOut` | co/src/co_routine.cpp:863-910 | the first half of co_swap, as a function of the old store, with the notes the second half reads |
| `SharedStack.Env.CoSwap` | co/src/co_routine.cpp:863-955 | co_swap, as a function of the old store |
| `SharedStack.Env.Create` | co/src/co_routine.cpp:631-689 | keeps the store standing for the specification after a creation |
| `SharedStack.Env.Resume` | co/src/co_routine.cpp:738-751 | keeps the store standing for the specification after a resume; the call stack grows by the one resumed |
| `SharedStack.Env.Run` | co/src/co_routine.cpp:616-629 | keeps the store standing for the specification after arbitrary computation, which changes the stack of the runner and nothing else |
| `SharedStack.Env.Yield` | co/src/co_routine.cpp:772-780 | keeps the store standing for the specification after a yield; the call stack loses its last entry |
| `SharedStack.Env.End` | co/src/co_routine.cpp:616-629 | keeps the store standing for the specification after an end; the call stack loses its last entry |
| `SharedStack.Env.Release` | co/src/co_routine.cpp:703-729 | keeps the store standing for the specification after a release |
| `IntrusiveLists.Link.constructor` | co/src/co_routine.cpp:382-386 | a new list is empty and well linked |
| `IntrusiveLists.Link.AddTail` | co/src/co_routine.cpp:205-225 | an unlinked item goes to the end; an item that is in some list already stays where it is |
| `IntrusiveLists.Link.PopHead` | co/src/co_routine.cpp:227-251 | the first item leaves with all its links cleared; nothing happens to an empty list |
| `IntrusiveLists.Link.Join` | co/src/co_routine.cpp:253-281 | the other items follow the own ones in order, change owner, and the other list ends empty |
| `IntrusiveLists.Link.Tie` | co/src/co_routine.cpp:267-278 | the linking of Join: one well-linked list of both parts |
| `IntrusiveLists.Link.Adopt` | co/src/co_routine.cpp:261-266 | every item of the other list gets this list as its owner |
| `IntrusiveLists.RemoveFromLink` | co/src/co_routine.cpp:165-203 | an item leaves the list it is in from any place, the rest keeps its order, and its own links are cleared |
| `TimerWheel.AddKeeps` | co/src/co_routine.cpp:427-469 | placing an item by its deadline keeps the invariant (a slot that holds something is flagged, and no item sits later than its deadline): in its exact slot, or in the last one if that lies past the end |
| `TimerWheel.EmptyKeeps` | co/src/co_routine.cpp:501-508 | emptying a slot and clearing its flag keeps the invariant |
| `TimerWheel.DropKeeps` | co/src/co_routine.cpp:1047-1065 | removing one item, which leaves a stale flag, keeps the invariant |
| `TimerWheel.AdvanceKeeps` | co/src/co_routine.cpp:471-513 | once the slots up to now are empty nothing left is due, the start can move to now, and an item sits in the exact slot of its deadline afterwards if and only if it did before |
| `TimerWheel.OrderMore` | co/src/co_routine.cpp:499-509 | the list of the next slot joins what was taken before it in the order of slots, and inside a slot in the order of arming |
| `TimerWheel.DueInOrder` | co/src/co_routine.cpp:1120-1140 | leaving out what goes back to the wheel does not change the order of the rest |
| `TimerWheel.DeadlinesInOrder` | co/src/co_routine.cpp:1120-1140 | items in the exact slots of their deadlines then come in the order of the deadlines |
| `TimerWheel.PendingIsFlagged` | co/src/co_routine.cpp:462-466 | a slot that holds an item has its flag set |
| `TimerWheel.NothingFound` | co/src/co_routine.cpp:532-592 | a masked word without bits means no flag in that window |
| `TimerWheel.SomethingFound` | co/src/co_routine.cpp:532-611 | a masked word with bits gives, byte by byte, a place with a flag in the eight slots before it and none earlier |
| `TimerWheel.EndOfScan` | co/src/co_routine.cpp:558-592 | the scan ends at the word and bit 1000 slots on, for every start and wrap-around |
| `TimerWheel.FirstFlag` | co/src/co_routine.cpp:532-613 | where there is a flag there is a first one |
| `TimerWheel.EmptyMaskIsGood` | co/src/co_routine.cpp:590-592 | where the end bit is 63 and the shift by 64 yields an empty mask, the wait of 944 misses exactly the first flags from offset 944 on |
| `TimerWheel.OneTimerIsMissed` | co/src/co_routine.cpp:590-592 | the instance: a valid wheel with one timer 944 milliseconds ahead, which no wait that the scan may return with the empty mask outlasts |
| `TimerWheel.Wheel.constructor` | co/src/co_routine.cpp:398-419 | a new wheel has no items and no flags |
| `TimerWheel.Wheel.AddTimeout` | co/src/co_routine.cpp:427-469 | an item is accepted exactly when the clock has not gone back and its deadline is not past; it then is the last in the slot of its deadline, exact unless that lies past the end; otherwise nothing changes |
| `TimerWheel.Wheel.Remove` | co/src/co_routine.cpp:1056-1062 | a pending item leaves the slot that its link names, the others stay in order; an item without a link is left alone |
| `TimerWheel.Wheel.TakeSlot` | co/src/co_routine.cpp:501-508 | the whole list of a slot is taken and its flag cleared |
| `TimerWheel.Wheel.TakeAllTimeout` | co/src/co_routine.cpp:471-513 | taken and remaining items are those there were, none twice; nothing due remains; they come out slot by slot in the order of time, and inside a slot in the order of arming; a clock that went back takes nothing |
| `TimerWheel.Wheel.ScanStart` | co/src/co_routine.cpp:532-558 | the scan of the first word gives a good wait or shows the word clear |
| `TimerWheel.Wheel.ScanMiddle` | co/src/co_routine.cpp:560-588 | the scan of the words between gives a good wait or shows them clear |
| `TimerWheel.Wheel.ScanEnd` | co/src/co_routine.cpp:590-613 | the scan of the last word gives a wait that is early enough for every flag, and late enough exactly when the first flag is not lost by the mask |
| `TimerWheel.Wheel.GetNextTimeoutInASecond` | co/src/co_routine.cpp:515-614 | the wait is at most fifteen milliseconds past any flagged slot; it outlasts the first flag within a second if and only if the mask is not cut empty with that flag at an offset from 944 to 1000; without a flag in the second it is 937 to 1007 |
| `TimerWheel.Wheel.Detach` | co/src/co_routine.cpp:1090-1101 | the items of file events leave the wheel and no other does |
| `TimerWheel.Wheel.Callback` | co/src/co_routine.cpp:1134-1137 | the timers that a callback arms are pending exactly if they were accepted |
| `TimerWheel.Wheel.Pass` | co/src/co_routine.cpp:1090-1140 | one pass with any file events and any timers armed by callbacks processes the fired items, then exactly the pending items due, once each, in the order of slots and arming and so of exact deadlines; all others stay, and of the new timers exactly those accepted are pending |
| `BitWords.FlagSet` | co/src/co_routine.cpp:465-466 | setting a bit changes that flag only |
| `BitWords.FlagCleared` | co/src/co_routine.cpp:504-505 | clearing a bit changes that flag only |
| `BitWords.FlagFrom` | co/src/co_routine.cpp:535-536 | the start mask keeps exactly the flags from the start on |
| `BitWords.FlagUpTo` | co/src/co_routine.cpp:590-592 | the end mask keeps exactly the flags up to the end, and for end 63 what the shift yields |
| `BitWords.FlagShifted` | co/src/co_routine.cpp:534-536 | shifting down by whole bytes moves each flag by that much |
| `BitWords.FirstByteFinds` | co/src/co_routine.cpp:537-556 | the byte cascade finds the first byte with a flag in it |
| `TimeoutLists.TimeoutList.constructor` | corpc/src/corpc_timeout_list.h:111-117 | a new list stands for the empty map, on new nodes only |
| `TimeoutLists.TimeoutList.Insert` | corpc/src/corpc_timeout_list.h:141-195 | inserting adds exactly that id, deadline and data to the map the list stands for, as the last of its deadline, keeps the whole link structure, and adds only new nodes |
| `TimeoutLists.TimeoutList.Remove` | corpc/src/corpc_timeout_list.h:197-240 | removing a node, from a ring, by promotion or from the skip list, takes exactly its id out of the map, keeps the structure, and adds no node |
| `TimeoutLists.TimeoutList.GetLast` | corpc/src/corpc_timeout_list.h:242-250 | of the nodes of least deadline the one inserted last, or null exactly when the list is empty |
| `TimeoutLists.TimeoutList.GetNode` | corpc/src/corpc_timeout_list.h:252-260 | the node of that id, or null exactly when there is none |
| `TimeoutLists.TimeoutList.Empty` | corpc/src/corpc_timeout_list.h:262-265 | true exactly when the map is empty |
| `TimeoutLists.WakeExpired` | corpc/src/corpc_routine_env.cpp:334-353 | all calls due and no others are removed and woken, each once, in the order of their deadlines |
| `TimeoutLists.TimeoutList.Walk` | corpc/src/corpc_timeout_list.h:147-155 | along one level the walk stops at the last node not earlier than the time |
| `TimeoutLists.TimeoutList.Search` | corpc/src/corpc_timeout_list.h:143-156 | the descent finds on every level the neighbours between which the time belongs |
| `TimeoutLists.TimeoutList.AddToRing` | corpc/src/corpc_timeout_list.h:159-168 | a node of a known time joins the end of its ring, and the skip list stays as it is |
| `TimeoutLists.TimeoutList.AddToSkip` | corpc/src/corpc_timeout_list.h:169-190 | a node of a new time is linked on all its levels and the current top is raised |
| `TimeoutLists.TimeoutList.RemoveFromRing` | corpc/src/corpc_timeout_list.h:199-205 | a node without levels leaves its ring |
| `TimeoutLists.TimeoutList.Promote` | corpc/src/corpc_timeout_list.h:208-222 | the next node of the ring takes the place and the height of the removed one in the skip list, and its ring loses the first node |
| `TimeoutLists.TimeoutList.RemoveFromSkip` | corpc/src/corpc_timeout_list.h:223-234 | a lone node is unlinked on all its levels and the current top is lowered to the tallest left |
| `TimeoutLists.LevelStructure` | corpc/src/corpc_timeout_list.h:141-240 | in every valid list next and prev are inverse on every level, times fall strictly, no node of the level is skipped, and each level is part of the one below |
| `TimeoutLists.TopIsTallest` | corpc/src/corpc_timeout_list.h:170-233 | in every valid list maxCurLevel_ is the height of the tallest node, or 1 |
| `TimeoutLists.LevelPut` | corpc/src/corpc_timeout_list.h:181-189 | linking a node between two neighbours leaves the level in order with the node in it |
| `TimeoutLists.LevelCut` | corpc/src/corpc_timeout_list.h:226-233 | joining the neighbours leaves the level in order without the node |
| `TimeoutLists.LevelReplace` | corpc/src/corpc_timeout_list.h:217-222 | putting another node in the same place leaves the level in order |
| `TimeoutLists.RiseOne` | corpc/src/corpc_timeout_list.h:181-189 | one turn of the linking loop |
| `TimeoutLists.FallOne` | corpc/src/corpc_timeout_list.h:226-233 | one turn of the unlinking loop, and the neighbours it meets |
| `TimeoutLists.ReplaceOne` | corpc/src/corpc_timeout_list.h:219-222 | one turn of the promotion loop, and the neighbours it meets |
| `TimeoutLists.JoinRing` | corpc/src/corpc_timeout_list.h:161-168 | the four assignments put a node at the end of a ring |
| `TimeoutLists.PartRing` | corpc/src/corpc_timeout_list.h:202-205 | joining its neighbours takes a node out of a ring |
| `TimeoutLists.RingInsertKeeps` | corpc/src/corpc_timeout_list.h:159-168 | insertion into a ring keeps the structure of the whole list |
| `TimeoutLists.SkipInsertKeeps` | corpc/src/corpc_timeout_list.h:169-190 | insertion on the levels keeps the structure of the whole list |
| `TimeoutLists.RingRemoveKeeps` | corpc/src/corpc_timeout_list.h:199-205 | removal from a ring keeps the structure of the whole list |
| `TimeoutLists.PromoteKeeps` | corpc/src/corpc_timeout_list.h:208-222 | promotion keeps the structure of the whole list |
| `TimeoutLists.SkipRemoveKeeps` | corpc/src/corpc_timeout_list.h:223-234 | removal from the levels keeps the structure of the whole list |
| `TimeoutLists.Lone` | corpc/src/corpc_timeout_list.h:230-232 | above the lowest level, header and tail are neighbours exactly when the top is not higher |
| `TimeoutLists.TopUnique` | corpc/src/corpc_timeout_list.h:230-232 | the current top is determined by the heights |
| `TimeoutLists.NewInRing` | corpc/src/corpc_timeout_list.h:161-168 | a new node without levels, linked at the end of the ring |
| `TimeoutLists.NewInSkip` | corpc/src/corpc_timeout_list.h:179-189 | a new node, linked on all its levels |
| `TimeoutLists.HookAll` | corpc/src/corpc_timeout_list.h:181-189 | the linking loop, all levels |
| `TimeoutLists.RelinkAll` | corpc/src/corpc_timeout_list.h:218-222 | the promotion loop, all levels |
| `TimeoutLists.UnhookAll` | corpc/src/corpc_timeout_list.h:225-233 | the unlinking loop, all levels, with the count of the top |
| `TimeoutLists.TieEnds` | corpc/src/corpc_timeout_list.h:113-116 | header and tail are neighbours on every level |
| `Crc.TableIsBitSerial` | corpc/src/corpc_crc.cpp:5-38 | all 256 table entries are eight bit-steps of the reflected polynomial 0x8005 (section 6.2.2 of MODBUS over Serial Line V1.02) |
| `Crc.FastByte` | corpc/src/corpc_crc.cpp:40-48 | the table look-up is the bit-serial register fed with one byte |
| `Crc.Absorb` | corpc/src/corpc_crc.cpp:41-45 | one round of CheckSum is one byte of the bit-serial definition |
| `Crc.CheckSum` | corpc/src/corpc_crc.cpp:40-48 | the table-driven loop computes the bit-serial checksum of the bytes |
| `Crc.Append` | corpc/src/corpc_crc.cpp:40-48 | the checksum of a concatenation continues from the checksum of the first part |
| `Crc.Reverse` | corpc/src/corpc_crc.cpp:50-58 | bit k of the result is bit 15 - k of the argument |
| `Crc.ReflectedPolynomial` | corpc/src/corpc_crc.cpp:60-62 | the mirror image of 0x8005 is 0xA001 |
| `Crc.TableEntry` | corpc/src/corpc_crc.cpp:63-72 | the inner loop takes eight bit-steps |
| `Crc.InitTable` | corpc/src/corpc_crc.cpp:60-74 | with polynomial 0x8005 the table built at run time is the literal table |
| `Crc.Linear` | corpc/src/corpc_crc.cpp:63-72 | a bit-step is linear over exclusive or |
| `Crc.BitSerialIsFeed` | corpc/src/corpc_crc.cpp:40-48 | the checksum is the register fed with the bits of the message one by one |
| `Crc.RunsDiffer` | corpc/src/corpc_crc.cpp:40-48 | different bit runs of up to sixteen bits leave the register in different states |
| `Crc.BurstIsDetected` | corpc/src/corpc_crc.cpp:40-48 | messages that differ in one burst of up to sixteen bits, anywhere, have different checksums |
| `Crc.TwoBytesAreDetected` | corpc/src/corpc_crc.cpp:40-48 | in particular messages that differ within two consecutive bytes |
| `Codec.Back16` | corpc/src/corpc_message_terminal.cpp:269-274 | writing and reading a 16-bit field in network order is the identity |
| `Codec.Back32` | corpc/src/corpc_message_terminal.cpp:523-531 | writing and reading a 32-bit field in network order is the identity |
| `Codec.ValueCounts` | corpc/src/corpc_message_terminal.cpp:523-553 | bytes stand for the numbers 0 to 255 in order |
| `Codec.FieldBytes` | corpc/src/corpc_message_terminal.cpp:523-553 | the bytes of a field are the quotients of its value by powers of 256, the highest first |
| `Codec.BackCrc` | corpc/src/corpc_message_terminal.cpp:336-338 | writing and reading the checksum field is the identity |
| `Codec.CrcBytes` | corpc/src/corpc_message_terminal.cpp:551-553 | the checksum is sent high byte first |
| `Codec.CipherIsItsOwnInverse` | corpc/src/corpc_crypter.cpp:26-34 | decrypting what was encrypted gives the bytes back, for every key and length |
| `Codec.HeaderFields` | corpc/src/corpc_message_terminal.cpp:523-553 | every field read at its offset of the 22-byte head is the value that was written |
| `Codec.DecodeFrame` | corpc/src/corpc_message_terminal.cpp:261-412 | decoding an encoded frame gives, through checksum and cipher, exactly what the receiver is to make of the message, refusals included |
| `Codec.CorruptionIsRefused` | corpc/src/corpc_message_terminal.cpp:334-349 | with the checksum on, a body changed on the way by a burst of up to sixteen bits is refused and yields no task |
| `Codec.BodyOnTheWire` | corpc/src/corpc_message_terminal.cpp:437-473 | byte 22 + i of a frame with crypt set is byte i of the body exclusive-or byte i of the key, round and round; without it, byte i of the body |
| `Codec.OrdinaryFrame` | corpc/src/corpc_message_terminal.cpp:315-410 | an ordinary frame is refused if and only if its serial is not the next, its checksum is wrong, it is ciphered and there is no key, or its type is unknown; otherwise the task has its type, tag, acknowledged serial and deciphered body |
| `Codec.SystemFrame` | corpc/src/corpc_message_terminal.cpp:276-313 | a heartbeat takes the acknowledged serial to the worker, a jump moves the receiver forward or is refused, no other system frame has an effect |
| `Framing.Rechunk` | corpc/src/corpc_io.cpp:140-216 | two chunks one after the other leave the pipeline as their concatenation does |
| `Framing.ChunksDoNotMatter` | corpc/src/corpc_io.cpp:140-216 | however the stream is cut, the outcome is that of its bytes one by one |
| `Framing.FailureIsFinal` | corpc/src/corpc_io.cpp:176-203 | after an error no byte changes anything |
| `Framing.OversizedIsRefused` | corpc/src/corpc_io.cpp:163-181 | a head that announces more than 0x10000 bytes is refused on its last byte, and one that announces fewer is not |
| `Framing.OneFrame` | corpc/src/corpc_io.cpp:140-216 | the bytes of one frame have the effect of its message |
| `Framing.RoundTrip` | corpc/src/corpc_message_terminal.cpp:261-556 | the bytes of any log of messages have the effect of the messages, one after another |
| `Framing.AllDelivered` | corpc/src/corpc_message_terminal.cpp:315-332 | a log in sequence is accepted whole and handed on in order |
| `Framing.StreamIsDelivered` | corpc/src/corpc_io.cpp:88-216 | frames of a log in sequence, cut into any chunks, reach the worker as the messages sent, in order and complete |
| `Framing.FramesAppend` | corpc/src/corpc_io.cpp:88-135 | sending one more message appends its frame to the stream |
| `Framing.Encrypt` | corpc/src/corpc_crypter.cpp:26-30 | the loop in place turns byte k of that stretch into its exclusive-or with byte k of the key, round and round, and touches nothing else |
| `Framing.PutHeader` | corpc/src/corpc_message_terminal.cpp:523-553 | the stores write the head at its place and nothing else |
| `Framing.PutPayload` | corpc/src/corpc_message_terminal.cpp:437-453 | body, cipher and checksum as the frame defines them, at their place and nothing else |
| `Framing.TcpPipeline.constructor` | corpc/src/corpc_io.cpp:137-138 | a new pipeline has read nothing |
| `Framing.TcpPipeline.TakeHead` | corpc/src/corpc_io.cpp:148-161 | bytes go to the head until it is full or the chunk ends |
| `Framing.TcpPipeline.TakeBody` | corpc/src/corpc_io.cpp:184-197 | bytes go to the body until it is full or the chunk ends |
| `Framing.TcpPipeline.DecodeFun` | corpc/src/corpc_message_terminal.cpp:261-412 | decoding on the buffers, with decryption in place, is the decode function |
| `Framing.TcpPipeline.HeadRound` | corpc/src/corpc_io.cpp:148-181 | reading of the head is the byte-wise specification; an oversized body fails |
| `Framing.TcpPipeline.BodyRound` | corpc/src/corpc_io.cpp:184-197 | reading of the body is the byte-wise specification |
| `Framing.TcpPipeline.Complete` | corpc/src/corpc_io.cpp:199-212 | a complete frame is decoded, handed on and the state reset |
| `Framing.TcpPipeline.Round` | corpc/src/corpc_io.cpp:146-213 | one turn of the loop makes progress and is the byte-wise specification |
| `Framing.TcpPipeline.Upflow` | corpc/src/corpc_io.cpp:140-216 | a chunk taken at once has the effect of its bytes taken one by one, errors included |
| `Framing.MessagePipeline.constructor` | corpc/src/corpc_io.cpp:81-84 | a new pipeline has sent nothing |
| `Framing.MessagePipeline.Send` | corpc/src/corpc_io.cpp:325-328 | a message joins the end of the queue |
| `Framing.MessagePipeline.Encode` | corpc/src/corpc_message_terminal.cpp:414-556 | as much of the frame as there is room for, the rest of the body kept for later; nothing when the head does not fit; an error exactly when a key is missing |
| `Framing.MessagePipeline.Flush` | corpc/src/corpc_io.cpp:94-116 | what is left of the last body goes first |
| `Framing.MessagePipeline.EncodeFront` | corpc/src/corpc_io.cpp:118-132 | one turn of the loop sends from the front of the queue or reports why not |
| `Framing.MessagePipeline.Downflow` | corpc/src/corpc_io.cpp:88-135 | at all times the bytes emitted and kept are the frames of the messages taken from the queue, in order; it stops only for lack of room, of messages or of a key |
| `NormalLinks.NormalLink.constructor` | corpc/src/corpc_define.h:274-274 | a new list is empty |
| `NormalLinks.NormalLink.PushBack` | corpc/src/corpc_define.h:304-319 | the node goes to the end, links in both directions in order |
| `NormalLinks.NormalLink.PopFront` | corpc/src/corpc_define.h:321-340 | the first node leaves with its links cleared, or null for an empty list |
| `NormalLinks.NormalLink.Erase` | corpc/src/corpc_define.h:342-364 | the node leaves from any place and the rest keeps its order |
| `NormalLinks.NormalLink.EraseTo` | corpc/src/corpc_define.h:371-392 | everything up to and including the node goes |
| `NormalLinks.NormalLink.Clear` | corpc/src/corpc_define.h:419-430 | the list ends empty |
| `MessageBuffers.InsertKeeps` | corpc/src/corpc_message_buffer.cpp:32-67 | insertion keeps the buffer sound: serials increase up to the last one, the number is within the cap; and it keeps them after the last scrapped one |
| `MessageBuffers.InsertHolds` | corpc/src/corpc_message_buffer.cpp:32-88 | the next serial is held at the end and the older ones stay but for the first of a full buffer; a skipped serial changes none; any other serial breaks the buffer |
| `MessageBuffers.JumpKeeps` | corpc/src/corpc_message_buffer.cpp:69-88 | skipping a serial keeps the buffer sound, and the messages after the last scrapped one |
| `MessageBuffers.ScrapKeeps` | corpc/src/corpc_message_buffer.cpp:98-113 | an acknowledgement keeps the buffer sound; and up to the last serial it keeps the messages after the last scrapped one |
| `MessageBuffers.ScrapSpares` | corpc/src/corpc_message_buffer.cpp:98-113 | no message above the acknowledged serial is removed |
| `MessageBuffers.ScrapRemoves` | corpc/src/corpc_message_buffer.cpp:98-113 | no message up to the acknowledged serial stays, and none is made up |
| `MessageBuffers.SerialsCount` | corpc/src/corpc_message_buffer.cpp:34-59 | map and list have equally many entries |
| `MessageBuffers.IndexWithoutFirst` | corpc/src/corpc_message_buffer.cpp:36-40 | erasing the first node and its serial keeps map and list in step |
| `MessageBuffers.IndexWithNew` | corpc/src/corpc_message_buffer.cpp:55-59 | adding a node and its serial keeps map and list in step |
| `MessageBuffers.MessageBuffer.constructor` | corpc/src/corpc_message_buffer.h:37-37 | a new buffer is empty, whole and at serial 0 |
| `MessageBuffers.MessageBuffer.Reset` | corpc/src/corpc_message_buffer.cpp:24-30 | the buffer is empty, whole and at that serial |
| `MessageBuffers.MessageBuffer.Trim` | corpc/src/corpc_message_buffer.cpp:34-42 | a full buffer loses its oldest message and notes its serial |
| `MessageBuffers.MessageBuffer.DropFirst` | corpc/src/corpc_message_buffer.cpp:36-40 | the first node leaves list and map |
| `MessageBuffers.MessageBuffer.Append` | corpc/src/corpc_message_buffer.cpp:55-59 | the message joins the end of the list and the map |
| `MessageBuffers.MessageBuffer.InsertMessage` | corpc/src/corpc_message_buffer.cpp:32-67 | list and map change as the value-level insertion says, out-of-sequence serials break the buffer, and the result says whether it is whole |
| `MessageBuffers.MessageBuffer.JumpToSerial` | corpc/src/corpc_message_buffer.cpp:69-88 | list and map change as the value-level jump says, and the result says whether it is whole |
| `MessageBuffers.MessageBuffer.ScrapMessages` | corpc/src/corpc_message_buffer.cpp:98-113 | list and map change as the value-level acknowledgement says |
| `SerialLink.Connection.constructor` | corpc/src/corpc_message_terminal.cpp:22-24 | an open connection that has sent nothing |
| `SerialLink.Connection.Send` | corpc/src/corpc_message_terminal.cpp:61-108 | numbering, buffering, skipping and sending as the sender specification says; a closed connection uses no serial for an unbuffered message and sends nothing; an open one sends the message itself under its serial; the buffer gains new nodes only |
| `SerialLink.Connection.Resend` | corpc/src/corpc_message_terminal.cpp:110-135 | an open connection sends the buffered messages again with every gap between them bridged; a closed one sends nothing |
| `SerialLink.AcceptsForward` | corpc/src/corpc_message_terminal.cpp:276-332 | acceptance only moves forward, and every ordinary message on the way has a serial ahead of the receiver |
| `SerialLink.ReplayDelivers` | corpc/src/corpc_message_terminal.cpp:110-135 | what a replay delivers are the buffered messages, in order and complete |
| `SerialLink.SendIsAccepted` | corpc/src/corpc_message_terminal.cpp:91-107 | a message sent to a receiver that is up to date is accepted if and only if its type is neither 0 nor that of the jump message |
| `SerialLink.TypeZeroIsRefused` | corpc/src/corpc_message_terminal.cpp:91-103 | a message of type 0 goes out with serial 0 and is refused by a receiver that checks serials |
| `SerialLink.ReplayIsAccepted` | corpc/src/corpc_message_terminal.cpp:110-135 | replay is accepted, up to the last buffered serial, if and only if the receiver waits for the first buffered message |
| `SerialLink.NextAfterReplay` | corpc/src/corpc_message_terminal.cpp:110-135 | the next new message after a replay is accepted if and only if no unbuffered message was numbered after the last buffered one |
| `SerialLink.ResumableIsExact` | corpc/src/corpc_message_terminal.cpp:110-135 | the condition for resuming a connection holds if and only if replay brings the receiver up to date |
| `SerialLink.ResumableHolds` | corpc/src/corpc_message_terminal.cpp:110-135 | a connection that can be resumed still holds every message to be buffered that the receiver lacks |
| `SerialLink.UnbufferedIsStuck` | corpc/src/corpc_message_terminal.cpp:94-100 | the instance: an unbuffered message is sent and the connection breaks before it arrives; it can not be resumed |
| `SerialLink.StuckIsNotResumable` | corpc/src/corpc_message_terminal.cpp:110-135 | a broken connection that does not hold the next message the receiver needs can not be resumed |
| `SerialLink.StuckStays` | corpc/src/corpc_message_terminal.cpp:61-135 | and no event changes that |
| `SerialLink.StuckForGood` | corpc/src/corpc_message_terminal.cpp:61-135 | so in every run it is never resumed again |
| `SerialLink.StuckIsExact` | corpc/src/corpc_message_terminal.cpp:61-135 | a broken connection can be resumed, now or after one more buffered message, if and only if it can be resumed now or is neither in that state nor about to enter it by a full buffer |
| `SerialLink.StepKeepsInv` | corpc/src/corpc_message_terminal.cpp:61-135 | every send, arrival, acknowledgement, scrap, break and resumption keeps the invariant of the conversation |
| `SerialLink.RunsKeepInv` | corpc/src/corpc_message_terminal.cpp:61-135 | that invariant holds throughout every run |
| `SerialLink.AckIsAccepted` | corpc/src/corpc_message_terminal.cpp:543-545 | an acknowledgement never names a serial the receiver has not reached |
| `SerialLink.ScrapKept` | corpc/src/corpc_message_terminal.cpp:165-170 | scrapping on an acknowledgement removes nothing the receiver has not accepted |
| `SerialLink.NeverMismatched` | corpc/src/corpc_message_terminal.cpp:315-332 | in every run the receiver never meets a serial it does not expect |
| `SerialLink.NothingIsLost` | corpc/src/corpc_message_buffer.cpp:98-113 | in every run a message meant to be buffered has been taken, or is still held, or was pushed out by the cap before the receiver took it; without a cap that does not happen |
| `SerialLink.TakenOnceInOrder` | corpc/src/corpc_message_terminal.cpp:315-332 | in every run, across breaks and replays, messages are handed on in the order of their serials and none twice |
| `SerialLink.BufferIsSound` | corpc/src/corpc_message_buffer.cpp:32-88 | in every run the buffer is in order, after what was scrapped, within its cap and never broken |
| `RpcCalls.SubmitKeeps` | corpc/src/corpc_rpc_client.cpp:590-643 | entering a task in the map of a connection, over an older entry of the same address or after its expiry, keeps the invariant |
| `RpcCalls.ReplyKeeps` | corpc/src/corpc_rpc_client.cpp:37-104 | a reply, matching or stale, keeps the invariant |
| `RpcCalls.ResumeKeeps` | corpc/src/corpc_routine_env.cpp:267-326 | a resume record, with its timer or too late, keeps the invariant |
| `RpcCalls.ExpireKeeps` | corpc/src/corpc_routine_env.cpp:329-357 | an expiry keeps the invariant |
| `RpcCalls.StepKeepsInv` | corpc/src/corpc_rpc_client.cpp:37-643 | every event of calls, connections, replies, failures, resumptions and timers keeps the invariant |
| `RpcCalls.RunsKeepInv` | corpc/src/corpc_rpc_client.cpp:37-643 | that invariant holds throughout every run |
| `RpcCalls.ExpiryTells` | corpc/src/corpc_rpc_client.cpp:248-298 | two calls from one address that linger anywhere never have the same expiry |
| `RpcCalls.ReplyFindsOwn` | corpc/src/corpc_rpc_client.cpp:37-104 | a reply that passes the check of address and expiry finds the task of its own call |
| `RpcCalls.RecordFindsOwn` | corpc/src/corpc_routine_env.cpp:267-326 | a resume record that passes the check of the timer finds its coroutine blocked in that very call |
| `RpcCalls.WokenOnceForOwnCall` | corpc/src/corpc_routine_env.cpp:267-357 | in every run each activation wakes a coroutine out of the call it was meant for, and no call is woken twice, by reply, failure, close or timeout |
| `RpcCalls.RepliesReachTheirCalls` | corpc/src/corpc_rpc_client.cpp:37-104 | in every run a response is only ever filled from the reply to its own call, although addresses are re-used |
| `RpcCalls.TimerIdsAreNew` | corpc/src/corpc_routine_env.cpp:105-108 | in every run the id is not in the timeout list when a call adds it, which is what the list demands |
| `RpcCalls.ReplyIsUsed` | corpc/src/corpc_rpc_client.cpp:37-104 | a reply is used for its own call, with its resume record written, if and only if that call still awaits it there; otherwise it changes nothing |
| `RpcCalls.RecordWakes` | corpc/src/corpc_routine_env.cpp:297-320 | a resume record wakes its call if and only if that call still waits; otherwise it changes nothing |
| `RpcCalls.ExpiryWakes` | corpc/src/corpc_routine_env.cpp:345-352 | an expiry wakes the call of its timer |
| `RpcCalls.FailureIsRecorded` | corpc/src/corpc_rpc_client.cpp:601-608 | a task that finds no connection, or loses it, has its resume record written |
| `RpcCalls.TaskMovesOn` | corpc/src/corpc_rpc_client.cpp:619-643 | a task that has been given a connection is on its way to the map of that connection, at once or when the connection is there |
| `RpcCalls.NoCallIsMislaid` | corpc/src/corpc_rpc_client.cpp:37-643 | in every run a call is exactly where its task is, and every call that waits with a timeout has its timer |
| `RpcCalls.LostExactly` | corpc/src/corpc_rpc_client.cpp:627-639 | a call that still waits loses its task if and only if its own submission comes after its expiry, or an older call from its address, itself over, is submitted there with a clock that is behind |
| `RpcCalls.CallIsAnswered` | corpc/src/corpc_rpc_client.cpp:248-298 | from any state a call that is issued, sent over an open connection and answered wakes its coroutine with that very answer |

## Left out

- Context switching in assembly, the hooks of system calls, epoll and kqueue, and the set-up of sockets and threads.
- KCP and UDP pipelines and the UDP handshake.
- Protobuf: bodies are bytes, a body always parses, and the banned flag of a message type is not modelled.
- Different settings at the two ends of a connection: `Framing` gives both ends the same options.
- Handshake of closing between sender and receiver, heartbeats as a protocol, and the teardown of connections and channels.
- Liveness: the theorems say what each event does and that nothing is lost but in the ways named, not that a scheduler gets round to an event. A call whose task is lost in one of the two ways of `RpcCalls.LostExactly` is served by its timer only, and never if it has none.
- RpcCalls.LostExactly: the queues of tasks are multisets, so their order is not modelled; the second way to lose a task is a bound on what the queues of the source let happen.
- Calls without response and inner RPC, which would only add events of the kinds there are.
- Memory ownership, destructors, and the pools of mysql, mongodb and memcached, which repeat the redis pool.
- TimerWheel.Wheel.Pass: a callback arms new timers; that it may also take pending items off the wheel or the active list, as the signal of a condition variable does, is not modelled.
- Condition variables of the coroutine library, which add nothing to the intrusive lists they use.
- The distribution of levels in the skip list, and so its expected cost.
- Wrap: the power-of-two masks of the wheel are modelled as wrap-around by subtraction, which agrees for the arguments that occur.
- Framing.MessagePipeline.Downflow: the acknowledged serials that the encoder reads from the receiving side are a parameter, so one direction of a connection is modelled at a time.
