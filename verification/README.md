# Verification of the GPS HAL's cores

A Dafny model of the algorithmic cores under `gps/`, with proofs that hold for every input, every
run or every reachable state. `dafny verify dfyconfig.toml` checks the whole project.

## What is modelled

**Timer service** (`gps/utils/LocTimer.cpp`, `LocHeap.cpp`, `LocSharedLock.h`).
`HeapTree` defines the heap's operations on trees whose nodes carry the identity of the object that
holds them; `LocHeap` has the pointer-based nodes and heap as classes and proves every method equal to
its function. `Deadline` is the 32-bit time arithmetic. `TimerModel` is the service as a step system:
client threads (each call is one section under the timer's lock), the poll thread (disarm, unpoll,
send are separate steps), the message thread (taking a message, the heap update, each system call on
the fd, the unlocked read of the client pointer, the stop and the callback are separate steps), a FIFO
queue, two containers with their fds, a clock. `TimerInv`, `TimerSafety`, `TimerPresence` and `TimerArming`
prove the invariants over all runs; `TimerTheorems`, `TimerBatch` and `TimerProgress` draw the main results;
`TimerLaws` says of each move, in terms of times, clients and messages, what it is for;
`TimerFindings` shows, each with a run, what the code does not promise. `LocTimer` has the containers
and the service as objects whose methods change fields in place, each proved to be a step of the model.

**Containers** (`gps/utils/linked_list.c`, `msg_q.c`). `LinkedList` is the doubly linked list as a
class, refining the sequence operations of `ListSpec`. `QueueModel` is the blocking queue as a monitor
(sleeping and woken receivers, signals, spurious wakeups) and `MsgQ` its class over the linked list.

**AGPS resource state machine** (`gps/loc_api/libloc_api_50001/loc_eng_agps.cpp`, `.h`). `AgpsModel` is
the machine with its four states, its subscriber list and a trace of commands, reports and
notifications; `AgpsSafety`, `AgpsGrants` and `AgpsLeaving` prove what every run keeps; `AgpsLaws` says whom each
event concerns; `Agps` is the class.

**Adapter registry** (`gps/core/LocApiBase.cpp`). `RegistryModel` is the registry and the message queue
over runs, `LocApi` the classes over the fixed array.

**NMEA satellite report** (`gps/loc_api/libloc_api_50001/loc_eng_nmea.cpp`). `Decimal` and `Gsv` define the
sentences and, independently, a reader for them; `GsvProofs` relates the two; `Nmea` has the loops of
`loc_eng_nmea_generate_sv` and `loc_eng_nmea_put_checksum` over the 200-character buffer.

**User-agent escaping** (`LocEngAdapter.cpp`, `encodeInPlace`). `Encoding` has the loops over the buffer, the
encoding they compute and a decoder written from the meaning of percent escapes.

## Where code and documentation differ

The model follows the code.

- `gps/utils/LocTimer.cpp:353-354` says that expiring pops until the top lies in the future; the code pops its first
  timer without looking at its time (line 367). `TimerFindings.ATimerCanExpireEarly`, and
  `TimerBatch.EarlyIffNoneDue` for the exact condition.
- `gps/utils/LocTimer.cpp:527-529` says that the callback runs only if the timer "hasn't been stopped
  already"; the stop acts on whatever timer the client has by then. `TimerFindings.ANewerTimerIsHit`,
  and `TimerTheorems.ExpireStopsItsOwnDelegate` for the exact condition.
- `gps/utils/LocTimer.cpp:370` says that the delegate is deleted before `expire()` returns; it is deleted later, by
  its own remove message, and nowhere else (`TimerTheorems.FreedOnlyByItsRemove`).
- `gps/utils/LocTimer.cpp:337-338` updates "only if mTimer is not priorTop"; the code tests the opposite, and
  passes NULL, so that removing the last timer does not disarm (`TimerFindings.EmptyContainerCanStayArmed`).
- `gps/utils/LocTimer.cpp:288-294` disarms "if tree is empty now"; no run ever takes that branch
  (`TimerFindings.DisarmBranchIsDead`), so an emptied container stays armed exactly if it was
  (`TimerFindings.EmptyingLeavesTheFd`).
- `gps/utils/LocTimer.cpp:207-209` and the constructor below it disagree on which clock goes with which
  container. The model only distinguishes the two containers.
- `gps/utils/LocHeap.h:84-88` says that remove looks for a node that "ranks the same"; the code compares addresses.
- `gps/loc_api/libloc_api_50001/loc_eng_nmea.cpp:80-81` says that `put_checksum` returns the total length; it does not count
  the leading `$` (`Nmea.SvReportReadsBack`).
- A subscriber that subscribes again while its own entry still waits for the close is not taken up and is later
  deleted with that entry (`AgpsGrants.SubscribeTakesEffect`, `AgpsGrants.ResubscriptionCanBeLost`).
- When an ATL subscriber leaves, `notifySubscribers` deletes its entry (`gps/loc_api/libloc_api_50001/loc_eng_agps.cpp:728`)
  and searches the list again with a notification that still points at that entry (line 97). The deleted object
  is read exactly if another entry is left in the list. The model compares with the key as it was when the
  notification was made, which is what the search is meant to do.

## Assumptions

- A `LocTimer` is not destroyed from the moment the message thread has read its pointer until the callback is
  entered. `HeldClient` in `TimerModel` is that condition; `stop` and a new `start` are allowed there, and the
  callback itself may destroy the timer.
- The clock never goes back, and the time since boot stays below 2^31 seconds by the longest delay (50 days).
  It is positive when the service comes up, so that no deadline is zero, which would disarm the fd.
- Every section under a mutex is one step; epoll reports a container only while it is polled and armed
  for a time that has come.
- A condition variable's signal wakes at least one waiting receiver.
- The calls of `addAdapter`, `removeAdapter` and `updateEvtMask` do not overlap; messages may come between them.
- In the NMEA report real numbers stand for floats and doubles, and a converted value fits an int.

## Model

| member | source | states |
|---|---|---|
| HeapTree.TopIsHighest | gps/utils/LocHeap.h:54-55 | nothing a heap holds outranks its top |
| HeapTree.PushKeepsHeap | gps/utils/LocHeap.cpp:107-124 | push keeps heap order for any total preorder, and the top is the higher of the old top and the new datum |
| HeapTree.PushAddsOne | gps/utils/LocHeap.cpp:107-124 | push adds exactly the new datum |
| HeapTree.PushKeepsSizes | gps/utils/LocHeap.cpp:123 | after push every size field is its subtree's node count |
| HeapTree.PushKeepsPlaces | gps/utils/LocHeap.cpp:103-106 | push leaves every node object at its place |
| HeapTree.PushKeepsNodes | gps/utils/LocHeap.cpp:107-124 | the tree's objects after push are the old ones and the new node, each once |
| HeapTree.PushKeepsBalance | gps/utils/LocHeap.h:57-58 | push keeps "left has as many nodes as right, or one more" at every node |
| HeapTree.BalancedIsLow | gps/utils/LocHeap.cpp:101-106 | a balanced tree of n nodes has height floor(log2 n) + 1 |
| HeapTree.PushOnlyHeight | gps/utils/LocHeap.cpp:107-124 | after any pushes from empty the tree is balanced and of that height |
| HeapTree.PopKeepsHeap | gps/utils/LocHeap.cpp:134-164 | pop on a node whose subtrees are heaps, whatever the node's own datum, leaves a heap with one of the subtrees' tops on top |
| HeapTree.PopRemovesTop | gps/utils/LocHeap.cpp:134-164 | pop removes exactly the top's datum |
| HeapTree.PopKeepsSizes | gps/utils/LocHeap.cpp:142-143 | after pop every size field is its subtree's node count |
| HeapTree.PopCutsALeaf | gps/utils/LocHeap.cpp:155-161 | the node handed out was a leaf and its place is empty afterwards |
| HeapTree.PopKeepsPlaces | gps/utils/LocHeap.cpp:130-132 | every other node keeps its place |
| HeapTree.PopKeepsNodes | gps/utils/LocHeap.cpp:134-164 | the tree's objects after pop are the old ones without the node handed out |
| HeapTree.DrainSorts | gps/utils/LocHeap.cpp:245-254 | popping a heap empty yields its contents sorted by rank |
| HeapTree.PushThenDrainSorts | gps/utils/LocHeap.cpp:228-254 | pushing data and popping it all yields the same data sorted by rank |
| HeapTree.FindsIffHeld | gps/utils/LocHeap.cpp:170-193 | in a heap the pruned search finds an object if and only if the heap holds it |
| HeapTree.PruningNeedsHeapOrder | gps/utils/LocHeap.cpp:176 | without heap order the pruning misses an object that is there |
| HeapTree.RemoveIsComplete | gps/utils/LocHeap.cpp:166-193 | remove takes out a held object once, leaves the tree unchanged for an absent one, and keeps order and sizes |
| HeapTree.RemoveKeepsNodes | gps/utils/LocHeap.cpp:170-193 | the tree's objects after remove are the old ones without the node handed out |
| HeapTree.CheckNodesIsExact | gps/utils/LocHeap.cpp:197-220 | the self check accepts exactly the heaps with correct sizes |
| LocHeap.LocHeapNode.Swap | gps/utils/LocHeap.cpp:88-92 | swaps the data of two nodes |
| LocHeap.LocHeapNode.Push | gps/utils/LocHeap.cpp:107-124 | in place, the linked nodes become those of HeapTree.Push |
| LocHeap.LocHeapNode.Drop | gps/utils/LocHeap.cpp:113-123 | the node goes into the smaller subtree and nothing else changes |
| LocHeap.LocHeapNode.Pop | gps/utils/LocHeap.cpp:134-164 | in place, the linked nodes become those of HeapTree.Pop; the node handed out is detached and carries the old top's datum |
| LocHeap.LocHeapNode.PopBelow | gps/utils/LocHeap.cpp:144-154 | the datum on its way out goes into the higher ranking subtree and is popped there |
| LocHeap.LocHeapNode.Remove | gps/utils/LocHeap.cpp:170-193 | in place, the linked nodes become those of HeapTree.Remove; a node is returned if and only if the search finds the object |
| LocHeap.LocHeapNode.RemoveBelow | gps/utils/LocHeap.cpp:176-190 | the search in the subtrees, left first, with the sizes above corrected |
| LocHeap.LocHeapNode.CheckNodes | gps/utils/LocHeap.cpp:197-220 | returns whether the linked nodes are a heap with correct sizes |
| LocHeap.LocHeap.Push | gps/utils/LocHeap.cpp:228-235 | keeps the heap valid and adds the datum |
| LocHeap.LocHeap.Peek | gps/utils/LocHeap.cpp:237-243 | returns a datum that nothing in the heap outranks, or none for an empty heap |
| LocHeap.LocHeap.Pop | gps/utils/LocHeap.cpp:245-254 | keeps the heap valid and removes and returns the top |
| LocHeap.LocHeap.Remove | gps/utils/LocHeap.cpp:256-267 | keeps the heap valid and removes exactly the given object if it is there |
| LocHeap.LocHeap.CheckTree | gps/utils/LocHeap.cpp:270-272 | returns whether the tree is a heap with correct sizes |
| Deadline.FutureTimeExact | gps/utils/LocTimer.cpp:551-558 | the deadline is normalised, the nanosecond sum stays below 2^31, and it is now + delay if and only if the seconds fit 32 bits |
| Deadline.FutureIsInstant | gps/utils/LocTimer.cpp:551-558 | within the uptime limit every 32-bit delay gives exactly now + delay |
| Deadline.RanksExact | gps/utils/LocTimer.cpp:503-517 | ranks says "due earlier" correctly if and only if the difference of the seconds fits 32 bits |
| Deadline.TimerRankIsTimeOrder | gps/utils/LocTimer.cpp:503-517 | on times since boot, outranking is strict order on time |
| Deadline.TimerRankIsWeakOrder | gps/utils/LocHeap.h:40-48 | so it is the total preorder that the heap needs |
| TimerSafety.StartKeeps | gps/utils/LocTimer.cpp:547-565 | start keeps the safety invariant |
| TimerSafety.StopKeeps | gps/utils/LocTimer.cpp:485-501 | stop with destroyLocked keeps the safety invariant |
| TimerSafety.DestroyKeeps | gps/utils/LocTimer.cpp:539-545 | the timer's destructor keeps the safety invariant |
| TimerSafety.PushStepKeeps | gps/utils/LocTimer.cpp:317-321 | the push message keeps the safety invariant |
| TimerPresence.PushPlaces | gps/utils/LocTimer.cpp:317-321 | after the push message the pushed timer, if still running, is in its heap, and no other running timer has been lost |
| TimerPresence.TaskKeepsPresent | gps/utils/LocTimer.cpp:310-381 | no step of the message thread loses a running timer |
| TimerSafety.RemoveStepKeeps | gps/utils/LocTimer.cpp:334-346 | the remove message keeps the safety invariant |
| TimerSafety.BatchStepKeeps | gps/utils/LocTimer.cpp:360-374 | each pop of the expire message keeps the safety invariant |
| TimerSafety.FreeStepKeeps | gps/utils/LocTimer.cpp:345 | deleting the delegate keeps the safety invariant |
| TimerSafety.RunsAreSafe | gps/utils/LocTimer.cpp:310-390 | messages, timers, deletions and locks are consistent in every reachable state, and a heap holds only pushed, not yet removed timers, each once |
| TimerPresence.NoTimerIsLost | gps/utils/LocTimer.cpp:310-390 | in every run a timer whose push has been handled and that has not been stopped is in its container's heap, or has just been popped and is about to be stopped |
| TimerArming.RunsAreArmed | gps/utils/LocTimer.cpp:281-306 | the arming invariant holds in every reachable state, inside messages too |
| TimerTheorems.NoLostWakeup | gps/utils/LocTimer.cpp:281-306 | in every run, between messages, a container with timers is polled and armed at exactly its top's deadline, or an expire message is queued, or the poll thread still has one to send |
| TimerTheorems.DelegateLifetime | gps/utils/LocTimer.cpp:310-350 | in every run a delegate is deleted at most once, after both its messages; no pending message, heap entry, batch or timer refers to it afterwards |
| TimerTheorems.FreedOnlyByItsRemove | gps/utils/LocTimer.cpp:344-345 | the only step that deletes a delegate ends the handler of its own remove message, and it is the first deletion |
| TimerTheorems.LockLifetime | gps/utils/LocSharedLock.h:44-52 | the shared lock counts its living owner and its live delegates, and is deleted exactly when there is neither |
| TimerTheorems.StartStopLedger | gps/utils/LocTimer.cpp:547-580 | successful starts less successful stops is one exactly while a timer is set, else zero |
| TimerTheorems.NothingLeaks | gps/utils/LocTimer.cpp:334-346 | once the queue is drained, exactly the delegates that are no client's timer have been deleted |
| TimerTheorems.ExpireStopsItsOwnDelegate | gps/utils/LocTimer.cpp:520-532 | the stop inside expire hits the popped delegate if and only if that one has not been stopped meanwhile |
| TimerBatch.PopDueExact | gps/utils/LocTimer.cpp:383-390 | popping while the top is due pops exactly the due timers in order |
| TimerBatch.ExpireBatchExact | gps/utils/LocTimer.cpp:360-374 | on a non-empty heap one handler pops, earliest first, exactly the due timers, or the single earliest if none is due; what is left is later than now |
| TimerBatch.EarlyIffNoneDue | gps/utils/LocTimer.cpp:367 | a handler expires a timer early if and only if none is due |
| TimerBatch.InterleavedBatchIsExact | gps/utils/LocTimer.cpp:360-374 | the same for a handler interleaved with any other steps |
| TimerLaws.HandlerExpiresWhatIsDue | gps/utils/LocTimer.cpp:360-374 | in every run, whatever happens while an expire handler runs, once its loop is over it has popped, in order, exactly the timers due by the clock of the moment when it started, or the single earliest if none was |
| TimerLaws.StartMakesTimer | gps/utils/LocTimer.cpp:547-565 | in every run a start makes one delegate: of the container asked for, owned by the client, due the delay after the clock; its push message is sent last and nobody else is changed |
| TimerLaws.StartRefused | gps/utils/LocTimer.cpp:550 | a timer object that is dead or has a timer cannot start one |
| TimerLaws.StopMakesNoTimer | gps/utils/LocTimer.cpp:567-580 | in every run a stop clears the client's timer, cuts that delegate off, sends its remove message and changes nobody else |
| TimerLaws.NewTimerIsFresh | gps/utils/LocTimer.cpp:536-537 | a new timer object has no timer and the only reference to its lock |
| TimerLaws.DestroyEnds | gps/utils/LocTimer.cpp:539-545 | a destroyed timer object has no timer; the removal of the one it had is sent |
| TimerLaws.ReadFindsOwnerIff | gps/utils/LocTimer.cpp:524 | in every run the popped delegate leads to its owner if and only if it has not been stopped; otherwise every client and delegate is left alone |
| TimerLaws.PoppedTimerIsCalled | gps/utils/LocTimer.cpp:524-531 | in every run, undisturbed, a popped timer that is running is stopped and its owner is called back |
| TimerLaws.StopClientCalls | gps/utils/LocTimer.cpp:526-530 | the callback comes exactly if the stop succeeded |
| TimerLaws.WakesForFired | gps/utils/LocTimer.cpp:446-463 | the poll thread starts on containers that are polled and armed for a time that has come |
| TimerLaws.ExpireTakesFdOut | gps/utils/LocTimer.cpp:377-380 | undisturbed, expire disarms the fd, takes it out of the poll and sends one expire message, for that container only |
| TimerLaws.PushTouchesFdIff | gps/utils/LocTimer.cpp:317-321 | a push touches the fd if and only if the new timer is earlier than all others in its container |
| TimerLaws.RemoveTouchesFdIff | gps/utils/LocTimer.cpp:334-346 | a removal touches the fd if and only if it took the top away and a timer is left |
| TimerLaws.TouchingArms | gps/utils/LocTimer.cpp:295-304 | undisturbed, touching the fd leaves it polled and armed for the top |
| TimerProgress.BusyIsShort | gps/utils/LocTimer.cpp:281-390 | however the message thread and the poll thread take turns, they can make only a bounded number of moves before a client or the clock moves |
| TimerProgress.EveryScheduleExpires | gps/utils/LocTimer.cpp:281-390 | from every reachable state every schedule of the two service threads is finite, and where it ends the queue is empty and no running timer is due: each that was has been stopped |
| TimerProgress.DueTimersGetExpired | gps/utils/LocTimer.cpp:281-390 | such a schedule exists from every reachable state, without any client or clock move |
| TimerFindings.EmptyContainerCanStayArmed | gps/utils/LocTimer.cpp:341-343 | a run after which an empty container is at rest, polled and armed |
| TimerFindings.EmptyingLeavesTheFd | gps/utils/LocTimer.cpp:281-306 | in every run, a step of the message thread that leaves a container empty, by removal or expiration, leaves it polled and armed exactly as it was |
| TimerFindings.DisarmBranchIsDead | gps/utils/LocTimer.cpp:288-294 | in no run is the branch that disarms an empty container taken |
| TimerFindings.ATimerCanExpireEarly | gps/utils/LocTimer.cpp:367 | a run in which a timer is popped five seconds before its deadline |
| TimerFindings.CallbackCanHitANewerTimer | gps/utils/LocTimer.cpp:520-532 | whenever the client pointer has been read and the timer is still set, the client can make the callback hit a newer timer early |
| TimerFindings.ANewerTimerIsHit | gps/utils/LocTimer.cpp:520-532 | a whole run in which the callback comes for a newer timer, an hour early |
| LocTimer.LocTimerContainer.UpdateSoonestTime | gps/utils/LocTimer.cpp:281-306 | leaves the fd as Rearmed says and the heap alone |
| LocTimer.LocTimerContainer.ProcPush | gps/utils/LocTimer.cpp:317-321 | pushes the timer and rearms if the top changed |
| LocTimer.LocTimerContainer.ProcRemove | gps/utils/LocTimer.cpp:334-346 | removes the timer and rearms for the new top if the removed one was the old top |
| LocTimer.LocTimerContainer.PopIfOutRanks | gps/utils/LocTimer.cpp:383-390 | pops exactly if the top is not later than now |
| LocTimer.LocTimerContainer.PopBatch | gps/utils/LocTimer.cpp:364-372 | the loop pops exactly the batch of the heap it finds |
| LocTimer.LocTimerContainer.ProcExpire | gps/utils/LocTimer.cpp:360-374 | pops the batch and rearms for the earliest timer left |
| LocTimer.LocTimerContainer.Expire | gps/utils/LocTimer.cpp:377-380 | disarms, unpolls and hands out the expire message |
| LocTimer.PushLeavesArmed | gps/utils/LocTimer.cpp:317-321 | a container that is polled and armed for its top is so after a push |
| LocTimer.RearmingArms | gps/utils/LocTimer.cpp:373 | after an update without a prior top, as expire and the removal of the top make it, a container with timers is polled and armed for its top |
| LocTimer.RemoveLeavesArmed | gps/utils/LocTimer.cpp:334-343 | a container that is polled and armed for its top is so after a removal of another timer than the top |
| LocTimer.TimerService.Deadline | gps/utils/LocTimer.cpp:551-558 | computes now + delay exactly |
| LocTimer.TimerService.StartTimer | gps/utils/LocTimer.cpp:547-565 | true exactly if no timer was set; then one delegate is made, of the container that wakeOnExpire asks for, due the given delay from now |
| LocTimer.TimerService.StopTimer | gps/utils/LocTimer.cpp:567-580 | true exactly if a timer was set; then it is cut off and its remove message sent |
| LocTimer.TimerService.DestroyLocked | gps/utils/LocTimer.cpp:485-501 | clears the client and sends the remove message once |
| LocTimer.TimerService.DestroyTimer | gps/utils/LocTimer.cpp:539-545 | is the destructor's step: a stop, and the owner's reference to the lock goes |
| LocTimer.TimerService.WakeMove | gps/utils/LocTimer.cpp:446-463 | is the step in which epoll_wait reports the fired containers |
| LocTimer.TimerService.PollMove | gps/utils/LocTimer.cpp:377-380 | is one step of the poll thread in expire: disarm, unpoll or send |
| LocTimer.TimerService.PushMove | gps/utils/LocTimer.cpp:317-321 | is the push message's step |
| LocTimer.TimerService.RemoveMove | gps/utils/LocTimer.cpp:334-346 | is the remove message's step |
| LocTimer.TimerService.BatchMove | gps/utils/LocTimer.cpp:367-373 | is one round of the expire loop, or its end |
| LocTimer.TimerService.ClientMove | gps/utils/LocTimer.cpp:520-532 | is one step of the delegate's expire |
| LocTimer.TimerService.PollCtlMove | gps/utils/LocTimer.cpp:425-442 | is the step that adds the fd to the poll or takes it out |
| LocTimer.TimerService.SetTimeMove | gps/utils/LocTimer.cpp:302-304 | is the step that arms the fd for the top or disarms it |
| LocTimer.TimerService.MessageMove | gps/utils/LocTimer.cpp:317-374 | is the handling of a message up to its first system call or callback |
| LocTimer.TimerService.TaskMove | gps/utils/LocTimer.cpp:310-381 | every step of the message thread is one step of the model |
| ListSpec.RunConserves | gps/utils/linked_list.c:110-327 | over every run each datum is listed, handed out, deallocated or lost exactly as often as it was added |
| ListSpec.NeverTwice | gps/utils/linked_list.c:246-249 | a datum added once is handed out or deallocated at most once, never both, and is then no longer listed |
| ListSpec.AddRemoveIsFifo | gps/utils/linked_list.c:110-204 | adding and removing is a queue |
| ListSpec.SearchTakesFirst | gps/utils/linked_list.c:291-316 | a removing search takes out the first match, hands its datum out if it is wanted and deallocates it otherwise |
| ListSpec.SearchLeaves | gps/utils/linked_list.c:267-327 | a search that does not remove, or finds nothing, changes nothing |
| ListSpec.FlushDeallocates | gps/utils/linked_list.c:230-260 | a flush deallocates, in list order, exactly the data with a deallocation function |
| LinkedList.ListState.Add | gps/utils/linked_list.c:110-155 | prepends, keeping all four kinds of links consistent |
| LinkedList.ListState.Remove | gps/utils/linked_list.c:162-204 | drops the last element and hands out its datum |
| LinkedList.ListState.Unlink | gps/utils/linked_list.c:298-310 | takes one element out of the chain and keeps the links consistent |
| LinkedList.ListState.Search | gps/utils/linked_list.c:267-327 | finds the first match, removes it if asked to, and hands out, deallocates or loses its datum as the parameters say |
| LinkedList.ListState.Flush | gps/utils/linked_list.c:230-260 | empties the list and deallocates what has a deallocation function |
| QueueModel.AcceptedInOrder | gps/utils/msg_q.c:201-269 | in every interleaving accepted messages leave in the order they were sent, the rest is queued in order |
| QueueModel.ReceivedThenQueued | gps/utils/msg_q.c:201-269 | until a flush, received followed by queued is accepted |
| QueueModel.AcceptsWhatIsSent | gps/utils/msg_q.c:185-221 | in every interleaving what is accepted is exactly what was sent before the queue was unblocked, in order |
| QueueModel.ReceivesOldest | gps/utils/msg_q.c:256-262 | a receiver takes the oldest message if there is one, else sleeps exactly if the queue is not unblocked |
| QueueModel.FlushAndUnblock | gps/utils/msg_q.c:276-336 | a flush empties the queue, an unblocking marks it and wakes every sleeper |
| QueueModel.NoLostWakeup | gps/utils/msg_q.c:201-216 | in every interleaving nobody sleeps or at least as many receivers are woken as messages queued |
| QueueModel.UnblockedForGood | gps/utils/msg_q.c:315-331 | once unblocked, nothing is accepted and nobody sleeps, whatever happens |
| QueueModel.UnblockedReturns | gps/utils/msg_q.c:256-261 | once unblocked, a woken receiver returns at its next step |
| MsgQ.MsgQueue.Snd | gps/utils/msg_q.c:185-221 | on success the message is accepted and listed in front of the others; is the send step, with its error codes |
| MsgQ.MsgQueue.TestOrTake | gps/utils/msg_q.c:256-261 | sleeps exactly if the list is empty and the queue not unblocked, else takes the oldest message |
| MsgQ.MsgQueue.Rcv | gps/utils/msg_q.c:228-269 | is the receive step: takes the oldest message, sleeps or fails |
| MsgQ.MsgQueue.Resume | gps/utils/msg_q.c:256-261 | is the step of a receiver that was woken |
| MsgQ.MsgQueue.FlushQueue | gps/utils/msg_q.c:276-299 | empties the queue |
| MsgQ.MsgQueue.UnblockQueue | gps/utils/msg_q.c:306-336 | marks the queue and wakes every sleeper, once |
| AgpsSafety.CommandTrace | gps/loc_api/libloc_api_50001/loc_eng_agps.cpp:258-579 | in every run, drops included, the resource is held exactly in Pending and Acquired, REQUEST is sent only when it is not held and RELEASE only when it is |
| AgpsSafety.StateAndList | gps/loc_api/libloc_api_50001/loc_eng_agps.cpp:738-801 | in every run keys are distinct and an enforce-single machine lists at most one; without drops Released means empty, Pending and Acquired have an active and Releasing an inactive subscriber |
| AgpsGrants.GrantInvariant | gps/loc_api/libloc_api_50001/loc_eng_agps.cpp:325-568 | in every run an active listed subscriber has been told GRANTED since it subscribed if and only if the machine is in Acquired |
| AgpsGrants.SubscribeTakesEffect | gps/loc_api/libloc_api_50001/loc_eng_agps.cpp:738-748 | an accepted subscribe leaves an active subscriber with its key if and only if that key is not waiting for its close |
| AgpsGrants.ResubscriptionCanBeLost | gps/loc_api/libloc_api_50001/loc_eng_agps.cpp:521-568 | a run in which a client subscribes again and is never served |
| AgpsGrants.DeleteAfterNotify | gps/loc_api/libloc_api_50001/loc_eng_agps.cpp:717-729 | a deleting notification tells each subscriber it is for exactly once (WIFI takes UNSUBSCRIBE silently) and removes exactly those |
| AgpsGrants.SparedKeepsOrder | gps/loc_api/libloc_api_50001/loc_eng_agps.cpp:717-729 | those who stay keep their order |
| AgpsLeaving.NobodyLeavesSilently | gps/loc_api/libloc_api_50001/loc_eng_agps.cpp:258-579 | in every run without drops, whoever has subscribed and is no longer listed has been told UNSUBSCRIBE, RELEASED or DENIED since its last subscription |
| AgpsLaws.SubscribeListsNewcomer | gps/loc_api/libloc_api_50001/loc_eng_agps.cpp:738-787 | an accepted subscriber is listed in front, active and of its kind, unless its key is listed; it alone is told, GRANTED, and that exactly in Acquired |
| AgpsLaws.SecondIsRefused | gps/loc_api/libloc_api_50001/loc_eng_agps.cpp:779-787 | a second subscriber of an enforce-single machine is told DENIED and nothing else happens |
| AgpsLaws.UnsubscribeConcernsItsKey | gps/loc_api/libloc_api_50001/loc_eng_agps.cpp:789-801 | in every run the entry with the key goes (ATL) or stays as inactive, and it alone is told, UNSUBSCRIBE or, if WIFI, nothing; everybody else is listed as before |
| AgpsLaws.UnsubscribeOfStranger | gps/loc_api/libloc_api_50001/loc_eng_agps.cpp:789-801 | an unsubscribe of somebody who is not listed changes nothing |
| AgpsLaws.ReportsAreTold | gps/loc_api/libloc_api_50001/loc_eng_agps.cpp:286-579 | in every run a report tells each subscriber exactly what state and report call for, once, and deletes exactly those that it ends |
| AgpsLaws.DropAndNoise | gps/loc_api/libloc_api_50001/loc_eng_agps.h:242-243 | a drop empties the list and tells nobody; a status that is no report is ignored |
| Agps.AgpsStateMachine.Search | gps/utils/linked_list.c:291-324 | the first subscriber the notification is for |
| Agps.AgpsStateMachine.SearchNotify | gps/loc_api/libloc_api_50001/loc_eng_agps.cpp:69-81 | one search notifies as far as it goes and stops at the first it may delete |
| Agps.AgpsStateMachine.NotifySubscribers | gps/loc_api/libloc_api_50001/loc_eng_agps.cpp:715-736 | the repeated searches notify and delete as one pass over the list would, and end |
| Agps.AgpsStateMachine.Add | gps/loc_api/libloc_api_50001/loc_eng_agps.cpp:738-748 | lists a clone unless the key is listed |
| Agps.AgpsStateMachine.SendRsrcRequest | gps/loc_api/libloc_api_50001/loc_eng_agps.cpp:750-777 | passes REQUEST on only with, RELEASE only without an active subscriber |
| Agps.AgpsStateMachine.SubscribeEvent | gps/loc_api/libloc_api_50001/loc_eng_agps.cpp:270-284 | is the subscribe event in each of the four states |
| Agps.AgpsStateMachine.UnsubscribeEvent | gps/loc_api/libloc_api_50001/loc_eng_agps.cpp:341-367 | is the unsubscribe event in each of the four states |
| Agps.AgpsStateMachine.OnRsrcEvent | gps/loc_api/libloc_api_50001/loc_eng_agps.cpp:700-713 | is a report of the connectivity service in each of the four states |
| Agps.AgpsStateMachine.SubscribeRsrc | gps/loc_api/libloc_api_50001/loc_eng_agps.cpp:779-787 | refuses a second subscriber of an enforce-single machine, else subscribes |
| Agps.AgpsStateMachine.UnsubscribeRsrc | gps/loc_api/libloc_api_50001/loc_eng_agps.cpp:789-801 | unsubscribes the listed entry with that key, if any |
| Agps.AgpsStateMachine.DropAllSubscribers | gps/loc_api/libloc_api_50001/loc_eng_agps.h:242-243 | empties the list and leaves the state |
| RegistryModel.AddedIsUnion | gps/core/LocApiBase.cpp:157-166 | adding is set union up to ten entries and keeps the array free of duplicates |
| RegistryModel.RemovedIsDifference | gps/core/LocApiBase.cpp:168-202 | removing is set difference although it moves the last entry, and keeps the array free of duplicates |
| RegistryModel.RunIsSound | gps/core/LocApiBase.cpp:157-202 | in every run the array holds at most ten existing adapters, each once |
| RegistryModel.StandingLasts | gps/core/LocAdapterBase.cpp:44-51 | registration is decided by the constructor and ends with the destructor only; an adapter that found the array full is never registered |
| RegistryModel.OrderDoesNotMatter | gps/core/LocApiBase.cpp:135-142 | the disjunction of masks depends only on which masks there are |
| RegistryModel.WantedIgnoresOrder | gps/core/LocApiBase.cpp:135-142 | the event mask depends on the registered set, not on the array's order |
| RegistryModel.WantedIff | gps/core/LocApiBase.cpp:135-142 | no excluded event is in the mask; any other is if and only if a registered adapter asks for it |
| RegistryModel.ConstructRegisters | gps/core/LocAdapterBase.cpp:44-51 | a new adapter has the mask it was made with and is registered if there is room; the others are as before |
| RegistryModel.UpdateSets | gps/core/LocAdapterBase.h:72-79 | an enabling update sets the events named and leaves all others |
| RegistryModel.UpdateClears | gps/core/LocAdapterBase.h:72-79 | a disabling update clears the events named and leaves all others |
| RegistryModel.UpdateChangesOne | gps/core/LocAdapterBase.h:72-79 | an update changes one adapter's mask and has the engine told |
| RegistryModel.DestroyUnregisters | gps/core/LocAdapterBase.h:52 | a destroyed adapter is not registered; the others are as before |
| RegistryModel.RunIsInSync | gps/core/LocApiBase.cpp:157-207 | in every run, whenever no message is waiting, the engine was last told exactly the wanted mask (closing counts as mask 0) |
| RegistryModel.DrainTells | gps/core/LocApiBase.cpp:96-117 | handling the queued messages tells the engine the wanted mask and changes nothing else |
| RegistryModel.RestartReopens | gps/core/LocApiBase.cpp:89-99 | after an engine restart the engine is, last of all, closed and opened again with the wanted mask |
| LocApi.LocAdapterBase.constructor | gps/core/LocAdapterBase.cpp:44-51 | registers the adapter if there is room |
| LocApi.LocAdapterBase.Destroy | gps/core/LocAdapterBase.h:52 | the adapter is no longer registered; the engine is closed or an open message is sent |
| LocApi.LocAdapterBase.UpdateEvtMask | gps/core/LocAdapterBase.h:72-79 | sets or clears the events and sends an open message |
| LocApi.LocApiBase.GetEvtMask | gps/core/LocApiBase.cpp:135-142 | the disjunction of the registered masks without the excluded events |
| LocApi.LocApiBase.AddAdapter | gps/core/LocApiBase.cpp:157-166 | the array's prefix becomes the list with the adapter added |
| LocApi.LocApiBase.RemoveAdapter | gps/core/LocApiBase.cpp:168-202 | the nested loops turn the array's prefix into the list with the adapter removed |
| LocApi.LocApiBase.TakeOut | gps/core/LocApiBase.cpp:174-191 | fills the hole with the last entry, in place |
| LocApi.LocApiBase.Proc | gps/core/LocApiBase.cpp:96-117 | one message opens the engine with the wanted mask, after closing it for a restart |
| Decimal.FormatRoundTrip | gps/loc_api/libloc_api_50001/loc_eng_nmea.cpp:781-784 | every formatted integer reads back |
| GsvProofs.SplitTail | gps/loc_api/libloc_api_50001/loc_eng_nmea.cpp:781-784 | splitting at commas gives back the fields |
| GsvProofs.ReadBody | gps/loc_api/libloc_api_50001/loc_eng_nmea.cpp:762-814 | a sentence reads back with its total, number, count and satellites |
| GsvProofs.ReadBlank | gps/loc_api/libloc_api_50001/loc_eng_nmea.cpp:747-753 | the blank sentence reads back as a report without satellites |
| GsvProofs.ReportRoundTrip | gps/loc_api/libloc_api_50001/loc_eng_nmea.cpp:747-819 | a reader that checks checksums, numbering and counts gets back exactly the satellites, in order, for all integer values and any number of satellites |
| GsvProofs.FullSentences | gps/loc_api/libloc_api_50001/loc_eng_nmea.cpp:758-760 | n satellites take ceil(n/4) sentences, all but the last with four |
| GsvProofs.ChecksumConcat | gps/loc_api/libloc_api_50001/loc_eng_nmea.cpp:87-101 | the sum of a text is the exclusive or of the sums of its parts |
| GsvProofs.ChecksumOfOne | gps/loc_api/libloc_api_50001/loc_eng_nmea.cpp:94 | the sum of one character is its byte |
| GsvProofs.ByteIsCode | gps/loc_api/libloc_api_50001/loc_eng_nmea.cpp:94 | the byte of a character below 256 is its code |
| GsvProofs.HexReadsBack | gps/loc_api/libloc_api_50001/loc_eng_nmea.cpp:99 | the two digits of a sum read back |
| GsvProofs.DamageIsNoticed | gps/loc_api/libloc_api_50001/loc_eng_nmea.cpp:87-101 | a sentence with one character before the checksum replaced by a different byte is rejected |
| Nmea.BeforeStep | gps/loc_api/libloc_api_50001/loc_eng_nmea.cpp:728-741 | each in-range satellite is reported at the position that the number of in-range ones before it gives, and no other is |
| Nmea.ReportedFields | gps/loc_api/libloc_api_50001/loc_eng_nmea.cpp:781-806 | an in-range satellite is reported with its number and the nearest integers of its elevation, azimuth and, exactly if it is positive, signal strength |
| Nmea.RoundedIsNearestIff | gps/loc_api/libloc_api_50001/loc_eng_nmea.cpp:783-784 | the conversion rounds to the nearest integer if and only if the value is at least minus a half, or lies halfway |
| Nmea.Snprintf | gps/loc_api/libloc_api_50001/loc_eng_nmea.cpp:765-766 | appends what fits to the buffer and returns the full length |
| Nmea.PutChecksum | gps/loc_api/libloc_api_50001/loc_eng_nmea.cpp:87-101 | seals the text in the buffer and returns one less than the sentence's length |
| Nmea.AppendSat | gps/loc_api/libloc_api_50001/loc_eng_nmea.cpp:781-806 | appends one satellite's fields, or fails exactly if they do not fit |
| Nmea.AppendGroup | gps/loc_api/libloc_api_50001/loc_eng_nmea.cpp:776-811 | the inner loop appends the next four satellites of the constellation, or what is left of them |
| Nmea.SendSentence | gps/loc_api/libloc_api_50001/loc_eng_nmea.cpp:762-814 | sends the sentence with that number, or fails exactly if it does not fit |
| Nmea.GenerateTalker | gps/loc_api/libloc_api_50001/loc_eng_nmea.cpp:747-819 | sends one constellation's sentences up to the first that does not fit |
| Nmea.CountSatellites | gps/loc_api/libloc_api_50001/loc_eng_nmea.cpp:728-741 | counts the satellites of both constellations |
| Nmea.GenerateSv | gps/loc_api/libloc_api_50001/loc_eng_nmea.cpp:712-900 | sends the GPS report and, unless that failed, the GLONASS report |
| Nmea.MisfitEndsReport | gps/loc_api/libloc_api_50001/loc_eng_nmea.cpp:768-772 | the first GPS sentence that does not fit ends the whole report, GLONASS included |
| Nmea.BodiesFit | gps/loc_api/libloc_api_50001/loc_eng_nmea.cpp:768-772 | with 32-bit values and fewer than 10000 satellites every sealed sentence fits the buffer, so the formatting errors cannot happen |
| Nmea.SvReportReadsBack | gps/loc_api/libloc_api_50001/loc_eng_nmea.cpp:712-900 | what is sent reads back as exactly the in-range GPS and GLONASS satellites, and every length passed along is one short |
| Encoding.RoundTrip | gps/loc_api/libloc_api_50001/LocEngAdapter.cpp:208-211 | decoding undoes encoding |
| Encoding.NoSeparators | gps/loc_api/libloc_api_50001/LocEngAdapter.cpp:208-211 | no separator is left in an encoding |
| Encoding.CodeIs | gps/loc_api/libloc_api_50001/LocEngAdapter.cpp:208-211 | the code of a character is that character if and only if it is not one of the four in the table |
| Encoding.LeavesOthers | gps/loc_api/libloc_api_50001/LocEngAdapter.cpp:212-257 | a text is its own encoding if and only if it contains none of those four |
| Encoding.FitIsLongest | gps/loc_api/libloc_api_50001/LocEngAdapter.cpp:241-244 | a prefix's encoding fits if and only if the prefix is no longer than the one kept |
| Encoding.FindEncoding | gps/loc_api/libloc_api_50001/LocEngAdapter.cpp:226-229 | finds the code of a character, or that it needs none |
| Encoding.FillBuffer | gps/loc_api/libloc_api_50001/LocEngAdapter.cpp:223-250 | the loop writes the encoding of the longest prefix that fits |
| Encoding.EncodeInPlace | gps/loc_api/libloc_api_50001/LocEngAdapter.cpp:212-257 | the string is replaced by that encoding, the rest of the array is untouched |
| Encoding.EncodeInPlaceRoundTrip | gps/loc_api/libloc_api_50001/LocEngAdapter.cpp:212-257 | the result decodes to the longest prefix whose encoding fits, and to the whole input if and only if the whole encoding fits |

## Left out

- QueueModel.UnblockedReturns: states what the next step of a receiver does, not that the scheduler lets it happen.
- TimerProgress.EveryScheduleExpires: bounds every schedule of the service threads; that a thread which can move is at some point allowed to is left to the scheduler.
- LocHeap.LocHeap.Pop: deleting the node object has no effect in the model; Dafny's objects are never freed.
- LocHeap.LocHeap.Remove: deleting the node object has no effect in the model either.
- LinkedList.ListState.Search: the comparison is a pure function; the one in the AGPS machine that notifies while it compares is modelled by Agps.AgpsStateMachine.SearchNotify.
- LocTimer.LocTimerContainer.UpdateSoonestTime: is stated for a call that the poll thread does not interrupt; the interrupted case is TimerService.PollCtlMove and SetTimeMove.
- LocTimer.LocTimerContainer.ProcPush: is stated for a handler that is not interrupted; the interrupted case is TimerService.PushMove.
- LocTimer.LocTimerContainer.ProcRemove: is stated for a handler that is not interrupted, up to the deletion; the rest is TimerService.RemoveMove and FreeMove.
- LocTimer.LocTimerContainer.PopBatch: pops without the calls of expire in between; with them it is TimerService.BatchMove and ClientMove.
- LocTimer.LocTimerContainer.ProcExpire: is stated for a handler that is not interrupted, without the client callbacks; the interrupted case is TimerService.
- Nmea.GenerateSv: the values stored at the end of `loc_eng_nmea_generate_sv` for later position sentences are not part of it.
- Null handles, allocation failures, `linked_list_init`/`destroy` and `msg_q_init`/`destroy`: parameter checks and lifetimes only.
- `LocTimerContainer` derives from the heap in the source and has it as a field here; links passed by reference are returned.
- Lazy creation of the containers, the clock fallback, a failing `timerfd_create`, and `LocTimerPollTask`'s own shutdown.
- `LocTimerWrapper` and the C timer API: object lifetime there is the caller's contract.
- `DSStateMachine` retries: they depend on a vendor library's return codes, and `sendRsrcRequest` can fail there.
- `BITSubscriber`: its equality casts the other object down; subscribers are compared by ID.
- The AGPS subscriber list is a sequence field, and a notification's receiver is its key at creation; LinkedList is proved to refine sequences.
- Data sent along with AGPS commands and notifications: addresses, APN, bearer.
- Overlapping calls of `addAdapter` and `removeAdapter`: the array has no lock in the source.
- Delivery of engine-up, position and other events to the adapters: plain loops.
- The NMEA position sentences: floating-point latitude, DOP and bearing formatting.
- `snprintf` returning an error, and conversions of floats outside the range of an int, which C leaves undefined.
- NI sessions: their fields are touched outside the lock, so claims over runs would rest on data races.
- Daemon pipes, dlopen, property and user-agent file access, logging, message forwarding in `loc_eng.cpp`.
