# Razorback API: a verified model

Razorback nuggets share a C library for collecting blocks of data, asking a global cache about
them, submitting them to dispatchers through a message broker, and inspecting them. This project
models the parts of that library whose correctness rests on more than one function, and proves
what they keep: over every input for the data structures and codecs, over every interleaving for
the protocols between threads.

The concurrent parts are state machines. A step is what one thread does while it holds a lock, or
one atomic operation. A run is any sequence of enabled steps from the initial state, so a theorem
about runs speaks of every interleaving of any number of threads. The sequential parts (the cache,
the list, the drain loop, the byte accounting, the hash text, the calendar) are classes and methods
with the loops of the source, each proved against a function on plain values.

| files | subject |
|---|---|
| `ArcModel`, `ArcRuns`, `ArcMoves`, `ArcMap`, `ArcCopy`, `ArcCache` | the adaptive replacement cache: on values, over runs, slot by slot, as a bounded map, what a hit reports, and as linked slots in one array |
| `ListSpec`, `LinkedList`, `ListPasses`, `ListSemaphore` | the doubly linked list with deferred deletion; iterations, stacks and queues shared by threads |
| `Runs` | runs and reachable states of a transition system |
| `Sums`, `BlockPool` | byte accounting, the item limit and the status word of the block pool |
| `Submission`, `SubmissionRuns`, `SubmissionItems` | the submission pipeline, its runs, and what becomes of an item |
| `Settlement`, `SettlementRuns`, `QueueDrain`, `QueueRefs` | deferred acknowledgement and lifetime of broker queues |
| `Inspection` | receiver, workers and shutdown |
| `Health`, `Timer` | lifetimes of health checks and timers |
| `Decimal`, `Hash`, `Json`, `Ntlv`, `JsonStructs`, `Calendar` | codecs and dates |

Several results say that something one would expect of the code does not hold, and exactly when it
does:

- a cache is safe exactly for capacities from 1 to 2^31 - 1 (`SafeCapacities`);
- its keys stay distinct exactly while every key added is absent from the slots that the addition
  does not overwrite (`AddDistinctExactly`, `RunDistinctExactly`);
- a hit reports the flags of the key that was looked up exactly when no addition overwrote its slot
  between the hit and the copy, or the last one to do so added that key back (`CopiesOwnSlot`);
- the pool size is exact unless a chunk of 4 GiB or more is linked, because a chunk records its
  length in 32 bits (`PoolSizeExact`, `LargeChunkMiscounted`);
- the limit on pool items holds in all runs exactly when at most one creation is under way at a time
  (`LimitRespectedExactly`);
- a finalized item grows by exactly the addition that had passed its tests when it was finalized and
  is linked afterwards, because finalizing takes no lock (`LateAdditions`);
- for the same reason submitted items are where their statuses say exactly while FINALIZED is not
  written over one that is queued or about to be notified (`StepKeeps`, `RunKeeps`);
- the lookup timing list stays right exactly as long as no item with an outstanding lookup is
  submitted again without one, removed from the pool, or overwritten in that way (`StepTimed`,
  `RunTimed`);
- a settlement goes to the connection that delivered the message exactly when no connection was
  opened between consuming and stamping it and the serial did not go round before it was sent
  (`SettledWhereDelivered`);
- a number accepted as text has the value of its digits exactly when no minus sign hides behind
  white space, or its value is 0 or 2^63 (`AcceptedMeansNumber`);
- a metadata item survives JSON exactly when its text is one C string, its JSON is a text the library
  prints, and its data is not empty (`ItemRoundTrip`); blocks, events and judgments do exactly when
  their metadata does and every hash has the length of its type.

Where names and behaviour differ the model follows the code: a list in queue mode pushes and pops
at its tail, so every mode is last in, first out; the negative-number test of
`JsonBuffer_ParseUnsignedText` looks at the first character only (`NegativeTexts`).

## Model

| member | source | states |
|---|---|---|
| `ArcModel.Find` | src/local_cache.c:424-434 | the lowest slot whose key starts with the bytes asked for; none exactly when no slot matches |
| `ArcRuns.ReplaceSafe` | src/local_cache.c:571-591 | with a full cache, replacement never meets an empty list, conserves slots, and keeps the T1+B1 and T2+B2 totals |
| `ArcRuns.AdaptSafe` | src/local_cache.c:111-121 | a ghost hit never divides by zero, moves the target towards the side that was hit, and keeps it from 0 to the capacity |
| `ArcRuns.PromoteSafe` | src/local_cache.c:90-130 | every hit is free of faults and keeps the invariant, keys and flags |
| `ArcRuns.MakeRoomSafe` | src/local_cache.c:170-201 | an addition always finds a slot: fresh, or the least recent of T1, B1 or B2 in a full cache |
| `ArcRuns.RunSafe` | src/local_cache.c:53-266 | on every run: no fault; the lists partition the slots; T1+T2 = min(slots, c), T1+B1 <= c, slots <= 2c, 0 <= target <= c |
| `ArcRuns.SafeCapacities` | src/local_cache.c:156-222 | every run is free of faults if and only if the 32-bit capacity is at least 1 and below 2^31 |
| `ArcMoves.AdaptMoves` | src/local_cache.c:111-121 | a hit in B1 raises the target by how many times longer B2 is, at least one and up to the capacity; a hit in B2 lowers it likewise, down to zero |
| `ArcMoves.ReplaceMoves` | src/local_cache.c:571-591 | replacement makes the first slot of T1 the last of B1 exactly when T1 is neither empty nor shorter than the target, else the first of T2 the last of B2 |
| `ArcMoves.PromoteMoves` | src/local_cache.c:90-130 | a hit on any slot of any list leaves it last in T2, moves one other slot by replacement exactly on a ghost hit, and keeps the list and order of all others |
| `ArcMoves.CheckMoves` | src/local_cache.c:53-154 | so does a check that finds its key; one that misses changes nothing |
| `ArcMoves.AddMoves` | src/local_cache.c:170-218 | which slot an addition takes in each of five cases, that it is then last in T1, and where replacement leaves the others |
| `ArcMoves.UpdateMoves` | src/local_cache.c:224-266 | an update rewrites the flags of the lowest slot that matches and nothing else |
| `ArcMap.CheckFinds` | src/local_cache.c:86-149 | a check finds a key if and only if a slot of one of the four lists holds it, and reports the lowest such slot's flags |
| `ArcMap.AddWritesOneSlot` | src/local_cache.c:170-218 | an addition writes one slot, which becomes the most recent of T1, and leaves all other keys and flags alone |
| `ArcMap.AddEvictsAtMostOne` | src/local_cache.c:170-218 | as a map, an addition binds its key and drops at most one other |
| `ArcMap.AddDistinctExactly` | src/local_cache.c:170-218 | with distinct keys held, an addition leaves them distinct if and only if no slot but the one it overwrites holds its key |
| `ArcMap.RunDistinctExactly` | src/local_cache.c:53-266 | keys stay distinct all along a run if and only if that holds of every addition when it happens |
| `ArcMap.RunKeepsDistinct` | src/local_cache.c:53-266 | runs that add only after a missed lookup never hold a key twice |
| `ArcMap.RunKeepsWritten` | src/local_cache.c:53-266 | with keys of one length, every key held carries the flags last added or updated for it |
| `ArcMap.CheckReportsLastWrite` | src/local_cache.c:53-266 | from an empty cache, a check reports a key exactly when held, with the flags last written |
| `ArcMap.UndisciplinedAddDuplicates` | src/local_cache.c:156-222 | with a capacity of two or more, adding a key twice to a new cache stores it twice, and lookups see the older flags |
| `ArcCopy.CopiesOwnSlot` | src/local_cache.c:80-141 | when a hit copies the flags its slot holds the key that was hit if and only if no addition in between overwrote it or the last to do so added that key |
| `ArcCopy.CopiedFlags` | src/local_cache.c:80-141 | with keys of one length, the flags copied are those last written for the key the slot then holds |
| `ArcCopy.CopiesAnotherKey` | src/local_cache.c:138-141 | three operations between hit and copy make a hit report another key's flags |
| `ArcCache.Cache.constructor` | src/local_cache.c:599-618 | a new cache is well linked and stands for the empty one |
| `ArcCache.Cache.FindEntry` | src/local_cache.c:424-434 | the scan loop finds the lowest matching slot |
| `ArcCache.Cache.FindLRU` | src/local_cache.c:453-466 | a missing end pointer is replaced by the last slot of the list without predecessor, if there is one |
| `ArcCache.Cache.FindMRU` | src/local_cache.c:437-450 | likewise for the other end |
| `ArcCache.Cache.PurgeLRU` | src/local_cache.c:469-501 | unlinks the first slot of a chain, or answers NULL and changes nothing; all chains stay well formed |
| `ArcCache.Cache.AddMRU` | src/local_cache.c:504-531 | links a free slot behind a chain; all chains stay well formed |
| `ArcCache.Cache.RemoveEntry` | src/local_cache.c:534-568 | unlinks a slot wherever it is in its chain |
| `ArcCache.Cache.GetNewEntry` | src/local_cache.c:407-421 | takes the next slot, cleared, or NULL exactly when twice the capacity is used |
| `ArcCache.Cache.Replace` | src/local_cache.c:571-591 | refines replacement on values, list sizes included |
| `ArcCache.Cache.MakeRoom` | src/local_cache.c:170-201 | refines making room on values |
| `ArcCache.Cache.AdaptTarget` | src/local_cache.c:111-121 | refines the target's adaptation |
| `ArcCache.Cache.Promote` | src/local_cache.c:90-130 | refines the work of a hit |
| `ArcCache.Cache.CheckLocalEntry` | src/local_cache.c:53-154 | keeps every chain and count consistent and refines a check on values |
| `ArcCache.Cache.AddLocalEntry` | src/local_cache.c:156-222 | keeps every chain and count consistent and refines an addition on values |
| `ArcCache.Cache.UpdateLocalEntry` | src/local_cache.c:224-266 | rewrites the flags of the lowest matching slot; says whether there was one |
| `ArcCache.Replay` | src/local_cache.c:53-266 | a whole run on the linked slots ends in the state of the same run on values |
| `ListSpec.VisitsPrefix` | src/list.c:296-324 | an iteration visits items in order up to and including the first END or ERROR |
| `ListSpec.RemoveFilters` | src/list.c:350-386 | removal keeps exactly the items that do not match, in order, and reports whether any did |
| `ListSpec.FindStops` | src/list.c:127-171 | a search yields the first match and removes nothing |
| `ListSpec.PopsLastPushed` | src/list.c:549-633 | in every mode the item pushed last is popped first |
| `ListSpec.PopOrderAt` | src/list.c:221-237 | a stack gives up its items from head to tail, generic lists and queues from tail to head |
| `LinkedList.List.constructor` | src/list.c:73-113 | a new list is empty, unlimited, with semaphore zero |
| `LinkedList.List.StackPush` | src/list.c:549-567 | links a node before the head |
| `LinkedList.List.QueuePush` | src/list.c:569-587 | links a node behind the tail |
| `LinkedList.List.Push` | src/list.c:173-219 | adds the item at the head of a stack and at the tail of any other list, posting the semaphore of stacks and queues, or refuses at the limit and changes nothing |
| `LinkedList.List.RemoveNode` | src/list.c:388-420 | unlinks any node of the chain; links, ends and length stay consistent |
| `LinkedList.List.DoPop` | src/list.c:221-237 | takes the item that a push of this mode would have put last |
| `LinkedList.List.Pop` | src/list.c:239-264 | nothing exactly when the wait times out or the list is empty, else the head of a stack or the tail of any other list |
| `LinkedList.List.VisitNodes` | src/list.c:293-325 | the first pass marks exactly the nodes answered REMOVE and answers false exactly on ERROR |
| `LinkedList.List.Prune` | src/list.c:327-345 | the second pass unlinks exactly the marked nodes, in order, and destroys each once |
| `LinkedList.List.ForEach` | src/list.c:272-347 | the items left are those not answered REMOVE; those removed are destroyed once each, in order; false exactly on ERROR |
| `LinkedList.List.Remove` | src/list.c:364-386 | removes and destroys all items equal by identity or comparator; true exactly if there were any |
| `LinkedList.List.Find` | src/list.c:149-171 | the first item that matches; the list is unchanged |
| `LinkedList.List.Clear` | src/list.c:422-440 | empties the list, destroying every item once, from the head of a stack and from the tail of any other list |
| `LinkedList.Transfer` | src/list.c:517-545 | the destination's items are destroyed and it takes over the source's; semaphores and limits stay |
| `LinkedList.Clone` | src/list.c:482-515 | the clones of all items, in the order of the items, or reversed for a stack; nothing if one cannot be cloned |
| `ListPasses.RunKeeps` | src/list.c:272-347 | with any number of iterations, pushes and pops interleaved: items are in the list, popped or destroyed, exactly one; nodes are marked exactly when answered REMOVE; a walk is never past the list |
| `ListPasses.RemovedOnce` | src/list.c:293-345 | an item answered REMOVE is destroyed once or handed to one pop, not both, by the time no iteration is under way; no other item is destroyed |
| `ListPasses.MarkedIsPopped` | src/list.c:326-330 | a pop between the two passes takes an item answered REMOVE |
| `ListSemaphore.RunKeeps` | src/list.c:173-264 | in every interleaving, length = semaphore + inserted-but-unposted pushes + waited-but-unpopped pops |
| `ListSemaphore.TakeFinds` | src/list.c:249-263 | a pop past its wait finds an item, and it is the newest one present |
| `ListSemaphore.QuiescentSemaphore` | src/list.c:173-264 | with no operation half done, the semaphore is the length |
| `SubmissionRuns.ItemsHaveOnePlace` | src/submission.c:474-1029 | in every interleaving each item has at most one place in the queues and with threads, none while it awaits a response; endings have called back; it is destroyed at most once |
| `SubmissionRuns.StepKeeps` | src/submission.c:474-1029 | a step keeps every item where its status says, and success reported for messages sent, if and only if it does not write FINALIZED over an item that is queued or about to be notified |
| `SubmissionRuns.RunKeeps` | src/submission.c:474-1029 | so it is all along a run if and only if no such write happens in it |
| `SubmissionRuns.QueuesHoldTheirOwn` | src/submission.c:474-899 | each queue holds an item at most once and never both the same; without such writes the request queue holds only CHECK items, the submit queue only SUBMIT items, and no thread meets a wrong status |
| `SubmissionRuns.EveryEndCallsBackOnce` | src/submission.c:483-1029 | every submission that ended ran its callback exactly once; no item is destroyed twice or while queued; without such writes callbacks saw success exactly for messages sent |
| `SubmissionRuns.StepTimed` | src/submission.c:118-182 | the timing list keeps at most one entry per outstanding lookup across a step if and only if the step does not forget one: by submitting again without a lookup, removing the item, or writing FINALIZED over it |
| `SubmissionRuns.RunTimed` | src/submission.c:118-182 | items and timing list are right all along a run if and only if no step forgets a lookup or writes FINALIZED over a queued item |
| `SubmissionRuns.StaleSubmissionLeavesEntry` | src/submission.c:530-541 | a run in which submitting again leaves an entry behind for an item being sent |
| `SubmissionRuns.DiscardLeavesEntry` | src/block_pool.c:400-411 | a run in which removing an item leaves an entry behind for an item that is gone |
| `SubmissionRuns.LateFinalizeMeetsWrongStatus` | src/block_pool.c:295-319 | a run in which a submission during finalizing makes the request thread meet a wrong status |
| `SubmissionItems.ItemMoves` | src/submission.c:474-1029 | the status and flags each step gives the item it is about, or that it removes it; every other item stays as it is |
| `SubmissionItems.PopMoves` | src/submission.c:578-864 | request and submit threads take from the tails of their queues |
| `SubmissionItems.PushMoves` | src/submission.c:530-541 | a cache hit and a response queue the item to be sent, a miss queues it to be looked up, at the tail |
| `SubmissionItems.SendEnds` | src/submission.c:940-1029 | a sent item stays exactly if it may be reused and reached the broker; its callback runs once; a message counts exactly if sent |
| `SubmissionItems.StoredExactlyWhenAsked` | src/submission.c:744-921 | in every run an item about to be sent has its data stored if and only if the response to its last submission asked for it and that submission was neither event-only nor an update |
| `SubmissionRuns.IdleItemsBare` | src/submission.c:1000-1005 | an item between submissions carries no flags, as adding data to it requires |
| `SubmissionRuns.AbandonStuckContextCacheLookups` | src/submission.c:669-705 | the loop ends and has given up exactly the context's items that awaited a response, each destroyed once |
| `BlockPool.RunKeeps` | src/block_pool.c:129-380 | in every interleaving, pool size = linked chunks + open reservations + chunks being freed + bytes lost to truncation; item lengths stay below the item limit |
| `BlockPool.PoolSizeExact` | src/block_pool.c:164-380 | nothing is lost if and only if no chunk of 4 GiB or more was linked; a nonzero limit rules that out and is never reached |
| `BlockPool.AdditionAlone` | src/block_pool.c:129-293 | an addition not interfered with is refused at the pool limit, given back in full when the item is not collecting or at its limit, and else linked behind the other chunks |
| `BlockPool.LargeChunkMiscounted` | src/block_pool.c:164-205 | without a limit, adding any file of 4 GiB or more to a new item miscounts the pool |
| `BlockPool.FinalizedIsFrozen` | src/block_pool.c:247-256 | once an item stops collecting and no addition has passed its tests, no data is added to it |
| `BlockPool.LateAdditions` | src/block_pool.c:245-319 | after finalizing, an item's length grows by exactly the addition, if any, that had passed its tests by then and has been linked since |
| `BlockPool.LinkedAfterFinalize` | src/block_pool.c:295-319 | an addition of any size can be linked to an item after it was finalized |
| `BlockPool.Pool.AddData` | src/block_pool.c:216-293 | succeeds exactly for data within both limits on a collecting item; otherwise pool and item are as before |
| `BlockPool.Pool.AddDataFromFile` | src/block_pool.c:129-214 | likewise for a readable file; the chunk records its size modulo 2^32 |
| `BlockPool.Pool.DestroyItemDataList` | src/block_pool.c:344-380 | gives back the length of every chunk |
| `PoolItems.CountBounded` | src/block_pool.c:75-107 | with n overlapping creations the item count exceeds its limit by at most n - 1 |
| `PoolItems.AloneRespectsLimit` | src/block_pool.c:75-107 | creations that do not overlap respect the limit |
| `PoolItems.OverlapExceedsLimit` | src/block_pool.c:75-107 | and that bound is reached, for every limit and every n |
| `PoolItems.LimitRespectedExactly` | src/block_pool.c:75-107 | all runs with at most n overlapping creations respect a limit if and only if n is at most one |
| `StatusWord.SetStatus` | src/block_pool.c:459-469 | replaces the status bits and keeps the flag bits |
| `StatusWord.SetFlags` | src/block_pool.c:482-491 | replaces the flag bits and keeps the status bits |
| `Settlement.SerialBumps` | src/queue.c:758-760 | after n connects the 64-bit serial, which skips zero, is ((n - 1) mod (2^64 - 1)) + 1 |
| `Settlement.SerialDistinguishes` | src/queue.c:758-760 | serials tell connections apart until they have gone all the way round |
| `Settlement.ReconnectMeans` | src/queue.c:811-852 | reconnecting does nothing during shutdown, else closes the connection and counts a new one if that succeeds |
| `SettlementRuns.RecordsOwnedOnce` | src/queue.c:207-296 | in every run a record is with its message, pending or spent, exactly one; it is sent at most once |
| `SettlementRuns.SentOnStampedConnection` | src/queue.c:229-253 | a record is sent only under its stamped serial, hence on the connection live when stamped |
| `SettlementRuns.SentAsAsked` | src/queue.c:258-296 | a record is sent with the decision of the one step that handed it over |
| `SettlementRuns.NotSentAfterReconnect` | src/queue.c:731-763 | nothing stamped before a successful reconnect is sent after it, barring wrap |
| `SettlementRuns.SettledElsewhere` | src/queue.c:1033-1135 | a run in which a delivery of one connection is settled on the next |
| `SettlementRuns.DeliveryExists` | src/queue.c:1033-1135 | every stamped record was consumed by an earlier step, with nothing stamped or dropped between |
| `SettlementRuns.SettledWhereDelivered` | src/queue.c:1033-1135 | a record is sent on the connection it was consumed from if and only if no step between consuming and stamping opened a connection and the serial did not go all the way round before sending |
| `QueueDrain.Queue.ProcessPendingSettlements` | src/queue.c:207-256 | the loop performs drain steps until the list is empty or the connection lost; false exactly when unconnected at start or end |
| `QueueDrain.Queue.Settle` | src/queue.c:436-496 | one settlement is handed over once; a refusal reconnects |
| `QueueDrain.Queue.Reconnect` | src/queue.c:811-852 | closes and connects again with the next serial, or stays as it is while shutting down |
| `QueueDrain.DrainedKeeps` | src/queue.c:207-256 | a drain keeps ownership and leaves nothing pending on a live connection |
| `QueueDrain.DrainedSends` | src/queue.c:207-256 | with a broker that accepts, a drain sends exactly the records stamped with the live serial, from the tail on, and spends all |
| `QueueRefs.RunKeeps` | src/queue.c:137-205 | refs = unreleased creator reference + operations in flight; destroyed at most once, after shutdown, with no operation in flight |
| `QueueRefs.RetainsExactly` | src/queue.c:138-154 | a turn of the retain loop gains a reference if and only if the count is what was read and is not zero |
| `QueueRefs.ZeroIsFinal` | src/queue.c:146-152 | once zero, the count stays zero and no retain succeeds |
| `QueueRefs.DestroyedByLastRelease` | src/queue.c:196-205 | the destroying release is the one that takes the count from one to zero |
| `Inspection.MessageConserved` | src/inspection.c:391-502 | a received message is in exactly one stage or destroyed; settled at most once; acked only if processed once, requeued only if never processed |
| `Inspection.SettledByStep` | src/inspection.c:391-502 | every message that is gone was let go by one step, and is acknowledged or requeued exactly as that step did |
| `Inspection.ProcessedByStep` | src/inspection.c:391-502 | a message counts as processed if and only if a worker processed it |
| `Inspection.CompletedEmptyAtDestroy` | src/inspection.c:817-879 | when shutdown destroys the completed list it is empty, and no worker or receiver holds a processed message |
| `Inspection.DrainCompleted` | src/inspection.c:409-422 | the loop performs drain steps until the completed list is empty |
| `Inspection.DrainedAll` | src/inspection.c:409-422 | which destroys every completed message, acknowledges at most those, all of them if the queue takes them, and changes nothing else |
| `Health.ActiveCountsSnapshots` | src/health.c:181-201 | activeSnapshots is the number of evaluations whose snapshot holds the check; none holds it twice |
| `Health.NoCallbackAfterUnregister` | src/health.c:473-496 | while a callback runs, no unregister of its check has returned |
| `Health.OnlyFallsOnceRemoved` | src/health.c:459-496 | a check that left the registry stays out and its count only falls |
| `Health.RegistryMoves` | src/health.c:417-496 | registering appends a check with a new id; unregistering takes out its id alone and keeps the order |
| `Health.SnapshotTakesAll` | src/health.c:564-582 | a snapshot that lost nothing holds an id if and only if a registered check has it and the evaluation's kind, in registry order |
| `Health.TakenUnderLock` | src/health.c:564-634 | the checks an evaluation runs are those it took before it released the lock |
| `Health.TrueMeansAllPassed` | src/health.c:584-634 | an evaluation answers true if and only if it lost no check and every check it took was run and passed |
| `HealthBuiltIn.BuiltInMeans` | src/health.c:507-562 | the built-in answer by kind; ready if and only if started, every context is ready, and one exists if required |
| `HealthBuiltIn.EvaluationMeans` | src/health.c:498-505 | the whole answer is true if and only if the built-in conditions hold, no check was lost, and for each check of the kind registered at the unlock the callback ran and passed |
| `Timer.RunKeeps` | src/timer.c:100-204 | waiters are the destroyers between their sections; a requested stop always has someone left to clean up |
| `Timer.CleanedUpAtMostOnce` | src/timer.c:129-155 | at most one party cleans up, after the worker ended or in its last step, with no destroyer still to return |
| `Timer.CleanedUpExactlyOnce` | src/timer.c:100-204 | once everyone is done exactly one has cleaned up |
| `Timer.StopEndsWorker` | src/timer.c:158-204 | once a stop is requested the worker leaves at its next test and begins no further callback |
| `Timer.WorkerGoesRound` | src/timer.c:158-204 | without one it sleeps, runs the callback and comes back round |
| `Timer.SleepInterval` | src/timer.c:175-188 | the worker sleeps the whole interval in polls, or stops at the first poll that sees a request |
| `Calendar.SplitDays` | win32/bobins.c:240-251 | days and a remainder from 0 to 86399, for negative times too |
| `Calendar.FindWeekday` | win32/bobins.c:259-261 | (4 + days) mod 7 |
| `Calendar.FindYear` | win32/bobins.c:263-284 | the year that contains the day, walking either way from 1970 |
| `Calendar.FindMonth` | win32/bobins.c:288-291 | the month that contains the day of the year |
| `Calendar.LocalTime` | win32/bobins.c:233-297 | terminates for every time and yields a valid date and time that rebuild it by the closed-form Gregorian count |
| `Calendar.YearStartNext` | win32/bobins.c:221-231 | the closed form advances by 365 or 366 days as the leap rule says |
| `Calendar.MonthStartClosed` | win32/bobins.c:221-231 | the table of month lengths adds up to the closed form (367 m + 5) / 12, less February's correction, at every month |
| `Calendar.DenotesUnique` | win32/bobins.c:233-297 | no other date, time of day, weekday or day of the year would do |
| `Hash.ToText` | src/hash.c:75-106 | the lower-case hexadecimal text of a finalized hash; nothing for others |
| `Hash.HexAt` | src/hash.c:99-105 | characters 2i and 2i + 1 are the digits of the high and the low half of byte i |
| `Hash.CreateFromString` | src/hash.c:208-266 | accepts exactly a known type with its digest length in hexadecimal digits, of either case |
| `Hash.TextRoundTrip` | src/hash.c:75-266 | parsing a printed digest of the type's length gives it back |
| `Hash.ParseRoundTrip` | src/hash.c:75-266 | printing a parsed text gives its lower-case form |
| `Hash.SameDigest` | src/hash.c:208-266 | two texts parse to one digest if and only if they differ at most in case |
| `Hash.Hasher.Update` | src/hash.c:268-296 | absorbs data exactly while not finalized |
| `Hash.Hasher.Finalize` | src/hash.c:341-374 | once, gives the digest of everything absorbed |
| `Decimal.ParsePrinted` | src/json_buffer.c:114-144 | parsing a printed number gives it back if and only if it is in range |
| `Decimal.ScanPrintedNumber` | src/json_buffer.c:1011-1035 | scanning a printed port or protocol number gives it back |
| `Decimal.ParseLimits` | src/json_buffer.c:135-138 | the limit rejects larger numbers and changes no other answer |
| `Decimal.AcceptedMeansNumber` | src/json_buffer.c:126-141 | an accepted text stands for the number its digits say if and only if no minus sign follows leading white space, or the digits say 0 or 2^63 |
| `Decimal.NumeralParses` | src/json_buffer.c:114-144 | what every text of white space, sign and digits parses to: nothing with a leading minus sign, out of range or over the limit, else its value, negative ones modulo 2^64 |
| `Decimal.OnlyNumeralsParse` | src/json_buffer.c:131-134 | no other text parses |
| `Decimal.NegativeTexts` | src/json_buffer.c:126-141 | a minus sign and digits are rejected when bare, and behind any white space accepted as 2^64 less the digits when that is within the limit |
| `Decimal.SpacedNegativeAccepted` | src/json_buffer.c:126-133 | for one, space and minus one parse to 2^64 - 1 |
| `Json.UuidRoundTrip` | src/json_buffer.c:877-939 | a UUID reads back as put |
| `Json.NarrowRoundTrip` | src/json_buffer.c:623-685 | an 8- or 16-bit number reads back as put |
| `Json.WideRoundTrip` | src/json_buffer.c:687-742 | a 32- or 64-bit number reads back as put |
| `Json.NumbersRead` | src/json_buffer.c:623-742 | 32- and 64-bit readers take text within the limit, 8- and 16-bit readers do not; negative integers are refused |
| `Json.DecimalLawful` | src/json_buffer.c:114-144 | the number conversions obey the laws the round trips use |
| `Ntlv.ItemFields` | src/json_buffer.c:1135-1262 | the fields an item is put under, by its type, and what each holds |
| `Ntlv.ItemReadsBack` | src/json_buffer.c:941-1262 | what every item that can be put reads back as: a text cut at its first NUL, JSON printed afresh, nothing for an item without data, else the same |
| `Ntlv.FaithfulExactly` | src/json_buffer.c:941-1262 | that is the item itself if and only if its text is one C string, its JSON a text the library prints, and its data not empty |
| `Ntlv.TextCutShort` | src/json_buffer.c:1143-1151 | a text with a NUL inside is put and reads back shorter |
| `Ntlv.ItemRoundTrip` | src/json_buffer.c:941-1262 | which metadata items can be put, and which of them read back unchanged, both exactly |
| `Ntlv.ListRoundTrip` | src/json_buffer.c:1264-1346 | likewise for lists: exactly when it holds of every item, order kept |
| `Ntlv.ReadItems` | src/json_buffer.c:1325-1343 | the array loop reads every item or fails at the first bad one |
| `JsonStructs.IdFields` | src/json_buffer.c:1348-1810 | the fields that hash, block id and event id are put under, and what each holds |
| `JsonStructs.HashRoundTrip` | src/json_buffer.c:1348-1475 | a hash that was put reads back the same if and only if it has its type's digest length |
| `JsonStructs.BlockIdRoundTrip` | src/json_buffer.c:1477-1552 | a block id that was put reads back the same if and only if its hash does |
| `JsonStructs.BlockRoundTrip` | src/json_buffer.c:1554-1653 | a block with parents of any depth can be put and reads back the same if and only if every hash and metadata item in it does |
| `JsonStructs.EventIdRoundTrip` | src/json_buffer.c:1767-1866 | an event id reads back as put |
| `JsonStructs.EventRoundTrip` | src/json_buffer.c:1655-1764 | an event with parents of any depth can be put and reads back, absent metadata lists having become empty, if and only if its metadata and blocks do |
| `JsonStructs.JudgmentRoundTrip` | src/json_buffer.c:1891-2016 | a judgment can be put and reads back the same if and only if it has metadata that does and its block hash does |

## Left out

- ArcCache.Cache.AddLocalEntry: does not model allocation failure of the key or the checks of the cache type.
- ArcCache.Cache.CheckLocalEntry: reads the flags within the operation; `ArcCopy` covers their copy after the mutex is released, of which the two flag words are two reads.
- ArcMap.RunKeepsWritten: takes keys of one length; the lookup compares only as many bytes as it is asked for, so a shorter key would match a longer one.
- ArcModel.Find: a lookup longer than a stored key compares past its end in C; here it does not match, so lookups no longer than the stored keys are meant.
- LinkedList.List.ForEach: the callback is a function of the item and its user data, and node locks are not modelled; other threads between the two passes are in `ListPasses`, on values.
- ListPasses.RunKeeps: iterations, pushes and pops; clearing, transfer and cloning have no steps.
- LinkedList.Transfer: takes two different lists; a list transferred to itself waits for its own lock.
- ListSemaphore.RunKeeps: only pushes and pops; removal, transfer and clearing leave the semaphore as it is.
- SubmissionRuns.EveryEndCallsBackOnce: a submission whose item is removed from the pool, submitted again or overwritten while it awaits its response ends without a callback and is not counted as ended.
- SubmissionRuns.RunKeeps: items are submitted and removed by their owner only while they are in no queue and with no thread; the source does not test this.
- SubmissionRuns.AbandonStuckContextCacheLookups: the loop runs without other threads' steps between its turns.
- BlockPool.LateAdditions: speaks of items that stay in the pool; what the hash has absorbed, which misses a late addition, is not modelled.
- BlockPool.RunKeeps: sizes are unbounded integers apart from the 32-bit chunk length; the size lock that the file path holds while freeing a rejected chunk is not modelled.
- SettlementRuns.RecordsOwnedOnce: deliveries with automatic acknowledgement, which carry no record, and the direct rejection of a dropped delivery are not modelled.
- QueueRefs.RunKeeps: the count does not wrap at 2^32, and memory stays readable after destruction.
- Inspection.MessageConserved: what processing a message does, pausing, and a launch that fails part of the way.
- Inspection.DrainCompleted: the loop runs without workers adding to the list between its turns; `Inspection.MessageConserved` covers those.
- Health.NoCallbackAfterUnregister: check ids are unbounded; global shutdown, which removes checks in the same way, has no step of its own.
- Timer.RunKeeps: takes destroyers that enter before cleanup; one that enters later uses freed memory.
- Calendar.LocalTime: time values are unbounded; the cast to a 32-bit long on Windows is not modelled.
- Ntlv.ItemRoundTrip: JSON objects are maps, so the order in which json-c keeps and prints members is not modelled; floating-point numbers are kept as text.
- JsonStructs.JudgmentRoundTrip: json-c, libuuid, base64 and address text are functions assumed to be undone by their opposites (`Json.SomeLibraryLawful` shows that the assumptions can be met); objects are values rather than updated in place.
- The protocols of submission, settlement, inspection, health and timers are modelled as steps on values, which captures interleaving but not the in-place update of the structures behind them.
- Find-and-lock of pool items is one step; the time between a lookup and taking the item's lock is not modelled.
- Removing or clearing cache entries: removal leaves list sizes and entry counts behind, and clearing resets the lists of the first cache only.
- First-in-first-out order of queue-mode lists, which the code does not have.
- The other codecs of src/json_buffer.c (nuggets, string lists, message bodies) repeat the same pattern.
- Dispatcher selection, transfer over ssh and http, configuration, logging, telemetry, sockets and thread creation.
