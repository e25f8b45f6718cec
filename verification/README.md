# Verified models of Concurrent Collections

Concurrent Collections (CnC) is a task-graph runtime. Steps get tagged items that are assigned once, are
suspended when an item is missing, and are run again from the start when it arrives. Tags and items may be
spread over processes. This project models six parts of the runtime in Dafny and proves what they are for.

**Distributed reduction** (`Reduce*.dfy`, with `Sums`, `Monoids`, `Options`, `Division`). P processes run the
handlers of `cnc/reduce.h` for one reduction; messages between the same two processes do not overtake each
other. Each handler is a function from a node to its effect, and a method of class `ReductionNode` that updates
the fields in place and is proved to have that effect. For every P, every root of the tree, every interleaving
of item puts, one put of the exact count (or of the done-flag after the last item) and message receipts: no
assertion in a handler fails, counts and values are conserved, the result is put at most once and only where the
count was put, a run has at most 2n + 6P + 3 events, and a run that cannot go on has put the result. The
operator is any commutative monoid. Combining a thread-local container nothing was added to yields the
default-constructed value, which the code folds in for every leaf process without an item: the result is the
fold of all items *and of those defaults*. `ReduceDefault` is a run in which a product of ints, whose default is
0, is lost; a count of 0 outputs the default. How many defaults enter is known beforehand from where the items
and the count are put, and in which order (`ReduceExact.dfy`): none, or one for no items, if everything is put
on one process before the count, and else one for each leaf of the tree without an item. The reduction yields
the fold of the items for all item values if and only if that many defaults combine to the identity. A single
product does if and only if no default enters or it is 0 anyway.

**Suspend and replay** (`Replay*.dfy`, `Schedulable.dfy`). A machine whose actions are single operations on an
atomic counter or accesses to the item table under an accessor: prepare, schedule, suspend, resume, do_execute,
get, put, the putting of tags, and the waiting environment thread. Step bodies are arbitrary deterministic
programs that may read, branch on what they read, put and spawn in any order. A step is never with two threads
or queued twice, no wakeup is lost, quiescence is recognised exactly, and the outcome of a complete run is
determined by the program. `Schedulable.dfy` gives the counter and the resume loop as code.

**Item lifetime and distribution** (`GetCounts.dfy`, `GetCountsLeak.dfy`, `GetList.dfy`, `ItemPull.dfy`).
Get-counts of one item on P processes: conservation, erasure only after all announced gets are committed, and
exactly when the item is reclaimed in the end: not if all decrements reach the owner before the item does (the
put then makes the count 0 and nobody erases). The list of counted gets of a run, committed or discarded. The
request, subscribe and deliver protocol for items whose consumers are not declared.

**Gauss-Jordan inversion** (`GaussJordan.dfy`, `Tile.dfy`). The in-place inversion of a tile of any size, over
the reals, yields the two-sided inverse. It does not search for pivots: it succeeds exactly on matrices whose
leading submatrices are all regular (and, in the code, whose pivots are not below MINPIVOT, which is said of the
input, without the algorithm), so there are invertible matrices it rejects. The test that the sample itself
makes, `identity_check`, accepts exactly the matrices that are near 0 off the diagonal and near 1 or near 0 on
it; it takes the zero matrix for correct, and is not used as a specification.

**Ranges and range steps** (`Ranges.dfy`, `RangeStep.dfy`, `RangeReplay.dfy`, `RangeSpin.dfy`,
`RangeEnding.dfy`). Splitting a strided range is exact and balanced; recursive splitting partitions its
elements; a range step is done exactly when all its tags are, and runs no tag again that is done. A range that
ends before it starts has size 0, but its iterator yields its first index once.

The replay loop of a range step does not always end. The flag that `flush_gets` looks at is not reset between
the tags or the passes of a range, so a run can fail although it misses nothing; such a run suspends nothing,
and the loop's condition takes it for a run that was woken. A pass is repeated exactly if wakeups and such runs
outnumber the suspends beyond one per run that missed something. Wakeups run out, so a loop that never ends has
such a run in every pass from some pass on. One tag that gets one item and flushes is enough: if the item is put
after the first pass has missed it, the loop never ends, although the item is there from the second pass on. For
each range the loop ends, whatever other threads do, if and only if no tag that is still to be done flushes; or
the flag is not set, no tag to be done before a flushing one gets anything, and the flushing one itself has no
plain get, and no unsafe_get before a flush. Then every repeated pass uses up a wakeup. A step is any sequence
of gets, unsafe_gets and flush_gets.

**Scheduling, join, pinning** (`WorkStealing.dfy`, `Join.dfy`, `JoinCrossing.dfy`, `Pinning.dfy`). The
work-stealing scheduler strands no step as long as pushes come from workers, and after a push
there is a token for a blocked worker if there is one; a push by another thread is safe exactly if a blocked
worker has a token or gets one now, some worker executes, or some worker's scan has queue 0 still ahead. The
join graph pairs each two tags of one process exactly once; tags of two processes are missed exactly if both
announcements arrive before the inserts, which the order of the code (announce, then insert) permits. As many
threads as processors are pinned to distinct ones if and only if c, the quotient of the number np of processors
and the stride rounded down, divides np or np + 1 (with 7 processors and stride 2 it does not), the stride is
positive and not above np, and no processor beyond the first 257 is allowed. The stride comes unchecked from
CNC_PIN_THREADS; above np it divides by zero, and if negative it yields negative positions (the one exception,
by chance harmless, is -1 with one processor).

`dafny verify dfyconfig.toml` checks everything.

## Model

| member | source | states |
|---|---|---|
| ReduceTree.KidsAndParent | cnc/reduce.h:447-454 | for all P, root, p and q: p broadcasts to q exactly if q is not the root and reports to p; no child is listed twice |
| ReduceTree.TreeRanks | cnc/reduce.h:494-516 | the parent of rank r has rank (r-1)/2, and the children have ranks 2r+1 and 2r+2 as far as they are below P |
| ReduceTree.ModIsRemainder | cnc/reduce.h:447-454 | the remainder the tree is defined with is that of the code's % for all operands that occur |
| ReduceTree.AllBelowRoot | cnc/reduce.h:447-454 | every parent chain ends at the root |
| ReduceTree.DeliveriesExact | cnc/reduce.h:494-516 | a broadcast forwarded from p reaches each proper descendant of p once and nobody else |
| ReduceTree.BroadcastReachesAllOnce | cnc/reduce.h:494-516 | a broadcast from the root reaches every other process exactly once, with P-1 messages |
| ReduceNode.ReductionNode.Combine | cnc/reduce.h:396-417 | the thread-local values in one fold, the default value if there is none |
| ReduceNode.ReductionNode.AddToLocals | cnc/reduce.h:680-685 | adds a value to the thread's partial value, starting from the identity |
| ReduceNode.ReductionNode.DoTryPutValue | cnc/reduce.h:396-417 | puts the combined value exactly when the counts match and the node is not done, and says so |
| ReduceNode.ReductionNode.DoSendCount | cnc/reduce.h:423-442 | ships the local count and resets it, not to oneself and not when it is 0 unless asked to |
| ReduceNode.ReductionNode.DoBcast | cnc/reduce.h:494-516 | sends one message to each child of the tree and returns their number |
| ReduceNode.ReductionNode.DoTrySendOrPutValue | cnc/reduce.h:459-489 | counts one value down; after the last one sends the combined value up, or puts it at the owner |
| ReduceNode.ReductionNode.DoOnDone | cnc/reduce.h:765-788 | forwards DONE and starts collecting values, at the owner only once |
| ReduceNode.ReductionNode.DoOnBcastCount | cnc/reduce.h:793-811 | learns the count, forwards it, and as a leaf reports |
| ReduceNode.ReductionNode.DoOnGatherCount | cnc/reduce.h:815-836 | adds a count; reports when all children have, or starts DONE at the owner |
| ReduceNode.ReductionNode.DoOnItemPut | cnc/reduce.h:702-741 | adds an item; later than the count, reports it to the owner or checks for completion |
| ReduceNode.ReductionNode.DoOnCountPut | cnc/reduce.h:842-871 | finishes at once if all is local, else broadcasts the count; the done-flag starts DONE |
| ReduceNode.ReductionNode.DoRecvMsg | cnc/reduce.h:574-632 | dispatches the four messages of one reduction to their handlers |
| ReduceSafety.DeliverDone | cnc/reduce.h:765-788 | receiving DONE keeps the whole invariant and leaves less to do |
| ReduceSafety.DeliverValue | cnc/reduce.h:691-696 | receiving a child's value keeps the invariant, values included, and leaves less to do |
| ReduceSafety.DeliverBcast | cnc/reduce.h:793-811 | receiving the count keeps the invariant and leaves less to do |
| ReducePuts.DeliverGather | cnc/reduce.h:815-836 | receiving a count, regular or extra, keeps the invariant, the owner going on to DONE in the same step when all is counted, and leaves less to do |
| ReducePuts.PutItemAfter | cnc/reduce.h:702-741 | an item put anywhere after the count keeps the invariant and leaves less to do |
| ReducePuts.StepKeepsInv | cnc/reduce.h:574-632 | every event keeps the invariant and decreases the work left |
| ReduceTheorems.Safety | cnc/reduce.h:702-871 | in every reachable state no assertion failed, the result was put at most once, only by the process that put the count, and not before all items were put |
| ReduceTheorems.AssertionsHold | cnc/reduce.h:765-871 | what the handlers assert holds in every run: who puts or is sent the count does not know it, gathered counts and values are expected, DONE comes once |
| ReduceTheorems.CountsConserved | cnc/reduce.h:423-442 | until the result is put, the counts in nodes and in flight add up to the items put |
| ReduceTheorems.ValuesConserved | cnc/reduce.h:459-489 | what nodes hold, what is in flight and what was put out always combine to the items and the defaults that were combined |
| ReduceTheorems.Result | cnc/reduce.h:459-489 | the value put is the fold of all items and of one default per leaf process that got no item |
| ReduceTheorems.ExactWithNeutralDefault | cnc/reduce.h:396-417 | if the default value is the identity, the result is the fold of all items |
| ReduceTheorems.ExactIff | cnc/reduce.h:396-417 | the result is the fold of the items if and only if that fold absorbs the defaults; if these combine to the identity, and for an operator that can be cancelled only then |
| ReduceExact.DefaultsPlanned | cnc/reduce.h:842-871 | the number of defaults in the result is known beforehand: it follows from where the items and the count are put and how many items are put before the count |
| ReduceExact.Realize | cnc/reduce.h:702-871 | every placement and order can be carried out to the end, with any value for the items |
| ReduceExact.PlannedResult | cnc/reduce.h:459-489 | the value put is the fold of the items and of the defaults known beforehand |
| ReduceExact.PlanExactIff | cnc/reduce.h:396-417 | for every lawful operator and every placement: the result is the fold of the items in all runs and for all item values if and only if the defaults combine to the identity |
| ReduceExact.AbsorbedIff | cnc/reduce.h:396-417 | for every operator and default with default op default = default (0 in a product, any value in a minimum): a run yields the fold of the items if and only if no default is planned or the fold absorbs it |
| ReduceTheorems.NoDefaults | cnc/reduce.h:459-489 | with an item on every leaf process the result is the fold of the items, whatever the default |
| ReduceTheorems.RunsAreBounded | cnc/reduce.h:574-632 | no run has more than 2n + 6P + 3 events |
| ReduceTheorems.QuietMeansFinished | cnc/reduce.h:709-740 | with everything put and no message in flight, the result is out, extra counts included |
| ReduceTheorems.CompleteRunsDeliver | cnc/reduce.h:702-871 | a run that cannot be continued has put the result exactly once, with that value |
| ReduceDefault.ProductIsLost | cnc/reduce.h:459-489 | a run on two processes in which the product of the single item 5 comes out as 0 |
| ReduceDefault.ProductExactIff | cnc/reduce.h:396-417 | a product is exact in a run if and only if no default is planned or the product of the items is 0, and for all item values if and only if no default is planned |
| ReplayCounting.ReachesGrows | cnc/internal/tagged_step_instance.h:148-215 | more items never change what a replayed step has read |
| ReplayWaking.PrepMissKeeps | cnc/internal/step_instance.h:167-214 | suspending a new step on a missing dependency keeps the invariant: its counter still is its memberships plus its guard |
| ReplayWaking.PrepEndKeeps | cnc/internal/step_instance.h:167-214 | dropping the guard of a prepared step keeps the invariant: it is then about to be scheduled or in a group, never neither or both |
| ReplayWaking.WakeKeeps | src/scheduler_i.cpp:166-184 | waking one member of a group keeps the invariant: no wakeup is lost and none is given while the step waits elsewhere |
| ReplayWaking.NotMyself | src/scheduler_i.cpp:243-247 | a plain step never schedules itself, so the early return of schedule is not taken |
| ReplaySafety.GuardKeeps | src/scheduler_i.cpp:277-289 | guarding a step taken from the queue keeps the invariant, by which it was guarded by nobody and has all its dependencies |
| ReplaySafety.FailedKeeps | src/scheduler_i.cpp:291-301 | dropping the guard after an unfinished run keeps the invariant: the step is run again or left to its groups, not both |
| ReplaySteps.GetMissKeeps | cnc/internal/item_collection_base.h:867-910 | suspending a step on a missing item keeps the invariant: every member of a group needs the absent item |
| ReplaySteps.PutNewKeeps | cnc/internal/item_collection_base.h:757-768 | a put keeps the invariant: the whole group of the item moves to the waking thread, nobody lost or duplicated |
| ReplaySteps.FinishKeeps | cnc/internal/tagged_step_instance.h:192-204 | finishing keeps the invariant, by which a finished step has done everything before its end, is in no group and is nowhere queued |
| ReplaySteps.StepKeepsInv | src/scheduler_i.cpp:277-320 | every action of every thread keeps the invariant |
| ReplayTheorems.SuspendCount | cnc/internal/schedulable.h:168-197 | m_nSuspenders is the number of memberships plus one while prepared or executed, and an unguarded step is queued or about to be exactly if it is in no group: no wakeup is lost |
| ReplayTheorems.InFlight | src/scheduler_i.cpp:243-269 | m_userStepsInFlight is at all times the number of queued steps, threads that work, and steps counted on their way into the queue |
| ReplayTheorems.NeverTwice | src/scheduler_i.cpp:150-194 | an unfinished step is with at most one thread or queued at one place, not both; a finished one never runs again |
| ReplayTheorems.GroupsAreForAbsentItems | cnc/internal/item_collection_base.h:104-108 | no present item has a suspend group, and members need the item |
| ReplayTheorems.Quiescence | src/scheduler_i.cpp:439-474 | when only the waiter is counted, no thread can act, and every unfinished step is in the group of an absent item it needs |
| ReplayTheorems.NeverStuck | src/scheduler_i.cpp:439-474 | until then some thread can act |
| ReplayTheorems.OpDone | cnc/internal/tagged_step_instance.h:148-215 | at quiescence every put and spawn that a step can get to with the final items has happened |
| ReplayTheorems.Determinacy | cnc/internal/item_collection_base.h:451-488 | if one complete run assigns no item two values, no run does, and all complete runs end with the same items, steps and finished steps |
| ReplayTheorems.EveryRunWithin | cnc/internal/item_collection_base.h:451-488 | every run, complete or not, stays within the result of such a complete run |
| ReplayTheorems.ClashIff | cnc/internal/item_collection_base.h:790-806 | the flag the two theorems above speak of is set exactly if some put assigns a present item another value |
| Schedulables.Schedulable.Suspend | cnc/internal/schedulable.h:168-172 | counts one suspender and records it |
| Schedulables.Schedulable.Unsuspend | cnc/internal/schedulable.h:193-197 | takes one suspender back and says whether it was the last |
| Schedulables.Scheduler.Schedule | src/scheduler_i.cpp:243-269 | counts and queues the step, unless it is the executing one |
| Schedulables.Scheduler.SuspendIn | src/scheduler_i.cpp:150-160 | the current step, or the environment, joins a group |
| Schedulables.Scheduler.Resume | src/scheduler_i.cpp:186-194 | takes every membership back, queues the woken steps in order, empties the group, and reports a waiting environment |
| Schedulables.WokenOnce | cnc/internal/suspend_group.h:70-76 | a step is woken once if it waits for nothing but this group, and not otherwise, however often it is a member |
| GetCounts.Conservation | cnc/internal/item_collection_base.h:649-678 | the owner's count, less decrements buffered or in flight, is the get-count less the committed gets; copies have count 0; no assertion fails |
| GetCounts.ErasedLate | cnc/internal/item_collection_base.h:649-678 | the item is erased only after all gets are committed on all processes, and no copy is dropped before |
| GetCounts.AssertionsHold | cnc/internal/item_collection_base.h:649-678 | a commit always finds its item, and decrements that arrive at the stored item do not exceed its count |
| GetCounts.CopiesErased | cnc/internal/item_collection_base.h:1252-1263 | a copy that is there when the erasure reaches its process is gone for good |
| GetCounts.ReclaimedIff | cnc/internal/hash_item_table.h:275-277 | in the end the item is reclaimed if and only if its put did not find all decrements known to the owner, or there are none |
| GetCounts.PutDecides | cnc/internal/item_properties.h:91-97 | the owner puts at most once, and what that put found decides the count for good |
| GetCounts.DecrementsKnown | cnc/internal/item_collection_base.h:1651-1669 | what n received decrements do to the owner's entry, missing, placeholder or stored |
| GetCountsLeak.Leak | cnc/internal/hash_item_table.h:275-277 | a run in which the item stays forever |
| GetLists.GetList.Decrement | cnc/internal/get_list.h:105-113 | committing takes each listed get off its item's count and erases exactly the items that reach 0; it fails exactly if some count was too low |
| GetLists.GetList.RunStep | cnc/internal/tagged_step_instance.h:190-215 | a run that is discarded changes no count |
| GetLists.ItemTable.DecrementRefCount | cnc/internal/item_collection_base.h:651-667 | one decrement, with erasure at 0 |
| GetLists.CommitsAddUp | cnc/internal/get_list.h:105-113 | runs committed one after the other count like one run with all their gets |
| ItemPull.CopiesAgree | cnc/internal/item_collection_base.h:1585-1616 | all copies are the producer's item, also if the producer's step is replayed and puts it again |
| ItemPull.DeliveredOnce | cnc/internal/item_collection_base.h:1585-1616 | the item is delivered only to processes that wait for it and do not have it |
| ItemPull.WaiterHasOneMessage | cnc/internal/item_collection_base.h:1333-1355 | after the put, a process waits exactly if one request to the source or one delivery from it is under way |
| ItemPull.NobodyWaits | cnc/internal/item_collection_base.h:757-778 | with the item put and no message in flight nobody waits |
| ItemPull.EveryGetServed | cnc/internal/item_collection_base.h:867-910 | with the item put and no message in flight, every process that has asked for it has it, with the value that was put |
| ItemPull.ReceiptsLower | cnc/internal/item_collection_base.h:1585-1616 | every receipt lowers what is left to do and no put raises it, so the messages run out |
| ItemPull.GetKeeps | cnc/internal/item_collection_base.h:886-901 | a failed get keeps the invariant: a waiting process has one request or subscription with each process it asked |
| ItemPull.PutKeeps | cnc/internal/item_collection_base.h:757-778 | a put keeps the invariant: subscriptions at the source become deliveries, one for one |
| ItemPull.ReplayedPut | cnc/internal/item_collection_base.h:779-806 | putting the item again changes nothing anywhere |
| ItemPull.RequestKeeps | cnc/internal/item_collection_base.h:1333-1355 | receiving a request keeps the invariant: it becomes a subscription, or at the source a delivery, one for one |
| ItemPull.ItemEntry.WaitForPut | cnc/internal/item_collection_base.h:867-910 | the item if it is there; else the process waits from then on, requesting it the first time |
| ItemPull.ItemEntry.PutRequest | cnc/internal/item_collection_base.h:1308-1328 | asks the declared producer, or everybody else |
| ItemPull.ItemEntry.PutOrDelete | cnc/internal/item_collection_base.h:745-806 | the first item is stored with its owner, resumes the waiters and, at the owner, is delivered to subscribers; a second one is discarded and nothing changes |
| ItemPull.ItemEntry.HandleRequest | cnc/internal/item_collection_base.h:1333-1355 | subscribes, delivers or ignores |
| GaussJordan.SweepKeeps | samples/matrix_inverse/tile.h:172-210 | one elimination step exchanges x_n and y_n in the linear relation and keeps it, for all vectors, in both directions |
| GaussJordan.Swapped | samples/matrix_inverse/tile.h:172-210 | after all steps the matrix maps y to x exactly if the original maps x to y |
| GaussJordan.StageInverts | samples/matrix_inverse/tile.h:172-210 | both products of the original with the result are the identity, for every size |
| GaussJordan.PivotNonzeroIff | samples/matrix_inverse/tile.h:178-184 | step n finds a nonzero pivot exactly if the leading submatrix of order n+1 is regular |
| GaussJordan.PivotsIff | samples/matrix_inverse/tile.h:178-184 | elimination succeeds exactly on matrices all of whose leading submatrices are regular |
| GaussJordan.PivotIs | samples/matrix_inverse/tile.h:178-184 | the pivot of step n in terms of the input: what row n makes of the x with x_n = 1 that the rows before make 0 of |
| GaussJordan.InvertibleButRejected | samples/matrix_inverse/tile.h:178-184 | an invertible matrix that is rejected |
| Tiles.Tile.Set | samples/matrix_inverse/tile.h:109-110 | writes one entry of the flat array and no other |
| Tiles.Tile.Eliminate | samples/matrix_inverse/tile.h:186-208 | one round of the loop, in place, is elimination step n on all entries |
| Tiles.Tile.Inverse | samples/matrix_inverse/tile.h:172-210 | gives up exactly if some pivot is below MINPIVOT, else leaves the two-sided inverse in b |
| Tiles.AcceptsIff | samples/matrix_inverse/tile.h:178-184 | when it gives up, said of the input alone: for some k, row k is below MINPIVOT on an x with x_k = 1 that the rows before make 0 of |
| Tiles.SmallButRegular | samples/matrix_inverse/tile.h:178-184 | a regular matrix of size 1 that is rejected because it is small |
| Tiles.Tile.IdentityCheck | samples/matrix_inverse/tile.h:126-141 | the count is the number of entries that are neither near 0 nor, on the diagonal, near 1 |
| Tiles.IdentityCheckIff | samples/matrix_inverse/tile.h:126-141 | it accepts exactly the matrices near 0 off the diagonal and near 1 or 0 on it, among them the zero matrix |
| GaussJordan.ProductComposes | samples/matrix_inverse/tile.h:221-234 | the product of a and b is the composition: first b, then a, for all vectors |
| Tiles.Tile.Multiply | samples/matrix_inverse/tile.h:221-234 | every entry is the scalar product of row and column, and the result maps x to z where the argument maps x to y and this tile y to z |
| Tiles.InverseCheck | samples/matrix_inverse/tile.h:172-234 | multiplying a tile with its computed inverse by the tile's own product gives the identity on either side |
| Ranges.ElemsAre | cnc/internal/strided_range.h:40-51 | element k of a range is first + k * step, for as many k as stay below last |
| Ranges.SplitExact | cnc/internal/strided_range.h:63-77 | the two halves are nonempty, have exactly the elements in order, and differ in size by at most one |
| Ranges.LeavesPartition | cnc/default_partitioner.h:136-173 | the leaves of recursive splitting partition the elements in order; none is empty, none larger than the grain, none smaller than half of it |
| Ranges.StridedRange.InitSize | cnc/internal/strided_range.h:106-115 | the size is the number of elements |
| Ranges.StridedRange.Split | cnc/internal/strided_range.h:63-77 | the range keeps the lower part, the new one is the upper part, and sizes add up |
| Ranges.StridedRange.Iterate | cnc/internal/strided_range.h:48-51 | a loop over the range visits its elements exactly if first <= last, else the first index once |
| Ranges.StridedRange.DivideAndOriginate | cnc/default_partitioner.h:136-153 | one division splits off the upper part and says whether to go on |
| Ranges.LeavesForThreads | cnc/default_partitioner.h:119-131 | with the computed grain, a range of at least 4 elements for each thread is split into at least 4 and less than 16 leaves for each thread |
| Ranges.StridedRange.Execute | cnc/internal/range_step_instance.h:203-215 | the split loop, with every range split off treated alike, produces exactly the leaves; with a computed grain there are 4 to 16 for each thread |
| Ranges.Partitioner.GrainSize | cnc/default_partitioner.h:119-131 | the template argument if there is one; else a quarter of the first range's share of a thread, rounded down, or 1 if that is 0, kept for all later calls |
| RangeSteps.RangeStep.Prepare | cnc/internal/range_step.h:129-146 | every tag is prepared, or done if its step was run by prescheduling and succeeded; without prescheduling every declared dependency is there or awaited |
| RangeSteps.RangeStep.ExecuteFromRange | cnc/internal/tagged_step_instance.h:148-215 | the gets, unsafe_gets and flushes of one tag, in any order: a missed one suspends the range step; the run is unfinished if a get misses or a flush finds the flag set |
| RangeSteps.RangeStep.DoPass | cnc/internal/range_step.h:160-184 | one round of the code's loop has the effect of one pass |
| RangeSteps.PassDoes | cnc/internal/range_step.h:160-184 | a pass runs every tag that is not done, none that is, replays nothing exactly if all are done then, and cuts off exactly after the last unfinished tag |
| RangeSteps.RangeStep.Execute | cnc/internal/range_step.h:148-193 | where the loop ends, it ends in the state the passes lead to; it returns success exactly if all tags are done, asks to be sequentialized exactly if one of its runs did, and to be woken exactly if a tag is left and none did |
| RangeSteps.LoopDoes | cnc/internal/range_step.h:148-193 | the same three results over all replays, from the tags and the runs; no done tag runs again; no tag that was left does not run |
| RangeSteps.SequentialNotDone | cnc/internal/range_step.h:167-170 | a tag whose step asks to be sequentialized is never done by the loop |
| RangeReplay.RepeatsIff | cnc/internal/range_step.h:186-189 | a pass is repeated exactly if the wakeups that came in and the runs that failed without missing an item outnumber the suspends beyond one per run that missed |
| RangeReplay.SpoiledIff | src/context_base.cpp:194-202 | a run fails without missing an item exactly if it flushes, the flag was set before and it finds all its items |
| RangeReplay.CannotFail | src/context_base.cpp:194-202 | a run does not fail if it has no plain get, no unsafe_get before a flush, and the flag is not set or it does not flush |
| RangeReplay.SafeStays | cnc/internal/range_step.h:160-189 | in a safe range no run fails without missing an item, and the range stays safe |
| RangeReplay.SafeStops | cnc/internal/range_step.h:160-189 | the loop over a safe range ends for all other threads and all wakeups |
| RangeEndings.WakeupsEnd | src/scheduler_i.cpp:166-184 | wakeups alone cannot keep the loop going: for all ranges and other threads there is a pass after which none comes |
| RangeEndings.SpinsIff | cnc/internal/range_step.h:186-189 | for all ranges and other threads, the loop ends if and only if in some pass wakeups and spoiled runs do not outnumber the excess suspends (or a step asks to be sequentialized); if it does not end, every pass from some pass on has a spoiled run and no wakeup |
| RangeSpin.UnsafeSpins | cnc/internal/range_step.h:160-189 | for every range that is not safe there are other threads with which the loop never ends |
| RangeSpin.StopsIff | cnc/internal/range_step.h:160-189 | the loop ends with all other threads if and only if the range is safe, which its tags and the flag tell before the call |
| RangeSpin.OneTagSpins | cnc/internal/range_step.h:160-189 | one tag, one item put after the first pass has missed it: the loop never ends |
| WorkStealing.OrderIs | src/tbb_concurrent_queue_scheduler.cpp:137-160 | a worker looks at its own queue first and then at the others, from the next one on, round the circle |
| WorkStealing.ScanSeesAll | src/tbb_concurrent_queue_scheduler.cpp:137-160 | a worker's scan comes by every queue, for every number of threads |
| WorkStealing.StepKeepsInv | src/tbb_concurrent_queue_scheduler.cpp:106-179 | every action keeps every nonempty queue served |
| WorkStealing.PushAndRestart | src/tbb_concurrent_queue_scheduler.cpp:222-240 | a pushed step is put at the end of its queue and changes no other; a worker that starts to look begins with its own queue |
| WorkStealing.PushWakes | src/tbb_concurrent_queue_scheduler.cpp:238-240 | after the check that follows a push, any worker that was blocked can be woken |
| WorkStealing.TokensExact | src/tbb_concurrent_queue_scheduler.cpp:238-240 | that check adds a token if and only if there are more blocked workers than tokens; a woken worker takes one; nothing else changes their number |
| WorkStealing.TokensHaveTakers | src/tbb_concurrent_queue_scheduler.cpp:106-179 | in every run there are never more tokens than blocked workers |
| WorkStealing.OutsideIff | src/tbb_concurrent_queue_scheduler.cpp:222-240 | after a push by a thread that is not a worker, queue 0 is served if and only if a blocked worker has or gets a token, a worker executes, or a scan has queue 0 ahead |
| WorkStealing.NothingStranded | src/tbb_concurrent_queue_scheduler.cpp:106-179 | while a queue holds a step some worker will come by; when all are blocked without a token all queues are empty and everything pushed was popped |
| WorkStealing.PoppedOnce | src/tbb_concurrent_queue_scheduler.cpp:137-179 | every pushed step is in one queue or was popped, with multiplicity |
| WorkStealing.OutsidePushStrands | src/tbb_concurrent_queue_scheduler.cpp:222-240 | a run in which a push from outside is stranded between the scan and the block |
| WorkStealing.Queues.PopNext | src/tbb_concurrent_queue_scheduler.cpp:137-179 | pops the first step of the worker's own queue, else of the first nonempty queue in scan order, and nothing only if all are empty |
| Joins.PairsPut | cnc/join.h:173-248 | nothing but pairs is put; tags of one process are paired exactly once; tags of two processes at most twice, and not at all exactly if in the run each announcement is received before the other tag is inserted |
| Joins.AtomicPutsPairAll | cnc/join.h:173-248 | if announcing and inserting are one step, every pair is put |
| JoinCrossing.CrossingMisses | cnc/join.h:181-184 | a run of the code's order that never puts a pair |
| Joins.Join.JoinOneA | cnc/join.h:124-131 | a new tag is paired once with every tag of the other set |
| Joins.Join.OnAPut | cnc/join.h:173-185 | the output stays all pairs of the two sets, each once |
| Joins.Join.OnBPut | cnc/join.h:195-207 | the same for the other collection |
| Pinning.LayTransposes | src/pinning.h:88 | if the quotient c of processors and stride divides np, threads laid out in rows of c get their positions by columns |
| Pinning.LayMultiplies | src/pinning.h:88 | if c divides np + 1, positions are multiples of (np + 1) / c modulo np, and multiplying by c gives the thread back |
| Pinning.LayCollides | src/pinning.h:88 | else threads 1 and c * (np / c) share a position |
| Pinning.T2CIsLay | src/pinning.h:88 | for every stride: beyond the number of processors it divides by zero, a negative one gives the negated position |
| Pinning.T2CSpreadIff | src/pinning.h:88 | for all np and all strides but 0, which turns pinning off: np threads get distinct positions if and only if the stride is from 1 to np and c divides np or np + 1 (or np is 1 and the stride -1), and then every position is taken |
| Pinning.FindCpu | src/pinning.h:183-190 | the loop finds the n-th allowed processor exactly if it is among the first 257; else it ends at the last of these, and for a negative n at -1 |
| Pinning.Pin | src/pinning.h:176-190 | for all masks and strides: no division by zero if and only if the stride is not beyond the number of processors; then np threads get allowed processors, pairwise distinct, if and only if the stride fits and all allowed processors are among the first 257 |
| Pinning.FindNthBit | src/pinning.h:93-103 | on Windows the n-th set bit is found exactly if it is among the lowest eight |

## Left out

- Handlers of `cnc/reduce.h` are atomic steps of the model. In the code `on_bcastCount` sets the status before `nCounts`, without the guard of 1000 that `on_done` uses, so a put or a message between the two is not covered.
- The flush path of the reduction (ALLDONE, ALLVALUES), its non-distributed path, and items that are not selected.
- Counts that are not the number of items: the model requires the count to be exact.
- `tbb::combinable` is not part of this model; that combining an empty container yields a default-constructed value is a parameter (`dflt`).
- Messages are abstract queues; the distributor, serializers, MPI and sockets, and the termination test between processes are not modelled.
- Successor bypass (`m_bypass`), sequentialized and pending steps, preschedule, cancellation, and affinity in `scheduler_i` and `step_instance`.
- When steps are deleted: `prepare` reads `done()` after it dropped its guard (src/scheduler_i.cpp:138).
- Gets of the environment, which block or poll, and tuners that change tags; a put tag is memoized, as `cnc/internal/tag_collection_base.h` does with a table of tags.
- In the suspend and replay machine a series of unsafe_gets is followed by flush_gets, as the interface demands; a step that ignores missing items is not covered there, nor are gets combined with get-counts in one machine.
- That step bodies end: a body of infinitely many operations is allowed and never finishes.
- ReduceTheorems.Safety: does not say that a wrong count or a second count is detected, because the code does not detect it.
- GetCounts.Conservation: counts are mathematical integers bounded by 2^31; overflow of the atomic counter is not modelled.
- Copies of an item that arrive after its erasure was announced stay in the table.
- GetCounts.ReclaimedIff: the owner puts the item once; a replayed put after the erasure, which would store it again, is not modelled.
- ItemPull.NobodyWaits: items with declared consumers, probes from the environment and gathering are not modelled; an item whose producer is declared is put there and nowhere else.
- WorkStealing.NothingStranded: every worker may block, while in the code the root thread polls in wait() and does not; the mode without stealing, with one queue for all, is not modelled.
- Pinning.Pin: an int is unbounded, and the position is computed as on Linux; on Windows np is unsigned and a negative stride divides by zero.
- GaussJordan.StageInverts: over the reals; rounding of floating-point numbers is not modelled.
- RangeSteps.RangeStep.Execute: called with a bound on the passes, because a method that may never end cannot be written; for which ranges there is a bound is `RangeSpin.StopsIff`.
- RangeSpin.StopsIff: only for ranges none of whose steps asks to be sequentialized, which ends the loop; `RangeReplay.SafeStops` covers those too.
- The operations of a tag's step of a range are a fixed list, not computed from items got before; tuner dependencies of a range step are gotten in `Prepare`.
- The same tag put on two processes of the join: the model gives each tag one process.
- Ranges of ranges (range_is_tag_type) and range tags sent to other processes.
- The order in which queues serve steps (FIFO or by priority): the models allow any.
- The hash and vector item tables as implementations of one map, and the tag tables: they would only add easy members.
- Locks, memory order and the internals of concurrent containers: an action under a lock is one step.
