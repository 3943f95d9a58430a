# Queues, sockets and controllers of the RAN stack, verified

A Dafny 4.11 model of the parts of this repository whose correctness is argued
only in comments, with proofs over every input, every interleaving and every run.
`dafny verify dfyconfig.toml` checks all of it.

Concurrent code is modelled as state machines. A step is one atomic operation
(load, store, compare-exchange, fetch-and-add) of one thread; any number of threads
interleave freely. `Reachable` means reachable by some run from the initial state;
each main theorem is about every reachable state or every run. History variables
record what a reader of the log would know (who claimed what, what was sent) and
steer no step. Single-threaded code that updates fields (sockets, controllers,
message builders) is modelled by classes whose methods are proved against
functions on values.

| file | what it models |
|---|---|
| `FreeList.dfy` | the reference-counted lock-free list of free blocks |
| `Claim.dfy` | how consumers claim indices: optimistic count, overcommit, head |
| `ExplicitIndex.dfy` | the explicit producer's block ring and block index, with concurrent dequeues: steps and invariant |
| `ExplicitProducer.dfy`, `ExplicitConsumer.dfy`, `ExplicitRuns.dfy` | its proofs: producer steps, consumer steps, and what holds in every run |
| `ImplicitIndex.dfy` | the implicit producer's block index, and block release: steps and invariant |
| `ImplicitProducer.dfy`, `ImplicitConsumer.dfy`, `ImplicitRuns.dfy` | its proofs: producer steps, consumer steps, and what holds in every run |
| `Storage.dfy`, `ExplicitElements.dfy`, `ImplicitElements.dfy` | the elements in the blocks: construction, move and destruction on top of each index |
| `ExplicitQueue.dfy`, `ImplicitQueue.dfy` | each sub-queue with the claim protocol in place of the single claim step |
| `BlockPool.dfy` | the free list behind the implicit producer's supply of blocks |
| `ProducerPool.dfy` | preallocated producers, the producer list, destruction |
| `Wrap.dfy` | machine words: the claim protocol and index lookups on w-bit indices |
| `Mpmc.dfy`, `Spsc.dfy` | the two bounded queues |
| `SocketSpec.dfy`, `Socket.dfy` | the AsyncSocket write path: specification and classes |
| `LineProtocol.dfy` | the Influx line printer and an independent reader |
| `Framing.dfy` | hand-built RIC control requests and an independent decoder |
| `Kpm.dfy`, `PrbController.dfy` | measurement extraction and the PRB control loop |
| `Common.dfy`, `Modular.dfy` | shared definitions and arithmetic |

Where the code does less than its documentation or purpose suggests, the exact
condition is proved:

- A non-optional socket write is documented to be written "anywhere". It is
  dropped, and reported as 0 bytes, when it overflows a non-empty cork buffer and
  the flush of that buffer leaves backpressure; it is accepted in full under every
  kernel behaviour if and only if it does not overflow a non-empty cork buffer
  (`SocketSpec.MandatoryWriteTakesAll`, with `SocketSpec.OverflowLosesSource`), and
  under a given one if and only if that holds or the kernel takes the whole cork
  buffer at its next call (`SocketSpec.MandatoryWriteAccepted`).
- The escape of a field key in an Influx line leaves backslashes alone: the key
  reads back, with dots as underscores, if and only if it has none
  (`LineProtocol.ReadFieldKey`, with `LineProtocol.BackslashInFieldKey`).
- The CCC request builder adds fixed constants for its length fields. All its
  lengths are right if and only if the header has at most 254 octets, the message
  at least 256 and the total is at most 16383 (`Framing.CccLengths`); a decoder
  that follows section 11.9 of ITU-T X.691 recovers the request if and only if, in
  addition, the header has at most 126 octets (`Framing.CccAligned`). The RC
  builder is right whenever it succeeds, and decodable by X.691 if and only if the
  total is below 128.
- The measurement name of an Influx line is not escaped: it reads back if and only
  if it is free of comma, space and backslash (`LineProtocol.ReadPlainName`). The
  reader meant is `LineProtocol.ReadMeasurement`, which treats a backslash in a name
  as it is treated in a tag: it stands for the character after it. A reader that
  keeps a backslash before other characters would return some more names unchanged.
- The word comparison `circular_less_than` is the true comparison, on indices less
  than a full range apart, if and only if the distance is within half the range
  (`Wrap.CircularLessExact`).

## Model

| member | source | states |
|---|---|---|
| FreeList.Safety | src/ocudu/external/cameron314/concurrentqueue.h:1498-1577 | every step of every interleaving of `add` and `try_get` keeps the invariant: one place per node, count word = list reference + holders + flag, list in memory = list of nodes marked as on it |
| FreeList.NextKeeps | src/ocudu/external/cameron314/concurrentqueue.h:1498-1577 | that invariant is inductive over all atomic steps, including the retry loops and the hand-over to the last reference holder |
| FreeList.Ownership | src/ocudu/external/cameron314/concurrentqueue.h:1498-1577 | each node is in exactly one of: reachable from the head, owned, in one thread's hands, flagged with a reference holder left; at most one thread controls it; its word counts list reference plus holders exactly |
| FreeList.NoAba | src/ocudu/external/cameron314/concurrentqueue.h:1517-1546 | when the head compare-exchange of `try_get` succeeds, the successor read earlier is still the successor, the flag is clear, and following pointers from the new head gives the old list without its first node |
| FreeList.FlagClearAtFinish | src/ocudu/external/cameron314/concurrentqueue.h:1530-1537 | the assertion before the double decrement never fails |
| FreeList.Quiescent | src/ocudu/external/cameron314/concurrentqueue.h:1498-1577 | with no call in progress no node is lost: it is owned, or on the list with count 1 |
| FreeList.LinkedIsOnList | src/ocudu/external/cameron314/concurrentqueue.h:1517-1546 | pointer-reachable from the head is the same as recorded as on the list |
| FreeList.NullMeansEmpty | src/ocudu/external/cameron314/concurrentqueue.h:1517-1546 | a `try_get` that returns without a node: at a moment of that call the list was empty, on whatever path it ended |
| FreeList.GetAlone | src/ocudu/external/cameron314/concurrentqueue.h:1517-1546 | undisturbed, `try_get` gives its caller the first node of a list that is not empty in six steps, wherever other threads were stopped |
| Claim.Safety | src/ocudu/external/cameron314/concurrentqueue.h:1993-2092 | the claim protocol's invariant holds in every run of any mix of consumers |
| Claim.NextKeeps | src/ocudu/external/cameron314/concurrentqueue.h:2287-2378 | each atomic step of `dequeue` and `dequeue_bulk`, and each enqueue, keeps it |
| Claim.Conservation | src/ocudu/external/cameron314/concurrentqueue.h:1993-2092 | optimistic count = head + overcommit + units in flight, hence optimistic - overcommit = head when nothing is in flight |
| Claim.HeadNeverPassesTail | src/ocudu/external/cameron314/concurrentqueue.h:2020-2037 | head plus everything approved but not yet claimed never exceeds tail |
| Claim.ClaimedOnce | src/ocudu/external/cameron314/concurrentqueue.h:2287-2312 | every index below head lies in exactly one claimed range, and no other index in any |
| Claim.TakeCovers | src/ocudu/external/cameron314/concurrentqueue.h:2011-2033 | a stale overcommit is safe: the units a consumer takes stay covered by the tail it reloaded |
| Claim.TakenBound | src/ocudu/external/cameron314/concurrentqueue.h:2011-2033 | covered units never outnumber the tail |
| Claim.ReturnsLess | src/ocudu/external/cameron314/concurrentqueue.h:2287-2312 | if a dequeue claims n elements, fewer than asked for (or none), then at a moment of the call everything published when it began, except n elements, was claimed, in flight with other consumers, or given back by them since an earlier moment of the call; it never claims more than asked |
| Claim.ReturnsAllAlone | src/ocudu/external/cameron314/concurrentqueue.h:1993-2040 | a dequeue during which no other consumer has units in flight claims at least min(max, tail - head) as of its start, so it returns nothing only from an empty queue |
| Claim.AloneClaims | src/ocudu/external/cameron314/concurrentqueue.h:2287-2312 | a dequeue that runs without interruption, wherever others were stopped, claims exactly min(max, elements neither claimed nor in flight), from the head on, and changes nothing else |
| Claim.AloneFindsNothing | src/ocudu/external/cameron314/concurrentqueue.h:1993-2000 | with no such element it ends at once and leaves everything as it was |
| ExplicitRuns.Safety | src/ocudu/external/cameron314/concurrentqueue.h:1887-1991 | the explicit producer's invariant over every run of enqueues, block reuse, index growth and concurrent bulk dequeues |
| ExplicitRuns.NextKeeps | src/ocudu/external/cameron314/concurrentqueue.h:1887-1991 | it is inductive over the producer's and the consumers' atomic steps |
| ExplicitRuns.LookupFindsBlock | src/ocudu/external/cameron314/concurrentqueue.h:2042-2056 | whatever header and front a consumer loaded, the slot it computes holds the block and base in which its claimed, uncompleted index was enqueued |
| ExplicitConsumer.OffsetLeadsHome | src/ocudu/external/cameron314/concurrentqueue.h:2046-2056 | the signed, truncated block offset from any valid entry leads to the slot of the index's block |
| ExplicitProducer.DoubledOk | src/ocudu/external/cameron314/concurrentqueue.h:2396-2433 | the doubled index describes the same blocks and has room for the next |
| ExplicitProducer.ReuseKeeps | src/ocudu/external/cameron314/concurrentqueue.h:1892-1912 | reusing an emptied block keeps the invariant |
| ExplicitRuns.NothingForgotten | src/ocudu/external/cameron314/concurrentqueue.h:2287-2378 | each claimed index is completed, or held by exactly one consumer |
| ExplicitRuns.ConsumerNeverStuck | src/ocudu/external/cameron314/concurrentqueue.h:2042-2091 | a consumer with work left can always take its next step |
| ExplicitRuns.FlagWasClear | src/ocudu/external/cameron314/concurrentqueue.h:1635-1673 | the assertion that an empty flag was not set before never fails |
| ExplicitRuns.GivesUpIff | src/ocudu/external/cameron314/concurrentqueue.h:1913-1942 | an enqueue fails if and only if the loaded head leaves no room for a block within the size limit, or an allocation fails |
| ExplicitRuns.CheckSees | src/ocudu/external/cameron314/concurrentqueue.h:1896-1897 | the check of the block ahead turns away exactly at an element that is not completed |
| ExplicitRuns.ReusesCompletedBlock | src/ocudu/external/cameron314/concurrentqueue.h:1892-1912 | an enqueue called at a block boundary when the oldest block is completed succeeds without taking another block, whatever the consumers do meanwhile |
| ExplicitRuns.EnqueueFinishes | src/ocudu/external/cameron314/concurrentqueue.h:1887-1991 | every step of an enqueue brings it closer to its end |
| Storage.Constructs | src/ocudu/external/cameron314/concurrentqueue.h:1986-1990 | constructing the next element finds raw storage and touches no other element |
| Storage.Takes | src/ocudu/external/cameron314/concurrentqueue.h:2058-2083 | taking an element finds a live object with its value, and destroys that object alone |
| ExplicitElements.Safety | src/ocudu/external/cameron314/concurrentqueue.h:1887-1991 | in every run the live objects are exactly the elements constructed and not taken, each in its cell |
| ExplicitElements.DequeuedIsEnqueued | src/ocudu/external/cameron314/concurrentqueue.h:2287-2378 | what was taken at an index is what was constructed there, once published and claimed; `ExplicitElements.ArgumentArrives` ties it to the argument of the call |
| ExplicitElements.ElementsSurvive | src/ocudu/external/cameron314/concurrentqueue.h:1887-1991 | an enqueued element is alive in its cell until it is taken, despite block reuse; a completed one has been taken |
| ExplicitElements.LiveObjects | src/ocudu/external/cameron314/concurrentqueue.h:1887-1991 | every live object is an element not yet taken, and no two share a cell |
| ExplicitElements.ConstructsRaw | src/ocudu/external/cameron314/concurrentqueue.h:1986-1990 | an element is constructed only in raw storage |
| ExplicitElements.TakesLive | src/ocudu/external/cameron314/concurrentqueue.h:2058-2083 | a consumer moves from and destroys a live object with the value of its index, which nobody took before |
| ExplicitElements.ConstructsArgument | src/ocudu/external/cameron314/concurrentqueue.h:1986-1990 | over every run, the only element that a call of `enqueue` constructs is its argument |
| ExplicitElements.ArgumentArrives | src/ocudu/external/cameron314/concurrentqueue.h:1887-1991 | once a call of `enqueue` with value v has returned true, whoever takes the element of its index, however much later, gets v; until then v is alive in its cell |
| ExplicitElements.IndexReachable | src/ocudu/external/cameron314/concurrentqueue.h:1887-1991 | a run with elements is a run of the index model, so the index theorems apply |
| ExplicitQueue.Safety | src/ocudu/external/cameron314/concurrentqueue.h:1993-2092 | claim protocol and blocks together: counters agree and each consumer is in one phase |
| ExplicitQueue.ClaimIsLegal | src/ocudu/external/cameron314/concurrentqueue.h:2020-2037 | every fetch-and-add on the head index that the protocol allows is a legal claim of the index model |
| ExplicitQueue.WholeQueue | src/ocudu/external/cameron314/concurrentqueue.h:1993-2092 | over the whole dequeue path, head stays below tail, what was taken at an index is what was constructed there, and the rest is alive; `ExplicitQueue.ArgumentArrives` ties it to the argument of the call |
| ExplicitQueue.ArgumentArrives | src/ocudu/external/cameron314/concurrentqueue.h:1887-2092 | the same for the whole sub-queue with the claim protocol, from the argument of `enqueue` to what the claiming consumer gets |
| ExplicitQueue.ClaimRun | src/ocudu/external/cameron314/concurrentqueue.h:1993-2092 | the counters of a run of the whole sub-queue are a run of the claim protocol, so its theorems about what a dequeue returns apply |
| ExplicitQueue.FreshFromFreeList | src/ocudu/external/cameron314/concurrentqueue.h:1932-1942 | a block that `try_get` is about to return is none of the blocks the free list records as owned |
| ImplicitRuns.Safety | src/ocudu/external/cameron314/concurrentqueue.h:2526-2665 | the implicit producer's invariant over every run of insert, rewind, release and index doubling |
| ImplicitProducer.ProduceKeeps | src/ocudu/external/cameron314/concurrentqueue.h:2526-2583 | every step of `enqueue`, with index insertion, rewind after a failed allocation and doubling, keeps it |
| ImplicitConsumer.ConsumeKeeps | src/ocudu/external/cameron314/concurrentqueue.h:2840-2917 | every step of a dequeue, with lookup, completion count and block release, keeps it |
| ImplicitRuns.LookupNeverFails | src/ocudu/external/cameron314/concurrentqueue.h:2996-3012 | the entry looked up for a claimed, uncompleted index has that index's key and its block |
| ImplicitRuns.TailKeyValid | src/ocudu/external/cameron314/concurrentqueue.h:3001-3006 | the tail entry a consumer measures from never has the invalid key |
| ImplicitProducer.ProbeSees | src/ocudu/external/cameron314/concurrentqueue.h:2948-2967 | the slot wanted for a new block has the invalid key if it was never used, and otherwise a null value exactly when its old block has been released |
| ImplicitProducer.DoubledContents | src/ocudu/external/cameron314/concurrentqueue.h:3014-3056 | doubling keeps every live entry at its block's place and adds unused ones |
| ImplicitRuns.GrownSlotInvalid | src/ocudu/external/cameron314/concurrentqueue.h:2969-2980 | after a doubling the slot for the new block is unused, as the code asserts |
| ImplicitRuns.ReleasedOnce | src/ocudu/external/cameron314/concurrentqueue.h:2645-2653 | a block is being released by at most one consumer, was not released before, and all its elements are completed |
| ImplicitRuns.ReportsEmptyIffLast | src/ocudu/external/cameron314/concurrentqueue.h:1635-1673 | for any split of a block among calls, the one that reports it empty is exactly the one that completes it |
| ImplicitRuns.NoBlockLost | src/ocudu/external/cameron314/concurrentqueue.h:2905-2914 | a completed block has been released or is being released |
| ImplicitRuns.GivesUpIff | src/ocudu/external/cameron314/concurrentqueue.h:2527-2560 | an enqueue fails if and only if the loaded head leaves no room within the size limit, there is no index, or an allocation fails; a failed requisition is rewound first |
| ImplicitRuns.ProbeDecides | src/ocudu/external/cameron314/concurrentqueue.h:2948-2967 | the insertion doubles the index if and only if the ring is full and its oldest block has not left it |
| ImplicitRuns.EnqueueFinishes | src/ocudu/external/cameron314/concurrentqueue.h:2526-2592 | every step of an enqueue brings it closer to its end |
| ImplicitElements.Safety | src/ocudu/external/cameron314/concurrentqueue.h:2526-2665 | in every run the live objects are exactly the elements constructed and not taken, although blocks are released and filled again |
| ImplicitElements.DequeuedIsEnqueued | src/ocudu/external/cameron314/concurrentqueue.h:2840-2917 | what was taken at an index is what was constructed there; `ImplicitElements.ArgumentArrives` ties it to the argument of the call |
| ImplicitElements.ElementsSurvive | src/ocudu/external/cameron314/concurrentqueue.h:2526-2665 | an enqueued element is alive in its cell until it is taken; a counted one has been taken |
| ImplicitElements.LiveObjects | src/ocudu/external/cameron314/concurrentqueue.h:2526-2665 | every live object is an element not yet taken, and no two share a cell |
| ImplicitElements.ConstructsRaw | src/ocudu/external/cameron314/concurrentqueue.h:2584-2590 | an element is constructed only in raw storage, although its block may have been used before |
| ImplicitElements.TakesLive | src/ocudu/external/cameron314/concurrentqueue.h:2860-2868 | a consumer finds a live object with the value of its index, which nobody took before |
| ImplicitElements.ConstructsArgument | src/ocudu/external/cameron314/concurrentqueue.h:2584-2590 | over every run, the only element that a call of `enqueue` constructs is its argument |
| ImplicitElements.ArgumentArrives | src/ocudu/external/cameron314/concurrentqueue.h:2526-2592 | once a call of `enqueue` with value v has returned true, whoever takes the element of its index gets v; until then v is alive in its cell |
| ImplicitElements.FreedBlockIsRaw | src/ocudu/external/cameron314/concurrentqueue.h:2905-2914 | a block goes back to the pool without a live object in it |
| ImplicitQueue.Safety | src/ocudu/external/cameron314/concurrentqueue.h:2840-2917 | claim protocol, index and elements together |
| ImplicitQueue.ClaimIsLegal | src/ocudu/external/cameron314/concurrentqueue.h:2595-2618 | every fetch-and-add on the head index that the protocol allows is a legal claim of the index model |
| ImplicitQueue.WholeQueue | src/ocudu/external/cameron314/concurrentqueue.h:2595-2665 | over the whole dequeue path, head stays below tail, what was taken at an index is what was constructed there, and the rest is alive; `ImplicitQueue.ArgumentArrives` ties it to the argument of the call |
| ImplicitQueue.ArgumentArrives | src/ocudu/external/cameron314/concurrentqueue.h:2526-2665 | the same for the whole sub-queue with the claim protocol |
| ImplicitQueue.ClaimRun | src/ocudu/external/cameron314/concurrentqueue.h:2593-2665 | the counters of a run of the whole sub-queue are a run of the claim protocol |
| BlockPool.Safety | src/ocudu/external/cameron314/concurrentqueue.h:2545-2570 | free list and implicit producer together: the producer's blocks in use are its own in every run |
| BlockPool.SupplyIsLegal | src/ocudu/external/cameron314/concurrentqueue.h:2545-2560 | a block that the pool supplies is never one in use, so the index model's assumption holds |
| BlockPool.ReleaseIsLegal | src/ocudu/external/cameron314/concurrentqueue.h:2905-2914 | a released block is in nobody else's hands, so it may be added to the free list |
| BlockPool.InUseIsOffTheList | src/ocudu/external/cameron314/concurrentqueue.h:1498-1577 | a block in use is not on the free list, and no other thread is adding or getting it |
| ProducerPool.Safety | src/ocudu/external/cameron314/concurrentqueue.h:3275-3325 | the invariant of recycling, ticket drawing, creation and list insertion, in every run |
| ProducerPool.ExactlyOnePlace | src/ocudu/external/cameron314/concurrentqueue.h:3291-3304 | each producer is in exactly one of pool, one thread's hands, and the list, where it stands once |
| ProducerPool.MovedByOne | src/ocudu/external/cameron314/concurrentqueue.h:3291-3325 | over every step, the thread that is to move a producer never changes, only it puts the producer on the list, and it stays there |
| ProducerPool.TicketIsExclusive | src/ocudu/external/cameron314/concurrentqueue.h:3293-3297 | a drawn ticket below the pool size names a producer that is still there, and nobody else works on it |
| ProducerPool.OvershootBounded | src/ocudu/external/cameron314/concurrentqueue.h:3292-3294 | tickets overshoot the pool by at most one per thread |
| ProducerPool.ReuseIsExclusive | src/ocudu/external/cameron314/concurrentqueue.h:3281-3289 | a recycled producer was held by nobody and is of the kind asked for |
| ProducerPool.GoesOnWhenInUse | src/ocudu/external/cameron314/concurrentqueue.h:3278-3292 | a call goes on to the pool, or to a new producer, only when every producer listed as it began was in use, or of the other kind, at some moment of the call |
| ProducerPool.CreatesWhenDrawn | src/ocudu/external/cameron314/concurrentqueue.h:3291-3307 | a new producer is created only for a caller that wants an explicit one, or when every ticket of the pool is drawn |
| ProducerPool.AskObtains | src/ocudu/external/cameron314/concurrentqueue.h:3275-3325 | a call that returns has obtained a listed, active producer of the kind asked for, which nobody held; or the allocation of a new one failed |
| ProducerPool.CountIsExact | src/ocudu/external/cameron314/concurrentqueue.h:3309-3325 | the published count is the list's length plus producers about to be pushed |
| ProducerPool.AtRest | src/ocudu/external/cameron314/concurrentqueue.h:879-898 | what remains at destruction: the listed producers and the undrawn part of the pool, disjoint and complete |
| ProducerPool.Destroy | src/ocudu/external/cameron314/concurrentqueue.h:879-898 | the destructor destroys every producer ever created exactly once |
| Wrap.CircularLessExact | src/ocudu/external/cameron314/concurrentqueue.h:479-486 | the word comparison equals the true one if and only if the distance is within half the range |
| Wrap.SameTest | src/ocudu/external/cameron314/concurrentqueue.h:1996-2030 | the emptiness tests of `dequeue` and `dequeue_bulk` agree on all words |
| Wrap.WordStep | src/ocudu/external/cameron314/concurrentqueue.h:2287-2312 | one step on w-bit counters is the wrapped step of the unbounded protocol |
| Wrap.WordsRefineClaims | src/ocudu/external/cameron314/concurrentqueue.h:1993-2092 | under any schedule whose tested differences stay within half the range, the word machine's run is the wrapped unbounded run |
| Wrap.MaskIsWord | src/ocudu/external/cameron314/concurrentqueue.h:2051-2056 | bitwise masking with size - 1 is the remainder by a power of two |
| Wrap.MaskRoundsDown | src/ocudu/external/cameron314/concurrentqueue.h:2051-2056 | masking with the complement rounds down to a block boundary |
| Wrap.SlotRefines | src/ocudu/external/cameron314/concurrentqueue.h:3001-3009 | wrapped subtraction, signed truncating division and masked addition give the unbounded ring position, also for negative offsets |
| Wrap.ExplicitSlot | src/ocudu/external/cameron314/concurrentqueue.h:2042-2056 | the explicit model's lookup step is the one computed on words |
| Wrap.ImplicitSlot | src/ocudu/external/cameron314/concurrentqueue.h:2996-3009 | the implicit model's lookup step is the one computed on words |
| Mpmc.Safety | src/ocudu/external/rigtorp/MPMCQueue.h:163-251 | the invariant of turns, tickets and storage over every interleaving |
| Mpmc.StepKeeps | src/ocudu/external/rigtorp/MPMCQueue.h:163-251 | it is inductive over the atomic steps of all four operations |
| Mpmc.PopReturnsItsTicket | src/ocudu/external/rigtorp/MPMCQueue.h:163-172 | every finished pop returned the value pushed with its ticket, and an unfinished one is still in its thread's hands |
| Mpmc.SlotExclusion | src/ocudu/external/rigtorp/MPMCQueue.h:80-105 | no two threads are inside one slot's construct, move or destroy; only raw storage is constructed, only live objects are moved or destroyed |
| Mpmc.OddTurn | src/ocudu/external/rigtorp/MPMCQueue.h:163-172 | a turn is odd exactly when a ticket of the slot has been pushed and not popped, with its value in the cell or just taken out by its pop; when it is even, every ticket drawn for the slot has been popped or is still being pushed |
| Mpmc.TurnTellsHistory | src/ocudu/external/rigtorp/MPMCQueue.h:163-172 | a turn exceeds a ticket's two values exactly when its push, and its pop, have finished |
| Mpmc.Quiescent | src/ocudu/external/rigtorp/MPMCQueue.h:257-273 | with every thread idle, the slots hold exactly tickets tail..head-1 with their values |
| Mpmc.NoDeadlock | src/ocudu/external/rigtorp/MPMCQueue.h:163-230 | for the smallest unfinished ticket with both halves drawn, the thread that owes the unfinished half can step |
| Mpmc.TryTurnStable | src/ocudu/external/rigtorp/MPMCQueue.h:174-194 | when a try operation's compare-exchange succeeds, the turn is still the tested one |
| Mpmc.SawEarlier | src/ocudu/external/rigtorp/MPMCQueue.h:174-194 | the turn a try operation remembers was in the slot at an earlier moment of the same call |
| Mpmc.TryPushFalse | src/ocudu/external/rigtorp/MPMCQueue.h:174-194 | however `try_emplace` comes to return false, the pop of ticket head - capacity was unfinished at a moment of the call |
| Mpmc.TryPopFalse | src/ocudu/external/rigtorp/MPMCQueue.h:232-251 | however `try_pop` comes to return false, the push of ticket tail was unfinished at a moment of the call |
| Mpmc.TryPushAlone | src/ocudu/external/rigtorp/MPMCQueue.h:174-194 | undisturbed, `try_emplace` decides in three steps: it draws the next ticket for its argument if and only if the pop a lap earlier is done |
| Mpmc.TryPopAlone | src/ocudu/external/rigtorp/MPMCQueue.h:232-251 | undisturbed, `try_pop` decides in three steps: it draws the next ticket if and only if its push is done |
| Mpmc.PushesItsArgument | src/ocudu/external/rigtorp/MPMCQueue.h:163-194 | a push sends its own argument and nothing else, and ends with its ticket published under that value, unless it is a try that drew none |
| Mpmc.PopEnds | src/ocudu/external/rigtorp/MPMCQueue.h:219-251 | a pop ends with the value of its ticket received, unless it is a try that drew none |
| Spsc.Safety | src/ocudu/external/rigtorp/SPSCQueue.h:103-199 | the invariant of indices, stale caches and slots over every interleaving of the two ends |
| Spsc.RefinesBoundedFifo | src/ocudu/external/rigtorp/SPSCQueue.h:103-199 | every step leaves the abstract queue alone, appends while there is room, or removes the first element; it never exceeds `capacity()` |
| Spsc.SlotSafety | src/ocudu/external/rigtorp/SPSCQueue.h:103-183 | no unread slot is overwritten, and only the oldest element's live object is read or destroyed |
| Spsc.RefusedMeansFull | src/ocudu/external/rigtorp/SPSCQueue.h:122-139 | `try_emplace` returns false if and only if the queue is full at the index load |
| Spsc.EmptyMeansEmpty | src/ocudu/external/rigtorp/SPSCQueue.h:167-176 | by whatever step a call of `front` ends, its answer is null if and only if the queue is empty at that step, and otherwise the oldest element |
| Spsc.PopRemovesFirst | src/ocudu/external/rigtorp/SPSCQueue.h:178-189 | by whatever step a call of `pop` ends, it has removed the oldest element and nothing else |
| Spsc.PushEnds | src/ocudu/external/rigtorp/SPSCQueue.h:103-139 | by whatever step a push ends, it has appended its own argument, or it was refused with the queue full; a blocking push is not refused |
| Spsc.PushFinishes | src/ocudu/external/rigtorp/SPSCQueue.h:103-139 | a push ends within four own steps, unless it blocks while the queue is full |
| Spsc.ConsumerFinishes | src/ocudu/external/rigtorp/SPSCQueue.h:167-199 | a call of the consumer ends within three own steps |
| Spsc.SizeIsExact | src/ocudu/external/rigtorp/SPSCQueue.h:191-199 | `size()` is the real length at one of its two loads: the second for the producer, the first for the consumer |
| SocketSpec.WriteLedger | src/ocudu/external/uWebSockets/AsyncSocket.h:236-323 | kernel bytes, backpressure and cork buffer grow by exactly the reported prefix of the source; the call fails if and only if something of the source was left out or backpressure is left, optional or not; for a non-optional write backpressure alone decides |
| SocketSpec.UncorkLedger | src/ocudu/external/uWebSockets/AsyncSocket.h:325-350 | the same for `uncork` of a corked socket, which leaves it uncorked; so a call that does not fail has accepted the whole source |
| SocketSpec.SendBufferLedger | src/ocudu/external/uWebSockets/AsyncSocket.h:154-190 | a reserved region extends the stream by exactly its content; the caller is told to drain if and only if the region went behind the backpressure, and to uncork if and only if the call corked the socket |
| SocketSpec.StreamPreserved | src/ocudu/external/uWebSockets/AsyncSocket.h:155-350 | over every sequence of calls and every kernel behaviour, the stream is the accepted prefixes and reserved regions in order |
| SocketSpec.MandatoryWriteTakesAll | src/ocudu/external/uWebSockets/AsyncSocket.h:284-350 | a non-optional write accepts everything under every kernel behaviour if and only if it does not overflow a non-empty cork buffer |
| SocketSpec.OverflowLosesSource | src/ocudu/external/uWebSockets/AsyncSocket.h:327-345 | the failing case: with a kernel that takes nothing, the source is neither sent nor buffered |
| SocketSpec.OverflowTakesAll | src/ocudu/external/uWebSockets/AsyncSocket.h:327-345 | an overflowing non-optional write is accepted in full if and only if the kernel takes the whole cork buffer at its next call, and otherwise not at all |
| SocketSpec.MandatoryWriteAccepted | src/ocudu/external/uWebSockets/AsyncSocket.h:284-350 | the exact condition on socket and kernel for a non-optional write to be accepted in full |
| SocketSpec.WriteOffersAll | src/ocudu/external/uWebSockets/AsyncSocket.h:236-323 | an uncorked write gives the kernel exactly as much of backpressure and source, in that order, as it takes |
| SocketSpec.CorkedWriteStays | src/ocudu/external/uWebSockets/AsyncSocket.h:271-278 | a write that fits into the cork buffer makes no system call |
| SocketSpec.GenerousKernel | src/ocudu/external/uWebSockets/AsyncSocket.h:236-323 | when the kernel takes what it is offered every write is accepted in full, and no backpressure is left |
| SocketSpec.GenerousUncork | src/ocudu/external/uWebSockets/AsyncSocket.h:327-350 | then `uncork` puts everything accepted, and the source, with the kernel |
| Socket.AsyncSocket.Write | src/ocudu/external/uWebSockets/AsyncSocket.h:236-323 | the imperative `write` is the specified function, and touches the loop only when corked |
| Socket.AsyncSocket.Uncork | src/ocudu/external/uWebSockets/AsyncSocket.h:327-350 | the imperative `uncork` is the specified function, of which `SocketSpec.UncorkLedger` and `SocketSpec.GenerousUncork` are proved |
| Socket.AsyncSocket.GetSendBuffer | src/ocudu/external/uWebSockets/AsyncSocket.h:154-190 | whatever the caller puts into the region, the socket is then as specified; it must wait for a drain if and only if the region lies in the backpressure |
| Socket.AsyncSocket.PutInSendBuffer | src/ocudu/external/uWebSockets/AsyncSocket.h:154-190 | reserving and filling append the content to the stream |
| Socket.AsyncSocket.Cork | src/ocudu/external/uWebSockets/AsyncSocket.h:132-142 | corking terminates the program exactly when another socket has bytes in the cork buffer |
| Socket.AsyncSocket.WriteAndAccount | src/ocudu/external/uWebSockets/AsyncSocket.h:236-323 | the ledger, stated of the object itself: what is reported is what the stream grew by, and the failure flag is exact |
| Socket.AsyncSocket.WriteBeside | src/ocudu/external/uWebSockets/AsyncSocket.h:236-350 | a write leaves every other socket of the loop as it was, except that the cork buffer may become free |
| Socket.BackPressure.Append | src/ocudu/external/uWebSockets/AsyncSocketData.h:33-35 | appends to the live bytes |
| Socket.BackPressure.Erase | src/ocudu/external/uWebSockets/AsyncSocketData.h:36-43 | drops a prefix of the live bytes, clamped, and leaves at most a 32nd of the buffer dead |
| Socket.BackPressure.Clear | src/ocudu/external/uWebSockets/AsyncSocketData.h:47-51 | no live bytes are left |
| Socket.BackPressure.Resize | src/ocudu/external/uWebSockets/AsyncSocketData.h:55-57 | cuts the live bytes or extends them with zeros |
| Socket.BackPressure.TotalLength | src/ocudu/external/uWebSockets/AsyncSocketData.h:64-67 | the reported amount is at least the live bytes and at most 32/31 of them |
| LineProtocol.EscapeIsOnePass | pubsub/consumer/influx_writer.py:29-37 | the four chained replaces are one pass that escapes each special character once, for all strings |
| LineProtocol.ReadEscaped | pubsub/consumer/influx_writer.py:29-37 | reading up to an unescaped delimiter inverts the escape |
| LineProtocol.EscapeInjective | pubsub/consumer/influx_writer.py:29-37 | different strings have different escapes |
| LineProtocol.ReadPrintedTags | pubsub/consumer/influx_writer.py:87-91 | every list of tag pairs is recovered from its printed section |
| LineProtocol.TagSectionInjective | pubsub/consumer/influx_writer.py:87-91 | two lists of tag pairs print alike if and only if they are equal |
| LineProtocol.ReadPlainName | pubsub/consumer/influx_writer.py:87-91 | the measurement reads back if and only if it is free of comma, space and backslash |
| LineProtocol.EscapeKeyIsOnePass | pubsub/consumer/influx_writer.py:40-44 | the chained replaces of a field key are one pass that escapes delimiters in the key with dots as underscores |
| LineProtocol.ReadFieldKey | pubsub/consumer/influx_writer.py:40-44 | a printed field key reads back, with dots as underscores, if and only if it has no backslash |
| LineProtocol.BackslashInFieldKey | pubsub/consumer/influx_writer.py:40-44 | an input on which it does not |
| LineProtocol.ReadPrintedFields | pubsub/consumer/influx_writer.py:92-94 | for values without delimiters, as numbers print, the list of fields is recovered in order from its section if and only if no key has a backslash |
| LineProtocol.ReadPrintedPoint | pubsub/consumer/influx_writer.py:87-97 | a reader of whole lines recovers plain name, tags, fields and timestamp if and only if no field key has a backslash |
| LineProtocol.LinesUnambiguous | pubsub/consumer/influx_writer.py:87-97 | lines of plain measurements are equal only when measurement, tags and the rest are |
| LineProtocol.CommaInMeasurement | pubsub/consumer/influx_writer.py:87-91 | a measurement with a comma prints like another measurement with a tag |
| LineProtocol.BuildLine | pubsub/consumer/influx_writer.py:74-99 | the loops build the specified line; there is none exactly when writing is off or no field is numeric; from a line with a plain name the tags are recovered, and the whole point is recovered if and only if no field key has a backslash |
| Framing.IdsDiffer | ric/xApps/python/lib/e2sm_ccc_module.py:29-32 | requestor ids repeat every 255 calls and never sooner |
| Framing.RcBuilds | ric/xApps/python/lib/e2sm_rc_module.py:25-40 | the RC builder succeeds exactly when every length, the function id and the ack octet fit |
| Framing.RcRoundTrip | ric/xApps/python/lib/e2sm_rc_module.py:25-40 | whenever it succeeds, a reader that trusts every length octet recovers id, function, header, message and ack |
| Framing.RcAligned | ric/xApps/python/lib/e2sm_rc_module.py:25-40 | an X.691 decoder recovers it if and only if the total is below 128 |
| Framing.CccBuilds | ric/xApps/python/lib/e2sm_ccc_module.py:34-50 | the CCC builder succeeds exactly when the total is below 65536 and the octets fit |
| Framing.CccLengths | ric/xApps/python/lib/e2sm_ccc_module.py:8-15 | each length field stands for the bytes it covers if and only if header <= 254, message >= 256 and total <= 16383 |
| Framing.CccAligned | ric/xApps/python/lib/e2sm_ccc_module.py:34-50 | an X.691 decoder recovers the request if and only if header <= 126, message >= 256 and total <= 16383 |
| Framing.HeaderMisread | ric/xApps/python/lib/e2sm_ccc_module.py:45-45 | no header of 127 or more octets is read back, whatever its content |
| Framing.ControlModule.GetRequestorId | ric/xApps/python/lib/e2sm_rc_module.py:20-23 | the next id, modulo 255 |
| Framing.ControlModule.BuildRc | ric/xApps/python/lib/e2sm_rc_module.py:25-40 | uses up an id; what is built reads back |
| Framing.ControlModule.BuildCcc | ric/xApps/python/lib/e2sm_ccc_module.py:34-50 | uses up an id; what is built reads back exactly under the stated condition |
| Kpm.ExtractFormat1 | ric/xApps/python/lib/e2sm_kpm_module.py:66-98 | fails exactly when a record is longer than the list of names; otherwise every value is filed under the name at its position, in order |
| Kpm.ExtractIsColumns | ric/xApps/python/lib/e2sm_kpm_module.py:81-91 | with distinct names each metric gets exactly its column of the records |
| Kpm.ExtractFormat3 | ric/xApps/python/lib/e2sm_kpm_module.py:190-199 | each UE gets the extract of its last report, and only reported UEs appear |
| PrbController.Controller.Collect | ric/xApps/python/simple_xapp.py:33-50 | every UE's counter grows by exactly the volume reported for it |
| PrbController.Controller.Control | ric/xApps/python/simple_xapp.py:59-74 | every UE over the threshold gets exactly one request, the others none, in whatever order the dictionary is walked |
| PrbController.Controller.OnMeasurements | ric/xApps/python/simple_xapp.py:33-74 | the callback's effect on every UE, and the invariant of alternation and accounting |
| PrbController.Controller.OnIndication | ric/xApps/python/simple_xapp.py:24-74 | extraction and callback together: every UE takes the step for the volume extracted for it, and only reported UEs appear; a malformed message raises and changes nothing |
| PrbController.Controller.Amortised | ric/xApps/python/simple_xapp.py:59-74 | over every run: limits sent to a UE alternate 10, 100, ...; total reported = sum at resets + counter; threshold times requests never exceeds the total |
| PrbController.SwitchKeeps | ric/xApps/python/simple_xapp.py:66-74 | a request moves the UE's volume from counter to requests and continues the alternation |
| PrbController.VolumesBound | ric/xApps/python/simple_xapp.py:66-74 | every request is paid for by more than the threshold |

## Left out

- Weak memory orders, fences, alignment and raw allocation: steps are sequentially consistent, and an allocation succeeds or fails.
- Update in place of the concurrent queues: `FreeList`, `Claim`, `ExplicitIndex`, `ImplicitIndex`, `ProducerPool`, `Mpmc` and `Spsc` are state machines over values, because their atomic operations interleave; Dafny methods run alone. The fields and steps are the source's; aliasing of heap objects is not modelled.
- Throwing element constructors and failed bulk enqueues: their undo paths keep injected blocks, and the block-index invariant is not stated for them. Bulk enqueue is not modelled.
- ExplicitIndex and ImplicitIndex: blocks have the default 32 elements, explicit blocks keep one empty flag per element and implicit blocks a counter. Moving an element out and destroying it is one step of `ExplicitElements` and `ImplicitElements`, because no other thread may access the cell in between.
- ExplicitQueue.FreshFromFreeList: takes as given that the free list records the circle's blocks as owned; `BlockPool` proves the counterpart for the implicit producer, whose blocks do go back to the pool.
- Integer widths: counters are unbounded except in `Wrap` and in the free list's 32-bit count word, where there are fewer threads than the flag bit's value. In `Mpmc` and `Spsc` tickets and indices are unbounded.
- Wrap.WordsRefineClaims: applies to schedules in which every tested difference stays within half the range; a consumer suspended while others make half a range of progress is outside it.
- ProducerPool: producer tokens, thread-exit listeners, the implicit producer hash, queue move and swap.
- Progress: `Mpmc.NoDeadlock` and `ExplicitRuns.ConsumerNeverStuck` say that a step is possible, and the lemmas about undisturbed calls what a call does on its own; that a scheduler takes those steps is not stated. `Mpmc`'s `size()` is a guess by its own comment and is not modelled.
- Socket.AsyncSocket.Write: open, non-SSL sockets only; the closed-socket fake success, `corkUnchecked`, `uncorkWithoutSending`, pausing and the `nextLength` hint are not modelled. The kernel takes between none and all of the bytes offered; us_socket_write itself is not part of this model.
- LineProtocol: newlines in tags and field keys, which line protocol cannot escape, are read back by the model's reader, which takes one line at a time; the text of numbers and the timestamp are inputs. Posting is left out.
- Framing: the E2SM payloads inside header and message are octet strings.
- PrbController.Controller.Collect: volumes are non-negative integers counted exactly in kbit instead of floating-point MB, because rounding is not the point of the controller.
- PrbController.Controller.Amortised: likewise about exact volumes. Printing and the metrics writer are left out; dictionaries are walked in any order.
- Kpm: format 2, and the granularity period, which is copied through; values that are not non-negative integers.
- The rest of the repository: application mains, configuration, I/O services, CachingApp, BloomFilter and PLMN coding are not part of this model.
