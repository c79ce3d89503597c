# A model of the message core of data_proxy

Every message in this proxy passes through a lock-free queue, a semaphore and blocking queue built on it, and a
message bus with a coroutine executor. This project models that machinery in Dafny and proves what its comments
and assertions argue for: that no element is lost, duplicated or reordered, that no block is shared or freed twice,
that no lookup goes astray, that no permit is over-acquired and no handle stranded.

## How it is modelled

- **Concurrency.** `FreeList`, `DequeueProtocol`, `ImplicitLookup`, `ExplicitLookup`, `ProducerHash`, `Semaphore` and
  `BlockingQueue` are state machines with one step per atomic operation, a program counter and locals per thread, and
  any number of threads. Atomics are sequentially consistent. Results are about every state of every run.
  `ImplicitReaders` and `ImplicitRuns` go on from `ImplicitLookup`, and `ExplicitRuns` from `ExplicitLookup`.
  `ImplicitConsumers` and `ExplicitConsumers` join the dequeue protocol, the lookups and the cells of the blocks into
  one machine each, whose runs are in `ImplicitDelivery` and `ExplicitDelivery`; `Delivery` has what they share.
  The modules whose names end in `Calls` say what one call comes to: what it returns beside any others, and that it
  ends when it is left alone.
- **Sequential code.** `BlockPool`, `BlockIndex`, `ImplicitProducer`, `ExplicitIndex` and `ExplicitProducer` are classes
  with the fields of the source, updated in place by methods with its branches and loops. A block is an address; its
  cells, counter and `next` are entries of maps that all holders of the address share. The history behind the fields,
  the contents as a plain sequence above all, is ghost.
- **Locked code.** `CoExecutor` and `MessageBus` are classes whose methods are critical sections or atomic steps; the
  workers blocked on a condition variable, and the coroutines, are part of the state.
- **Arithmetic.** The counters of the two producers are 64-bit values that wrap, and their guards, masks and signed
  divisions are written out on wrapped values. `Wraparound`, `IndexRing` and `WrappedCounters` show that they agree with
  unbounded integers; the state machines compute with those. The block size is 32 and the limits are those of the
  default traits, except that the sub-queue limit is a parameter.
- **Allocation** succeeds or fails as a parameter of each call says; slots and entries of fresh memory hold anything.

The files build on each other as follows: `Counting` (sums over threads), `Modular`, `Wraparound`, `Claims` and
`Capacities` (arithmetic); `Options` and `Fifo` (values); `BlockPool`, `BlockStorage`, `IndexRing`, `BlockIndex`,
`ImplicitProducer`, `ExplicitIndex`, `ExplicitProducer` (storage); the machines and monitors named above; and
`IndexWitnesses` and `ExplicitLimit`, with runs that show what theorems leave out.

## Findings

- A shared awaiter can lose a message. `await_ready` may take one from the common queue before the coroutine was ever
  suspended on this awaiter, and `await_resume` then goes through a null handle (`MessageBus.LostAtFirstAwait`). The
  await is safe if and only if the coroutine has been suspended on the awaiter before or the common queue is empty
  (`MessageBus.MessageBus.ReadyShared`); as long as that is seen to, each message is delivered once
  (`MessageBus.MessageBus.DeliveredOnce`). Normal awaiters are always safe (`MessageBus.MessageBus.NormalIsSafe`).
- A bulk dequeue with a maximum of zero still runs its loop once. On an implicit producer it can meet a null block, or
  put a block on the free list a second time (`IndexWitnesses.MeetsNull`, `IndexWitnesses.ReleasesAgain`). The lookups
  are safe if and only if every call asks for at least one element (`IndexWitnesses.SafeIffAsking`). On an explicit
  producer such a call is harmless.
- `wait_thread_num` has 16 bits. From 65536 workers on, however many there are, it can read zero with 65536 of them
  asleep, and `resume_coroutine` wakes nobody (`CoExecutor.StrandedByWrap`); with fewer, no handle is ever stranded
  (`CoExecutor.CoExecutor.NothingStranded`).
- An untimed `waitMany` for at most zero permits is accepted, returns zero, and fails its own assertion
  (include/data_proxy/lightweightsemaphore.h:405); `wait_dequeue_bulk` with a maximum of zero reaches it. The run is
  `Semaphore.WaitForNoneGetsNone`. An untimed wait returns at least one permit if and only if it asks for any
  (`Semaphore.ResultsAreInRange`, `BlockingQueue.GrantIsExact`).
- At a distance of exactly half the index range `circular_less_than` answers false both ways. The leeway check keeps
  implicit producers below that distance, and their sub-queues within `MAX_SUBQUEUE_SIZE`
  (`ImplicitProducer.ImplicitProducer.WithinLimit`). An explicit producer does not ask for leeway or limit before it uses
  a block again. With one call at a time that does no harm (`ExplicitProducer.ExplicitProducer.WithinLimit`). While
  consumers run, a sub-queue keeps to both in all states if and only if each block used again would have passed the
  check (`ExplicitLimit.LimitKeptIff`); for every limit there is a run that goes beyond it, in which a consumer stalls
  between claiming and flagging (`ExplicitLimit.OverLimit`).
- A bulk enqueue that is rolled back can leave the slot at the index tail with the invalid key
  (`IndexWitnesses.RollbackLeavesInvalidKey`). No lookup can meet it, because then no block is live
  (`BlockIndex.BlockIndex.Lookup`, `ImplicitRuns.StaleLookup`).

## Model

| member | source | states |
|---|---|---|
| `FreeList.Ownership` | include/data_proxy/concurrentqueue.h:1459-1538 | in every reachable state, any number of threads and nodes: a walk from `freeListHead` is a list without repetition, and every node is in exactly one place: on that list once, possessed or being pushed by exactly one party, or waiting for the last reader that dropped its reference to put it back |
| `FreeList.ListedReferenceLaw` | include/data_proxy/concurrentqueue.h:1478-1505 | the word of a listed node is one for the list plus the references that readers hold |
| `FreeList.OwnedReferenceLaw` | include/data_proxy/concurrentqueue.h:1478-1505 | the word of a node that a thread possesses has no flag and counts the readers, plus the list's reference while `try_get` has not dropped it: the assertion that the flag is clear always holds |
| `FreeList.PushedReferenceLaw` | include/data_proxy/concurrentqueue.h:1515-1538 | a node being pushed bears the bare flag and nobody reads it, until its count is raised again; from then on the word is one plus its readers |
| `FreeList.AwaitedReferenceLaw` | include/data_proxy/concurrentqueue.h:1459-1505 | a node that is neither on the list nor in any thread's hands bears the flag plus its readers, and has at least one, who will find itself the last |
| `FreeList.NextIsStill` | include/data_proxy/concurrentqueue.h:1478-1538 | no step of any thread changes `freeListNext` of a node that some thread in `try_get` holds a reference on, and the `next` it has loaded is still the node's: its compare-exchange of the head cannot suffer ABA |
| `FreeList.Quiescent` | include/data_proxy/concurrentqueue.h:1459-1538 | when no call is in progress a listed node's word is 1, and any other node's is 0 and a client owns it |
| `FreeList.StepKeepsInv` | include/data_proxy/concurrentqueue.h:1459-1538 | every atomic operation, in any interleaving, keeps the list, each node's role and each thread's part in it, and the reference law |
| `FreeListCalls.LoneTryGet` | include/data_proxy/concurrentqueue.h:1473-1510 | with no other call in progress `try_get` takes the first node of the list, leaves the rest, and gives it to its caller; on an empty list it returns nothing and changes nothing |
| `FreeListCalls.LoneAdd` | include/data_proxy/concurrentqueue.h:1459-1471 | with no other call in progress `add` puts the node in front of the list |
| `FreeListCalls.TryGetTakesOrFindsNone` | include/data_proxy/concurrentqueue.h:1473-1510 | beside any other calls: a `try_get` gives one node that it took off the front of the list at some moment of the call, or gives none, and then a load of the head within the call found it null |
| `FreeListCalls.AloneReturns` | include/data_proxy/concurrentqueue.h:1459-1538 | from every reachable state, whatever the others have left half done, a call that is left alone returns within 31 steps |
| `DequeueProtocol.ClaimsBelowTail` | include/data_proxy/concurrentqueue.h:1957-2003 | `headIndex` plus everything still being claimed never passes the published `tailIndex`, although every consumer tests a stale `dequeueOvercommit` |
| `DequeueProtocol.ClaimsPartitionHead` | include/data_proxy/concurrentqueue.h:2250-2269 | the claims of all `dequeue` and `dequeue_bulk` calls are disjoint, in order, and cover exactly the indices below `headIndex` |
| `DequeueProtocol.CounterBalance` | include/data_proxy/concurrentqueue.h:1979-2047 | `dequeueOptimisticCount` is always `headIndex` plus `dequeueOvercommit` plus the weight of unresolved tickets |
| `DequeueProtocol.LoneDequeue` | include/data_proxy/concurrentqueue.h:2257-2333 | whatever failed attempts came before, a call with no other in progress gets exactly as many elements as are there and asked for, and leaves the effective count at the head |
| `DequeueProtocol.SettleKeepsHigh` | include/data_proxy/concurrentqueue.h:1979-2003 | deciding a ticket against the tail with a stale snapshot of the overcommit keeps the bound that claims fit below the tail, wherever the ticket lies among the others |
| `DequeueCalls.TicketIsWorth` | include/data_proxy/concurrentqueue.h:2259-2269 | beside any other consumers a ticket is worth the elements that the tail, loaded again, is beyond the effective count, up to what was drawn; exactly these are claimed and exactly the rest is given back |
| `DequeueCalls.LostOnlyBeyondTail` | include/data_proxy/concurrentqueue.h:2260-2269 | a position of a ticket is claimed if and only if the tail has passed it, by the snapshot of the overcommit |
| `DequeueCalls.CallGets` | include/data_proxy/concurrentqueue.h:2248-2333 | a whole call in any interleaving: it gets nothing if its first look at the counters said so, and otherwise the smallest of its maximum, what that look said, and what its ticket came to when the tail was loaded again |
| `DequeueCalls.AloneReturns` | include/data_proxy/concurrentqueue.h:1955-2051 | wherever a call is, it returns after at most seven steps of its own, whatever others leave undone |
| `WrappedCounters.WrappedRun` | include/data_proxy/concurrentqueue.h:1957-2003 | while compared counters are less than half the index range apart, the protocol on wrapped 64-bit counters takes the same steps as the one on unbounded ones, and makes the same claims |
| `WrappedCounters.AvailableIsExact` | include/data_proxy/concurrentqueue.h:2250-2262 | the unsigned difference that `dequeue_bulk` computes from the three wrapped counters is the true one when its guard passes, and the guard passes exactly when there is something |
| `Wraparound.CircularLessIsLess` | include/data_proxy/concurrentqueue.h:477-480 | within half the range `circular_less_than` is the order of the unbounded values, except that at exactly half it answers false both ways |
| `Wraparound.GuardsAgree` | include/data_proxy/concurrentqueue.h:2250-2253 | `dequeue`'s guard and `dequeue_bulk`'s ask the same question, for all wrapped counters whatever |
| `Wraparound.LeewayKeepsHalf` | include/data_proxy/concurrentqueue.h:2491-2499 | in every run of single enqueues the check at each block start keeps the end of the tail block less than half the range ahead of the head, so the check itself reads the true order |
| `Wraparound.RingSlotIsExact` | include/data_proxy/concurrentqueue.h:2953-2961 | the slot computed from wrapped bases by signed division is the true ring slot, ahead or behind, across a wrap of the indices and of the ring |
| `Wraparound.BlockBaseDiffCountsStarts` | include/data_proxy/concurrentqueue.h:2643-2645 | `blockBaseDiff` is the block size times the number of block starts in [start, start + count), also when `start - 1` wraps |
| `Wraparound.Fill` | include/data_proxy/concurrentqueue.h:2703-2771 | the fill loop of the bulk enqueue on wrapped indices writes element k to index start + k in the block that this index belongs to, and ends at the new tail exactly when it has filled the last block |
| `BlockPool.BlockPool.Requisition` | include/data_proxy/concurrentqueue.h:3096-3114 | a block comes from the initial pool, else the free list, else new memory, in this order; it was in nobody's hands, holds no element, and no block in use is written; it fails exactly when all three fail |
| `BlockPool.BlockPool.Release` | include/data_proxy/concurrentqueue.h:3067-3080 | a block that is out and blank goes back once: recycled if it is of the initial pool, destroyed otherwise |
| `BlockPool.GivingBack` | include/data_proxy/concurrentqueue.h:3067-3080 | every address is in exactly one of initial pool, free list, producers' hands and destroyed, before and after a release |
| `IndexRing.LookupIsExact` | include/data_proxy/concurrentqueue.h:2948-2964 | from the tail slot and its key a lookup reaches the slot of any block, ahead of the tail or behind it, across wraps |
| `IndexRing.DoublingKeepsRing` | include/data_proxy/concurrentqueue.h:2966-3008 | copying a full ring into one of twice the size keeps every live block's entry reachable, at a new slot, with the new half free |
| `BlockIndex.BlockIndex.InsertEntry` | include/data_proxy/concurrentqueue.h:2901-2933 | an entry is claimed for the next block, in a grown index if the old one is full; it fails exactly when there is no index, or it is full and may not or cannot grow, and then ring, tail and entries are as before |
| `BlockIndex.BlockIndex.NewBlockIndex` | include/data_proxy/concurrentqueue.h:2966-3008 | the copy loop visits every slot once, from the one after the tail round to the tail, and the first index of all is an empty ring |
| `BlockIndex.BlockIndex.Lookup` | include/data_proxy/concurrentqueue.h:2948-2964 | for an element in a live block the slot found has the block's key and the block: the source's assertions hold |
| `BlockIndex.BlockIndex.UndoOne` | include/data_proxy/concurrentqueue.h:2668-2674 | in a rollback each entry is found although the tail is already on its way back, and is emptied |
| `Capacities.CapacityDividesRange` | include/data_proxy/concurrentqueue.h:2961 | every capacity that the index can reach divides the index range, which masking a wrapped offset relies on |
| `Capacities.GrownIsFull` | include/data_proxy/concurrentqueue.h:2906-2933 | a ring that is doubled whenever it is full has to grow exactly when the slots in use number its first capacity times a power of two |
| `ImplicitProducer.ImplicitProducer.Enqueue` | include/data_proxy/concurrentqueue.h:2487-2549 | appends the element or leaves contents, blocks and index as they were; succeeds exactly when the tail block has room, or the limit, the index and the pool allow a new one; other producers' blocks are not touched |
| `ImplicitProducer.ImplicitProducer.Dequeue` | include/data_proxy/concurrentqueue.h:2551-2619 | takes the first element, or nothing exactly when there is none; a block goes back when its last element has been read, and the others stay |
| `ImplicitProducer.ImplicitProducer.EnqueueBulk` | include/data_proxy/concurrentqueue.h:2626-2774 | appends all items in order, or leaves contents, tail block, live index entries and the set of blocks out exactly as before; it succeeds if and only if the batch starts no block, or the limit has room for all the blocks it starts, there is an index, and there is memory whenever its ring is full and for each block that the pool has not |
| `ImplicitProducer.ImplicitProducer.WithinLimit` | include/data_proxy/concurrentqueue.h:2495-2499 | whatever operations came before, the sub-queue holds no more than `MAX_SUBQUEUE_SIZE` elements and fewer than half the index range |
| `ImplicitProducer.ImplicitProducer.Rollback` | include/data_proxy/concurrentqueue.h:2660-2680 | every block that the batch has taken leaves the index and goes back to the pool once |
| `ImplicitProducer.ImplicitProducer.DequeueBulk` | include/data_proxy/concurrentqueue.h:2780-2879 | takes the first min(max, size) elements in order, across blocks, handing back every block it empties; nothing for max 0 |
| `ImplicitProducer.ImplicitProducer.Destroy` | include/data_proxy/concurrentqueue.h:2446-2470 | destroys exactly the elements in [head, tail), in order, and hands every block still owned back once |
| `ImplicitProducer.ImplicitProducer.Mix` | include/data_proxy/concurrentqueue.h:2487-2879 | any sequence of the four operations, with memory failing at any point, answers like a plain sequence that appends at the back and removes from the front |
| `Fifo.FirstInFirstOut` | include/data_proxy/concurrentqueue.h:2487-2879 | whatever was there and was accepted, in order, is what was taken out, in order, followed by what is left |
| `BlockStorage.AppendKeepsCells` | include/data_proxy/concurrentqueue.h:2545 | constructing at the tail index puts the element where the contents say it is and touches no other element of any block |
| `BlockStorage.RemoveKeepsCells` | include/data_proxy/concurrentqueue.h:2577-2600 | what is moved out at the head index is the first element, and no other is touched |
| `BlockStorage.CountingKeeps` | include/data_proxy/concurrentqueue.h:1597-1634 | the counter of the head block is the number of its elements read, and reaches the block size exactly when the last one is |
| `BlockStorage.FullIsExact` | include/data_proxy/concurrentqueue.h:2495-2497 | the check on wrapped counters refuses exactly when the span up to the end of the new block would reach half the range or pass the limit |
| `ImplicitRuns.StaleLookup` | include/data_proxy/concurrentqueue.h:2948-2964 | any number of consumers, one step per atomic operation, while the producer tests the next entry, inserts, grows the index, rewinds and rolls back, if every call asks for at least one element: the key a consumer starts from is valid, and the entry it computes from its possibly stale header has its own block's key and block |
| `ImplicitReaders.LookupIsRight` | include/data_proxy/concurrentqueue.h:2948-2964 | the key read through a stale tail is that of the block number the tail slot was keyed for, and the slot computed is the consumer's block's in the header it has |
| `ImplicitRuns.ReadsOwnBlock` | include/data_proxy/concurrentqueue.h:2560-2600 | if every call asks for at least one element: a block being read is the one its elements were put in and is in no other place: not free, not in another hand, not under another number |
| `ImplicitRuns.BlockStays` | include/data_proxy/concurrentqueue.h:2530-2545 | if every call asks for at least one element: a published block number keeps its block until it leaves the index, and never comes back |
| `ImplicitRuns.ReleasedWhenRead` | include/data_proxy/concurrentqueue.h:2857-2868 | if every call asks for at least one element: a block leaves the index only when all its elements have been counted, none is claimed or still to claim, and exactly one consumer is taking it out |
| `ImplicitRuns.BlocksAreConserved` | include/data_proxy/concurrentqueue.h:2599-2608 | in every run in which every call asks for at least one element the blocks in the index, on the free list, being taken back and in releasing hands are disjoint and together always the same set |
| `ImplicitRuns.ConsumersGoOn` | include/data_proxy/concurrentqueue.h:2948-2964 | if every call asks for at least one element no consumer ever meets a null pointer or a slot outside the index it loaded |
| `IndexWitnesses.SafeIffAsking` | include/data_proxy/concurrentqueue.h:2780-2868 | that condition is exact: consumers can always go on, and blocks are always in one place, if and only if no call asks for zero elements |
| `IndexWitnesses.MeetsNull` | include/data_proxy/concurrentqueue.h:2814-2857 | a run in which a bulk dequeue of at most zero elements looks a block up that has just left the index, and finds a null pointer |
| `IndexWitnesses.ReleasesAgain` | include/data_proxy/concurrentqueue.h:1628-1633 | a run in which such a call counts nothing after the last element and puts the block on the free list when it is there already |
| `IndexWitnesses.RollbackLeavesInvalidKey` | include/data_proxy/concurrentqueue.h:2666-2674 | a run in which a bulk enqueue is rolled back and the slot at the index tail has the invalid key |
| `ImplicitLookup.KeyKeepsIndex` | include/data_proxy/concurrentqueue.h:2901-2918 | keying a free entry keeps every header's view of every block that a consumer can still need, whether the entry is new, was taken back, or is the oldest of a full window |
| `ImplicitLookup.GrowKeepsIndex` | include/data_proxy/concurrentqueue.h:2966-3008 | publishing a doubled index keeps the old headers and the new one in agreement on all entries in use |
| `ImplicitLookup.GrownIsNew` | include/data_proxy/concurrentqueue.h:2928 | the entry that comes next after growing has never been keyed, as the source asserts |
| `ImplicitLookup.TestKeepsIndex` | include/data_proxy/concurrentqueue.h:2908-2912 | what the producer has seen of the next entry stays so although consumers go on emptying entries: free stays free, and a taken one was the last of a full window, which is still what the doubling starts from |
| `ImplicitCalls.NothingKept` | include/data_proxy/concurrentqueue.h:2599-2608 | if every call asks for at least one element: with no consumer in a call exactly those blocks with published elements are in the index that have one not yet claimed; every other has gone back |
| `ImplicitCalls.ConsumerReturns` | include/data_proxy/concurrentqueue.h:2551-2619 | if every call asks for at least one element: a consumer that is left alone, wherever it is, comes to the end of its call |
| `ImplicitCalls.InsertsAlone` | include/data_proxy/concurrentqueue.h:2901-2933 | a producer at a block start, left alone with a block to be had, gets it into the index under the next number: at the next entry if that is free, and in an index of twice the size otherwise |
| `ImplicitCalls.RollsBackAlone` | include/data_proxy/concurrentqueue.h:2660-2680 | a producer that takes a batch back, left alone, gets every block of it out of the index and onto the free list, and touches no other |
| `ImplicitDelivery.NeverBlocked` | include/data_proxy/concurrentqueue.h:2551-2619 | if every call asks for at least one element, in the joined machine: every claim that the counters grant is there to be made, every element claimed is in the cell it is looked for in, and a thread inside a call can always go on |
| `ImplicitDelivery.ReadsOwnElement` | include/data_proxy/concurrentqueue.h:2806-2868 | if every call asks for at least one element: what a consumer reads is in a claim of its own call, read by no other consumer and not read before, and has the value that was enqueued at its index |
| `ImplicitDelivery.DeliversWhatWasEnqueued` | include/data_proxy/concurrentqueue.h:2551-2879 | if every call asks for at least one element: what has been delivered at an index is what was enqueued there, and once every call has returned exactly the elements claimed have been delivered, each once |
| `ImplicitDelivery.RunIsBoth` | include/data_proxy/concurrentqueue.h:2780-2879 | if every call asks for at least one element, each run of the joined machine is a run of the protocol and a run of the lookups, so that every result about either holds of it |
| `ExplicitIndex.ExplicitIndex.NewBlockIndex` | include/data_proxy/concurrentqueue.h:2356-2393 | the slots in use are copied in order from the oldest and stay where lookups find them, or nothing changes when memory fails |
| `ExplicitProducer.ExplicitProducer.Enqueue` | include/data_proxy/concurrentqueue.h:1849-1951 | appends the element or leaves contents and blocks as they were; succeeds exactly when the tail block has room, the oldest block has been read to its last flag, or the limit, the index and the pool allow a new block |
| `ExplicitProducer.ExplicitProducer.WithinLimit` | include/data_proxy/concurrentqueue.h:1857-1880 | with one call at a time the sub-queue holds no more than `MAX_SUBQUEUE_SIZE` elements, although reuse of a block is not checked |
| `ExplicitProducer.ExplicitProducer.Dequeue` | include/data_proxy/concurrentqueue.h:1955-2051 | takes the first element, or nothing exactly when there is none, and sets its flag; blocks and index stay |
| `ExplicitProducer.ExplicitProducer.DequeueBulk` | include/data_proxy/concurrentqueue.h:2248-2338 | takes the first min(max, size) elements in order and sets exactly their flags |
| `ExplicitProducer.ExplicitProducer.SetManyEmpty` | include/data_proxy/concurrentqueue.h:1616-1626 | sets the flags of `count` elements from an index on, which run backwards in the block, and no others |
| `ExplicitProducer.ExplicitProducer.Mix` | include/data_proxy/concurrentqueue.h:1849-2338 | any sequence of `enqueue`, `dequeue` and `dequeue_bulk`, with memory failing at any point, answers like a plain sequence, across block reuse and index growth |
| `ExplicitProducer.FlaggingKeeps` | include/data_proxy/concurrentqueue.h:1597-1626 | after flagging what was read, flag 31 - k of every block in the circle says whether its element k has been dequeued |
| `ExplicitProducer.TurnKeepsCircle` | include/data_proxy/concurrentqueue.h:1859-1869 | taking the oldest block as the newest leaves one circle through all blocks in order of their numbers |
| `ExplicitRuns.StableLookup` | include/data_proxy/concurrentqueue.h:2008-2017 | any number of consumers, one step per atomic operation, while blocks are reused and inserted and the index doubles: the base read through any header and front is a started block's, and the slot computed has the block the consumer's element was put in |
| `ExplicitRuns.ReadsOwnBlock` | include/data_proxy/concurrentqueue.h:2015-2038 | a block with an element not yet flagged as read is in the circle under that one number only |
| `ExplicitRuns.ReusedWhenRead` | include/data_proxy/concurrentqueue.h:1569-1583 | when the scan of the oldest block's flags, one load after the other while consumers set them, finds the last one set, all its elements have been claimed and none is still being read or flagged |
| `ExplicitRuns.RefusedWhenUnread` | include/data_proxy/concurrentqueue.h:1569-1583 | when it finds one clear, that element is still to be claimed, or with exactly one consumer to be read and flagged |
| `ExplicitRuns.FlagWasClear` | include/data_proxy/concurrentqueue.h:1597-1626 | the flag that a consumer sets is clear before, as the source asserts, and is that of its element in the block the element was put in |
| `ExplicitLookup.SetEmptyKeepsElements` | include/data_proxy/concurrentqueue.h:1616-1626 | setting flags one by one, from the last element read back to the first, keeps each claimed element of the circle either flagged or pending with exactly one consumer |
| `ExplicitLookup.WriteKeepsIndex` | include/data_proxy/concurrentqueue.h:1934-1939 | writing base, block and front of the next slot, one at a time, never touches a slot that a consumer can still need |
| `ExplicitRuns.ConsumersGoOn` | include/data_proxy/concurrentqueue.h:2265-2333 | no consumer is ever stopped by a slot outside the index it loaded or by flags of a block not in the circle, whatever number of elements it asked for, zero included |
| `ExplicitCalls.FlagsTell` | include/data_proxy/concurrentqueue.h:1597-1626 | with no consumer in a call the flags say exactly, of every element of a block in the circle, whether it has been claimed |
| `ExplicitCalls.ConsumerReturns` | include/data_proxy/concurrentqueue.h:1955-2051 | a consumer that is left alone, wherever it is, comes to the end of its call |
| `ExplicitCalls.ReusesAlone` | include/data_proxy/concurrentqueue.h:1859-1869 | a producer at a block start, left alone with every element of its oldest block read and flagged, uses that block again under the next number |
| `ExplicitCalls.InsertsAlone` | include/data_proxy/concurrentqueue.h:1870-1939 | with an unread element there, or no block yet, it puts a new block into the circle, if there is room up to the limit, a slot, and a block to be had |
| `ExplicitDelivery.NeverBlocked` | include/data_proxy/concurrentqueue.h:1955-2051 | in the joined machine every claim that the counters grant is there to be made, every element claimed is in the cell it is looked for in, and a thread inside a call can always go on |
| `ExplicitDelivery.ReadsOwnElement` | include/data_proxy/concurrentqueue.h:2248-2338 | what a consumer reads is in a claim of its own call, read by no other consumer and not read before, and has the value that was enqueued at its index, across block reuse |
| `ExplicitDelivery.DeliversWhatWasEnqueued` | include/data_proxy/concurrentqueue.h:1955-2338 | what has been delivered at an index is what was enqueued there, and once every call has returned exactly the elements claimed have been delivered, each once |
| `Delivery.ReadKeepsDelivery` | include/data_proxy/concurrentqueue.h:2560-2600 | reading the next element of a claim delivers an index for the first time, and keeps every claimed element either delivered or with exactly one consumer to read |
| `Delivery.SpansAreApart` | include/data_proxy/concurrentqueue.h:2261-2269 | what different threads have left of their claims is disjoint |
| `ExplicitLimit.LimitKeptIff` | include/data_proxy/concurrentqueue.h:1857-1880 | from any start, a sub-queue keeps below half the index range and within the limit in every state if and only if each block that is used again would have passed the check that only new blocks have to pass |
| `ExplicitLimit.OverLimit` | include/data_proxy/concurrentqueue.h:1857-1868 | for every limit: a run in which a stalled consumer's block is used again later and the sub-queue passes the limit |
| `ExplicitLimit.FillsReused` | include/data_proxy/concurrentqueue.h:1857-1939 | a block that is used again can be filled before any consumer moves |
| `ProducerHash.TablesStayUnderThreeQuarters` | include/data_proxy/concurrentqueue.h:3404-3533 | every chained table stays empty or under three-quarters full, through lazy re-adds, concurrent growth and failed allocations |
| `ProducerHash.DrawKeepsLoad` | include/data_proxy/concurrentqueue.h:3442-3444 | for every L fewer than L threads are in flight or inserted with a `newCount` below L: drawing a ticket keeps this |
| `ProducerHash.ReturnKeepsLoad` | include/data_proxy/concurrentqueue.h:3462-3466 | and so does handing one back after a failed allocation |
| `ProducerHash.ProbesEnd` | include/data_proxy/concurrentqueue.h:3404-3435 | no probe loop ever goes round its table, whichever table a thread has as its main one |
| `ProducerHash.SameProducerEveryTime` | include/data_proxy/concurrentqueue.h:3388-3440 | every later lookup of a thread returns the producer that its first one did |
| `ProducerHash.ProducersAreOwn` | include/data_proxy/concurrentqueue.h:3388-3533 | two threads never get the same producer |
| `ProducerHashCalls.NoneOnlyIfOutOfMemory` | include/data_proxy/concurrentqueue.h:3387-3533 | in any run a call returns no producer only if, since it began, an allocation of its own has failed |
| `ProducerHashCalls.AloneItSucceeds` | include/data_proxy/concurrentqueue.h:3388-3533 | from every reachable state in which no other thread is resizing a call that has not failed, left alone with memory there when it asks, returns a producer |
| `ProducerHashCalls.LoneCallSucceeds` | include/data_proxy/concurrentqueue.h:3388-3533 | so a whole call that nothing runs beside returns a producer, if memory is there |
| `Semaphore.TokensConserved` | include/data_proxy/lightweightsemaphore.h:278-348 | initial plus signalled permits minus those handed out is what is free in the count, in the kernel and on its way there; never more is handed out than was put in, in any mix of calls and timeouts |
| `Semaphore.WaitersAreCounted` | include/data_proxy/lightweightsemaphore.h:289-311 | the threads past the `fetch_sub` number exactly max(-count, 0) plus kernel tokens plus unposted releases |
| `Semaphore.SleepsOnlyWhenNoneIsFree` | include/data_proxy/lightweightsemaphore.h:289-311 | a thread that stays asleep has no permit to wait for: every one has been handed out |
| `Semaphore.TimedOutIsServed` | include/data_proxy/lightweightsemaphore.h:330-343 | a timed-out thread in the re-adjust loop can take its decrement back or has a token reserved for it |
| `Semaphore.ResultsAreInRange` | include/data_proxy/lightweightsemaphore.h:379-418 | a call returns at most its maximum; without a timeout it returns at least one if and only if its maximum is above zero |
| `Semaphore.WaitForNoneGetsNone` | include/data_proxy/lightweightsemaphore.h:402-407 | a run in which an untimed wait for at most zero permits returns zero, which the source asserts cannot be |
| `Semaphore.ReleasesFitThreads` | include/data_proxy/lightweightsemaphore.h:409-418 | the number of releases that `signal` casts to `int` is at most the number of threads |
| `SemaphoreCalls.ExchangeIsGreedy` | include/data_proxy/lightweightsemaphore.h:313-325 | in any interleaving a successful compare-exchange lowers the count by exactly the smaller of what is there and what the call still wants, and ends the call with that and what it had |
| `SemaphoreCalls.ShortResultMeansNone` | include/data_proxy/lightweightsemaphore.h:378-391 | a call that ends with fewer permits than it asked for leaves the count at zero or below |
| `SemaphoreCalls.NothingOnlyIfNone` | include/data_proxy/lightweightsemaphore.h:379-400 | a try returns none only if its last load of the count found none or it asked for none; a wait only if it asked for none or has timed out and taken its decrement back |
| `SemaphoreCalls.LoneCallGetsAll` | include/data_proxy/lightweightsemaphore.h:379-400 | with no other thread stepping, a try, and a wait that finds the count above zero, gets the smaller of its maximum and the count, and lowers the count by that |
| `SemaphoreCalls.TokenServes` | include/data_proxy/lightweightsemaphore.h:326-351 | a sleeping thread, or a timed-out one with the count not below zero, that finds a token goes on to that permit and what else is there, up to its maximum |
| `SemaphoreCalls.TimedOutGivesUp` | include/data_proxy/lightweightsemaphore.h:330-343 | a timed-out thread with the count below zero takes its decrement back and gets none |
| `SemaphoreCalls.SignalServes` | include/data_proxy/lightweightsemaphore.h:409-418 | a signal of k permits raises the count by k and posts a token for each of up to k waiting threads |
| `SemaphoreCalls.AloneRests` | include/data_proxy/lightweightsemaphore.h:284-418 | from every reachable state a thread that is left alone comes to the end of its call or signal, or waits for a token that is not there |
| `BlockingQueue.ReservedElements` | include/data_proxy/blockingconcurrentqueue.h:123-202 | the elements in the inner queue are exactly the free permits plus enqueued but unsignalled items plus permits acquired and not yet turned into a dequeue; and what was delivered and what is inside are together, each once, what was enqueued |
| `BlockingQueue.SpinnersAreServed` | include/data_proxy/blockingconcurrentqueue.h:294-335 | the inner queue holds what all threads in retry loops together still want, so each of them, alone or beside others, has its own share reserved |
| `BlockingQueue.SpinnerCanFinish` | include/data_proxy/blockingconcurrentqueue.h:294-335 | a thread in a retry loop can get all it still wants from the inner queue at once, and return |
| `BlockingQueue.GrantIsExact` | include/data_proxy/blockingconcurrentqueue.h:447-473 | a bulk wait returns exactly as many elements as the semaphore granted it for the call its caller made, which is at most the maximum asked for, and without a timeout at least one if and only if any was asked for |
| `BlockingQueue.SizeApproxWhenStable` | include/data_proxy/blockingconcurrentqueue.h:538-541 | with no call in progress `size_approx` is the size |
| `CoExecutor.CoExecutor.ResumeCoroutine` | include/data_proxy/messagebus.h:58-69 | queues the handle and, if the count of waiting threads is above zero, wakes one sleeping worker if there is one; keeps the law that no queued handle is left to sleepers |
| `CoExecutor.CoExecutor.Leave` | include/data_proxy/messagebus.h:79-88 | a worker that leaves the wait takes a handle of the highest queued priority, or returns after stop; every handle pushed is still queued or was resumed once |
| `CoExecutor.CoExecutor.NothingStranded` | include/data_proxy/messagebus.h:58-91 | before stop, with fewer than 65536 workers, if a worker sleeps the queued handles number at most the notified workers, and one is on its way |
| `CoExecutor.PushKeepsLaw` | include/data_proxy/messagebus.h:63-67 | notifying only when the 16-bit count is above zero keeps that law |
| `CoExecutor.StrandedByWrap` | include/data_proxy/messagebus.h:95 | for every number of workers from 65536 on: with 65536 asleep the count reads zero, and a pushed handle wakes nobody and has no notified worker to take it |
| `CoExecutor.CoExecutor.TestIsRight` | include/data_proxy/messagebus.h:64-67 | with fewer than 65536 workers `wait_thread_num > 0` holds exactly if some worker is waiting |
| `CoExecutor.CountTellsIffFits` | include/data_proxy/messagebus.h:64-67 | the arithmetic behind this and behind `StrandedByWrap`: a 16-bit count tells zero from every number up to n if and only if n is below 65536 |
| `CoExecutor.CoExecutor.StoppedForGood` | include/data_proxy/messagebus.h:36-43 | once stop has notified everybody no worker sleeps again |
| `MessageBus.MessageBus.SharedTurn` | include/data_proxy/messagebus.h:458-476 | the message goes to the awaiter whose turn it is exactly if a coroutine is suspended on it, and then to that coroutine and no other; after the last awaiter it goes to the back of their common queue; nothing else changes, and each message dispatched stays in one place |
| `MessageBus.MessageBus.NormalTurn` | include/data_proxy/messagebus.h:477-489 | the message goes to the back of the queue of the normal awaiter whose turn it is, if it has been suspended before; a coroutine suspended on it is queued for resumption; no other awaiter and no other coroutine is touched |
| `MessageBus.MessageBus.NormalTurns` | include/data_proxy/messagebus.h:477-489 | the whole loop: every normal awaiter that has been suspended before has the message at the back of its queue, every coroutine suspended on one of them is queued for resumption, and no other is |
| `MessageBus.MessageBus.SuspendedIsUnsent` | include/data_proxy/messagebus.h:203-212 | a coroutine still suspended on a normal awaiter has been sent nothing since it was suspended: what is in the queue came before |
| `MessageBus.MessageBus.ResumeCoroutine` | include/data_proxy/messagebus.h:131-151 | a resumed coroutine gets the message handed over, or the first of its own queue; what a normal awaiter has received, followed by its queue, is what was dispatched since its first suspension |
| `MessageBus.MessageBus.CreateShared` | include/data_proxy/messagebus.h:347-356 | awaiters of one name share one queue, whose contents creation does not change |
| `MessageBus.MessageBus.ReadyShared` | include/data_proxy/messagebus.h:113-125 | a coroutine that is ready takes the first message of the common queue, and receives it if and only if it has been suspended on this awaiter before; otherwise the message is lost. With an empty queue nothing happens |
| `MessageBus.MessageBus.DeliveredOnce` | include/data_proxy/messagebus.h:110-151 | as long as no await was unsafe, the messages dispatched to shared awaiters split exactly once into received, handed over and left in the common queue |
| `MessageBus.LostAtFirstAwait` | include/data_proxy/messagebus.h:113-125 | a message that comes before a coroutine's first suspension is taken by its first co_await and lost |
| `MessageBus.MessageBus.NormalIsSafe` | include/data_proxy/messagebus.h:202-206 | a normal awaiter without a handle is sent nothing, so its await never goes through a null handle with a message |
| `MessageBus.MessageBus.SpinFinds` | include/data_proxy/messagebus.h:185-197 | the loop in a normal awaiter's `await_resume` finds a message at its first turn |
| `MessageBus.MessageBus.OneMessageEach` | include/data_proxy/messagebus.h:134-147 | no coroutine is ever handed two messages |
| `MessageBus.HandOverKeeps` | include/data_proxy/messagebus.h:134-147 | a message is handed over only to an awaiter that holds none, and to the coroutine suspended on it |

## Left out

- Weak memory orders and fences: every atomic operation is sequentially consistent.
- Throwing constructors and assignments, alignment, placement new, custom malloc: elements are values that move without fail.
- The explicit producer's `enqueue_bulk` and destructor; after an index doubling that follows block reuse its fallback front is set to a count of slots, so the old window is not restored.
- Fields updated in place are the classes' business and interleaving that of the state machines, which are values: the two are connected by the claims and lookups (`ImplicitConsumers`, `ExplicitConsumers`), not by running the classes concurrently.
- In the lookup machines taking a block from the free list, and putting blocks back, is one step; `FreeList` has its steps.
- Queue-level rotation over producers, tokens, move and swap, memory statistics, debug and Relacy branches.
- Thread-exit notification and the tombstones it leaves in the producer hash.
- The platform semaphores: the kernel count is an integer, and an untimed kernel wait returns only with a token.
- Timed waits measure no time: a timeout may come at any moment.
- Progress beside others: a call is shown to end when it is left alone (`FreeListCalls.AloneReturns`, `DequeueCalls.AloneReturns`, `ProducerHashCalls.AloneItSucceeds`, `SemaphoreCalls.AloneRests`), not under every scheduler.
- Liveness of the message bus: `run` is notified without its mutex, and a coroutine stays suspended over a message that came between its `await_ready` and its `await_suspend` (`MessageBus.MessageBus.SuspendedIsUnsent` says that no other can lie there).
- Removing awaiters, temporary awaiters, and more than one name or dispatcher.
- What the program does after it has gone through a null handle: the model goes on with the message counted as lost.
- Timers, MQTT, ROS2, protobuf output, logging and the demo logic.
- ExplicitProducer.ExplicitProducer.Enqueue: asks for fewer than 2^63 - 1 elements in the sub-queue, because with 2^63 of them the guard of a dequeue answers that there is nothing (`Wraparound.CircularLessIsLess`).
- ExplicitRuns.StableLookup: assumes that memory for an index of more than half the index range cannot be had, because a stalled consumer can keep the circle growing.
- ImplicitLookup.GrowKeepsIndex: assumes the same of the implicit index, because a stalled consumer can keep the window open beyond the leeway.
- WrappedCounters.WrappedRun: assumes that the counters a consumer compares are less than half the index range apart, as stale snapshots need.
- Wraparound.Fill: takes the blocks as numbers; `ImplicitProducer.ImplicitProducer.EnqueueBulk` is the same loop over blocks.
