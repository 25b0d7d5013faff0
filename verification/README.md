# What is proved about the simulator

This project models the parts of the simulator whose correctness rests on an argument rather than on
reading one function, and proves what they are for. Everything is stated for all inputs, all runs and all
interleavings.

**The lock-free queue** (`include/concurrentqueue.hpp`) holds the simulator's run queue. Four of its
protocols are step systems: one atomic access is one step, a thread keeps its local variables in its
program counter, and any number of threads interleave.

- `FreeList.dfy`: the list of free blocks with its reference counts and its should-be-on-list bit.
- `DequeueCounters.dfy` and `DequeueRuns.dfy`: how consumers decide, from stale counters, which elements
  are theirs.
- `BlockIndex.dfy`: the ring of index entries of an implicit producer, reused, taken back and doubled.
  `ImplicitQueue.dfy`, `QueueSteps.dfy` and `QueueRuns.dfy`: on top of it the implicit producer with its
  blocks of elements and its consumers, which refines a first-in first-out queue.
- `WholeQueue.dfy`: counters and implicit producer together; what a consumer wins by the counters is always
  there to be claimed. `PooledQueue.dfy`: the free list as well; what it hands out is always a block the pool
  has, and what a consumer gives back is always one it may give back.
- `ProducerHash.dfy` and `HashRuns.dfy`: the chain of hash tables from threads to their producers.

**TinyCoin** (`protocols/tinycoin.hpp`). `TinyChain.dfy` has the block tree, reorganisations and orphan
parking as functions on values; `TinyNode.dfy` has the miner as a class whose methods are proved against
them; `Gossip.dfy` has the network. `Selfish.dfy` is the selfish-mining coordinator of
`examples/tinycoin/selfish.hpp`, a class around a miner.

**The cuckoo set** (`include/cuckoo.hpp`): `Cuckoo.dfy` has hashing and tables as values, `CuckooSet.dfy`
the class over its raw table, with `insert` and `rehash` calling each other, and the iterator.
`GraphManager.dfy` builds the adjacency sets of `include/graph_hwm.hpp` on it.

**The scheduler** (`include/hardware_manager.hpp`, `include/node.hpp`): `Mailbox.dfy` has the two message
queues of a node as a class, `Scheduler.dfy` the interplay of senders, mailboxes, run queue and workers.

**Chord routing** (`protocols/chord.hpp`) is in `Chord.dfy`; **random graphs** (`include/rng.hpp`,
`include/graph_gen.hpp`) are in `Rng.dfy` and `GraphGen.dfy`, and `Networks.dfy` shows that the networks
built from them meet the hypothesis of gossip convergence. `Sums.dfy`, `Arith.dfy` and `FiniteSets.dfy`
hold the little mathematics shared by these.

`dafny verify dfyconfig.toml` checks the whole project.

What is taken for granted of the rest of the program: block ids are unique, not zero, not a sentinel, and
above their parent's; node ids of a Chord ring are below its size; a free-list block is added only by the
thread that owns it; there are fewer than 2^31 threads; an index of 2^60 entries cannot be allocated.

In the step systems, components of the state that exist only for the proof (a log of what was enqueued,
the fate of a reservation, the place of a node) are marked as such; no step depends on them.

## Findings

Where a property that the documentation or a comment suggests does not hold of the code, the model keeps
the code and the exact condition is proved.

- Chord (`protocols/chord.hpp:35-41`): a node that has no other node on the far half of the ring chooses
  itself as first finger, `send_message` throws, and the message is lost. All messages arrive if and only
  if the ring has one node or every node sees another one on its far half (`Chord.Ring.AllArriveIff`,
  with a ring of two nodes in `Chord.LopsidedRingLosesMessages`). The loop of `start_message`
  (`protocols/chord.hpp:49-51`) draws forever if and only if the node owns every key, which is to say that the
  ring has one node (`Chord.Ring.OwnsAllIff`).
- Distinct sampling (`include/rng.hpp:43-54`): when the request does not leave room, the answer is the whole
  range, the excluded numbers with it, and it may be longer than asked for; the comment at line 44 holds
  exactly under the conditions of `Rng.WholeRangeKeepsPromiseIff`. `Rng.RangeWithExcluded` is an input: one
  number of 0 and 1, but not 0, gives both. When the request does leave room, the last number of the range is
  never drawn, and no excluded number can be, if and only if no exclusion comes after a larger one that stops the
  shift short of it (`Rng.NeverExcludedIff`), for which it is enough that they are sorted. With the exclusions
  5 and 0, in that order, the draw 0 gives 0 (`Rng.UnsortedExclusionIsDrawn`).
- Erdos graphs (`include/graph_gen.hpp:9-30`) are simple with exactly max(M, N-1) edges if and only if N is at
  least 2 and that is less than N(N-1)/2, or N is 1 and M not positive, or both are 0
  (`GraphGen.GenConnErdos`). With two nodes and one edge, the edge comes twice (`GraphGen.EdgeTwice`); with one
  node there is no edge, whatever M says.
- Scale-free graphs (`include/graph_gen.hpp:39-55`) of at least two nodes are connected if and only if K is not 0
  or N is 2 (`Networks.ScaleFreeNetwork`); with K = 0 there is the edge between nodes 0 and 1 alone. For fewer
  nodes that edge is there as well, and `add_edge` (`include/graph_hwm.hpp:63`) refuses it.
- The kick-out loop of the cuckoo set (`include/cuckoo.hpp:46-68`) runs only on a full pair of buckets, and
  the two buckets of a key always form an isolated pair, so its branch for a free slot is dead and a rehash
  always follows (`CuckooSet.HashSet.KickOuts`).
- The selfish coordinator (`examples/tinycoin/selfish.hpp:29-33`) restarts its private chain at the node's
  head before it sends the blocks it won with. The next private block is mined on a block that is already
  overtaken if and only if the private tip was longer than that head (`Selfish.Coordinator.Flush`), which it
  is whenever the coordinator wins a race (`Selfish.Coordinator.OthersBlock`, `Selfish.Coordinator.OurBlock`).
  `Selfish.WinnerMinesOnStaleHead` is an input: the first two blocks of a simulation, both a member's. Until
  the first `clear_chain`, the reckoning of the private chain is one short, because `starting_height` starts
  at 0 while the genesis block has length 1 (`Selfish.PrivateTipHeight`).
- A reorganisation can leave a transaction both confirmed and pending (`protocols/tinycoin.hpp:118-128`), so that it
  may be mined again: a transaction on the new path is pending afterwards if and only if the last block of the
  walk that has it was unconfirmed, or no block of the walk has it and it was pending before
  (`TinyChain.ReorganisedPending`). `TinyChain.ConfirmedYetPending` is an input, with the transaction in a block
  of either branch of a fork.
- In the lookup at `include/concurrentqueue.hpp:2871` the division is unsigned, because `BLOCK_SIZE` is, while
  the comment above it expects a signed one. The model divides as the code does. For a capacity that is a
  power of two up to 2^59 the mask makes the same position of both quotients (`BlockIndex.UnsignedQuotient`),
  and every index of every run has such a capacity (`QueueRuns.CapacitiesArePowers`).

## Model

| member | source | states |
|---|---|---|
| FreeList.NoDoubleHandOut | include/concurrentqueue.hpp:1377-1456 | in every interleaving, between two hand-outs of the same block there is an `add` of it |
| FreeList.TakenOnlyAfterAdded | include/concurrentqueue.hpp:1391-1428 | `try_get` hands out only blocks that were added before |
| FreeList.TakenNodeIsUnflagged | include/concurrentqueue.hpp:1408-1411 | the assertion after the head swing: the should-be-on-list bit of the block taken is clear |
| FreeList.LinkStableWhileHeld | include/concurrentqueue.hpp:1405-1407 | no step rewrites the link of a block on which some thread holds a counted reference |
| FreeList.HeadSwingIsFresh | include/concurrentqueue.hpp:1405-1408 | the compare-exchange that takes a block installs the block's present link |
| FreeList.EveryNodeInOnePlace | include/concurrentqueue.hpp:1377-1456 | conservation: each block is owned, linked once, in one thread's hands, or flagged with a reference holder obliged to push it; the list is acyclic |
| FreeList.LastHolderPushes | include/concurrentqueue.hpp:1421-1424 | who gives back a reference goes on to push the block exactly when it was flagged and the last reference |
| FreeList.QuiescentList | include/concurrentqueue.hpp:1377-1456 | with no thread in an operation the list holds exactly the blocks added and not taken, once each |
| FreeList.MissMeansEmpty | include/concurrentqueue.hpp:1391-1428 | in every interleaving, if `try_get` comes back with nothing, the list was empty at some time during the call |
| FreeList.SoloGetAndAdd | include/concurrentqueue.hpp:1377-1456 | with nobody else in an operation, `try_get` hands out the first block of a list that is not empty in seven accesses, and `add` puts a block in front in five |
| FreeList.RunInv | include/concurrentqueue.hpp:1377-1456 | the reference counts, bits, links and program counters agree in every reachable state |
| FreeList.StepKeepsInv | include/concurrentqueue.hpp:1377-1456 | each single atomic access keeps that agreement |
| FreeList.StepPushCas | include/concurrentqueue.hpp:1444-1448 | a successful push makes the block the head of the acyclic list |
| FreeList.StepPushUndo | include/concurrentqueue.hpp:1448-1453 | after a failed push the block is left to the next thread that brings its count to zero, or tried again |
| FreeList.StepGetCas | include/concurrentqueue.hpp:1407-1414 | after a head swing the list is what followed the block, and nothing else moved |
| FreeList.StepGetDec | include/concurrentqueue.hpp:1421-1424 | giving up a reference hands a flagged block over to its last holder |
| DequeueRuns.HeadNeverPassesTail | include/concurrentqueue.hpp:2476-2545 | `headIndex` stays at most `tailIndex`, even counting the claims still under way |
| DequeueRuns.EveryIndexToExactlyOneConsumer | include/concurrentqueue.hpp:2698-2720 | every index below the head went to exactly one consumer, single or bulk, and was published before |
| DequeueRuns.ClaimAlreadyPublished | include/concurrentqueue.hpp:2718-2720 | the indices a consumer obtains are below the tail when it obtains them |
| DequeueRuns.ClaimsTile | include/concurrentqueue.hpp:2488-2488 | the claims of a run lie end to end from 0 to the head |
| DequeueRuns.OvercommitAtMostRank | include/concurrentqueue.hpp:2484-2485 | the assertion after the fetch_add: a stale overcommit never exceeds the rank returned |
| DequeueRuns.CountersSettle | include/concurrentqueue.hpp:2479-2541 | with no consumer in flight, optimistic count minus overcommit is the head |
| DequeueRuns.SoloDequeue | include/concurrentqueue.hpp:2476-2545 | a consumer that runs alone gets as many elements as it asked for and there are, and never reports a non-empty sub-queue empty |
| DequeueRuns.LosesOnlyToOthers | include/concurrentqueue.hpp:2484-2543 | with any number of consumers in flight, a reservation wins as many as it asked for, or as are left that nobody won, less what others reserved before it or are giving back |
| DequeueRuns.AsksForWhatIsThere | include/concurrentqueue.hpp:2479-2483 | a consumer reserves as many as it may, or as there were beyond that, and gives up at once only if there was nothing beyond it |
| DequeueCounters.WinsFitBelowTail | include/concurrentqueue.hpp:2486-2488 | the successes counted up to the highest successful rank fit below the tail |
| DequeueCounters.DecideKeepsWonBelowTail | include/concurrentqueue.hpp:2711-2716 | deciding a reservation from stale values wins only ranks with fewer wins before them than published elements |
| DequeueCounters.StepKeepsSums | include/concurrentqueue.hpp:2479-2541 | each access conserves: ranks won are head plus wins under way, ranks lost are overcommit plus losses under way |
| DequeueRuns.RunInv | include/concurrentqueue.hpp:2476-2545 | every reachable state has a history of reservation fates that explains its counters |
| BlockIndex.Rings.OffsetFinds | include/concurrentqueue.hpp:2869-2872 | counting from the tail by the difference of block numbers arrives at the position of the block, also backwards around the ring |
| BlockIndex.Rings.GrownPos | include/concurrentqueue.hpp:2893-2912 | in the doubled ring the listed blocks lie from position 0 in order, the tail before the first new entry |
| BlockIndex.Rings.GrownOldHalf | include/concurrentqueue.hpp:2896-2900 | a position in the old half of the doubled ring has the entry of the same blocks as in the old ring |
| BlockIndex.Rings.GrownKeepsInv | include/concurrentqueue.hpp:2877-2919 | doubling keeps entries distinct, every block's entry in place, and all older headers in agreement |
| BlockIndex.Index.ReusableIsVacant | include/concurrentqueue.hpp:2825-2826 | an entry in line that has the invalid key or a null value belongs to no block still in use |
| BlockIndex.Index.KeyInTheWay | include/concurrentqueue.hpp:2823-2826 | a key in the entry in line is that of the block one round earlier, or one's own from an insertion taken back |
| BlockIndex.Index.SetKeyKeepsInv | include/concurrentqueue.hpp:2828-2828 | storing the key in a vacant entry keeps every block findable by every header |
| BlockIndex.Index.MoveTailKeepsInv | include/concurrentqueue.hpp:2829-2829 | so does moving the tail to it |
| BlockIndex.Index.RewindKeepsInv | include/concurrentqueue.hpp:2846-2850 | so does taking the insertion back after a failed allocation |
| BlockIndex.Index.RewindUndoes | include/concurrentqueue.hpp:2846-2850 | taking back leaves the tail exactly where it was |
| BlockIndex.Index.TakeBackKeepsInv | include/concurrentqueue.hpp:2435-2437 | and nulling the entry makes it reusable for the next attempt |
| BlockIndex.Index.HoldKeepsInv | include/concurrentqueue.hpp:2458-2458 | storing the block makes the new block findable and no other unfindable |
| BlockIndex.Index.ClearKeepsInv | include/concurrentqueue.hpp:2531-2531 | a consumer's null store releases exactly the entry of the emptied block, in whatever order blocks empty |
| BlockIndex.Index.GrowKeepsInv | include/concurrentqueue.hpp:2837-2840 | after doubling the entry in line has the invalid key, as asserted, and every block keeps its entry |
| BlockIndex.Index.TailHasKey | include/concurrentqueue.hpp:2866-2868 | once a block was inserted, the tail of every header, old or current, has a valid key, as asserted |
| BlockIndex.Index.LookupPosition | include/concurrentqueue.hpp:2864-2872 | the key read at a tail, however stale, leads by the unsigned division to the position of the block looked for |
| BlockIndex.Index.LookupEntry | include/concurrentqueue.hpp:2873-2873 | there the key is the base index and the value the block, as asserted |
| BlockIndex.UnsignedQuotient | include/concurrentqueue.hpp:2869-2872 | the unsigned quotient of a difference of base indices, masked, is the position that the signed one leads to, for capacities that are powers of two |
| BlockIndex.InitialInv | include/concurrentqueue.hpp:2348-2354 | the first index satisfies the invariant |
| QueueRuns.RefinesFifo | include/concurrentqueue.hpp:2411-2545 | in every interleaving of one producer and any number of consumers the log of the queue is what was enqueued, in order, each value comes out for the index it went in at, and at rest exactly the first values in are out |
| QueueRuns.LogIsWhatWasEnqueued | include/concurrentqueue.hpp:2411-2472 | in every run the values logged are those of the calls of `enqueue` that stored the tail, in order; every other call begun failed for lack of memory, but for the one under way |
| QueueRuns.OperationsEnd | include/concurrentqueue.hpp:2411-2545 | every call ends after at most eleven accesses of its own, and an `enqueue` that gets the memory it asks for ends with its store of the tail |
| QueueRuns.EmptiedBlocksAreReleased | include/concurrentqueue.hpp:2525-2534 | in every run a block all of whose elements were counted as dequeued is out of the index, but for the time its last consumer needs |
| QueueRuns.RunsWithoutFault | include/concurrentqueue.hpp:2411-2919 | no assertion of lines 1526, 2419, 2840, 2868 and 2873 fails, no access leaves an array, no missing element is read, no block is freed twice |
| QueueRuns.TakesWhatWasEnqueued | include/concurrentqueue.hpp:2493-2523 | the element a consumer moves out is the value of the call of `enqueue` that stored that index, and nobody took it before |
| QueueRuns.LookupFindsBlock | include/concurrentqueue.hpp:2852-2875 | while a block is not emptied, the tail-relative lookup finds its entry, its base and the block with its elements, also by a stale header |
| QueueRuns.CapacitiesArePowers | include/concurrentqueue.hpp:2877-2917 | every index of every run has a power of two of entries |
| QueueRuns.TailsAreSeen | include/concurrentqueue.hpp:2865-2868 | every tail can be counted from once a block was inserted |
| QueueRuns.NoBlockIsLost | include/concurrentqueue.hpp:2412-2541 | at rest every block is free or holds the elements of exactly one block number, not all of them dequeued |
| QueueSteps.StepKeepsInv | include/concurrentqueue.hpp:2411-2919 | each atomic access keeps index, blocks, counters, producer and consumers in agreement |
| QueueRuns.RunInv | include/concurrentqueue.hpp:2411-2919 | hence every reachable state is in agreement |
| QueueSteps.GrowingKeepsInv | include/concurrentqueue.hpp:2834-2840 | a producer that doubles the index under running consumers goes on with an unused entry |
| QueueSteps.EmptyingKeepsInv | include/concurrentqueue.hpp:1515-1528 | counting an element as dequeued never passes the block size, and only one consumer sees the block become empty |
| QueueSteps.NullingKeepsInv | include/concurrentqueue.hpp:2525-2533 | taking an emptied block out of the index disturbs no other consumer and no insertion |
| WholeQueue.EveryWinIsAClaim | include/concurrentqueue.hpp:2476-2495 | with counters and producer interleaved, a consumer that wins by the counters always finds an element left, at the index its fetch_add returns |
| WholeQueue.RunAgrees | include/concurrentqueue.hpp:2476-2545 | counters and producer agree on head and tail in every run |
| WholeQueue.WholeIsFifo | include/concurrentqueue.hpp:2411-2545 | counters and producer together are a first-in first-out queue of what was enqueued |
| WholeQueue.LogIsWhatWasEnqueued | include/concurrentqueue.hpp:2411-2472 | the log is what the calls of `enqueue` among the steps of the whole brought in |
| PooledQueue.NoStepIsLeftUndone | include/concurrentqueue.hpp:3002-3018 | with free list, counters and producer interleaved access by access, whatever one of them does next the others are ready for |
| PooledQueue.HandOutIsFree | include/concurrentqueue.hpp:1391-1428 | in every run `try_get` comes back to the producer that asked, with a block the pool has |
| PooledQueue.GivenBackIsOwned | include/concurrentqueue.hpp:2525-2534 | in every run a consumer that emptied a block may add it to the list: it is nobody else's, and the pool has it from then on |
| PooledQueue.RunAgrees | include/concurrentqueue.hpp:1377-1456 | in every run the list has out exactly the blocks the pool has not; consumers are only inside `add`, the producer only inside `try_get` |
| PooledQueue.PooledIsFifo | include/concurrentqueue.hpp:2411-2545 | all three together are a first-in first-out queue of what was enqueued |
| PooledQueue.LogIsWhatWasEnqueued | include/concurrentqueue.hpp:2411-2472 | the log is what the calls of `enqueue` among the steps of all three brought in |
| PooledQueue.EveryBlockInOnePlace | include/concurrentqueue.hpp:1377-1456 | at rest every block is linked in the list once, or holds the elements of exactly one block number, not all of them dequeued |
| HashRuns.ProducersArePerThread | include/concurrentqueue.hpp:3295-3443 | a thread always gets the producer it first got, and two threads never the same |
| HashRuns.EveryCallReturns | include/concurrentqueue.hpp:3295-3443 | in every run a call ends by returning a producer, and then the table that was current when it began, or a newer one, has it under the id of the thread |
| HashRuns.SoloCallReturns | include/concurrentqueue.hpp:3295-3443 | a thread that runs alone comes back from its call, unless another was stopped while it held the resize flag |
| HashRuns.TablesAddedWhenHalfFull | include/concurrentqueue.hpp:3359-3392 | a table is added only for a ticket of at least half the capacity, and is the least doubling with that ticket below its half |
| HashRuns.EveryTableKeepsAFreeSlot | include/concurrentqueue.hpp:3359-3400 | in every reachable state every table of the chain has a free slot |
| HashRuns.SearchesTerminate | include/concurrentqueue.hpp:3315-3356 | every probe and lazy-copy loop ends, whatever the other threads do |
| ProducerHash.FreeSlot | include/concurrentqueue.hpp:3359-3400 | unique tickets below three quarters of the capacity leave a slot free |
| ProducerHash.ProbeInBounds | include/concurrentqueue.hpp:3315-3356 | a probe never passes as many slots as the table has |
| ProducerHash.MissIsAbsent | include/concurrentqueue.hpp:3350-3356 | a probe that meets a free slot shows that the id is not in the table |
| ProducerHash.InsertKeepsKeys | include/concurrentqueue.hpp:3417-3434 | an insertion by compare-exchange keeps every other key findable |
| ProducerHash.Pigeonhole | include/concurrentqueue.hpp:3359-3400 | distinct positive tickets below n are fewer than n |
| ProducerHash.StepKeepsInv | include/concurrentqueue.hpp:3295-3443 | each atomic access keeps tables, tickets and program counters in agreement; only a thread without a producer gets one |
| HashRuns.RunInv | include/concurrentqueue.hpp:3295-3443 | every reachable state is in agreement, and what was returned is still owned |
| TinyChain.WalkIsExact | protocols/tinycoin.hpp:118-128 | `update_head` confirms exactly the blocks of the new path only and unconfirms exactly those of the old path only |
| TinyChain.WalkHasNoRepeats | protocols/tinycoin.hpp:118-128 | and none of them twice |
| TinyChain.ReorganisedIsPostedWalk | protocols/tinycoin.hpp:118-128 | the two loops have the effect of that walk |
| TinyChain.ReorganisedBalance | protocols/tinycoin.hpp:101-128 | a reorganisation moves the balance by the difference of the two paths |
| TinyChain.ReorganisedLosesNothing | protocols/tinycoin.hpp:305-320 | a transaction pending or on the old path is afterwards pending or on the new path |
| TinyChain.ReorganisedPending | protocols/tinycoin.hpp:305-320 | afterwards exactly those transactions are pending of which the last block on the walk was unconfirmed, and those pending before that are in no block of it |
| TinyChain.ConfirmedYetPending | protocols/tinycoin.hpp:118-128 | a fork with a transaction in a block of either branch: it ends up confirmed and pending |
| TinyChain.HeadGrowsByOne | protocols/tinycoin.hpp:160-161 | a head change makes the chain longer by exactly one, and only the block at hand becomes head |
| TinyChain.AttachInOrder | protocols/tinycoin.hpp:149-162 | the critical section in the order of the code has the stated outcome |
| TinyChain.AttachIsSound | protocols/tinycoin.hpp:149-161 | attaching keeps the tree over genesis, the lengths and the maximality of the head |
| TinyChain.ParkIsSound | protocols/tinycoin.hpp:153-159 | so does parking |
| TinyChain.CriticalKeepsBalance | protocols/tinycoin.hpp:134-163 | the balance stays the credit plus the worth of the path from genesis to head, block by block as BlockValueByTransactions says |
| TinyChain.BlockValueByTransactions | protocols/tinycoin.hpp:88-96 | an empty block is worth the block reward to its miner, and each transaction adds the transaction reward for the miner and the amount for its destination |
| TinyChain.BlockWorthIsConserved | protocols/tinycoin.hpp:88-96 | to all nodes together a block is worth one block reward, one transaction reward for each transaction, and the amounts |
| TinyChain.OthersGetAmounts | protocols/tinycoin.hpp:88-96 | a node that did not mine a block gets exactly the amounts addressed to it |
| TinyChain.CriticalPending | protocols/tinycoin.hpp:134-163 | what is pending changes only with the head, and then as the last block on the walk that has the transaction says |
| TinyChain.CriticalLosesNothing | protocols/tinycoin.hpp:134-163 | every transaction seen is pending or in a block of that path |
| TinyChain.CriticalKeepsAccounts | protocols/tinycoin.hpp:134-166 | parked blocks wait under unattached parents, received ones are attached, parked or still to be passed on; to forward is exactly what was new |
| TinyChain.AttachedIffAncestryReceived | protocols/tinycoin.hpp:134-167 | once all children are handled, attached are exactly the blocks received with their whole ancestry, at their depth |
| TinyChain.OthersAreParked | protocols/tinycoin.hpp:153-159 | every other received block is parked under its unattached parent |
| TinyChain.OrderDoesNotMatter | protocols/tinycoin.hpp:134-167 | two nodes that received the same blocks in any order agree on what is attached, at what length, and on the length of the head |
| TinyChain.OnPathMeans | protocols/tinycoin.hpp:118-128 | a transaction is on a path exactly when some block of it contains it |
| TinyChain.CriticalWaiting | protocols/tinycoin.hpp:154-162 | only parking adds a waiting block; attaching takes the children away |
| TinyChain.FreshAccounts | protocols/tinycoin.hpp:56-63 | a new node is in order, genesis at index 0 with length 1 |
| TinyNode.Miner.constructor | protocols/tinycoin.hpp:56-63 | a new miner is in the initial state |
| TinyNode.Miner.ComputeBlockValue | protocols/tinycoin.hpp:88-96 | the loop computes what the block pays to this node, which BlockValueByTransactions and BlockWorthIsConserved determine |
| TinyNode.Miner.ConfirmBlock | protocols/tinycoin.hpp:305-310 | adds the value and takes exactly the block's transactions out of the pending ones |
| TinyNode.Miner.UnconfirmBlock | protocols/tinycoin.hpp:315-320 | the reverse |
| TinyNode.Miner.SwitchHead | protocols/tinycoin.hpp:118-128 | the two loops end at the common ancestor and do what the walk says |
| TinyNode.Miner.CriticalSection | protocols/tinycoin.hpp:134-163 | the part under the lock computes the specified outcome, orphans included |
| TinyNode.Miner.TakeBlock | protocols/tinycoin.hpp:134-163 | and keeps tree, balance, pending transactions and accounts in order |
| TinyNode.Miner.HandleBlock | protocols/tinycoin.hpp:134-167 | with the parked children: terminates, keeps all in order, tells exactly whether the block was new, and moves the head only to a longer chain |
| TinyNode.Miner.HandleTransaction | protocols/tinycoin.hpp:326-334 | a new transaction becomes pending, a known one changes nothing |
| TinyNode.Miner.StartTransaction | protocols/tinycoin.hpp:208-215 | spending lowers balance and credit alike |
| Gossip.EachLinkCrossedOnce | protocols/tinycoin.hpp:185-203 | in every run each block crosses each directed link at most once |
| Gossip.GossipConverges | protocols/tinycoin.hpp:185-203 | once a connected network is at rest, every node has attached every mined block, has no orphan, and has a head of the same length |
| Gossip.GossipTerminates | protocols/tinycoin.hpp:185-203 | a run has at most three deliveries and child steps per mined block and directed link |
| Gossip.NothingIsStuck | protocols/tinycoin.hpp:134-203 | in every run every message in flight can be delivered and every child be handled |
| Gossip.Progress | protocols/tinycoin.hpp:185-203 | a run that is not at rest can go on without mining |
| Gossip.ComesToRest | protocols/tinycoin.hpp:185-203 | every run can be led to rest without more mining, so that the nodes converge |
| Gossip.SendingMeansNew | protocols/tinycoin.hpp:196-203 | a node forwards a block only when it had not had it, and has it from then on |
| Gossip.RunInv | protocols/tinycoin.hpp:134-203 | every node's accounts stay in order in every run, also with workers interleaving on one node |
| Gossip.StepDeliver | protocols/tinycoin.hpp:196-203 | handling a delivered block keeps the network in order |
| Gossip.StepHandleChild | protocols/tinycoin.hpp:164-165 | so does handling a child in a later critical section |
| Gossip.StepMine | protocols/tinycoin.hpp:250-260 | so does mining on the head and sending the block |
| Selfish.Coordinator.constructor | examples/tinycoin/selfish.hpp:7-15 | a new coordinator knows nothing but genesis, and its reckoning is one short |
| Selfish.Coordinator.ClearChain | examples/tinycoin/selfish.hpp:17-23 | restarts the private chain at the node's head |
| Selfish.Coordinator.AddBlock | examples/tinycoin/selfish.hpp:24-28 | appends a block and takes its transactions out of the private pending ones |
| Selfish.Coordinator.TakeAll | examples/tinycoin/selfish.hpp:29-33 | takes out the whole private chain, in order, fit to be sent from an attached block |
| Selfish.Coordinator.Arrive | examples/tinycoin/selfish.hpp:58-67 | a block asks for an answer exactly when it is another miner's, unseen and the new head, and then what was released falls short of the head |
| Selfish.Coordinator.OthersBlock | examples/tinycoin/selfish.hpp:58-87 | gives up, matches, overtakes or leads exactly as the lengths say; `front` never meets an empty chain; after overtaking, the private chain starts on an overtaken block; the private pending transactions restart with the chain and only then |
| Selfish.Coordinator.OurBlock | examples/tinycoin/selfish.hpp:88-102 | the block joins the chain, or all is sent when the race is won, leaving the private head overtaken |
| Selfish.Coordinator.OnMined | examples/tinycoin/selfish.hpp:118-122 | mining on the private head keeps one parent-linked chain |
| Selfish.Coordinator.SendBlock | examples/tinycoin/selfish.hpp:150-156 | the block is attached one above its parent and sent once; the members' callbacks change nothing |
| Selfish.Coordinator.SendAll | examples/tinycoin/selfish.hpp:86-86 | a run of blocks is sent in order; the node's best chain is then the longer one of what it was and the chain sent |
| Selfish.Coordinator.SendEach | examples/tinycoin/selfish.hpp:86-86 | each block is attached on the one before |
| Selfish.Coordinator.Flush | examples/tinycoin/selfish.hpp:104-111 | sends the whole chain; the new private head is overtaken if and only if the private tip was longer than the old head |
| Selfish.Coordinator.ReleaseFirst | examples/tinycoin/selfish.hpp:73-75 | releases the oldest private block and keeps the rest |
| Selfish.Coordinator.Transact | examples/tinycoin/selfish.hpp:43-47 | a transaction becomes privately pending |
| Selfish.WinnerMinesOnStaleHead | examples/tinycoin/selfish.hpp:88-102 | two blocks of a member, the first there are: the race is won, both are sent, and the next block will be mined on genesis |
| Selfish.HeadAfter | protocols/tinycoin.hpp:160-161 | a new block nobody built on leaves the head's length the greater one of what it was and the block's own |
| Selfish.PrivateTipHeight | examples/tinycoin/selfish.hpp:68-76 | the reckoned length is the true length of the private tip, one less until the chain was first cleared; what was released is no longer than the head's chain |
| Selfish.ReleasedHeight | examples/tinycoin/selfish.hpp:73-75 | the released blocks stand attached on their base, one per height |
| Selfish.ReleaseKeepsPlan | examples/tinycoin/selfish.hpp:150-156 | releasing keeps released blocks and private chain one parent-linked chain, each block sent at most once |
| Selfish.PassKeepsPlan | examples/tinycoin/selfish.hpp:58-66 | a foreign block keeps `starting_height + published_blocks` at most the head's length and the private blocks private |
| Selfish.MinedKeepsPlan | examples/tinycoin/selfish.hpp:24-28 | so does mining on the private tip |
| Selfish.AllOutKeepsPlan | examples/tinycoin/selfish.hpp:29-33 | so does taking everything out and restarting at the head |
| Selfish.FirstOutKeepsPlan | examples/tinycoin/selfish.hpp:73-75 | so does taking the first block out when the head outgrew what was released |
| Selfish.HeightsKept | protocols/tinycoin.hpp:134-167 | attached blocks stay attached at their height while more blocks come in |
| Cuckoo.MaskIsRemainder | include/cuckoo.hpp:24-26 | masking by low ones is the remainder |
| Cuckoo.WidenMask | include/cuckoo.hpp:76-76 | shifting the mask and or-ing it in adds one low one bit |
| Cuckoo.Shape.HashesMirror | include/cuckoo.hpp:24-30 | the second hash is the mirror image of the first, so for a positive mask buckets come in pairs |
| Cuckoo.Shape.HomesShared | include/cuckoo.hpp:24-30 | two keys that share a home bucket share both |
| Cuckoo.Shape.KickKeepsKeys | include/cuckoo.hpp:46-68 | one kick-out trades the key in hand for the oldest of the bucket, loses and repeats none, and leaves the pair full |
| Cuckoo.Shape.FullDoesNotFit | include/cuckoo.hpp:33-44 | a key whose home pair is full fits no more at this size |
| Cuckoo.Shape.StoredFits | include/cuckoo.hpp:33-44 | what is stored fits its pairs |
| Cuckoo.Shape.TopLevelFits | include/cuckoo.hpp:69-70 | with all key bits in the mask no pair can overflow, so growth ends |
| Cuckoo.Shape.SkipEmpty | include/cuckoo.hpp:98-101 | the iterator passes over empty slots only |
| CuckooSet.HashSet.constructor | include/cuckoo.hpp:143-146 | a new set is empty |
| CuckooSet.HashSet.Copy | include/cuckoo.hpp:131-137 | a copy has the same keys and a table of its own |
| CuckooSet.HashSet.KickOut | include/cuckoo.hpp:56-60 | the shift in place: the first key out, the new one last |
| CuckooSet.HashSet.KickOnce | include/cuckoo.hpp:46-68 | one round pushes the oldest key out of the bucket and goes on with it in its other home bucket |
| CuckooSet.HashSet.PutInto | include/cuckoo.hpp:33-44 | a key goes into a home bucket exactly if that has an empty slot |
| CuckooSet.HashSet.KickOuts | include/cuckoo.hpp:45-68 | the loop ends with one key still in hand, all others in the table, and the pair still full |
| CuckooSet.HashSet.Place | include/cuckoo.hpp:32-71 | terminates with exactly the old keys and the new one, each in one home bucket; the mask grows exactly when the home pair is full, and skips no size at which the keys fit |
| CuckooSet.HashSet.Rehash | include/cuckoo.hpp:73-85 | the same keys in a larger table, through nested rehashes, skipping no size at which they fit |
| CuckooSet.HashSet.Count | include/cuckoo.hpp:174-188 | membership, in both directions |
| CuckooSet.HashSet.Insert | include/cuckoo.hpp:167-173 | set insertion, `sz` the cardinality, at the least doubling from the present size at which the keys fit |
| CuckooSet.HashSet.Erase | include/cuckoo.hpp:207-222 | set removal, `sz` the cardinality |
| CuckooSet.HashSet.SameAs | include/cuckoo.hpp:155-161 | `operator==` decides set equality |
| CuckooSet.HashSet.Elements | include/cuckoo.hpp:98-114 | a walk from begin to end meets every member exactly once |
| CuckooSet.HashSet.Size | include/cuckoo.hpp:198-200 | the number of members |
| CuckooSet.HashSet.Empty | include/cuckoo.hpp:204-206 | empty exactly when there is no member |
| CuckooSet.HashSet.Capacity | include/cuckoo.hpp:201-203 | the length of the table |
| CuckooSet.ConstIterator.Advance | include/cuckoo.hpp:109-114 | moves to the next slot in use, or to the end |
| Chord.Ring.HandleMessage | protocols/chord.hpp:29-42 | the loop delivers at the owner, is refused at a node with an empty far half, and else sends to the finger at the leading bit of the distance left |
| Chord.Ring.FingerIsFirst | protocols/chord.hpp:20-24 | a finger is the first other node that far ahead, or the node itself if there is none |
| Chord.Ring.SuccessorIsFirst | include/hardware_manager.hpp:137-148 | the owner of a key is the first node from the key on, around the ring |
| Chord.Ring.ForwardedToBestFinger | protocols/chord.hpp:29-42 | a message is forwarded to a finger, the one that leads farthest without passing the owner of its key |
| Chord.Ring.FingerAgainstGoal | protocols/chord.hpp:35-41 | larger fingers overshoot the owner, the one at the leading bit does not |
| Chord.Ring.FirstFingerOfBlindNode | protocols/chord.hpp:35-37 | the largest finger of a node with an empty far half is the node itself |
| Chord.Ring.HopShortens | protocols/chord.hpp:29-42 | each hop goes to a node on the way and leaves a distance of fewer bits |
| Chord.Ring.JourneyIsShort | examples/chord_hop_distribution.cpp:16-19 | every journey ends within `bits` hops, at the owner or at a node with an empty far half |
| Chord.Ring.AllArriveIff | protocols/chord.hpp:29-42 | all messages arrive everywhere exactly when the ring has one node or no node has an empty far half |
| Chord.LopsidedRingLosesMessages | protocols/chord.hpp:35-41 | a two-node ring on which a message is lost |
| Chord.Ring.StartMessage | protocols/chord.hpp:47-53 | routes the first drawn key that the node does not own, and nothing while there is none |
| Chord.Ring.OwnsAllIff | protocols/chord.hpp:49-51 | a node owns every key exactly on a ring of one node |
| Chord.Ring.Own | include/hardware_manager.hpp:137-148 | a node owns its own id |
| Mailbox.Node.HandleOneMessage | include/node.hpp:37-55 | undelayed messages first and in order, then the delayed one due first, not before its time; the code returned and the counter agree |
| Mailbox.Node.Enqueue | include/node.hpp:99-113 | an accepted message is in its queue and counted, a refused one is nowhere |
| Scheduler.NoMessageStranded | include/hardware_manager.hpp:177-190 | in every run the mail of a node is covered by its tokens, by senders yet to add one, and by workers that took one and have not looked; so no mail is left without somebody to fetch it |
| Scheduler.AtRestAllIsHandled | include/hardware_manager.hpp:248-279 | at rest every mailbox is empty and every message sent to a node and accepted was handled by that node, the undelayed ones in order |
| Scheduler.NothingIsLost | include/node.hpp:37-55 | at all times what was sent to a node and accepted is handled by it or waiting there, in order, and the static counters say so |
| Scheduler.BookedIsSent | include/hardware_manager.hpp:177-190 | what a mailbox ever took in is, in order, what was sent to that node, with one hop more and the due time of its delay |
| Scheduler.HandsOverWhatIsDue | include/node.hpp:37-55 | a worker handles the undelayed messages sent to the node in order, and after them a delayed one sent to it that is due |
| Scheduler.LeavesOnlyForAReason | include/hardware_manager.hpp:258-276 | it stops only at an empty mailbox, with nothing due yet, or after 129 messages |
| Scheduler.RunsEnd | include/hardware_manager.hpp:248-279 | a run takes at most seven steps per message and two per visit that came too early |
| Scheduler.NoDeadlock | include/hardware_manager.hpp:248-279 | with a worker, a run that is not at rest can go on |
| Scheduler.SendKeepsInv | include/hardware_manager.hpp:177-190 | message first, token second keeps the cover |
| Scheduler.ServeKeepsInv | include/hardware_manager.hpp:261-276 | so does each pass of the worker loop, with an empty or early mailbox, a handler to run, or the batch limit reached |
| Scheduler.TokenKeepsInv | include/hardware_manager.hpp:252-278 | so do taking and putting back tokens, and handlers that return or throw |
| Scheduler.RunInv | include/hardware_manager.hpp:177-279 | cover, order and counters hold in every run |
| Rng.StepIsReversible | include/rng.hpp:24-30 | every state of the generator has exactly one predecessor |
| Rng.NeverAllZero | include/rng.hpp:24-30 | the all-zero state is reached only from itself |
| Rng.OneBitSteps | include/rng.hpp:24-30 | the steps of two states of one bit, as the rotations and the shift make them |
| Rng.Xoroshiro.Next | include/rng.hpp:24-30 | steps the state in place and returns the sum of its two words before |
| Rng.Xoroshiro.Between | include/rng.hpp:34-36 | the next number, reduced to the range |
| Rng.Xoroshiro.GetDistinct | include/rng.hpp:46-67 | the draws are the next numbers of the generator, sorted; the answers are strictly increasing numbers of the range, the i-th shifted up from draw + i, none of them excluded if the exclusions set no snare, as when they are sorted, and of rank draw + i if they are distinct, too; or the whole range |
| Rng.Xoroshiro.Spread | include/rng.hpp:60-64 | the shift in place makes sorted draws strictly increasing numbers past the exclusions, each of its rank |
| Rng.Xoroshiro.WholeRange | include/rng.hpp:48-54 | the other branch yields every number of the range |
| Rng.RangeWithExcluded | include/rng.hpp:48-54 | a request for one number of two, with one of them excluded, is answered with both |
| Rng.NeverExcludedIff | include/rng.hpp:56-64 | whatever is drawn, no excluded number is answered, if and only if no exclusion follows a larger one that stops the shift short of it |
| Rng.SnareCatches | include/rng.hpp:56-64 | draws that lead to the excluded number, when there is such a pair |
| Rng.UnsortedExclusionIsDrawn | include/rng.hpp:60-64 | exclusions out of order with a draw that ends on one of them |
| Rng.ShiftHasRank | include/rng.hpp:60-64 | past distinct sorted exclusions the shift from k is the number of rank k |
| Rng.WholeRangeKeepsPromiseIff | include/rng.hpp:43-54 | when that branch keeps to the amount and to the exclusions |
| Rng.RanksAscend | include/rng.hpp:60-64 | numbers that are not excluded go up with their ranks |
| Rng.SortedSorts | include/rng.hpp:59-59 | sorting orders the draws and keeps them all |
| GraphGen.RoundSqrtRounds | include/graph_gen.hpp:25-25 | the integer condition is rounding of the real root |
| GraphGen.DecodeCode | include/graph_gen.hpp:21-26 | decoding the code of an edge gives the edge |
| GraphGen.CodeDecode | include/graph_gen.hpp:21-26 | every number is the code of the edge it decodes to, and the codes below N(N-1)/2 are the edges among N nodes |
| GraphGen.TriangleIsProduct | include/graph_gen.hpp:21-21 | f(f-1)/2 in closed form |
| GraphGen.FreshEdges | include/graph_gen.hpp:22-28 | distinct codes that the tree does not use give new, distinct edges |
| GraphGen.AllEdges | include/graph_gen.hpp:23-28 | with all codes taken, an edge of the tree comes twice |
| GraphGen.GenConnErdos | include/graph_gen.hpp:15-30 | connected; simple with exactly max(M, N-1) edges if and only if N is at least 2 and that is below N(N-1)/2, or N is 1 and M not positive, or both are 0; otherwise, with N at least 2, all pairs and the tree edges twice; no edge for N below 2 |
| GraphGen.EdgeTwice | include/graph_gen.hpp:15-30 | for two nodes and one edge the list has the edge twice |
| GraphGen.EndsOf | include/graph_gen.hpp:43-49 | the ends of the picked edges, sorted and once each |
| GraphGen.AttachNode | include/graph_gen.hpp:42-53 | a new node gets exactly one edge to each end of the picked edges |
| GraphGen.GenBarabasiAlbert | include/graph_gen.hpp:39-55 | simple; every node has an edge to a smaller one if and only if K is not 0 or N at most 2; for K = 0 the one edge between nodes 0 and 1, which is there also if these nodes are not |
| GraphGen.UniqueOfSorted | include/graph_gen.hpp:48-49 | sorted numbers without repeats are ascending and the same |
| GraphManager.Manager.AddNode | include/graph_hwm.hpp:53-56 | a new node has no neighbours |
| GraphManager.Manager.AddEdge | include/graph_hwm.hpp:62-66 | one edge, or both directions, over cuckoo sets with separate tables; an unknown node is refused |
| GraphManager.Manager.CanSend | include/graph_hwm.hpp:15-17 | adjacency |
| GraphManager.Manager.IterNeighbours | include/graph_hwm.hpp:24-31 | every neighbour exactly once |
| Networks.BuiltNetworkIsConnected | examples/tinycoin/main.cpp:86-86 | the links built from a rooted edge list are undirected and connected |
| Networks.BuiltNetworkConverges | examples/tinycoin/main.cpp:86-87 | so on such a network, once a run is at rest, all nodes have attached every mined block and agree on the length of the best chain |
| Networks.ErdosNetwork | examples/tinycoin/main.cpp:37-37 | a network over an Erdos graph meets the hypothesis of gossip convergence, whatever numbers are drawn |
| Networks.ScaleFreeNetwork | examples/tinycoin/main.cpp:38-38 | one over a scale-free graph can be built if and only if there are two nodes, and is then connected if and only if K is not 0 or there are exactly two |
| Networks.OneEdgeLeavesOthersOut | include/graph_gen.hpp:39-55 | with the edge between nodes 0 and 1 alone, no path leads from another node to 0 |
| Networks.AddEdges | examples/tinycoin/main.cpp:86-86 | adds the edges in order and stops at the first that names a node there is not |
| Networks.AddAllJoins | include/graph_hwm.hpp:62-66 | two nodes are neighbours exactly if the list has an edge between them |

## Left out

- Memory orderings and fences: steps are sequentially consistent. 64-bit indices and 32-bit loop counters are
  unbounded integers, except that the reference field of the free list keeps its 31-bit count and its flag bit.
- The free list, the dequeue counters, the implicit producer, the producer hash, the network and the scheduler
  are step systems on values, because their points are interleavings of threads; updates in place are steps.
- Taking a block from the pool and giving it back are single steps in `ImplicitQueue`; `PooledQueue` puts the
  protocol of `FreeList` in their place. It has one producer, as `ImplicitQueue` does; blocks that wander
  from one producer to another are not modelled.
- The queue's explicit producers, tokens, `enqueue_bulk`, and bulk dequeues over the block index: the simulator
  uses none of them. The dequeue counters cover bulk dequeues.
- Constructors and assignments of elements that throw, destruction of queues, moving and swapping them.
- In the producer hash, failing allocations and thread-exit support (off at line 208), hence recycling of producers.
- `reserve`, `clear` and the SIMD branch of `count` in the cuckoo set; its indices use `|` where the model adds,
  which is the same for bucket sizes that are powers of two. Keys equal to the empty-slot marker.
- Mutual exclusion by `pause`, `resume` and `run_lock`; `fail`, and failing links.
- `std::sort`, `std::unique` and the map, set and queue classes of the standard library stand for what they
  promise; the callbacks of policies other than the selfish one are not modelled.
- Floating-point rounding: amounts are reals, and the root in the graph generator is exact.
- Clocks, delays and random draws are parameters; which pending transactions a miner puts into a block is, too.
  The statistical quality of the generator, `choose_weighted`, `hashpower.hpp`, `miner_chooser.hpp`,
  configuration and printing.
- The selfish policy with callbacks of several workers interleaving: each callback runs to completion.
- QueueRuns.RefinesFifo: consumers take one element at a time, as the simulator does.
- HashRuns.ProducersArePerThread: with allocations that succeed and thread-exit support off.
- Gossip.GossipConverges: with honest nodes, links that do not fail, and time for all messages to arrive.
- CuckooSet.HashSet.Insert: for keys other than the marker of an empty slot, which the caller must not use.
- Rng.Xoroshiro.GetDistinct: says nothing of how likely an answer is, and not that every answer can occur.
- Chord.Ring.StartMessage: takes the draws as a given stream and tells when none of them will do.
- QueueRuns.RunsWithoutFault: the size limit of a sub-queue (line 2420) is not modelled; its default is none.
