# Verification of the packet datapath

This project models the datapath's rings, allocator, queues, flow control, thread protocol and text formats in
Dafny and proves what they promise. `dafny verify dfyconfig.toml` checks all of it.

What is modelled, file by file:

- **BufferLifecycle, BufferTheorems, LateMark, Ledger**: the RoCE server with `ApplyNewMbuf` false as a state machine of
  single reads and writes. One receive-ring buffer travels from the NIC through the ring, a worker's queue, the
  worker, its tx queue, the dispatcher's array and the send ring, back to FREE. Dispatcher and workers interleave
  freely. The dispatcher's phases may come in any order, a superset of what the event loop does.
- **RecvRing, SendRing, Circular**: the two rings as objects, with the arrays, heads, counts and the circular lists
  that are cut and restored around each post. The NIC is an oracle that completes requests in posting order.
- **RingSteps, WorkerSteps**: each call of the ring objects, and each batch of a worker, is a run of the server's state
  machine; the calls keep object and machine in step.
- **LockFreeQueue, Spsc**: the worker queue as an object used by one thread, then as interleaved reads and writes of
  one producer and one consumer (sequentially consistent).
- **SizeClass, Heap, HeapTheorems, HugeAlloc**: size classes, the allocator's state as a value, what every sequence
  of calls keeps, and the object with its free lists.
- **Barrier, IterationProtocol, IterationTheorems**: the generation barrier and, on top of that very state machine,
  the per-iteration protocol of N workspaces.
- **RuleTable, FlowControl, FlowTheorems, Dispatchers, DispatcherRuns, Worker, FlowWorkers**: routing and in-flight
  budget, the closed loop between client and server counted in packets, the same loop with any number of dispatchers
  on each side, when each of them flushes and collects, the worker phases on real queues, and those phases as steps of
  the loop.
- **RingFlow, RingOrder, RingInvariant, RingTheorems, RingLimits**: the same loop with RoCE's receive and send rings,
  whose buffers are reposted in ring order and carry the responses; when it keeps moving and when it must stop.
- **CollectTx, CollectBounds, DpdkDispatch**: collecting from worker queues while workers append, what bounds the
  appending in a whole system, and DPDK's dispatch.
- **Text, QpInfo, QueuePair**: `getline`, `to_string` and `stoi`, and the queue-pair information's text form.
- **PyText, ConfigFile, UserConfig, Refusals, Pipeline, Launch**: the workload lines as Python writes and both sides read
  them, which files the datapath refuses, the loops and types that the pipeline gives each workspace, and which
  workspaces are launched.
- **MathUtils, Counting**: bit masks, powers of two, counting.

Runs are sequences of steps. A theorem about "every run" quantifies over all of them. Ring depth, queue size, class
count, batch sizes, budget and packets per message are parameters everywhere; a power of two is required only where
the code masks.

## Where the code and the obvious claim differ

- `dispatch_rx_pkts` (`src/dispatcher_impl/roce/roce_dispatcher_dataplane.cc:180-186`) enqueues a buffer before it
  writes APP_OWNED. A worker on another thread can write FREE in between, and the late write hides it.
  `LateMark.LostIffLateMark` says that this is the only way to lose a buffer, `TwoThreadsCanLoseIff` which
  configurations can, and `BufferTheorems.OneThreadLosesNothing` excludes it on a shared thread, the arrangement of
  `config/send_config` and `config/recv_config`. One such loss stops the ring (`RingLimits.LateMarkStopsServer`).
- The RoCE `collect_tx_pkts` reads the queue size twice (`:58-59`). Taken alone, with producers that nothing else
  restrains, a visit stays within the ring exactly when the queue's capacity is at most the rest of the ring
  (`CollectTx.RoceVisitsFitIff`), which 4095 against 2048 is not. In a whole system the producers are restrained:
  a server never overflows (`CollectBounds.ServerBatchFits`), since its packets are receive-ring buffers, and a client
  with one worker can overflow exactly when its budget stands for more packets than the array holds
  (`ClientCanOverflowIff`). So as shipped, with a budget of 1024 messages of one packet, neither side overflows; a
  client with several packets per message (nine for `FS_WRITE`) can, and so can one with `EnableInflyMessageLimit`
  false, which may do what a client with any budget may. The DPDK version reads once and is bounded whatever the
  producers do.
- The start-up check against deadlock (`src/ws_impl/workspace.cc:40-42`) compares the budget with two thresholds out
  of six. Over RoCE the receive ring matters too: a buffer that is held holds back all later ones, a response holds its
  request's buffer until the next burst polls its completion, and RC with `rnr_retry = 7`
  (`src/dispatcher_impl/roce/roce_dispatcher.cc:298`) waits for ever for a posted buffer. `RingTheorems` proves bounds
  that suffice and an exact description of the stuck states, `RingLimits` that a threshold out of reach stops every run
  and that a shallow ring alone can do so.
- `add_raw_buffer` puts the remainder of a raw buffer at the buffer's base address and stores a class index as its
  size (`src/dispatcher_impl/roce/huge_alloc.cc:224-234`). `HugeAlloc.AddRawIsSoundIff` proves when the result is
  sound; `src/dispatcher_impl/roce/roce_dispatcher.h:35` always makes it so.
- DPDK's `dispatch_rx_pkts` does not count ARP packets in the number at which freeing starts.
  `DpdkDispatch.SomePacketTwiceIff` and `SomePacketLeakedIff` say for which batches and queues packets are freed while
  in use and packets leak, and `LeakedIffEarlyArp` which ones leak.
- `round_up` is right exactly when its addition does not wrap around (`MathUtils.RoundUpIff`).
- `deserialize` reads 32-bit fields with `stoi` (`src/dispatcher_impl/roce/qpinfo.hh:176-198`), so numbers from 2^31
  on throw; and a name with ';' or ':' is cut. `QpInfo.RoundTripIff` is the exact condition.
- A backward range such as `3-1` is loaded as an empty group, and the written line cannot be loaded again
  (`ConfigFile.BackwardRangeIsEmpty`; `FileRoundTrip` has the exact condition).
- A misspelt phase name is looked up as type 0, which is TxNIC, and silently ignored
  (`Pipeline.MisspeltNamesAreIgnored`).
- The documented value of `msb_index(0)` is 0; the instruction leaves its result undefined there
  (`src/util/math_utils.h:33-40`). The documented value is used.
- `alloc` returns a null pointer, while `roce_mbuf_alloc_bulk` tests the buffer behind it
  (`src/dispatcher_impl/roce/roce_dispatcher.cc:333`). The intended null test is modelled.
- The responses reuse the buffers of their requests, so the server needs responses of no more packets than requests;
  `BufferLifecycle` and `Worker.AppHandlerServer` require it.
- Workspace id 16 passes the configuration's range check (`src/common.h:162-164`), while `src/main.cc:45-58` launches 0
  to 15. `Launch.AllLaunchedIff`: every workspace that a configuration puts a phase on is launched exactly when none
  has the id 16; `SixteenIsNotLaunched` is an accepted configuration that is not served at all.

## Model

| member | source | states |
|---|---|---|
| `BufferTheorems.OneHolder` | src/dispatcher_impl/roce/roce_dispatcher_dataplane.cc:51-194 | in every reachable state a receive-ring buffer is held exactly when it is neither FREE nor lost, and then at one position of one holder (NIC queue, waiting, worker queue, worker's hands, tx queues, send ring) |
| `BufferTheorems.WindowIsPosted` | src/dispatcher_impl/roce/roce_dispatcher_dataplane.cc:142-194 | the circular interval from ring_head_ of length waiting + posted fits in the ring, ends at recv_head_, and is all POSTED, in every reachable state |
| `BufferTheorems.RepostTakesOnlyUnheld` | src/dispatcher_impl/roce/roce_dispatcher_dataplane.cc:146-150 | the repost loop never takes a buffer that is held or lost, and never goes round the ring twice |
| `BufferTheorems.NeverFreedTwice` | src/dispatcher_impl/roce/roce_dispatcher_dataplane.cc:86-89 | whoever gives a buffer back finds it not FREE and leaves it FREE and unheld |
| `BufferTheorems.TakeNeverFails` | src/workspace.h:215-241 | the batch dequeues after one size read never return null, so the invalid-buffer assertion cannot fire; a replying worker always has a request buffer for each response it owes |
| `LateMark.LostIffLateMark` | src/dispatcher_impl/roce/roce_dispatcher_dataplane.cc:165-194 | after any run of any number of threads, every buffer is FREE or held by somebody exactly when no write of APP_OWNED in the run fell on a FREE buffer |
| `BufferTheorems.LostForever` | src/dispatcher_impl/roce/roce_dispatcher_dataplane.cc:146-150 | a lost buffer is never posted again |
| `BufferTheorems.OneThreadLosesNothing` | src/dispatcher_impl/roce/roce_dispatcher_dataplane.cc:165-194 | when dispatcher and worker share a thread, no run loses a buffer |
| `BufferTheorems.OneThreadFromStart` | src/dispatcher_impl/roce/roce_dispatcher_dataplane.cc:165-194 | the same from the initial state |
| `LateMark.TwoThreadsCanLoseIff` | src/dispatcher_impl/roce/roce_dispatcher_dataplane.cc:180-186 | where a worker queue holds the whole ring, as in the source: some run loses a buffer exactly when there is a worker, responses have fewer packets than requests, and the ring holds the packets that a worker waits for |
| `BufferTheorems.RepostRefillsRing` | src/dispatcher_impl/roce/roce_dispatcher_dataplane.cc:142-153 | when every buffer is free, waiting or with the NIC, one pass of the repost loop leaves all ring entries posted or waiting |
| `BufferTheorems.RunKeepsInv` | src/dispatcher_impl/roce/roce_dispatcher_dataplane.cc:51-194 | ledger, flags, ring geometry, worker accounts and queue capacities are kept over every run |
| `BufferLifecycle.StepKeepsInv` | src/dispatcher_impl/roce/roce_dispatcher_dataplane.cc:51-194 | every atomic step of NIC, dispatcher and workers keeps them |
| `BufferLifecycle.InitInv` | src/dispatcher_impl/roce/roce_dispatcher.cc:410-485 | the initial rings satisfy them |
| `BufferLifecycle.StepTransfers` | src/ws_impl/msg_handlers.cc:212-224 | each step moves at most one buffer, from the head of one holder's queue to the tail of another's, and no other holder changes |
| `BufferLifecycle.DispatchKeepsGeometry` | src/dispatcher_impl/roce/roce_dispatcher_dataplane.cc:171-192 | dispatching moves the window's start and nothing else of the ring geometry |
| `WorkerSteps.BatchIsRun` | src/workspace.h:186-241 | one batch of a server worker is a run of its steps: idle with m whole messages, at least its threshold, it ends idle with the first buffers of the batch in its tx queue, one per response packet as far as there is room, every other buffer of the batch FREE, and nothing else changed |
| `WorkerSteps.EveryBatchIsAnswered` | src/ws_impl/msg_handlers.cc:172-226 | with the steps of all other threads in between: from the start of a batch of m whole messages to its end the worker dequeues exactly their packets, sends exactly their responses and trims exactly the buffers left over |
| `WorkerSteps.OneStepAtATime` | src/ws_impl/msg_handlers.cc:202-226 | a worker never has two different steps to take |
| `Ledger.TransferKeepsConsistent` | src/dispatcher_impl/roce/roce_dispatcher_dataplane.cc:51-194 | moving a buffer between holders keeps every buffer in exactly the place recorded for it |
| `Circular.ChainVisitsExactly` | src/dispatcher_impl/roce/roce_dispatcher_dataplane.cc:16-36 | with the cycle cut after n requests, following next from the first visits exactly those n in ring order and then null, for every n from 1 to the full depth, across the wrap |
| `Circular.ArcDistinct` | src/dispatcher_impl/roce/roce_dispatcher_dataplane.cc:16-18 | an interval no longer than the ring names no entry twice |
| `RecvRing.RecvRing.constructor` | src/dispatcher_impl/roce/roce_dispatcher.cc:450-470 | init_recvs: both circular lists are single full cycles, every buffer is POSTED, and the whole ring is with the NIC in order |
| `RecvRing.RecvRing.PostRecvs` | src/dispatcher_impl/roce/roce_dispatcher_dataplane.cc:10-37 | posts exactly n requests from recv_head_ in ring order with a single subtraction for the wrap, restores the list, advances recv_head_ by n |
| `RecvRing.RecvRing.MarkFree` | src/dispatcher_impl/roce/roce_dispatcher_dataplane.cc:144-150 | marks exactly the run of FREE buffers at recv_head_ POSTED; terminates within the depth even when the whole ring is free |
| `RecvRing.RecvRing.Repost` | src/dispatcher_impl/roce/roce_dispatcher_dataplane.cc:142-153 | the NIC gains exactly that run, in ring order; the geometry invariant is kept |
| `RecvRing.FreeRunFits` | src/dispatcher_impl/roce/roce_dispatcher_dataplane.cc:144-153 | the FREE run at the end of the posted window cannot reach back into it, so waiting + posted never exceeds the depth |
| `RecvRing.RecvRing.FillLengths` | src/dispatcher_impl/roce/roce_dispatcher_dataplane.cc:158-160 | the byte lengths of the completions go to the buffers behind those already waiting |
| `RecvRing.RecvRing.Poll` | src/dispatcher_impl/roce/roce_dispatcher_dataplane.cc:156-162 | the oldest posted buffers become waiting, in order, with their lengths |
| `RecvRing.RecvRing.RxBurst` | src/dispatcher_impl/roce/roce_dispatcher_dataplane.cc:142-163 | whole of rx_burst: repost, then poll, on posted queue, flags and heads; each completed entry gets its byte length, and every other length is as it was |
| `RecvRing.RecvRing.DeliverEntry` | src/dispatcher_impl/roce/roce_dispatcher_dataplane.cc:180-188 | one buffer is enqueued and APP_OWNED, or FREE when the queue is full |
| `RecvRing.RecvRing.DeliverWaiting` | src/dispatcher_impl/roce/roce_dispatcher_dataplane.cc:171-189 | the loop delivers every waiting buffer in ring order to the worker that the rule table picks |
| `RecvRing.RecvRing.DispatchRxPkts` | src/dispatcher_impl/roce/roce_dispatcher_dataplane.cc:165-194 | whole of dispatch_rx_pkts, with ring_head_ advanced past what waited |
| `RecvRing.DeliveredInOrder` | src/dispatcher_impl/roce/roce_dispatcher_dataplane.cc:171-189 | each worker queue gains a prefix of the packets routed to it, in order, limited only by its room |
| `RecvRing.DeliveredOrFreed` | src/dispatcher_impl/roce/roce_dispatcher_dataplane.cc:180-188 | a waiting buffer ends APP_OWNED in its worker's queue when those routed there before it have left room, and FREE otherwise |
| `RecvRing.TotalIsHandedOver` | src/dispatcher_impl/roce/roce_dispatcher_dataplane.cc:165-194 | the number returned is the number of buffers that end APP_OWNED |
| `SendRing.SendRing.constructor` | src/dispatcher_impl/roce/roce_dispatcher.cc:472-485 | init_sends: a single full cycle of requests, empty ring, full free count |
| `SendRing.SendRing.FreeOldest` | src/dispatcher_impl/roce/roce_dispatcher_dataplane.cc:86-89 | completions free exactly the oldest posted buffers, walking send_head_ |
| `SendRing.SendRing.Release` | src/dispatcher_impl/roce/roce_dispatcher_dataplane.cc:77-89 | completed gains a prefix of the in-flight buffers; free count + in-flight stays the depth; send_head_ + in-flight stays send_tail_ |
| `SendRing.SendRing.MountOne` | src/dispatcher_impl/roce/roce_dispatcher_dataplane.cc:94-113 | one buffer on the slot at send_tail_ |
| `SendRing.SendRing.Mount` | src/dispatcher_impl/roce/roce_dispatcher_dataplane.cc:94-113 | mounts buffers in order until the ring is full or the input ends |
| `SendRing.SendRing.PostChain` | src/dispatcher_impl/roce/roce_dispatcher_dataplane.cc:115-126 | the chain cut after n requests reaches the NIC as exactly the n mounted slots; the cycle is restored |
| `SendRing.SendRing.MountAndPost` | src/dispatcher_impl/roce/roce_dispatcher_dataplane.cc:91-126 | posted gains exactly the mounted buffers, in order |
| `SendRing.SendRing.TxBurst` | src/dispatcher_impl/roce/roce_dispatcher_dataplane.cc:73-128 | whole of tx_burst as a FIFO step: releases a prefix of in-flight, appends a prefix of the input |
| `SendRing.SendRing.TxFlush` | src/dispatcher_impl/roce/roce_dispatcher_dataplane.cc:130-140 | posts exactly tx_queue_[0..tx_queue_idx_) in order and terminates if the NIC keeps completing; what of it is in flight afterwards is POSTED, what completed meanwhile is FREE, every other flag is unchanged |
| `SendRing.WithFlagsAt` | src/dispatcher_impl/roce/roce_dispatcher_dataplane.cc:86-98 | marking a list of buffers changes exactly their states |
| `RingSteps.RxBurstIsRun` | src/dispatcher_impl/roce/roce_dispatcher_dataplane.cc:142-163 | from any state that keeps the invariant, the marks, posts and polls of one rx_burst are a run of the server's state machine to the state that RecvRing.RxBurst promises, and touch nothing else |
| `RingSteps.DispatchIsRun` | src/dispatcher_impl/roce/roce_dispatcher_dataplane.cc:165-194 | so are the enqueues, APP_OWNED writes and frees of one dispatch_rx_pkts, for any choice of workers |
| `RingSteps.CollectIsRun` | src/dispatcher_impl/roce/roce_dispatcher_dataplane.cc:51-71 | so are the dequeues of one turn of collect_tx_pkts: a chunk goes to the end of the array, in order |
| `RingSteps.TxBurstIsRun` | src/dispatcher_impl/roce/roce_dispatcher_dataplane.cc:73-128 | so are the completions and sends of one tx_burst |
| `RingSteps.FlushIsRun` | src/dispatcher_impl/roce/roce_dispatcher_dataplane.cc:130-140 | so is a whole tx_flush, however many buffers complete meanwhile |
| `RingSteps.RxBurst` | src/dispatcher_impl/roce/roce_dispatcher_dataplane.cc:142-163 | the ring object's call and that run keep object and state machine in step, so the ownership theorems hold of the object |
| `RingSteps.DispatchRxPkts` | src/dispatcher_impl/roce/roce_dispatcher_dataplane.cc:165-194 | the same for dispatching, with the worker queues and the rule table's picks |
| `RingSteps.TxBurst` | src/dispatcher_impl/roce/roce_dispatcher_dataplane.cc:73-128 | the same for the send ring, whatever the NIC has completed |
| `RingSteps.TxFlush` | src/dispatcher_impl/roce/roce_dispatcher_dataplane.cc:130-140 | the same for the whole flush |
| `LockFreeQueue.LockFreeQueue.constructor` | src/util/lock_free_queue.h:21-24 | an empty queue of a power-of-two size |
| `LockFreeQueue.LockFreeQueue.Enqueue` | src/util/lock_free_queue.h:25-31 | appends, or refuses exactly when one slot is left |
| `LockFreeQueue.LockFreeQueue.Dequeue` | src/util/lock_free_queue.h:32-37 | hands over the first entry, or null exactly when empty |
| `LockFreeQueue.LockFreeQueue.GetSize` | src/util/lock_free_queue.h:44-46 | the masked unsigned difference is the number of entries |
| `LockFreeQueue.NextIsCircular` | src/util/lock_free_queue.h:26-35 | masking with size - 1 is the remainder, for power-of-two sizes |
| `Spsc.ReceivedIsPrefixOfSent` | src/util/lock_free_queue.h:25-46 | under every interleaving of the two threads' reads and writes, what was dequeued is a prefix of what was enqueued, and at most size - 1 packets are held |
| `Spsc.StepRefinesFifo` | src/util/lock_free_queue.h:25-46 | each read or write refines a FIFO sequence: the packet handed to enqueue is carried to its publish, the first packet is the one handed over, full, empty and size answers are right at the moment they are read, and no step moves the other thread |
| `Spsc.EnqueueIsRun` | src/util/lock_free_queue.h:25-31 | enqueue by itself is a run of the producer's steps that appends its packet, or leaves a queue with one free slot alone |
| `Spsc.DequeueIsRun` | src/util/lock_free_queue.h:32-37 | dequeue by itself is a run of the consumer's steps that takes the first packet, if there is one |
| `Spsc.FieldsShowPending` | src/util/lock_free_queue.h:16-19 | in the middle of any operation the slots between head and tail are the packets sent and not received |
| `Spsc.WriteSparesUnread` | src/util/lock_free_queue.h:28 | the producer's write never hits an unread slot |
| `Spsc.SizeReadIsLowerBound` | src/workspace.h:191-240 | after a size read of n, fewer than n dequeues later a dequeue still finds a packet, whatever the producer does |
| `Spsc.FullTest` | src/util/lock_free_queue.h:26-33 | the full and the empty test, in counts of packets |
| `Spsc.RunKeepsInv` | src/util/lock_free_queue.h:25-46 | the queue invariant over every interleaving |
| `RuleTable.RuleTable.AddRoute` | src/util/rule_table.h:16-22 | appends a route; the first route of a type fills its budget, further ones do not |
| `RuleTable.RuleTable.ApplyInflyBudget` | src/util/rule_table.h:24-30 | grants the whole batch or takes nothing |
| `RuleTable.RuleTable.RrSelect` | src/util/rule_table.h:52-55 | picks by the shared counter and advances it |
| `RuleTable.RoundRobinIsFair` | src/util/rule_table.h:52-55 | whatever the counter, as many picks as routes use every route exactly once |
| `HugeAlloc.WholeLife` | src/dispatcher_impl/roce/huge_alloc.cc:149-236 | from one raw buffer that is a multiple of the largest class, over every sequence of calls: free and held blocks are disjoint, aligned to their size, in the buffer, of their class's size; their bytes add up to the buffer; the user's share is a multiple of 64 |
| `HeapTheorems.RunKeepsWellFormed` | src/dispatcher_impl/roce/huge_alloc.cc:149-190 | the same from any sound heap |
| `HeapTheorems.AllocIsTightestAndComplete` | src/dispatcher_impl/roce/huge_alloc.cc:149-190 | alloc returns a block of the smallest class that holds the request, disjoint from all held blocks, and null exactly when no class from there up has a free block |
| `HeapTheorems.AllocEffect` | src/dispatcher_impl/roce/huge_alloc.cc:149-190 | what alloc does to every list: the answer is the end of the first serving class's last block, each class on the way down keeps the one piece cut off in front, the user's list gains the answer, and every other block stays where it was |
| `HeapTheorems.FreeEffect` | src/dispatcher_impl/roce/huge_alloc.h:116-126 | free_buf moves that one block from the user's list to the free list of its class, and nothing else |
| `HeapTheorems.AllocUsesBytesFrom` | src/dispatcher_impl/roce/huge_alloc.cc:149-190 | an allocation takes exactly its own size out of the bytes of the classes that can serve it, and fails exactly when they have none |
| `HeapTheorems.AllocKeepsBytes` | src/dispatcher_impl/roce/huge_alloc.h:197-211 | bytes go from the free side to user_alloc_tot_; splitting loses none |
| `HeapTheorems.FreeKeepsBytes` | src/dispatcher_impl/roce/huge_alloc.h:116-126 | free_buf moves exactly the block's bytes back |
| `HeapTheorems.OneClassFailsOnlyWhenFull` | src/dispatcher_impl/roce/huge_alloc.cc:149-190 | over every sequence of requests and returns of one class, whatever blocks of other classes are held, allocation fails only when no free byte is left |
| `HeapTheorems.MixedClassesCanFail` | src/dispatcher_impl/roce/huge_alloc.cc:149-190 | with two classes that is false: 128 free bytes in two 64-byte pieces cannot serve 128, since blocks are never merged |
| `Heap.SplitDownKeeps` | src/dispatcher_impl/roce/huge_alloc.h:177-194 | splitting down keeps disjointness, alignment, sizes and bytes |
| `Heap.SplitKeepsBytes` | src/dispatcher_impl/roce/huge_alloc.h:177-194 | one split keeps the free bytes |
| `HugeAlloc.HugeAlloc.Split` | src/dispatcher_impl/roce/huge_alloc.h:177-194 | pops the last block and pushes its two halves; the lower class is empty as the assertion says |
| `HugeAlloc.HugeAlloc.SplitDownTo` | src/dispatcher_impl/roce/huge_alloc.cc:182-185 | every split on the way down meets its empty-lower-class assertion |
| `HugeAlloc.HugeAlloc.AllocFromClass` | src/dispatcher_impl/roce/huge_alloc.h:196-211 | pops the last block and counts its bytes |
| `HugeAlloc.HugeAlloc.Alloc` | src/dispatcher_impl/roce/huge_alloc.cc:149-190 | the method computes the specified allocation and keeps the object sound |
| `HugeAlloc.HugeAlloc.FreeBuf` | src/dispatcher_impl/roce/huge_alloc.h:116-126 | the method returns a held block to its class's list; its class-size assertion holds |
| `HugeAlloc.HugeAlloc.AddRawBuffer` | src/dispatcher_impl/roce/huge_alloc.cc:212-236 | both branches, with the base address reused for the remainder and the class index stored as its size |
| `HugeAlloc.AddRawIsSoundIff` | src/dispatcher_impl/roce/huge_alloc.cc:212-236 | a raw buffer gives a sound heap exactly when it is a multiple of the largest class; then all its bytes are free |
| `HugeAlloc.AddRawEffect` | src/dispatcher_impl/roce/huge_alloc.cc:212-236 | the largest pieces side by side, and for a remainder one block at the same base address, sized with its class index |
| `HugeAlloc.HugeAlloc.AllocBulk` | src/dispatcher_impl/roce/roce_dispatcher.cc:330-341 | all or nothing; it succeeds exactly when the classes that can serve the request still hold enough bytes, and a failure restores the user's blocks and all byte counts |
| `HugeAlloc.HugeAlloc.Rollback` | src/dispatcher_impl/roce/roce_dispatcher.cc:334-336 | gives back exactly the blocks taken so far |
| `SizeClass.GetClassIsTightest` | src/dispatcher_impl/roce/huge_alloc.h:150-161 | the bit scan gives c exactly when class_max_size(c-1) < size <= class_max_size(c) |
| `SizeClass.GetClassSlow` | src/dispatcher_impl/roce/huge_alloc.h:161-175 | the reference loop computes the same class |
| `SizeClass.ClassOfClassSize` | src/dispatcher_impl/roce/huge_alloc.h:121-122 | a class size belongs to its own class |
| `MathUtils.MsbIndexIsBitLength` | src/util/math_utils.h:33-40 | the scan is the number of bits, and 0 for 0 as documented |
| `MathUtils.IsPowerOfTwoIff` | src/util/math_utils.h:14-17 | the bit test accepts exactly the powers of two |
| `MathUtils.RoundUpIff` | src/util/math_utils.h:19-24 | round_up is the first multiple from x on exactly when x + n - 1 does not wrap around |
| `MathUtils.MaskIsRemainder` | src/util/lock_free_queue.h:19-35 | masking with 2^k - 1 is the remainder modulo 2^k |
| `MathUtils.MaskedDifferenceIsDistance` | src/util/lock_free_queue.h:44-46 | the masked 64-bit difference is the circular distance |
| `Barrier.BarrierSeparatesRounds` | src/util/barrier.h:10-21 | under every schedule with spurious wake-ups: no k-th return before all k-th entries, completed waits differ by at most one, and count is the number of sleepers of this generation, below N |
| `Barrier.NoLostWakeUp` | src/util/barrier.h:14-19 | a recheck returns exactly when all have entered the sleeper's round, and whoever may return has been notified |
| `Barrier.RunKeepsInv` | src/util/barrier.h:10-21 | the barrier invariant over every schedule |
| `Barrier.StepKeepsInv` | src/util/barrier.h:10-21 | each critical section keeps it |
| `Barrier.LastOneIn` | src/util/barrier.h:14-17 | when the count says that one is missing, all others sleep in this generation |
| `Barrier.ThreadBarrier.Enter` | src/util/barrier.h:10-20 | the section from entry to sleep or return |
| `IterationTheorems.OneCollectorPerIteration` | src/ws_impl/workspace.cc:318-377 | exactly one workspace collects in each iteration; completed_ws_num_ never exceeds N; at most the latest collector has its flag up |
| `IterationTheorems.ResetsWaitForEverybody` | src/ws_impl/workspace.cc:442-450 | the collector's writes happen only when nobody measures or spins on the count, which still reads N |
| `IterationTheorems.UpdateWaitsForResets` | src/ws_impl/workspace.cc:318-323 | while anyone may call update_stats, the previous iteration's resets are over and the shared fields speak of this iteration only |
| `IterationTheorems.SpinEndsWhenAllAreDone` | src/ws_impl/workspace.cc:433-440 | a dispatcher's spin test succeeds exactly when every workspace has finished measuring |
| `IterationTheorems.DispatchersWaitForAll` | src/ws_impl/workspace.cc:433-440 | every dispatcher spins after its own measurement, and once it is past the spin nobody measures any more; no other workspace spins |
| `IterationTheorems.NeverStuck` | src/ws_impl/workspace.cc:386-451 | no reachable state is a deadlock: until all iterations are done, some workspace can move on |
| `IterationTheorems.RunsAreShort` | src/ws_impl/workspace.cc:386-451 | no run takes more than nine useful steps per workspace and iteration |
| `IterationTheorems.RunKeepsInv` | src/ws_impl/workspace.cc:386-451 | the protocol invariant over every run |
| `IterationProtocol.StepKeepsInv` | src/ws_impl/workspace.cc:318-451 | each step keeps it, the three reset writes taken separately |
| `IterationProtocol.PlaceByParity` | src/ws_impl/workspace.cc:386-451 | the barrier generation's parity fixes where each workspace can be |
| `IterationProtocol.CompletedCounts` | src/ws_impl/workspace.cc:320 | the byte counts finished workspaces and does not wrap |
| `IterationProtocol.LastOutOfWork` | src/ws_impl/workspace.cc:441-450 | when the second wait opens, the count is N and one collector's flag is up |
| `IterationProtocol.WsContext.UpdateStats` | src/ws_impl/workspace.cc:318-323 | the locked section: count, end signal, and who collects |
| `FlowControl.BudgetIsConserved` | src/util/rule_table.h:24-38 | over every run, any assignment of responses to workers and any number of dispatchers: messages in budget times a·b + requests in flight times b + responses in flight times a never exceeds the initial total, and equals it exactly when nothing was lost or dropped |
| `FlowControl.RunConserves` | src/workspace.h:102-181 | with lost and dropped packets counted the sum is constant over every run, however many dispatchers share the arrays and the link |
| `FlowControl.StepConserves` | src/ws_impl/msg_handlers.cc:172-226 | each phase conserves it: applying, generating, collecting, flushing, link, dispatching, serving, finishing |
| `FlowControl.QueuesNeverOverflow` | src/workspace.h:160-168 | if all packets that the budgets stand for fit in one worker queue, no enqueue ever fails, for any number of dispatchers |
| `FlowTheorems.DeliveringLoopNeverDeadlocks` | src/workspace.h:102-291 | with a link that always delivers (DPDK), one dispatcher per side and a budget worth more than the thresholds can hide, no run that lost nothing comes to a stop, for any numbers of workers and packets per message; several dispatchers are the subject of Dispatchers.NeverDeadlocks |
| `FlowTheorems.DeliveringFlowNeverDeadlocks` | src/ws_impl/workspace.cc:40-42 | with such a link, for one flow of one-packet messages: budget - kAppTxMsgBatchSize at least the sum of (threshold - 1) suffices, DPDK's two collect thresholds included |
| `FlowTheorems.StuckIffAllBelow` | src/workspace.h:215-231 | with such a link a state is stuck exactly when every stage is below its threshold and the link is empty |
| `FlowTheorems.NoMessageEverCompletes` | src/ws_impl/workspace.cc:40-42 | if any of the six thresholds is beyond what the whole budget can gather, no run ever completes a message |
| `FlowTheorems.StartUpCheckIsNotEnough` | src/ws_impl/workspace.cc:40-42 | a configuration that passes the start-up check and never completes a message |
| `Dispatchers.StepRefines` | src/workspace.h:243-291 | with several dispatchers on each side, each flushing on its own, every step is a step of the counted loop |
| `Dispatchers.RunRefines` | src/config.cc:42-93 | any number of application groups, each with its dispatcher: every run is a run of the counted loop with the same totals, so conservation and the bound on queues hold |
| `Dispatchers.StandsIffAllWait` | src/workspace.h:243-291 | with a link that always delivers, no useful step is left exactly when on both sides every worker and every dispatcher is below its thresholds and nothing is on the link or waiting |
| `Dispatchers.NeverDeadlocks` | src/config.cc:42-93 | deadlock freedom for any number of dispatchers: a budget worth more than what the workers' thresholds and each dispatcher's two thresholds can hide |
| `DispatcherRuns.FlushOrCollect` | src/workspace.h:258-290 | over every run: the array is flushed exactly when it holds the flush threshold or a burst since it was last empty has left some, and a queue is collected exactly when no such burst was, the queue holds the collect threshold, and for as many packets as there is room |
| `DispatcherRuns.EachFlushesOrCollects` | src/workspace.h:258-290 | the same for each of several dispatchers by itself |
| `DispatcherRuns.EachConserves` | src/workspace.h:258-330 | over every run, per dispatcher: collected from its own workers = sent + held; sent to it = received + lost + on the way; received = handed to its own workers + waiting |
| `RingFlow.RunRefines` | src/dispatcher_impl/roce/roce_dispatcher_dataplane.cc:51-194 | the rings only restrain the loop: every run with receive rings, send rings and reposts is a run of the counted loop, so its conservation holds |
| `RingFlow.StepAgrees` | src/dispatcher_impl/roce/roce_dispatcher_dataplane.cc:51-194 | every action keeps the queues of buffers as long as the counts say |
| `RingOrder.QueueWithinShare` | src/util/rule_table.h:52-55 | in every run a worker's rx queue holds at most its share of the receive ring, the depth over the number of workers rounded up |
| `RingOrder.GivenSince` | src/dispatcher_impl/roce/roce_dispatcher_dataplane.cc:142-163 | when the ring is full and dealt out, every worker has been given its share of packets since the one whose buffer holds up the repost loop |
| `RingInvariant.RunKeepsSafe` | src/dispatcher_impl/roce/roce_dispatcher_dataplane.cc:142-194 | the window between reposted and delivered packets never exceeds the ring's depth; each queue's packets lie in it, a turn apart |
| `RingInvariant.RunKeepsOrder` | src/ws_impl/msg_handlers.cc:202-226 | while nothing is dropped: each worker's queue holds exactly its packets not yet handled, and the responses not yet completed are its latest ones, in order, in the buffers of their own requests |
| `RingTheorems.StuckIff` | src/dispatcher_impl/roce/roce_dispatcher_dataplane.cc:142-163 | a state of the loop is stuck exactly when on both sides: workers below their thresholds, nothing to collect, nothing to flush or a full send ring without completions, nothing on the link or a full receive ring, and the next buffer to repost is held |
| `RingTheorems.PoolAndSendRingsSuffice` | src/workspace.h:113-115 | in every run the client's buffers outside the receive ring are at most the budget's requests and the send ring's depth, so a pool of that size never stalls; and a flush is over in one burst when the send rings hold what the budget stands for |
| `RingTheorems.ServerRingOpens` | src/dispatcher_impl/roce/roce_dispatcher_dataplane.cc:146-153 | when the server's workers are below their thresholds and its sender has nothing to do, a full receive ring has a buffer to repost, under a bound on depth, thresholds and responses not yet polled |
| `RingTheorems.NeverDeadlocks` | src/dispatcher_impl/roce/roce_dispatcher_dataplane.cc:51-194 | deadlock freedom over RoCE, where each dispatcher has one queue pair and so each pair of groups is a loop of its own: with a budget worth more than the thresholds can hide, send rings that hold it and receive rings deep enough for the workers' shares, no run that lost no packet and no buffer comes to a stop |
| `RingTheorems.SingleFlowNeverDeadlocks` | src/ws_impl/workspace.cc:40-42 | for one flow of one-packet messages and rings of one depth: budget - kAppTxMsgBatchSize at least the sum of (threshold - 1), and a depth above the budget, the server's batch and the responses waiting to be flushed |
| `RingTheorems.OneDepthSuffices` | src/dispatcher.h:41-44 | with rings of one depth the receive ring's condition implies those on the send rings |
| `RingTheorems.ShippedConfigurationIsProvisioned` | config/recv_config:1-13 | the shipped configuration files meet every condition of NeverDeadlocks |
| `RingLimits.NoMessageEverCompletes` | src/ws_impl/workspace.cc:40-42 | over RoCE: if a threshold is beyond what the budget can gather, or a handler's threshold beyond a worker's share of the receive ring, no run ever completes a message |
| `RingLimits.ComesToAStop` | src/ws_impl/workspace.cc:40-42 | and then every run, however it has gone so far, can be continued to a stuck state, and each step of progress on the way leaves less to happen |
| `RingLimits.RingTooSmallStops` | src/dispatcher_impl/roce/roce_dispatcher_dataplane.cc:142-163 | budget, start-up check and all thresholds in order, each client's own requests and a share of the ring fit one queue, the servers' threshold above their share of the ring: a reachable stuck state with nothing lost, requests on the link and the receive ring full |
| `RingLimits.RingTooSmallExamples` | src/common.h:139 | two such configurations with the budget of 1024: five clients with five servers waiting for 512 of 2048 buffers each, and one client with two servers waiting for 342 messages of three packets |
| `RingLimits.LateMarkStopsServer` | src/dispatcher_impl/roce/roce_dispatcher_dataplane.cc:142-194 | one APP_OWNED written over a FREE stops the server's ring for good: whatever follows, fewer packets than the ring is deep arrive after the packet in the lost buffer |
| `RingLimits.LateMarkStopsClient` | src/dispatcher_impl/roce/roce_dispatcher_dataplane.cc:142-194 | the same on the client |
| `Worker.Worker.ApplyMbufs` | src/workspace.h:102-111 | the batch is granted exactly when the budget covers it, and then taken from this workload's budget and no other |
| `Worker.Worker.GeneratePkts` | src/workspace.h:138-170 | the tx queue gains the first buffers that fit, the others are released and counted |
| `Worker.Worker.EnqueueOrDrop` | src/ws_impl/msg_handlers.cc:212-220 | the same for any list of buffers |
| `Worker.Worker.DequeueBatch` | src/workspace.h:220-226 | the dequeues after one size read all find a buffer |
| `Worker.Worker.AppHandlerServer` | src/workspace.h:186-241 | the messages counted are all whole ones in the queue; nothing below the batch threshold; else exactly their packets are taken, as many buffers as their responses have packets carry responses, every other buffer is released exactly once |
| `Worker.Worker.Respond` | src/ws_impl/msg_handlers.cc:212-224 | responses first, surplus request buffers released |
| `Worker.Worker.AppHandlerClient` | src/workspace.h:354-360 | the messages counted are all whole ones in the queue; at the threshold each returns one unit of budget and its buffers are released |
| `Worker.KeptIsPrefix` | src/ws_impl/msg_handlers.cc:212-220 | what a full queue turns away is exactly what comes after the room is used up |
| `Worker.TakenIs` | src/ws_impl/msg_handlers.cc:212-220 | everything offered is taken, or the queue is full |
| `FlowWorkers.ApplyMbufs` | src/workspace.h:102-111 | the phase on the object is the closed loop's Apply step exactly when the budget covers the batch, and keeps object and loop in step |
| `FlowWorkers.GeneratePkts` | src/workspace.h:138-170 | the same for generating, with the packets dropped |
| `FlowWorkers.HandleClient` | src/workspace.h:354-360 | the client's handler is a Finish step of all whole messages exactly when they reach the threshold |
| `FlowWorkers.HandleServer` | src/workspace.h:186-241 | the server's handler is a Serve step of all whole messages exactly when they reach the threshold |
| `CollectTx.Collector.Collect` | src/dispatcher_impl/dpdk/dpdk_dispatcher_dataplane.cc:51-77 | while workers keep appending: the ring gains a prefix of each visited queue in visiting order and never overflows, each queue is visited at most once, one size read decides each chunk, the call ends with all visited or the ring full, and every waiting queue was served or is nearer to its turn |
| `CollectTx.ToldAt` | src/dispatcher_impl/dpdk/dpdk_dispatcher_dataplane.cc:58-64 | a queue read to be below the threshold gives nothing, any other all that was read or all that the ring has room for; a read shows at least what the queue held before the call |
| `CollectTx.Collector.ServeWithin` | src/dispatcher_impl/dpdk/dpdk_dispatcher_dataplane.cc:51-77 | a queue at or over the threshold is served within as many calls as there are queues, if each finds room |
| `CollectTx.OneChunkEach` | src/dispatcher_impl/dpdk/dpdk_dispatcher_dataplane.cc:55-72 | each queue loses exactly its own chunk |
| `CollectTx.Collector.VisitQueue` | src/dispatcher_impl/dpdk/dpdk_dispatcher_dataplane.cc:55-74 | one turn: a single size read decides between nothing, all of it, and what the ring has room for |
| `CollectTx.Collector.TakeFrom` | src/dispatcher_impl/dpdk/dpdk_dispatcher_dataplane.cc:65-70 | the dequeues after the size read, with appends in between |
| `CollectTx.Collector.TxFlush` | src/dispatcher_impl/dpdk/dpdk_dispatcher_dataplane.cc:229-244 | all packets are sent in order, once, however many the NIC takes per burst |
| `CollectTx.Collector.CollectQuiet` | src/dispatcher_impl/roce/roce_dispatcher_dataplane.cc:51-71 | the RoCE collector with quiet workers ends with the ring full or every queue empty |
| `CollectTx.Collector.CollectRoce` | src/dispatcher_impl/roce/roce_dispatcher_dataplane.cc:51-71 | the RoCE collector while workers append, when the ring holds all packets that there can be, or has room for all that the queues can hold: no overflow, and a chunk of each visited queue in order |
| `CollectTx.ToldTwiceAt` | src/dispatcher_impl/roce/roce_dispatcher_dataplane.cc:58-59 | each chunk is the rest of the ring if the first read exceeds it, and the second read otherwise |
| `CollectTx.FullQueuesIs` | src/dispatcher_impl/roce/roce_dispatcher_dataplane.cc:51-71 | the room for n full queues is n times the capacity |
| `CollectTx.Collector.VisitRoce` | src/dispatcher_impl/roce/roce_dispatcher_dataplane.cc:56-67 | one RoCE turn with workers appending before, between and after the two size reads: an overflowing batch means a queue that fitted at first |
| `CollectTx.RoceVisitFitsIff` | src/dispatcher_impl/roce/roce_dispatcher_dataplane.cc:58-63 | a RoCE visit that finds room stays within the ring under every schedule of the worker exactly when the queue already holds more than the rest of the ring or its capacity is at most that |
| `CollectTx.RoceVisitsFitIff` | src/dispatcher_impl/roce/roce_dispatcher_dataplane.cc:58-63 | whatever the queue holds at first: exactly when its capacity is at most the rest of the ring |
| `CollectTx.FreshCollectorOverflows` | src/dispatcher_impl/roce/roce_dispatcher_dataplane.cc:58-63 | for the component alone, with producers that nothing else restrains: with 4095 queue places and 2048 ring entries the very first visit can write past the ring; in which builds that can happen is said by CollectBounds |
| `CollectBounds.ServerSupply` | src/dispatcher_impl/roce/roce_dispatcher_dataplane.cc:51-71 | in every reachable state of the server, the workers' tx queues and the dispatcher's array together hold at most as many packets as the receive ring has entries |
| `CollectBounds.ServerBatchFits` | src/dispatcher_impl/roce/roce_dispatcher_dataplane.cc:58-63 | so on a server whose array is as large as the receive ring no batch overflows, whatever the first size read was |
| `CollectBounds.ClientSupply` | src/util/rule_table.h:24-38 | over every run of the loop a client's tx queues and arrays together hold at most what the budget stands for |
| `CollectBounds.ClientBatchFits` | src/dispatcher_impl/roce/roce_dispatcher_dataplane.cc:58-63 | so on a client whose budget stands for no more packets than the array holds no batch overflows |
| `CollectBounds.ClientCanOverflowIff` | src/dispatcher_impl/roce/roce_dispatcher_dataplane.cc:58-63 | one worker, whole batches in the budget, queue larger than the array: some run of the loop reaches a state in which the double read overflows exactly when the budget stands for more packets than the array holds |
| `CollectBounds.ShippedClientFits` | src/common.h:139 | with the budget of 1024 and an array of 2048: never with one packet per message, and in some run with nine |
| `DpdkDispatch.DispatchRxPkts` | src/dispatcher_impl/dpdk/dpdk_dispatcher_dataplane.cc:147-183 | a packet is handed over exactly when it is no ARP packet and no queue was full up to it; freed are those from the number handed over on |
| `DpdkDispatch.SomePacketTwiceIff` | src/dispatcher_impl/dpdk/dpdk_dispatcher_dataplane.cc:157-179 | some packet is both handed over and freed exactly when a packet handed over has an ARP packet before it |
| `DpdkDispatch.LeakedIffEarlyArp` | src/dispatcher_impl/dpdk/dpdk_dispatcher_dataplane.cc:157-179 | packet by packet: neither handed over nor freed are exactly the ARP packets before the place where freeing starts |
| `DpdkDispatch.SomePacketLeakedIff` | src/dispatcher_impl/dpdk/dpdk_dispatcher_dataplane.cc:157-179 | some packet is leaked exactly when a packet handed over has an ARP packet before it: the batches and queues that leak are those that free in use |
| `DpdkDispatch.ArpFirst` | src/dispatcher_impl/dpdk/dpdk_dispatcher_dataplane.cc:157-179 | an ARP packet and another one: the second is handed over and freed, the first is leaked |
| `DpdkDispatch.WithoutArp` | src/dispatcher_impl/dpdk/dpdk_dispatcher_dataplane.cc:147-183 | without ARP packets a prefix is handed over up to the first full queue, and exactly the rest is freed |
| `QpInfo.RoundTripIff` | src/dispatcher_impl/roce/qpinfo.hh:142-209 | deserialize(serialize(q)) restores every field, whatever the object held, exactly when both 32-bit numbers are below 2^31 and the names are free of ';' and ':' |
| `QpInfo.PortableIsRestored` | src/dispatcher_impl/roce/qpinfo.hh:142-209 | the direction that restores |
| `QpInfo.LargeNumbersThrow` | src/dispatcher_impl/roce/qpinfo.hh:176-198 | a queue-pair number or MTU from 2^31 on makes stoi throw |
| `QpInfo.DirtyNamesDoNotReturn` | src/dispatcher_impl/roce/qpinfo.hh:170-204 | a name with a separator never comes back, wherever it stands |
| `QpInfo.TokensInTwo` | src/dispatcher_impl/roce/qpinfo.hh:166-174 | whatever the names, the first six tokens are the fields written |
| `QpInfo.FillDecs` | src/dispatcher_impl/roce/qpinfo.hh:180-196 | the comma lists, with their trailing commas, fill the arrays exactly |
| `QpInfo.FillIs` | src/dispatcher_impl/roce/qpinfo.hh:176-196 | any list of numbers fills the array from its start, cut to bytes; further numbers are dropped |
| `QpInfo.UnknownKeysAreIgnored` | src/dispatcher_impl/roce/qpinfo.hh:166-209 | a token under any other key is ignored, wherever it stands |
| `QpInfo.CastsKeepLowBits` | src/dispatcher_impl/roce/qpinfo.hh:175-205 | the casts take off whole multiples of the field's range |
| `QpInfo.SerializeInTwo` | src/dispatcher_impl/roce/qpinfo.hh:142-164 | the text in the order written: six number fields, then the names and the flag |
| `QueuePair.QueuePair.constructor` | src/dispatcher_impl/roce/qpinfo.hh:30-51 | the given or a zeroed gid, a zeroed mac address, names cut to 63 characters |
| `QueuePair.QueuePair.Serialize` | src/dispatcher_impl/roce/qpinfo.hh:142-164 | the text built piece by piece is the specified one |
| `QueuePair.QueuePair.Deserialize` | src/dispatcher_impl/roce/qpinfo.hh:166-209 | the fields assigned token by token, and what is left assigned when stoi throws |
| `QueuePair.QueuePair.FillBytes` | src/dispatcher_impl/roce/qpinfo.hh:180-186 | one list loop: stops at the end of the array or of the text |
| `Text.StoiOfDec` | src/dispatcher_impl/roce/qpinfo.hh:146 | a printed number is read back if it fits an int, and throws otherwise |
| `Text.StoiReads` | src/dispatcher_impl/roce/qpinfo.hh:146 | white space, a sign, a printed number and a rest that does not go on with a digit: the signed number is read, or stoi throws if it does not fit an int |
| `Text.StoiNeedsDigit` | src/dispatcher_impl/roce/qpinfo.hh:146 | without a digit after white space and sign stoi throws |
| `Text.TokensOfClosed` | src/dispatcher_impl/roce/qpinfo.hh:166-170 | getline returns the pieces that were each followed by the delimiter |
| `ConfigFile.FileRoundTrip` | toolchain/config_parser.py:37-152 | what was loaded from any lines, once written back, loads to the same workloads in the same order exactly when no application group is empty |
| `ConfigFile.LineRoundTrip` | toolchain/config_parser.py:58-92 | one workload line: restored, or an exception when a group is empty |
| `ConfigFile.LoadWorkloadIs` | toolchain/config_parser.py:58-92 | what every loaded entry looks like |
| `ConfigFile.BackwardRangeIsEmpty` | toolchain/config_parser.py:74-79 | a range written backwards is accepted as an empty group |
| `ConfigFile.RangeIsSpelledOut` | toolchain/config_parser.py:74-79 | a range a-b is the group a, a + 1, up to b |
| `ConfigFile.SkippedAnywhere` | toolchain/config_parser.py:40-56 | comments, blank lines and lines with one colon change no workload, wherever they stand |
| `ConfigFile.MalformedAnywhere` | toolchain/config_parser.py:43-64 | any other line without a colon, or with another first value than workload, ends the loading |
| `ConfigFile.LaterLineReplaces` | toolchain/config_parser.py:65-92 | a second line for a workload replaces the first in its place; a new workload goes to the end |
| `ConfigFile.Config.LoadConfig` | toolchain/config_parser.py:37-92 | the loading loop computes the specified dictionary, or fails exactly when it does |
| `ConfigFile.Config.ParseAppGroup` | toolchain/config_parser.py:74-84 | a-b ranges and lists |
| `ConfigFile.Config.AppendRange` | toolchain/config_parser.py:76-78 | the ids of a range |
| `ConfigFile.Config.WriteBackLines` | toolchain/config_parser.py:132-140 | one line per workload, in dictionary order |
| `ConfigFile.Config.VerifyTunableParas` | toolchain/config_parser.py:98-120 | accepts exactly when the core counts match and every application group has one dispatcher core |
| `ConfigFile.CoresAreCounted` | toolchain/config_parser.py:98-120 | the two sums compared are the numbers of cores in the application groups and in the dispatcher groups |
| `ConfigFile.QueuePerGroup` | toolchain/config_parser.py:109-119 | a verified configuration has as many dispatcher queues as application groups |
| `UserConfig.TunedConfigIsReadBack` | toolchain/config_parser.py:37-140 | end to end: what was loaded from any lines without an empty group and passed the verifier, with ids in range and every worker assigned once, is written so that the C++ reader builds the same groups |
| `UserConfig.FileReadsTheSame` | src/config.cc:10-96 | for files whose workloads the tuner's verifier accepts, with ids in range and each worker assigned once, the C++ reader builds the same groups, dispatchers and remote dispatchers, and enters every worker under its workload and group |
| `UserConfig.DatapathReadsTheSame` | src/config.cc:10-96 | the same for one line on top of any maps |
| `UserConfig.GroupIndexIsValid` | src/ws_impl/workspace.cc:53-56 | in a tuned configuration that was loaded, written and read back, the look-up of a worker's dispatcher by its group index is defined, and gives the dispatcher that the file gives the worker's group |
| `UserConfig.ReadGroupsIs` | src/config.cc:42-84 | the group loop enters exactly the listed workspaces, with the index of their group |
| `Refusals.AssignIff` | src/config.cc:56-83 | a group is refused exactly when one of its workspaces is taken or stands in it twice |
| `Refusals.ReadGroupsIff` | src/config.cc:42-84 | a workload's groups are refused exactly when one of their workspaces is taken or stands twice |
| `Refusals.FileIsReadIff` | src/config.cc:10-96 | a file of workloads acceptable one by one is read to its end exactly when no workspace is assigned twice |
| `Refusals.DoubleAssignmentIsRefused` | src/config.cc:56-83 | and so refused exactly when some workspace stands in two places of the application groups |
| `Refusals.MalformedIsSkipped` | src/config.cc:48-55 | a range that does not split in two is skipped and takes no group index |
| `Refusals.RangeIsRead` | src/config.cc:46-66 | a range a-b names the workspaces a, a + 1, up to b |
| `Refusals.WsIdIff` | src/config.cc:72-76 | a printed id is cut to a byte before the range check |
| `Refusals.ElsewhereAnywhere` | src/config.h:109-145 | comments, lines of one piece, and lines with another key and no blank piece have no effect on the workloads, wherever they stand in the file |
| `Refusals.BlankPieceIsRefused` | src/config.h:124-161 | any other line with a blank piece makes trim throw |
| `UserConfig.ReadValues` | src/config.h:147-161 | splitting at colons and trimming gives the six values written |
| `UserConfig.UserConfig.ReadWorkload` | src/config.cc:10-96 | the method computes the specified maps, or fails exactly when a check or stoi does |
| `UserConfig.UserConfig.Load` | src/config.h:109-145 | the loop over the lines of a file computes the specified maps, or fails exactly when a line does |
| `UserConfig.UserConfig.ReadAppGroups` | src/config.cc:42-84 | the loop over the groups of the fourth value |
| `UserConfig.UserConfig.AssignGroup` | src/config.cc:60-82 | each workspace of a group, refused if already assigned |
| `Pipeline.TypedIffHasWorkload` | src/datapath_pipeline.h:190-264 | a workspace's type is non-zero exactly when get_workload_type is valid |
| `Pipeline.DatapathPipeline.CountThreads` | src/main.cc:44-52 | the barrier's size is the number of workspaces whose thread runs and waits |
| `Launch.LaunchedIff` | src/main.cc:45-58 | for any maps read: a workspace is launched exactly when some workload puts a phase on it and its id is below 16 |
| `Launch.ThreadsAreLaunched` | src/main.cc:44-52 | the number of threads is the number of launched workspaces |
| `Launch.AllLaunchedIff` | src/config.cc:42-93 | for a configuration that was written and read back: every workspace with a phase is launched exactly when none has the id 16 |
| `Launch.SixteenIsNotLaunched` | src/common.h:162-164 | the id 16 passes the range check, and an accepted configuration with its only worker there does not launch it |
| `Pipeline.DistinctIsFirstOccurrences` | src/datapath_pipeline.h:226-233 | the loop is duplicate-free and lists the functions in first-occurrence order |
| `Pipeline.FuncsOnMembers` | src/datapath_pipeline.h:190-233 | it lists exactly the functions of the phases launched on the workspace |
| `Pipeline.LoopOrder` | src/datapath_pipeline.h:291-298 | in every generated loop buffers are applied for before packets are generated, collected before flushed, received before dispatched |
| `Pipeline.LoopHas` | src/datapath_pipeline.h:54-86 | a workspace's loop has a function exactly when some workload names the phase that it belongs to and has the workspace among that phase's workers or dispatchers |
| `Pipeline.TypeOfLoop` | src/datapath_pipeline.h:190-212 | a workspace is a worker, or a dispatcher, exactly when it has such a function |
| `Pipeline.DatapathPipeline.constructor` | src/datapath_pipeline.h:54-86 | one pipe per workload, one phase per name |
| `Pipeline.DatapathPipeline.GenerateWsLoop` | src/datapath_pipeline.h:190-250 | the method computes the specified type and loop |
| `Pipeline.DatapathPipeline.GetWorkloadType` | src/datapath_pipeline.h:252-264 | the first workload with a phase on the workspace |
| `Pipeline.FirstWorkload` | src/datapath_pipeline.h:252-264 | the workload is the first that has a phase on the workspace, and there is none if no workload has |
| `Pipeline.OnlyPhasesOnMatter` | src/datapath_pipeline.h:190-250 | a workspace's loop and type depend only on the phases launched on it |
| `Pipeline.ConfigIsMade` | src/datapath_pipeline.h:137-140 | every phase carries the function list of its type |
| `RecvRing.WithLengthsAt` | src/dispatcher_impl/roce/roce_dispatcher_dataplane.cc:158-160 | each completion's byte length lands on its own buffer |
| `RecvRing.WithLengthsElsewhere` | src/dispatcher_impl/roce/roce_dispatcher_dataplane.cc:158-160 | no other length changes |
| `Pipeline.NicPhasesVanish` | src/datapath_pipeline.h:75-78 | NIC phases are launched nowhere and change no loop |
| `Pipeline.MisspeltNamesAreIgnored` | src/datapath_pipeline.h:61-86 | a phase name that the map does not know changes nothing: every workspace gets the loop and the type that it has when the name is left out of the configuration |
| `Pipeline.NicPhasesRunNowhere` | src/datapath_pipeline.h:203-204 | no workspace ever gets the NIC_OFFLOAD bit |

## Left out

- ibverbs and DPDK calls, device and port set-up, flow rules and the management sockets: foreign calls; only the completion oracle is kept.
- Packet headers and payloads: workload types and byte lengths are parameters of the methods.
- `OneStage` code paths: a measuring mode that breaks the queue discipline on purpose.
- `ApplyNewMbuf` true on the server: its buffers go back to the allocator, which `HugeAlloc.FreeBuf` covers.
- `reserve_hugepages` and `alloc_raw`: no caller adds memory after start-up, and shared-memory calls are foreign.
- Timing, CPU frequency, NUMA binding, statistics, logging and printing: measurement only.
- `ring_buffer.h`, `share_mem.h`, `kv.h` and the tuner's process control: not on the datapath.
- Weak memory: queue fields, buffer states and shared counters are read and written in program order.
- Bit widths of heads, counts and ids that cannot reach their limits; `select_idx` and `generation` are unbounded.
- Two workers freeing into one allocator at once: the allocator is sequential.
- Pointer identity: a receive-ring buffer is its ring index, a block of memory its offset and size.
- `tx_burst` on a client, which frees into the allocator instead of writing FREE: the model writes FREE in both cases.
- `kRxMsgHandler_Empty`, which returns before answering or releasing anything.
- BufferLifecycle.StepTransfers: polls, posts and dispatches move one buffer at a time, and the repost loop's read and write of FREE are one step; only the dispatcher writes POSTED, and no one else writes a FREE buffer's state.
- RecvRing.RecvRing.DispatchRxPkts: worker queues are bounded sequences here, which module Spsc justifies; a type without routes would divide by zero in `rr_select` and is excluded.
- Worker.Worker.AppHandlerServer: the worker has both queues to itself for the phase; what the dispatcher can do meanwhile is the subject of Spsc and BufferLifecycle.
- FlowTheorems.DeliveringLoopNeverDeadlocks: the bound suffices and is not necessary. Which smaller budgets can stick depends on how batch sizes combine (one message of slack can be unreachable), so the exact statements are about states (`StuckIffAllBelow`) and about thresholds out of reach (`NoMessageEverCompletes`).
- Dispatchers.NeverDeadlocks: its bound suffices and is not necessary, for the same reason.
- RingTheorems.NeverDeadlocks: its bounds suffice and are not necessary, for the same reason; one workload type, and one pair of dispatchers: a RoCE dispatcher has a single queue pair, connected to the dispatcher of the same workspace id (`src/dispatcher_impl/roce/roce_dispatcher.cc:195-213`), so several groups are separate loops; `ApplyNewMbuf` false, so at most as many response as request packets; a poll misses the completions of at most the last `lag` packets delivered; packets that RoCE's UD mode loses for want of a buffer count as lost.
- RingFlow.RunRefines: `apply_mbufs` never waits for memory in this machine, and taking the buffers is one step with generating; `PoolAndSendRingsSuffice` gives the pool for which that holds.
- RingFlow.StepAgrees: a late mark of APP_OWNED can hit the packet dealt out last whenever its buffer is FREE, which allows more than the threads of LateMark can do.
- FlowControl.StepConserves: queues are counted, not ordered; RingFlow, SendRing, RecvRing and Spsc keep the order.
- CollectTx.Collector.CollectQuiet: the special case of quiet workers, where the call also empties every queue that fits; with workers appending, whole RoCE calls are proved by `CollectRoce`, for rings that hold all packets that there can be or have room for all queues, and single visits exactly by `RoceVisitFitsIff`.
- CollectTx.FreshCollectorOverflows: nothing but the queue's capacity restrains the worker here; CollectBounds says in which systems it is restrained enough.
- CollectBounds.ClientCanOverflowIff: one worker; several workers are bounded by `ClientBatchFits`, and the appends between the two reads come before the visit in the loop's runs.
- IterationTheorems.NeverStuck: measuring always ends by its timer, and starting threads, registration and the waits at start-up are not modelled.
- ConfigFile.FileRoundTrip: lines with one colon (numbers, addresses) and comments are skipped; `device_name` is dropped by the Python side.
- UserConfig.FileReadsTheSame: requires phase texts that are not blank, since `trim` throws on blank text; a blank line, on which the C++ reader reads `line[npos]`, is skipped here, and what the other keys of `load` set is left out.
- Pipeline.DatapathPipeline.constructor: the three maps of a workload have the same keys, as the reader builds them.
- `set_dispatcher_config` and `register_ws`: map look-ups under a mutex with no property of their own.
