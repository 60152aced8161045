# Verification of Cornserve's data plane, registries and resource bookkeeping

Dafny models of the parts of Cornserve whose correctness depends on the order of events, with proofs for
all inputs, all runs and all interleavings. `dafny verify dfyconfig.toml` checks everything. `ModArithmetic`, `Sequences` and
`Options` hold what other modules share.

## What is modelled

**Shared-memory broadcast ring** (`ShmBroadcast`, `ShmBroadcastTheorems`, `ShmRingBuffer`). One writer
and any number of readers share chunks and one flag byte for each of them and chunk, without locks. `ShmBroadcast` is a
state machine whose steps access one byte of metadata, under sequentially consistent memory; messages that do not fit
travel on a socket. `ShmRingBuffer` is the same code on one flat byte array and refines the state machine.

**Tensor sidecar.** `ShmManager` is the slot allocator, the shards of a buffer, and the condition on which callers wait
for room. `ChunkTransfer`, `ChunkTransferTheorems`, `ChunkHandlers` and `ChunkTransferRun` are a sharded chunk on its way to
other nodes: the sending group's calls, one link and one receiver for each destination, each step being the code between two
awaits; the handlers work on arrays, and any schedule of them is a run of the state machine that the theorems are about.
`IntraNode`, `IntraNodeProgress`, `SavedBuffers`, `IntraNodeRun` and `IntraNodeSlab` are chunks shared in place on one node, their reference
counts and their slots, any number of chunks on one slab; single copy is a group of one rank. `ReceiveLedger` is the receiver's entry for a request, with the event that every `receive` waits on.
`SlabLayout` is where the slabs, slots and handles lie in the node's file.

**Task registry** (`TaskRegistry`, `TaskRegistryLoader`). Task classes and execution descriptors arrive in any order.
Importing a module succeeds when all its transitive imports are on disk. Received definitions and descriptors are named
sets, and each table of the registries is proved to be a function of these sets.

**Eric's scheduler** (`EricScheduler`, `EricEngine`). The request queue, batching and completion, with a log of what has
arrived, run and been reported over a whole run.

**Graph dispatch.** `DispatcherTraversal` is the search for forwards in nested inputs and outputs, `DispatcherEvents` what a sequence of
invocations makes and uses, and `DispatcherWiring` connects them on real shared list objects. `TaskContext` records and replays programs that
may change the objects they hold. `MllmEncoders` compares coalesced and separate encoder calls. `LineReader` is the
incremental reader of streamed lines.

**Allocation and lifecycle.** `GatewayTasks` is the reference-counted table of deployed tasks with its rollback,
`ExecutorPacking` the greedy division of a node's GPUs, and `ClusterResource` the allocation of GPUs to owners.

## Where the code does not keep what it seems to promise

- A sharded chunk with fewer elements than the group has ranks is never freed by the sender and never done at a receiver:
  calls with an empty shard return before they count as sent (`python/cornserve/services/sidecar/sender.py:433-438`). Nor is one whose
  size the slab refuses, because it is no multiple of the slot size, say: the first call raises in `_allocate` before it sets the
  malloc event, and all other calls wait for ever (`ChunkTransferTheorems.RefusedWaitsForever`). `ChunkTransferTheorems.QuiescentIsComplete`
  says that these are the only cases.
- On one node the same early return skips the registration of the reference count, and every unlink is refused, exactly if it is the
  first call's shard that is empty (`IntraNode.CountedIffFirstHasData`). Some order of the calls leads there exactly for tensors with
  fewer elements than ranks, of a size that the slab accepts (`IntraNode.SomeUnlinkRefusedIff`, `IntraNode.RefusedUnlinkExample`).
- A `receive` blocks although its chunk is there exactly when another one has looked for its own in vain since the last arrival or
  close (`ReceiveLedger.ReadyButBlocked`). A close ends a wait with end-of-stream exactly if the number that it declares is not zero and
  not above the chunk that is waited for (`ReceiveLedger.CloseEndsWaitIff`). So closing a stream with zero chunks ends nobody's wait
  (`ReceiveLedger.EmptyStreamHasNoEnd`, `ReceiveLedger.ZeroNeverEnds`), and closing it with a negative number, which nothing refuses,
  ends every one (`ReceiveLedger.NegativeEndsAll`); -1 is taken for the placeholder.
- A task definition whose class is missing or of the wrong kind raises before queued definitions are retried, so what its source
  makes importable stays queued until the next success (`TaskRegistryLoader.StaysUpToDateIff`).
- Some choice of element types makes the slabs of two groups with disjoint ranks overlap exactly when half of `shm_size` is not a
  multiple of 8 (`SlabLayout.SlabsApartIff`, `SlabLayout.SlabsOverlap`).
- Greedy packing may waste GPUs, for instance with sizes 3 and 2 (`ExecutorPacking.GreedyCanWaste`). It is optimal for every number of GPUs
  exactly if it is for those below the sum of the two largest sizes (`ExecutorPacking.BestIffBestBelow`), and always if each profiled
  size divides the next larger one (`ExecutorPacking.GreedyIsBest`).
- A negative number of GPUs reaches the final assertion of `allocate`, and zero with `must_colocate` and no free node an `IndexError`
  (`ClusterResource.Resource.Allocate`).
- A task whose teardown failed stays in the gateway's table with a counter of zero. Declaring it again makes it READY, although nothing is
  deployed for it after its teardown was requested. That is the only way: a successful declaration adds exactly these entries to those
  that are READY without a deployment, and a release adds none (`GatewayTasks.TaskManager.DeclareUsed`, `GatewayTasks.UnbackedAfter`,
  `GatewayTasks.NoneUnbacked`, `GatewayTasks.FailedTeardownExample`).

## Model

| member | source | states |
|---|---|---|
| ShmBroadcastTheorems.BroadcastIsPrefix | python/cornserve/task_executors/eric/distributed/shm_broadcast.py:309-447 | In every interleaving of the writer and the readers, one flag or data byte at a time, what each reader has returned is a prefix of what was enqueued: nothing lost, repeated, reordered or torn, oversized messages included |
| ShmBroadcastTheorems.PublishedIsEnqueued | python/cornserve/task_executors/eric/distributed/shm_broadcast.py:410-427 | The published messages are the enqueued ones in order, except that the call in progress or a call that timed out may be missing |
| ShmBroadcastTheorems.CallsAreAsked | python/cornserve/task_executors/eric/distributed/shm_broadcast.py:429-447 | In every run the messages that a reader has returned, and a call that is under way, are as many as its dequeue calls that have not timed out |
| ShmBroadcastTheorems.NeverInSameChunk | python/cornserve/task_executors/eric/distributed/shm_broadcast.py:345-362 | The writer and a reader are never inside the same chunk |
| ShmBroadcastTheorems.SocketBacklog | python/cornserve/task_executors/eric/distributed/shm_broadcast.py:419-427 | What a reader has yet to receive from its socket, counting a message that is just being sent, are exactly the oversized ones among the messages that it has not returned, in order; never more than max_chunks + 1 |
| ShmBroadcastTheorems.SocketHasMisfits | python/cornserve/task_executors/eric/distributed/shm_broadcast.py:414-424 | Only messages whose serialisation does not fit into a chunk beside its first byte go over the socket |
| ShmBroadcastTheorems.BlockedReaderHasAll | python/cornserve/task_executors/eric/distributed/shm_broadcast.py:370-398 | A reader that finds nothing to read has returned every published message, or lacks only the last one, an oversized message that the writer is just sending |
| ShmBroadcastTheorems.NoDeadlock | python/cornserve/task_executors/eric/distributed/shm_broadcast.py:315-408 | Whenever the writer waits for room, some reader can go on, so no reachable state is stuck |
| ShmBroadcastTheorems.EffectiveRunsEnd | python/cornserve/task_executors/eric/distributed/shm_broadcast.py:315-408 | Runs without idle polling are finite: the work of a state bounds their length |
| ShmBroadcastTheorems.QuiescentAnswersAll | python/cornserve/task_executors/eric/distributed/shm_broadcast.py:429-447 | Where such a run ends, a reader with n calls that have not timed out has returned exactly the first n messages, or all that were published; its calls have all returned unless it has every message |
| ShmBroadcastTheorems.QuiescentPublishesAll | python/cornserve/task_executors/eric/distributed/shm_broadcast.py:410-427 | There everything that was enqueued without a timeout is published, except the last message if some reader stopped calling max_chunks messages ago |
| ShmBroadcastTheorems.QuiescentIsComplete | python/cornserve/task_executors/eric/distributed/shm_broadcast.py:410-447 | Where such a run ends with every reader still asking, the enqueue has returned and every reader has every message |
| ShmBroadcast.ReadableIffBehind | python/cornserve/task_executors/eric/distributed/shm_broadcast.py:371-374 | The flags of reader i's next slot test readable exactly when it has read fewer messages than were published |
| ShmBroadcast.WritableIffDrained | python/cornserve/task_executors/eric/distributed/shm_broadcast.py:316-319 | The flags of the writer's next slot test writable exactly when every reader has read the message that the slot still holds |
| ShmBroadcast.WriterKeeps | python/cornserve/task_executors/eric/distributed/shm_broadcast.py:315-362 | Every step of the writer keeps the invariant, which ties the flag bytes to plain message counters |
| ShmBroadcast.ReaderKeeps | python/cornserve/task_executors/eric/distributed/shm_broadcast.py:370-408 | Every step of a reader keeps it |
| ShmBroadcast.ClearKeeps | python/cornserve/task_executors/eric/distributed/shm_broadcast.py:345-349 | Clearing the written flag and resetting the read flags before setting the written one: no reader takes a slot in between for a fresh message |
| ShmBroadcast.PublishKeeps | python/cornserve/task_executors/eric/distributed/shm_broadcast.py:352-361 | Setting the written flag last publishes exactly the message that was filled in |
| ShmBroadcast.LoadedIsSent | python/cornserve/task_executors/eric/distributed/shm_broadcast.py:437-443 | A chunk that a reader loads holds the next message it has not returned |
| ShmBroadcast.SocketPairs | python/cornserve/task_executors/eric/distributed/shm_broadcast.py:422-446 | The k-th overflow flag a reader meets belongs to the k-th message on its socket |
| ShmBroadcast.SlotIsMod | python/cornserve/task_executors/eric/distributed/shm_broadcast.py:361-407 | The k-th message lives in slot k mod max_chunks for the writer and every reader, lap after lap |
| ShmBroadcast.NextKeeps | python/cornserve/task_executors/eric/distributed/shm_broadcast.py:309-447 | The invariant survives any action, timeouts of either side included |
| ShmRingBuffer.RowsPoke | python/cornserve/task_executors/eric/distributed/shm_broadcast.py:107-178 | A write at a data or metadata address of the flat shared memory changes that byte of that chunk and no other |
| ShmRingBuffer.MessageQueues.NewMemory | python/cornserve/task_executors/eric/distributed/shm_broadcast.py:107-121 | The memory is laid out as data chunks followed by metadata and starts with zeroed metadata |
| ShmRingBuffer.MessageQueues.WriterAct | python/cornserve/task_executors/eric/distributed/shm_broadcast.py:309-427 | The writer's code on the flat memory takes the steps of the state machine |
| ShmRingBuffer.MessageQueues.ReaderAct | python/cornserve/task_executors/eric/distributed/shm_broadcast.py:364-447 | So does a reader's |
| ShmRingBuffer.MessageQueues.Timeout | python/cornserve/task_executors/eric/distributed/shm_broadcast.py:336-338 | Giving up leaves the memory alone |
| ShmRingBuffer.MessageQueues.Execute | python/cornserve/task_executors/eric/distributed/shm_broadcast.py:309-447 | Any schedule of steps on the memory is a run of the state machine: each reader has returned a prefix of what is published, one message for each call that has not timed out and is not under way, and what is published is what was enqueued |
| ShmManager.SharedMemoryManager.constructor | python/cornserve/services/sidecar/shm_manager.py:112-125 | A new slab has shm_size // slot_size slots, all free |
| ShmManager.SharedMemoryManager.Allocate | python/cornserve/services/sidecar/shm_manager.py:127-154 | Refuses exactly the sizes that are too large, smaller than a slot or no multiple of it; otherwise returns the lowest window of enough free slots, and none exactly when there is none |
| ShmManager.AcceptedIff | python/cornserve/services/sidecar/shm_manager.py:132-137 | The accepted sizes are exactly those of one slot, two slots and so on, up to all slots of the slab |
| ShmManager.SharedMemoryManager.Free | python/cornserve/services/sidecar/shm_manager.py:156-159 | Gives back exactly the slots of a live buffer |
| ShmManager.SharedMemoryManager.FreeSlots | python/cornserve/services/sidecar/shm_manager.py:161-169 | The used slots are the total size of the live buffers, and free and used slots make up the slab |
| ShmManager.ScanStep | python/cornserve/services/sidecar/shm_manager.py:140-153 | One step of the scan: a run of free slots that is long enough for the first time ends the lowest free window |
| ShmManager.LiveAfterAllocate | python/cornserve/services/sidecar/shm_manager.py:139-151 | An allocation keeps live buffers disjoint and the occupied slots exactly theirs |
| ShmManager.LiveAfterFree | python/cornserve/services/sidecar/shm_manager.py:156-159 | So does freeing one |
| ShmManager.StillNoneFree | python/cornserve/services/sidecar/shm_manager.py:139-154 | Taking slots never makes a free window appear |
| ShmManager.SharedMemoryBuffer.CreateShards | python/cornserve/services/sidecar/shm_manager.py:51-70 | Shards tile the buffer in order, and later ones are shorter by at most one element; sharding twice is refused |
| ShmManager.ShardsTile | python/cornserve/services/sidecar/shm_manager.py:56-59 | The divmod formula for the bounds of a shard tiles the buffer for every size and every number of shards |
| ShmManager.ExactlyOneShard | python/cornserve/services/sidecar/shm_manager.py:55-67 | Every element belongs to exactly one shard |
| ShmManager.SharedMemoryBuffer.MarkShardReady | python/cornserve/services/sidecar/shm_manager.py:72-77 | The buffer becomes ready exactly when its last shard does |
| ShmManager.Pool.Request | python/cornserve/services/sidecar/receiver.py:93-105 | A caller gets the lowest window or waits exactly when there is none |
| ShmManager.Pool.Retry | python/cornserve/services/sidecar/receiver.py:98-105 | A woken caller tries again under the same rule |
| ShmManager.Pool.Free | python/cornserve/services/sidecar/sender.py:117-125 | Freeing wakes every blocked caller; a caller that nobody has woken has no large enough window |
| ShmManager.DrainedPoolWakesAll | python/cornserve/services/sidecar/receiver.py:107-115 | Once every buffer has been freed no caller waits unwoken |
| ChunkTransferTheorems.FreedOnceAllSent | python/cornserve/services/sidecar/sender.py:398-476 | Whatever order the calls come in, the sender allocates once, frees at most once and only after every shard was sent to every destination, and never looks up a missing ledger entry |
| ChunkTransferTheorems.DoneOnceWhole | python/cornserve/services/sidecar/receiver.py:170-242 | Each destination allocates once and marks the chunk done at most once, when all shards have landed and the buffer equals the tensor |
| ChunkTransferTheorems.QuiescentIsComplete | python/cornserve/services/sidecar/sender.py:407-476 | Where nothing can happen any more, the sender's buffer has been freed and every destination is done exactly if the tensor has an element for every rank of the group and a size that the sender's slab does not refuse |
| ChunkTransferTheorems.RefusedNeverStarts | python/cornserve/services/sidecar/sender.py:402-424 | If the slab refuses the size, the first call raises in _allocate: in every run no buffer is allocated or freed, no call gets past the allocation, and the destinations never change |
| ChunkTransferTheorems.RefusedWaitsForever | python/cornserve/services/sidecar/sender.py:419-424 | Then a call that waits for the malloc event goes on waiting whatever happens, because nobody sets the event |
| ChunkTransferTheorems.RefusedAtRest | python/cornserve/services/sidecar/sender.py:402-424 | At rest the first call has raised and all the other ones are waiting |
| ChunkTransferTheorems.RefusedExample | python/cornserve/services/sidecar/shm_manager.py:127-137 | Such a run: two ranks, seven elements and slots of five |
| ChunkTransferTheorems.ShortNeverEnds | python/cornserve/services/sidecar/sender.py:433-438 | With fewer elements than ranks the calls with an empty shard return before they count as sent: the buffer is never freed and no destination is ever done |
| ChunkTransferTheorems.RunsEnd | python/cornserve/services/sidecar/sender.py:398-476 | Every run of the transfer is finite, so it does come to rest |
| ChunkTransferTheorems.NextKeeps | python/cornserve/services/sidecar/receiver.py:170-242 | Every step of either side keeps the joint invariant of sender, links and receivers |
| ChunkTransfer.SenderKeeps | python/cornserve/services/sidecar/sender.py:398-476 | The sender's invariant, with one first call, exact shard flags and one freeing call, survives every step |
| ChunkTransfer.GatheredKeeps | python/cornserve/services/sidecar/sender.py:469-476 | Setting shards_sent under the lock: only the last call removes the ledger entry |
| ChunkTransfer.CopyKeeps | python/cornserve/services/sidecar/sender.py:440-448 | Copying one shard leaves the shards that were copied before intact |
| ChunkTransfer.DestKeeps | python/cornserve/services/sidecar/receiver.py:170-242 | A destination's invariant survives every step of its handlers and receive tasks |
| ChunkTransfer.LandKeeps | python/cornserve/services/sidecar/receiver.py:219-225 | Only the task that lands the last shard sees the buffer ready |
| ChunkTransfer.SenderKeepsDest | python/cornserve/services/sidecar/sender.py:295-343 | A step of the sender keeps what each destination relies on, in particular that a shard on the wire is the tensor's |
| ChunkTransfer.BlitKeeps | python/cornserve/services/sidecar/shm_manager.py:56-66 | Filling one shard's range changes no other shard |
| ChunkTransfer.AllCopied | python/cornserve/services/sidecar/shm_manager.py:55-67 | A buffer that holds every shard is the tensor |
| ChunkTransfer.ShardBounds | python/cornserve/services/sidecar/shm_manager.py:56-59 | With at least one element for each rank every shard has data; with fewer the last one has none |
| ChunkHandlers.ChunkSender.Enter | python/cornserve/services/sidecar/sender.py:398-405 | The critical section that decides which call allocates; like each method below it takes its step of the state machine and keeps the invariant |
| ChunkHandlers.ChunkSender.Allocated | python/cornserve/services/sidecar/sender.py:407-418 | The first call creates the shards, the ledger entry and sets the event |
| ChunkHandlers.ChunkSender.AllocateRaised | python/cornserve/services/sidecar/sender.py:407-409 | When _allocate raises, the call ends and the malloc event stays unset |
| ChunkHandlers.ChunkSender.Resumed | python/cornserve/services/sidecar/sender.py:419-438 | A later call continues with the buffer of the ledger entry |
| ChunkHandlers.ChunkSender.StartShard | python/cornserve/services/sidecar/sender.py:431-438 | An empty shard is marked ready at once and its call ends |
| ChunkHandlers.ChunkSender.CopyAndMark | python/cornserve/services/sidecar/sender.py:440-448 | The copy into the shard, then its flag, then the done event |
| ChunkHandlers.ChunkSender.AfterGather | python/cornserve/services/sidecar/sender.py:469-476 | The flag under sent_lock; the last call deletes the entry and goes on to free |
| ChunkHandlers.ChunkSender.Freed | python/cornserve/services/sidecar/sender.py:473-476 | The end of the last call, once _free has returned |
| ChunkHandlers.ChunkSender.Act | python/cornserve/services/sidecar/sender.py:398-476 | Whichever part of a call comes next takes its step and keeps the invariant, and new memory is all that it touches beside the chunk's own |
| ChunkHandlers.ChunkReceiver.Arrived | python/cornserve/services/sidecar/receiver.py:170-175 | The critical section that decides which handler allocates |
| ChunkHandlers.ChunkReceiver.Reserved | python/cornserve/services/sidecar/receiver.py:177-193 | The first handler creates the shards and the ledger entry |
| ChunkHandlers.ChunkReceiver.Joined | python/cornserve/services/sidecar/receiver.py:194-201 | A later handler goes on with the buffer of the entry, which is there |
| ChunkHandlers.ChunkReceiver.Replied | python/cornserve/services/sidecar/sender.py:333-341 | The sender hands its shard to peer.send once PrepareReceive has returned |
| ChunkHandlers.ChunkReceiver.Completed | python/cornserve/services/sidecar/sender.py:341-343 | The sender's coroutine for the destination ends |
| ChunkHandlers.ChunkReceiver.ShardLanded | python/cornserve/services/sidecar/receiver.py:219-225 | The received bytes go to the shard's range and the shard becomes ready |
| ChunkHandlers.ChunkReceiver.CleanUp | python/cornserve/services/sidecar/receiver.py:226-229 | The malloc event is removed once |
| ChunkHandlers.ChunkReceiver.MarkChunkDone | python/cornserve/services/sidecar/receiver.py:231-242 | When the chunk is marked done its buffer holds the tensor |
| ChunkHandlers.ChunkReceiver.Act | python/cornserve/services/sidecar/receiver.py:170-242 | Whichever part of a handler or receive task comes next takes its step and keeps the invariant |
| ChunkTransferRun.Transfer.Step | python/cornserve/services/sidecar/sender.py:398-476 | One handler of the sender or of any receiver runs, if it can, and no memory of the other parties changes |
| ChunkTransferRun.Transfer.Execute | python/cornserve/services/sidecar/sender.py:398-476 | Any schedule of the handlers of the sender and all receivers takes the memory through a run of the state machine |
| ChunkTransferRun.Transmit | python/cornserve/services/sidecar/sender.py:398-476 | A whole transfer under any schedule: the slots are freed at most once and not before every shard has gone everywhere, a receiver that has marked the chunk done has the tensor in its memory, and at rest both have happened exactly if the tensor has an element for every rank and the slab accepts its size |
| ChunkTransferRun.SenderOutcome | python/cornserve/services/sidecar/sender.py:469-476 | The sender's part of that, for the fields of the sender |
| ChunkTransferRun.ReceiverOutcome | python/cornserve/services/sidecar/receiver.py:219-242 | The receivers' part, for the contents of each one's memory |
| IntraNode.CountedIffFirstHasData | python/cornserve/services/sidecar/sender.py:176-206 | In every run: a destination that has been told of the buffer can rely on it, and its unlink is accepted, if and only if the shard of the first call has data; the buffer holds the whole tensor by then, and it is freed exactly when all have unlinked |
| IntraNode.CountedUntilLastUnlink | python/cornserve/services/sidecar/sender.py:176-206 | So with an element for every rank no unlink is refused and the buffer is kept while a destination has it, whichever call comes first |
| IntraNode.SomeUnlinkRefusedIff | python/cornserve/services/sidecar/sender.py:433-465 | Some schedule ends in a refused unlink if and only if the tensor has fewer elements than the group has ranks, but a size that the slab accepts |
| IntraNode.UnlinkRefusedIff | python/cornserve/services/sidecar/sender.py:190-196 | In every state that satisfies the invariant an unlink is refused exactly if the first call's shard is empty, so that it returned before it registered |
| IntraNode.RefusedUnlinkExample | python/cornserve/services/sidecar/sender.py:433-465 | Two ranks, one element, and the call of the rank without data comes first: the destination is told of the buffer and its unlink is refused |
| IntraNode.ToldIsRegisteredIff | python/cornserve/services/sidecar/sender.py:445-465 | The first call registers in the step that ends its copy, which comes before the done event, exactly if its shard has data |
| IntraNode.ToldIsWhole | python/cornserve/services/sidecar/sender.py:268-288 | A destination is told of the buffer only when it holds every shard |
| IntraNode.FreedIffUnlinked | python/cornserve/services/sidecar/sender.py:193-199 | Freed exactly when all have unlinked |
| IntraNode.NextKeeps | python/cornserve/services/sidecar/sender.py:193-206 | The count equals the number of destinations that still hold the buffer, after every step |
| IntraNodeProgress.RestIsComplete | python/cornserve/services/sidecar/sender.py:268-289 | Where nothing can happen any more but unlinks that are refused, every destination has been told of the buffer and has unlinked and the buffer is freed if the first call has data; if it has none, every destination has been told and its unlink is refused; if the slab refuses the size, nobody is told |
| IntraNodeProgress.AllUnlinked | python/cornserve/services/sidecar/sender.py:454-467 | So with an element for every rank and an accepted size every destination is told and unlinks, and the buffer is freed once |
| IntraNodeProgress.NextAdvances | python/cornserve/services/sidecar/sender.py:176-206 | Every enabled step lowers a measure of the work that is left, except an unlink that is refused |
| IntraNodeProgress.RunsEnd | python/cornserve/services/sidecar/sender.py:176-206 | So every such run is finite |
| SavedBuffers.BufferTable.Allocate | python/cornserve/services/sidecar/sender.py:102-115 | A new buffer is nobody else's, saved or not; ValueError and None come exactly as from the slab |
| SavedBuffers.BufferTable.Register | python/cornserve/services/sidecar/sender.py:544-548 | A buffer is saved with its count before it is sent |
| SavedBuffers.BufferTable.Unlink | python/cornserve/services/sidecar/sender.py:190-196 | An unknown id is refused; a known one loses one reference, and the last one hands over the buffer |
| SavedBuffers.BufferTable.FreeSaved | python/cornserve/services/sidecar/sender.py:196-199 | The last unlink frees that buffer's slots, no other saved buffer's, and takes no other window from the slab |
| IntraNodeRun.SharedChunk.Reserve | python/cornserve/services/sidecar/sender.py:408-418 | The first call goes on exactly if the slab has room for the tensor |
| IntraNodeRun.SharedChunk.Raise | python/cornserve/services/sidecar/sender.py:407-409 | It raises when the slab refuses the size, and changes nothing |
| IntraNodeRun.SharedChunk.CopyStep | python/cornserve/services/sidecar/sender.py:419-465 | A call's other steps on the tables: the first call saves the buffer and its count |
| IntraNodeRun.SharedChunk.Unlinks | python/cornserve/services/sidecar/sender.py:190-196 | unlink on the tables takes the step of the state machine |
| IntraNodeRun.SharedChunk.Frees | python/cornserve/services/sidecar/sender.py:196-199 | The chunk's slots are free after the last unlink |
| IntraNodeRun.SharedChunk.Step | python/cornserve/services/sidecar/sender.py:176-206 | A step takes effect exactly if it is enabled and there is room, and touches no other chunk's entries or window |
| IntraNodeRun.SharedChunk.Execute | python/cornserve/services/sidecar/sender.py:176-206 | Any schedule on the tables and the slab is a run of the state machine over a subsequence of it, and unless an unlink is refused each step of the run takes the chunk closer to its end |
| IntraNodeRun.SharedChunk.EndsComplete | python/cornserve/services/sidecar/sender.py:176-206 | Where no handler can go on, the first call waits for room, or every destination has been told and has unlinked and the slots are freed, with the two exceptions of RestIsComplete |
| IntraNodeRun.SharedChunk.SlotsAreHeld | python/cornserve/services/sidecar/sender.py:176-206 | In each state of such a run the chunk's slots are occupied from its allocation until they are freed, which is not before every destination that was told has unlinked; a told destination reads the whole tensor |
| IntraNodeRun.OtherStillHolds | python/cornserve/services/sidecar/sender.py:196-199 | What a step leaves of another chunk: its entries, its window, and that its window is another one |
| IntraNodeSlab.SharedSlab.Step | python/cornserve/services/sidecar/sender.py:176-206 | With any number of chunks on one slab and one pair of tables, a step of one chunk takes that chunk one step further and leaves the others where they are |
| IntraNodeSlab.SharedSlab.Execute | python/cornserve/services/sidecar/sender.py:176-206 | Any interleaving of the handlers of all chunks is a run of each chunk's own state machine, over its part of a subsequence of the schedule, in which each step takes its chunk closer to its end |
| IntraNodeSlab.SharedSlab.AllEndComplete | python/cornserve/services/sidecar/sender.py:102-125 | If nobody else uses the slab and every chunk has an element for every rank, no call waits for room for ever: where no handler can go on, each chunk of an accepted size has been told to all of its destinations, unlinked by all and freed |
| IntraNodeSlab.SharedSlab.SlotsApart | python/cornserve/services/sidecar/shm_manager.py:139-151 | No two chunks that are allocated and not freed ever share a slot |
| ReceiveLedger.ReturnsAreRight | python/cornserve/services/sidecar/receiver.py:309-354 | A receive returns its own chunk, fully arrived, or end-of-stream for a declared number of chunks that is not zero and not above its id, so a positive one if no negative one was declared; a set event implies a declared number |
| ReceiveLedger.ReadyIffArrived | python/cornserve/services/sidecar/receiver.py:231-242 | In every run a chunk is there exactly if an action took place with which it arrives, as an object, a buffer of the node or with its last shard, and it is known exactly if the receiver was told of it |
| ReceiveLedger.ArrivesOnce | python/cornserve/services/sidecar/receiver.py:170-193 | A chunk can be prepared exactly if it was not before, and its last shard can land exactly if it was prepared and has not arrived |
| ReceiveLedger.ArrivedIsReturned | python/cornserve/services/sidecar/receiver.py:316-354 | Once a chunk has arrived, a receive of it that runs returns it, unless the declared number ends the stream before it; a new receive does so at once if the event is set |
| ReceiveLedger.EarlyCallsAreWoken | python/cornserve/services/sidecar/receiver.py:231-242 | A receive that was waiting when its chunk arrived does not go on waiting |
| ReceiveLedger.ArrivalWakesForGood | python/cornserve/services/sidecar/receiver.py:126-144 | An arrival or a close wakes every waiting receive for good: whatever happens next, the event being cleared included, it can run until it has run |
| ReceiveLedger.AllReadyStays | python/cornserve/services/sidecar/receiver.py:309-354 | Once all chunks of the request are there, the event stays set and no receive waits, old or new |
| ReceiveLedger.AllReadyReturns | python/cornserve/services/sidecar/receiver.py:316-354 | At any later time a receive that runs returns its chunk, or end-of-stream if its id is not below the number, and so does a new one at once |
| ReceiveLedger.ReadyButBlocked | python/cornserve/services/sidecar/receiver.py:309-335 | A new receive of a chunk that is there returns at once exactly if an arrival or a close came after the last receive that looked in vain |
| ReceiveLedger.EventIffSetSince | python/cornserve/services/sidecar/receiver.py:331-341 | In every run the event is set exactly if an arrival or a close came after the last receive that looked in vain |
| ReceiveLedger.ReadyButBlockedExample | python/cornserve/services/sidecar/receiver.py:330-341 | A run in which a receive blocks although its chunk is there |
| ReceiveLedger.CloseEndsWaitIff | python/cornserve/services/sidecar/receiver.py:126-144 | A close ends the wait of a receive with end-of-stream if and only if the number that it declares is not zero and not above the receive's id, whatever happens before the receive runs, except another close; for -1, the placeholder, the number is that of the first chunk that brings another one. Otherwise the receive gets its chunk if it is there and waits on if not |
| ReceiveLedger.NegativeEndsAll | python/cornserve/services/sidecar/receiver.py:317-328 | So a close with a number below -1, which nothing refuses, ends every wait |
| ReceiveLedger.EmptyStreamHasNoEnd | python/cornserve/services/sidecar/receiver.py:317-328 | So closing a stream with zero chunks ends nobody's wait: zero stands for an unknown number |
| ReceiveLedger.ZeroNeverEnds | python/cornserve/services/sidecar/receiver.py:316-328 | While nobody declares another number of chunks than zero, no receive comes to an end of the stream in any run |
| ReceiveLedger.NextKeeps | python/cornserve/services/sidecar/receiver.py:126-354 | The invariant of the ledger entry survives every step |
| ReceiveLedger.Request.PrepareTensorChunk | python/cornserve/services/sidecar/receiver.py:183-191 | A chunk from another node is entered without waking anybody; its number of chunks only replaces the placeholder |
| ReceiveLedger.Request.PrepareReadyChunk | python/cornserve/services/sidecar/receiver.py:256-285 | An object or a tensor of the same node is ready at once and wakes all |
| ReceiveLedger.Request.ChunkLanded | python/cornserve/services/sidecar/receiver.py:231-242 | The last shard makes the chunk ready, so that a receive finds it, and wakes all |
| ReceiveLedger.Request.CloseStream | python/cornserve/services/sidecar/receiver.py:131-144 | Closing sets the number of chunks, whether or not anything has arrived, and wakes all |
| ReceiveLedger.Request.Enter | python/cornserve/services/sidecar/receiver.py:309-316 | A receive creates the placeholder entry if need be and does not suspend when the event is set |
| ReceiveLedger.Request.Attempt | python/cornserve/services/sidecar/receiver.py:316-354 | One pass of the loop: end-of-stream, the chunk, or clear the event and wait |
| SlabLayout.GroupsApart | python/cornserve/services/sidecar/schema.py:172-226 | Buffers of groups with disjoint ranks share no byte, whatever their element types |
| SlabLayout.BuffersOfGroupApart | python/cornserve/services/sidecar/schema.py:188-214 | Within a group, buffers with different slots are apart, and so are the sender's and the receiver's |
| SlabLayout.InFile | python/cornserve/sidecar/utils.py:51-65 | Every buffer lies within the node's file |
| SlabLayout.SamePartitionsIff | python/cornserve/services/sidecar/server.py:193-211 | All choices of element types of 1, 2, 4 or 8 bytes give partitions of the same size exactly if half of shm_size is a multiple of 8 |
| SlabLayout.SlabsApartIff | python/cornserve/services/sidecar/schema.py:172-191 | The slabs of all groups with disjoint ranks, of any element types of 1, 2, 4 or 8 bytes, are apart if and only if half of shm_size is a multiple of 8 |
| SlabLayout.SlabsOverlap | python/cornserve/services/sidecar/schema.py:172-191 | For every other size the slabs of two neighbours with elements of 1 and of 8 bytes overlap |
| SlabLayout.HalvesTile | python/cornserve/services/sidecar/schema.py:188-215 | The sender's slab comes first and the receiver's is all the rest of the group's ranks |
| SlabLayout.ViewsAreAligned | python/cornserve/services/sidecar/schema.py:188-215 | Both slabs start and end at multiples of their element size, so they can be viewed with it |
| SlabLayout.SlabIs | python/cornserve/sidecar/utils.py:47-65 | A group's slab runs from its first rank's partition to its last one's |
| SlabLayout.BufferInSlab | python/cornserve/services/sidecar/shm_manager.py:145-151 | The elements of a window of existing slots lie within the slab |
| SlabLayout.SlotsAdjoin | python/cornserve/services/sidecar/shm_manager.py:145-151 | A slot has the bytes of its elements, the first one starts the slab, and a window starts where the one before it ends |
| SlabLayout.SlotsFill | python/cornserve/services/sidecar/shm_manager.py:112-125 | The slots fit into the slab and leave no room for another one |
| SlabLayout.PartIs | python/cornserve/services/sidecar/server.py:193-211 | Each side gets the whole elements of half of shm_size |
| SlabLayout.HandleRoundTrip | python/cornserve/services/sidecar/shm_manager.py:97-102 | A handle decodes to exactly the buffer it was made from if and only if the reader uses elements of the same size |
| TaskRegistryLoader.Registries.Watch | python/cornserve/services/task_registry/registry.py:471-526 | After any sequence of events without a malformed definition the registered tasks are exactly the received ones whose transitive imports have all been received, the others are queued, and each received descriptor is registered exactly if its task is; with malformed ones the outcome is determined event by event |
| TaskRegistryLoader.StaysUpToDateIff | python/cornserve/services/task_registry/task_class_registry.py:71-93 | An arrival keeps the registries up to date if and only if it does not raise an exception while its source makes queued definitions importable: then the retry is skipped |
| TaskRegistryLoader.MissedRetryExample | python/cornserve/services/task_registry/task_class_registry.py:105-106 | Such a case: the class of an imported module is missing |
| TaskRegistryLoader.StaysUpToDate | python/cornserve/services/task_registry/registry.py:471-526 | So the registries are up to date after every sequence of events without malformed definitions |
| TaskRegistryLoader.SameEventsSameRegistries | python/cornserve/services/task_registry/registry.py:471-526 | The same events in another order leave the same registries |
| TaskRegistryLoader.ArrivedIsUnion | python/cornserve/services/task_registry/registry.py:471-526 | What has arrived is the union over the events |
| TaskRegistryLoader.Registries.HandleObject | python/cornserve/services/task_registry/registry.py:476-526 | One event keeps the registries exact |
| TaskRegistryLoader.Registries.HandleDefinition | python/cornserve/services/task_registry/registry.py:476-502 | A task definition registers what it completes and binds the descriptors of the new unit tasks |
| TaskRegistryLoader.Registries.LoadFromSource | python/cornserve/services/task_registry/task_class_registry.py:59-93 | A new definition is registered, with everything queued that it completes, or queued; a malformed one raises and leaves the queue alone |
| TaskRegistryLoader.Registries.Introduce | python/cornserve/services/task_registry/task_class_registry.py:70-93 | The first attempt finds a module missing exactly if some transitive import has not been received, and raises otherwise exactly if the class does not fit |
| TaskRegistryLoader.Registries.BindPendingTasks | python/cornserve/services/task_registry/task_class_registry.py:151-183 | One pass over the queue is enough, in whatever order it is |
| TaskRegistryLoader.Registries.RetryPending | python/cornserve/services/task_registry/task_class_registry.py:156-182 | A queued definition is registered, and its descriptors bound, exactly if it can be imported now |
| TaskRegistryLoader.Registries.Install | python/cornserve/services/task_registry/task_class_registry.py:95-149 | Importing and validating one definition: it fails exactly if the class is missing, or is no unit task where one is declared, or no task at all; a unit task is registered exactly if its generic arguments are found, and any other task always |
| TaskRegistryLoader.Registries.LoadDescriptor | python/cornserve/services/task_registry/descriptor_registry.py:74-105 | A descriptor is registered if its task is, and queued otherwise |
| TaskRegistryLoader.Registries.BindPendingDescriptor | python/cornserve/services/task_registry/descriptor_registry.py:107-124 | Registering a task binds its queued descriptor and touches no other |
| TaskRegistryLoader.Registries.InstallDescriptor | python/cornserve/services/task_registry/descriptor_registry.py:31-72 | Installing a descriptor makes it the default one of its task; it succeeds exactly if the import does, the class fits, the task is registered and has neither a descriptor of this name nor a default |
| TaskRegistry.Interpreter.WriteAndImport | python/cornserve/services/task_registry/utils.py:41-70 | The source is written first; then the import succeeds exactly if the transitive imports are on disk, and a loaded module is not loaded again |
| TaskRegistry.Interpreter.ImportModule | python/cornserve/services/task_registry/utils.py:69-70 | Importing loads a module after everything it imports, or names a missing one |
| TaskRegistry.ImportableIff | python/cornserve/services/task_registry/utils.py:69-70 | A module can be imported exactly if the sources of the module and of all of its transitive imports are there |
| TaskRegistry.ImportableMonotone | python/cornserve/services/task_registry/utils.py:69-70 | More sources on disk never break an import |
| TaskRegistry.UselessAddition | python/cornserve/services/task_registry/task_class_registry.py:82-93 | A source that cannot be imported itself makes nothing else importable |
| TaskRegistry.ResolvedAdd | python/cornserve/services/task_registry/task_class_registry.py:70-93 | Receiving a definition unresolves nothing, and resolves something only if it can be imported itself |
| TaskRegistry.AllArrived | python/cornserve/services/task_registry/task_class_registry.py:151-183 | Once well-formed definitions have all arrived, every task is registered and every descriptor is its task's default |
| TaskRegistry.DescriptorImportable | python/cornserve/services/task_registry/descriptor_registry.py:83-105 | A descriptor can be imported once its task can |
| EricEngine.Scheduler.Run | python/cornserve/task_executors/eric/engine/core.py:181-233 | Over any sequence of arrivals and steps, what arrived is what ran followed by what is left after one maximal batch at every step that found something waiting, and a request is reported exactly when its last item has run |
| EricEngine.Scheduler.Finish | python/cornserve/task_executors/eric/engine/core.py:184-210 | Without further arrivals the loop empties the queue: everything runs in the batches of Drain, and every request is reported exactly once |
| EricEngine.StepsDrain | python/cornserve/task_executors/eric/engine/core.py:184-233 | Steps without arrivals between them run the batches of Drain one after the other, until nothing waits |
| EricEngine.Scheduler.Step | python/cornserve/task_executors/eric/engine/core.py:212-233 | A step runs the next maximal batch, and the items left to run decrease |
| EricEngine.Scheduler.Schedule | python/cornserve/task_executors/eric/engine/scheduler.py:145-179 | The batch is the longest leading run of one modality and model within the limit; it is never empty |
| EricEngine.Scheduler.Enqueue | python/cornserve/task_executors/eric/engine/scheduler.py:135-139 | A request adds its items at the end |
| EricEngine.ReportedIffRan | python/cornserve/task_executors/eric/engine/scheduler.py:56-65 | In every consistent state the reported requests are exactly those whose items have all run |
| EricScheduler.BatchIsMaximal | python/cornserve/task_executors/eric/engine/scheduler.py:150-170 | The size of a batch is characterised: one modality and model, within the limit, and not extensible |
| EricScheduler.LimitKeptIff | python/cornserve/task_executors/eric/engine/scheduler.py:107-123 | A limit is kept exactly if it is at least one |
| EricScheduler.DrainPartitions | python/cornserve/task_executors/eric/engine/scheduler.py:145-179 | The batches formed one after the other partition the waiting items in order, and each is maximal when it is formed |
| EricScheduler.YieldedIsCap | python/cornserve/task_executors/eric/engine/scheduler.py:107-123 | The generator's running count amounts to capping the leading run; a limit below one caps nothing |
| EricScheduler.MarkDrops | python/cornserve/task_executors/eric/engine/scheduler.py:53-54 | Setting flags removes exactly the flagged items from what waits |
| EricScheduler.RemovalKeepsWaiting | python/cornserve/task_executors/eric/engine/scheduler.py:56-63 | Removing finished requests changes nothing that waits |
| EricEngine.RequestQueue.PeekData | python/cornserve/task_executors/eric/engine/scheduler.py:87-95 | A queue that is not empty always has a waiting item, and this is the first one |
| EricEngine.RequestQueue.IterWaiting | python/cornserve/task_executors/eric/engine/scheduler.py:97-123 | The generator over all requests yields the capped leading run of what waits |
| EricEngine.RequestQueue.MarkDone | python/cornserve/task_executors/eric/engine/scheduler.py:46-65 | Flags the items, and returns and removes exactly the requests among them that have nothing left |
| EricEngine.RequestQueue.Enqueue | python/cornserve/task_executors/eric/engine/scheduler.py:35-39 | A new request has all of its items waiting |
| EricEngine.MarkOutcome | python/cornserve/task_executors/eric/engine/scheduler.py:46-65 | The queue after marking waits for exactly the other items |
| DispatcherWiring.Connect | python/cornserve/services/task_dispatcher/dispatcher.py:231-262 | Fails with ValueError exactly if a forward occurs in an input whose id is in no earlier invocation's output, and with AssertionError exactly if that is not so but an id in an output is in no input; otherwise every forward in an input or output has the ranks of the invocation that produces its id, and all forwards with the id share one list of the ranks of the invocations that consume it, in order, one entry for each place |
| DispatcherEvents.OutcomeMeaning | python/cornserve/services/task_dispatcher/dispatcher.py:231-262 | The two conditions of the loop and of the check after it, in terms of where the forwards occur |
| DispatcherTraversal.Traversal | python/cornserve/services/task_dispatcher/dispatcher.py:64-87 | iter_data_forwards finds the forward at every place of an input or output once, in the order of the items and fields at every level |
| DispatcherTraversal.FoundIffOccurs | python/cornserve/services/task_dispatcher/dispatcher.py:75-87 | A forward is found exactly if it occurs, and in a list, a dict or a model it occurs exactly if it does in one of the items |
| DispatcherEvents.DestinationsAre | python/cornserve/services/task_dispatcher/dispatcher.py:242-249 | The destinations of an id are the ranks of the invocations with a forward of that id in their input, in order, one entry for each place |
| DispatcherEvents.SourcesAre | python/cornserve/services/task_dispatcher/dispatcher.py:253-255 | The source of an id is the ranks of the invocation with a forward of that id in its output, if there is one such place |
| DispatcherWiring.ObjectsAre | python/cornserve/services/task_dispatcher/dispatcher.py:232-255 | The forwards that are wired are those that occur in an input or output of some invocation |
| DispatcherWiring.WireNext | python/cornserve/services/task_dispatcher/dispatcher.py:232-255 | One invocation: its input is wired before its output |
| DispatcherWiring.Wiring.Consume | python/cornserve/services/task_dispatcher/dispatcher.py:236-249 | A consumer is wired exactly if its id was produced; through the shared list this shows in all forwards of the id |
| DispatcherWiring.Wiring.Produce | python/cornserve/services/task_dispatcher/dispatcher.py:253-255 | A producer gets its executor's ranks and is remembered |
| DispatcherWiring.Wiring.Verify | python/cornserve/services/task_dispatcher/dispatcher.py:259-262 | The check passes exactly if every produced id was consumed |
| DispatcherWiring.AppendedOk | python/cornserve/services/task_dispatcher/dispatcher.py:245-249 | Only the producer itself has been seen of an id without a list, so a new list misses nobody |
| TaskContext.CallTask | python/cornserve/task/base.py:296-320 | A composite call whose two runs make the same calls returns what the program makes of the dispatched outputs, with all queues empty; the recorded invocations are those of the first run |
| TaskContext.RunReplay | python/cornserve/task/base.py:770-799 | The k-th call gets the output of the k-th recorded invocation |
| TaskContext.RunRecording | python/cornserve/task/base.py:496-515 | Whatever the program does to its objects while recording, the invocations hold what was passed |
| TaskContext.FixedShapeFollows | python/cornserve/task/base.py:770-776 | A program whose sequence of calls does not depend on output contents makes the same calls in both runs |
| TaskContext.Context.RecordInvocation | python/cornserve/task/base.py:700-713 | Recording copies the task's input and output |
| TaskContext.Context.Dispatch | python/cornserve/task/base.py:716-768 | Outputs are queued by task in invocation order; a response of another length is refused |
| TaskContext.Context.ReplayInvocation | python/cornserve/task/base.py:770-799 | Replay takes the oldest output of the task that is left, and fails exactly if there is none |
| TaskContext.QueuesStep | python/cornserve/task/base.py:790-794 | Taking an output moves every task's queue to the next invocation |
| LineReader.ReadLines | python/cornserve/task/base.py:606-614 | The reader yields the lines of the concatenated chunks and keeps what follows the last newline |
| LineReader.LinesAppend | python/cornserve/task/base.py:608-614 | The lines of a text do not depend on where it is cut |
| LineReader.LinesOfFrame | python/cornserve/task/base.py:606-614 | Lines framed with newlines read back as they were |
| LineReader.FrameOfLines | python/cornserve/task/base.py:606-614 | Framing the lines of a text gives it back up to its last newline |
| LineReader.SendLines | python/cornserve/services/task_dispatcher/router.py:28-44 | The response is the first line and then the chunks that are not blank, each framed |
| LineReader.NotEmptyIs | python/cornserve/services/task_dispatcher/router.py:28-44 | The chunks that are sent are those that are not empty, in order, each as often as it came |
| LineReader.AnyCutReadsBack | python/cornserve/services/task_dispatcher/router.py:28-44 | However the response is cut on the way, exactly those lines are in it |
| MllmEncoders.Embeddings | tasklib/cornserve_tasklib/task/composite/llm.py:69-116 | With and without coalescing the result is the same: one embedding for each content in order, or ValueError for a modality that the task does not list or a model that the encoder does not serve |
| MllmEncoders.Coalesced | tasklib/cornserve_tasklib/task/composite/llm.py:86-105 | One call for each modality that occurs, with all of its URLs, and no other call |
| MllmEncoders.DealOut | tasklib/cornserve_tasklib/task/composite/llm.py:101-105 | Dealing out from the front gives each content its own embedding; no pop fails and every queue ends empty |
| MllmEncoders.Separate | tasklib/cornserve_tasklib/task/composite/llm.py:106-116 | One call for each content |
| MllmEncoders.Group | tasklib/cornserve_tasklib/task/composite/llm.py:70-75 | URLs are grouped by modality in content order |
| MllmEncoders.CallEncoders | tasklib/cornserve_tasklib/task/composite/llm.py:87-99 | Encoders of modalities that do not occur are not called |
| MllmEncoders.InvokeEncoder | tasklib/cornserve_tasklib/task/unit/encoder.py:66-80 | An encoder refuses an empty list and a model it does not serve |
| GatewayTasks.TaskManager.DeclareUsed | python/cornserve/services/gateway/task_manager.py:80-216 | Deploys the declared classes that have no entry, adds entries for no others, and counts every declaration; any failure restores the five maps exactly. After a success every READY entry is deployed if and only if that was so before and no declared class has an entry that a failed teardown left with a counter of zero |
| GatewayTasks.UnbackedAfter | python/cornserve/services/gateway/task_manager.py:98-216 | A successful declaration adds to the entries in use without a deployment exactly the declared ones that a failed teardown left unused |
| GatewayTasks.ReadyAreDeployedIff | python/cornserve/services/gateway/task_manager.py:212-216 | The same for the READY states that the declaration sets |
| GatewayTasks.FailedTeardownExample | python/cornserve/services/gateway/task_manager.py:263-281 | A run that gets there: declared, released with a teardown that fails, and declared again although nothing can be deployed |
| GatewayTasks.TaskManager.TryToDeploy | python/cornserve/services/gateway/task_manager.py:98-182 | The part of declare_used that may fail: instances and deployments for the new entries and for nothing else |
| GatewayTasks.TaskManager.DeclareNotUsed | python/cornserve/services/gateway/task_manager.py:218-281 | Counts down, removes exactly the entries that nobody uses any more and that could be torn down, and fails with AssertionError exactly if more is given back than is outstanding, after counting down for what comes before the first such task; it never leaves a further entry READY without a deployment |
| GatewayTasks.NoneUnbacked | python/cornserve/services/gateway/task_manager.py:251-277 | Because it tears down only what nobody uses |
| GatewayTasks.ConsistentMeans | python/cornserve/services/gateway/task_manager.py:80-281 | The invariant at every release of the lock: equal keys of the five maps, pairwise inequivalent tasks, counters equal to the outstanding declarations, READY exactly with a positive counter and TEARING_DOWN without |
| GatewayTasks.Settled | python/cornserve/services/gateway/task_manager.py:212-216 | After a successful deployment the table is consistent again |
| GatewayTasks.NewClasses | python/cornserve/services/gateway/task_manager.py:102-125 | The new entries are exactly for the declared classes that were not deployed |
| GatewayTasks.TornMeans | python/cornserve/services/gateway/task_manager.py:251-277 | What stays after a release is what is still used or could not be torn down |
| GatewayTasks.DropKeeps | python/cornserve/services/gateway/task_manager.py:271-276 | Deleting an unused entry from all five maps keeps the table consistent |
| GatewayTasks.TaskManager.Restore | python/cornserve/services/gateway/task_manager.py:155-164 | The snapshots are restored as a whole |
| GatewayTasks.TaskManager.CountAll | python/cornserve/services/gateway/task_manager.py:102-128 | The first loop of declare_used |
| GatewayTasks.TaskManager.ReleaseAll | python/cornserve/services/gateway/task_manager.py:225-249 | The first loop of declare_not_used |
| GatewayTasks.TaskManager.TeardownAll | python/cornserve/services/gateway/task_manager.py:251-277 | Failed teardowns keep their entries, the other ones go |
| ExecutorPacking.PlanExecutors | python/cornserve/services/task_manager/manager.py:173-185 | For positive profiled sizes, each node's free GPUs, sorted by rank, are divided into groups of greedy sizes and a rest |
| ExecutorPacking.PlanMeans | python/cornserve/services/task_manager/manager.py:163-198 | Executors do not span nodes and have profiled sizes, and fewer GPUs than the least size are left over |
| ExecutorPacking.PackNode | python/cornserve/services/task_manager/manager.py:178-185 | The nested loops take consecutive GPUs in the greedy sizes |
| ExecutorPacking.LoopEndsIff | python/cornserve/services/task_manager/manager.py:179-181 | The inner loop ends for every number of GPUs if and only if the size is positive |
| ExecutorPacking.GreedyPacks | python/cornserve/services/task_manager/manager.py:178-185 | The greedy sizes fit and leave less than the least size |
| ExecutorPacking.GreedyTakesLargest | python/cornserve/services/task_manager/manager.py:178-185 | Each executor has the largest profiled size that the GPUs which are left allow |
| ExecutorPacking.GreedyIsBest | python/cornserve/services/task_manager/manager.py:140-156 | If each size divides the next larger one, no packing uses more GPUs, and none that uses as many has fewer executors |
| ExecutorPacking.Subadditive | python/cornserve/services/task_manager/manager.py:140-156 | Then packing two amounts together never takes more executors than packing them apart |
| ExecutorPacking.BestIffBestBelow | python/cornserve/services/task_manager/manager.py:178-185 | With two profiled sizes or more, the greedy packing uses the most GPUs with the fewest executors for every number of GPUs if and only if it does for the numbers below the sum of the two largest sizes |
| ExecutorPacking.BestAbove | python/cornserve/services/task_manager/manager.py:178-185 | Because above that sum any packing can take one executor of the largest size without loss |
| ExecutorPacking.GreedyCanWaste | python/cornserve/services/task_manager/manager.py:178-185 | It does not for sizes three and two and four GPUs: one executor of three, where two of two use all |
| ExecutorPacking.GroupByNode | python/cornserve/services/task_manager/manager.py:168-171 | GPUs are grouped by node |
| ExecutorPacking.SortByRank | python/cornserve/services/task_manager/manager.py:176-176 | Sorting by global rank is a permutation |
| ClusterResource.Resource.Allocate | python/cornserve/services/resource.py:124-222 | Each refusal happens exactly under its condition and changes no owner; otherwise exactly num_gpus distinct GPUs go to the owner, the first free ones of each node that is used, nothing else changes, and the minimum number of nodes is used. No node that is used has fewer free GPUs than one that is not; among nodes with as many, spread uses those where the owner has fewest GPUs, pack those where it has most, and the name decides the rest. The first GPU is on the best node in this order |
| ClusterResource.OneNodeIfPossible | python/cornserve/services/resource.py:193-200 | In particular the GPUs are on one node if one node has enough |
| ClusterResource.TooFew | python/cornserve/services/resource.py:178-215 | As few nodes as the loop has used never have more free GPUs than those |
| ClusterResource.Exchange | python/cornserve/services/resource.py:178-215 | The exchange argument for the order by free GPUs |
| ClusterResource.Resource.TakeNodes | python/cornserve/services/resource.py:202-220 | The loop ends with enough GPUs, so its final assertion cannot fail |
| ClusterResource.Resource.Measure | python/cornserve/services/resource.py:118-122 | The counts that the heap entries are made of |
| ClusterResource.CountsAre | python/cornserve/services/resource.py:118-122 | They count the free GPUs and the owner's GPUs of a node, each once |
| ClusterResource.MakeHeap | python/cornserve/services/resource.py:171-191 | The heap holds each node with free GPUs once |
| ClusterResource.GPU.AllocateTo | python/cornserve/services/resource.py:50-57 | A GPU that has an owner is not allocated again |
| ClusterResource.GPU.Free | python/cornserve/services/resource.py:59-66 | A free GPU is not freed again |

## Left out

- Kubernetes, gRPC, HTTP, ZMQ, UCX, CUDA streams, tracing and logging: a call succeeds or fails, or is a channel that keeps its order.
- Process spawning, signals, cancellation and, outside the broadcast ring, timeouts.
- Serialisation and tensors: a message is what its serialisation decodes to, and a tensor is a sequence of opaque elements.
- Memory orders weaker than sequential consistency, and several writers of one ring.
- Chunks with destinations both on and off the sender's node: an unlink does not wait for a pending send there.
- Failed sends: every PrepareReceive and every transfer of the modelled chunk succeeds.
- Receivers whose slab refuses the size of a chunk, and transfers to other nodes that never find room: the receivers accept the size, and room is found in time.
- Negative chunk ids, a chunk that is prepared twice.
- A `max_batch_size` below one, which the configuration of Eric rules out; the scheduler's class would not limit batches then (EricScheduler.LimitKeptIff).
- ExecutorPacking.PlanExecutors: assumes positive profiled sizes, which nobody checks when a profile is read; with another one the loop does not end (ExecutorPacking.LoopEndsIff).
- ExecutorPacking.PackNode: assumes positive profiled sizes, because the loop does not end otherwise.
- `mark_done` and the ledger entries that it deletes; small objects sent without a buffer.
- Single copy to other nodes: one call allocates, sends and frees in sequence.
- Cyclic imports, two sources for one module, and descriptors whose class is missing or of the wrong kind.
- Several descriptors for one task or repeated delivery of one, which the registry refuses; deletion events, which purge everything.
- Requests for Eric without items, with repeated item ids, or with the id of a request that is still queued.
- Two producers of one forwarded id; forwards that were wired before.
- `scale_up_unit_task` of the resource manager, the session and app wrappers, and the clean-up after `invoke_tasks` in the gateway.
- Killing and spawning executors in `update_resources`; routing and health checks.
- The sanity checks of the constructor of Resource; its print-outs.
- Command line, audio player, log streamer, benchmarks, configuration classes and model loading.
- ExecutorPacking.GreedyIsBest: assumes that each size divides the next larger one, because the claim can fail otherwise; ExecutorPacking.BestIffBestBelow says when.
- ReceiveLedger.AllReadyStays: assumes that a later close_stream repeats the number of chunks, because another number makes other chunks missing.
- TaskContext.CallTask: assumes that both runs make the same calls, because outputs are queued by task and not by call.
- A program of `TaskContext` is a pure function of the outputs that it has been given: what the recording run does to the shared task
  input is covered only by the assumption that both runs make the same calls. Its models are flat, so deep and shallow copies are not
  told apart.
- TaskContext.RunReplay: an output is a value here; what the program does to an object that it was handed has no effect on the queues.
- LineReader.AnyCutReadsBack: assumes that the streamed chunks contain no newline, because a chunk with one is read back as several lines.
- ClusterResource.Resource.Allocate: nodes are numbered in the order of their names, which breaks ties as the names do.
