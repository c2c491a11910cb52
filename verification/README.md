# ShaperIO: a verified model

ShaperIO moves blocks between GPU memory and NVMe SSDs without the CPU. GPU threads put requests into a ring, a
scheduler block sorts and merges them into large commands, many threads share submission and completion queues, and a
page cache with a victim buffer sits on top. This project models that machinery in Dafny and proves what it promises.

## How it is modelled

* Concurrent protocols are state machines. Every access to shared memory is an action of its own; a state machine
  gives, for each action and state, the next state or none. `Run` applies a list of actions to an initial state, and
  the theorems quantify over all lists: every number of threads, every interleaving, every length. Each machine has one
  inductive invariant, kept by one lemma per action.
* Sequential code that works in place is a method over arrays or a class, with the loops of the original, proved
  against a specification function; what the code is for is then proved about that function.
* Pure arithmetic is functions and lemmas. Fixed word widths, truncating shifts and masks are written out.
* Locks carry the number of the thread that took them, and rings carry the count their index stands for. The original
  words are the obvious projections; the extra part only lets the invariant name an owner.

Modules, from the bottom up:

| module | what it holds |
|---|---|
| `Bits`, `Options`, `StableCount`, `Disk` | bit operations and remainders; counting order and stable permutations; block writes and when their order matters |
| `Workload`, `Window` | page addresses of a transfer, the sliding window of a producer |
| `Radix`, `Bitonic`, `SortKey` | the two radix sorts, the bitonic network, packed keys and size codes |
| `Merge`, `NvmCmd`, `WriteBatch`, `WriteSchedule` | merging into 2 MB groups, NVMe commands and PRP lists, and the whole write path of a batch |
| `ReadyScan`, `Ring`, `EndToEnd` | counting ready entries, the ring between producers and scheduler, and what a whole run leaves on the SSD |
| `SubmissionQueue`, `CompletionQueue`, `LappedPoll`, `ExclusiveQueue` | the shared queue pair, runs in which a poll is overtaken, and batched submission on a queue pair of one thread |
| `PageCache`, `CacheRuns`, `Backing`, `Victim` | the page cache and what its runs guarantee, where its pages live, and eviction through the victim buffer |

`dafny verify dfyconfig.toml` verifies the whole project.

## What does not hold of the code, and exactly when it does

* The split step of the merge writes its scratch list behind the list of runs, without a check. It writes past the end
  exactly when some run is longer than 2 MB and the runs and groups together outnumber the list's places
  (`Merge.ParallelMerge`). The list has one place per ring entry, so a full batch can do it: `Merge.FullBatchOverflows`
  gives 128 requests of 64 KB in a ring of 128. A list twice as long as the batch never overflows (`WriteSchedule.HalfFullFits`).
* NVMe orders nothing between commands in flight, and the scheduler has up to 32 of them out at a time. The order within
  such a sub-batch never matters exactly when, in every block, the commands of the last sub-batch that reaches it carry the
  same data (`WriteSchedule.SlotOrderIff`). Distinct offsets suffice (`WriteSchedule.DistinctSettledBatch`). Two requests for
  one offset with different data do not: the earlier one may stay (`WriteSchedule.SameOffsetTwice`).
* `cq_poll` scans from a head value it read earlier. In a run whose earlier polls reported right positions it stops at
  the caller's own completion, and reports that completion's position exactly when at most two laps were posted past it
  (`CompletionQueue.PollSound`). All positions of a run are right exactly when every match is in time
  (`CompletionQueue.ExactIff`), and a late match is the only step that breaks the invariant (`CompletionQueue.StepKeepsIff`).
  Three runs of a queue of four entries show what a late match does: it reports position 0 for completion 8
  (`LappedPoll.PollOvertaken`); the thread is then done while its own completion is still at the head
  (`LappedPoll.ClaimOvertaken`); and the next holder of its identifier takes that completion for its own, although
  nothing has been completed for it (`LappedPoll.CompletionStolen`).
* Reads sent to a fixed controller return what plain memory holds, in every run, exactly when that controller is one of
  the places of every page (`CacheRuns.OverrideIff`): the page is replicated, or striped onto it (`Backing.OverrideFits`).
* The ticket a thread waits for in `sq_enqueue` is the lap of its turn exactly below 2^32 tickets
  (`SubmissionQueue.TicketWrap`).
* After a victim swap the PRP pair kept for the slot describes its sub-pages exactly when there are at most two of them
  (`Victim.MirrorDescribes`).
* A sort key gives its offset back exactly when the offset fits the bits above the index (`SortKey.RoundTrip`), and a size
  survives its one-byte code exactly when it is a power of two (`SortKey.SizeRoundTrip`).
* Six radix passes look at 48 bits. The sorted offsets ascend exactly when those bits order any two of the offsets as the
  offsets themselves are ordered (`StableCount.AscendsIff`), as they do below 2^48 (`WriteSchedule.SortedAscends`) and do
  not for 2^48 and 1 (`WriteSchedule.HighBitsIgnored`). What lands on the SSD does not depend on it:
  `WriteSchedule.ScheduleBatch` has no such condition.

## Model

| member | source | states |
|---|---|---|
| Workload.AePageLeftInverse | benchmarks/io/io_workload.h:30-38 | for every k up to 63 and every 64-bit seed, `ae_page` stays in [0, 2^k) and an explicit inverse undoes it, wrap-around and masking included |
| Workload.AePageRightInverse | benchmarks/io/io_workload.h:30-38 | that inverse stays in range and `ae_page` undoes it: no page is omitted |
| Workload.AeWorkerBijection | benchmarks/io/io_workload.h:17-19 | the lane/warp transpose permutes the workers, with its inverse |
| Workload.AeIndexBijection | benchmarks/io/io_workload.h:22-27 | (worker, iteration) to index is injective into the range, for every tile the driver accepts |
| Workload.LocateIndexBijection | benchmarks/io/io_workload.h:22-27 | every index is produced by the (worker, iteration) that `LocateIndex` names |
| Workload.AcceptedFacts | benchmarks/io/io_workload.h:65-71 | what passes validation is a power-of-two page count divided evenly among workers and tiles |
| Workload.LocateUndoesPageOf | benchmarks/io/gpu_io_benchmark.cu:66-68 | the page a worker touches in an iteration determines both worker and iteration |
| Workload.PageOfUndoesLocate | benchmarks/io/gpu_io_benchmark.cu:66-68 | every page has a worker and an iteration that touch it |
| Workload.TransferCoversOnce | benchmarks/io/gpu_io_benchmark.cu:106-112 | an accepted transfer touches exactly the pages of the range, each exactly once, over all workers and iterations |
| Window.AwaitKeeps | benchmarks/io/gpu_io_benchmark.cu:57-65 | awaiting pops the oldest request, in order, and frees its DMA slot |
| Window.EnqueueKeeps | benchmarks/io/gpu_io_benchmark.cu:66-73 | a new request takes a DMA slot no request in flight uses |
| Window.Transfer | benchmarks/io/gpu_io_benchmark.cu:53-75 | the loop's event log replays under rules that forbid reusing a busy DMA slot and awaiting out of order; it enqueues every request and ends with all awaited |
| Window.WorkersApart | benchmarks/io/gpu_io_benchmark.cu:53-75 | no two workers ever use the same DMA slot |
| Bitonic.HalfCleanAt | benchmarks/io_scheduler/io_scheduler_impl.cuh:41-52 | comparing an arc of booleans with itself half a block on makes one side constant and leaves the other an arc |
| Bitonic.CleanBlock | benchmarks/io_scheduler/io_scheduler_impl.cuh:41-52 | one stage turns a bitonic block into two bitonic halves, the lower below (or above) the upper |
| Bitonic.StageMerges | benchmarks/io_scheduler/io_scheduler_impl.cuh:39-54 | stage 2^q of phase 2^p: sub-blocks of 2^q are bitonic and ordered among each other, in the block's direction |
| Bitonic.NextPhase | benchmarks/io_scheduler/io_scheduler_impl.cuh:38-55 | alternately sorted blocks make bitonic blocks of twice the size |
| Bitonic.CompareExchange | benchmarks/io_scheduler/io_scheduler_impl.cuh:42-51 | the XOR-indexed exchange of one index orders its pair in the direction of bit k and touches nothing else |
| Bitonic.BitonicStage | benchmarks/io_scheduler/io_scheduler_impl.cuh:40-53 | in place and in any order of the indices, a stage is the simultaneous exchange of all pairs |
| Bitonic.BitonicSort | benchmarks/io_scheduler/io_scheduler_impl.cuh:34-57 | for every 2^m keys and every order in which threads reach their pairs, the array ends ascending and a permutation of what it was |
| SortKey.RoundTrip | include/io_scheduler.cuh:232-255 | index and offset come back out of a packed key; the offset exactly when it is below 2^(64 - index bits) |
| SortKey.KeyOrder | include/io_scheduler.cuh:239-243 | packed keys compare as (offset, index) pairs |
| SortKey.ReadOrder | benchmarks/io_scheduler/io_scheduler_impl.cuh:1412-1424 | after sorting a padded batch the decoded indices are the batch indices in (offset, index) order and the padding is last |
| SortKey.SortBatch | benchmarks/io_scheduler/io_scheduler_impl.cuh:1412-1424 | packing, padding and sorting a read batch gives that order |
| SortKey.SizeRoundTrip | include/io_scheduler.cuh:261-272 | decode after encode is the identity exactly on powers of two |
| StableCount.PosOrder | benchmarks/io_scheduler/io_scheduler_impl.cuh:102-111 | bucket start plus rank orders elements by (digit, input position), both directions |
| StableCount.LowIsRemainder | benchmarks/io_scheduler/io_scheduler_impl.cuh:77-87 | the digits of the first n passes are the key modulo 2^(8n) |
| StableCount.PassRefinesOrder | benchmarks/io_scheduler/io_scheduler_impl.cuh:77-118 | a stable pass on byte n turns the stable order on n bytes into the one on n + 1 bytes |
| StableCount.StableOrderUnique | benchmarks/io_scheduler/io_scheduler_impl.cuh:69-119 | the stable order is unique |
| StableCount.AscendsIff | benchmarks/io_scheduler/io_scheduler_impl.cuh:69-119 | the stable order on the low bytes makes the keys ascend exactly when those bytes order any two keys as the keys are ordered |
| Radix.BucketStarts | benchmarks/io_scheduler/io_scheduler_impl.cuh:80-99 | histogram and prefix sum give each digit the first position of its bucket |
| Radix.ScatterSerial | benchmarks/io_scheduler/io_scheduler_impl.cuh:101-112 | the serial scatter is the stable pass, keys and values alike |
| Radix.ClaimWarp | benchmarks/io_scheduler/io_scheduler_impl.cuh:189-207 | the rank-0 lanes of a warp claim for their peers exactly the positions the serial scatter would use |
| Radix.BasePlusRank | benchmarks/io_scheduler/io_scheduler_impl.cuh:195-215 | broadcast base plus lane rank is the element's serial position |
| Radix.ScatterParallel | benchmarks/io_scheduler/io_scheduler_impl.cuh:175-217 | the warp-sequential parallel scatter is the same stable pass, for every N |
| Radix.RadixSort | benchmarks/io_scheduler/io_scheduler_impl.cuh:69-223 | both versions: stable sort on the low 8n bits, keys and values permuted together, in the original buffers when n is even, in the others when it is odd |
| Radix.SortsAgree | benchmarks/io_scheduler/io_scheduler_impl.cuh:140-223 | v1 and v2 end with equal arrays |
| Merge.GroupShape | benchmarks/io_scheduler/io_scheduler_impl.cuh:846-865 | a group is contiguous on disk, at most 2 MB, and cannot be extended |
| Merge.StartsCut | benchmarks/io_scheduler/io_scheduler_impl.cuh:846-865 | the groups partition the batch |
| Merge.GreedyMerge | benchmarks/io_scheduler/io_scheduler_impl.cuh:846-865 | the serial scan yields those groups |
| Merge.FindBoundaries | benchmarks/io_scheduler/io_scheduler_impl.cuh:592-622 | ballots unpacked bit by bit list exactly the positions where a run begins, in order |
| Merge.SplitRuns | benchmarks/io_scheduler/io_scheduler_impl.cuh:624-660 | splitting long runs by the stride turns the list of runs into the list of groups, in place, unless the scratch leaves the list: exactly when a run exceeds 2 MB and runs and groups together do not fit |
| Merge.ParallelMerge | benchmarks/io_scheduler/io_scheduler_impl.cuh:586-662 | for every batch the list can hold: parallel boundary detection plus splitting gives the groups of the serial scan, or overflows, exactly under that condition |
| Merge.FullBatchOverflows | benchmarks/io_scheduler/io_scheduler_impl.cuh:636-657 | a full batch of 128 requests of 64 KB, 33 of them adjacent: 96 runs and 97 groups in a list of 128 |
| NvmCmd.BlocksFieldExact | include/nvm_cmd.h:87-92 | the zero-based 16-bit count field is exact for 1 to 65536 blocks and for nothing else |
| NvmCmd.BuildCommand | include/nvm_cmd.h:58-92 | decoding the command words gives back every field put in |
| NvmCmd.PrpList | include/nvm_cmd.h:127-166 | one list page: all entries if they fit, else all but the one kept for the link |
| NvmCmd.PrpListChain | include/nvm_cmd.h:176-199 | the chain carries exactly as many entries as its lists can |
| NvmCmd.CoveredWhole | include/nvm_cmd.h:207-239 | when the lists suffice: exact condition on page and list counts |
| NvmCmd.NvmCmdData | include/nvm_cmd.h:207-239 | walking PRP1 and PRP2 by section 4.3 of NVM Express 1.3 visits exactly the returned prefix of the addresses, the whole of them exactly when the lists suffice |
| WriteBatch.GroupBounds | benchmarks/io_scheduler/io_scheduler_impl.cuh:671-748 | a merged command needs at most 512 pages, so 511 list entries, and at most 4096 blocks |
| WriteBatch.FillList | benchmarks/io_scheduler/io_scheduler_impl.cuh:727-757 | the list page holds all sub-pages after the first, cache and victim entries alike, and no other list page changes |
| WriteBatch.BuildPrp | benchmarks/io_scheduler/io_scheduler_impl.cuh:686-762 | walking the PRPs visits the sub-pages of the group's requests in disk order |
| WriteBatch.BuildGroup | benchmarks/io_scheduler/io_scheduler_impl.cuh:671-768 | LBA, block count and PRPs of a group describe exactly its requests |
| WriteBatch.ExecuteGroup | benchmarks/io_scheduler/io_scheduler_impl.cuh:671-768 | executing that command is applying the group's requests one by one |
| WriteBatch.BuiltFrame | benchmarks/io_scheduler/io_scheduler_impl.cuh:664-771 | a command only depends on its own list page: rewriting other pages changes nothing for it |
| WriteBatch.BuildChunk | benchmarks/io_scheduler/io_scheduler_impl.cuh:664-771 | the commands of a chunk, one list page each, none disturbing another; list pages are rewritten only while no command is in flight |
| WriteBatch.Work | include/page_cache.h:3133-3143 | whenever the controller executes commands of a sub-batch, it reads the list pages as they stand then, and each still decodes to its group |
| WriteBatch.SubmitSub | benchmarks/io_scheduler/io_scheduler_impl.cuh:806-822 | at most 32 commands through the queue pair: whichever order and moments the controller picks before the last completion is seen, their groups are written in that order and none is left in flight |
| WriteBatch.AppendWithin | benchmarks/io_scheduler/io_scheduler_impl.cuh:806-822 | waiting after each sub-batch confines the order of the whole batch to rearrangements within sub-batches |
| WriteBatch.SubmitChunk | benchmarks/io_scheduler/io_scheduler_impl.cuh:803-828 | a chunk submitted under the knee limit is executed in an order that only rearranges its sub-batches, with nothing left in flight |
| WriteBatch.MergeAndSubmit | benchmarks/io_scheduler/io_scheduler_impl.cuh:664-835 | all chunks: every group is written once, in an order confined to sub-batches; no list page is rewritten under a command in flight |
| WriteSchedule.SortedKeepsOverlaps | benchmarks/io_scheduler/io_scheduler_impl.cuh:563-572 | the radix order keeps the slot order of any two requests that overlap |
| WriteSchedule.SortedAscends | benchmarks/io_scheduler/io_scheduler_impl.cuh:566-572 | with offsets below 2^48 the sorted offsets ascend |
| WriteSchedule.HighBitsIgnored | benchmarks/io_scheduler/io_scheduler_impl.cuh:566-572 | beyond 48 bits they need not: six passes leave 2^48 in front of 1 |
| WriteSchedule.CommandsDisjoint | benchmarks/io_scheduler/io_scheduler_impl.cuh:671-768 | with distinct offsets the merged commands write disjoint blocks |
| WriteSchedule.AnyCommandOrder | benchmarks/io_scheduler/io_scheduler_impl.cuh:803-828 | with distinct offsets, any order of execution, sub-batches or not, leaves what the requests leave |
| WriteSchedule.AnyCommandOrderIff | benchmarks/io_scheduler/io_scheduler_impl.cuh:806-822 | every order confined to sub-batches leaves what the sorted requests leave, exactly when in every block the commands of the last sub-batch to reach it agree |
| WriteSchedule.SlotOrderIff | benchmarks/io_scheduler/io_scheduler_impl.cuh:563-835 | the same for the batch as it stands in the ring: exactly then every such order gives slot order |
| WriteSchedule.DistinctSettledBatch | benchmarks/io_scheduler/io_scheduler_impl.cuh:563-835 | a batch with distinct offsets meets that condition |
| WriteSchedule.SameOffsetTwice | benchmarks/io_scheduler/io_scheduler_impl.cuh:806-822 | two requests for one offset with different data do not: executed the other way round they leave other contents |
| WriteSchedule.HalfFullFits | benchmarks/io_scheduler/io_scheduler_impl.cuh:636-657 | a list of starts twice as long as the batch always has room for the split scratch |
| WriteSchedule.ScheduleBatch | benchmarks/io_scheduler/io_scheduler_impl.cuh:563-835 | sort, merge, build, submit. Overflow exactly when the split does not fit. Otherwise the merged commands are executed in an order confined to sub-batches; if that is the submission order, or the batch meets the condition of SlotOrderIff, the SSD ends as if the requests had been written in slot order, duplicates included. The value array is the stable permutation, so each request is notified once |
| EndToEnd.Drain | benchmarks/io_scheduler/io_scheduler_impl.cuh:325-340 | the sort buffers hold the batch in slot order |
| EndToEnd.BatchesFit | benchmarks/io_scheduler/io_scheduler_impl.cuh:286-300 | in every run of the ring no batch exceeds the capacity, so the sort buffers suffice |
| EndToEnd.ScheduleRun | benchmarks/io_scheduler/io_scheduler_impl.cuh:268-1010 | ring and write path together: for every run of the ring whose producers ask for whole cache entries, the scheduler loop over its batches overflows exactly when some batch's split does not fit; otherwise, as long as every batch is executed in submission order or leaves no conflict, the SSD ends as if the requests had been written one by one in slot order |
| EndToEnd.SlotIsProducers | benchmarks/io_scheduler/io_scheduler_impl.cuh:268-1010 | in that result slot k is its own producer's offset and entry, with the memory its batch found |
| ReadyScan.CountReady | benchmarks/io_scheduler/io_scheduler_impl.cuh:295-312 | the four warp masks give the length of the ready prefix, capped |
| ReadyScan.ScanReady | include/io_scheduler.cuh:340-351 | the serial scan returns the length of the ready prefix |
| ReadyScan.RoundRefinesScan | benchmarks/io_scheduler/io_scheduler_impl.cuh:290-312 | on one snapshot a parallel round finds what the serial scan finds |
| Ring.PublishedIntact | include/io_scheduler.cuh:289-351 | an entry marked ready is what its producer wrote, until the head passes it |
| Ring.StepKeeps | benchmarks/io_scheduler/io_scheduler_impl.cuh:268-364 | every action of producers, scheduler threads and waiters keeps the ring invariant |
| Ring.RingSafety | include/io_scheduler.cuh:289-351 | in every run the served requests are the producers' requests in slot order, each once; what is accumulated continues them and never exceeds the capacity; no published entry is overwritten |
| Ring.WaiterSound | include/io_scheduler.cuh:367-399 | a waiter can leave only after the device completed its own request |
| Ring.SignalKept | benchmarks/io_scheduler/io_scheduler_impl.cuh:983-1010 | once the head passed a slot its waiter can always leave, however often the slot was reused |
| Ring.SignalsMonotone | benchmarks/io_scheduler/io_scheduler_impl.cuh:985-989 | done_seq never decreases, at any index, along any step of any run |
| Ring.ShutdownDrains | benchmarks/io_scheduler/io_scheduler_impl.cuh:345-364 | if every request was published before shutdown, the scheduler returns only with head, tail and submitted count equal and every request served |
| Ring.NeverStuck | benchmarks/io_scheduler/io_scheduler_impl.cuh:268-364 | the scheduler has a next step until it returns, a producer in the window can always store or publish, and a waiting one gets in exactly when the head is less than a lap behind |
| SubmissionQueue.EntersInTurn | include/nvm_parallel_queue.h:28-31 | only the current ticket of a position, or the next lap's once it is finished and passed, gets in |
| SubmissionQueue.TicketWrap | include/nvm_parallel_queue.h:28-31 | the awaited id is the lap of the turn exactly below 2^32 tickets |
| SubmissionQueue.MarkAtFront | include/nvm_parallel_queue.h:60-80 | a mark the tail mover takes belongs to the ticket at the tail |
| SubmissionQueue.StepKeeps | include/nvm_parallel_queue.h:168-330 | every action of enqueuers, tail mover, controller and head mover keeps the queue invariant |
| SubmissionQueue.FetchedInOrder | include/nvm_parallel_queue.h:168-330 | in every run the controller gets each command exactly once, whole, in ticket order |
| SubmissionQueue.DoorbellCovers | include/nvm_parallel_queue.h:285-303 | what a doorbell value exposes stands complete in its slot, and never laps the head |
| SubmissionQueue.TicketFormula | include/nvm_parallel_queue.h:103-119 | at every moment a ticket word is twice the lap plus one if its enqueuer finished plus one if the head passed |
| SubmissionQueue.SlotReuse | include/nvm_parallel_queue.h:186-248 | a slot is written only after its earlier commands were published and fetched |
| SubmissionQueue.NoDeadlock | include/nvm_parallel_queue.h:168-330 | while a ticket is unfinished, the first such ticket, the tail mover, the controller or the head mover can take a step |
| CompletionQueue.MatchIsOwn | include/nvm_parallel_queue.h:387-412 | under the invariant, an entry with the caller's identifier and the phase looked for is the caller's own completion, posted at or after the place looked for |
| CompletionQueue.StepKeepsIff | include/nvm_parallel_queue.h:379-535 | a step of threads, head mover or controller keeps the invariant exactly when it is not a match more than two laps late |
| CompletionQueue.ExactIff | include/nvm_parallel_queue.h:379-422 | all polls of a run report the right position exactly when every match is at most two laps late |
| CompletionQueue.CidsUnique | include/nvm_parallel_queue.h:36-57 | in every run no two commands in flight share an identifier |
| CompletionQueue.PollSound | include/nvm_parallel_queue.h:379-422 | after a run whose polls were all in time, a match is the caller's own current completion, and its position is right exactly when at most two laps were posted past it |
| CompletionQueue.HeadAfterClaim | include/nvm_parallel_queue.h:425-535 | in such a run the head passes a completion only after its owner claimed it, and an owner leaves only after that |
| CompletionQueue.FrontByOne | include/nvm_parallel_queue.h:83-103 | in such a run each exchange that counts passes exactly one completion, the one whose owner marked it |
| CompletionQueue.NoDeadlock | include/nvm_parallel_queue.h:379-535 | in every run, late polls or not, a thread with a command in hand can step, or the head mover can, or the thread whose position lock it waits for can |
| LappedPoll.PollOvertaken | include/nvm_parallel_queue.h:379-422 | a run of a queue of four: two laps after its snapshot a poll reports position 0 for completion 8 |
| LappedPoll.ClaimOvertaken | include/nvm_parallel_queue.h:425-535 | a run in which that thread is done and its identifier free while completion 8 is still at the head |
| LappedPoll.FrontOvertaken | include/nvm_parallel_queue.h:83-103 | a moment of that run at which the head mover takes for completion 8 a mark its thread made for position 0 |
| LappedPoll.CompletionStolen | include/nvm_parallel_queue.h:379-422 | a run in which the next holder of the identifier takes completion 8 for its own before anything was completed for it |
| ExclusiveQueue.WrapKeepsPlace | include/page_cache.h:3107-3131 | 32-bit wrap changes neither ring position nor phase tag, for every ring up to 2^31 |
| ExclusiveQueue.LastPhaseDecides | include/page_cache.h:3126-3143 | the phase bit of the last entry has the expected value exactly when all completions of the batch are posted |
| ExclusiveQueue.DoorbellMoves | benchmarks/io/gpu_io_benchmark.cu:118-119 | a batch changes the doorbell exactly when it is smaller than the queue |
| ExclusiveQueue.DeviceFetch | include/page_cache.h:3118-3124 | from head to doorbell the controller reads exactly the commands of the batch |
| ExclusiveQueue.CidsDistinct | include/page_cache.h:3099-3110 | the identifiers of one batch are distinct although ticket and identifiers wrap |
| ExclusiveQueue.QueuePair.Begin | include/page_cache.h:3098-3124 | identifiers from the ticket, commands that decode to the transfers asked for, one doorbell: the controller has fetched exactly these |
| ExclusiveQueue.QueuePair.LastSeen | include/page_cache.h:3126-3143 | one read of the last entry's phase tells exactly whether all commands are executed and posted |
| ExclusiveQueue.QueuePair.End | include/page_cache.h:3145-3161 | releasing both queues and the identifiers leaves the queue pair idle, as many commands further on |
| ExclusiveQueue.QueuePair.Submit | include/page_cache.h:3088-3162 | each call starts and ends idle with SQ head equal to tail; the controller gets exactly its transfers under consecutive identifiers; the call returns at the first read by which everything is posted; calls can follow one another for ever, past 2^32 |
| CacheRuns.StepKeeps | include/page_cache.h:1331-1496 | every atomic step of acquire_page, find_slot, release_page and of element writes keeps the cache invariant |
| CacheRuns.Coherence | include/page_cache.h:1331-1496 | in every run, plain memory's value of a page is in its slot's buffer when it is valid, and at all its places on the controllers when it is not valid or clean |
| CacheRuns.ContentIsPlain | include/page_cache.h:1843-1881 | after every run the content is the initial content with the run's stores replayed in order, whatever was loaded and evicted in between |
| CacheRuns.LastStore | include/page_cache.h:1843-1881 | in that replay an element holds the value of the last store to it |
| CacheRuns.ReadIsPlain | include/page_cache.h:1809-1842 | through a pinned slot one reads the replay of all stores of the run |
| CacheRuns.ReadsLastStore | include/page_cache.h:1809-1842 | so a read returns the value of the last store to that element, by whichever thread |
| CacheRuns.OverrideIff | include/page_cache.h:1359-1365 | with a controller override reads are plain in all runs from all initial states exactly when that controller is among the places of every page |
| CacheRuns.PinKeepsSlot | include/page_cache.h:2101-2119 | from acquire_page to release_page a page stays valid in its slot, whatever other threads do |
| CacheRuns.DistinctSlots | include/page_cache.h:2060-2379 | distinct valid pages occupy distinct slots |
| CacheRuns.OpenSlotNamesPage | include/page_cache.h:2091-2100 | an unlocked used slot names a page valid there or being loaded there by exactly one thread |
| CacheRuns.CountIsPins | include/page_cache.h:1284-1295 | the reference count is the sum of the references threads hold |
| CacheRuns.NeverFaults | include/page_cache.h:1331-1496 | the next step of every thread is always defined: indices in range, counts never below what is released; a pinned writer can write every element |
| Backing.PlacesDisjoint | include/page_cache.h:604-628 | striped and replicated ranges with disjoint regions give every page, and every replica, a place of its own |
| Backing.OverrideFits | include/page_cache.h:1359-1370 | a controller is among a page's places exactly when the page is replicated or striped onto it |
| Backing.TranslationRoundTrip | include/page_cache.h:2101-2114 | mask and shift recover range and page from a translation |
| Victim.Swap | include/page_cache.h:2209-2229 | the swap exchanges whole buffers: virtual and IO addresses stay paired, other slots and entries keep theirs, the PRP mirror follows |
| Victim.SwapConserves | include/page_cache.h:2209-2223 | slots and entries together keep the same buffers |
| Victim.MirrorDescribes | include/page_cache.h:2225-2228 | the PRP mirror describes the slot exactly when it has at most two sub-pages |
| Victim.StepKeeps | include/page_cache.h:2189-2254 | every step of evictors, scheduler and cache writers keeps the victim invariant |
| Victim.OwnershipConserved | include/page_cache.h:2207-2230 | in every run page and victim buffers are a permutation of all buffers |
| Victim.OccupiedCarries | benchmarks/io_scheduler/io_scheduler_impl.cuh:985-1003 | an entry awaiting its write belongs to one eviction only and holds the bytes the page had when its eviction began |
| Victim.WritesAreEvictions | include/page_cache.h:2246-2249 | each write the device gets is one eviction's offset and bytes, and no eviction is written twice |
| Victim.NeverStuck | include/page_cache.h:2189-2254 | the next step of every eviction is always possible |

## Left out

- Ring.WaiterSound: fewer than 2^32 tickets, because the counters of the ring are unbounded here; `done_flags` and their waiters are not modelled, the next producer on a slot clears them.
- Ring.RingSafety: serving a batch is one action of this machine; what the service does to the SSD is `WriteSchedule.ScheduleBatch`, and `EndToEnd` puts the two together.
- SubmissionQueue.FetchedInOrder: fewer than 2^32 tickets; the head value taken from a completion is any count between the current head and what was fetched.
- CompletionQueue.PollSound: speaks of runs in which every earlier match was in time, as do HeadAfterClaim and FrontByOne; without that they fail, as `LappedPoll` shows of each.
- CompletionQueue.HeadAfterClaim: fewer than 2^32 completions; sq_enqueue is one action of this machine, and the part of move_head_cq that moves the SQ head is in `SubmissionQueue`.
- CacheRuns.Coherence: the direct path only. The read override is a controller number already reduced modulo the controllers, and names one of every page's places. The eviction override, staging, fake delays and eviction through the scheduler or the victim buffer are not part of this machine; a page transfer is one action; the reference count has no upper bound.
- Victim.OccupiedCarries: the read-hit scan of the victim buffer is compiled out in the original and absent here, so reader counts stay zero; reads of a page whose write is still queued are not covered.
- WriteSchedule.ScheduleBatch: all requests have the size of one cache entry and are aligned to it, the PRP pool is allocated and both queues hold more than 32 entries, as the split stride, the sub-page count and the single wait in the original take for granted. Data pages do not change while their batch is scheduled; their owners wait for it. After an overflow nothing is said.
- EndToEnd.ScheduleRun: the write scheduler does not look at the opcode of a request, and neither does the model; a ring of read requests is served by other code.
- WriteBatch.SubmitSub: which command a completion entry names is not modelled; the wait only looks at the phase of the last one.
- Weak GPU memory ordering: actions interleave sequentially; fences, doorbell stores and DMA are single actions.
- Lane order inside a warp step and inside a claimed chunk is sequential; the 128 threads of the scheduler meet at barriers.
- Progress beyond freedom from deadlock: that spinning threads get on under a fair scheduler, timing, back-off and the adaptive drain wait are not modelled.
- Read submission over many queue pairs, the per-batch sort mode and the unsorted mode: they repeat parts that are modelled.
- Warp coalescing of equal pages appears only as the reference count passed to acquire and release.
- `tlb`, `bam_ptr`, `get_raw`, `find_range`, `enqueue_second`, `done_flags` waiters, profiling counters: side paths.
- Host constructors, CUDA and DMA allocation, the admin queue, the kernel module, Python tools: no protocol content.
- The cache flush after filling a PRP list in `nvm_prp_list` names a variable that does not exist (`i_prps`); it is inside a macro and has no effect on the entries.
