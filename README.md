# Distributed similarity search: aggregator merge and shard dispatch

This project models the sequential cores of a distributed nearest-neighbour search system in
Dafny. A generator broadcasts query blocks to search shards. Each shard searches its slice
of the index and sends per-query top-k lists to an aggregator. The aggregator merges the
lists of all shards into one top-k answer per query.

Two source files form the core:

- `aggregator.cpp`, the aggregator process:
  - `merge_results`, the k-way merge of per-shard sorted top-k lists (modules `Merge`,
    `Aggregation`);
  - `aggregate_query`, which pops the front view of every shard queue and releases block
    storage through the owning view (`Aggregation`, `Blocks`);
  - the receive loop of `aggregator`, which cuts each result block into one view per query,
    marks the last view as the owner and runs the gated drain (class
    `Aggregation.Aggregator` with the pure specification functions `Init`, `Enqueued`,
    `MergedOnce`, `Drained` and `Served`, plus the invariant `Inv` over the state and what has
    been received);
  - the ground-truth reshaping of `load_gt` and the recall counting of `show_recall`
    (`Recall`).
- `search.cpp`, the search shard:
  - the CPU/GPU workload split of `search_both` (`Hybrid`);
  - the rotating countdown and per-lane id queues of `comm_handler_both` (`Hybrid`, `Comm`);
  - the counter loop of `comm_handler` (`Comm`);
  - the workload loop of `main_driver` (`Driver`).

The model makes these representation choices:

- Distances are only compared, so they are `real`. The starting best distance of a merge
  round is the largest finite single-precision float.
- Message passing is abstract. A received result block is a value `(shard, ids, dists)`.
- Threads are replaced by a sequence of environment steps that bounds each loop:
  - the aggregator's messages;
  - the blocks comm_handler's search side has finished before each pass;
  - the progress of the two search threads before each pass of comm_handler_both;
  - the execution policy's answers to main_driver.
- A result block in the shard models is named by the query block it answers. The search
  itself is not modelled.

## Model

| member | source | states |
|---|---|---|
| Merge.Scan | aggregator.cpp:28-36 | the inner scan returns no shard or a shard in range whose cursor is below k, so an exhausted shard is never read |
| Merge.ScanShards | aggregator.cpp:24-36 | the scan loop over shards computes exactly the choice Scan specifies |
| Merge.Step | aggregator.cpp:23-40 | one round keeps every cursor within 0..k and appends exactly one id |
| Merge.Rounds | aggregator.cpp:20-40 | after t rounds the cursors are within 0..k and exactly t ids have been written |
| Merge.MergeResults | aggregator.cpp:19-41 | writes exactly the k ids of the k rounds into answers[offset..offset+k) and leaves every other entry unchanged |
| Merge.AdvanceCounter | aggregator.cpp:38-39 | a round of an admissible merge chooses a real shard, appends its id and advances only that shard's cursor |
| Merge.ScanIsLeftmostMinimum | aggregator.cpp:28-36 | the scan returns the leftmost strictly smallest head among the open shards; with no choice every open head is at or above the sentinel |
| Merge.RoundsSum | aggregator.cpp:20-39 | after t <= k rounds the cursors add up to t |
| Merge.RoundsFromShards | aggregator.cpp:24-39 | with at least one shard and all distances below the sentinel, every round chooses a real shard (fromShard is never -1) |
| Merge.RoundsCount | aggregator.cpp:39 | each cursor equals the number of rounds that chose its shard |
| Merge.ShardOpen | aggregator.cpp:24-39 | while fewer than k entries are taken some shard is open and the scan chooses one |
| Merge.RoundStepChosen | aggregator.cpp:23-40 | round t < k chooses a shard in range and appends the scan's choice, advancing that cursor |
| Merge.RoundPicksLeftmostMinimum | aggregator.cpp:29-39 | round t chooses the minimal open head, and on equal distances the lowest shard index wins |
| Merge.RoundsBelowRest | aggregator.cpp:28-39 | with sorted shards every chosen distance is at most every entry not yet taken |
| Merge.RoundsAscending | aggregator.cpp:28-39 | with sorted shards the chosen distances are non-decreasing |
| Merge.RoundTakesFront | aggregator.cpp:31-39 | round u takes the next untaken entry of the shard it chooses |
| Merge.MergeIsTopK | aggregator.cpp:19-41 | with sorted shards the merge is the ascending top-k of the union: k ids, each shard contributing a prefix of its list, every chosen distance at most every entry left behind |
| Merge.CountGrows | aggregator.cpp:39 | counting past an occurrence of a shard counts it |
| Merge.MergeExample | aggregator.cpp:19-41 | shards [(1.0,10),(2.0,11),(5.0,12)] and [(1.5,20),(3.0,21),(4.0,22)] with k = 3 merge to [10, 20, 11] |
| Blocks.ViewFits | aggregator.cpp:156 | view q of a block lies inside the block's k*block_size entries |
| Blocks.View | aggregator.cpp:156 | view q holds exactly the k ids and k distances starting at entry k*q of the block, refers to the block's storage, and owns it exactly when q is the block's last query |
| Blocks.SplitBlock | aggregator.cpp:155-157 | a received block becomes block_size views in query order, view q covering entries [k*q, k*q+k) |
| Blocks.Views | aggregator.cpp:155-157 | n views are produced |
| Blocks.ViewsAt | aggregator.cpp:156 | view q of the sequence is the view of query q |
| Blocks.BlockHasOneOwner | aggregator.cpp:156 | exactly the last view of a block owns its storage, every view has k ids and k distances, and the block has exactly one owner |
| Blocks.OwnerCountNone | aggregator.cpp:156 | views without the owner flag count no owner |
| Blocks.OwnerCountLast | aggregator.cpp:156 | views flagged only at the last position have exactly one owner |
| Blocks.Fronts | aggregator.cpp:46-48 | the front view of every shard queue, one per shard |
| Blocks.Tails | aggregator.cpp:46-48 | every shard queue without its front view and otherwise unchanged |
| Blocks.OwnedMembers | aggregator.cpp:53-58 | a handle is released exactly when an owning consumed view refers to it |
| Blocks.OwnedDistinct | aggregator.cpp:53-58 | owning views of different blocks release no handle twice |
| Blocks.DistinctAppend | aggregator.cpp:53-58 | appending a new handle keeps the release log free of repeats |
| Blocks.PopPreservesOwnership | aggregator.cpp:46-58 | consuming every front view and releasing the owning ones keeps the storage discipline: every queued view refers to a live block of its shard, no block is released twice, no live block is unreferenced |
| Blocks.PopStructured | aggregator.cpp:46-49 | popping fronts keeps each block's views contiguous with the owner last |
| Blocks.OwnedFrontsGone | aggregator.cpp:53-58 | a released block was live and no remaining view refers to it |
| Blocks.PopPlaced | aggregator.cpp:46-58 | after a pop every queued view still refers to a live block of its shard |
| Blocks.PopReleasedOnce | aggregator.cpp:53-58 | after a pop only allocated blocks are released, none twice |
| Blocks.PopNoLeak | aggregator.cpp:46-58 | after a pop every live block is still referred to by a queued view |
| Blocks.PushPreservesOwnership | aggregator.cpp:146-157 | pushing a fresh block's views keeps the storage discipline |
| Blocks.PushPlaced | aggregator.cpp:155-157 | pushed views refer to the fresh live block of their shard |
| Blocks.PushNoLeak | aggregator.cpp:146-157 | the fresh block is referred to by its views |
| Blocks.AppendBlockStructured | aggregator.cpp:155-157 | appending a block's views keeps each block's views contiguous with the owner last |
| Blocks.BasesAppend | aggregator.cpp:155-157 | the blocks referred to by a grown queue are the old ones plus the new ones |
| Blocks.NoLeakWhenEmpty | aggregator.cpp:53-58 | once every queue is empty every allocated block has been released exactly once |
| Blocks.DistinctRangeLength | aggregator.cpp:53-58 | a repeat-free release log holding every block below n has length n |
| Blocks.DistinctCard | aggregator.cpp:53-58 | proof helper: a repeat-free sequence has as many elements as entries |
| Blocks.RangeCard | search.cpp:83-141 | proof helper: the numbers below n form a set of size n |
| Aggregation.SlotInRange | aggregator.cpp:130-171 | the answer slot (qn mod capacity)*k lies inside the capacity*k answer array |
| Aggregation.SlotBase | aggregator.cpp:171 | the slot of query qn is (qn mod capacity)*k and its k entries fit the array |
| Aggregation.SlotsDistinct | aggregator.cpp:171 | two of the last capacity queries never share a slot |
| Aggregation.SlotsApart | aggregator.cpp:171 | distinct slots do not overlap |
| Aggregation.RowKept | aggregator.cpp:171 | rewriting one slot leaves a disjoint slot as it was |
| Aggregation.WriteRow | aggregator.cpp:171 | the answer array with exactly one slot rewritten and nothing else changed |
| Aggregation.Column | aggregator.cpp:46-48 | the views at position q of every shard queue, one per shard |
| Aggregation.BlockViewsFit | aggregator.cpp:155-157 | every view of a received block can be merged |
| Aggregation.PopKeepsSynced | aggregator.cpp:46-48 | the fronts are the qn-th view of every shard, and the popped queues hold the views from qn+1 |
| Aggregation.ColumnAdmissible | aggregator.cpp:171 | the views at one position of every shard are admissible merge inputs |
| Aggregation.AppendKeepsSynced | aggregator.cpp:155-157 | appending a block's views to the queue and the history keeps them in step |
| Aggregation.AppendKeepsOwed | aggregator.cpp:153 | lowering a shard's owed count by block_size as its views arrive keeps the count of queries it owes |
| Aggregation.EntriesAppend | aggregator.cpp:155-157 | appending mergeable views keeps every received view mergeable |
| Aggregation.AggregateQuery | aggregator.cpp:43-59 | pops exactly the front view of every shard queue, leaves the rest of each queue unchanged, writes the merge of the fronts into one slot only, and releases exactly the handles of the owning fronts |
| Aggregation.Init | aggregator.cpp:130-141 | one empty queue per shard, every shard owing all total queries, queries_remaining = total, nothing merged, allocated or released; with at least one shard the drain cannot merge before a block arrives |
| Aggregation.ReadyIffNoEmptyQueue | aggregator.cpp:160-169 | the drain merges exactly when no shard queue is empty |
| Aggregation.Enqueued | aggregator.cpp:146-157 | receiving a block keeps the state's shape |
| Aggregation.MergedOnce | aggregator.cpp:171-173 | one merge keeps the state's shape |
| Aggregation.Drained | aggregator.cpp:159-176 | the drain stops with some queue empty, every queue losing the same number of front views, queries_remaining falling by one per merge, nothing else changed |
| Aggregation.Served | aggregator.cpp:143-177 | the receive loop never raises queries_remaining and allocates at most one block per message |
| Aggregation.ServedStops | aggregator.cpp:143 | once queries_remaining drops below 1 further messages change nothing |
| Aggregation.Aggregator.constructor | aggregator.cpp:130-141 | a fresh answer array of num_blocks*block_size*k ids, empty queues, every shard owing all queries |
| Aggregation.Aggregator.Receive | aggregator.cpp:146-157 | the new state is Enqueued of the old one: the block's views appended to its shard, the shard owing block_size fewer queries |
| Aggregation.Aggregator.MergeNext | aggregator.cpp:171-173 | the new state is MergedOnce of the old one |
| Aggregation.Aggregator.HasEmpty | aggregator.cpp:160-167 | reports an empty shard queue exactly when some queue is empty |
| Aggregation.Aggregator.Drain | aggregator.cpp:159-176 | the new state is Drained of the old one |
| Aggregation.Aggregator.Run | aggregator.cpp:143-177 | the new state is Served of the old one; the loop stops only when messages run out or no query remains |
| Aggregation.FrontsAdmissible | aggregator.cpp:169-171 | the fronts of non-empty queues of mergeable views can be merged |
| Aggregation.ServedHistory | aggregator.cpp:143-177 | the history keeps one view sequence per shard |
| Aggregation.AnswersAdvance | aggregator.cpp:171 | writing the next query's merge into its slot keeps the last capacity merged rows in their slots |
| Aggregation.OtherSlotKept | aggregator.cpp:171 | writing one query's row leaves the rows of the other recent queries intact |
| Aggregation.AnswersAppend | aggregator.cpp:155-157 | receiving more views does not change the merge inputs of queries already merged |
| Aggregation.InitInv | aggregator.cpp:130-141 | the invariant holds at the start of the receive loop |
| Aggregation.EnqueuedKeepsInv | aggregator.cpp:146-157 | receiving a block keeps the invariant |
| Aggregation.MergedOnceKeepsInv | aggregator.cpp:171-173 | a merge consumes the qn-th view of every shard and keeps the invariant |
| Aggregation.DrainedKeepsOwnership | aggregator.cpp:159-176 | the drain keeps the storage discipline |
| Aggregation.DrainedKeepsAnswers | aggregator.cpp:159-176 | the drain keeps the last total merged rows in their slots |
| Aggregation.SyncedStopGated | aggregator.cpp:159-169 | once some shard queue is empty, qn is the least number of views any shard has delivered |
| Aggregation.DrainedKeepsInv | aggregator.cpp:159-176 | the drain keeps the invariant and ends with qn equal to the least number of views any shard has delivered |
| Aggregation.ServedKeepsInv | aggregator.cpp:143-177 | the receive loop keeps the invariant; after a message qn is the minimum delivered count across shards |
| Aggregation.AnswersComplete | aggregator.cpp:171 | once all total queries are merged, answer row q holds the merge of the q-th view of every shard |
| Aggregation.ReleasedWhenEmpty | aggregator.cpp:53-58 | with every queue empty every allocated block is released, each exactly once |
| Recall.AtShift | aggregator.cpp:71 | cell j of a row is j entries after the row's start |
| Recall.AtIsProduct | aggregator.cpp:71 | the cell position is i*width + j |
| Recall.AtGrows | aggregator.cpp:71 | later rows start later |
| Recall.AtShiftAll | aggregator.cpp:71 | every cell of a row is offset from the row's start by its column |
| Recall.RowFits | aggregator.cpp:67-71 | a row lies inside any table with more rows |
| Recall.CellReadable | aggregator.cpp:71 | every ground-truth cell load_gt reads lies in the file |
| Recall.CopyRow | aggregator.cpp:70-72 | row i of the table gets the first k entries of file row i; nothing else changes |
| Recall.LoadGt | aggregator.cpp:62-77 | a fresh table of k*distinct_queries entries with gt[i*k+j] == gt_int[i*db_k+j] for every row and column |
| Recall.Nearest | aggregator.cpp:98-99 | query i's true nearest neighbour is an entry of the ground-truth file |
| Recall.NearestRepeats | aggregator.cpp:98-99 | the true nearest neighbour repeats every distinct_queries queries |
| Recall.Matches | aggregator.cpp:101-106 | at most n of n answers can match |
| Recall.AnswerRowFits | aggregator.cpp:102 | the answer row of query i lies inside the answers |
| Recall.MatchesGrow | aggregator.cpp:101-106 | fewer answers cannot match more often |
| Recall.Hits | aggregator.cpp:96-107 | m queries score at most m*min(k, limit) hits at cut-off limit |
| Recall.HitsGrow | aggregator.cpp:103-105 | a larger cut-off counts at least as many hits |
| Recall.HitsAtOne | aggregator.cpp:103 | with cut-off 1 each query scores at most once |
| Recall.CountRow | aggregator.cpp:101-107 | the counters grow by the matches of the row's first 1, 10 and 100 answers against the true nearest neighbour |
| Recall.ShowRecall | aggregator.cpp:91-107 | n_1, n_10 and n_100 count the hits within cut-offs 1, 10 and 100, query i checked against ground-truth row i mod distinct_queries; n_1 <= n_10 <= n_100 and n_1 <= num_blocks*block_size |
| Hybrid.Split | search.cpp:205-207 | blocks_cpu and blocks_gpu sum to N, blocks_cpu is the largest c with (r+1)*c <= N, and blocks_gpu >= r*blocks_cpu |
| Hybrid.DivBounds | search.cpp:206 | the quotient n/d is the largest q with d*q <= n |
| Hybrid.SplitExample | search.cpp:205-207 | 100 blocks with r = 3 split as 25 CPU and 75 GPU blocks |
| Hybrid.LaneOf | search.cpp:129-137 | the lane block i goes to; with r = 0 every block goes to the CPU lane |
| Hybrid.LaneOfPeriodic | search.cpp:129-137 | the lanes repeat with period r+1 |
| Hybrid.Rotate | search.cpp:129-137 | a GPU step lowers the countdown, a CPU step happens only at zero and restarts it at r, and a countdown within 0..r stays within it |
| Hybrid.RotateFollowsLaneOf | search.cpp:129-137 | with the countdown started at r, block i goes to the CPU exactly when i mod (r+1) == r, and the countdown stays r - i mod (r+1) |
| Hybrid.ModWrap | search.cpp:133-135 | the countdown wraps after the CPU block |
| Hybrid.ModStep | search.cpp:129-131 | the countdown steps down after a GPU block |
| Arith.DivModUnique | search.cpp:206 | proof helper: Euclidean division has one quotient and one remainder |
| Arith.MulAtLeast | search.cpp:206 | proof helper: multiplying by a positive count does not shrink |
| Hybrid.LaneBlocks | search.cpp:129-137 | the ids pushed onto a lane's queue are block numbers already received |
| Hybrid.LaneBlocksIncrease | search.cpp:132-136 | each lane's ids strictly increase |
| Hybrid.LaneBlocksPartition | search.cpp:129-137 | each received block number is in exactly one lane's ids, the one its rotation picks |
| Hybrid.RotationMatchesSplit | search.cpp:129-137 | among the first N received blocks exactly N/(r+1) go to the CPU lane and the rest to the GPU lane: the workloads handed to the two drivers |
| Comm.Ids | search.cpp:45 | the ids of the sent messages, in order |
| Comm.Upto | search.cpp:62 | the block numbers 0..n-1 in order |
| Comm.LabelsOf | search.cpp:46 | the label blocks of the sent messages, in order |
| Comm.DistsOf | search.cpp:47 | the distance blocks of the sent messages, in order |
| Comm.SendNumbered | search.cpp:37-53 | sends min(labels, distances) messages tagged with consecutive ids from blocks_sent, removing exactly one label block and one distance block per message |
| Comm.Broadcast | search.cpp:58-60 | every registered query buffer gets the received block at its end |
| Comm.CommHandler | search.cpp:28-67 | ids are 0,1,2,... consecutively, every label and distance block is sent once in order, at most num_blocks blocks are received and each is inserted into every query buffer, and the loop exits only when both counters reach num_blocks |
| Comm.ArrivalKeepsCounting | search.cpp:37-38 | new result blocks from the search side keep the handler's bookkeeping |
| Comm.SendKeepsCounting | search.cpp:40-52 | a send burst keeps the ids consecutive and the results in order |
| Comm.ReceiveKeepsCounting | search.cpp:55-63 | receiving the next block into every query buffer keeps the bookkeeping |
| Comm.Worked | search.cpp:162-171 | a search thread's progress moves queries into label results in order and then inserts distance blocks only for blocks whose label block is in: nothing is reordered, both buffers only grow, and the distance blocks stay a prefix of the label blocks |
| Comm.IdleWork | search.cpp:162-171 | a search thread that makes no progress leaves its lane unchanged |
| Comm.Burst | search.cpp:84-101 | a burst has min(distances, labels) messages, the j-th tagged with the j-th queued id and carrying the j-th label and distance blocks |
| Comm.Flushed | search.cpp:97-98 | after a burst no distance block is left, and the label blocks left are exactly those whose distance block is not in yet |
| Comm.SendLane | search.cpp:84-101 | the messages sent are the lane's Burst and the lane is left Flushed, with exactly the sent ids popped from the front of its id queue |
| Comm.DropFromPrefix | search.cpp:97-98 | proof helper: removing the same number of blocks from both result buffers keeps the distance blocks a prefix of the label blocks |
| Comm.OnLaneAppend | search.cpp:89-113 | filtering by lane distributes over concatenation |
| Comm.OnLaneAll | search.cpp:89-113 | ids all on one lane are kept by that lane's filter and dropped by the other's |
| Comm.WorkKeepsLane | search.cpp:162-171 | a search thread's progress keeps its lane's invariant |
| Comm.SendKeepsLanes | search.cpp:84-123 | a burst from one lane keeps both lanes' invariants and tags each message with the block it carries |
| Comm.BurstKeepsOwnLane | search.cpp:86-101 | a burst takes the fronts of its lane's id queue and result buffers together |
| Comm.BurstOnLane | search.cpp:89-113 | a burst's ids belong to its lane and leave the other lane's sent ids unchanged |
| Comm.BurstTagged | search.cpp:89-117 | each message of a burst carries the id of the query block it answers |
| Comm.ReceiveKeepsLanes | search.cpp:126-140 | receiving block number blocks_received pushes its id onto the lane the countdown picks and keeps both lane invariants |
| Comm.SendBursts | search.cpp:84-123 | the messages appended are the GPU lane's burst followed by the CPU lane's, each lane is left Flushed with its sent ids popped, and the dispatch invariant is kept |
| Comm.ReceiveBlock | search.cpp:126-140 | the countdown takes one Rotate step and block number blocks_received joins the queries and the id queue of exactly the lane LaneOf picks, the other lane unchanged; the invariant is kept |
| Comm.Pass | search.cpp:83-140 | one pass: the new messages are the two lanes' bursts after the search threads' progress; while blocks remain the countdown steps once and block blocks_received joins the lane LaneOf picks; the dispatch invariant is kept |
| Comm.CommHandlerBoth | search.cpp:70-142 | the loop keeps the dispatch invariant: each lane's sent ids followed by its id queue are exactly its LaneBlocks, and each message is tagged with the block it answers; it stops only when num_blocks messages are sent or progress runs out |
| Comm.InitialDispatching | search.cpp:71-78 | the dispatch invariant holds before the first pass |
| Comm.OutOfOrderRun | search.cpp:83-141 | with r = 1 and two blocks, when the CPU thread finishes block 1 first, the handler sends id 1 while block 0 still waits on the GPU lane |
| Comm.BothBlocksQueued | search.cpp:126-140 | two idle passes queue block 0 on the GPU lane and block 1 on the CPU lane and send nothing |
| Comm.BlockZeroQueued | search.cpp:126-132 | the first idle pass queues block 0 on the GPU lane |
| Comm.BlockZeroGoesToGpu | search.cpp:129-132 | proof helper: the lanes after the first pass of OutOfOrderRun |
| Comm.BlockOneGoesToCpu | search.cpp:133-136 | proof helper: the lanes after the second pass of OutOfOrderRun |
| Comm.CpuFinishesFirst | search.cpp:103-123 | proof helper: the bursts and lanes of the third pass of OutOfOrderRun |
| Comm.Between | search.cpp:132-136 | proof helper: the numbers a..b-1 in order |
| Comm.LaneBlocksOnLane | search.cpp:129-137 | a lane's ids are the block numbers below n that the rotation gives it |
| Comm.UptoAround | search.cpp:132-136 | proof helper: the numbers below n are those below b, then b, then those above b |
| Comm.FrontOfLane | search.cpp:89-113 | in a lane that has sent its blocks below b in order, block b, once received on this lane, is at the front of its id queue |
| Comm.NextAtFront | search.cpp:89-113 | after blocks 0..b-1 are sent in order, block b, once received, is at the front of its lane's id queue, so in-order sending waits only for that block's results |
| Comm.AppendNext | search.cpp:100 | proof helper: one more message tagged b keeps the ids 0..b in order |
| Comm.GpuSendsNext | search.cpp:86-101 | sending the GPU lane's front block when it is block blocks_sent keeps the dispatch invariant and the ids in order |
| Comm.CpuSendsNext | search.cpp:109-123 | sending the CPU lane's front block when it is block blocks_sent keeps the dispatch invariant and the ids in order |
| Comm.SendInOrder | search.cpp:84-123 | the corrected send: the ids stay 0,1,2,... in order, the invariant is kept, and it stops only when neither lane can send block blocks_sent |
| Comm.CommHandlerBothInOrder | search.cpp:83-141 | the corrected handler keeps the dispatch invariant and sends the ids 0,1,2,... in order, and once num_blocks are sent they are exactly 0..num_blocks-1 |
| Comm.OnLaneSizes | search.cpp:129-137 | every id is on exactly one lane |
| Comm.OnLaneMembers | search.cpp:129-137 | a lane's filtered ids come from the list |
| Comm.FinishedSendsEveryBlock | search.cpp:83-141 | once num_blocks messages are sent, all num_blocks blocks were received, both id queues are empty, every block id below num_blocks was sent, and none twice |
| Comm.SubsetCard | search.cpp:83-141 | proof helper: a subset is no larger |
| Comm.ElementsAtMost | search.cpp:83-141 | proof helper: a sequence has at most as many different numbers as entries |
| Comm.FullElementsDistinct | search.cpp:83-141 | proof helper: a sequence with as many different numbers as entries repeats none |
| Driver.Remaining | search.cpp:152-164 | the blocks left never exceed the workload |
| Driver.MainDriver | search.cpp:144-180 | each pass takes min(request, left) blocks; it exits only with nothing left or the answers exhausted; the label and distance buffers get exactly the searched blocks in order, and nq grows by num_blocks*block_size per block |
| Driver.RemainingShrinks | search.cpp:153-164 | the blocks left never grow |
| Driver.ZeroAnswersWait | search.cpp:156-160 | zero answers consume nothing: the driver only retries |
| Driver.PositiveAnswersFinish | search.cpp:152-164 | answers of at least one block finish the workload within workload answers |

## Left out

- Message passing is not modelled: the ready signal to the generator, the broadcasts, the
  synchronous sends of block ids and results, `MPI_Recv` in the aggregator and `send_times`.
  A received block is the value `ResultMessage(shard, ids, dists)`.
- The wire tags are not modelled. The shards send the block id, the ids and the distances on
  tags 0, 1 and 2. The aggregator receives tag 0 into its id array and tag 1 into its
  distance array (aggregator.cpp:149-150). Its tag-0 receive therefore matches the shard's
  block-id message, so the block id lands in the id array. Its tag-1 receive matches the
  label message, whose element type differs, and the tag-2 distance message is never
  received. The model hands the aggregator each block's ids and distances as one message.
- The shard number `MPI_SOURCE - 2` is not modelled; a message names its shard.
- Threads, joins and the locking inside `SyncBuffer` are concurrency. `SyncBuffer` is not part
  of this model and appears only as a FIFO sequence of blocks. Capacity limits are left out.
  The interleaving of the search threads with the communication thread is a sequence of
  environment steps.
- The query buffers' consumer side in comm_handler is not modelled. The buffers record the
  inserted blocks only.
- The FAISS index, the GPU, `process_buffer` and the search strategies are foreign calls. A
  result block is named by the query block it answers.
- Floating point is left out:
  - the throughput ratio rounded by `nearbyint` (r is given as a natural number);
  - the sleep interval after a zero answer;
  - the index slice fractions;
  - the printed recall ratios (only the counts are modelled).
- Timing (`now`, `usleep`, `end_times`) and debug logging are left out.
- File reading by `ivecs_read` is a parameter: the file contents and the row width.
- Process start-up in `sharded.cpp` is not part of this model.
- Integer widths are not modelled. The model does not capture the `int` counters and products
  of the source (`nqueries`, `blocks_until_cpu`, `n_1`, the `i * k + j` indices) or their
  overflow.
- `waitForData` in main_driver is the precondition that the query buffer will hold the whole
  workload (`workload <= |queries|`).
- The loops that block forever in the source are bounded by the environment sequences:
  - the aggregator waiting for messages;
  - comm_handler waiting for results;
  - the driver retrying on zero answers.
  Each method's postcondition says the loop stopped either because the sequence ran out or
  because the source's exit condition holds.
- The answers array's initial contents are arbitrary, as `new[]` leaves them.
- Aggregation.EnqueuedKeepsInv: requires block_size >= 1. With block_size 0 a received block
  has no views, so no view owns its storage and the storage is never released.
- Aggregation.ServedKeepsInv: requires block_size >= 1 for the same reason.
- Merge.MergeResults: requires every distance to be below the sentinel and at least one
  shard. Otherwise a round can choose no shard and the source indexes `counter[-1]`.
- Recall.ShowRecall: requires `total == 0 || (distinct_queries >= 1 && k >= 1)`. With k = 0
  the source reads `gt[nq * k]` from an empty table, and with distinct_queries = 0 it
  evaluates `i % 0`. Both are undefined in C++, so the model excludes them.
- Aggregation.Aggregator.constructor: requires nshards >= 1. With no shards nothing is ever
  sent to the aggregator, and its receive loop blocks forever in `MPI_Recv`.
- Comm.Worked: a search thread's label blocks may run ahead of its distance blocks by more
  than one batch. In the source they differ by at most the batch being inserted
  (search.cpp:170-171). The model admits more interleavings, so what it proves holds for the
  source's too.
- Progress that a search thread makes during a send burst counts toward the next pass. A
  burst reads only its own lane, so this covers every interleaving of the source.

## Findings

| source | as written | input that shows it | evidently intended | confidence | as-written member | corrected member |
|---|---|---|---|---|---|---|
| search.cpp:83-141 | each lane sends its finished blocks as soon as both result buffers hold them, so a shard's messages can leave out of block order; the aggregator ignores the block id and pairs a shard's views with queries by arrival order (aggregator.cpp:155-156) | r = 1, two blocks: block 0 goes to the GPU lane, block 1 to the CPU lane, and the CPU thread finishes block 1 first; the handler sends block 1 while block 0 waits | the shard sends its blocks in block order 0, 1, 2, ..., as comm_handler does | medium, not executed | Comm.OutOfOrderRun | Comm.CommHandlerBothInOrder |
