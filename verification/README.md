# EOA topic indexer: a verified model

The indexer follows one event topic of an Ethereum chain and stores the events
that involve one address. Fetch tasks ask nodes for ranges of blocks, splitting
a range that a node finds too big. Their results reach the synchronizer out of
order; it flushes the longest run of consecutive blocks into a key-value file
under consecutive keys, together with the number of the last saved block. In
full mode the orchestrator keeps opening new ranges as the chain grows, and a
restart continues after the last saved block. Every node request goes through a
balancer that retries over several endpoints. An HTTP endpoint serves the
stored events in pages.

The model has three layers.

* The components in the form the code has them: classes with the code's fields
  and loops (`Synchronizer`, `Persistor`, `Fetcher`, `Orchestrator`, `Balancer`)
  and the loops of `fetchData`. Each method is proved against a function of the
  old state or of the replies.
* What a correct indexer should store, stated without the code: for a fixed
  chain, `ChainSpec.BlockSpec` gives the records of each block, and
  `PipelineInvariant.Scan` those of a range, in order.
* The whole system as labelled steps (`Pipeline`): fetch tasks with permits, the
  bounded channel, the three moments of a save, ticks and tag requests of the
  orchestrator, failing commits, tasks that take the process down, crashes at
  any moment and restarts in either mode. Runs are arbitrary interleavings. Nodes
  may list logs in any order; only what compares the bucket with the scan of the
  chain needs the logs of one transaction in log order (`Config.logOrder`).

The main results:

* In every reachable state of one process on empty buckets, and for replies in log
  order, key k holds the k-th record of a sequential scan of the committed blocks
  (`PipelineResults.BucketIsScan`, `BucketLookup`), and a client that follows
  page links while indexing goes on reads exactly that scan
  (`PipelineReads.LinksServeTheScan`).
* Every requested block is in exactly one place at any time
  (`EveryBlockInOnePlace`); when the orchestrator asks for the tag, nothing is in
  flight (`AskingMeansQuiet`), so its cycles are adjacent (`CyclesAreAdjacent`). A tick
  and its tag request are the tick of the orchestrator class (`TickInSteps`), and with a
  permit and no failing log a full-mode process can, from every reachable state, save
  everything up to any later tag (`FullModeKeepsUp`).
* Across crashes and restarts in full mode the saved blocks are 0, 1, 2, ..., each
  once (`FullModeSavesInOrder`).
* As long as no log takes the process down, a cycle cannot get stuck (`NeverStuck`),
  and it ends with everything saved unless requests for at most one block, empty ones
  included, keep being too big: k such answers allow at most 6k working steps and 2k
  fetches more (`CycleEnds`, `FreshCycleIsShort`), and cycles are without bound exactly
  when such answers are (`EndlessIff`). With a node that always answers alike they are
  bounded exactly when the splitting of the request comes to no range that is too big
  and one of its own halves (`NodeCyclesEndIff`).
* For every truthful reply, in any order, the five maps and the sort of `fetchData`
  return the records of the logs that are last in the reply for their transaction
  (`FetchMeetsReply`). Log by log: a last log is stored exactly when its sender or its
  recipient is the configured address, and one without a sender, a root or a recipient
  fails the fetch (`EachLastLog`, `EachRecord`, `FetchFailsIff`). Splitting a range returns
  what one fetch that gets all the replies would (`SplittingKeepsMeaning`). For replies
  that list the logs of one transaction in log order these are the specified records of
  the chain (`FetchMeetsSpec`, `UnionMeetsSpec`).
* All orders of a reply have the same outcome if and only if some transaction has only
  failing logs, so that all of them fail, or no log fails and every log that can be kept
  is the only log of its transaction (`TableOrderMattersIff`, and `ResultOrderMattersIff`
  when records tell the logs of a block apart).
* The balancer visits clients in cyclic order and returns the first decisive
  answer: that of the first contacted client that answers or fails with -32602 or -32600
  (`CallMeaning`, `CallEnds`). Giving up means that every usable client was asked in every
  later round (`GivingUpMeansAllWereAsked`). A timeout or a 429 keeps a client out of turn
  for the block time (`TimedOutClientRests`), and only another failure keeps it out for
  good (`ForeverIffFailedOnce`, `BlocksOverRuns`).

Where the code does not do what its text says:

* fetcher/fetcher.go:201 promises that data saved before a restart is not lost.
  The index of the synchronizer starts at 0 in every process
  (synchronizer/synchronizer.go:33-41, 124-126), so a second process writes over
  the first keys. `RecordsSurviveRestartsIff` gives the exact condition,
  `RestartOverwrites` what is found instead, and `LossOnOneChain` a run that loses
  a record.
* `txHashToLog` keeps one log for each transaction (fetcher/fetcher.go:90-94).
  `ShadowedLogsAreLost` says exactly when a block loses records,
  `TableOrderMattersIff` exactly when the order of the reply decides the outcome.
  `SharedTransactionOrderMatters` gives two orders of one reply with different
  results, and `OrderDecidesFailure` a reply of which one order takes the process down
  and the other succeeds.
* Splitting is meant to make a request smaller (fetcher/fetcher.go:61-64), but both
  halves of a request for at most one block are no smaller (fetcher/fetcher.go:185-194).
  A one-block request that is too big asks for the same block again, and an empty one
  becomes two empty ones. Both requests occur: the first in either mode
  (`OneBlockOccurs`), the second after any restart in full mode whose tag has not moved
  (orchestrator/orchestrator.go:99-101, `UnmovedTagOccurs`) and in range mode with
  START_BLOCK after END_BLOCK (`BootRangeReaches`). `TooBigNeverEnds` follows any such
  request for any number of answers.
* Adding an item is described as non-blocking (synchronizer/synchronizer.go:43-44). It
  waits exactly while the channel holds 200 items (`SendWaitsIff`). Every request of more
  than 200 blocks can bring this about when no log takes the process down
  (`FirstRequestFills`, `LaterRequestFills`).

Assumptions: the chain does not change; truthful replies hold exactly the logs of the
range; headers and transactions come in the order in which they were asked for; a database
transaction is atomic and a cursor walks keys in byte order; block heights stay below 2^62. The balancer is called by
one caller at a time, on a clock that does not go back.

## Model

| member | source | states |
|---|---|---|
| `Encoding.RoundTrip` | types/types.go:52-62 | decoding undoes encoding for every Go int |
| `Encoding.RoundTripKey` | types/types.go:52-62 | every eight-byte key is the encoding of the int it decodes to |
| `Encoding.KeyDigits` | types/types.go:57-62 | the eight bytes are the base-256 digits of the number, of 2^64 more when it is negative, highest first |
| `Encoding.KeyOrder` | types/types.go:57-62 | the byte order of keys is numeric order on indexes below 2^63 and among negative ones; negative indexes sort after all others |
| `Encoding.LessIff` | persistor/persistor.go:161-173 | the byte order of the cursor decides by the first position at which two keys differ |
| `Persistor.Persistor.StartDB` | persistor/persistor.go:49-102 | the buckets after a start in either mode: emptied in range mode and after a range run, records and last block kept otherwise, untouched when the transaction fails |
| `Persistor.Persistor.GetLastBlockIndex` | persistor/persistor.go:106-127 | -1 without an entry, else the number whose key is stored |
| `Persistor.Persistor.SaveData` | persistor/persistor.go:130-150 | data and last block change together or not at all |
| `Persistor.Persistor.GetPaginated` | persistor/persistor.go:154-183 | the page is the first `limit` entries at or after the start in key order, without a gap; the next index counts them |
| `Persistor.DenseLookup` | persistor/persistor.go:131-140 | a bucket written under 0, 1, 2, ... holds record k under key k and no other key |
| `Persistor.PutFromConcat` | persistor/persistor.go:130-150 | two consecutive batches write what one batch writes |
| `Paging.PageOfDense` | persistor/persistor.go:161-173 | over dense keys entry j of a page is record start + j, and the page is as long as the limit and the records allow; a negative start finds nothing |
| `Paging.LinksServeEverything` | router/router.go:66-69 | following the links serves every record once and in order, whatever is appended between requests |
| `Paging.LinksStop` | router/router.go:66-69 | over n records the links stop after floor((n - start) / limit) + 1 pages |
| `Synchronizer.Synchronizer.Add` | synchronizer/synchronizer.go:57-70 | every block of the item's range enters the buffer, without records where the item has none; nothing else changes |
| `Synchronizer.Synchronizer.Save` | synchronizer/synchronizer.go:72-119 | memory and database after a save, failing commits included |
| `Synchronizer.Frontier` | synchronizer/synchronizer.go:87-92 | the walk over the buffer ends at the least missing block |
| `Synchronizer.SaveMoves` | synchronizer/synchronizer.go:72-119 | a save moves to the least missing block, forgets exactly the blocks passed and records the last; a failed one changes nothing |
| `Synchronizer.SaveStores` | synchronizer/synchronizer.go:82-101 | record j of a saved block is under the key that counts the records before it; all other keys are as before |
| `Synchronizer.SaveCanWait` | synchronizer/synchronizer.go:57-119 | a save, successful or not, can be left to the save after the next delivery |
| `Synchronizer.ScheduleIndependence` | synchronizer/synchronizer.go:57-119 | any order of deliveries with any saves between them ends, after a last save, as one add and one save |
| `Synchronizer.SameBlocksSameState` | synchronizer/synchronizer.go:57-119 | two schedules that deliver the same blocks end in the same state |
| `Synchronizer.RangeCompletes` | synchronizer/synchronizer.go:57-119 | a schedule that delivers a whole range ends past it with an empty buffer and all its records committed |
| `FetchJoin.CollectBlocks` | fetcher/fetcher.go:79-87 | the block numbers of a reply in order of first appearance, each once |
| `FetchJoin.CollectTxs` | fetcher/fetcher.go:89-94 | all transaction hashes, and the table in which a later log of a transaction replaces an earlier one |
| `FetchJoin.Judge` | fetcher/fetcher.go:113-148 | a transaction and its log fail exactly without a sender, a root or a recipient, and give a record exactly when sender or recipient is the configured address, with the decoded root and the time and parent of the header |
| `FetchJoin.CollectCells` | fetcher/fetcher.go:101-149 | the nested maps and index lists stand for the kept records by block and log index, or the first failing transaction ends the loop; what one transaction yields is `Judge` |
| `FetchJoin.CollectRows` | fetcher/fetcher.go:151-158 | for each block its kept records in increasing log index |
| `FetchJoin.FetchData` | fetcher/fetcher.go:69-161 | the result for any replies, errors of either request and of the join included |
| `FetchJoin.RequestErrors` | fetcher/fetcher.go:69-99 | a failed request is returned with its own error, and the join never says "too big" or "max rounds"; without logs the second request is not made |
| `ChainSpec.FetchMeetsReply` | fetcher/fetcher.go:69-161 | for every truthful reply in any order the result is, for each block, one record for each log that is last in the reply for its transaction and involves the address, in increasing log index; it fails exactly when such a log has no sender, no root or no recipient |
| `ChainSpec.EachLastLog` | fetcher/fetcher.go:109-149 | in the terms of the node: a last log whose sender or recipient is the configured address is stored under its block with the decoded root and the time and parent of the block |
| `ChainSpec.EachRecord` | fetcher/fetcher.go:109-149 | every stored record is that of such a last log |
| `ChainSpec.FetchFailsIff` | fetcher/fetcher.go:109-149 | the join fails if and only if some last log has no sender, no root or no recipient |
| `ChainSpec.InOrderSpec` | fetcher/fetcher.go:89-158 | a reply in log order yields the specified records of each block of its range, and none for other blocks |
| `ChainSpec.FetchMeetsSpec` | fetcher/fetcher.go:69-161 | so for every reply in log order, whatever the order of the transactions, the result is exactly the specified records of the non-empty blocks of the range |
| `ChainSpec.ShadowedLogsAreLost` | fetcher/fetcher.go:90-94 | a block's records are the plain filter of its logs if and only if no matching log is followed by another of its transaction |
| `ReplyOrder.TablesAgreeIff` | fetcher/fetcher.go:89-149 | two replies in any orders both fail, or give the same table of kept records, if and only if a failing log decides some transaction in both, or in neither and every transaction that yields a record is decided by the same log |
| `ReplyOrder.ResultsAgreeIff` | fetcher/fetcher.go:89-158 | they both fail, or give the same result, if and only if a failing log decides some transaction in both, or in neither and the records of every block agree; equal deciders suffice for that, and are needed when records tell the logs of a block apart |
| `ReplyOrder.TableOrderMattersIff` | fetcher/fetcher.go:89-149 | all orders of a reply fail, or all give the same table, if and only if some transaction has only failing logs, or else no log fails and every log that can be kept is the only log of its transaction |
| `ReplyOrder.ResultOrderMattersIff` | fetcher/fetcher.go:89-158 | the same for the result, when records tell the logs of a block apart |
| `ReplyOrder.OrderDecidesFailure` | fetcher/fetcher.go:117-130 | a failing input without a log that can be kept: one order of two logs of a transaction fails the fetch, the other succeeds |
| `ReplyOrder.PermutationIrrelevant` | fetcher/fetcher.go:89-158 | without shared transactions the result is the same for every permutation of the reply |
| `ReplyOrder.ReplyOrderIrrelevant` | fetcher/fetcher.go:89-158 | two replies in log order give the same result |
| `ReplyOrder.SharedTransactionOrderMatters` | fetcher/fetcher.go:90-94 | the failing input: two logs of one transaction, swapped in the reply, give different records |
| `PlainReply.PlainIsHonest` | fetcher/fetcher.go:69-99 | every range of every valid chain has an honest reply |
| `PlainReply.PlainSucceeds` | fetcher/fetcher.go:109-149 | that reply is turned into records if and only if no deciding log fails |
| `Fetcher.Fetcher.RequestRange` | fetcher/fetcher.go:65-67 | one task for the range |
| `Fetcher.Fetcher.ConcurrentFetchData` | fetcher/fetcher.go:165-169 | the permit is given back whatever the fetch returned |
| `Fetcher.Fetcher.FetchWithRetry` | fetcher/fetcher.go:171-203 | on success exactly one item with the range is sent, on a too-big range its two halves are spawned, any other error panics; no permit is kept |
| `Fetcher.SplitsIff` | fetcher/fetcher.go:176-202 | a task splits, and in the middle, if and only if one of its requests is too big; every other error takes the process down |
| `Fetcher.SplitPartitions` | fetcher/fetcher.go:185-189 | every block of a range is in exactly one half |
| `Fetcher.UnionMeetsReply` | fetcher/fetcher.go:171-194 | for any tree of too-big answers and replies in any order, the replies to the leaves make up a reply for the whole range, and their data together is what that reply yields |
| `Fetcher.SplittingKeepsMeaning` | fetcher/fetcher.go:171-194 | one fetch of the whole range that gets these replies returns exactly the union |
| `Fetcher.UnionMeetsSpec` | fetcher/fetcher.go:171-194 | with replies in log order the union holds the specified records of the range |
| `Fetcher.SplittingInLogOrder` | fetcher/fetcher.go:171-194 | and is what any one fetch of the whole range with a reply in log order returns |
| `Fetcher.TameIff` | fetcher/fetcher.go:185-194 | the splitting of a range by a node that always answers alike ends exactly when it comes to no range that is too big and one of its own halves |
| `Fetcher.SplitCost` | fetcher/fetcher.go:185-194 | a tree of answers for w blocks in which only ranges of more than one block are split has at most 2w - 1 fetches, at depth at most ceil(log2 w); for the fetches of a running cycle see `FreshCycleIsShort` |
| `Fetcher.CeilLog2Exact` | fetcher/fetcher.go:185-194 | the depth bound is the least k with w <= 2^k |
| `Orchestrator.Orchestrator.ManageRange` | orchestrator/orchestrator.go:73-82 | what a range-mode process starts with |
| `Orchestrator.Orchestrator.ManageFull` | orchestrator/orchestrator.go:84-105 | what a full-mode process starts with; a failed tag request leaves only the started database |
| `Orchestrator.Orchestrator.Start` | orchestrator/orchestrator.go:47-71 | the choice of the mode, and that nothing is touched for an invalid tag |
| `Orchestrator.Orchestrator.Tick` | orchestrator/orchestrator.go:115-134 | a tick requests the range from the current block to the tag, and makes the tag the end, exactly when the block is past the old end and not past the tag; a failed tag request reads as block 0 |
| `PipelineInvariant.StepKeeps` | fetcher/fetcher.go:171-203 | every step of every kind keeps the invariant of database, histories, counters, buffer, channel, tasks and permits |
| `PipelineInvariant.RunKeeps` | synchronizer/synchronizer.go:124-143 | so does every run |
| `PipelineInvariant.FullStartIsNext` | orchestrator/orchestrator.go:94-99 | a full-mode process starts with the first block that is not saved |
| `PipelineInvariant.FlatIsScan` | synchronizer/synchronizer.go:87-100 | what a save collects is the scan of the blocks it passes |
| `PipelineResults.BucketIsScan` | synchronizer/synchronizer.go:72-119 | with replies in log order, in every reachable state of one process on empty buckets the bucket is the scan of the committed blocks, and the counters agree with it |
| `PipelineResults.BucketLookup` | synchronizer/synchronizer.go:72-119 | key k holds record k of the scan, and there is no other key |
| `PipelineResults.EveryBlockInOnePlace` | fetcher/fetcher.go:171-194 | each requested block is saved, buffered, queued or with a task, and in only one of these |
| `PipelineResults.AskingMeansQuiet` | orchestrator/orchestrator.go:115-121 | when the tag is asked for, everything requested is saved, nothing non-empty is in flight, and the block that was read is still current |
| `PipelineResults.CyclesAreAdjacent` | orchestrator/orchestrator.go:121-131 | a new cycle starts where the work stopped and raises the end; a failed or late tag opens none; for when a tag is asked for see `TickAsks` |
| `PipelineResults.FullModeSavesInOrder` | orchestrator/orchestrator.go:84-105 | across crashes and restarts since the last wipe the saved blocks are 0..last-block, each once and in order, and the next start is the block after |
| `PipelineResults.RangeModeSavesInOrder` | orchestrator/orchestrator.go:73-82 | range mode saves an interval from its first block, never past its last |
| `PipelineResults.RecordsSurviveRestartsIff` | fetcher/fetcher.go:201 | the bucket holds the records of all saved blocks if and only if at most one process since the last wipe saved any |
| `PipelineResults.RestartOverwrites` | synchronizer/synchronizer.go:82-101 | the records of the last process are under the first keys, whatever was there |
| `PipelineProgress.WorkShrinks` | fetcher/fetcher.go:171-194 | every working step lowers a measure of tasks, queue, unsaved blocks and save phase, except a too-big answer to a request for at most one block, which raises it by five |
| `PipelineProgress.NeverStuck` | fetcher/fetcher.go:165-194 | with one permit or more and no failing log, unfinished work always has a next step |
| `PipelineProgress.NothingLeft` | synchronizer/synchronizer.go:104-109 | with no work left the current block is one past the requested end and nothing is pending |
| `PipelineProgress.CycleEnds` | orchestrator/orchestrator.go:107-134 | a cycle in which requests for at most one block, empty ones included, are too big k times takes at most the work left plus 6k working steps, whatever idles in between, and one that cannot go on has saved the whole range |
| `PipelineProgress.EndlessIff` | fetcher/fetcher.go:185-194 | from any reachable state, cycles are without bound if and only if such too-big answers are |
| `PipelineProgress.FreshCycleIsShort` | fetcher/fetcher.go:171-194 | a process for n >= 1 blocks takes at most 11n - 3 working steps and 2n - 1 fetches, an empty one five and one, plus six and two for each such answer |
| `PipelineProgress.PermitsAreKept` | fetcher/fetcher.go:165-172 | free permits and those in use always add up to the concurrency |
| `PipelineRuns.SaveInSteps` | synchronizer/synchronizer.go:104-114 | commit, publish and clean together are one successful save |
| `PipelineRuns.CycleCompletes` | fetcher/fetcher.go:171-194 | a running process can always be brought to the end of its range |
| `PipelineRuns.ProcessCompletes` | orchestrator/orchestrator.go:84-105 | from any stopped state a full-mode process can save everything up to its tag |
| `PipelineRuns.RestartLosesRecords` | fetcher/fetcher.go:201 | on any chain whose first two blocks have records, a reachable state has saved both and lacks their records |
| `PipelineRuns.LossOnOneChain` | fetcher/fetcher.go:201 | a concrete chain and a reachable state of it in which a record is lost |
| `PipelineCycles.TickAsks` | orchestrator/orchestrator.go:115-121 | in every reachable state a resting orchestrator asks for the tag with the current block if that is past the requested end; otherwise a tick changes nothing |
| `PipelineCycles.TickInSteps` | orchestrator/orchestrator.go:115-134 | a tick and its tag request are together one tick of the orchestrator class, for every reply |
| `PipelineCycles.NextCycleOpens` | orchestrator/orchestrator.go:121-131 | from every reachable state past the requested end, a tag that is not behind leads to a reachable state that requests the blocks up to it and differs in nothing else |
| `PipelineCycles.FullModeKeepsUp` | orchestrator/orchestrator.go:107-134 | with a permit and no failing log, from every reachable state of a full-mode process and for every later tag, the same process can save everything up to the tag and rest again |
| `PipelineCycles.SecondCycleOccurs` | orchestrator/orchestrator.go:84-134 | such cycles occur: a process saves up to its first tag, and a tick and a later tag request exactly the blocks between |
| `PipelineCycles.RestartsInFullMode` | orchestrator/orchestrator.go:84-105 | a stop in any reachable state and a start with any tag lead to a process after the last saved block of a full-mode database, or at block 0 of empty buckets |
| `PipelineCycles.RestartsInRangeMode` | orchestrator/orchestrator.go:73-82 | and in range mode to a process for the range over empty buckets |
| `PipelineCycles.StartCanFail` | orchestrator/orchestrator.go:86-93 | a start whose tag request fails keeps a full-mode database and empties any other |
| `PipelineCycles.CommitCanFail` | synchronizer/synchronizer.go:104-107 | wherever a save can commit its transaction can fail, and then nothing changes |
| `PipelineCycles.FailingFetchStops` | fetcher/fetcher.go:195-202 | any truthful reply can meet a fetch; one that fails, but not as too big, ends the process and changes nothing else |
| `PipelineTooBig.TooBigSplits` | fetcher/fetcher.go:171-194 | a request that is too big takes two steps to become its halves, and nothing else changes |
| `PipelineTooBig.TooBigNeverEnds` | fetcher/fetcher.go:185-194 | for any request for at most one block, n too-big answers take 2n working steps, put n + 1 requests in its place and save nothing |
| `PipelineTooBig.PiledShape` | fetcher/fetcher.go:185-194 | these are requests for at most one block, all waiting |
| `PipelineTooBig.OneBlockOccurs` | orchestrator/orchestrator.go:73-105 | a reachable state asks for any given single block |
| `PipelineTooBig.BootRangeReaches` | orchestrator/orchestrator.go:73-82 | range mode asks for its range even when it is empty |
| `PipelineTooBig.UnmovedTagPilesUp` | orchestrator/orchestrator.go:84-105 | a full-mode restart whose tag has not moved asks for the empty range after the last saved block; n too-big answers make n + 1 of it |
| `PipelineTooBig.UnmovedTagOccurs` | orchestrator/orchestrator.go:84-105 | such a restart is reachable for every tag |
| `PipelineTooBig.NodeCyclesEndIff` | fetcher/fetcher.go:171-194 | with a node that always answers alike, the cycles of a process are bounded if and only if the splitting of its request comes to no range that is too big and one of its own halves |
| `PipelineChannel.SendWaitsIff` | synchronizer/synchronizer.go:43-49 | a task with its item ready has to wait exactly while the channel holds 200 items |
| `PipelineChannel.ChannelFills` | synchronizer/synchronizer.go:33-49 | with no failing log, more than 200 blocks on the way can fill the channel and leave a task waiting |
| `PipelineChannel.FirstRequestFills` | synchronizer/synchronizer.go:33-49 | so can every first request of more than 200 blocks, in either mode and from any reachable state |
| `PipelineChannel.LaterRequestFills` | synchronizer/synchronizer.go:33-49 | and every later request of more than 200 blocks that a tag opens; that tags open such requests is `NextCycleOpens` |
| `PipelineReads.PageOfScan` | persistor/persistor.go:154-183 | a page of a reachable bucket is a slice of the scan |
| `PipelineReads.LinksServeTheScan` | router/router.go:66-69 | links followed while indexing goes on serve the scan to what the last request saw, once and in order |
| `Balancer.Balancer.constructor` | balancer/balancer.go:52-70 | every client may be contacted from a second before now, and the counter is zero |
| `Balancer.Balancer.TemporaryBlock` | balancer/balancer.go:86-91 | one client is blocked until the block time from now |
| `Balancer.Balancer.IndefiniteBlock` | balancer/balancer.go:93-98 | one client is blocked for good |
| `Balancer.HandleRPCError` | balancer/balancer.go:170-190 | -32602 and -32600 mean too big, 429 means rate limit, any other code and none mean another failure |
| `Balancer.FateOf` | balancer/balancer.go:228-255 | what becomes of a contacted client, from the outcome and its code |
| `Balancer.Balancer.IsBlocked` | balancer/balancer.go:100-105 | a client is blocked exactly when its block is for good or ends after now |
| `Balancer.TurnIsRemainder` | balancer/balancer.go:226-227 | the client in turn is the remainder of the counter |
| `Balancer.Balancer.DoRetry` | balancer/balancer.go:192-220 | the counter moves by one on every path; a client blocked at that time is not contacted, and any other is, with its own answer or failure as the result |
| `Balancer.Balancer.RetryOnce` | balancer/balancer.go:225-255 | one attempt, the block it earns, and whether it ends the pass; both in the terms of the node are in `AttemptEffect` and `CallEnds` |
| `Balancer.Balancer.HandleRetries` | balancer/balancer.go:222-259 | a pass over the clients up to the first decisive attempt |
| `Balancer.Balancer.HandleRounds` | balancer/balancer.go:261-285 | rounds with a sleep after each failed one, up to the maximum |
| `BalancerRuns.AttemptEffect` | balancer/balancer.go:192-258 | an attempt reaches the client in turn exactly when its entry is a time not after the begin; a timeout or a 429 sets the entry to the end plus the block time, a failure other than these and -32602, -32600 blocks for good, and nothing else changes any entry |
| `BalancerRuns.FirstCallReaches` | balancer/balancer.go:52-70 | the first call of a new balancer with an endpoint and a round contacts its first client |
| `BalancerRuns.PassMeaning` | balancer/balancer.go:222-259 | a pass visits the next clients in cyclic order, contacting exactly those whose entry allows it; its result is that of the first decisive visit, or errMaxRetries when there is none |
| `BalancerRuns.FailingPassVisitsAll` | balancer/balancer.go:225-258 | a failing pass visits each client exactly once and the next begins with the same client |
| `BalancerRuns.CallMeaning` | balancer/balancer.go:261-285 | at most maxRounds * n attempts, one counter step for each, the first decisive answer or else ErrMaxRounds after all attempts |
| `BalancerRuns.CallEnds` | balancer/balancer.go:222-285 | a call returns the answer, or ErrReqTooBig, of the first contacted client that answers or fails with -32602 or -32600; a 429, a timeout or another failure never ends it, and without such a client the result is ErrMaxRounds after maxRounds * n attempts |
| `BalancerRuns.CallKeeps` | balancer/balancer.go:222-258 | a call blocks a client for good exactly when a visit to it fails in another way, and keeps all temporary blocks within the block time |
| `BalancerRuns.GivingUpMeansAllWereAsked` | balancer/balancer.go:261-280 | after ErrMaxRounds every client not blocked for good was contacted in every round after the first, and timed out or was rate limited |
| `BalancerRuns.BlocksOverRuns` | balancer/balancer.go:86-105 | over any run of calls a client whose block lasts, for good or beyond the end, is never contacted and keeps it; clients become blocked for good exactly by another failure; no temporary block outlasts the block time |
| `BalancerRuns.EveryStateIsBounded` | balancer/balancer.go:52-105 | in every state of a new balancer, between calls and inside them, every client is blocked for good or free again within the block time, and a permanent block stays |
| `BalancerRuns.RunIsEvents` | balancer/balancer.go:222-285 | every run of calls is a sequence of attempts, sleeps and pauses, so the states on its way are those of the prefixes |
| `BalancerRuns.TimedOutClientRests` | balancer/balancer.go:86-91 | after a timeout or a 429 no attempt that begins before the end of that attempt plus the block time reaches the client, whatever happens in between |
| `BalancerRuns.ForeverIffFailedOnce` | balancer/balancer.go:93-98 | over any attempts and pauses a client ends up blocked for good exactly when it was or when some attempt reached it and failed, other than with a timeout, 429, -32602 or -32600 |

## Left out

- The endless loops of the synchronizer, the orchestrator and the fetch goroutines are steps of `Pipeline`; the classes hold one pass of each.
- Concurrent callers of the balancer: two callers can read the same counter, and a temporary block can then replace an indefinite one; the balancer properties are for calls one at a time, with a counter below 2^63.
- The requests themselves (balancer/rpc.go), the timeout select and the parsing of node errors (balancer/error_code.go): an attempt is an outcome with an optional error code and an elapsed time.
- Header or transaction entries that a node leaves null, which the code would dereference.
- ABI unpacking, sender recovery and hex formatting are functions of `FetchJoin.Lib`; a transaction without a recipient fails the fetch like the crash it causes.
- The library's `sort.Ints` is an insertion sort on values.
- Gob encoding: a stored record is the record; serialization errors, which the code ignores on writing, are not modelled.
- The database engine: atomic transactions, buckets and byte-ordered cursors are assumed.
- Chain reorganisations: the code never revisits a saved block.
- Negative START_BLOCK and END_BLOCK values, and heights from 2^62 on.
- Negative MAX_ROUNDS and BLOCK_TIME values.
- A cancelled semaphore wait cannot happen with the background context and is not modelled.
- HTTP, configuration, process wiring and logging.
- The dense keys of `PipelineResults.BucketIsScan` are for one process on empty buckets, because the code numbers from 0 in every process; across restarts see `RecordsSurviveRestartsIff`.
- Termination while requests for at most one block are too big, which the code does not provide (`EndlessIff`).
- What the bucket holds when nodes list the logs of one transaction out of log order: each fetch is specified (`FetchMeetsReply`), but the step system compares the bucket with the scan of the chain only for replies in log order.
