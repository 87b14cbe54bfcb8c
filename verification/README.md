# Verified model of the blockchain indexer

The API server indexes a blockchain. Goroutines joined by bounded channels scan old blocks, follow
new heads, fan transactions out to account and log processing, collect burned fees, and write to a
document database that the GraphQL side reads page by page. This project models that core in Dafny
and proves what it promises over whole runs, over all lists and over all keys. Where the code falls
short of a promise, the project states the exact condition under which the promise holds, or gives a
run or an input that breaks it.

`dafny verify dfyconfig.toml` checks everything.

## How the model is built

* **Ingest pipeline.** `Ring` and `BlockScan` hold the classes with the Go fields (ring buffer, block
  scanner, orchestrator). A method is one stretch of Go code between two channel operations; `at` and
  `outbox` say where the goroutine stands, and are the only fields the source does not have. Each
  method is proved equal to a function, and `Pipeline` runs those functions as a step system:
  scanner, orchestrator and block dispatcher interleave freely with ticks, heads, failed calls and
  stop signals. A ghost history records what was queued, reported, received and cached.
  `PipelineLimits` and `PipelineStuck` hold concrete runs that show where the promises stop,
  `PipelineOrder` what more holds when heads arrive in order.
* **Transactions.** `BlkDispatch` is the block dispatcher's own loop and its link to the burn
  records. `TrxWork` is the push order of one transaction, and `TrxFanOut` the interleaving of the
  dispatcher, its two worker queues, the WaitGroups and the storing goroutines. `TrxProgress` shows
  that this never locks up, and `TrxLastSeen` when the last seen block can be trusted.
* **Burned fees.** `Burn` collects records, `BurnTotal` keeps the cached total beside the database.
* **Paging.** `Pages` holds the stored rows, the database query, the list object with its reversal
  in place, and the page a request ought to get (`Wanted`). `ErcTrxList`, `TrxList` and `BlockList`
  are the three loading loops. One class `RowList` stands for the three list types of the source; the
  block list does not use its `first` and `last`.
* **Keys, codecs and smaller cores.** `Bytes`, `Ordinals`, `ErcRescan`, `Accounts`, `Codecs`,
  `Liquidity`, `GasMonitor`, `EpochScan`.

A call to the node or the database is a parameter that says how it is answered (`fetched`, `loads`,
`writes`, `looksUp`, `answers`, ...), so failures mix freely with successes wherever the model has such
a parameter. A panic of the modelled code is an explicit result (`ok == false`, `None`, `Panicked`).

## What the code does differently from what it says

* The dispatched counter takes the first number it receives as its start
  (`internal/svc/scan_blk.go:137`). Queue and counter both stay free of gaps exactly when that number
  is the start block (`Pipeline.NoBlockSkippedExactly`). That holds in all runs without a stop signal
  at the first report exactly when no height below the start block is observed
  (`PipelineLimits.CountsFromStartExactly`); such a stop spoils it for every start block
  (`PipelineLimits.StopBeforeFirstReport`).
* The ring lists its entries newest first, so unloading it lets the counter advance by one at most; it
  then stands still until the next re-scan (`PipelineLimits.StalledUntilRescan`,
  `PipelineLimits.CounterStalls`). With heads in order, a handover loses one exactly when more than 50
  cached heads lie above the adopted height (`PipelineOrder.HandoverLosesExactly`,
  `PipelineLimits.OneHeadTooMany`).
* Scanner and block dispatcher can lock each other up when both channels between them are full, and
  only a stop signal ends that (`PipelineStuck.StuckExactly`, `PipelineStuck.PipelineLocks`).
* The last seen block is the one written last by a storing goroutine. As soon as two transactions are
  of different blocks, some run sees the later block while the earlier transaction is still to be
  stored (`TrxLastSeen.NeverAheadExactly`, `TrxLastSeen.SecondOvertakesFirst`), and it may fall back
  behind stored ones (`TrxLastSeen.LastSeenFallsBack`).
* Reading transactions upwards from the bottom drops the oldest row and adds a newer one
  (`TrxList.OvershootShifts`). A count of -2^31 goes wrong in every list, because its negation
  overflows (`ErcTrxList.ErcPageExactly`, `TrxList.TrxPageExactly`, `BlockList.BlockPageExactly`).
* Token transfers of one block can share a paging ordinal (`Ordinals.SaltExactly`,
  `Ordinals.SaltCollision`), and a walk skips a row wherever a page boundary parts two of them
  (`ErcTrxList.WalkDownExactly`, `Ordinals.TransferWalksExactly`). The comment at
  `internal/types/erc20_trx.go:88` promises 40 bits of time; the mask keeps 39.
* A batch with more than 2^16 entries repeats keys (`ErcRescan.BatchKeysExactly`), and mints or burns
  in a batch are recorded as plain transfers (`ErcRescan.KindExactly`).
* The cached burn total and the database disagree as soon as one of them takes a record and the
  other does not (`BurnTotal.AgreementExactly`), as for blocks handed over newest first
  (`BurnTotal.DescendingCountsFirst`); the next reload heals this (`BurnTotal.ReloadHeals`).
* The optimal liquidity does not depend on the caller's token order, but it may depend on the order
  the pair itself keeps, by rounding (`Liquidity.PairOrderExactly`).

## Model

| member | source | states |
|---|---|---|
| Ring.PushedIsLatest | internal/repository/cache/ring/ring.go:35-54 | adding to a buffer that shows the latest entries of a log shows the latest entries of the longer log |
| Ring.KeepsTheLatest | internal/repository/cache/ring/ring.go:12-94 | whatever was added since the reset, the buffer is exactly the most recent `capacity` entries, newest first |
| Ring.Ring.Add | internal/repository/cache/ring/ring.go:35-54 | the wrap-around in place puts the value in front of the contents and drops the oldest one when full |
| Ring.Ring.Reset | internal/repository/cache/ring/ring.go:57-61 | the buffer is empty afterwards |
| Ring.Ring.List | internal/repository/cache/ring/ring.go:64-94 | the loop over the circular indexes returns the newest entries in order, and no nil entry is met |
| BlockScan.Boundaries | internal/svc/scan_blk.go:99-113 | the start is at most the last known block, at most `rescan` below it, and never falls below 1 |
| BlockScan.RescansExactly | internal/svc/scan_blk.go:99-113 | a known block is scanned again if and only if it is the last one, or the chain is longer than `rescan` and it lies at most `rescan` below the last one |
| BlockScan.BlkScanner.OnDispatched | internal/svc/scan_blk.go:135-139 | a dispatched number moves the counter only when it is unset or followed without a gap; nothing else changes |
| BlockScan.BlkScanner.Begin | internal/svc/scan_blk.go:126 | the first observation sets the target and discards the idle state it asks for |
| BlockScan.BlkScanner.Observe | internal/svc/scan_blk.go:150-173 | new range and wanted idle state, in all cases of failed call, waiting on hysteresis and adopted height |
| BlockScan.BlkScanner.UpdateState | internal/svc/scan_blk.go:177-204 | a changed state is kept and is pending on the switch channel; an equal one changes nothing |
| BlockScan.BlkScanner.OnObserveTick | internal/svc/scan_blk.go:140-141 | a tick is an observation followed by the state update |
| BlockScan.BlkScanner.Shift | internal/svc/scan_blk.go:207-234 | idle does nothing, past the target observes, otherwise a loadable `next` block is offered |
| BlockScan.BlkScanner.OnSent | internal/svc/scan_blk.go:228-230 | only a successful block push advances the scan position, by one |
| BlockScan.ResumesExactly | internal/svc/scan_blk.go:150-204 | from idle, an observed height resumes the scan if and only if it is 100 blocks past the counter and not below the scan position; while it is less than 100 blocks past, range start and position follow the counter, and otherwise only the target changes |
| BlockScan.IdlesExactly | internal/svc/scan_blk.go:150-204 | an active scanner takes over every observed height and goes idle, announcing it, if and only if the height lies below the scan position; the first observation of all never announces anything |
| BlockScan.FailedCallWakes | internal/svc/scan_blk.go:150-188 | a failed height call wakes an idle scanner without touching its range and leaves an active one alone |
| BlockScan.OffersExactly | internal/svc/scan_blk.go:207-234 | a scan tick offers a block if and only if the scanner is active, the block is its position, within the target and loadable; past the target the tick is an observation |
| BlockScan.Orchestrator.HandleNewHead | internal/svc/orchestrator.go:96-115 | a loadable head is pushed while the scanner idles and cached while it is active; others leave everything as it was |
| BlockScan.Orchestrator.UnloadCache | internal/svc/orchestrator.go:120-134 | all cached heads become blocks to push, in listed order, and the ring is empty |
| BlockScan.Orchestrator.OnStateSwitch | internal/svc/orchestrator.go:82-88 | the routing follows the announced state and the cache is unloaded on idle only |
| Pipeline.RoutesByLastSwitch | internal/svc/orchestrator.go:65-115 | in every reachable state heads are pushed directly if and only if the last switch taken was to idle |
| Pipeline.HeadsRoutedExactly | internal/svc/orchestrator.go:96-115 | after every run a loadable head goes to the dispatcher if the last switch taken was to idle and otherwise to the front of the ring and not to the dispatcher; one that cannot be loaded goes nowhere |
| Pipeline.RoutingFollowsScanner | internal/svc/scan_blk.go:177-204 | until the scanner ends, whenever no switch is pending the orchestrator pushes heads directly if and only if the scanner idles |
| Pipeline.CoreAlways | internal/svc/scan_blk.go:117-234 | in every reachable state: queued contains reported contains received, the scan position bounds `from`, and there are no gaps if the counter began at the start block |
| Pipeline.NoBlockSkippedExactly | internal/svc/scan_blk.go:117-234 | over every interleaving, the queue below the scan position and the counter from the start block on are both free of gaps in all states of a run if and only if the first counted number is the start block |
| Pipeline.CountsFromStart | internal/svc/scan_blk.go:132-146 | a run counts from the start block when no height below it was observed and no stop hit the dispatcher before its first report |
| PipelineLimits.CountsFromStartExactly | internal/svc/scan_blk.go:117-204 | for every start block from 1 on and every bound on observed heights: all runs without a stop at the first report count from the start block if and only if the bound is at least the start block |
| Pipeline.LostBlocksStayAhead | internal/svc/scan_blk.go:150-173 | a block that was never queued stays at or ahead of the scan position and above the counter; an observation of a height at or above it that leaves the scanner active puts it in the range to scan, and an idle scanner resumes if and only if the height is 100 blocks past the counter |
| Pipeline.SwitchesExactly | internal/svc/scan_blk.go:150-204 | in every step of any goroutine: an active scanner goes idle if and only if it observes a height below its position outside the first observation, and an idle one resumes if and only if the height call fails or the height is 100 blocks past the counter and not below the position |
| Pipeline.StaysActiveExactly | internal/svc/scan_blk.go:150-204 | an active scan stays active over a whole run if and only if no height observed on the way, after the very first, lies below the scan position of its moment |
| Pipeline.EachShiftAdvances | internal/svc/scan_blk.go:207-234 | while active, the scan position grows by exactly the number of successful block pushes, whatever else happens |
| Pipeline.SelfHealing | internal/svc/scan_blk.go:150-234 | the scan passes its target after exactly target + 1 - next successful pushes, and then every block from the start up to it was queued |
| Pipeline.HandoverAlways | internal/svc/orchestrator.go:65-134 | in every reachable state each loadable head is queued, about to be pushed, cached, or overwritten in the ring |
| Pipeline.OnlyOverwrittenHeadsMissing | internal/svc/orchestrator.go:82-134 | after the idle switch was handled, only overwritten heads can be missing from the queue |
| Pipeline.HandoverComplete | internal/svc/orchestrator.go:82-134 | and none above the adopted height is missing if at most 50 heads were cached since it was adopted and it covered the heads seen before, whatever the order of heads |
| PipelineOrder.OrderedAlways | internal/svc/orchestrator.go:65-134 | with heads in increasing and adopted heights in non-decreasing order, the overwritten heads of the current log are exactly those the ring no longer holds, and above the height neither they nor cached heads are queued |
| PipelineOrder.HandoverExactly | internal/svc/orchestrator.go:82-134 | then every head above the adopted height is queued after a handover if and only if none of them was overwritten |
| PipelineOrder.RingLosesExactly | internal/svc/orchestrator.go:111-134 | one of the heads cached since the last handover that lie above the height was overwritten if and only if there are more than 50 of them |
| PipelineOrder.HandoverLosesExactly | internal/svc/orchestrator.go:82-134 | from the state in which the idle switch is taken to the one in which the outbox is empty: every head above the adopted height is queued if and only if at most 50 of the heads cached before the switch lie above it and no earlier handover lost one |
| PipelineStuck.StuckExactly | internal/svc/scan_blk.go:206-234 | while all goroutines run, no step but heads and stops is possible if and only if the dispatcher waits to report into a full channel, the block queue is full, the scanner waits to send, and the orchestrator has no switch it can take |
| PipelineStuck.LockedForever | internal/svc/dispatch_blk.go:102-110 | with the scanner waiting to push, whatever follows short of a stop leaves both goroutines and both channels as they are |
| PipelineStuck.PipelineLocks | internal/svc/scan_blk.go:226-233 | a run without failures or stops that ends in such a state |
| Pipeline.NoHeadLost | internal/svc/orchestrator.go:65-134 | scan and handover together: such a head is queued or in the range the scanner still has to deliver |
| Pipeline.TokensAlways | internal/svc/svc.go:32-36 | the stop tokens of scanner and block dispatcher are in their channel, about to go back or consumed, never lost or doubled, and putting one back never blocks |
| Pipeline.StopEndsScanner | internal/svc/scan_blk.go:117-234 | once closed, in every reachable state the scanner can end by its own next steps, one from its loop and three from a pending send, which is given up; nothing is sent and nothing else changes |
| Pipeline.StopEndsDispatcher | internal/svc/dispatch_blk.go:57-124 | the same for the block dispatcher, which gives up the block it was reporting or processing |
| PipelineLimits.StopBeforeFirstReport | internal/svc/dispatch_blk.go:102-110 | for every start block and bound on heights, a run in which a stop during the first report makes the counter start one block too high |
| PipelineLimits.StartAboveHeight | internal/svc/scan_blk.go:126-173 | for every start block and lower bound on heights below it, a run that leads the scanner past a block that was never queued |
| PipelineLimits.OneHeadTooMany | internal/svc/orchestrator.go:96-134 | a run in which the oldest of 51 cached heads is not handed over although it lies above the adopted height |
| PipelineLimits.AscendingCatchesUp | internal/svc/scan_blk.go:135-139 | numbers received in ascending order are all counted |
| PipelineLimits.DescendingCountsOne | internal/svc/scan_blk.go:135-139 | of numbers received in descending order exactly the one after the counter is counted, if it is among them |
| PipelineLimits.NewestFirstAdvancesByOne | internal/svc/orchestrator.go:120-134 | unloading any run of consecutive cached heads, also those at or below the counter, advances it by one if the next number is still listed and not at all otherwise |
| PipelineLimits.StalledUntilRescan | internal/svc/scan_blk.go:135-139 | also for an overflowed ring, the heads that follow are all counted if the newest listed head was the one counted, and otherwise all ignored |
| PipelineLimits.CounterStalls | internal/svc/orchestrator.go:82-134 | a run after which blocks 5 to 8 came back from the dispatcher and the counter of the idle scanner stands at 6 |
| BlkDispatch.BlockDispatcher.ProcessTxs | internal/svc/dispatch_blk.go:128-160 | the loadable transactions leave in order with the block's number and time stamp, cut short exactly where a stop wins |
| BlkDispatch.BlockDispatcher.Process | internal/svc/dispatch_blk.go:102-124 | the number is reported before any transaction leaves, and a stop at the report lets nothing out |
| BlkDispatch.BlockDispatcher.Execute | internal/svc/dispatch_blk.go:57-98 | reports, transactions and finished blocks of a whole run of blocks, each in order |
| BlkDispatch.LoadedExactly | internal/svc/dispatch_blk.go:128-160 | each loadable transaction of a block is handed over at the place its predecessors leave it, with the hash, gas price and gas used of its own detail, and there are no others |
| BlkDispatch.SendsExactly | internal/svc/dispatch_blk.go:102-160 | a block makes one report and one send for each loadable transaction, cut at the send where the stop wins, and is finished if and only if all were made |
| BlkDispatch.OutputExactly | internal/svc/dispatch_blk.go:57-98 | without a stop every block is reported and finished once and in order; in any run no more are finished than reported |
| BlkDispatch.ContiguousExactly | internal/svc/dispatch_blk.go:102-146 | the stream keeps each block's transactions together if and only if blocks that handed any over are dispatched grouped by number |
| BlkDispatch.BurnRecordsExactly | internal/svc/dispatch_burn.go:79-111 | no block gets two burn records if and only if that holds, and then each record has exactly its block's fees and hashes |
| TrxWork.PlanExactly | internal/svc/dispatch_trx.go:137-198 | the work of a transaction is its sender, recipient, created contract and logs, counted, and nothing else |
| TrxWork.TrxDispatcher.Push | internal/svc/dispatch_trx.go:201-234 | the WaitGroup grows before the send, also when the stop wins and nothing is sent |
| TrxWork.TrxDispatcher.PushAccounts | internal/svc/dispatch_trx.go:179-198 | sender, recipient if any and created contract if any are pushed in this order up to a stop |
| TrxWork.TrxDispatcher.Process | internal/svc/dispatch_trx.go:137-163 | accounts before logs, and the transaction is awaited if and only if the whole plan got out |
| TrxFanOut.JoinAlways | internal/svc/dispatch_trx.go:87-234 | the invariant of the fan-out under every interleaving of dispatcher, account and log workers, storing goroutines and stop |
| TrxFanOut.WaitGroupExact | internal/svc/dispatch_trx.go:166-234 | each WaitGroup equals the number of its added items not yet marked done, and the stop token is conserved |
| TrxFanOut.NoItemLostOrDoubled | internal/svc/dispatch_acc.go:58-78 | each item that reached a queue is in exactly one queue or worker, or marked done, and no other item is anywhere |
| TrxFanOut.QueuesExactly | internal/svc/dispatch_trx.go:137-234 | in every reachable state the log queue and its worker hold log records only, the account queue and its worker no log record |
| TrxFanOut.StoredOnlyWhenProcessed | internal/svc/dispatch_trx.go:137-176 | a stored transaction had all accounts and logs processed, is stored once, and its pushing was not interrupted |
| TrxFanOut.StoreEnabledExactly | internal/svc/dispatch_trx.go:166-176 | an awaited transaction can be stored if and only if all its work is done |
| TrxProgress.AtRestExactly | internal/svc/dispatch_trx.go:87-234 | no goroutine can move if and only if nothing is queued, in work, awaited or to be written, and the dispatcher has returned or taken every event: the fan-out never locks up |
| TrxProgress.RestIsComplete | internal/svc/dispatch_trx.go:137-176 | at rest every event taken was stored with all its work done and wrote the last seen block, if and only if no stop interrupted it |
| TrxProgress.WaitsExactly | internal/svc/dispatch_trx.go:201-234 | in every reachable state the dispatcher has to wait with a log record if and only if 5000 are queued, and with an account if and only if 1000 are |
| TrxProgress.StopEnds | internal/svc/dispatch_trx.go:87-234 | once closed, in every reachable state the dispatcher can end by its own next steps from its main select and from a push it waits with, which is given up and its event marked; nothing else changes |
| TrxFanOut.LastSeenExactly | internal/svc/dispatch_trx.go:166-176 | the last seen block is that of the last observer write; each stored transaction writes once, after it was stored |
| TrxLastSeen.Overtakes | internal/svc/dispatch_trx.go:137-176 | for any stream of transactions and any of them, a run in which it alone is stored and its block the last seen one while all others still wait |
| TrxLastSeen.NeverAheadExactly | internal/svc/dispatch_trx.go:122-176 | for any stream, no run ever has an unstored transaction below the last seen block if and only if all transactions are of one block and that is not block zero |
| TrxLastSeen.InOrderNeverAhead | internal/svc/dispatch_trx.go:122-176 | events in block order that write the observer in that order, none left out, never put it ahead |
| TrxLastSeen.SecondOvertakesFirst | internal/svc/dispatch_trx.go:154-176 | a run after which block 2 is the last seen block while the transaction of block 1 still waits to be stored |
| TrxLastSeen.LastSeenFallsBack | internal/svc/dispatch_trx.go:166-176 | a run in which block 2 is stored last and block 1 is the last seen block |
| Burn.BurnDispatcher.Process | internal/svc/dispatch_burn.go:79-111 | one transaction opens, extends or closes a record, updating the open one in place |
| Burn.BurnDispatcher.Execute | internal/svc/dispatch_burn.go:58-76 | the loop leaves the ledger of the whole stream |
| Burn.Conservation | internal/svc/dispatch_burn.go:79-120 | amounts add up to the burned fees and hash lists concatenate to the stream, for all records and for the closed ones with their prefix |
| Burn.RecordBlocks | internal/svc/dispatch_burn.go:79-111 | a block has a record if and only if it occurs in the stream, and the open record is the last block's |
| Burn.DistinctExactly | internal/svc/dispatch_burn.go:90-105 | no block gets two records if and only if its transactions arrive contiguously |
| Burn.OneRecordPerBlock | internal/svc/dispatch_burn.go:79-120 | then every record holds exactly one block's fees and hashes |
| Burn.StampsKept | internal/svc/dispatch_burn.go:79-111 | every record carries the time stamp of the transaction of its block that opened it |
| BurnTotal.MemBridge.NecBurnTotal | internal/repository/cache/burn.go:24-32 | the cached value, or the loader's answer while nothing is cached |
| BurnTotal.MemBridge.RefreshBurnUpdate | internal/repository/cache/burn.go:57-74 | a reload starts one block before the record and lasts 1200 blocks; block zero or a failed load change nothing |
| BurnTotal.MemBridge.NecBurnUpdate | internal/repository/cache/burn.go:35-54 | the container after a record, in all cases of reload, failure and old block |
| BurnTotal.ReloadsAgainExactly | internal/repository/cache/burn.go:35-74 | after a reload the next one is due if and only if the block is at least 1200 further on; a record without a reload leaves that unchanged |
| BurnTotal.BurnStore.StoreNecBurn | internal/repository/burn.go:16-19 | the cache is updated before the insert and whether or not the insert works |
| BurnTotal.BurnStore.NecBurnTotal | internal/repository/burn.go:22-24 | the cached total, or without one the aggregate, which may be refused |
| BurnTotal.AgreementExactly | internal/repository/cache/burn.go:35-54 | one call keeps the reported total equal to the aggregate if and only if both take the record, both miss it, it is worth nothing or no total is cached |
| BurnTotal.ReloadHeals | internal/repository/cache/burn.go:35-74 | after a reload the totals agree, whatever they were before, if and only if the record is stored or worth nothing |
| BurnTotal.CacheAgreesAlways | internal/repository/burn.go:16-24 | over runs of increasing blocks and any number of reloads the reported total equals the aggregate after every call |
| BurnTotal.BurnedFeeBounds | internal/svc/dispatch_burn.go:114-120 | the burned fee is 3/10 of gas price times gas used, rounded down; gas from 2^63 on is taken for a negative amount |
| BurnTotal.FeeRounding | internal/svc/dispatch_burn.go:114-120 | a stream's burned fees never exceed 3/10 of what its transactions paid (gas price times gas used, added up) and fall short of it by at most 9/10 WEI a transaction |
| BurnTotal.ValueRounding | internal/types/burn.go:88-90 | units of 10^10 WEI scaled back fall short of the amounts by less than 10^10 WEI a record and never exceed them |
| BurnTotal.OrderedStreamIncreases | internal/svc/dispatch_burn.go:79-111 | a stream ordered by block makes records with strictly increasing blocks |
| BurnTotal.HandedValueBounds | internal/svc/dispatch_burn.go:79-120 | in whatever order blocks arrive, the values handed to the database never exceed 3/10 of the gas price times gas used of their transactions and miss less than n + m * 10^10 WEI of it |
| BurnTotal.AggregateBounds | internal/repository/db/burn.go:130-158 | the database aggregate keeps both bounds against the fees paid, without any assumption on block order, cache or reloads |
| BurnTotal.CachedNeverExceeds | internal/repository/cache/burn.go:35-54 | for values that are not negative the cached total never exceeds the aggregate, in any block order |
| BurnTotal.ReportedNeverTooHigh | internal/graphql/resolvers/burn.go:13-20 | so the reported total never exceeds 3/10 of the fees paid (gas price times gas used), in any block order |
| BurnTotal.DescendingCountsFirst | internal/repository/cache/burn.go:35-54 | for blocks handed over newest first the cache counts the first record only until a reload, and the reported total falls behind by exactly the others |
| BurnTotal.ReportedTotalBounds | internal/graphql/resolvers/burn.go:13-20 | for records with increasing blocks the reported total keeps both bounds against the fees paid |
| Pages.RowList.Reverse | internal/types/erc20_trx_list.go:31-44 | the swap loop reverses the rows in place and swaps first and last for two rows or more |
| Pages.MatchingSides | internal/repository/db/erc_trx.go:197-214 | the ordinal filters below and above a cursor select exactly the older and the newer rows |
| Pages.SidesOf | internal/repository/db/erc_trx.go:197-214 | where the cursor of a row cuts a list with ties: rows with its ordinal belong to neither side, and it is a clean cut exactly when no neighbour ties |
| Pages.SplitAt | internal/repository/db/erc_trx.go:197-214 | with distinct ordinals a listed row splits the list into newer rows, itself and older rows |
| Pages.WantedIsAdjacent | internal/repository/db/erc_trx.go:293-323 | the wanted page around row i is the slice of the list next to it, with flags for a side that is used up |
| Pages.QueryReadsSide | internal/repository/db/erc_trx.go:197-240 | filter, sort and limit read the wanted side in reading order, one row beyond the page |
| Pages.ReadRows | internal/repository/db/erc_trx.go:252-275 | the loop keeps all rows but the last one read, which is held back |
| ErcTrxList.ErcTrxDb.ListInit | internal/repository/db/erc_trx.go:106-175 | the range mark of the list in all four cases, and an error exactly for an unknown cursor |
| ErcTrxList.ErcTrxDb.Load | internal/repository/db/erc_trx.go:243-290 | rows and flags after the loop; the held back row joins only at the boundary being read towards |
| ErcTrxList.ErcTrxDb.Erc20Transactions | internal/repository/db/erc_trx.go:293-323 | an error exactly for count zero or an unknown cursor, otherwise the page |
| ErcTrxList.ErcPageExactly | internal/repository/db/erc_trx.go:141-323 | for any list, with or without ties, any listed cursor or none and any non-zero 32-bit count the page is the wanted one, except if and only if count is -2^31 and a non-empty list has at most 2^31 rows on that side |
| ErcTrxList.NextDown | internal/repository/db/erc_trx.go:141-323 | a page downwards is the last one, or ends at a listed row whose cursor reads the rows of the side below it |
| ErcTrxList.NextUp | internal/repository/db/erc_trx.go:141-323 | the same upwards with the first row |
| ErcTrxList.WalkDownExactly | internal/repository/db/erc_trx.go:197-323 | following the last row until IsEnd delivers the whole side once and in order if and only if no page boundary parts two rows with one ordinal |
| ErcTrxList.WalkUpExactly | internal/repository/db/erc_trx.go:197-323 | following the first row until IsStart does so upwards under the same condition counted from the bottom |
| ErcTrxList.WalksCompleteExactly | internal/repository/db/erc_trx.go:197-323 | walks of the whole list are complete for every page size if and only if the ordinals are distinct, in either direction |
| ErcTrxList.TieLosesRow | internal/repository/db/erc_trx.go:197-323 | wherever two neighbouring rows tie, the page that ends between them loses the second one for every page read on from there |
| ErcTrxList.WalkDownComplete | internal/repository/db/erc_trx.go:197-323 | with distinct ordinals a walk down from any cursor is complete for every page size |
| ErcTrxList.WalkUpComplete | internal/repository/db/erc_trx.go:197-323 | and so is a walk up |
| TrxList.Load | internal/repository/db/transaction.go:345-386 | rows and flags after the loop; the held back row joins at either boundary |
| TrxList.Finish | internal/repository/db/transaction.go:408-431 | reversal and cut of an overlong list, and the panic of cutting an empty one |
| TrxList.Transactions | internal/repository/db/transaction.go:394-431 | errors, panic and page of a whole request |
| TrxList.TrxPageExactly | internal/repository/db/transaction.go:231-431 | the page is the wanted one if and only if the list is empty, or count is not -2^31 and the request does not read a longer list upwards from the bottom |
| TrxList.OvershootShifts | internal/repository/db/transaction.go:382-427 | in that last case the page is off by one row: the oldest row is missing and one too new is delivered |
| TrxList.TrxWalkDown | internal/repository/db/transaction.go:295-431 | downwards both lists deliver the same pages, so a walk from the top is complete if and only if no page boundary parts a tie, and always with distinct ordinals |
| BlockList.BlockSource.PullBlocks | internal/repository/block.go:179-225 | blocks appended by the loop and settled flags, for every start and limit |
| BlockList.BlockSource.MakeBlocksList | internal/repository/block.go:138-278 | an error exactly for a starting block that does not exist, otherwise the page |
| BlockList.NextBlock | internal/repository/block.go:179-220 | the unsigned step finds the following block if there is one; below block 0 it wraps and finds nothing |
| BlockList.RunDown | internal/repository/block.go:179-220 | the blocks collected downwards are consecutive, newest first, without the requested one |
| BlockList.RunUp | internal/repository/block.go:179-278 | upwards the reversed list is that as well |
| BlockList.BlockPageExactly | internal/repository/block.go:138-278 | the page is the wanted consecutive blocks with truthful flags if and only if the 32-bit counter does not overflow or nothing lies beyond the starting block |
| Bytes.RoundTrip | internal/types/sfc_config.go:39-68 | a number that fits its bytes is read back from its big-endian form |
| Bytes.PrecedesExactly | internal/types/erc20_trx.go:79-85 | big-endian strings of one length sort, and are equal, exactly like their numbers |
| Bytes.PutBigEndian | internal/types/erc20_trx.go:79-110 | the number is written big-endian into its part of the buffer and the rest stays |
| Ordinals.Pk | internal/types/erc20_trx.go:79-85 | the filled buffer is block, log index and sequence in 8, 4 and 2 bytes |
| Ordinals.PkExactly | internal/types/erc20_trx.go:79-85 | keys are equal exactly for equal (block, log index, sequence) and sort in that order |
| Ordinals.UidExactly | internal/types/transaction.go:126-133 | for indexes below 2^14 and blocks below 2^49 the ordinal is a strict lexicographic embedding into 63 bits |
| Ordinals.UidIndexWraps | internal/types/transaction.go:126-133 | two indexes of one block share an ordinal if and only if they differ by a multiple of 2^14 |
| Ordinals.UidsAreDistinct | internal/types/transaction.go:126-133 | the rows of a chain have the distinct, ordered ordinals that paging relies on |
| Ordinals.OrdinalIndex | internal/types/erc20_trx.go:91-110 | overwriting the last three bytes of the shifted time stamp gives stamp and salt side by side |
| Ordinals.XorExactly | internal/types/erc20_trx.go:103-109 | each bit of the mixed byte is set if and only if the bits of the two bytes differ |
| Ordinals.SaltOfHash | internal/types/erc20_trx.go:91-110 | transfers at one place of two transactions share a salt if and only if the first three bytes of the hashes agree |
| Ordinals.OrdinalExactly | internal/types/erc20_trx.go:91-110 | later stamps sort higher below 2^39, and for any stamps ordinals are equal if and only if the low 39 bits of the stamp and the salt are |
| Ordinals.SaltExactly | internal/types/erc20_trx.go:91-110 | for every hash, two transfers of one transaction share a salt if and only if the low log byte and the two bytes mixed from log index and sequence agree |
| Ordinals.SaltDistinct | internal/types/erc20_trx.go:91-110 | the salt tells apart log indexes below 2^16 with sequences below 2^8, below 2^8 with any sequence, and below 2^24 without batches |
| Ordinals.SaltCollision | internal/types/erc20_trx.go:91-110 | for every hash two transfers of one transaction beyond that share an ordinal |
| Ordinals.TransferWalksExactly | internal/repository/db/erc_trx.go:197-323 | walking token transactions is complete for every page size, in either direction, if and only if no two share time stamp and salt |
| ErcRescan.KindExactly | internal/svc/logs_erc_token.go:31-100 | a record is a mint or burn if and only if a single transfer has the zero address on that side, and an approval if and only if the log is one; batches are plain transfers |
| ErcRescan.RecognisedExactly | internal/svc/logs_erc_token.go:31-100 | for each event which numbers of topics and data bytes make a record, and how many a batch makes |
| ErcRescan.PartiesExactly | internal/svc/logs_erc_token.go:31-100 | sender and recipient are the addresses in topics 1 and 2, of multi-tokens in topics 2 and 3, and the number of topics tells the token type |
| ErcRescan.AmountsExactly | internal/svc/logs_erc_token.go:31-100 | which data word or topic gives the amount and the token number of each kind, and for batches which list entries |
| ErcRescan.OriginKept | internal/svc/logs_erc_token.go:103-121 | a record has its log's transaction hash, contract, time stamp, block and index |
| ErcRescan.TokenTransactions.AddErc20Transaction | internal/repository/db/erc_trx.go:50-92 | a known key is never overwritten, not even when its lookup fails; a new one is stored exactly when the insert works |
| ErcRescan.TokenTransactions.HandleBatch | internal/svc/logs_erc_token.go:71-90 | for any answers of the database the loop adds exactly the entries whose insert was accepted, and panics exactly on a missing value |
| ErcRescan.NeverOverwritten | internal/repository/db/erc_trx.go:50-92 | a stored record stays as it is whatever is handled later |
| ErcRescan.BatchKeysExactly | internal/svc/logs_erc_token.go:71-121 | the entries of a batch have different keys if and only if there are at most 2^16 |
| ErcRescan.KeysIdentify | internal/svc/logs_erc_token.go:31-121 | on one chain two transfers share a key if and only if they are the same transfer |
| ErcRescan.IndexedExactly | internal/svc/logs_erc_token.go:31-121 | whatever lookups and inserts failed and however often logs were handled, a transfer is stored under its key if and only if the database accepted it at least once |
| ErcRescan.RescanConverges | internal/repository/db/erc_trx.go:50-92 | after any failing handlings, a clean re-scan in any order gives the same collection as handling the logs cleanly from the start |
| Accounts.AccDispatcher.AccountIsKnown | internal/repository/account.go:98-117 | the answer of cache and database, and what the cache learns from it |
| Accounts.AccDispatcher.StoreAccount | internal/repository/account.go:120-127 | a new row is stored and cached exactly when the insert works and the address is free |
| Accounts.AccDispatcher.AccountMarkActivity | internal/repository/db/account.go:200-220 | a stored counter grows by one and the time stamp is replaced; a missing row stays missing |
| Accounts.AccDispatcher.Process | internal/svc/dispatch_acc.go:83-123 | store and outcome of one account event |
| Accounts.CountersExact | internal/svc/dispatch_acc.go:83-123 | over any events, failures and cache evictions: counter = successful calls, last activity = the latest one's, stored if and only if there was one, cached implies stored |
| Accounts.FailsExactly | internal/repository/account.go:98-132 | an event reports an error if and only if a write failed, a new contract could not be processed, or the lookup of a stored and uncached account failed |
| Accounts.CacheLearnsExactly | internal/repository/account.go:98-132 | after any run an event leaves its address cached if and only if it was cached before, the database answered that it is stored, or the event stored it; only an eviction forgets |
| Codecs.Marshal | internal/types/sfc_config.go:39-51 | the six numbers lie in the buffer as consecutive 32-byte words, and it panics exactly if one does not fit |
| Codecs.LayoutExactly | internal/types/sfc_config.go:39-51 | each of the six numbers is read back from its own 32-byte word of the encoding |
| Codecs.SfcConfigRoundTrip | internal/types/sfc_config.go:39-68 | six numbers survive encoding and decoding if and only if each is below 2^256 |
| Codecs.BufferRoundTrip | internal/types/sfc_config.go:54-68 | a buffer is accepted if and only if it has 192 bytes, and then survives decoding and encoding |
| Codecs.PairCache.PushAllPairsList | internal/repository/cache/uniswap.go:63-76 | the joined addresses are cached; an empty list leaves the entry alone |
| Codecs.PairCache.PullAllPairsList | internal/repository/cache/uniswap.go:79-93 | the addresses whose joined bytes are the entry |
| Codecs.PairCache.PushUniswapPairTokens | internal/repository/cache/uniswap.go:25-38 | exactly two tokens are cached for the pair |
| Codecs.PairCache.PullUniswapPairTokens | internal/repository/cache/uniswap.go:41-60 | two addresses whose joined bytes are the entry, and a panic exactly for one shorter than an address |
| Codecs.SetBytesExactly | internal/repository/cache/uniswap.go:54-59 | an address read from any bytes is their number modulo 2^160 |
| Codecs.JoinedInjective | internal/repository/cache/uniswap.go:63-93 | joined address bytes determine the list |
| Codecs.PairListRoundTrip | internal/repository/cache/uniswap.go:63-93 | any non-empty address list survives the cache |
| Codecs.PairTokensRoundTrip | internal/repository/cache/uniswap.go:25-60 | any two token addresses survive the cache |
| Liquidity.OneSideFits | internal/graphql/resolvers/uniswap.go:161-179 | if side B asks for too much, side A does not: the error after both is unreachable |
| Liquidity.OptimalIsAdmissible | internal/graphql/resolvers/uniswap.go:143-182 | the answer exceeds neither offer, uses one fully and follows the reserves up to rounding one amount down |
| Liquidity.QuoteExactly | internal/graphql/resolvers/uniswap.go:96-182 | in either token order the answer exceeds neither offer, uses one fully and is in the ratio of the pool's own reserves up to rounding one amount down; an empty pool confirms both offers, and a pool with one empty reserve refuses or takes one token only |
| Liquidity.RefusesExactly | internal/graphql/resolvers/uniswap.go:96-140 | a pool with reserves refuses a request if and only if it does not name two tokens and two amounts, or names the pool's first token in neither place |
| Liquidity.CallerOrderIsFree | internal/graphql/resolvers/uniswap.go:96-140 | swapping tokens together with amounts swaps the answer |
| Liquidity.PairOrderExactly | internal/graphql/resolvers/uniswap.go:143-182 | the pair's own token order is irrelevant if and only if not both sides fit or both fit exactly |
| GasMonitor.GpsMonitor.Read | internal/svc/scan_gas.go:127-151 | a successful reading is appended and running minimum and maximum stay exact; a full buffer panics |
| GasMonitor.TickRounds | internal/svc/scan_gas.go:127-136 | a reading is the gas price in units of 10^7 WEI, rounded down |
| GasMonitor.GpsMonitor.Avg | internal/svc/scan_gas.go:193-207 | the wrapping sum over the count, both and their quotient rounded to double precision, with its fraction dropped |
| GasMonitor.GpsMonitor.Flip | internal/svc/scan_gas.go:155-188 | a non-empty period is stored with its summary and the next one starts empty |
| GasMonitor.MaxIsReadingExactly | internal/svc/scan_gas.go:141-143 | the stored maximum is a reading if and only if some reading is not negative |
| GasMonitor.MeanExactly | internal/svc/scan_gas.go:193-207 | for every rounding with the properties of IEEE 754 double precision, the floating point mean of a sum below 2^53 is the exact mean with its fraction dropped |
| GasMonitor.WholeTruncates | internal/svc/scan_gas.go:193-207 | the fraction of the average is dropped towards zero, for negative values as well |
| GasMonitor.PeriodIsTruthful | internal/svc/scan_gas.go:172-207 | for non-negative readings open, close, minimum and maximum are exact, and for a sum below 2^53 the floating point average is the truncated mean and lies between the last two |
| GasMonitor.PeriodsExactly | internal/svc/scan_gas.go:127-207 | the buffer is overrun if and only if a period gets more than 301 readings; otherwise the stored periods summarise the closed ones in order |
| EpochScan.EpochScanner.Observe | internal/svc/scan_epochs.go:107-123 | a failed call or an unchanged epoch changes nothing |
| EpochScan.EpochScanner.Next | internal/svc/scan_epochs.go:126-146 | the current epoch is offered exactly when it is sealed and could be loaded |
| EpochScan.HandOffInOrder | internal/svc/scan_epochs.go:94-159 | taken and queued epochs are consecutive from the start over every run, none is offered before it is sealed, and the stop token is conserved |
| EpochScan.OffersExactly | internal/svc/scan_epochs.go:107-146 | after every run the current epoch is offered if and only if it can be loaded and is not past the sealed epoch last answered by the node |
| EpochScan.StopEnds | internal/svc/scan_epochs.go:82-146 | once closed, in every reachable state the epoch scanner can end by its own next steps without offering another epoch |

## Left out

- Pipeline.CountsFromStart: one direction for a single run, which may count from the start block although a lower height was observed or a stop hit a report; the converse over all runs is PipelineLimits.CountsFromStartExactly. Start blocks are numbered from 1 on.
- Pipeline.HandoverComplete: one direction only, because without an order of heads an overwritten head may be queued again later; for heads in order PipelineOrder.HandoverExactly states both directions.
- BlockScan.BlkScanner.OnDispatched: block numbers are unbounded, so the signed 64-bit difference of the source is a plain difference.
- BurnTotal.HandedValueBounds: gas used is required to be below 2^63, which every block keeps; BurnTotal.BurnedFeeBounds covers larger amounts.
- Liquidity.QuoteExactly: what a pool with one empty reserve answers depends on the assumed quote of the router.
- Pipeline.RoutingFollowsScanner: a stop may end the scanner before its last switch was announced, and says nothing after that.
- BurnTotal.AggregateBounds: every record gets a row of its own, so a block handed over twice is not covered, for the same reason as BurnTotal.CacheAgreesAlways.
- BurnTotal.CacheAgreesAlways: covers block numbers without a stored row, because the update path of StoreBurn (internal/repository/db/burn.go:72-121) decodes the found document into another variable and leaves the merged row undetermined.
- GasMonitor.PeriodIsTruthful: nothing is said of the average of a sum of 2^53 or more, nor of a floating point value too large for int64.
- ErcTrxList.WalkDownExactly: rows with one ordinal are kept in one fixed order; a database may order ties differently from query to query.
- TrxFanOut.StoredOnlyWhenProcessed: a transaction counts as stored once StoreTransaction was called; the source only logs its failure.
- Ordinals.UidExactly: mined transactions only; the ordinal of a pending transaction comes from the clock.
- Ordinals.Pk: the hexadecimal form of the key in the database is not modelled; it keeps order and equality.
- BlkDispatch.BlockDispatcher.Execute: transactions are taken from the blocks as loaded or not; the broadcast of a finished block and its 200 ms limit are left out.
- Liquidity.OptimalIsAdmissible: the router contract's quote is assumed to be the rounded down product and to fail on an empty reserve.
- Closing of channels when a goroutine ends, and what sending to a closed channel does.
- The orchestrator's stop token: its push loops do not watch the stop channel, so only its main loop ends it.
- Timers, tick lengths and fairness of select: ticks are steps that may happen at any time, and nothing is claimed about when.
- Topic handlers other than token transfers, and the routing by topic: a log counts as processed once the log worker marked it done.
- Contract detection, the SFC address check and the contract store: one flag of an account event.
- The queue of the burn dispatcher is not bounded in the fan-out model; a full queue only delays the dispatcher.
- Base filters of list requests and document ids: `rows` is what the filter selects and `ordinals` looks a cursor up.
- A cursor that exists but is not among the selected rows: the page is computed, but only listed cursors have a wanted page.
- The fast paths of Blocks and Transactions over the recent-items rings.
- Overflow of the database aggregate and of the 64-bit container: totals are required to fit 64 bits.
- Delegation, epoch, reward, fMint and contract lists: near copies of the transaction list.
- Delegation balance synchronisation and gas price tick aggregation: their stored values are not determined by the code shown.
- GraphQL, RPC, BSON and JSON plumbing, logging and configuration.
