# Verified model of the gas-auction replacement bot

The repository is an Ethereum bot: it watches the mempool, scores pending transactions, and out-bids profitable ones
through a submit / monitor / replace loop with a shared nonce counter, a circuit breaker and a daily spend window, over a
pool of RPC providers with failover. This project models that engine in Dafny and proves what it keeps over every run,
every reply of the outside world and every interleaving.

## How the model is built

* Code that works step by step keeps its form. `ReplacementExecutor`, `NonceManager`, `SafetyGuard`, `DedupCache`,
  `OpportunityDetector`, `ConnectionManager`, `ProviderSlot` and `ReconnectPolicy` are classes with the source's fields;
  their methods are proved equal to functions of the old state, or to a closed form. The theorems about runs, sessions and
  interleavings are lemmas about those functions.
* The outside world is an oracle (`Environment.Oracle`, `Connection.Network`): an arbitrary function that fixes, for the
  k-th interaction, the delay, whether signing works, whether the node accepts, and every receipt. Universally quantified
  over, it is an adversary that knows everything. `sleep(d)` advances the clock by at least d; time is in nanoseconds.
* A transaction hash is represented by the signed transaction itself, which is the assumption that hashes are injective in
  the signed transaction; a node that accepts a transaction answers with that transaction's hash.
* `f64` amounts are exact reals, and `as u128` of a float is a floor that saturates. 256-bit and 128-bit integers are
  bounded, with the source's saturating operations; 64-bit nonces and indices and the 32-bit failure counter wrap as the
  atomic operations (and release builds) do.
* Concurrency is interleaving of atomic steps: `WorkerProtocol` (semaphore, mutexes, metrics), `ProviderCounters` (atomic
  counters of the pool) and `NonceRace` (the two-step release), with every schedule quantified over.
* Configuration facts come from `Settings::validate`: a positive bump, minimum price below maximum price, a positive
  profit threshold, at least one failure allowed, at least one provider.

Modules, from the bottom: `Units` (integers and rounding), `GasAuction`, `Transactions`, `Profitability`, `Opportunities`,
`AnalysisNumbers` (the analysis in exact wei), `BestQueue`, `Environment`, `Nonces`, `Safety`, `Replacement` (the state machine
and its class), `Runs`, `BidChains`, `PendingTable`, `Outcomes`, `DroppedBids`, `GuardRuns`, `Overspending`, `Scenarios`,
`RequestPacing`, `RunTiming` (one execution), `Sessions`, `SpendLedger`, `TableSessions` (sequences of executions),
`WorkerProtocol`, `WorkerProgress`, `NonceRace` (interleavings), `Mempool`, `Backoff`, `Connection`, `ProviderHistory` (sequences
of calls), `ProviderCounters`.

## Where the code does not do what one may expect

Each of these is followed as the code has it. A lemma named here says exactly when the expectation holds, or shows a run or
an input at which it fails.

* A bump raises the price only if it is worth a whole wei (`Units.BumpRaises`). Otherwise the replacement is the very same
  transaction, and the loop removes the table entry it has just inserted (`PendingTable.ReplacementKeepsEntry`,
  `BidChains.ChainRises`). So a run that ends on a receipt error leaves a table entry exactly when it had a single bid
  accepted or the bump of its first price is a whole wei (`TableSessions.TableLaw`, `TableSessions.LeavesEntryExactly`; a run
  that leaves none: `Scenarios.NoEntryLeft`).
* A request for the same hash waits a poll interval after the answer to the one before, unless that was a receipt - and unless
  the bump is lost: the bid is then replaced by itself, and the loop asks for it again at once. So the requests of a bid that
  can be bumped are spaced in every world exactly when the bump of its price is a whole wei (`RequestPacing.SpacedExactly`).
* The worker records a drop a second time, so the failure counter weighs a drop 2, unless the 32-bit counter wraps
  (`GuardRuns.DropCountsExactly`); with the maximum set to 2^32 - 1 a drop can clear the counter and leave the breaker closed
  (`GuardRuns.WrappedDropForgets`; a run that does: `Scenarios.BreakerForgets`).
* The spend limit holds because the estimate covers the gas limit, which needs a gas price of at least one wei
  (`Profitability.EstimateCoversGasLimit`). A victim with a gas price of zero passes the check at no estimated cost, and its
  replacement then exceeds the limit (`Overspending.FreeGasOverspends`; exactly when: `Overspending.LaunchedSpendExactly`).
  `record_spend` is fed gas units, so the law is about the recorded counter.
* A cost of less than 223 wei, the float epsilon in ETH, has a return of zero: however large the profit, the opportunity is then
  not taken, unless the cost is zero (`AnalysisNumbers.ProfitableExactly`).
* `enqueue` compares with the highest entry of the heap, which it calls the lowest: a full queue keeps the first entries plus
  the overall maximum (`Opportunities.QueueClosedForm`). These are the best entries exactly when there is room for one only,
  no later offer beats any of the first ones, or the first ones are all equal and at most one later offer beats them
  (`BestQueue.KeepsBestExactly`); offered 1, 2 and 3, a queue of two throws out 2 (`BestQueue.MiddleIsLost`).
  docs/ARCHITECTURE.md:52 says only that the queue is capped, which is so for a positive capacity; at capacity 0 it holds
  one entry.
* The discrepancy check ignores prices at or below the float epsilon (`Opportunities.DiscrepancyIsPairwise`), and with the
  inferred quotes no evaluated opportunity is a sandwich (`Opportunities.NeverSandwich`).
* The backoff exponent is cast to 32 bits: after 2^32 failures it starts over (`Backoff.TruncatedBackoff`,
  `Backoff.BackoffStartsOver`). The shared round-robin index wraps at 2^64: fairness survives exactly when the number of
  providers divides 2^64 (`Connection.FairnessExactly`).
* `release_nonce` loads and then stores. Nonces stay unique exactly because the workers hold the executor's mutex
  (`NonceRace.MutexIsNeeded`).
* docs/ARCHITECTURE.md:93 says that an endpoint is skipped after 3 consecutive failures; the code skips it after every
  failure, for the length of its backoff. docs/ARCHITECTURE.md:94 caps the reconnect delay at 60 s; src/blockchain/mempool.rs:136
  uses 30 s. The model takes the cap as a parameter.
* `Dropped` says that the timeout passed and that no round of the loop opened with a receipt of the polled hash. It does not
  say that no bid was mined: only the latest hash is polled, and the request before a replacement does not settle the loop
  when it is answered with a receipt. If the deadline passes before the next round, the mined bid is dropped, counted as
  failed, and its gas is never recorded (`DroppedBids.MinedBidDropped`; exactly when: `DroppedBids.DroppedExecution`). And an
  earlier bid may be mined after it was replaced, with no receipt ever seen (`Scenarios.ReplacedBidMined`).

## Model

| member | source | states |
|---|---|---|
| `Units.BumpThroughGwei` | src/execution/gas_auction.rs:131-144 | bumping in gwei and converting back is one floor-rounded bump of the wei price |
| `Units.BumpRaises` | src/types/custom_types.rs:65-67 | a bump never lowers a price, and raises it exactly when the increment is a whole wei and the cast is not saturated |
| `Units.CompoundingUpper` | src/execution/gas_auction.rs:131-144 | k floor-rounded bumps never exceed exact compounding, for every k |
| `Units.CompoundingLower` | src/execution/gas_auction.rs:131-144 | unless the 128-bit cast saturated, k rounded bumps lose less than one wei per step, compounded |
| `Units.EnvelopeGap` | src/execution/gas_auction.rs:131-144 | the lower envelope is g·r^k minus the geometric sum of lost wei |
| `Units.RoundingLossClosedForm` | src/execution/gas_auction.rs:131-144 | that sum times (r-1) is r^k - 1 |
| `Units.CompoundingEnvelope` | src/execution/gas_auction.rs:131-144 | for every k, k floor-rounded bumps of g lie between g·r^k - (r^k - 1)/(r - 1) and g·r^k (the lower bound below saturation) |
| `GasAuction.BidIsLargestOfThree` | src/execution/gas_auction.rs:95-129 | the bid is the maximum of bumped victim price, network floor and configured minimum, below the hard cap; refused exactly when one of them is above it |
| `GasAuction.AdditionalBump` | src/execution/gas_auction.rs:131-144 | a further bid is one more rounded bump and stays below the hard cap; it is refused exactly when the price in wei, with the percentage on top, is above the hard cap |
| `Nonces.NonceManager.SyncFromChain` | src/execution/gas_auction.rs:35-45 | only a successful fetch sets the counter and marks it synced |
| `Nonces.NonceManager.AllocateNonce` | src/execution/gas_auction.rs:47-57 | fails exactly when unsynced; otherwise hands out the counter and advances it, wrapping |
| `Nonces.NonceManager.ReleaseNonce` | src/execution/gas_auction.rs:59-64 | takes back only the nonce allocated last |
| `Nonces.ReleaseUndoesAllocate` | src/execution/gas_auction.rs:47-64 | a release right after the allocation restores the counter, also across the wrap |
| `Nonces.ReleaseExactly` | src/execution/gas_auction.rs:59-64 | a release changes the counter exactly when the nonce is the one before it, modulo 2^64, and then takes that one back |
| `Safety.SafetyGuard.constructor` | src/execution/safety.rs:25-38 | starts with no failures, nothing spent and a consistent window |
| `Safety.SafetyGuard.RecordSuccess` | src/execution/safety.rs:84-86 | clears the failure counter and nothing else |
| `Safety.SafetyGuard.RecordFailure` | src/execution/safety.rs:88-90 | adds one failure, modulo 2^32, and nothing else |
| `Safety.SafetyGuard.RecordSpend` | src/execution/safety.rs:92-96 | restarts an expired window, then adds the amount, saturating |
| `Safety.SafetyGuard.ResetDailySpendIfNeeded` | src/execution/safety.rs:124-131 | restarts the window exactly when a day has elapsed |
| `Safety.SafetyGuard.PreflightCheck` | src/execution/safety.rs:40-82 | verdict, first failing reason and side effects as specified, for every state and clock; only the last guard needs the estimate to fit in 128 bits |
| `Safety.RecordingExactly` | src/execution/safety.rs:92-131 | recording reads the clock; a day (86400 s) or more after the window's start it restarts the window at a second reading with this amount only, else it keeps the start and adds the amount |
| `Safety.CheckingExactly` | src/execution/safety.rs:40-131 | the verdict is the first of the five guards that fails, each on its inputs; only when the first four pass is the clock read, and the window restarted at a clock reading, emptied, exactly when a day or more has passed |
| `Safety.SaturatedSumIsCapped` | src/execution/safety.rs:92-96 | saturating at every step is the exact sum capped once |
| `Safety.PreflightReserves` | src/execution/safety.rs:107-122 | a passed check reserves the estimate in the window, respects the soft cap, the breaker and the profit threshold, and keeps the spend consistent |
| `Safety.SpendWithinReserve` | src/execution/safety.rs:92-96 | recording at most the reserve keeps the spend within the limit, whatever resets happen |
| `Transactions.BigEndianRoundTrip` | src/blockchain/transaction.rs:195 | decoding an encoded word returns the value |
| `Transactions.BigEndianInjective` | src/blockchain/transaction.rs:195 | encoding a decoded word returns the bytes |
| `Transactions.TransferRoundTrip` | src/blockchain/transaction.rs:189-202 | calldata decodes to this ERC-20 transfer exactly when it starts with the ABI encoding of it, whatever the padding and trailing bytes |
| `Transactions.TransferFromRoundTrip` | src/blockchain/transaction.rs:204-219 | the same for transferFrom |
| `Transactions.SafeTransferFromRoundTrip` | src/blockchain/transaction.rs:221-236 | the same for safeTransferFrom |
| `Transactions.UndecodedExactly` | src/blockchain/transaction.rs:166-187 | nothing is decoded exactly when target or selector is missing or a known transfer is cut short |
| `Transactions.CallExactly` | src/blockchain/transaction.rs:166-250 | a call with this selector and signature is decoded exactly when the calldata starts with it and it is none of the three transfer selectors; exactly the two Uniswap selectors come with a signature |
| `Transactions.ParsedPrice` | src/blockchain/transaction.rs:59-116 | only type 2 pays by its maximum fee, everything else by its gas price, a missing one counting as 0; the other fields are copied |
| `Profitability.WeiToEthExact` | src/blockchain/transaction.rs:260-266 | splitting wei into whole ETH and remainder loses nothing |
| `Profitability.PairwiseIsExtreme` | src/analysis/profitability.rs:187-194 | the best pairwise spread is (max - min) / max |
| `Profitability.BestSpread` | src/analysis/profitability.rs:187-194 | the nested loop computes the largest pairwise spread, which for positive prices is the spread of the extremes |
| `Profitability.EstimateArbitrageSpread` | src/analysis/profitability.rs:178-200 | no profit below two quotes, else half the largest pairwise spread of the swapped value, times the protocol factor; for positive prices the extreme spread |
| `Profitability.SlippageWithinTolerance` | src/analysis/profitability.rs:210-238 | slippage cost is at most amount · bps / 10000 |
| `Profitability.RoiInWei` | src/analysis/profitability.rs:240-252 | comparing ROI percentages in ETH is comparing exact wei amounts |
| `Profitability.ProfitAccounting` | src/analysis/profitability.rs:92-125 | a profitable analysis balances: gross = net + gas + slippage with nothing hidden by saturation, and the net meets the required return |
| `Profitability.ProfitableCostIsExact` | src/analysis/profitability.rs:102 | a profitable analysis never has a saturated gas cost |
| `Profitability.EstimateCoversGasLimit` | src/analysis/profitability.rs:99-102 | the cost estimate covers the gas limit exactly when there is no gas to pay or the gas has a price |
| `Profitability.BidCoversEstimate` | src/analysis/profitability.rs:127-131 | the bid is never below the price the estimate assumed, with equality exactly when the victim's bump dominates both floors |
| `AnalysisNumbers.GrossExactly` | src/analysis/profitability.rs:133-208 | the gross profit in exact wei for every kind of interaction: of a V2 swap the larger of floor(v/252) and floor(v·7·bps/200000), of a V3 swap of floor(v·17/5040) and floor(v·119·bps/4000000), below saturation; 5/1000 of a token transfer; 2/100 of any other value |
| `AnalysisNumbers.SlippageExactly` | src/analysis/profitability.rs:210-238 | the slippage in exact wei: the tolerated share, for a swap times its part of 2.9 times the base liquidity, capped at one |
| `AnalysisNumbers.CostsExactly` | src/analysis/profitability.rs:92-131 | gas costs and net profit in exact wei |
| `AnalysisNumbers.ProfitableExactly` | src/analysis/profitability.rs:82-84 | profitable exactly when gross exceeds cost and the cost is zero or at least 223 wei and returned by the required percentage |
| `Opportunities.DiscrepancyIsPairwise` | src/analysis/opportunity.rs:202-215 | the max/min check agrees with the pairwise loop exactly for prices above the float epsilon |
| `Opportunities.TinyPricesAreMissed` | src/analysis/opportunity.rs:210-212 | two tiny prices far apart that the check does not report |
| `Opportunities.NeverSandwich` | src/analysis/opportunity.rs:186-200 | with the inferred quotes no opportunity is classified as a sandwich |
| `Opportunities.QueueClosedForm` | src/analysis/opportunity.rs:163-173 | after any offers the queue is the first ones that fit, with the maximum replaced by the maximum of everything offered; its size is bounded |
| `Opportunities.PopsDescend` | src/analysis/opportunity.rs:151-153 | consecutive pops are the queued scores in non-increasing order |
| `BestQueue.KeepsBestExactly` | src/analysis/opportunity.rs:163-173 | whatever is offered to an empty queue of any capacity, it ends up with a best part of the offers exactly when there is room for one only, no later offer beats any of the first ones, or the first ones are all equal and at most one later offer beats them |
| `BestQueue.MiddleIsLost` | src/analysis/opportunity.rs:164-171 | offered 1, 2 and 3, a queue of two ends as 1 and 3, which is not the best part |
| `Opportunities.OpportunityDetector.NextOpportunity` | src/analysis/opportunity.rs:151-153 | removes an entry with the highest score and no other |
| `Opportunities.OpportunityDetector.Enqueue` | src/analysis/opportunity.rs:163-173 | changes the queued scores as one offer, and adds nothing but the offered opportunity |
| `Opportunities.OpportunityDetector.Evaluate` | src/analysis/opportunity.rs:103-149 | returns an opportunity exactly when it is profitable and its risk acceptable, offers that one to the queue, and otherwise leaves the queue alone |
| `Opportunities.EvaluatedBalances` | src/analysis/opportunity.rs:103-149 | every opportunity the detector returns has gross = net + gas + slippage and the required return |
| `Opportunities.EvaluatedCovers` | src/analysis/opportunity.rs:103-149 | every opportunity the detector returns for a transaction that pays for its gas has an estimate that covers the gas limit |
| `AnalysisNumbers.ScoreExactly` | src/analysis/opportunity.rs:135-200 | every opportunity the detector returns: the two swaps are arbitrage with weight 1.2, all else gas replacement with 0.8; score times cost is the net percentage times the risk discount times the weight, and unbounded at no cost |
| `Replacement.IterationRests` | src/execution/replacement.rs:188-245 | every round that does not return started before the deadline and slept at least one poll interval, on every path |
| `Replacement.ReplacementExecutor.Initialize` | src/execution/replacement.rs:66-94 | there is an executor exactly when the wallet loads and the nonce can be fetched; it starts synced at that nonce, with an empty table and a fresh guard |
| `Replacement.ReplacementExecutor.ExecuteOpportunity` | src/execution/replacement.rs:109-138 | final state, result and number of rounds are those of the specified run |
| `Replacement.ReplacementExecutor.SubmitAndMonitor` | src/execution/replacement.rs:140-179 | a refusal releases the nonce and records a failure; an accepted bid is tabled and monitored |
| `Replacement.ReplacementExecutor.MonitorUntilSettled` | src/execution/replacement.rs:181-246 | the loop computes the recursive specification and terminates |
| `Replacement.ReplacementExecutor.MonitorOnce` | src/execution/replacement.rs:188-245 | one pass through the loop body, with the time it takes |
| `Replacement.ReplacementExecutor.ReplaceOnce` | src/execution/replacement.rs:217-244 | the second poll and the replacement, including both ways of going on and their sleeps |
| `Replacement.ReplacementExecutor.AttemptReplacement` | src/execution/replacement.rs:248-296 | bump, check, sign, send and table entry; a failure leaves the table alone |
| `Replacement.ReplacementExecutor.HandleOpportunity` | src/runtime/worker.rs:130-165 | the worker's critical section: the run, and one more failure for a drop |
| `Runs.MonitorRounds` | src/execution/replacement.rs:186-245 | n + 1 rounds take less than the time to the deadline plus one poll interval |
| `Runs.ExecutionTerminates` | src/execution/replacement.rs:186-245 | every execution polls at most ceil(timeout / poll) + 1 times |
| `RequestPacing.WaitsTwice` | src/execution/replacement.rs:215-244 | a round whose second request finds no receipt and that does not replace the bid ends at least two poll intervals after its start, with the same hash |
| `RequestPacing.ExecutionSpaced` | src/execution/replacement.rs:188-245 | in a run whose first bid can be raised, a request for the same hash is sent a poll interval or more after the answer to the one before, unless that was a receipt |
| `RequestPacing.LostBumpUnspaced` | src/execution/replacement.rs:228-236 | for every first bid whose bump is less than a wei, a world in which two requests for it are not spaced |
| `RequestPacing.SpacedExactly` | src/execution/replacement.rs:188-245 | the requests are spaced in every world exactly when the bump of the first price is a whole wei |
| `RunTiming.RoundTime` | src/execution/replacement.rs:188-245 | apart from the delays of the outside world a round takes no time if its first request or the deadline settles it, two poll intervals if its second request finds no receipt and the bid is not replaced, else one, exactly |
| `RunTiming.ExecutionTime` | src/execution/replacement.rs:109-246 | apart from those delays every execution takes less than the timeout and two poll intervals, however it ends |
| `BidChains.BidChainSafety` | src/execution/replacement.rs:109-296 | the accepted broadcasts of an execution are at most four, on the one allocated nonce, the i-th at the i-times bumped first price, within soft and hard cap |
| `BidChains.ChainMember` | src/execution/gas_auction.rs:185-220 | every bid carries the victim's payload, has priority fee <= max fee, and its price stays in the rounding envelope |
| `BidChains.ChainRises` | src/execution/replacement.rs:254-256 | a chain of several bids rises strictly exactly when the bump of its first price is a whole wei |
| `BidChains.BidAfterRises` | src/execution/gas_auction.rs:131-144 | once a bump raises a price, every later one does, until the cast saturates |
| `BidChains.MonitorChain` | src/execution/replacement.rs:186-245 | from any monitored state, the loop ends with the bids still a chain |
| `PendingTable.ReplacementKeepsEntry` | src/execution/replacement.rs:232-236 | after a replacement the new hash is in the table exactly when the bump raised the price |
| `PendingTable.IterateTable` | src/execution/replacement.rs:188-245 | a round touches no entry but that of the polled hash; settling removes it, an error leaves it |
| `PendingTable.IterateShown` | src/execution/replacement.rs:215-242 | while monitoring goes on, the polled hash is a key exactly when one bid was accepted or the last bump raised the price |
| `PendingTable.EntryByFirstBump` | src/execution/replacement.rs:232-236 | below a representable hard cap that is: exactly when one bid was accepted or the bump of the first price is a whole wei |
| `PendingTable.ExecuteTable` | src/execution/replacement.rs:109-296 | an execution gives back the table it found, unless it ended on a receipt error; then at most its last bid is left behind, and exactly when it still had an entry |
| `Outcomes.MonitorJustified` | src/execution/replacement.rs:189-225 | a confirmation repeats the receipt given to the last request, which opened a round; a drop comes after the deadline and no round had opened with a receipt; an error is the last request unanswered; all of them about the last bid |
| `Outcomes.ResultsAreExplained` | src/execution/replacement.rs:109-246 | every result of an execution is explained by what was signed, sent and answered |
| `DroppedBids.DropSawReceiptExactly` | src/execution/replacement.rs:217-225 | while receipts persist, a receipt was seen for a dropped bid exactly when the last request before the final clock reading came before a replacement and was answered with it |
| `DroppedBids.DroppedExecution` | src/execution/replacement.rs:109-246 | the same for whole executions |
| `DroppedBids.MinedBidDropped` | src/execution/replacement.rs:188-225 | it happens: from every state with a replaceable bid and a poll interval left, some node mines the bid before the deadline and it is reported dropped, a failure is counted and no gas recorded |
| `Scenarios.ReplacingRound` | src/execution/replacement.rs:188-236 | a round that finds no receipt twice, with fewer than three attempts made and the next price allowed, replaces the bid after one poll interval |
| `Scenarios.ReplacedBidMined` | src/execution/replacement.rs:228-236 | for every first bid that can be made and raised, a world that mines it after its replacement was accepted: the run reports a drop and no receipt was ever seen |
| `Scenarios.DropHidesMinedBid` | src/execution/replacement.rs:228-236 | a concrete such run, with bids of 20 and 22 wei |
| `GuardRuns.HandleCounter` | src/runtime/worker.rs:130-174 | a handled opportunity adds 2 for a drop, 1 for a refusal, clears on a confirmation and leaves the counter otherwise |
| `GuardRuns.OpenBreakerFreezes` | src/execution/safety.rs:45-57 | an open breaker or emergency stop: nothing is signed, sent or changed |
| `GuardRuns.DropCountsExactly` | src/runtime/worker.rs:161-165 | a handled drop leaves the counter at the old one plus 2 exactly when the old one is below 2^32 - 2 |
| `GuardRuns.WrappedDropForgets` | src/runtime/worker.rs:161-165 | at the maximum 2^32 - 1 a drop from 2^32 - 2 leaves the counter at 0 and the breaker closed |
| `Scenarios.DroppedAtOnce` | src/execution/replacement.rs:189-196 | for every first bid that can be made, a world in which it is dropped and the counter grows by 2 modulo 2^32 |
| `Scenarios.BreakerForgets` | src/execution/safety.rs:88-90 | a concrete run at the maximum 2^32 - 1: a drop takes the counter from 2^32 - 2 to 0 and the breaker stays closed |
| `GuardRuns.DropOpensBreaker` | src/execution/safety.rs:49-57 | a drop that reaches the maximum opens an enabled breaker exactly when the counter cannot wrap past it |
| `GuardRuns.SpendLimitExactly` | src/execution/safety.rs:92-122 | any spend up to the gas limit stays within the daily limit exactly when the gas limit is reserved |
| `GuardRuns.IterateKeepsSpend` | src/execution/replacement.rs:188-245 | a round keeps the reserve and the limit, also across a reset in the middle of monitoring |
| `GuardRuns.HandleKeepsSpend` | src/execution/replacement.rs:109-246 | a handled opportunity keeps the recorded spend consistent and within the limit |
| `Overspending.PromptRun` | src/execution/replacement.rs:109-213 | in a world that mines at once and uses all gas, a launched run stays within the limit exactly when the whole gas limit fits, whatever was estimated |
| `Overspending.LaunchedSpendExactly` | src/execution/replacement.rs:181-246 | from a launched bid with the window open, every honest world stays within the daily limit exactly when the whole gas limit fits, whatever was estimated |
| `Overspending.FreeGasOverspends` | src/execution/safety.rs:107-122 | a concrete evaluated opportunity with a gas price of zero that passes the check and exceeds the limit |
| `Sessions.CounterIsFailureWeight` | src/runtime/worker.rs:130-174 | in every session the counter is the weighted sum of outcomes since the last confirmation, modulo 2^32 |
| `Sessions.BreakerBounded` | src/execution/safety.rs:49-57 | with the breaker enabled that sum never wraps and never exceeds the maximum plus one |
| `Sessions.BreakerLatches` | src/execution/safety.rs:49-57 | once open the breaker stays open: no later opportunity broadcasts or changes anything |
| `Sessions.EstimatesCover` | src/analysis/profitability.rs:99-102 | tickets whose opportunities the detector returned, for transactions with a gas price of at least one wei, cover their gas limit |
| `Sessions.SpendWithinLimit` | src/execution/safety.rs:92-131 | in every session the spend is the saturated sum of what was recorded since the last reset and within the limit |
| `SpendLedger.HandleWindow` | src/execution/replacement.rs:203-206 | handling an opportunity leaves the window where its clock readings put it, and records exactly the confirmed gas; earlier records go exactly when a reading was taken a day or more after the window's start |
| `SpendLedger.LedgerLaw` | src/execution/safety.rs:92-131 | in every session the window starts where the clock readings put it, never ahead of the clock; the recorded amounts are the gas of the confirmations since it was last restarted, and the daily spend is their saturated sum |
| `Sessions.NonceConservation` | src/execution/replacement.rs:122-158 | in every session next nonce = synced nonce + accepted first broadcasts + failed first signings, and those nonces are contiguous |
| `Sessions.NoncesDistinct` | src/execution/gas_auction.rs:47-64 | no nonce is used twice before the 64-bit counter has gone all the way round |
| `Sessions.AcceptedAreUsed` | src/execution/replacement.rs:136 | without signing failures the accepted first broadcasts are exactly that contiguous range |
| `Sessions.AcceptedDistinct` | src/execution/gas_auction.rs:47-64 | in every session of at most 2^64 opportunities the accepted first broadcasts have pairwise distinct nonces, signing failures or not |
| `TableSessions.TableLaw` | src/execution/replacement.rs:168-175 | between runs every entry is an accepted bid of a used nonce, the first broadcast of its run bumped as often as it counts attempts, at most 3; there are exactly as many entries as receipt errors that left one |
| `TableSessions.LeavesEntryExactly` | src/execution/replacement.rs:198-242 | a receipt error leaves an entry exactly when one bid was accepted or the bump of the first price is a whole wei (hard cap representable) |
| `Scenarios.LostBumpLeavesNothing` | src/execution/replacement.rs:228-236 | for every first bid whose bump is less than a wei, a world in which the run ends on a receipt error and leaves nothing in the table |
| `Scenarios.NoEntryLeft` | src/execution/replacement.rs:228-236 | a concrete such run: an evaluated opportunity with a first bid of 5 wei |
| `TableSessions.EveryErrorLeavesEntry` | src/execution/replacement.rs:198-242 | when the bump of the configured minimum price is a whole wei, there is one entry per receipt error |
| `WorkerProtocol.MoveKeepsConserved` | src/runtime/worker.rs:36-78 | every atomic step conserves permits, gauge and opportunity counters |
| `WorkerProtocol.MoveKeepsExclusive` | src/runtime/worker.rs:58-65 | every atomic step keeps each mutex with the one worker inside it |
| `WorkerProtocol.MoveKeepsSerial` | src/runtime/worker.rs:129-174 | every atomic step keeps the shared executor and metrics where serial handling in lock order would have them |
| `WorkerProtocol.EveryInterleaving` | src/runtime/worker.rs:36-175 | all three hold after every schedule: permits + live = max(workers, 1), detected = successes + failures + waiting or executing, serial executor |
| `WorkerProtocol.GaugeWithinPool` | src/runtime/worker.rs:52-76 | as many tasks as configured, at least one, are alive at a time, every other permit is free, and the active gauge never exceeds the live tasks |
| `WorkerProtocol.MetricsByKind` | src/runtime/worker.rs:134-173 | with the executor free, successes are the confirmations, failures the drops, refusals and errors, and together they are the handled opportunities |
| `WorkerProtocol.EveryFindIsCounted` | src/runtime/worker.rs:109 | after every schedule, with or without an executor, the detected counter is the number of opportunities found whose task has moved on |
| `WorkerProtocol.MutualExclusion` | src/runtime/worker.rs:129 | no two workers are ever inside the same mutex |
| `WorkerProtocol.ConcurrentLaws` | src/runtime/worker.rs:102-175 | the session laws on nonces, breaker, table and spend hold of the concurrent bot whenever the executor is free |
| `WorkerProtocol.ConcurrentHistory` | src/runtime/worker.rs:102-175 | accepted first nonces are distinct, and the spend window and its records are where the clock readings put them, in the concurrent bot too |
| `WorkerProtocol.ConcurrentLatch` | src/runtime/worker.rs:129-174 | once the executor is free with its breaker open, no later step of any worker changes the executor |
| `WorkerProgress.SomeoneMoves` | src/runtime/worker.rs:36-175 | no deadlock: with a live worker, some worker can move in every reachable state |
| `WorkerProgress.StepsAreBounded` | src/runtime/worker.rs:52-77 | every schedule makes at most eleven steps per admitted worker |
| `WorkerProgress.PoolDrains` | src/runtime/worker.rs:52-77 | after any schedule the admitted workers can be run to their end: all permits back, gauge at zero, both mutexes free |
| `NonceRace.LockedRunsAreOrderly` | src/execution/gas_auction.rs:47-64 | under the mutex, at the level of single loads and stores, kept nonces count up without gap or repetition |
| `NonceRace.UnlockedRace` | src/execution/gas_auction.rs:59-64 | without it, a schedule of four workers that keeps one nonce twice |
| `NonceRace.MutexIsNeeded` | src/runtime/worker.rs:129 | nonces are never kept twice exactly when opportunities are handled under the mutex |
| `Mempool.DedupCache.constructor` | src/blockchain/mempool.rs:100-117 | an empty cache of capacity at least one agrees with the empty history |
| `Mempool.DedupCache.IsDuplicate` | src/blockchain/mempool.rs:218-230 | the LRU cache answers exactly what the whole call history determines, and keeps agreeing with it |
| `Mempool.TouchRefines` | src/blockchain/mempool.rs:222-229 | after a hit or a miss the keys in recency order are the C most recent distinct hashes, each with the time of its last pass |
| `Mempool.DedupGuarantee` | src/blockchain/mempool.rs:218-230 | two passes of one hash are at least 300 s apart or have at least C distinct other hashes between them |
| `Mempool.DuplicateIsRecent` | src/blockchain/mempool.rs:222-226 | a hash answered as duplicate was let through less than 300 s before |
| `Mempool.EvictedBy` | src/blockchain/mempool.rs:228 | a hash leaves the cache only after C distinct other hashes |
| `Mempool.CachedExactly` | src/blockchain/mempool.rs:218-230 | a hash is cached exactly when it was queried before and fewer than C distinct others since |
| `Mempool.AnswerExactly` | src/blockchain/mempool.rs:218-230 | a hash is answered as duplicate exactly when it is cached and was let through less than 300 s ago |
| `Mempool.PassesExactly` | src/blockchain/mempool.rs:37-45 | the filter lets a raw transaction through exactly when its value reaches the minimum and its offered price is within both bounds, inclusively |
| `Mempool.ProcessPendingHashes` | src/blockchain/mempool.rs:167-213 | forwards exactly the non-duplicate, fetched and passing transactions in order, until the receiver is gone |
| `Mempool.ForwardedExactly` | src/blockchain/mempool.rs:167-213 | what is to be forwarded are, in order, the parsed transactions at exactly the positions that were no duplicates, could be fetched and are wanted |
| `Backoff.ProviderBackoffExact` | src/blockchain/connection.rs:520-523 | up to 2^32 failures the saturating computation is min(max, initial · 2^(failures-1)) over the integers |
| `Backoff.ProviderBackoffMonotone` | src/blockchain/connection.rs:520-523 | up to there it never decreases with more failures |
| `Backoff.BackoffReachesMaximum` | src/blockchain/connection.rs:520-523 | from the 65th failure to the 2^32nd it is the maximum, whatever the initial backoff |
| `Backoff.TruncatedBackoff` | src/blockchain/connection.rs:521-522 | beyond 2^32 failures it is still exponential exactly when initial = 0 or initial · 2^((failures-1) mod 2^32) reaches the maximum |
| `Backoff.BackoffStartsOver` | src/blockchain/connection.rs:521-522 | the failure after the 2^32nd backs off for the initial backoff where the exponential one is the maximum |
| `Backoff.ReconnectPolicy.WaitBeforeRetry` | src/blockchain/connection.rs:572-578 | the delay is min(max, initial · 2^min(attempts since reset, 10)) |
| `Backoff.ReconnectPolicy.Reset` | src/blockchain/connection.rs:580-582 | the next delay is the initial one again |
| `Connection.FailoverSpec` | src/blockchain/connection.rs:356-398 | a call visits a rotation, each provider at most once; it skips exactly those in backoff when reached, returns the first answer, counts one more request and failure for each fault, leaves all others alone, and reports AllProvidersFailed exactly when all were in backoff |
| `Connection.RotationInjective` | src/blockchain/connection.rs:361-362 | the steps of a rotation visit different providers |
| `Connection.FairWindow` | src/blockchain/connection.rs:358 | of n consecutive calls exactly one starts at each of the n providers, while the index does not wrap or n divides 2^64 |
| `Connection.FairnessExactly` | src/blockchain/connection.rs:358 | no provider ever starts twice within n calls, wrap included, exactly when n divides 2^64 |
| `ProviderHistory.SlotsFollowHistory` | src/blockchain/connection.rs:503-526 | after any sequence of calls every slot is the summary of its provider's history: requests, faults, the streak, the last reply, and the backoff after the last fault |
| `ProviderHistory.SkippedExactly` | src/blockchain/connection.rs:495-526 | after any sequence of calls a provider is skipped exactly when it is reached less than min(max, initial · 2^(f-1)) ms after its last attempt, the f-th failure in a row (f up to 2^32) |
| `ProviderHistory.AllFailedExactly` | src/blockchain/connection.rs:356-398 | a call reports AllProvidersFailed exactly when it reaches every provider within that interval |
| `Connection.ProviderSlot.RecordSuccess` | src/blockchain/connection.rs:503-511 | clears the streak and the backoff, notes the time, keeps the totals |
| `Connection.ProviderSlot.RecordFailure` | src/blockchain/connection.rs:513-526 | one more failure in both counters, and a backoff from now |
| `Connection.ConnectionManager.constructor` | src/blockchain/connection.rs:140-168 | one fresh, distinct slot per endpoint, all counters zero |
| `Connection.ConnectionManager.Connect` | src/blockchain/connection.rs:137-172 | connects exactly when every endpoint parses and the first provider to answer reports the expected chain id |
| `Connection.ConnectionManager.Visit` | src/blockchain/connection.rs:361-389 | one provider's turn: nothing while it is in backoff, else one request and its record, in its slot only |
| `Connection.ConnectionManager.AttemptProviders` | src/blockchain/connection.rs:356-398 | the loop computes the specified call from the round-robin start, and advances the index, wrapping |
| `ProviderCounters.PerformKeepsBalance` | src/blockchain/connection.rs:374-391 | every atomic step of every concurrent call keeps the counters of every provider in balance |
| `ProviderCounters.CountersBalance` | src/blockchain/connection.rs:503-520 | in every interleaving consecutive <= failed <= total, and total = successes + failures + in flight |
| `ProviderCounters.SoloAttempt` | src/blockchain/connection.rs:374-391 | an attempt that runs alone counts one request; an answer clears the streak, a fault adds one failure and extends the streak; nothing else changes |

## Left out

- HTTP, WebSocket, RLP, signing and hashing: foreign code; only their nondeterministic outcomes and injective hashes remain.
- IEEE-754 rounding, NaN and infinities: exact reals; an infinite ROI is a separate case, but its product with a zero risk factor (NaN in the source) counts as infinite.
- `as_u128` panics: amounts that do not fit are excluded by the `Convertible`, `Affordable` and `EthRepresentable` preconditions, and a receipt's gas used is a 128-bit number.
- Method signatures as strings: the two statically known signatures are an enumeration, so the substring matches become constructor tests.
- Risk assessment: the risk score is an input between 0 and 100.
- Profitability.BestSpread: a zero price beside a negative one, where the source's relative distance is infinite, is left out; all lists without negative prices are covered.
- Profitability.EstimateArbitrageSpread: the same lists are left out.
- Backoff.ReconnectPolicy.WaitBeforeRetry: the attempt counter is unbounded here; the source's 64-bit counter would wrap after 2^64 attempts without a reset.
- Connection.ConnectionManager.Connect: a chain id beyond 64 bits, on which the conversion panics, counts as a mismatch.
- Opportunities.OpportunityDetector.Enqueue: the heap's internal order among equal scores is left open, because the standard library leaves it open.
- Sessions.SpendWithinLimit: assumes that receipts never report more gas than the gas limit, which the chain guarantees and the code takes for granted.
- WorkerProtocol.EveryInterleaving: a run of the executor under its mutex is one step (its nonce operations are split up in `NonceRace`); panics inside a spawned worker, which would skip the gauge's decrement, are not modelled.
- ProviderCounters.CountersBalance: 64-bit wrap-around of the request counters, which would take centuries; the counters are unbounded.
- Connection.ConnectionManager.AttemptProviders: one call at a time; concurrent calls are covered for the counters by `ProviderCounters`, not for the stored times.
- Nonces.NonceManager.ReleaseNonce: debug builds panic where the 64-bit addition overflows; the model wraps, as release builds do.
- Weak memory ordering (`Relaxed`): atomic steps are sequentially consistent.
- `race_providers` and `execute_with_failover`: marked dead code and a thin wrapper.
- `parse_typed_transaction` and `http_to_ws_url`: field copying and a prefix rewrite.
- Network state cache, shutdown coordinator, metrics export, logging and configuration loading: plumbing around the modelled state.
