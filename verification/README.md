# op-rbuilder: a verified model of the flashblocks block builder

op-rbuilder builds one L2 block as a growing sequence of *flashblocks*. A job starts with a fallback
block (deposits, sequencer transactions, a builder transaction), then adds one flashblock per signal of a
timer. Each flashblock takes transactions from the pool and from a sidecar under per-batch budgets, adds the
builder's own transactions, and is sealed: the delta is published on a stream, the full block goes to peers
and into a cell the Engine API reads. Meanwhile the timer and the Engine API cancel tokens at any moment.

This project models that machine in Dafny and proves what keeps its views in agreement: the database, the
totals, the published deltas, the block in the cell, the budgets, the sidecar's overrides and the peers' replay.
All paths below are relative to the repository root. Nothing was executed; everything stated here is proved.

## How the model is built

* **The EVM is a function.** `Env.transact` maps a world state and a transaction to `Done(result, change)`,
  `Invalid` or `Fatal`. Theorems hold for *every* `WellBehaved` function: gas used stays below the gas
  limit, a non-deposit needs the current nonce, covers the base fee and moves the nonce on, and storage writes
  report the value they replaced. Roots, hashes, signatures and compressed sizes are functions too.
  `AccountMachine` is a concrete EVM that charges for gas and meets these assumptions; `Witnesses` gives whole jobs,
  for both builders, that meet what the theorems on placement and limits assume about a run.
* **Assumptions about a run are about the states it reaches.** That a builder transaction lands, or uses no more
  than what is reserved for it, is asked only where the job is about to commit it (`BuildRuns.EveryTurn`); that the
  EVM does not fail on a pool transaction, only where the pool loop gets to it; how nonces move or that the gas limit
  does not matter, only along the replay of the block in question.
* **Objects and values.** What the source updates in place is a class (`ExecutionInfo`, `StateDb`,
  `BestFlashblocksTxs`, `AddressGasLimiter`, `Publisher`, `BlockCell`, `StreamsHandler`). Each has a value, and
  every method is proved to turn the old value into the one a pure function gives. The theorems are about the
  pure functions, so they hold of the methods.
* **The reference is straight-line replay.** `Replay.ExecAll` folds the EVM over a list of transactions, with no
  skipping, simulating or rejecting. Every executor is proved to leave exactly what that replay gives, and for each
  of them it is stated, over the EVM's outcomes alone, which transactions it takes and what happens to the others
  (`Sequencer.SequencerIsExact`, `PoolExecutor.StepIsExact`, `Sidecar.LandingIsExact`, `BuilderTx.PassIsExact`).
* **Asynchrony is input.** A token never becomes uncancelled, so one number per flashblock (`live`: how many pool
  transactions are looked at before the cancellation shows) covers every timing inside the pool loop. Views of the
  pool, sidecar replies, publishing failures and the block token are inputs of each turn. `Protocol` models the
  tokens, the channel and the cell as atomic steps in any interleaving, and `Concurrency` lets those steps do
  the real work, pool transaction by pool transaction: every interleaving is proved to be a run of the sequential
  loop, and the tokens to bound what the pool loop really executes.
* **64-bit arithmetic is explicit where the source depends on it.** Saturating and wrapping operations are written
  out; the release profiles do not enable overflow checks, so a plain `+` or `*` wraps.

| files | what they model |
|---|---|
| `Evm`, `AccountMachine`, `Database`, `Execution`, `Replay` | transactions, EVM, a concrete EVM, state database, running totals and limits, straight-line replay |
| `Sequencer`, `PoolExecutor`, `PoolCompleteness`, `Sidecar`, `BuilderTx` | the four executors |
| `BestTxs`, `GasLimiter`, `Overrides`, `Bundles`, `Timing`, `Broadcast` | iterator, rate limiter, sidecar overrides, bundles, slot timing, p2p broadcast |
| `Sealing`, `Flashblocks`, `PayloadBuilder`, `Peer`, `StandardBuilder` | sealing, the build loop as functions and as methods, the peer, the one-shot builder |
| `BuildRuns`, `Budgets`, `Placement`, `Guarantees` | theorems over whole runs and jobs |
| `Protocol`, `Concurrency` | theorems over all interleavings |
| `Witnesses` | concrete cases |

## Where the code does less than it says

Each of these has a concrete input where the promise fails and, unless noted, the exact condition under which it holds.

* The overrides sent to the sidecar are meant to show the in-progress state. An account destroyed and re-created
  within the block is shown empty, and only such an account is (`Overrides.OverridesShowInProgressState`,
  `Overrides.RecreatedAccountIsShownEmpty`).
* A peer can refuse a block the builder sealed. The per-transaction gas cap is applied by the builder to pool
  transactions only and by peers to everything (`Peer.PeerAcceptsIff`, `Witnesses.DepositAboveCapIsRefused`). Peers
  check that the header's gas is within its limit, which the builder does not ask of sequencer transactions and its
  own (`Witnesses.OverfullBlockIsRefused`; no condition for a job within budget, `Guarantees.PeersAcceptBudgetedJobs`).
  The builder executes under the gas limit of the attributes or the parent but puts the operator's limit into the header,
  which is what the peer executes under (`Peer.PeerAcceptsOverrideIff`, `Witnesses.OverrideIsRefused`; where code reads
  the gas limit, `Peer.PeerAcceptsIffAlike`, `Witnesses.GasLimitReaderIsRefused`).
* The limit check adds gas without overflow check (`Execution.LimitCheckIsExact`, `Execution.GasAdditionCanWrap`),
  and the default bundle window wraps in the same way (`Bundles.AcceptedBundlesAreIncludable`). The unchecked refill
  of the limiter can take gas away (`GasLimiter.RefillIsMonotoneIff`).
* A DA or footprint reservation is not given back to the next target, a gas reservation is
  (`Budgets.DaTargetKeepsReservation`, `Budgets.ReservationIsLost`). This is harmless only because nothing is reserved
  before the last flashblock.
* The room for the closing builder transactions is reserved by simulating them at the opening. If that simulation
  fails nothing is reserved, and what is committed at the end comes on top (`Witnesses.FailedOpeningOverruns`). Here the
  condition is sufficient only: the reservation covers what is committed (`Budgets.JobStaysWithinLimits`).
* A failed hand-over after publishing leaves the stream one flashblock ahead of the cell
  (`BuildRuns.RunsAgree`, `Witnesses.HandOverFailureShows`).
* A block time shorter than one interval plans no flashblock; the job then divides by zero
  (`Timing.NoFlashblocksIff`, `Timing.ShortBlockHasNoFlashblocks`), and the base transaction of the fallback block is
  a candidate twice (`BuilderTx.NoFlashblocksDoublesTheBase`).
* A send offset can make the timer send too few or too many signals: a negative one on either schedule, a positive
  one only on a fixed schedule, where the deadline does not move with it (`Timing.IntervalEndSendsOnePerFlashblock`,
  `Timing.EarlySignalsAreMissing`, `Timing.LateSignalsAreMissing`).

The limiter says it cleans up stale buckets; the condition holds of every bucket, so none is ever removed
(`GasLimiter.CleanupRemovesNothing`).

## Model

| member | source | states |
|---|---|---|
| `Replay.RecordKeepsConsistent` | crates/op-rbuilder/src/builders/context.rs:343-368 | recording an executed transaction and committing its change keeps database, receipts, senders, gas and DA total equal to a straight replay of the recorded list |
| `Replay.LedgerIsExact` | crates/op-rbuilder/src/builders/context.rs:241-270 | transactions, senders and receipts stay in lockstep; every receipt has the status, logs and cumulative gas of executing its transaction there and, for deposits, the sender's nonce (after Regolith) and the receipt version (after Canyon); the last cumulative gas is the block total |
| `Replay.ReceiptsOfPrefix` | crates/op-rbuilder/src/builders/flashblocks/payload.rs:1452-1467 | appending transactions never changes earlier receipts, so slicing receipts by the last flashblock index is sound |
| `Replay.ReplayTracks` | crates/op-rbuilder/src/builders/flashblocks/payload.rs:1268-1271 | replaying keeps the transition record exact against the parent state and leaves the bundle untouched |
| `Database.StateDb.Simulation` | crates/op-rbuilder/src/builders/builder_tx.rs:263-275 | the simulation copy sees the same world and starts with no transitions of its own |
| `Database.StateDb.CommitChange` | crates/op-rbuilder/src/builders/builder_tx.rs:246-247 | the touched accounts are applied one after the other, in whatever order, and the outcome is that of applying them all at once |
| `Database.StateDb.Merge` | crates/op-rbuilder/src/builders/flashblocks/payload.rs:1268-1271 | merging moves the transitions that are a net change into the bundle, with one revert entry |
| `Database.StateDb.TakeBundle` | crates/op-rbuilder/src/builders/flashblocks/payload.rs:1520-1522 | taking the bundle leaves an empty one and everything else as it was |
| `Execution.ExecutionInfo.Record` | crates/op-rbuilder/src/builders/context.rs:815-831 | one recorded transaction extends all lists and counters together, with the receipt seeing the new cumulative gas |
| `Execution.LimitCheckIsExact` | crates/op-rbuilder/src/primitives/reth/execution.rs:72-115 | the check decides as exact arithmetic does, iff the DA does not fit anyway or the gas does not wrap around to a total within the limit |
| `Execution.LimitErrorsAreExact` | crates/op-rbuilder/src/primitives/reth/execution.rs:82-114 | the error reported is that of the first limit exceeded, with the figures compared |
| `Execution.SaturationIsHarmless` | crates/op-rbuilder/src/primitives/reth/execution.rs:85-105 | saturating DA and footprint arithmetic decides as exact arithmetic does |
| `Execution.GasAdditionCanWrap` | crates/op-rbuilder/src/primitives/reth/execution.rs:107-113 | a concrete transaction that passes the gas check by wrap-around |
| `Overrides.CommitTracks` | crates/op-rbuilder/src/sidecar/overrides.rs:31-42 | every commit the EVM can report keeps status, info and each slot of the transition record exact relative to the parent state, through destruction and re-creation |
| `Overrides.MergedBundleIsTheWorld` | crates/op-rbuilder/src/builders/flashblocks/payload.rs:1268-1271 | the merged bundle laid over the parent state gives every account and every slot of the visible world |
| `Overrides.MergedBundleRemembersTheParent` | crates/op-rbuilder/src/builders/flashblocks/payload.rs:1268-1271 | the bundle holds exactly the accounts whose info or storage changed or that were destroyed and re-created, and remembers the info and slot values the parent state had |
| `Overrides.MergeLaysOver` | crates/op-rbuilder/src/builders/flashblocks/payload.rs:1268-1271 | merging into any bundle: an account shows what its transition says and a slot what it wrote; the rest is as before, or gone if the account was destroyed |
| `Overrides.BuildStateOverrides` | crates/op-rbuilder/src/sidecar/overrides.rs:9-82 | the two nested passes compute exactly one override per modified account |
| `Overrides.CollectDiff` | crates/op-rbuilder/src/sidecar/overrides.rs:33-41 | the inner pass collects exactly the changed slots with their present values |
| `Overrides.OverridesShowInProgressState` | crates/op-rbuilder/src/sidecar/overrides.rs:9-82 | applied to the parent state the overrides give balance, nonce, code and every slot of an account as the builder sees them, iff the account was not destroyed and re-created in the block |
| `Overrides.RecreatedAccountIsShownEmpty` | crates/op-rbuilder/src/sidecar/overrides.rs:50-54 | a concrete re-created account that is shown with balance zero |
| `Guarantees.SidecarSeesInProgressState` | crates/op-rbuilder/src/builders/flashblocks/payload.rs:802-813 | the same in the middle of any flashblock of any run: the overrides reflect this flashblock's pool transactions and all earlier flashblocks |
| `GasLimiter.AddressGasLimiter.constructor` | crates/op-rbuilder/src/gas_limiter/mod.rs:57-68 | a new limiter has no buckets; without configuration it is disabled |
| `GasLimiter.AddressGasLimiter.ConsumeGas` | crates/op-rbuilder/src/gas_limiter/mod.rs:70-96 | accepts iff enough is available, creates the bucket on first use even when it refuses, and changes no other bucket |
| `GasLimiter.NewLimiterIsFull` | crates/op-rbuilder/src/gas_limiter/mod.rs:70-80 | in a new limiter every address has the full amount |
| `GasLimiter.AddressGasLimiter.RefreshBlock` | crates/op-rbuilder/src/gas_limiter/mod.rs:107-124 | refills every bucket up to its capacity, cleans up on multiples of the interval and reports how many were removed |
| `GasLimiter.ConsumeRefinesTotal` | crates/op-rbuilder/src/gas_limiter/mod.rs:70-96 | the lazily filled map decides and updates like a total function in which untouched addresses are full |
| `GasLimiter.RefreshRefinesTotal` | crates/op-rbuilder/src/gas_limiter/mod.rs:107-124 | a refresh adds the rate up to the cap for every address, whether or not it has a bucket and whether or not the block cleans up |
| `GasLimiter.CleanupRemovesNothing` | crates/op-rbuilder/src/gas_limiter/mod.rs:117-121 | with or without cleanup a refresh is just the refill |
| `GasLimiter.RefillIsMonotoneIff` | crates/op-rbuilder/src/gas_limiter/mod.rs:110-115 | a refill never takes gas away iff capacity plus rate fits in 64 bits |
| `GasLimiter.AcceptedGasIsBounded` | crates/op-rbuilder/src/gas_limiter/mod.rs:70-124 | over any run, gas accepted for an address is at most what it had plus one refill per block |
| `BestTxs.BestFlashblocksTxs.constructor` | crates/op-rbuilder/src/builders/flashblocks/best_txs.rs:26-33 | a new iterator is at flashblock 0 with nothing committed |
| `BestTxs.BestFlashblocksTxs.RefreshIterator` | crates/op-rbuilder/src/builders/flashblocks/best_txs.rs:36-43 | a new flashblock starts over on a fresh pool view and forgets invalid senders but not committed hashes |
| `BestTxs.BestFlashblocksTxs.MarkCommitted` | crates/op-rbuilder/src/builders/flashblocks/best_txs.rs:46-48 | adds the hashes to the committed set |
| `BestTxs.BestFlashblocksTxs.MarkInvalid` | crates/op-rbuilder/src/builders/flashblocks/best_txs.rs:98-100 | the sender is skipped for the rest of the pass |
| `BestTxs.BestFlashblocksTxs.NextTx` | crates/op-rbuilder/src/builders/flashblocks/best_txs.rs:58-95 | the loop over the inner iterator yields what the one-at-a-time specification yields and leaves the same state |
| `BestTxs.DrainYieldsExactly` | crates/op-rbuilder/src/builders/flashblocks/best_txs.rs:58-95 | draining yields, in pool order, exactly the uncommitted transactions of valid senders whose range contains the flashblock and whose sender has no earlier uncommitted one past its last flashblock |
| `BestTxs.NextIsOffered` | crates/op-rbuilder/src/builders/flashblocks/best_txs.rs:58-95 | whatever the consumer marks invalid, a yielded transaction is from the pool, uncommitted, in range and of a valid sender |
| `PoolExecutor.ConsiderNext` | crates/op-rbuilder/src/builders/context.rs:421-604 | one turn of the loop on the mutable objects equals the specified step, in every skip, reject, stop and abort branch |
| `PoolExecutor.ChargeAndRecord` | crates/op-rbuilder/src/builders/context.rs:534-603 | the sender is charged as soon as the transaction has executed; it is recorded only if it may land |
| `PoolExecutor.ExecuteBestTransactions` | crates/op-rbuilder/src/builders/context.rs:387-626 | the whole loop equals the specified run, for every moment of cancellation |
| `PoolExecutor.StepIsExact` | crates/op-rbuilder/src/builders/context.rs:452-603 | one offered transaction, over the EVM's outcome: a used nonce changes nothing; any other invalid outcome, failed check, unpaid gas, excluded revert or gas above the cap leaves it out and drops its sender; everything else is appended with its tip; gas executed is charged |
| `PoolExecutor.ExecutionsAreBounded` | crates/op-rbuilder/src/builders/context.rs:497-503 | no more is executed than the token lives for, and no more is included than executed |
| `PoolExecutor.LongerLifeIncludesMore` | crates/op-rbuilder/src/builders/context.rs:497-503 | a token that lives longer only adds to what is included |
| `PoolExecutor.PoolKeepsConsistent` | crates/op-rbuilder/src/builders/context.rs:387-626 | skipped, rejected and rate-limited transactions leave no trace: the result is a straight replay |
| `PoolExecutor.PicksAreAdmissible` | crates/op-rbuilder/src/builders/context.rs:421-576 | every included transaction is from the pool, uncommitted, inside its flashblock, block and time ranges, no larger than a transaction may be, under the gas cap, and reverted only if it may be |
| `PoolExecutor.PoolRecordsPicks` | crates/op-rbuilder/src/builders/context.rs:578-603 | the totals after the loop are those of pushing the included transactions in order |
| `PoolExecutor.RecordPicksAppends` | crates/op-rbuilder/src/builders/context.rs:578-603 | the block grows by exactly the included transactions, and the fees by what each offers beyond the base fee, up to its maximum tip, times its gas |
| `PoolExecutor.PicksHaveReceipts` | crates/op-rbuilder/src/builders/context.rs:578-599 | gas and status of each included transaction are those of its receipt: the gas is the difference of cumulative gas |
| `PoolExecutor.RejectedSenderIsDropped` | crates/op-rbuilder/src/builders/context.rs:452-576 | nothing is included in the rest of the pass of a sender whose transaction may not run, is invalid other than by a used nonce, or may not land |
| `PoolExecutor.ExcludedRevertIsCharged` | crates/op-rbuilder/src/builders/context.rs:534-563 | a reverting bundle transaction is dropped and its sender pays for the execution |
| `PoolExecutor.PoolRespectsLimits` | crates/op-rbuilder/src/builders/context.rs:472-488 | pool execution stays within the gas, DA and footprint limits it is given |
| `PoolExecutor.PicksAreCharged` | crates/op-rbuilder/src/builders/context.rs:534-545 | included gas of an address never exceeds what the limiter took from it |
| `PoolExecutor.StaleTokenDoesNoPoolWork` | crates/op-rbuilder/src/builders/context.rs:497-500 | on a cancelled token nothing is executed and nobody is charged |
| `PoolExecutor.PoolCompletes` | crates/op-rbuilder/src/builders/context.rs:503-525 | the loop fails iff the EVM fails on a transaction it gets to |
| `PoolExecutor.NoExecutionsNoWork` | crates/op-rbuilder/src/builders/context.rs:497-503 | where the loop hands no transaction to the EVM, nothing is included, nobody is charged and it does not fail |
| `PoolCompleteness.ReplayablePoolIsIncluded` | crates/op-rbuilder/src/builders/context.rs:387-626 | conversely, a pool that replays apart from transactions whose nonce is already used, has room under the limits and the rate limiter, and is not hindered by its own conditions is included in full and in order, without those |
| `Sequencer.ExecuteSequencerTransactions` | crates/op-rbuilder/src/builders/context.rs:286-382 | skips invalid transactions, fails on blobs, unrecoverable senders and EVM errors, and after Jovian leaves the footprint scalar of the state reached, read once at the end |
| `Sequencer.SequencerKeepsConsistent` | crates/op-rbuilder/src/builders/context.rs:286-382 | what was executed replays, whatever was skipped, and earns no fees |
| `Sequencer.ReplayableListIsExecuted` | crates/op-rbuilder/src/builders/context.rs:286-382 | conversely, a list that replays is executed in full |
| `Sequencer.SequencerIsExact` | crates/op-rbuilder/src/builders/context.rs:286-382 | the list is executed iff it holds no blob, no unrecoverable sender and no EVM failure where it is reached, and then the block holds exactly the transactions that replay one after the other |
| `Sequencer.FirstIntolerableEnds` | crates/op-rbuilder/src/builders/context.rs:286-345 | the first transaction that is not tolerated ends the attempt with its own error |
| `Sidecar.ExecuteSidecarTransactions` | crates/op-rbuilder/src/builders/context.rs:633-844 | equals the specified run: the first required transaction that misses ends it with that error |
| `Sidecar.RequiredAreAllOrNothing` | crates/op-rbuilder/src/builders/context.rs:633-844 | a batch is accepted iff every required transaction lands in a best-effort pass, and then has exactly that pass's effect |
| `Sidecar.LandingIsExact` | crates/op-rbuilder/src/builders/context.rs:660-813 | a transaction lands iff it decodes, recovers, is of the ordinary kind, fits the limits and executes successfully after those that landed before it |
| `Sidecar.RefusalIsExplained` | crates/op-rbuilder/src/builders/context.rs:660-813 | a refused batch names the first required transaction that does not land, with the first thing wrong with it |
| `Sidecar.LandedAreSmall` | crates/op-rbuilder/src/builders/context.rs:733-764 | nothing that lands is larger than a transaction may be |
| `Sidecar.BestEffortAppendsLanded` | crates/op-rbuilder/src/builders/context.rs:815-831 | what is appended is the subsequence of the batch that landed, without fees |
| `Sidecar.LandedSucceed` | crates/op-rbuilder/src/builders/context.rs:792-813 | no sidecar transaction lands reverted |
| `Sidecar.SidecarKeepsConsistent` | crates/op-rbuilder/src/builders/context.rs:815-831 | an accepted batch replays |
| `Sidecar.SidecarRespectsLimits` | crates/op-rbuilder/src/builders/context.rs:733-764 | an accepted batch stays within gas, DA and footprint limits |
| `Sidecar.PollTransactions` | crates/op-rbuilder/src/sidecar/client.rs:44-120 | at most max retries plus one requests; every request but the last was answered with hold; the result is the last answer, or a timeout |
| `Guarantees.RequiredSidecarTransactionsArePublishedTogether` | crates/op-rbuilder/src/builders/flashblocks/payload.rs:827-910 | a turn publishes nothing, or a flashblock holding every required transaction of its batch |
| `BuilderTx.CommitCandidates` | crates/op-rbuilder/src/builders/builder_tx.rs:171-260 | commits the candidates of one end of the block in order, with skips, blocked signers and EVM failures as specified |
| `BuilderTx.PassIsExact` | crates/op-rbuilder/src/builders/builder_tx.rs:194-253 | a candidate is committed iff it is meant for this end of the block, no earlier candidate of its signer reverted or was invalid other than by a used nonce, and it succeeds in the state reached; an EVM failure ends the pass |
| `BuilderTx.CapsAddUp` | crates/op-rbuilder/src/builders/flashblocks/payload.rs:727-749 | gas and DA reserved are sums over the candidates for the bottom of the block |
| `BuilderTx.CandidatesKeepConsistent` | crates/op-rbuilder/src/builders/builder_tx.rs:194-253 | builder transactions replay like any other, even when the pass ends in an EVM failure |
| `BuilderTx.CandidatesAddAtMost` | crates/op-rbuilder/src/builders/builder_tx.rs:232-252 | a pass adds at most the gas limits and sizes of its candidates and no fees |
| `BuilderTx.BlockedSignersCommitNothing` | crates/op-rbuilder/src/builders/builder_tx.rs:200-230 | after an invalid or reverting transaction its signer gets nothing more committed in the pass |
| `BuilderTx.SimulationMatchesCommitment` | crates/op-rbuilder/src/builders/flashblocks/builder_tx.rs:100-104 | candidates committed on the simulation state lead to the very world the commit pass reaches, so nonces signed after them are current |
| `BuilderTx.CommitTxs` | crates/op-rbuilder/src/builders/builder_tx.rs:301-315 | commits all transactions to the simulation state, or fails at the first that does not execute |
| `BuilderTx.EstimateGas` | crates/op-rbuilder/src/builders/builder_tx.rs:429-448 | the EIP-7623 floor always exceeds the intrinsic gas: 21000 plus 10 per zero byte plus 40 per other byte |
| `BuilderTx.DigitsReadBack` | crates/op-rbuilder/src/builders/builder_tx.rs:411-413 | the block number in the message is its decimal form |
| `BuilderTx.BaseCandidateIsExact` | crates/op-rbuilder/src/builders/builder_tx.rs:405-428 | the base transaction is its signer's next one, with exactly the estimated gas, no tip, for the bottom |
| `BuilderTx.TopCandidateIsExact` | crates/op-rbuilder/src/builders/flashblocks/builder_tx.rs:203-230 | the opening transaction is its signer's next one: the contract call with a 64th more gas than simulated or, failing that, the base transaction |
| `BuilderTx.SimulatePlainTxs` | crates/op-rbuilder/src/builders/flashblocks/builder_tx.rs:81-123 | the plain builder on a thrown-away copy returns the specified candidates |
| `BuilderTx.SimulateNumberTxs` | crates/op-rbuilder/src/builders/flashblocks/builder_tx.rs:267-340 | the number-contract builder on a thrown-away copy returns the specified candidates |
| `BuilderTx.PlainPlacement` | crates/op-rbuilder/src/builders/flashblocks/builder_tx.rs:91-98 | without flashtestations, one pass of the plain builder commits a base transaction at the bottom of the first and last flashblock, iff it lands, and nothing elsewhere |
| `BuilderTx.NumberPlacement` | crates/op-rbuilder/src/builders/flashblocks/builder_tx.rs:277-311 | without flashtestations, one pass of the number-contract builder commits its transaction at its own end of the block, iff it lands, and nothing at the other |
| `BuilderTx.PlainAdds` | crates/op-rbuilder/src/builders/flashblocks/builder_tx.rs:91-120 | with flashtestations too: nothing at the top of a flashblock, and at the bottom of the last one the base transaction, iff it lands, followed by flashtestations at most |
| `BuilderTx.NumberAdds` | crates/op-rbuilder/src/builders/flashblocks/builder_tx.rs:277-337 | with flashtestations too: its transaction at the top of a flashblock, iff it lands, and at the bottom of the last one flashtestations at most |
| `BuilderTx.FlashtestationsSeeTheBase` | crates/op-rbuilder/src/builders/flashblocks/builder_tx.rs:100-115 | flashtestations of the plain builder are simulated on the world the committed base transaction leaves, which is where they are committed |
| `BuilderTx.FlashtestationsSeeTheEnd` | crates/op-rbuilder/src/builders/flashblocks/builder_tx.rs:313-336 | those of the number-contract builder on the state at the end of the block |
| `BuilderTx.NoFlashblocksDoublesTheBase` | crates/op-rbuilder/src/builders/flashblocks/builder_tx.rs:91-98 | with no flashblock configured the base transaction is a candidate twice |
| `BuilderTx.NoncesAreConsecutive` | crates/op-rbuilder/src/builders/builder_tx.rs:277-299 | in any block in whose replay only its own transactions move a signer's nonce, by one each, the signer's nonces are consecutive from its parent nonce |
| `Placement.PlainTurn` | crates/op-rbuilder/src/builders/flashblocks/builder_tx.rs:81-123 | a flashblock of the plain builder holds a base transaction iff it is the last and the transaction lands at its end; it then closes the flashblock but for flashtestations, whichever key these are signed with |
| `Placement.NumberTurn` | crates/op-rbuilder/src/builders/flashblocks/builder_tx.rs:267-340 | a flashblock of the number-contract builder opens with one builder transaction iff that lands there, and holds no other but flashtestations at the end of the last |
| `Placement.FallbackHoldsOne` | crates/op-rbuilder/src/builders/flashblocks/payload.rs:396-406 | either builder closes the fallback block with one transaction of its own, iff it lands after the deposits, and adds no other |
| `Placement.PlainJob` | crates/op-rbuilder/src/builders/flashblocks/builder_tx.rs:81-123 | over a whole job in which its transaction lands where it is due: one builder transaction closes flashblock 0, one closes the last but for flashtestations, and none is in between |
| `Placement.NumberJob` | crates/op-rbuilder/src/builders/flashblocks/builder_tx.rs:267-340 | over a whole job in which its transaction lands where it is due: one builder transaction closes flashblock 0 and one opens every other; the rest is not the builder's, but for flashtestations at the end of the last |
| `Sealing.BuildBlock` | crates/op-rbuilder/src/builders/flashblocks/payload.rs:1257-1533 | seals header, delta and bundle of everything executed so far, puts the transitions back and leaves an empty bundle |
| `Sealing.SealedBundleIsOneShot` | crates/op-rbuilder/src/builders/flashblocks/payload.rs:1520-1522 | however many flashblocks were sealed before, the bundle is that of one merge at the end, with one revert entry |
| `Sealing.ForgettingTransitionsLosesState` | crates/op-rbuilder/src/builders/flashblocks/payload.rs:1520-1522 | without putting the transitions back, a later flashblock would lose accounts |
| `Sealing.PublishedBalancesAreCurrent` | crates/op-rbuilder/src/builders/flashblocks/payload.rs:1468-1473 | the published balances are the current ones of every account changed in the block |
| `Sealing.BlobGasIsFootprint` | crates/op-rbuilder/src/builders/context.rs:153-173 | after Jovian the header's blob gas is the DA footprint while the product fits in 64 bits |
| `BuildRuns.PhasesKeep` | crates/op-rbuilder/src/builders/flashblocks/payload.rs:715-872 | all phases of a flashblock keep the totals consistent, only extend the block, and collect pool tips only |
| `BuildRuns.DeltaCompletesStream` | crates/op-rbuilder/src/builders/flashblocks/payload.rs:1452-1467 | the published delta completes the stream to the sealed block: transactions, receipts and header |
| `BuildRuns.TurnKeepsLoopHead` | crates/op-rbuilder/src/builders/flashblocks/payload.rs:683-962 | every completed turn leads to a loop head extending the block; other turns leave the cell alone; the stream runs ahead iff the flashblock is published and its hand-over fails; a cancelled block publishes nothing |
| `BuildRuns.FallbackReachesLoopHead` | crates/op-rbuilder/src/builders/flashblocks/payload.rs:379-459 | the fallback block is flashblock 0, alone carries the base, and agrees with the cell |
| `BuildRuns.RunsAgree` | crates/op-rbuilder/src/builders/flashblocks/payload.rs:616-680 | over every run: indices 0..k without gaps, deltas and receipts adding up to the block in the cell, which replays; the stream is ahead, by one flashblock, iff some hand-over failed |
| `BuildRuns.TurnEndsExactly` | crates/op-rbuilder/src/builders/flashblocks/payload.rs:781-948 | whether a turn goes on, stops or aborts, in the order things can go wrong |
| `BuildRuns.FallbackEndsExactly` | crates/op-rbuilder/src/builders/flashblocks/payload.rs:379-459 | when the fallback block is in the cell, when it is published, and how it ends |
| `Witnesses.HandOverFailureShows` | crates/op-rbuilder/src/builders/flashblocks/payload.rs:907-910 | a concrete run whose stream ends one flashblock ahead of the cell |
| `BuildRuns.AtMostCountFlashblocks` | crates/op-rbuilder/src/builders/flashblocks/payload.rs:646-649 | a run publishes at most count + 1 flashblocks |
| `BuildRuns.UndisturbedRunIsComplete` | crates/op-rbuilder/src/builders/flashblocks/payload.rs:616-680 | an undisturbed run with enough signals, in whose turns the EVM fails on no pool transaction, publishes every planned flashblock and stops |
| `BuildRuns.GasTargetIsExact` | crates/op-rbuilder/src/builders/flashblocks/payload.rs:934-935 | over any run the batch shares stay and the gas target is the index times the gas share |
| `BuildRuns.JobTargetsAreExact` | crates/op-rbuilder/src/builders/flashblocks/payload.rs:494-520 | over any job: count shares of gas, DA and footprint make up the block limits to within one unit per flashblock, flashblock i may fill the block up to i shares of gas, and the last up to the gas limit to within count units |
| `BuildRuns.TurnPicksAreAdmissible` | crates/op-rbuilder/src/builders/flashblocks/payload.rs:754-779 | the pool transactions of a turn are admissible in this very flashblock |
| `BuildRuns.NoPoolTransactionTwice` | crates/op-rbuilder/src/builders/flashblocks/payload.rs:781-786 | a pool transaction executed in one flashblock is never executed in another of the same block |
| `BuildRuns.TurnMarksExactly` | crates/op-rbuilder/src/builders/flashblocks/payload.rs:781-786 | a turn marks exactly its opening builder transactions and the pool transactions it includes |
| `BuildRuns.FeesAreTipsOfPicks` | crates/op-rbuilder/src/builders/context.rs:595-599 | the payload's fees are the tips of the pool transactions it includes -- what they offer beyond the base fee, up to their maximum, times their gas -- and nothing else |
| `BuildRuns.PoolGasIsRateLimited` | crates/op-rbuilder/src/builders/flashblocks/payload.rs:381 | over any sequence of jobs, the pool gas an address gets included is at most what it had plus one refill per job |
| `BuildRuns.JobStartsRefilled` | crates/op-rbuilder/src/builders/flashblocks/payload.rs:381 | a job starts with every address refilled, up to its cap |
| `PayloadBuilder.Publisher.Publish` | crates/op-rbuilder/src/builders/flashblocks/payload.rs:903-906 | a successful publish appends the flashblock to what subscribers see |
| `PayloadBuilder.BlockCell.Set` | crates/op-rbuilder/src/builders/generator.rs:406-410 | the cell holds the last payload set |
| `PayloadBuilder.ExecuteFlashblock` | crates/op-rbuilder/src/builders/flashblocks/payload.rs:715-872 | the phases on the mutable objects equal the specified draft |
| `PayloadBuilder.MarkNew` | crates/op-rbuilder/src/builders/flashblocks/payload.rs:781-786 | marks exactly the hashes executed since the last sealed flashblock |
| `PayloadBuilder.SealFlashblock` | crates/op-rbuilder/src/builders/flashblocks/payload.rs:874-948 | publishes, hands over and sets the cell in this order, and moves the targets on |
| `PayloadBuilder.BuildNextFlashblock` | crates/op-rbuilder/src/builders/flashblocks/payload.rs:683-962 | one turn on the mutable objects equals the specified turn |
| `PayloadBuilder.BuildFallback` | crates/op-rbuilder/src/builders/flashblocks/payload.rs:379-522 | the fallback block on the mutable objects equals the specified one |
| `PayloadBuilder.RunLoop` | crates/op-rbuilder/src/builders/flashblocks/payload.rs:616-680 | the loop equals the specified run |
| `PayloadBuilder.BuildPayload` | crates/op-rbuilder/src/builders/flashblocks/payload.rs:336-680 | a whole job equals the specified run, and its stream adds up to the cell, except for one flashblock iff a hand-over failed |
| `Budgets.NextIsOnTarget` | crates/op-rbuilder/src/builders/flashblocks/payload.rs:923-948 | gas, DA and footprint targets of flashblock i are exactly i batch shares |
| `Budgets.TurnLimitsAreExact` | crates/op-rbuilder/src/builders/flashblocks/payload.rs:727-749 | on target, a flashblock gets exactly its shares of gas, DA and footprint less what is reserved, and the limit on the size of a transaction |
| `Budgets.LastTargetsReachTheLimits` | crates/op-rbuilder/src/builders/flashblocks/payload.rs:494-520 | on target, the last flashblock may fill the block up to its gas, DA and footprint limits, to within one unit per flashblock |
| `Budgets.DaTargetKeepsReservation` | crates/op-rbuilder/src/builders/flashblocks/payload.rs:923-942 | the next DA and footprint targets move on by a full share iff nothing was reserved (or nothing was left); the gas target always does |
| `Budgets.ReservationIsLost` | crates/op-rbuilder/src/builders/flashblocks/payload.rs:923-942 | a concrete reservation that the next DA and footprint targets do not get back |
| `Budgets.BudgetedCannotWrap` | crates/op-rbuilder/src/primitives/reth/execution.rs:107-113 | within budget the unchecked gas addition cannot wrap |
| `Budgets.TurnKeepsBudget` | crates/op-rbuilder/src/builders/flashblocks/payload.rs:727-749 | a completed turn keeps the gas, DA and footprint meters within their shares |
| `Budgets.JobStaysWithinLimits` | crates/op-rbuilder/src/builders/flashblocks/payload.rs:494-522 | if base and builder fit, a share covers the builder, and in no turn the job takes it uses more than it reserved at the opening, then no block the job hands out exceeds its gas, DA or Jovian footprint limit, and the header reports exactly the footprint: DA bytes times the scalar in the state after the attributes |
| `Witnesses.FailedOpeningOverruns` | crates/op-rbuilder/src/builders/builder_tx.rs:171-190 | a concrete turn whose opening simulation fails: nothing is reserved, the pool fills the block, and the closing builder transaction takes it over its gas limit |
| `Budgets.PlainJobStaysWithinLimits` | crates/op-rbuilder/src/builders/flashblocks/payload.rs:494-522 | for the plain builder without flashtestations it is enough that the base transaction does not grow between reservation and commitment |
| `Budgets.NumberJobStaysWithinLimits` | crates/op-rbuilder/src/builders/flashblocks/payload.rs:494-522 | for the number-contract builder without flashtestations it is enough that the contract call is bounded where the job opens a flashblock |
| `Budgets.PlainBuilderIsWithin` | crates/op-rbuilder/src/builders/flashblocks/builder_tx.rs:81-123 | in any turn the plain builder uses no more gas than reserved, and no more DA if the base transaction does not grow |
| `Budgets.NumberBuilderIsWithin` | crates/op-rbuilder/src/builders/flashblocks/builder_tx.rs:267-340 | in any turn the number-contract builder stays within the bound of its opening call and reserves nothing |
| `Peer.ExecuteTransactions` | crates/op-rbuilder/src/builders/flashblocks/payload_handler.rs:313-402 | executes the list under the per-transaction cap and the header's gas, failing on the first transaction that does not pass, and reads the footprint scalar of the state reached |
| `Peer.ExecuteFlashblock` | crates/op-rbuilder/src/builders/flashblocks/payload_handler.rs:144-310 | in the environment at the header's gas limit, accepts a block iff its header is valid and rebuilding it gives the same header |
| `Peer.PeerRunReplays` | crates/op-rbuilder/src/builders/flashblocks/payload_handler.rs:313-402 | what a peer executed is a straight replay of the list |
| `Peer.PeerRunSucceedsIff` | crates/op-rbuilder/src/builders/flashblocks/payload_handler.rs:351-372 | a peer executes a block in full iff it replays in the peer's own environment, recoverable, within the cap and the header's gas |
| `Peer.PeerAcceptsIff` | crates/op-rbuilder/src/builders/flashblocks/payload_handler.rs:144-310 | with equal gas limits, a peer accepts a block sealed from a consistent state iff it uses no more gas than its limit, no transaction exceeds the cap and the state root is the true one |
| `Peer.PeerAcceptsIffAlike` | crates/op-rbuilder/src/builders/flashblocks/payload_handler.rs:144-310 | whatever the gas limits, a peer accepts a block iff its header is valid and its own replay at the header's limit gives the same receipts, gas and root, within the cap |
| `Peer.PeerAcceptsOverrideIff` | crates/op-rbuilder/src/builders/flashblocks/payload_handler.rs:183-195 | with an operator's gas limit in the header that no code this block runs reads, a peer accepts iff, besides, every non-deposit fits into that limit |
| `Witnesses.OverrideIsRefused` | crates/op-rbuilder/src/builders/context.rs:120-128 | a concrete block under an operator's gas limit that the builder seals and every peer refuses |
| `Witnesses.GasLimitReaderIsRefused` | crates/op-rbuilder/src/builders/flashblocks/payload_handler.rs:183-195 | a concrete block refused because code read the gas limit, although every transaction fits |
| `Witnesses.DepositAboveCapIsRefused` | crates/op-rbuilder/src/builders/flashblocks/payload_handler.rs:356-362 | a concrete block with a large deposit that the builder seals, a peer with the cap refuses and one without takes |
| `Witnesses.OverfullBlockIsRefused` | crates/op-rbuilder/src/builders/flashblocks/payload_handler.rs:441-467 | a concrete block whose deposit uses more gas than the block has: the builder seals it, every peer refuses it |
| `Guarantees.JobHandsOutReplayableBlocks` | crates/op-rbuilder/src/builders/flashblocks/payload.rs:336-680 | every block a job hands out is sealed from a state that replays from the parent |
| `Guarantees.PeersAcceptHandedOutBlocks` | crates/op-rbuilder/src/builders/flashblocks/payload_handler.rs:144-310 | hence, with equal gas limits, a peer accepts it iff it uses no more gas than its limit, no transaction exceeds the cap and the root is the true one |
| `Guarantees.PeersAcceptUnderOverride` | crates/op-rbuilder/src/builders/flashblocks/payload_handler.rs:144-310 | and under an operator's gas limit iff, besides, every non-deposit fits into it |
| `Guarantees.PeersAcceptBudgetedJobs` | crates/op-rbuilder/src/builders/flashblocks/payload_handler.rs:441-467 | for the blocks of a job that keeps its budget the header's gas is no condition any more |
| `Guarantees.HandedOutBlocksAreExact` | crates/op-rbuilder/src/builders/flashblocks/payload.rs:1257-1533 | its bundle is that of a one-shot build, and it has one sender and one true receipt per transaction |
| `Guarantees.HandedOutHeadersAreExact` | crates/op-rbuilder/src/builders/context.rs:153-173 | its header: number, gas limit, blob gas by fork (after Jovian DA bytes times the scalar after the attributes), and the true state root unless that is disabled |
| `Guarantees.FittingPoolIsPublished` | crates/op-rbuilder/src/builders/flashblocks/payload.rs:754-786 | a pool that fits is published with the flashblock, right after its opening, in full and in order, without used nonces |
| `Guarantees.NoOversizedTransactions` | crates/op-rbuilder/src/builders/flashblocks/payload.rs:754-841 | no pool or sidecar transaction of a flashblock is larger than the operator allows |
| `Guarantees.HandedOutBundleIsReplayedState` | crates/op-rbuilder/src/builders/flashblocks/payload.rs:1257-1533 | its bundle over the parent state is the state a straight replay reaches, account by account and slot by slot |
| `StandardBuilder.ExecutePayload` | crates/op-rbuilder/src/builders/standard/payload.rs:330-455 | the one-shot build on the mutable objects equals the specified one |
| `StandardBuilder.StandardIsOneShot` | crates/op-rbuilder/src/builders/standard/payload.rs:425-434 | a standard block is a straight replay merged once |
| `StandardBuilder.FlashblocksEqualOneShot` | crates/op-rbuilder/src/builders/standard/payload.rs:330-455 | a flashblocks block and a standard block of the same transactions carry the same bundle, receipts, senders and gas |
| `StandardBuilder.StandardEndsExactly` | crates/op-rbuilder/src/builders/standard/payload.rs:330-434 | a build yields a block iff the attributes are tolerated and the pool is drained before a cancellation |
| `StandardBuilder.StandardIncludesFittingPool` | crates/op-rbuilder/src/builders/standard/payload.rs:395-423 | a pool that fits is in the block in full and in order, whatever flashblocks it was meant for |
| `StandardBuilder.StandardLimitsAreExact` | crates/op-rbuilder/src/builders/standard/payload.rs:360-393 | the pool gets the whole block less the reservations |
| `StandardBuilder.StandardPlacement` | crates/op-rbuilder/src/builders/standard/builder_tx.rs:39-68 | without flashtestations the block opens with nothing of the builder and closes with its base transaction, iff it lands |
| `StandardBuilder.StandardStaysWithinLimits` | crates/op-rbuilder/src/builders/standard/payload.rs:360-428 | the standard builder keeps gas, DA and footprint limits under the analogous fit conditions |
| `StandardBuilder.StandardBuilderKeepsReservation` | crates/op-rbuilder/src/builders/standard/builder_tx.rs:39-68 | the standard builder's own transaction uses no more gas than reserved, and no more DA if it does not grow while the pool is executed |
| `Bundles.SubmitAcceptsExactly` | crates/op-rbuilder/src/primitives/bundle.rs:168-236 | a bundle is accepted iff it holds one decodable transaction, its last block is one of the next ten and its ranges are not empty |
| `Bundles.RefusalsAreExplained` | crates/op-rbuilder/src/primitives/bundle.rs:168-225 | a refusal names the first check that fails, with its figures |
| `Bundles.SubmissionIsExact` | crates/op-rbuilder/src/primitives/bundle.rs:226-236 | an accepted bundle asks for exactly the blocks, times and flashblocks it declares, and may revert iff its hash is listed |
| `Bundles.ListedRevertLands` | crates/op-rbuilder/src/revert_protection.rs:117-160 | a bundle whose turn comes in its ranges lands, reverted or not, if its hash is listed |
| `Bundles.AcceptedBundlesAreIncludable` | crates/op-rbuilder/src/primitives/bundle.rs:168-236 | every accepted bundle has an includable block in the next ten iff the window fits in 64 bits |
| `Bundles.IncludedBundlesAreHonoured` | crates/op-rbuilder/src/revert_protection.rs:117-160 | an accepted bundle is only ever included at a block, time and flashblock inside its ranges, and reverted only if its hash is listed |
| `Timing.FlashblocksTileTheSlot` | crates/op-rbuilder/src/builders/flashblocks/payload.rs:1046-1061 | first offset plus full intervals make up exactly the time left |
| `Timing.ConfiguredPlans` | crates/op-rbuilder/src/builders/flashblocks/payload.rs:999-1030 | a fixed schedule and a late start plan as many flashblocks as whole intervals go into the block time; first offset and deadline |
| `Timing.DynamicPlans` | crates/op-rbuilder/src/builders/flashblocks/payload.rs:1177-1213 | a dynamic plan tiles the time left, with first signal and deadline moved by the send offset |
| `Timing.NoFlashblocksIff` | crates/op-rbuilder/src/builders/flashblocks/payload.rs:999-1061 | no flashblock is planned iff the configured number is used and the block time is shorter than one interval |
| `Timing.ShortBlockHasNoFlashblocks` | crates/op-rbuilder/src/builders/flashblocks/payload.rs:1000-1006 | a concrete fixed schedule without flashblocks |
| `Timing.RunTimer` | crates/op-rbuilder/src/builders/flashblocks/payload.rs:544-611 | the timer loop sends exactly the scheduled signals, each replacing the token before it |
| `Timing.ScheduleIsExact` | crates/op-rbuilder/src/builders/flashblocks/payload.rs:544-611 | the signals: one at once in the default mode, one at every tick before the deadline and one at it, each cancelling the token before and sending the next |
| `Timing.TokensAreCancelledOnTime` | crates/op-rbuilder/src/builders/flashblocks/payload.rs:568-605 | in default mode flashblock i's token is cancelled exactly when the i-th tile of the slot ends |
| `Timing.IntervalEndSendsOnePerFlashblock` | crates/op-rbuilder/src/builders/flashblocks/payload.rs:1065-1213 | building at interval ends, on a fixed schedule, a dynamic one or a late start: one signal per flashblock, iff the send offset moves the signals neither too far forward nor, on a fixed schedule, too far back, and the buffer covers what a late start leaves over |
| `Timing.SignalsMatchIff` | crates/op-rbuilder/src/builders/flashblocks/payload.rs:544-611 | whatever the plan: one signal per flashblock iff the deadline falls into the last interval |
| `Timing.LateSignalsAreMissing` | crates/op-rbuilder/src/builders/flashblocks/payload.rs:1067-1087 | a concrete fixed schedule whose positive send offset loses a signal |
| `Timing.EarlySignalsAreMissing` | crates/op-rbuilder/src/builders/flashblocks/payload.rs:1193-1208 | a concrete negative send offset that loses a signal |
| `Protocol.ReachableStatesAreSafe` | crates/op-rbuilder/src/builders/flashblocks/payload.rs:535-680 | every interleaving keeps tokens, channel, stream, cell and builder phase in step |
| `Protocol.CancellationIsSafe` | crates/op-rbuilder/src/builders/flashblocks/payload.rs:900-910 | nothing published is taken back, the cell never empties, and after the block token is cancelled at most one more flashblock appears |
| `Protocol.ResolvedPayloadsAreOurs` | crates/op-rbuilder/src/builders/generator.rs:286-297 | a resolved payload was built by this job and is no newer than the cell, and no more than count + 1 flashblocks are published |
| `Protocol.ResolvedPayloadsAreCurrent` | crates/op-rbuilder/src/builders/generator.rs:286-297 | from any reachable state on, a payload resolved later is no older than what the cell holds; after the block token is cancelled it is at most one newer |
| `Protocol.FinalCellIsResolved` | crates/op-rbuilder/src/builders/generator.rs:428-441 | once the builder has returned the cell is final and a later resolution gives exactly it |
| `Protocol.ResolveGivesTheCell` | crates/op-rbuilder/src/builders/generator.rs:428-441 | resolving happens once, on a cancelled block, to what the cell holds at that moment |
| `Protocol.StaleTokensDoNoPoolWork` | crates/op-rbuilder/src/builders/context.rs:497-503 | a flashblock started on a stale token runs no pool transaction, any other at most one after its token is cancelled; the check passes only on the newest token of an uncancelled block |
| `Protocol.CancelledTokenStopsPool` | crates/op-rbuilder/src/builders/context.rs:497-503 | counted in actions: once its token is cancelled a flashblock runs no further pool transaction, except one whose check came just before |
| `Protocol.TokensTravelInOrder` | crates/op-rbuilder/src/builders/flashblocks/payload.rs:535-611 | over every interleaving tokens reach the builder in the order they were made, and the channel never holds more than it can |
| `Protocol.NeverStuck` | crates/op-rbuilder/src/builders/flashblocks/payload.rs:535-680 | no interleaving deadlocks: until the builder has returned something can move the job on |
| `Protocol.SmoothTurnCompletes` | crates/op-rbuilder/src/builders/flashblocks/payload.rs:874-948 | undisturbed, a flashblock is published, its block put into the cell, and the builder waits for the next token |
| `Protocol.ReceivingStartsAFlashblock` | crates/op-rbuilder/src/builders/flashblocks/payload.rs:616-660 | a token starts the next flashblock while any are left, stale iff it is cancelled by then, and ends the job after the last |
| `Protocol.TickSendsANewToken` | crates/op-rbuilder/src/builders/flashblocks/payload.rs:568-605 | a tick cancels the newest token, makes a new one and sends it |
| `Protocol.CancelledBlockBuildsNothing` | crates/op-rbuilder/src/builders/flashblocks/payload.rs:781-800 | once the block token is cancelled, a flashblock still at its pool is never built or published |
| `Protocol.BuilderEndsForAReason` | crates/op-rbuilder/src/builders/flashblocks/payload.rs:616-680 | the builder returns only if something it did failed, the block was cancelled, all flashblocks are built, or the timer has left and nothing is outstanding |
| `Protocol.TimerEndsForAReason` | crates/op-rbuilder/src/builders/flashblocks/payload.rs:544-611 | the timer leaves only after its last token, on a cancelled block, or when nobody receives any more |
| `Protocol.DeadlineSendsTheLastToken` | crates/op-rbuilder/src/builders/flashblocks/payload.rs:590-611 | at the deadline the newest token is replaced once more, the new one sent, and the timer leaves |
| `Protocol.BuilderTerminates` | crates/op-rbuilder/src/builders/flashblocks/payload.rs:616-680 | over any interleaving the builder takes at most 8 * count + 27 steps outside its pool loop |
| `Concurrency.InterleavingsAreLoopRuns` | crates/op-rbuilder/src/builders/flashblocks/payload.rs:535-680 | every interleaving of builder, timer and Engine API, doing the real work -- the pool loop executing one transaction per passed token check, stopping early only on a cancelled token -- publishes as many flashblocks and leaves the same one in the cell as the sequential loop on the turns it took |
| `Concurrency.TokensGovernPoolWork` | crates/op-rbuilder/src/builders/context.rs:497-503 | over every interleaving a flashblock past its pool loop has executed as many pool transactions as its token let through, at most one of them after the cancellation; started on a stale token it holds nothing of the pool and nobody was charged |
| `Concurrency.InterleavingsAgree` | crates/op-rbuilder/src/builders/flashblocks/payload.rs:535-680 | hence over every interleaving the cell replays and the stream adds up to it, except for one flashblock iff a hand-over failed |
| `Concurrency.ResolvedPayloadIsTheLoops` | crates/op-rbuilder/src/builders/generator.rs:286-297 | whenever the Engine API resolves, it gets the payload the sequential loop leaves in its cell after the completed turns: the block its last flashblock completes |
| `Concurrency.FallbackStartsLoop` | crates/op-rbuilder/src/builders/flashblocks/payload.rs:379-459 | the first time the builder waits, whatever happened before, protocol and data are at a loop head |
| `Broadcast.StreamsHandler.BroadcastMessage` | crates/p2p/src/outgoing.rs:39-100 | for every completion order and failure pattern the table ends up as specified, and the missing-peer panic is never reached |
| `Broadcast.StreamsHandler.TakeStreams` | crates/p2p/src/outgoing.rs:51-76 | takes exactly the streams of the protocol |
| `Broadcast.BroadcastKeepsOthers` | crates/p2p/src/outgoing.rs:39-100 | peers and other protocols are unchanged; a peer keeps its stream for this protocol iff sending worked |

## Left out

- The EVM, revm's cache, trie and state roots, bloom filters, hashing, signing and ABI encoding are functions of the environment; account statuses are grouped into four (loaded, changed, destroyed, destroyed and changed).
- Pre-execution system calls are taken as part of the state a job starts from, the same for builder and peer; withdrawals, extra data and the header fields copied from the attributes are not modelled, and neither is the failure of encoding extra data.
- The pool is a finite sequence per flashblock with a set of invalidated senders; the interop deadline is one boolean per transaction.
- The running counters (cumulative gas, DA bytes, fees) are unbounded; wrap-around is modelled where a decision depends on it: the limit check, the refill, the blob gas product and the bundle window.
- Flashtestation transactions are an arbitrary function of the simulation state; their registration and block-proof calls, permits and the TDX quotes behind them are not modelled.
- Placement.PlainJob: as long as nobody outside the builder uses the builder's key in the block; the number-contract theorem has the same condition.
- Budgets.PlainJobStaysWithinLimits: without flashtestations, whose sizes are not modelled; with them, whether a turn keeps to its reservation is the assumption of the general theorem. The number-contract theorem has the same restriction.
- BuildRuns.PoolGasIsRateLimited: jobs sharing the limiter run one after the other; jobs that overlap in time are not modelled.
- Protocol.CancellationIsSafe: actions are atomic; which branch of the timer's select wins a tie is left open, and liveness under back-pressure is not claimed.
- Concurrency.InterleavingsAreLoopRuns: the pool view and the sidecar's answer of a turn are fixed when the turn starts.
- Timing uses whole milliseconds and an ideal timer; clock reads are a parameter. When a tick falls on the deadline the deadline wins.
- Limits and configuration are constant during a job; changes by an operator in mid-block are not modelled.
- The handler queue between builder and peers is only the success or failure of one hand-over; of a peer's header checks before execution only the block number and gas used against gas limit are modelled, not those on timestamps, base fee, extra data and the change of the gas limit.
- The job generator's cached reads, its reaction to new canonical state and the replacement of an older job appear only as a cancelled block token.
- Inserting and removing peers, the libp2p swarm, the WebSocket subscriber limit, RPC and Engine API wrappers, command-line arguments, metrics and telemetry are not modelled.
