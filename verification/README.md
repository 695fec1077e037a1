# OP Succinct: a verified model

This project models the parts of OP Succinct whose correctness depends on facts that no single
function establishes, and proves those facts. It is self-contained Dafny 4.11; `dafny verify
dfyconfig.toml` checks all of it.

## What is modelled

**The validity proposer** (`Requests`, `BlockSpans`, `RequestTable`, `ProposerModel`,
`ProposerInvariant`, `ProposerSteps`, `ProposerRuns`, `RangePlanning`, `Proposer`). The proposer
keeps a table of proof requests over block ranges and restarts at any moment. `ProposerModel` gives
it as a state machine: table, background tasks, the contract's latest block and the history of
relayed aggregations, with one event per group of database statements, per step of a background task
and per answer of the outside world. `Proposer` holds the loop as a class whose methods change those
fields; each method is proved to do exactly what a sequence of events does. `ProposerRuns` then
proves what holds over every sequence of events, with errors between any two statements and restarts
anywhere. What the machine does is also said over the rows of the table, without its functions:
which request is started (`StartOrder`), when an aggregation is requested (`AggregationRule`), when
a failure splits a range (`SplitRule`) and what the other events do (`EventEffects`). Further
results over runs: which rows descend from a split and how many splits there can be (`AppendedRows`,
`SplitTree`, `SplitLineage`), when failed blocks are planned again (`Replanning`), when the
documented witness cap holds (`WitnessCap`), what a failed aggregation does to its successors
(`StuckCheckpoint`), and runs that reach states which comments rule out (`ProposerExamples`).

**The aggregation program and the host that feeds it** (`AggregationGuest`, `HeaderFetcher`,
`EndToEnd`). What the program accepts, what that means, which headers the host fetches, and the
bridge from a validated block range in the table to the committed outputs.

**Witness recording and replay** (`WitnessReplay`). The host records what a client program is told,
and the zkVM replays it. The client is an arbitrary function from the answers so far to the next
query. `HonestRecording` says when recording succeeds, and `ReplaySoundness` what any witness,
honest or not, can make a replay answer.

**Around them**: the derivation driver loop (`Derivation`, `DerivedChain`), the binary searches
(`BinarySearch`), the safe-head split (`SafeHeadSplit`), the fault-proof proposer and its game scans
(`GameWindows`, `GameChain`, `GameEvents`, `FinalizedProposals`, `FaultProposer`) and the Blobstream
scan (`BlobstreamScan`).

## Assumptions

- One commitment configuration and one pair of chain ids; only this proposer's own relays move the
  contract's latest block.
- Spawning a task and marking its row WitnessGeneration are one step; concurrency is any
  interleaving of events. A database statement that reports an error is taken as not applied.
- L1 and L2 nodes, the proof network, hashes, KZG, the derivation pipeline and the block executor
  are functions passed as parameters; a result that needs more of them (a collision-free hash,
  growing safe heads, KZG accepting honest proofs, range claims that compose) says so in its
  `requires`, or as the left side of an implication.
- In the fault-proof model the games of others carry wrong claims and the anchor stays. A creation
  transaction may be mined at any time after it was sent, also when its task has timed out or its
  process is gone; the factory refuses a game with the claim, block and parent of one that it has.
- The batch verification of blobs either returns or is an error; what it proves is not part of this
  model.
- In the replay model the oracle is a function of the key and fails on a wrong length, and one blob
  store is used throughout a run. The blob provider may answer differently each time it is asked.
- The node's answer about the safe head at an L1 block names the block of the entry it found, which
  may lie below the block asked for.

## Where the code and what it is expected to do differ

The model follows the code. Where a lemma is named, it gives the exact condition or a run that shows
it.

- `get_ranges_to_prove` is said to drop the short chunk near the tip; the dropped chunk may lie
  between two requests (`RangePlanning.HoleIsAtTipIff`, `ProposerExamples.InteriorHole`), where it
  waits for a finalized block above the tip (`Replanning.HoleIsFilledIff`).
- The comment above `create_aggregation_proofs` rules out two contiguous chains; the code does not
  look where the first completed range starts, so an aggregation may be requested before it is
  valid, and only the validation before its start holds it back
  (`RangePlanning.AggValidAtCreationIff`, `ProposerExamples.EarlyAggregation`).
- `request_queued_proofs` is said to count Execution towards the witness cap; it does not
  (`WitnessCap.DocumentedCapHoldsIff`, `WitnessCap.StartDiffersIff`).
- A failed aggregation lends its checkpoint to every retry, so a retry can be doomed
  (`StuckCheckpoint.RetriesAcceptedIff`, `StuckCheckpoint.DoomedRetry`).
- One range request leads to boundedly many splits, but its blocks can be planned and split again
  without bound (`SplitLineage.SplitsOfOneRow`, `Replanning.ComesBackIff`,
  `Replanning.SplitsRecur`).
- In fast finality mode a game can be proven by two tasks at a time
  (`GameChain.StepKeepsProofsApartIff`, `GameChain.FastFinalityDoublesProof`).
- `initialize_proposer` is said to fill gaps as well; it only cleans up, and the next pass fills
  them.
- The book splits a range after two failures; the code asks for more than two.
- The window of bond claiming is documented up to the latest game; it ends before it
  (`GameWindows.ClaimWindowMissesLatestIff`). So does the window of resolution.
- The example of `split_range_based_on_safe_heads` is wrong in its last two ranges
  (`SafeHeadSplit.DocumentedExample`).
- `find_block_by_timestamp` and the two other searches compute `mid - 1` on unsigned numbers; the
  contracts of `BinarySearch` say exactly when that happens at block 0.
- `advance_to_target` takes an optional target, but without one it cannot succeed
  (`Derivation.NoTargetNeverReached`); its only caller passes one. It asks for interop mode with a
  block number where a timestamp is expected; the model passes the block number too.

## Model

| member | source | states |
|---|---|---|
| `ProposerRuns.RunKeepsInv` | op-succinct/validity/src/proposer.rs:1299-1335 | over any sequence of events, faults and restarts: ids are unique, active ranges are non-empty, disjoint and do not straddle the latest block, started aggregations are tiled by Complete ranges, at most one active aggregation per start block, every task belongs to a row in the matching status, relays form a chain |
| `ProposerRuns.ReachableRangesAreDisjoint` | op-succinct/validity/src/proposer.rs:213-214 | in every state reachable from an empty table two active range requests share no block, none straddles the latest block, and no aggregation starts above it |
| `ProposerRuns.RelaysFormOneChain` | op-succinct/validity/src/proposer.rs:794-842 | over any run each relayed aggregation starts exactly where the one before it ended (the first at the initial block), is at least both submission intervals long, and the last one ends at the latest block |
| `ProposerRuns.ChainPartitions` | op-succinct/validity/src/proposer.rs:794-842 | a block from the initial to the latest one lies in exactly one relayed aggregation, any other block in none |
| `ProposerRuns.RelaysStayTiled` | op-succinct/validity/src/proposer.rs:623-842 | what was relayed stays relayed, and the Complete range requests that tile it are returned unchanged by the query in every later state |
| `ProposerRuns.TileNeverChanges` | op-succinct/validity/src/db/client.rs:273-296 | once Complete ranges tile [start, end), the query for that range returns the very same rows in every later state, so what was validated is what the witness is built from |
| `ProposerRuns.HistoryGrows` | op-succinct/validity/src/proposer.rs:794-842 | the latest block never goes back and the relay history only grows |
| `ProposerRuns.AggQueriesAgree` | op-succinct/validity/src/db/client.rs:369-392 | the unrequested aggregation found with `>=` starts exactly at the latest block, and no completed aggregation waits beside it, although that query uses `=` |
| `ProposerRuns.RequestLifecycle` | op-succinct/validity/src/proof_requester.rs:498-567 | over any run Failed, Cancelled and Relayed are never left, Complete is left only by an aggregation for Relayed, a finished proof is not overwritten, no id is reused, and rows in a durable status are never deleted |
| `ProposerRuns.ReachablePayloads` | op-succinct/validity/src/proposer.rs:310-388 | in every reachable state a Complete row has a proof, a Prove row a proof id and an aggregation a checkpoint |
| `ProposerRuns.RunKeepsCaps` | op-succinct/validity/src/proposer.rs:552-616 | from a state within the two concurrency caps no run exceeds them |
| `WitnessCap.DocumentedCapHoldsIff` | op-succinct/validity/src/proposer.rs:545-616 | the cap as documented, which counts Execution too, holds on all runs from an empty table if and only if mock mode is off, the proof cap is at most the witness cap, or the witness cap is 0 |
| `WitnessCap.StartDiffersIff` | op-succinct/validity/src/proposer.rs:552-616 | one step differs from its documentation exactly when there is room by the code's count, a request to start, and no room by the documented count |
| `WitnessCap.WitnessCapIgnoresExecution` | op-succinct/validity/src/proposer.rs:545-616 | under every other config, a run from an empty table that goes beyond the documented cap |
| `WitnessCap.NoExecutionWithoutMock` | op-succinct/validity/src/proof_requester.rs:498-567 | outside mock mode no request is ever in Execution |
| `WitnessCap.NothingStartsAtZeroCap` | op-succinct/validity/src/proposer.rs:552-616 | with a witness cap of 0 no request ever leaves Unrequested |
| `ProposerSteps.StepKeepsInv` | op-succinct/validity/src/proposer.rs:1299-1335 | every single event keeps the invariant |
| `ProposerSteps.HandleFailedKeepsInv` | op-succinct/validity/src/proof_requester.rs:402-467 | failing and splitting a request keeps the invariant, wherever an error stops it |
| `ProposerSteps.HalvesShape` | op-succinct/validity/src/proof_requester.rs:421-463 | both halves of a split are non-empty and meet at the middle |
| `ProposerSteps.AllChunksShape` | op-succinct/validity/src/utils.rs:18-82 | the chunks before dropping are ordered, non-empty, at most one interval long and hold exactly the blocks of the planned area that no active range holds |
| `ProposerSteps.ChunksInsertable` | op-succinct/validity/src/proposer.rs:213-275 | every new chunk is disjoint from all active ranges and lies above the latest block |
| `ProposerSteps.CreateAggKeepsInv` | op-succinct/validity/src/proposer.rs:397-542 | inserting an aggregation request keeps the invariant |
| `ProposerSteps.NextIsReady` | op-succinct/validity/src/proposer.rs:623-692 | the next request to start is an Unrequested row of the table; if it is an aggregation, its range is tiled |
| `ProposerSteps.StartKeepsInv` | op-succinct/validity/src/proposer.rs:552-616 | starting a queued request keeps the invariant |
| `ProposerSteps.TileEndNotStraddled` | op-succinct/validity/src/proposer.rs:213-214 | no active range straddles the end of a tiled block range, so the latest block may move there |
| `ProposerSteps.DeliverableIsReady` | op-succinct/validity/src/db/client.rs:570-592 | the completed aggregation to relay starts at the latest block, has a proof and is tiled |
| `ProposerSteps.SubmitKeepsInv` | op-succinct/validity/src/proposer.rs:794-842 | relaying keeps the invariant, whether or not the row gets marked |
| `ProposerSteps.ReapKeepsInv` | op-succinct/validity/src/proposer.rs:1036-1109 | reaping a finished task keeps the invariant |
| `ProposerInvariant.RestartKeepsInv` | op-succinct/validity/src/proposer.rs:1124-1159 | the clean-up after a restart keeps the invariant, with all tasks lost |
| `ProposerInvariant.RestartKeepsTile` | op-succinct/validity/src/db/client.rs:635-652 | the clean-up deletes no row of a tile |
| `ProposerInvariant.ConsecutiveHolds` | op-succinct/validity/src/proposer.rs:698-790 | rows that run consecutively from start to end hold every block between |
| `ProposerInvariant.OutsideTile` | op-succinct/validity/src/proposer.rs:213-214 | an active range that is not part of a tile lies wholly outside it |
| `RangePlanning.AddNewRangesPartitions` | op-succinct/validity/src/proposer.rs:186-278 | after `add_new_ranges` each block from the latest one to the tip is in exactly one active range request, or else in the one dropped chunk, which is shorter than the proof interval |
| `RangePlanning.TipIsFinalized` | op-succinct/validity/src/proposer.rs:186-278 | the tip is the finalized block when no active range ends beyond it |
| `RangePlanning.GapsAfterAdding` | op-succinct/validity/src/proposer.rs:213-275 | the only gap found afterwards is the dropped chunk |
| `RangePlanning.AddNewRangesIdempotent` | op-succinct/validity/src/proposer.rs:236-275 | a second run on the same blocks inserts nothing |
| `RangePlanning.HoleIsAtTipIff` | op-succinct/validity/src/utils.rs:57-82 | the dropped chunk ends at the tip if and only if no active range does; otherwise it lies between requests |
| `ProposerExamples.InteriorHole` | op-succinct/validity/src/utils.rs:57-82 | a run from an empty table after which the dropped chunk is not the one near the tip; the next higher finalized block brings it back |
| `Replanning.HoleIsFilledIff` | op-succinct/validity/src/proposer.rs:213-275 | a dropped chunk that does not end at the tip is among the new chunks if and only if the finalized block lies above the tip; for every lower one the new chunks are the same |
| `Replanning.HoleWaits` | op-succinct/validity/src/proposer.rs:213-275 | so once `add_new_ranges` has left such a hole, and nothing else changes, further runs insert nothing until the finalized block has passed the tip, and then the hole is requested |
| `Replanning.RangesStayShort` | op-succinct/validity/src/proposer.rs:213-275 | over any run no range request is longer than the proof interval |
| `Replanning.ComesBackIff` | op-succinct/validity/src/utils.rs:57-82 | some blocks, such as those of a failed range, are requested as one chunk if and only if they are a cell of the grid of a gap between active requests and not the dropped chunk |
| `Replanning.SplitsRecur` | op-succinct/validity/src/proof_requester.rs:421-463 | nothing bounds how often the same blocks are planned whole and split: for every n a run from an empty table with n splits of one range |
| `StartOrder.NextRequestIff` | op-succinct/validity/src/proposer.rs:623-692 | the next request is a waiting aggregation whose blocks are all proven, or, if there is none, the waiting range with the lowest start, whatever other aggregation waits; nothing only if there is neither |
| `StartOrder.StartsThatRequest` | op-succinct/validity/src/proposer.rs:552-616 | with room by both counts exactly that request goes into witness generation, with a task |
| `StartOrder.StartsNothingIff` | op-succinct/validity/src/proposer.rs:552-616 | nothing is started exactly when there is no room or nothing to start |
| `StartOrder.EarlyAggregationsDoNotBlock` | op-succinct/validity/src/proposer.rs:663-689 | in every reachable state with room the lowest waiting range is started, whatever aggregation was requested too early |
| `ProposerExamples.RangeStartsBesideAgg` | op-succinct/validity/src/proposer.rs:663-689 | a run from an empty table in which the missing range is started beside the aggregation that waits for it |
| `AggregationRule.RequestsAggregationIff` | op-succinct/validity/src/proposer.rs:397-542 | in every reachable state one aggregation request is appended if and only if none is active at the latest block and the finished ranges reach as far as both submission intervals ask; it runs from the latest block to the first block not finished and carries the checkpoint of any failed one of the same blocks, else the current L1 block |
| `AggregationRule.ContiguousIff` | op-succinct/validity/src/proposer.rs:1339-1357 | the contiguous end is the first block above the lowest finished range that no finished range holds, said over the rows |
| `SplitRule.FailureSplitsIff` | op-succinct/validity/src/proof_requester.rs:402-467 | a failing request is Failed afterwards and no other row changes; its two halves are appended if and only if it is a range of at least two blocks, no error stops the split, and it is unexecutable or at least three requests of these blocks have been given up |
| `SplitRule.FailedProofSplitsIff` | op-succinct/validity/src/proposer.rs:310-388 | a failed proof does exactly that to its row |
| `SplitRule.FailedTaskSplitsIff` | op-succinct/validity/src/proposer.rs:1036-1109 | a failed background task does exactly that to its row |
| `SplitRule.SplitsByCountAlone` | op-succinct/validity/src/proof_requester.rs:421-463 | a run from an empty table that splits a range at its third failure, none of them marked unexecutable |
| `EventEffects.TaskExecutesIff` | op-succinct/validity/src/proof_requester.rs:498-567 | a task goes into execution exactly in mock mode with its witness made; its row alone changes |
| `EventEffects.TaskRequestsProofIff` | op-succinct/validity/src/proof_requester.rs:498-567 | with the network its row gets the id of the proof request and goes to Prove, and the task ends |
| `EventEffects.TaskCompletesIff` | op-succinct/validity/src/proof_requester.rs:498-567 | in mock mode and with local proving its row keeps the proof and is Complete, and the task ends |
| `EventEffects.ReapsIff` | op-succinct/validity/src/proposer.rs:1036-1109 | a finished task leaves the map, whatever becomes of its request |
| `EventEffects.FailOrphanIff` | op-succinct/validity/src/proposer.rs:991-1033 | a row in witness generation or execution without a task is Failed, and no other |
| `EventEffects.ProofFulfilledIff` | op-succinct/validity/src/proposer.rs:310-388 | a fulfilled proof completes its row in Prove, which keeps the proof |
| `EventEffects.SubmitAggIff` | op-succinct/validity/src/proposer.rs:794-842 | the contract moves to the end of the finished aggregation at the latest block and records it, and its row is Relayed unless the process dies first; without one nothing happens |
| `EventEffects.RestartIff` | op-succinct/validity/src/proposer.rs:1124-1159 | a restart loses all tasks and deletes exactly the rows that wait, are in witness generation or in execution |
| `RangePlanning.FailureCoverage` | op-succinct/validity/src/proof_requester.rs:402-467 | the blocks of a failed range stay requested exactly when the range was split |
| `RangePlanning.FailureLeavesOthers` | op-succinct/validity/src/proof_requester.rs:402-467 | other blocks are requested exactly as before |
| `RangePlanning.ValidationMeansProven` | op-succinct/validity/src/proposer.rs:698-790 | validation accepts a block range if and only if Complete range requests within it hold each of its blocks |
| `RangePlanning.HighestContiguousMeaning` | op-succinct/validity/src/proposer.rs:1339-1357 | the highest contiguous block is the first one above the lowest completed range that no completed range holds |
| `RangePlanning.AggValidAtCreationIff` | op-succinct/validity/src/proposer.rs:390-392 | a new aggregation request is valid at once if and only if the lowest completed range starts at the latest block, which the code does not check |
| `ProposerExamples.EarlyAggregation` | op-succinct/validity/src/proposer.rs:397-542 | a run from an empty table after which an aggregation is requested that is not valid |
| `StuckCheckpoint.AnyFailedRowLends` | op-succinct/validity/src/db/client.rs:300-325 | in every reachable state each failed aggregation of some blocks has the checkpoint that the next request for them gets, so it does not matter which row the unordered LIMIT 1 returns |
| `StuckCheckpoint.CheckpointIsStuck` | op-succinct/validity/src/proposer.rs:397-542 | once an aggregation of some blocks has failed, every later request for them in the run uses its checkpoint, whatever the current L1 block is |
| `StuckCheckpoint.RetriesAcceptedIff` | op-succinct/validity/src/proposer.rs:470-520 | the witness of a retry can always be made, and as long as the contract has not moved the guest accepts it if and only if no range of the tile was proven against an L1 block above the checkpoint of the aggregation that failed |
| `StuckCheckpoint.DoomedRetry` | op-succinct/validity/src/proposer.rs:470-520 | a run from an empty table after which every range is proven, the aggregation is due again, and the guest rejects it now and in every later state at the same latest block |
| `Proposer.ValidateAggregationRequest` | op-succinct/validity/src/proposer.rs:698-790 | the loop decides whether the rows start at start, end at end and run without gap or overlap |
| `Proposer.GetHighestProvenContiguousBlock` | op-succinct/validity/src/proposer.rs:1339-1357 | the loop computes the end of the first contiguous run, None for an empty list |
| `Proposer.Proposer.constructor` | op-succinct/validity/src/proposer.rs:62-182 | a proposer on an empty table satisfies the invariant |
| `Proposer.Proposer.HandleFailedRequest` | op-succinct/validity/src/proof_requester.rs:402-467 | marks the row Failed and inserts both halves under the split condition; an error at the update, at the chain ids or in the split stops it there and is reported |
| `Proposer.Proposer.MakeProofRequest` | op-succinct/validity/src/proof_requester.rs:498-567 | walks one task through witness generation, execution and proving, as exactly the events named |
| `Proposer.Proposer.HandleOngoingTasks` | op-succinct/validity/src/proposer.rs:1036-1109 | removes exactly the finished tasks, reaping each once |
| `Proposer.Proposer.SetOrphanedTasksToFailed` | op-succinct/validity/src/proposer.rs:991-1033 | it fails exactly when a query or the update of an orphan does; otherwise every WitnessGeneration or Execution row has a task afterwards |
| `Proposer.Proposer.ProcessProofRequestStatus` | op-succinct/validity/src/proposer.rs:310-388 | a fulfilled proof completes its row, a failed one goes to failure handling, other rows are untouched |
| `Proposer.Proposer.HandleProvingRequests` | op-succinct/validity/src/proposer.rs:282-306 | polls the Prove rows in order, each once, up to and including the first that does not succeed; fulfilled and failed answers become events |
| `Proposer.PolledOnce` | op-succinct/validity/src/proposer.rs:282-306 | polling distinct requests polls each of them once |
| `Proposer.Proposer.PlanRanges` | op-succinct/validity/src/proposer.rs:213-250 | computes the chunks to insert from the active ranges of the table |
| `Proposer.Proposer.AddNewRanges` | op-succinct/validity/src/proposer.rs:186-278 | the table gains exactly the planned chunks as Unrequested ranges |
| `Proposer.Proposer.CreateAggregationProofs` | op-succinct/validity/src/proposer.rs:397-542 | inserts one aggregation request under the code's conditions, with the checkpoint of a failed one or a fresh one; if a fresh checkpoint is needed and its transaction reverts, nothing changes and the pass ends |
| `Proposer.Proposer.GetNextUnrequestedProof` | op-succinct/validity/src/proposer.rs:623-692 | a validated aggregation comes before the lowest range |
| `Proposer.Proposer.RequestQueuedProofs` | op-succinct/validity/src/proposer.rs:552-616 | starts at most one request, only below both caps |
| `Proposer.Proposer.SubmitAggProofs` | op-succinct/validity/src/proposer.rs:794-842 | relays the completed aggregation at the latest block |
| `Proposer.Proposer.PlanStartRelay` | op-succinct/validity/src/proposer.rs:1321-1333 | the steps after polling are exactly the new ranges, the aggregation request, the next start and the relay, unless a reverted checkpoint transaction ends the pass |
| `Proposer.Proposer.InitializeProposer` | op-succinct/validity/src/proposer.rs:1124-1159 | drops all tasks and deletes exactly the unrecoverable rows |
| `Proposer.Proposer.RunLoopIteration` | op-succinct/validity/src/proposer.rs:1299-1335 | the events of a pass are those of its steps in order: the reaps, the orphans, the polls and then the planning steps, the next start and the relay, each step ending the pass as it fails; the pass keeps the invariant; once the metrics were logged and the orphans marked, every row in witness generation or execution has a live task afterwards, wherever the pass ended; a pass that ends before that at an invalid config or at the metrics changes nothing |
| `BlockSpans.FindGaps` | op-succinct/validity/src/utils.rs:18-34 | the loop computes the gaps that the sub-ranges leave |
| `BlockSpans.GetRangesToProve` | op-succinct/validity/src/utils.rs:57-82 | the loops, whenever they end, cut the gaps into chunks and drop a short last one |
| `BlockSpans.ChopOne` | op-succinct/validity/src/utils.rs:57-82 | the inner loop, whenever it ends, appends the chunks of one gap |
| `BlockSpans.GapsPoints` | op-succinct/validity/src/utils.rs:18-34 | a block is in a gap if and only if it lies in the planned area and in no sub-range |
| `BlockSpans.GapsSeparated` | op-succinct/validity/src/utils.rs:18-34 | gaps are non-empty and do not touch |
| `BlockSpans.SeparatedUnique` | op-succinct/validity/src/utils.rs:18-34 | gaps are determined by the blocks they hold |
| `BlockSpans.ChopPoints` | op-succinct/validity/src/utils.rs:57-82 | cutting loses and adds no block |
| `BlockSpans.ChopShape` | op-succinct/validity/src/utils.rs:57-82 | chunks are in order, none is longer than the interval and all but the last have its length |
| `BlockSpans.ChopAllShape` | op-succinct/validity/src/utils.rs:57-82 | chunks of separated gaps are ordered and none crosses a gap boundary |
| `BlockSpans.DropShortLastPoints` | op-succinct/validity/src/utils.rs:57-82 | only the blocks of a short last chunk are dropped |
| `RequestTable.DriverDBClient.InsertRequest` | op-succinct/validity/src/db/client.rs:79-149 | appends the row under the next id |
| `RequestTable.DriverDBClient.InsertRequests` | op-succinct/validity/src/db/client.rs:677-739 | inserting in batches of 100 appends all rows in order |
| `RequestTable.DriverDBClient.UpdateRequest` | op-succinct/validity/src/db/client.rs:474-567 | changes the row with the id and no other |
| `RequestTable.DriverDBClient.DeleteAllRequestsWithStatuses` | op-succinct/validity/src/db/client.rs:635-652 | keeps exactly the rows in other statuses, in order |
| `RequestTable.SelectMember` | op-succinct/validity/src/db/client.rs:204-227 | a query returns exactly the matching rows |
| `RequestTable.OrderMultiset` | op-succinct/validity/src/db/client.rs:204-227 | ORDER BY only permutes |
| `RequestTable.SelectOrderedShape` | op-succinct/validity/src/db/client.rs:204-227 | disjoint requests come back in block order |
| `RequestTable.FirstIsLeast` | op-succinct/validity/src/db/client.rs:396-417 | LIMIT 1 after ORDER BY returns a matching row with the lowest start block |
| `RequestTable.CountReplace` | op-succinct/validity/src/db/client.rs:230-248 | changing one row moves each count by that row alone |
| `SplitLineage.SplitsOfOneRow` | op-succinct/validity/src/proof_requester.rs:421-463 | over any run from an empty table the splits of a row, of its halves and so on form a tree of splits; a row of n blocks leads to at most n - 1 of them, at depth at most ceil(log2 n) |
| `SplitLineage.TreeBounds` | op-succinct/validity/src/proof_requester.rs:421-463 | the same for any log whose entries halve the ranges their rows were inserted with, and split no row twice |
| `SplitLineage.RowSplitsOnce` | op-succinct/validity/src/proof_requester.rs:402-467 | over any run no row is split twice, and none is inserted by two splits |
| `SplitLineage.RunKeepsTracked` | op-succinct/validity/src/proof_requester.rs:402-467 | over any run each split halves a range of at least two blocks which its row was inserted with, and the row is Failed from then on |
| `SplitLineage.TreeCountsSplits` | op-succinct/validity/src/proof_requester.rs:421-463 | the tree of a row has as many splits as the log has below that row |
| `SplitLineage.DescendantInTree` | op-succinct/validity/src/proof_requester.rs:421-463 | a descendant lies within its ancestor, and one that was never split is a leaf |
| `SplitLineage.RowsOfOneTree` | op-succinct/validity/src/proof_requester.rs:402-467 | the rows that descend from one row lie within it, and those that have not failed are leaves of its tree |
| `AppendedRows.SplitAdds` | op-succinct/validity/src/proof_requester.rs:402-467 | a split is made by a range request in progress, which is Failed from then on, and appends exactly its two halves |
| `SplitTree.SplittingEnds` | op-succinct/validity/src/proof_requester.rs:421-463 | a tree of splits of n blocks has at most n pieces, one more than splits, at depth at most ceil(log2 n) |
| `SplitTree.PiecesTile` | op-succinct/validity/src/proof_requester.rs:421-463 | the leaves of such a tree are ordered, non-empty and hold exactly the blocks of the range |
| `SplitTree.FullTreeReachesBounds` | op-succinct/validity/src/proof_requester.rs:421-463 | some tree reaches both bounds, with one-block leaves |
| `AggregationGuest.WalkHeaders` | op-succinct/programs/aggregation/src/main.rs:50-72 | the reverse walk with its mark-map succeeds if and only if the headers are parent-linked up to the checkpoint head and every L1 head is the hash of one of them |
| `AggregationGuest.Aggregate` | op-succinct/programs/aggregation/src/main.rs:17-99 | the program commits if and only if there is a boot info, roots and rollup configs of neighbours agree, all range proofs verify and the header walk succeeds; it commits the consolidated claim |
| `AggregationGuest.HeadersAreUnique` | op-succinct/programs/aggregation/src/main.rs:50-66 | with a collision-free hash the checkpoint head fixes the headers |
| `AggregationGuest.HeadsLieOnOneChain` | op-succinct/programs/aggregation/src/main.rs:50-72 | after acceptance all L1 heads are ancestors of the checkpoint head on one line |
| `AggregationGuest.AggregationIsSound` | op-succinct/programs/aggregation/src/main.rs:74-95 | if only true range claims are verified, the committed claim is true: under the committed rollup config, the data up to the checkpointed L1 block leads from the first root to the last, that of the committed L2 block |
| `HeaderFetcher.GetEarliestL1HeadInBatch` | op-succinct/utils/host/src/fetcher.rs:389-404 | returns a header no later than any other; an error exactly for an unknown head, a panic exactly when no head is below u64::MAX |
| `HeaderFetcher.FetchHeadersInRange` | op-succinct/utils/host/src/fetcher.rs:429-445 | returns the headers of the range in order, both ends included, or an error exactly when one is missing |
| `HeaderFetcher.GetHeaderPreimages` | op-succinct/utils/host/src/fetcher.rs:449-465 | returns the headers from the lowest L1 head to the checkpoint, exactly when the node knows all it is asked |
| `HeaderFetcher.HeadersAreChainSlice` | op-succinct/utils/host/src/fetcher.rs:449-465 | on a canonical chain the result is the slice from the lowest L1 head to the checkpoint, empty if it lies above |
| `HeaderFetcher.FetchCannotFail` | op-succinct/utils/host/src/fetcher.rs:449-465 | with canonical heads and checkpoint the fetch succeeds |
| `HeaderFetcher.FetchedHeadersPassIff` | op-succinct/utils/host/src/fetcher.rs:449-465 | the guest's header checks pass on the fetched headers if and only if no range proof uses an L1 block above the checkpoint |
| `EndToEnd.AggProofWitnessgen` | op-succinct/validity/src/proof_requester.rs:97-151 | the witness holds the boot infos of the tile in order and the headers for them; it fails exactly for an unreadable proof or a failed fetch, and the contract tells panics from errors |
| `EndToEnd.BootInfosIff` | op-succinct/validity/src/proof_requester.rs:97-151 | there is one boot info per row of the tile, what its stored proof commits to; one unreadable proof is a panic |
| `EndToEnd.TiledAggregationIsAccepted` | op-succinct/validity/src/proof_requester.rs:97-151 | a tiled range whose proofs state the truth can be aggregated at any later point of the run: witness generation succeeds, the guest accepts if and only if no L1 head lies above the checkpoint, and it commits the true roots at the two ends, the end block and the rollup config |
| `EndToEnd.TruthfulTileIsAccepted` | op-succinct/validity/src/proof_requester.rs:97-151 | the same for any rows that run consecutively and whose proofs state the truth |
| `EndToEnd.StartedAggregationsAreTiled` | op-succinct/validity/src/proposer.rs:623-692 | every aggregation started in a reachable state is such a tiled range |
| `WitnessReplay.PreimageStore.SavePreimage` | op-succinct/utils/client/src/witness/preimage_store.rs:26-31 | succeeds exactly for a value that hashes to its key, or whose key is not a hash, and that does not contradict a stored one, and stores it; unsupported keys fail |
| `WitnessReplay.PreimageStore.CheckPreimages` | op-succinct/utils/client/src/witness/preimage_store.rs:19-24 | succeeds if and only if every Keccak256 and Sha256 entry hashes to its key and no entry has an unsupported key |
| `WitnessReplay.PreimageStore.Get` | op-succinct/utils/client/src/witness/preimage_store.rs:59-64 | an unknown key is an error |
| `WitnessReplay.PreimageStore.GetExact` | op-succinct/utils/client/src/witness/preimage_store.rs:66-69 | a wrong buffer length is a panic |
| `WitnessReplay.PreimageWitnessCollector.Save` | op-succinct/utils/host/src/witness_generation/preimage_witness_collector.rs:57-59 | a save that would fail is a panic |
| `WitnessReplay.PreimageWitnessCollector.Get` | op-succinct/utils/host/src/witness_generation/preimage_witness_collector.rs:21-25 | answers with the oracle's value and records it |
| `WitnessReplay.PreimageWitnessCollector.GetExact` | op-succinct/utils/host/src/witness_generation/preimage_witness_collector.rs:27-31 | as above, for a given length |
| `WitnessReplay.OnlineBlobStore.GetBlobs` | op-succinct/utils/host/src/witness_generation/online_blob_store.rs:23-40 | answers with the provider's blobs and appends each with commitment and proof |
| `WitnessReplay.BlobStore.GetBlobs` | op-succinct/utils/client/src/oracle/blob_provider.rs:44-56 | pops one blob per hash from the back and drops those that do not match |
| `WitnessReplay.PopRecorded` | op-succinct/utils/client/src/oracle/blob_provider.rs:17-56 | popping the reversed list yields the recorded blobs in recording order, none filtered out |
| `WitnessReplay.RecordedIsOracle` | op-succinct/utils/host/src/witness_generation/preimage_witness_collector.rs:21-59 | what is recorded is valid, is the oracle's, and carries the proofs of its blobs |
| `WitnessReplay.RecordedDataIsHonest` | op-succinct/utils/host/src/witness_generation/online_blob_store.rs:23-40 | each recorded blob stands beside its own commitment and proof |
| `WitnessReplay.ReplayIsIdentity` | op-succinct/utils/client/src/witness/mod.rs:23-42 | for every adaptive client and run length: the recording passes its checks, and the replay gives the online answers, pops no empty list and leaves no blob over, if and only if no recorded preimage was asked for under a wrong length |
| `HonestRecording.SavesIff` | op-succinct/utils/client/src/witness/preimage_store.rs:26-31 | a value is saved exactly if it is authentic and the key has no other value; else the save panics |
| `HonestRecording.RecordingTells` | op-succinct/utils/host/src/witness_generation/preimage_witness_collector.rs:21-59 | with an oracle whose answers hash to their keys every query of a recorded run is answered by the oracle or the blob provider, and no save panics |
| `HonestRecording.HonestRunsReplay` | op-succinct/utils/client/src/witness/mod.rs:23-42 | so every such run passes its checks and replays with the very same answers if and only if no recorded preimage was asked for under a wrong length |
| `ReplaySoundness.BlobsOrPanic` | op-succinct/utils/client/src/oracle/blob_provider.rs:44-56 | a blob request pops one entry per hash, the last one first, and panics exactly when there are fewer entries than hashes |
| `ReplaySoundness.AnswersAreAuthentic` | op-succinct/utils/client/src/witness/mod.rs:24-48 | whatever the witness holds: once the check has passed, every preimage that a replay gives any client for a Keccak256 or Sha256 key hashes to that key, has the length asked for, and is the same each time; unsupported keys are never answered |
| `ReplaySoundness.AnswersAreTrue` | op-succinct/utils/client/src/witness/mod.rs:24-48 | with collision-free hashes the answer for a hash is its one true preimage |
| `ReplaySoundness.ForgedDoesNotPass` | op-succinct/utils/client/src/witness/preimage_store.rs:34-48 | a witness with a value that does not hash to its key, or an unsupported key, does not pass the check |
| `ReplaySoundness.BlobsAreCommitted` | op-succinct/utils/client/src/oracle/blob_provider.rs:17-56 | every blob that a replay gives any client was verified with the others and stands in the witness beside a commitment with one of the versioned hashes asked for |
| `Derivation.Executor.ExecutePayload` | op-succinct/utils/client/src/client.rs:119-150 | success leaves the executor at the new header, failure anywhere |
| `Derivation.DriverLoop.AdvanceCursor` | op-succinct/utils/client/src/client.rs:154-187 | the tip advances exactly when the transactions decode and origin, block info and root exist; the root is that of the executed header |
| `Derivation.DriverLoop.ApplyPayload` | op-succinct/utils/client/src/client.rs:115-187 | one payload is executed; after Holocene a failure flushes the channel and retries the deposits, before it the payload is dropped |
| `Derivation.DriverLoop.AdvanceToTarget` | op-succinct/utils/client/src/client.rs:55-189 | the loop ends on any finite source and ends as the turns of the machine do |
| `Derivation.DepositsMeaning` | op-succinct/utils/client/src/client.rs:130-137 | stripping keeps exactly the deposit transactions |
| `Derivation.DepositsConcat` | op-succinct/utils/client/src/client.rs:129-133 | stripping keeps the order of what it keeps |
| `Derivation.SuccessMeans` | op-succinct/utils/client/src/client.rs:55-189 | on success head and root belong together and are the fold of all payloads produced, the head reached the target or the source ran dry at that head, no payload was asked for at or above the target, and a channel was flushed exactly after a failed Holocene payload |
| `DerivedChain.SuccessIsChain` | op-succinct/utils/client/src/client.rs:55-189 | on success the returned tip ends a chain of tips in which each payload that the pipeline gave for a tip yields the next one, its origin known and every flush successful |
| `DerivedChain.ExtendIff` | op-succinct/utils/client/src/client.rs:115-187 | a payload yields the block of its execution; if that fails, after Holocene the block of its deposits alone on the same parent, before Holocene nothing; head, info and output root are those of the executed header and transactions |
| `DerivedChain.RetryExecutesDeposits` | op-succinct/utils/client/src/client.rs:115-150 | after a failed Holocene payload the channel is flushed, and what is executed next keeps timestamp and other attributes and all deposits, in order and as often as they were there, and nothing else |
| `DerivedChain.KeepsDepositsIff` | op-succinct/utils/client/src/client.rs:129-137 | the kept transactions are those at the indices of the deposits, in increasing order |
| `DerivedChain.FailureMeans` | op-succinct/utils/client/src/client.rs:55-189 | each error has its cause in the last thing that happened: the pipeline error with its code, the end of the source, a failed flush, an execution that fails without the other transactions too, a block that cannot be made |
| `Derivation.SourceEndedMeans` | op-succinct/utils/client/src/client.rs:85-101 | the end-of-source error arises only in interop mode, below the target, at the derived head |
| `Derivation.NoTargetNeverReached` | op-succinct/utils/client/src/client.rs:70-101 | without a target the loop never succeeds |
| `BinarySearch.GetSafeL1Block` | op-succinct/utils/host/src/fetcher.rs:482-529 | with growing safe heads the result is the block named in the node's answer for the first L1 block that reaches the target, an error exactly when there is none, and an unsigned underflow exactly when block 0 is in range and reaches it |
| `BinarySearch.FindBlockByTimestamp` | op-succinct/utils/host/src/fetcher.rs:271-312 | the first block at or after the timestamp; beyond the finalized block the next one if it exists; underflow exactly when block 0 is younger than the timestamp |
| `BinarySearch.GetHighestFinalizedL2Block` | op-succinct/utils/celestia/host/src/blobstream_utils.rs:270-331 | the last available block when availability has no holes, none exactly when none is available; underflow exactly when block 0 is in range and unavailable |
| `SafeHeadSplit.CollectSafeHeads` | op-succinct/utils/host/src/block_range.rs:118-145 | the distinct safe heads of the L1 range in increasing order; a panic exactly when one lookup fails |
| `SafeHeadSplit.SplitRangeBasic` | op-succinct/utils/host/src/block_range.rs:80-91 | the loop, whenever it ends, cuts the range into pieces of the maximum size, the last one possibly shorter |
| `SafeHeadSplit.SplitUpTo` | op-succinct/utils/host/src/block_range.rs:150-157 | the inner loop appends the pieces up to one safe head |
| `SafeHeadSplit.SplitRangeBasedOnSafeHeads` | op-succinct/utils/host/src/block_range.rs:147-160 | the two loops compute the pieces |
| `SafeHeadSplit.PiecesPoints` | op-succinct/utils/host/src/block_range.rs:147-160 | the pieces hold exactly the blocks up to the end or the highest safe head |
| `SafeHeadSplit.PiecesShape` | op-succinct/utils/host/src/block_range.rs:147-160 | pieces are ordered, non-empty, at most the maximum size, and none crosses a safe head |
| `SafeHeadSplit.SplitTilesRange` | op-succinct/utils/host/src/block_range.rs:102-163 | the pieces tile the range if and only if some safe head reaches its end |
| `SafeHeadSplit.SplitRange` | op-succinct/utils/host/src/block_range.rs:102-163 | search and split together: the pieces are ordered, bounded and cross no safe head, and they tile the range if and only if the L1 block that the search names is not below the start origin, which is so when no entry of the node covers an L2 block with a later origin |
| `GameWindows.GetLatestValidProposal` | op-succinct/fault-proof/src/lib.rs:298-361 | the backward scan returns the last game whose claim is the true root, or an error exactly when it first meets a game at a block without a known root |
| `GameWindows.LatestValidMeaning` | op-succinct/fault-proof/src/lib.rs:298-361 | that game is valid and no later one is |
| `GameWindows.GetOldestGame` | op-succinct/fault-proof/src/lib.rs:429-499 | the first game of the last max + 1 that passes the three checks, or an error exactly when, before it finds one, it asks for a root that cannot be computed |
| `GameWindows.FirstInMeaning` | op-succinct/fault-proof/src/lib.rs:429-499 | no earlier game of a window passes |
| `GameWindows.GetOldestClaimableBond` | op-succinct/fault-proof/src/lib.rs:541-569 | the first claimable game of a window that ends before the latest game |
| `GameWindows.ClaimWindowMissesLatestIff` | op-succinct/fault-proof/src/lib.rs:533-569 | it misses a documented result exactly when only the latest game of the window is claimable |
| `GameWindows.ShouldAttemptResolution` | op-succinct/fault-proof/src/lib.rs:579-599 | true exactly if the oldest game has no parent or a resolved one |
| `GameWindows.Factory.TryResolveGame` | op-succinct/fault-proof/src/lib.rs:601-668 | resolves exactly a resolvable game that the contract accepts |
| `GameWindows.Factory.ResolveGames` | op-succinct/fault-proof/src/lib.rs:683-737 | resolves exactly the accepted resolvable games of the window without the latest game, if the oldest one has no parent or a resolved one; nothing if its parent is not in the list |
| `GameChain.RunKeepsInv` | op-succinct/fault-proof/src/proposer.rs:475-498 | after every step of any run, with invalid games of others, restarts and transactions that land late: valid games extend the latest valid one, a pending transaction proposes the next game or one that exists, proving tasks cover one interval of a valid game, and creation, resolution and bond tasks are alone |
| `GameChain.ReachableInv` | op-succinct/fault-proof/src/proposer.rs:475-498 | so it holds in every state reachable from an empty factory |
| `GameChain.StepKeepsInv` | op-succinct/fault-proof/src/proposer.rs:475-498 | every event keeps that |
| `GameChain.ValidGamesFormChain` | op-succinct/fault-proof/src/proposer.rs:332-391 | the valid games propose anchor + k * interval in order, each with the valid game before it as its parent |
| `GameChain.NoTwoChildren` | op-succinct/fault-proof/src/proposer.rs:332-391 | no two valid games share a parent, below 2^32 - 1 games |
| `GameChain.ProvesFromParent` | op-succinct/fault-proof/src/proposer.rs:157-165 | a game is proven from the block of its parent, the first one from the anchor |
| `GameChain.KindsNeverClash` | op-succinct/fault-proof/src/proposer.rs:569-622 | at most one creation, one resolution and one bond task at any time |
| `GameChain.StepKeepsProofsApartIff` | op-succinct/fault-proof/src/proposer.rs:274-327 | an event lets two tasks prove one game if and only if it is a receipt in fast finality mode for a game that the loop has begun to defend since its transaction was mined |
| `GameChain.RunKeepsProofsApart` | op-succinct/fault-proof/src/proposer.rs:749-777 | as long as no such receipt occurs, no game is proven by two tasks |
| `GameChain.ProofsNeverClash` | op-succinct/fault-proof/src/proposer.rs:749-777 | without fast finality no two tasks ever prove the same game |
| `GameChain.FastFinalityDoublesProof` | op-succinct/fault-proof/src/proposer.rs:296-325 | in fast finality mode they can: a run from an empty factory |
| `FinalizedProposals.DecideSendsIff` | op-succinct/fault-proof/src/proposer.rs:332-391 | a deciding task sends a transaction if and only if the next block, one interval above the last valid game or the anchor, lies strictly below the finalized one and the parent index fits 32 bits |
| `FinalizedProposals.SpawnsCreationIff` | op-succinct/fault-proof/src/proposer.rs:657-721 | a creation task is spawned if and only if there is none and the next block lies strictly below the finalized one |
| `FinalizedProposals.ProposalsAreFinalized` | op-succinct/fault-proof/src/proposer.rs:332-391 | over any run every transaction sent and every valid game proposes a block strictly below a finalized block heard of by then |
| `GameEvents.ReapFinishedIff` | op-succinct/fault-proof/src/proposer.rs:516-547 | exactly the finished tasks leave the map |
| `GameEvents.SpawnDefenseIff` | op-succinct/fault-proof/src/proposer.rs:749-777 | a proof is started, from one interval below, for the oldest challenged game of the window with a true claim and a deadline ahead, unless a task proves it |
| `GameEvents.SpawnResolutionIff` | op-succinct/fault-proof/src/proposer.rs:590-606 | a resolution task is spawned exactly when there is none |
| `GameEvents.SpawnBondClaimIff` | op-succinct/fault-proof/src/proposer.rs:606-620 | a bond task is spawned exactly when there is none and a bond is claimable |
| `GameEvents.MinedIff` | op-succinct/fault-proof/src/proposer.rs:274-327 | the factory refuses a game that it has and else appends it with the true root |
| `GameEvents.ReceiptIff` | op-succinct/fault-proof/src/proposer.rs:296-327 | with the receipt the task ends, and in fast finality mode the proof of the game is started unchecked |
| `FaultProposer.Proposer.HandleCompletedTasks` | op-succinct/fault-proof/src/proposer.rs:516-547 | removes exactly the finished tasks |
| `FaultProposer.Proposer.ShouldCreateGame` | op-succinct/fault-proof/src/proposer.rs:688-721 | decides whether the next block lies strictly below the finalized one; a failed scan counts as no |
| `FaultProposer.Proposer.SpawnGameCreationTask` | op-succinct/fault-proof/src/proposer.rs:657-685 | spawns a creation task only if none is active and a game is due |
| `FaultProposer.Proposer.SpawnGameDefenseTasks` | op-succinct/fault-proof/src/proposer.rs:749-769 | spawns a proof for the oldest defensible game unless one is running; nothing if the scan for it fails |
| `FaultProposer.Proposer.RunOnce` | op-succinct/fault-proof/src/proposer.rs:475-498 | one pass of the loop is a run of the machine and keeps the invariant |
| `FaultProposer.Proposer.DecideProposal` | op-succinct/fault-proof/src/proposer.rs:332-391 | the creation task settles block and parent and sends its transaction; an index above 32 bits is a panic, a failed scan an error |
| `FaultProposer.Proposer.CreateGameReceipt` | op-succinct/fault-proof/src/proposer.rs:296-327 | once the receipt is there the task ends, and in fast finality mode the proof of the new game is started without looking for one |
| `BlobstreamScan.ScanLogs` | op-succinct/utils/celestia/host/src/blobstream_utils.rs:119-156 | the first covering log of a window; other contracts and undecodable events are skipped |
| `BlobstreamScan.FindMinimumBlobstreamBlock` | op-succinct/utils/celestia/host/src/blobstream_utils.rs:82-168 | returns the first block with a covering event, or an error exactly when there is none or the node fails to answer for a window; the windows asked for are an initial part of the 5000-block cut |
| `BlobstreamScan.WindowsTile` | op-succinct/utils/celestia/host/src/blobstream_utils.rs:108-166 | the windows tile the blocks from start to latest |

## Left out

- Derivation.DriverLoop.AdvanceToTarget: takes the target itself, not an optional one, because without a target the loop does not end; that case is `Derivation.NoTargetNeverReached`.
- SafeHeadSplit.SplitRange: asks for a maximum size above 0 unless the range is empty, because with 0 the loop of the source does not end once a safe head makes a piece; the two loops themselves are modelled for 0 as far as they end.
- Failing calls of the validity proposer other than those named by its faults and answers: each ends the pass where it occurs, and leaves what the events before it made.
- Other commitment configurations, chain ids and the mode column: every query is taken to concern one of each; cancelling Prove rows of another configuration is not modelled.
- Integer widths of block numbers (i64, u64, U256) outside the searches, the proving range and the game index.
- RPC and SQL transport, serialisation, retries, metrics, logging, fees, durations, timestamps of rows, the chain lock.
- True concurrency inside tokio: a task's first database write racing the next pass.
- SP1 proving and verifying, hashing, KZG and the EIP-4844 versioned hash: parameters.
- The pipeline, the EVM and the precompiles of the client: parameters of the driver loop.
- The dispute-game and output-oracle contracts: their state is the game list and the latest block.
- The range program's own checks and the boot info of the client: part of "the proof states the truth".
- zk-program, the example web pages, deployment and cost scripts: they would add only easy members.
