# A verified model of the AI-operations bundler

Operations of smart accounts enter a mempool through a chain of checks; a bundler run takes them through
a chain of modules and sends them; a gas estimator and an EVM tracer compute their limits. This project
models the parts of that system whose correctness does not depend on a network, and proves what they keep.

Whatever the node, the database or the clock answers is an arbitrary parameter: an oracle that may answer
differently each time (`GasEstimate`), a record of answers (`Bundler.World`), a flag for whether a
transaction commits. Objects that the source updates in place are classes whose methods are proved against
functions on values; the theorems are about those functions and about runs of them.

| file | what it models |
|---|---|
| `ExecutionTracer`, `TracerFlags`, `GasForwarding`, `PricedCalls`, `NestedPrecompile` | the streaming gas accounting of the tracer, what its flags mean, re-execution under the "all but one 64th" rule of EIP-150, and for which call trees the reported limit is enough |
| `GasEstimate`, `EstimatorMessages` | both binary searches, which messages steer them, the buffer, the confirming trace, the fallback and the bounded retries |
| `Text`, `FieldTexts`, `AiOp`, `DbKeys` | hexadecimal, addresses, integers, the operation, its JSON form and decoder, database keys |
| `SortedSets`, `MempoolQueue`, `Mempool`, `MempoolInvariants`, `MempoolOrder`, `ArrivalOrder`, `MempoolReload`, `DiskText` | the queue, the database beside it, what every run keeps, and in which order operations come out |
| `PendingOps`, `Client`, `SubmissionRuns`, `SubmittedOps`, `FeeRuns`, `BothRoles` | submission checks, limits and replacement fees over every run, and where they fail for addresses used in two roles |
| `Reputation`, `Admission` | decaying counters, status, the store, and whom they keep out |
| `BatchContext`, `Expire`, `GasPrices`, `BatchChecks`, `DepositsLeft`, `Relayer`, `Bundler` | the modules of a bundler run, and the run |
| `StorageSlots`, `TraceValidation`, `StorageRules`, `CallStack` | the storage rules of validation for one entity and for a whole operation, and the matching of call frames |
| `BaseFee`, `Arithmetic` | the base-fee projection against the Specification section of EIP-1559; shared arithmetic |

The code keeps less than its comments say in these places, and the model follows the code:

- Dump does not return operations "in the order it arrived" (`pkg/mempool/instance.go:75`): the score of an
  operation is the count when it came, so arrival order is lost after removals (`FifoFailsAfterRemoval`)
  and replacements (`ReplacementMovesLast`); `ComesLastIff` says exactly when an operation comes last, and
  `ArrivalOrderIff` that a whole run keeps arrival order if and only if every addition did. After a restart
  the order starts again from that of the database keys (`RestartIsDense`).
- A replacement that changes factory or paymaster leaves the old address's entry behind
  (`AddKeepsExact` gives the exact condition).
- The tracer settles a call that takes no step, such as one to a precompile, at its caller's depth. Made
  directly by a depth-2 call this only reports more than is needed; made anywhere else, some price makes the
  limit too small (`EnoughAtEveryPriceIff`, and `PrecompileLimitTooSmall` for a small instance).
- With `MaxGasLimit` below 30000 the estimator answers (0, 0) without an error.
- Sorting by price and filtering by price can disagree for a base fee of 0
  (`PrefixForEveryBatchIffPricesAgree`).
- The paymaster deposit check removes by indices of the batch as it was, so it only removes all
  overdrawing operations if there is at most one (`RemovesOverdrawersIffAtMostOne`), and what it leaves may
  not be covered (`LeftIsCoveredIff`, `TwoOverdrawersLeaveUncovered`).
- The limits on unstaked addresses refuse at equality only, and differ by role: an address used in both
  roles passes them (`BothRolesWithinLimitIff`).
- A replacement is compared with the last operation of its nonce filed under the sender, which for a
  paymaster can be another sender's (`OutbidsPriorIff`, `ForeignOperationIsCompared`).
- The trace that saves an operation's code hashes runs beside its simulation, so the hashes of an operation
  that only the simulation refuses are kept (`Client.ClientInstance.HandleAiOp`).
- The relayer's transaction carries the batch captured before dropping operations
  (`SentIsBatchIffNothingBlamed`).
- `newCallStack` turns the top-level RETURN, for which the tracer prints no call, into an entry of the zero
  call (`CallStackOfTopLevelResult`).
- A full block with an odd gas limit uses more than twice its target and can escape the projected base fee
  (`ProjectionCoversIff`).

## Model

| member | source | states |
|---|---|---|
| `ExecutionTracer.Tracer.OnEnter` | pkg/tracer/BundlerExecutionTracer.js:60-66 | the object takes exactly the step of the fold for entering a frame |
| `ExecutionTracer.Tracer.OnStep` | pkg/tracer/BundlerExecutionTracer.js:102-119 | the object takes exactly the step of the fold for an opcode: depth, phase marker, both out-of-gas flags |
| `ExecutionTracer.Tracer.OnExit` | pkg/tracer/BundlerExecutionTracer.js:67-100 | the object takes exactly the step of the fold for leaving a frame, and throws exactly when the slot of its depth is undefined |
| `TracerFlags.FlagsSayWhere` | pkg/tracer/BundlerExecutionTracer.js:60-118 | over every run of callbacks: validation is reported out of gas exactly when an opcode of the first two phases has less gas than it costs, execution exactly when one of the third has, and the reverts are the outputs of exactly the frames that fail in the third; phases are counted by the NUMBER opcodes at depth 1 |
| `TracerFlags.TransactionFlags` | pkg/tracer/BundlerExecutionTracer.js:114-118 | the same for every transaction, from the first callback |
| `TracerFlags.ValidationRunsShort` | pkg/tracer/BundlerExecutionTracer.js:114-118 | an opcode that is too expensive in the first phase is reported as validation's and not as execution's |
| `ExecutionTracer.RunBody` | pkg/tracer/BundlerExecutionTracer.js:67-98 | for every frame body at any depth the callbacks leave in the slots of its own and the next depth what the recursion over the body tallies, deeper slots zero, shallower slots untouched |
| `ExecutionTracer.RunFrame` | pkg/tracer/BundlerExecutionTracer.js:60-98 | for every call the callbacks add its gas at its own depth, or at its caller's when it runs no code; the reported limit is what is required so far at that depth |
| `ExecutionTracer.AllCodeFrameGas` | pkg/tracer/BundlerExecutionTracer.js:75-94 | when all frames run code, the streamed item of a frame is its gas used and required(n) = used(n) - sum(child used) + ceil(64 * sum(child required) / 63) |
| `ExecutionTracer.LimitIsTotalGas` | pkg/tracer/BundlerExecutionTracer.js:96-98 | for every transaction no undefined slot is touched and the reported limit is the total over the calls made at depth 1 during the execution phase |
| `ExecutionTracer.LimitIsTotalRequired` | pkg/tracer/BundlerExecutionTracer.js:91-98 | with code only, the reported limit is the sum of the recursive requirement over the execution-phase calls |
| `GasForwarding.RequiredIsEnough` | pkg/tracer/BundlerExecutionTracer.js:91-94 | for every recorded call tree, any gas from required(n) up runs it to the end when each call is passed all but one 64th of what remains, and costs exactly what was recorded |
| `GasForwarding.BodyIsEnough` | pkg/tracer/BundlerExecutionTracer.js:91-94 | at every point of a body the rest of its own gas plus one reserve over the requirements of all calls to come suffices: siblings in sequence share a reserve |
| `GasForwarding.RequiredCoversUsed` | pkg/tracer/BundlerExecutionTracer.js:88-94 | required is never below used |
| `GasForwarding.TallyCovers` | pkg/tracer/BundlerExecutionTracer.js:73-94 | over any body whose only priced calls without code are its own, the streamed item is at least the recursive requirement |
| `GasForwarding.DirectCovers` | pkg/tracer/BundlerExecutionTracer.js:73-94 | the item of a depth-2 call that itself calls precompiles of any price, and none further down, is at least its requirement |
| `GasForwarding.LimitIsEnough` | pkg/tracer/BundlerExecutionTracer.js:96-98 | for every transaction in which priced calls without code are only made directly by depth-2 calls, the limit the tracer reports runs each call of the execution phase to the end at its recorded cost |
| `PricedCalls.EnoughAtEveryPriceIff` | pkg/tracer/BundlerExecutionTracer.js:60-98 | the reported limit is enough at every price of the calls without code if and only if each priced one is made directly by a depth-2 call |
| `PricedCalls.SomePriceFails` | pkg/tracer/BundlerExecutionTracer.js:60-98 | for every other transaction, a price from which on it falls short, computed from the limit at price zero |
| `PricedCalls.BodyNeedsReach` | pkg/tracer/BundlerExecutionTracer.js:88-94 | a run that gets through a call n passes down started with gas g such that 63^n * (g - 63) >= 64^n * (p - 63) |
| `PricedCalls.PutGas` | pkg/tracer/BundlerExecutionTracer.js:73-98 | what the price of one call adds to the reported item of a frame any number of levels above it |
| `PricedCalls.ExtraBound` | pkg/tracer/BundlerExecutionTracer.js:91-94 | that amount, n levels up, is at most 65/63 * (64/63)^(n-2) of the price but for rounding |
| `NestedPrecompile.NestedPrecompileLimit` | pkg/tracer/BundlerExecutionTracer.js:73-98 | for a precompile of any price two frames down, each spending any amount of its own: the limit reported, and exactly which amounts get through |
| `NestedPrecompile.PrecompileLimitTooSmall` | pkg/tracer/BundlerExecutionTracer.js:73-98 | with 121 gas spent before each call and a price of 4223, the limit reported (4601) runs out |
| `NestedPrecompile.UsedAloneTooSmall` | pkg/tracer/BundlerExecutionTracer.js:86-89 | recorded gas without a reserve runs out if and only if the price is at least 64 |
| `GasEstimate.Search` | pkg/gas/estimate.go:103-142 | either binary search ends; it goes below a limit that was accepted or lacked the prefund, above one that lacked gas, and stops at any other answer; a limit it returns was accepted, lies in the range and is the lowest accepted; when the node lacks gas below a threshold, accepts from there on, and lacks the prefund above a second one, it is the threshold give or take 30000, and one is found when the working range is that wide; the number of questions is logarithmic |
| `GasEstimate.EstimateGas` | pkg/gas/estimate.go:82-247 | one attempt with the retries it leads to, for any oracle: questions come in the order prepare, simulate, trace without fees at the maximum call gas, trace with fees at the call gas read off or the least a call with value needs, and only if that fails in execution a search above it, all under one verification gas limit; an error is that of the last answer; a next attempt follows only a trace that failed for lack of validation gas; only the first attempt simulates |
| `GasEstimate.RetryEstimateGas` | pkg/gas/estimate.go:62-78 | another attempt starts exactly for an out-of-gas error of validation with fewer than 7 retries made, from the failed limit, buffered; otherwise the error is returned and nothing more is asked |
| `GasEstimate.Estimate` | pkg/gas/estimate.go:82-247 | for every oracle: at most 8 attempts; an estimate without error was accepted by a full trace with exactly its limits, covers the gas a trace without fees read off, and passes the call gas check; below 30000 of room the answer is (0, 0) without a simulation; the first limit is the buffered threshold; a validation out-of-gas met by the trace without fees, or by the confirming trace without a sign that execution failed, is reported only after all 8 attempts |
| `EstimatorMessages.PrefundSendsDown` | pkg/gas/estimate.go:24-27 | a message with one of the two codes of a missing prefund, wherever it stands, sends either search down |
| `EstimatorMessages.ValidationSendsUp` | pkg/gas/estimate.go:29-38 | each of the eight messages for lack of gas in validation sends the first search up, unless the text around it could be taken for a missing prefund |
| `EstimatorMessages.ExecutionSendsUp` | pkg/gas/estimate.go:40-46 | either message for lack of gas in execution sends the second search up |
| `GasEstimate.BufferIsAQuarter` | pkg/gas/estimate.go:146-146 | the buffered limit is 5/4 of it, rounded down |
| `GasEstimate.RetriedLimitBound` | pkg/gas/estimate.go:146-146 | the k-th retry's limit v_k satisfies 100^k * v_k <= 125^k * v_0 |
| `GasEstimate.RetriedLimitGrows` | pkg/gas/estimate.go:146-146 | retrying never lowers the limit and raises it strictly from 4 on |
| `GasEstimate.BufferFitsInt64` | pkg/gas/estimate.go:146-146 | for first limits up to 2^53, buffered, no buffering product overflows 64 bits in any of the 8 attempts |
| `AiOp.NewOfToJson` | pkg/aiop/object.go:198-244 | decoding a printed operation fails exactly for the zero sender and otherwise gives the operation, without an initCode that names no factory |
| `AiOp.RoundTripIffPrintsWhole` | pkg/aiop/parse.go:91-120 | print then parse is the identity if and only if the sender is not zero and initCode is empty or starts with a non-zero factory |
| `AiOp.PrintedFields` | pkg/aiop/object.go:198-230 | every field of the printed operation decodes to the field of its name |
| `AiOp.PaymasterTriples` | pkg/aiop/object.go:87-99 | with a paymaster the gas of verification counts three times |
| `FieldTexts.IntegerIsRead` | pkg/aiop/parse.go:37-44 | an integer written in any of the bases the decoder knows, under any of their prefixes and after either sign, is read as the number it stands for |
| `FieldTexts.FieldIsRead` | pkg/aiop/parse.go:37-53 | so is a field, also as a JSON number; negative and missing ones are refused |
| `FieldTexts.BytesAreReadIff` | pkg/aiop/parse.go:56-66 | a field of bytes is accepted if and only if it is text of "0x" and an even number of hexadecimal digits |
| `AiOp.PrefundIsEnough` | pkg/aiop/object.go:101-120 | the prefund covers all the gas an operation may use at the price it pays under any base fee, and no less would do |
| `AiOp.PrintedKeepsEntities` | pkg/aiop/object.go:198-230 | printing keeps sender, nonce, factory, paymaster and fees, and is idempotent |
| `AiOp.DecodeInitCodeText` | pkg/aiop/object.go:200-203 | the printed initCode, with a checksummed factory, decodes to the bytes it was made from |
| `Text.UnHexOfHex` | pkg/aiop/parse.go:62-66 | hexadecimal text of any letter case decodes to its bytes, also in front of more text |
| `Text.ParseAddressText` | pkg/aiop/parse.go:32-34 | an address printed with any checksum parses back to itself |
| `Text.ParseHexInteger` | pkg/aiop/parse.go:37-44 | an integer printed in base 16 parses back through the base-detecting parser |
| `Text.SplitOfJoin` | internal/dbutils/utils.go:7-13 | splitting joined values gives them back when none contains the separator |
| `DbKeys.AiMiddlewareOfUniqueKey` | pkg/mempool/db.go:17-26 | the middleware parsed from a database key is the one it was built from |
| `DbKeys.UniqueKeyInjective` | pkg/mempool/db.go:17-21 | database keys are injective in (middleware, sender, nonce) |
| `SortedSets.AddOrUpdateEntries` | pkg/mempool/queue.go:45-46 | a sorted set is a map from keys to values, whatever the scores and ties |
| `SortedSets.RemoveEntries` | pkg/mempool/queue.go:84-87 | removing from a sorted set drops exactly the key |
| `MempoolQueue.AiOpQueues.AddOp` | pkg/mempool/queue.go:41-55 | the whole new state of the queue after adding an operation |
| `MempoolQueue.AiOpQueues.GetOps` | pkg/mempool/queue.go:57-67 | an entity's operations, highest score first; apart from an empty set that may be created nothing changes |
| `MempoolQueue.AiOpQueues.All` | pkg/mempool/queue.go:69-78 | all operations, lowest score first |
| `MempoolQueue.AiOpQueues.RemoveOps` | pkg/mempool/queue.go:80-89 | the whole new state of the queue after a list of removals |
| `MempoolQueue.AddToPoolAsMaps` | pkg/mempool/queue.go:41-55 | adding sets the key in the set of all and in exactly the sets of the addresses the operation uses |
| `MempoolQueue.RemoveFromPoolAsMaps` | pkg/mempool/queue.go:80-89 | removing drops the key from the set of all and from the sets of the addresses of the operation passed in, zero address included |
| `Mempool.MempoolInstance.LoadFromDisk` | pkg/mempool/db.go:42-71 | a new queue holds what the scanned values decode to, or the load fails |
| `Mempool.MempoolInstance.AddOp` | pkg/mempool/instance.go:38-53 | database and queue change together, or the call fails and neither does |
| `Mempool.MempoolInstance.RemoveOps` | pkg/mempool/instance.go:56-73 | database and queue lose exactly the keys of the list together, or the call fails and neither changes |
| `Mempool.MempoolInstance.Dump` | pkg/mempool/instance.go:76-78 | the operations of a middleware by score, nothing changed |
| `Mempool.MempoolInstance.ClearAll` | pkg/mempool/instance.go:81-88 | the mempool's part of the database and the queue are both emptied, or the call fails and neither is |
| `MempoolInvariants.AddKeepsFiled` | pkg/mempool/queue.go:41-55 | adding keeps every pending operation in the sets of its addresses with its current value, and a sender's own keys in its set only while pending |
| `MempoolInvariants.RemoveKeepsFiled` | pkg/mempool/queue.go:80-89 | removing keeps the same |
| `MempoolInvariants.AddKeepsExact` | pkg/mempool/queue.go:47-54 | adding keeps every index exactly the filter of the set of all if and only if the operation uses every address of the one it replaces |
| `MempoolInvariants.RemoveKeepsExact` | pkg/mempool/queue.go:84-87 | removing keeps every index exact if and only if the operation passed in names every address of the pending one |
| `MempoolInvariants.RestartReloads` | pkg/mempool/db.go:42-71 | a restart always loads; the same keys are pending, each with its printed operation, and every index is exact whatever happened before |
| `MempoolInvariants.StepKeepsInvariant` | pkg/mempool/instance.go:20-88 | each of add, replace, remove, clear and restart keeps the database equal to the printed pending operations and the indexes filed |
| `MempoolInvariants.EveryRunKeepsInvariant` | pkg/mempool/instance.go:20-88 | so does every run |
| `MempoolInvariants.TidyRunKeepsExact` | pkg/mempool/queue.go:41-89 | over every run whose replacements and removals cover the addresses of what they replace or remove, every index is exactly the filter of the set of all |
| `MempoolOrder.FreshArrivalsAreFifo` | pkg/mempool/queue.go:45-45 | operations with new keys, added while scores are dense, come out in the order they went in |
| `MempoolOrder.ComesLastIff` | pkg/mempool/queue.go:45-45 | an added or replacing operation comes out last if and only if the current count, as its score, is past every other score (ties broken by key), or it replaces the last one under that very score |
| `MempoolOrder.FifoFailsAfterRemoval` | pkg/mempool/queue.go:45-45 | after a removal a third operation can come out before the second |
| `MempoolOrder.ReplacementMovesLast` | pkg/mempool/queue.go:45-45 | a replacement in a pool without gaps loses its place: it comes out after all others, whose order stays |
| `ArrivalOrder.ArrivalOrderIff` | pkg/mempool/instance.go:75-78 | between restarts Dump returns operations in the order they arrived throughout a run if and only if every addition found its score past all others, or replaced the last one under that score |
| `ArrivalOrder.StepInOrderIff` | pkg/mempool/queue.go:41-89 | one action keeps arrival order if and only if what it adds comes last; removals and clearing always keep it |
| `MempoolReload.RestartIsDense` | pkg/mempool/db.go:42-71 | after a restart scores are dense again, so arrival order holds from there on |
| `DiskText.StepStores` | pkg/mempool/instance.go:38-88 | what each operation does to the database keyed by text is what the model does keyed by (middleware, sender, nonce), and a restart that parses the middleware from each text loads the same queue |
| `DiskText.LoadTextsIsLoad` | pkg/mempool/db.go:42-71 | scanning texts and filing each value under the middleware its text names is scanning keys |
| `DiskText.StoresOnce` | pkg/mempool/db.go:17-21 | the stored texts are determined by the keys |
| `PendingOps.ValidatePendingOps` | pkg/modules/checks/pendingops.go:35-56 | accepts exactly when the last pending operation with the nonce, if any, is outbid in both fees |
| `PendingOps.ReplacedIsTheOne` | pkg/modules/checks/pendingops.go:39-45 | with one operation per nonce, the scan compares with that one |
| `PendingOps.OutbidsIff` | pkg/modules/checks/pendingops.go:19-56 | a replacement is accepted if and only if each fee, with one more unit, exceeds the old one by more than a tenth; exactly a tenth more always suffices |
| `PendingOps.OneBump` | pkg/modules/checks/pendingops.go:19-29 | a replacement never lowers a fee, and 10 * (fee - 9) >= 11 * (old - 9) |
| `Client.ClientInstance.NewAiOpHandlerContext` | pkg/modules/context.go:94-140 | the three lists of a handler context are what is filed under sender, factory and paymaster before the call; it fails exactly when a stake cannot be looked up |
| `Client.ClientInstance.HandleAiOp` | internal/start/private.go:143-149 | the chain of checks passes exactly when reputation, limits, pending operations and the other answers allow it; code hashes are saved exactly when the trace is reached and yields them, even if the simulation beside it refuses the operation; every role is seen once more exactly when all pass |
| `Client.ClientInstance.SendAiOperation` | pkg/client/client.go:118-165 | an operation is added exactly if the middleware is supported, every check passes and the database commits; otherwise only empty sets may appear in the mempool; the effects on reputation and code hashes are stated for every outcome, also for the refused operation whose hashes stay |
| `Client.Debug.ClearState` | pkg/client/debug.go:41-47 | mempool, reputation counters and code hashes, which share a database, are all emptied or none is |
| `Admission.StatusInCounts` | pkg/modules/entities/utils.go:122-139 | an entity is throttled from denominator * (included + throttling slack + 1) operations seen on, and banned from the same with the ban slack |
| `Admission.BannedIsRefused` | pkg/modules/entities/reputation.go:36-89 | an operation with a banned entity in any role is refused, whatever is pending |
| `Admission.OkIsAdmitted` | pkg/modules/entities/reputation.go:36-89 | one whose entities are all in good standing is admitted, whatever is pending |
| `Admission.ThrottledRule` | pkg/modules/entities/reputation.go:48-82 | with nobody banned, refusal means exactly that a throttled sender, factory or paymaster has just its limit of operations pending, each counted by its own list |
| `Admission.TimeNeverRefuses` | pkg/modules/entities/reputation.go:36-89 | time alone never turns an admitted operation into a refused one |
| `Admission.BannedIsNeverAccepted` | pkg/client/client.go:118-165 | a submission that names a banned entity is never accepted |
| `Admission.ThrottledIsAcceptedOffLimit` | pkg/client/client.go:118-165 | one that names a throttled entity is accepted only while the operations pending for it are not at its limit |
| `Admission.UnstakedIsAcceptedOffLimit` | pkg/client/client.go:118-165 | an accepted submission has the stake of each of its addresses looked up, and one without stake has not just the number of operations pending that its role allows |
| `Reputation.SeenInEveryRole` | pkg/modules/entities/reputation.go:155-174 | a submission adds to each address one seen operation per role, and changes no other counter |
| `SubmissionRuns.EveryRunKeepsInvariant` | pkg/client/client.go:118-165 | submissions, bundler removals, clearing and restarts keep the mempool invariant over every run |
| `SubmittedOps.RestartKeepsOperations` | pkg/mempool/db.go:42-71 | after any run of submissions, removals, clearing and restarts from an empty mempool, a restart keeps every pending operation exactly as it was |
| `SubmittedOps.AcceptedPrintsWhole` | pkg/modules/checks/initcode.go:11-22 | an accepted operation is one that printing does not change |
| `SubmissionRuns.RefusedAtLimit` | pkg/modules/entities/reputation.go:99-151 | an accepted operation found each unstaked address it uses at a count other than its limit |
| `SubmissionRuns.RunKeepsLimit` | pkg/modules/entities/reputation.go:99-151 | over every run in which an unstaked address is used in roles of one limit only, that limit keeps holding, although the check is for equality |
| `SubmissionRuns.UnstakedAddressesStayWithinLimits` | pkg/modules/entities/reputation.go:99-151 | from an empty pool: a never-staked address used only as sender has at most SameSenderMempoolCount pending operations, one never used as sender at most SameUnstakedEntityMempoolCount |
| `BothRoles.BothRolesWithinLimitIff` | pkg/modules/entities/reputation.go:99-151 | an address that is never staked stays within the higher of the two limits over every run, in whatever roles, if and only if the limits are equal |
| `BothRoles.NoLimitForBothRoles` | pkg/modules/entities/reputation.go:99-151 | with different limits such an address can have any number of operations pending: past the higher limit neither check for equality refuses |
| `BothRoles.ForeignOperationIsCompared` | pkg/modules/checks/pendingops.go:39-52 | a run in which a sender that is also a paymaster replaces its operation by one that does not outbid it, because it is compared with the operation of another sender |
| `FeeRuns.OutbidsPriorIff` | pkg/modules/checks/pendingops.go:39-52 | every replacement that passes outbids the pending operation if and only if the last operation of that nonce filed under the sender sets thresholds as high |
| `FeeRuns.ReplacementOutbids` | pkg/modules/checks/pendingops.go:39-52 | a replacement is compared with exactly the operation it replaces, for senders that are nobody else's factory or paymaster |
| `FeeRuns.FeesGrow` | pkg/modules/checks/pendingops.go:19-56 | while a slot stays occupied and each replacement is compared with the operation in it, both fees never fall and k replacements give 10^k * (fee_k - 9) >= 11^k * (fee_0 - 9) |
| `FeeRuns.FeesGrowInEveryRun` | pkg/modules/checks/pendingops.go:19-56 | the same in every run from an empty mempool, from any moment the slot is occupied, for a sender that no accepted operation of others names as factory or paymaster |
| `Reputation.ApplyExpWeights` | pkg/modules/entities/utils.go:52-61 | the loop that stops once both counters are below 24 is the decay over all hours |
| `Reputation.DecayMonotone` | pkg/modules/entities/utils.go:59-60 | decay keeps included at most seen, and never raises a counter |
| `Reputation.DecayComposes` | pkg/modules/entities/utils.go:52-61 | whole-hour decays compose exactly |
| `Reputation.DecayBound` | pkg/modules/entities/utils.go:59-60 | 24^h * (x_h - 23) <= 23^h * (x_0 - 23), and x_h stays at least 23 |
| `Admission.DecayAtLeast` | pkg/modules/entities/utils.go:53-61 | 24^h * Decay(x, h) >= 23^h * x: a count loses no more than a 24th each hour |
| `Admission.HoursAreWhole` | pkg/modules/entities/utils.go:53-54 | the hours that count are the whole ones |
| `Reputation.ExtraReadsNeverLower` | pkg/modules/entities/utils.go:52-66 | more reads, each restamping the time, never leave the counters lower than fewer reads would |
| `Reputation.DecayNeverWorsens` | pkg/modules/entities/utils.go:122-139 | any number of decay hours leaves the status no worse |
| `Reputation.NoStepFromOkToBanned` | pkg/modules/entities/utils.go:122-139 | with a ban slack above the throttling slack no single decay, seen- or included-increment takes ok to banned |
| `Reputation.OneMoreSeenNeverBansIff` | pkg/modules/entities/utils.go:122-139 | that no seen-increment takes ok to banned holds if and only if the ban slack is above the throttling slack |
| `Reputation.OnlySeenWorsens` | pkg/modules/entities/utils.go:93-139 | over any history only being seen can worsen a status |
| `Reputation.ReputationStore.GetOpsCountByEntity` | pkg/modules/entities/utils.go:69-91 | reads the decayed counters and writes them back with the current time; unknown entities are not written |
| `Reputation.ReputationStore.IncrementOpsIncludedByEntity` | pkg/modules/entities/utils.go:103-120 | in whatever order entities are visited, each gets its count once and no other entry changes |
| `Reputation.ReputationStore.GetStatus` | pkg/modules/entities/utils.go:122-139 | the status of the decayed counters |
| `Reputation.ReputationStore.CheckStatus` | pkg/modules/entities/reputation.go:35-95 | admits exactly when no entity is banned and no throttled one is at its number of pending operations; a refusal leaves the store as it was, an acceptance changes no counter as read now |
| `Reputation.ReputationStore.IncOpsIncluded` | pkg/modules/entities/reputation.go:178-210 | every address gets one more included for each role it plays in the batch, others nothing |
| `Reputation.ReputationStore.IncOpsSeen` | pkg/modules/entities/reputation.go:155-174 | sender, factory and paymaster are each seen once more |
| `BatchContext.BatchHandlerCtx.MarkOpIndexForRemoval` | pkg/modules/context.go:58-77 | exactly the operation at the index moves from the batch to the end of the removals; other indices do nothing |
| `BatchContext.WalkDrops` | pkg/modules/context.go:58-77 | in a backward walk marking an index drops exactly the operation judged there |
| `BatchContext.WalkEnds` | pkg/modules/checks/standalone.go:156-171 | a finished backward walk is an order-preserving filter, and the removals gain the failing operations in reverse |
| `BatchContext.WalkAccounts` | pkg/modules/checks/standalone.go:156-171 | a walk loses and invents no operation, also when an error cuts it short |
| `Expire.ExpireHandler.DropExpired` | pkg/modules/expire/expire.go:26-39 | the batch keeps what has not expired, in order; the rest is marked; every hash is remembered |
| `Expire.DroppedIffPastFirstSight` | pkg/modules/expire/expire.go:29-34 | across any runs an operation seen before is dropped if and only if its first sight plus the time to live is strictly before now |
| `Expire.FirstSeenStaysOverRuns` | pkg/modules/expire/expire.go:31-32 | the time of first sight never changes |
| `Expire.FirstSightIsRecorded` | pkg/modules/expire/expire.go:31-32 | an operation not seen before is recorded with the current time and not dropped |
| `GasPrices.SortByGasPrice` | pkg/modules/gasprice/sort.go:10-26 | the batch becomes a stable sort by falling price: a permutation that keeps ties in order |
| `GasPrices.StableSortIsUnique` | pkg/modules/gasprice/sort.go:13-22 | there is only one such order |
| `GasPrices.FilterUnderpriced` | pkg/modules/gasprice/filter.go:13-32 | the batch becomes the affordable operations in order |
| `GasPrices.AffordableIff` | pkg/modules/gasprice/filter.go:17-28 | under a base fee and a tip an operation survives if and only if its fee cap covers both and it offers the tip; otherwise if its fee cap covers the gas price |
| `GasPrices.SurvivorsMeetFloor` | pkg/modules/gasprice/filter.go:17-28 | the survivors are exactly the operations of the batch that meet the price floor |
| `GasPrices.PrefixForEveryBatchIffPricesAgree` | pkg/modules/gasprice/filter.go:17-28 | price sort then filter leaves a prefix of the sorted batch for every batch of operations with valid fees if and only if sorting and filtering prices agree, which they do not with a base fee of 0 or without a tip under a higher gas price |
| `GasPrices.MaintainGasLimit` | pkg/modules/batch/gaslimit.go:17-37 | the batch becomes the longest prefix whose cumulative execution gas is strictly below the limit; an uncomputable operation reached before that fails the module |
| `GasPrices.StaticGasIsCounted` | pkg/modules/batch/gaslimit.go:22-27 | a batch is counted as if each operation declared its static gas, whatever it declares |
| `GasPrices.NoLongerPrefixBelow` | pkg/modules/batch/gaslimit.go:28-33 | no longer prefix is below the limit |
| `BatchChecks.HasCodeHashChanges` | pkg/modules/checks/codehash.go:31-50 | answers whether some saved contract's code hash differs now; no answer exactly when some code cannot be read |
| `BatchChecks.JudgedSinceSaved` | pkg/modules/checks/codehash.go:13-50 | once the hashes of the contracts an operation touched are saved, it is judged by whether the code of one of them has changed since; not at all while some code cannot be read |
| `BatchChecks.NoVerdictOnceForgotten` | pkg/modules/checks/standalone.go:156-164 | there is no verdict on an operation whose hashes have been forgotten |
| `BatchChecks.Standalone.CodeHashes` | pkg/modules/checks/standalone.go:152-174 | keeps, in order, exactly the operations whose code has not changed; fails exactly when one cannot be judged; every operation stays accounted for |
| `BatchChecks.Standalone.PaymasterDeposit` | pkg/modules/checks/standalone.go:178-208 | marks the indices at which a paymaster is overdrawn, each in what is left of the batch; fails exactly when a deposit is unknown; every operation stays accounted for |
| `BatchChecks.UnchangedIffCovered` | pkg/modules/checks/standalone.go:186-204 | the batch is left as it is if and only if every paymaster in it can pay |
| `BatchChecks.RemovesOverdrawersIffAtMostOne` | pkg/modules/checks/standalone.go:186-204 | all overdrawing operations are removed if and only if there is at most one |
| `BatchChecks.SecondStays` | pkg/modules/checks/standalone.go:186-204 | the second operation to overdraw always stays in the batch |
| `DepositsLeft.MarksTake` | pkg/modules/checks/standalone.go:186-204 | marking ascending indices takes out exactly the operation at the k-th index plus k, while that lies in the batch, and what each paymaster owes splits accordingly |
| `DepositsLeft.LeftIsCoveredIff` | pkg/modules/checks/standalone.go:176-177 | every paymaster can pay for the operations left if and only if it can pay for its part of the batch without those at the k-th overdrawn index plus k |
| `DepositsLeft.OneOverdrawerLeavesCovered` | pkg/modules/checks/standalone.go:176-177 | with at most one operation that overdraws, every paymaster can pay for what is left |
| `DepositsLeft.TwoOverdrawersLeaveUncovered` | pkg/modules/checks/standalone.go:186-204 | two operations of one paymaster, each beyond its deposit: the second stays and is not covered |
| `BatchChecks.Standalone.Clean` | pkg/modules/checks/standalone.go:220-233 | forgets the code hashes of exactly the batch and the removals |
| `Relayer.SendAiOperation` | pkg/modules/relay/relayer.go:64-105 | batch and removals become what the successive estimates leave; it succeeds exactly when the batch is settled and, unless empty, sent, which takes an estimate with a gas limit; a transaction carries the batch as captured at the start |
| `Relayer.SettledIff` | pkg/modules/relay/relayer.go:80-91 | the estimates settle a batch if and only if nothing is left of it or they come to a gas limit; a failed estimate settles nothing |
| `Relayer.EstimatesAccount` | pkg/modules/relay/relayer.go:80-91 | whatever the estimates answer, every operation stays accounted for |
| `Relayer.SentIsBatchIffNothingBlamed` | pkg/modules/relay/relayer.go:71-91 | what was captured is what is left if and only if no answer, up to the one that ends the estimates, blames an index within the batch |
| `Relayer.BlamedOperationIsSent` | pkg/modules/relay/relayer.go:71-101 | a concrete run in which the transaction still carries an operation that was blamed and removed |
| `Bundler.PricingConserves` | pkg/modules/gasprice/filter.go:13-32 | sorting and filtering by price invent and duplicate nothing |
| `Bundler.BundlerInstance.Select` | internal/start/private.go:161-165 | the first five modules: expired operations marked, the rest stably sorted by price, filtered, reordered, cut off at the gas limit; nothing is invented, duplicated or unmarked; a failure needs an operation whose gas cannot be computed |
| `Bundler.BundlerInstance.Send` | internal/start/private.go:166-171 | the other modules: changed code marked, then overdrawn indices, then those the estimates blame; inclusion counted and code hashes forgotten for exactly what is left; nothing is lost, whether they succeed or fail; they succeed when nothing they ask for fails; a transaction goes out only with a gas limit and if the node takes it |
| `Bundler.BundlerInstance.RunModules` | pkg/modules/compose.go:4-15 | the whole chain in order, up to the first error |
| `Bundler.ConservationSplits` | pkg/bundler/bundler.go:157-167 | conservation over a dump without duplicates splits it into three disjoint groups: batch, removals, deferred |
| `Bundler.RemovalTakesOut` | pkg/bundler/bundler.go:159-170 | removing batch and removals takes exactly those operations out of the pool and keeps the mempool invariant |
| `Bundler.BundlerInstance.Process` | pkg/bundler/bundler.go:113-192 | every run that succeeds splits the dumped operations into three disjoint groups and takes exactly the first two out of the mempool; every other run leaves the mempool unchanged; a run fails only if something it asks for fails, and is idle exactly when nothing is pending; a successful one has run the modules in order on the dump; what it sent is no longer pending, and what a failing run sent before it failed still is; it has sent what is left in the batch only under an estimate with a gas limit, and has kept its books |
| `Bundler.NextDump` | pkg/bundler/bundler.go:113-192 | the next dump has exactly what this one had and did not process: deferred operations come back |
| `StorageSlots.IsAssociatedWith` | pkg/aimiddleware/simulation/storageslots.go:71-82 | true exactly when the slot is at most 128 past one of the entity's, in whatever order they are walked |
| `StorageSlots.ProcessMode` | pkg/aimiddleware/simulation/storageslots.go:115-160 | one mode of one address: no access is forbidden or an error names one; ids and the remembered slot account for exactly the accesses walked |
| `StorageSlots.Process` | pkg/aimiddleware/simulation/storageslots.go:88-173 | for every iteration order of the maps: accepts exactly when every called address has code and every access is permitted; the ids are the same up to order; an error names a violation |
| `StorageRules.StakedRule` | pkg/aimiddleware/simulation/storageslots.go:130-169 | a staked entity is accepted if and only if it calls code only and each write is to a slot of the sender or its own, or is excepted by an alternative mempool |
| `StorageRules.UnstakedRule` | pkg/aimiddleware/simulation/storageslots.go:130-169 | without an account being created, an unstaked one if and only if each read and write is to a slot of the sender or excepted |
| `StorageRules.UnstakedCreationRule` | pkg/aimiddleware/simulation/storageslots.go:130-169 | while the account is created, only the account itself may access its slots, and only if its factory is staked; anything else has to be excepted |
| `StorageRules.OperationRule` | pkg/aimiddleware/simulation/tracevalidation.go:121-142 | an operation is accepted if and only if sender, factory and paymaster each keep these rules, from what the tracer collected and who is staked |
| `StorageRules.PrintedSlots` | pkg/aimiddleware/simulation/storageslots.go:71-82 | for slots as they are printed, a slot belongs to an entity if and only if it is at most 128 past one of its own |
| `StorageRules.NamesOfEntities` | pkg/aimiddleware/simulation/knownentity.go:56-66 | exceptions name an entity by its role, factory before account before paymaster, and any other contract by its address |
| `StorageRules.TitlesAreNames` | pkg/aimiddleware/simulation/tracevalidation.go:121-142 | each entity is validated under the name that exceptions know it by, when their addresses differ |
| `StorageRules.IdsRule` | pkg/aimiddleware/simulation/storageslots.go:144-150 | the alternative mempools relied on are those of every access outside the sender's slots |
| `StorageSlots.StakingNeverHurts` | pkg/aimiddleware/simulation/storageslots.go:130-169 | for one entity, staking any address never turns acceptance into rejection nor changes the ids, and makes the difference exactly when some access needs that stake, the entity's own or that of the factory creating it |
| `TraceValidation.ValidateStorage` | pkg/aimiddleware/simulation/tracevalidation.go:121-142 | in whatever order account, factory and paymaster are validated: accepts exactly when each keeps the rules, with the same ids up to order; an error names a violation |
| `TraceValidation.StakingAnAddressNeverHurts` | pkg/aimiddleware/simulation/tracevalidation.go:121-142 | staking one address, in whichever of its roles it is looked up, never turns an accepted operation into a rejected one nor changes its ids, and makes the difference exactly when some access of some entity needs that stake |
| `CallStack.Stack.Push` | internal/utils/stack.go:11-13 | the key goes on top |
| `CallStack.Stack.Pop` | internal/utils/stack.go:24-31 | the top comes off, or the zero value of an empty stack |
| `CallStack.Stack.Top` | internal/utils/stack.go:15-22 | the top, or the zero value of an empty stack |
| `CallStack.NewCallStack` | pkg/aimiddleware/simulation/callstack.go:22-54 | for every sequence of records the loop is the record-by-record scan; for those of call trees it returns exactly the calls that returned and create nothing, with nothing left on the stack |
| `CallStack.CallStackOfTrace` | pkg/aimiddleware/simulation/callstack.go:22-54 | for every sequence of call trees the stack ends empty and the output is the post-order list of calls that returned and create nothing, each with its own record and return data |
| `CallStack.EntriesDescribeCalls` | pkg/aimiddleware/simulation/callstack.go:37-47 | there is one entry for each call that returned and creates nothing, with its caller, target, value, type and method, and the data of its own result |
| `CallStack.CallStackOfTopLevelResult` | pkg/aimiddleware/simulation/callstack.go:26-47 | a RETURN without a record of its own adds an entry of the zero call |
| `CallStack.CallStackOfCutTrace` | pkg/aimiddleware/simulation/callstack.go:22-54 | a trace that stops inside calls yields every call that returned before, and leaves the open ones on the stack |
| `BaseFee.ProjectBaseFee` | pkg/modules/builder/client.go:102-109 | the loop computes the projection over the given number of blocks, none for a negative number |
| `BaseFee.ProjectionCoversIff` | pkg/modules/builder/client.go:104-108 | one step covers the next block for every base fee if and only if the block uses at most twice its target |
| `BaseFee.ProjectionCovers` | pkg/modules/builder/client.go:102-109 | after n blocks the projection is at least any base fee those blocks can lead to |
| `BaseFee.ProjectionGrows` | pkg/modules/builder/client.go:104-108 | looking further ahead strictly raises the projection |
| `BaseFee.ProjectionBound` | pkg/modules/builder/client.go:104-108 | 8^n * (m_n + 8) <= 9^n * (b + 8) |

## Left out

- Relayer.SendAiOperation: that a transaction is sent means the node takes it and, when it is waited for, includes it in time; one that times out is an error here as in the source, and what it carries is not recorded. Neither that the estimate loop of the relayer ends nor that what is sent equals the batch is claimed, since the code keeps neither; the contract says what is captured and that nothing is lost.
- Bundler.SortByNonce: modelled as an arbitrary permutation, because its comparator is not a strict weak order and the result of Go's stable sort under it is unspecified; nonce order is not claimed.
- BatchChecks.Standalone.PaymasterDeposit: coverage of what is left is claimed exactly under the condition of `DepositsLeft.LeftIsCoveredIff`, since the code does not always keep it.
- Mempool.MempoolInstance.ClearAll: the source drops the whole database, with the reputation counters and code hashes in it; that part is in `Client.Debug.ClearState`.
- ExecutionTracer.Tracer.OnStep: does not model the extraction of the operation event from LOG opcodes, which no gas figure depends on.
- GasForwarding.RequiredIsEnough: call stipends are not modelled; a call passes on all but one 64th of what remains and nothing more.
- AiOp.NewOfToJson: JSON is a record of field values; the text of JSON itself, fractional numbers and underscores in integer texts are not modelled.
- Expire.ExpireHandler.DropExpired: the operation hash is an arbitrary function, so distinct operations are not assumed to have distinct hashes.
- Bundler.BundlerInstance.Process: the module order is that of private mode; the builder of searcher mode is covered by `Relayer.SendAiOperation` for the batch and by `BaseFee` for its projection, its broadcasting is not modelled. Logging and metrics are left out.
- Reputation.ReputationStore.CheckStatus: requires an inclusion-rate denominator of at least 1, as a zero one panics. Stored counters are records rather than separated text, and negative overrides are excluded.
- SubmissionRuns.UnstakedAddressesStayWithinLimits: runs are sequential; HTTP handlers interleaving with the bundler are not modelled, and check-then-add is not atomic in the source.
- MempoolQueue.AddToPoolAsMaps: nonces of 2^63 and more enter scores through an arbitrary function, and the skip list behind a sorted set is a sorted sequence with an arbitrary order of ties.
- GasEstimate.Search: the two searches of the estimator share one method; their one difference, which errors count as too low and what is asked, is its parameter.
- ExecutionTracer.RunBody: amounts are unbounded integers, so the loss of JavaScript numbers above 2^53 is not modelled.
- StorageSlots.Process: slots are texts of integers, as the tracer prints them; a slot that does not parse can make the source panic. Keccak preimages that give an entity its slots are an input.
- BaseFee.ProjectBaseFee: a missing base fee makes the source panic and is excluded by the type.
- Client.ClientInstance.SendAiOperation: the checks of single fields and the simulation are answers; parsing the operation and the middleware's text is not part of it.
- Badger, RPC, ABI packing, signing, the alternative-mempool directory and the stake lookup are parameters or answers.
- Field validators that look at one operation only (sender, initCode beyond its factory, fees, verification gas, paymaster stake) are one answer, as they would only add easy members; so are CalcPreVerificationGas and the mean gas price helpers.
