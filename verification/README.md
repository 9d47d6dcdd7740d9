# GembaBlockchain: a verified model of its money rules, codec and load harness

Dafny models of the parts of the repository in which a mistake only shows over whole runs, in rounding
or in bytes, with proofs of what they keep.

| files | subject |
|---|---|
| `MessageTree`, `DailyBond`, `BondRun`, `BondChain` | the daily bond cap of x/valgate: the walk over nested messages, the counter, and runs of transactions with rollback, EVM calls and day changes |
| `Wire`, `Schema`, `RoundTrip`, `Messages` | the generated Protocol Buffers code for the reward parameters and the two governance messages |
| `Nonces`, `Sending`, `Collector`, `Credits`, `HarnessRun`, `Window`, `Harness` | the confirmation-gated load harness against a chain that mines, reverts and loses transactions |
| `NftShelf`, `NftRun` | the harness's NFT workflows: queues, offers, purchases, cancellations, stakes |
| `Bank`, `SlashFunds`, `Formula`, `Streams`, `MoneyRun`, `Wiring`, `App`, `Runway` | the bank, the slash redirect, the reward formula and its rounds, the begin-block flows, their order, and how long the reserve lasts |
| `Notifier`, `TokenBucket`, `Cooldown` | the Nakamoto count and the sales cursor, the rate limiter, the faucet's cooldown |
| `Sums`, `Wrappers` | sums over maps, optional values and outcomes |

Code that changes state is a class or a method with loops, proved against a function of the old state;
the theorems are about those functions and about all runs of them. `dafny verify dfyconfig.toml` checks
everything.

## Findings

Where the code and its documentation differ, the model follows the code.

- The reward formula applies the floor before the cap. It is the documented `max(floor, min(cap, x))`
  exactly when the cap is not below the floor; parameters with a zero cap and a positive floor pass
  validation and pay nothing (`Formula.ValidDocumentedIff`).
- A daily reward budget below one unit per block rounds down to zero per block, which stands for "no
  budget": the budget then holds only if nobody is ever paid (`Formula.DailyBudgetIff`).
- The counter of the daily cap misses what is bonded while the cap is lifted (`BondRun.CounterIsTotalIff`).
- Without a cap the reported remainder is 2^64-1 base units, under 19 GMB (`DailyBond.NoCapReportsLessThanDefault`).
- The in-flight window keeps the next nonce near the mined ones exactly as long as the in-flight count covers
  the gap between them (`Window.WindowHoldsIff`, `Window.CoveredIffCalm`). Three things uncover it: a hard
  submit failure, a refused nonce, and a resync before the block scan (`Nonces.HardFailureLeaks`,
  `Nonces.RefusedNonceLeaks`, `Nonces.LateScanLeaks`).
- A cooldown holder that releases late may delete another holder's record; it does harm exactly if another kept
  grant of the key is young (`Cooldown.HarmfulIff`).
- A sales cursor of 0 counts as unset. After a scan at height 0, block 0 is scanned twice, or blocks are never
  scanned at all (`Notifier.SeenOnceIff`, `Notifier.GenesisIsForgotten`).
- Redirecting slashed stake is indistinguishable from burning it exactly until the faucet makes a payment that
  needs it (`SlashFunds.RedirectSimulatesBurning`).
- The ante's answer on the daily cap is not final for a transaction with EVM frames
  (`BondRun.PostHandlerKeepsIff`).

## Assumptions

- Staking refuses amounts that are not positive, and the days of blocks never go back.
- Execution of a transaction is a given outcome; its messages, post-handler and store branch are kept or
  dropped together, and the EVM journal undoes what a reverted frame charged.
- Products of decimals with integers are exact: `floor(raw * amount / 10^18)`.
- From height 2 on distribution empties the fee collector; modules other than the four of the money chain
  leave faucet, fee collector, reserve and buffer alone; fees are not paid by these accounts.
- The contracts of the harness keep a balance per wallet, credit deposits one to one and refuse what is
  not there; an NFT contract moves a token only from where it is. There are no reorganisations, and a
  signed transaction is determined by its wallet and nonce.
- A library sort returns its input in descending order; clocks do not go back.

## Model

| member | source | states |
|---|---|---|
| MessageTree.CheckMsgs | chain/x/valgate/ante.go:121-157 | the recursive walk returns the first fault of the flattened tree; it returns none if and only if every message decodes, every Exec stands above depth 6, and every creation at any depth has bond and self-delegation of at least the minimum and a bond within the maximum, if one is set |
| MessageTree.CollectBondIncreases | chain/x/valgate/ante.go:77-113 | the recursive walk with its growing accumulator equals merging the flattened list; it succeeds if and only if every message decodes and every Exec stands above depth 6 |
| MessageTree.Add | chain/x/valgate/ante.go:81-93 | adding one increase in the loop is one step of the merge, whatever the position of the validator |
| MessageTree.MergedIsDistinctInOrder | chain/x/valgate/ante.go:69-93 | the merged list holds each validator once, in order of first appearance |
| MessageTree.MergeKeepsSums | chain/x/valgate/ante.go:69-93 | for every validator the merged list carries exactly the sum of the flattened list |
| MessageTree.EntryIsSum | chain/x/valgate/ante.go:63-67 | in a list with distinct validators an entry is that validator's whole sum |
| MessageTree.AcceptedIff | chain/x/valgate/ante.go:118-157 | acceptance, in terms of the messages and the bounds alone: what has to decode, how deep an Exec may stand, and the three conditions on every creation |
| MessageTree.RefusalNamesTheFirst | chain/x/valgate/ante.go:121-157 | the error is the one of the first message that breaks a bound, for each of the five errors |
| MessageTree.NodesArePaths | chain/x/valgate/ante.go:118-157 | the messages so judged are exactly those that a path of positions through nested messages leads to, each at the depth of its path |
| MessageTree.WhatIsCollected | chain/x/valgate/ante.go:94-113 | every delegation and every destination of a redelegation counts in full wherever it stands, nested or not, and no other message counts |
| MessageTree.AcceptedIsCollectable | chain/x/valgate/ante.go:50-61 | once checkMsgs accepts, collecting the increases never errors |
| DailyBond.Keeper.SetParams | chain/x/valgate/keeper/keeper.go:169-175 | parameters are stored if and only if they validate, else nothing changes |
| DailyBond.Keeper.Inspect | chain/x/valgate/keeper/keeper.go:115-128 | succeeds if and only if the amount fits under the cap of the day; reports limit and use, and both in the error |
| DailyBond.Keeper.CheckAndRecordDailyBond | chain/x/valgate/keeper/keeper.go:82-92 | accepts if and only if within the cap, records exactly the charge then and nothing otherwise |
| DailyBond.Keeper.CheckDailyBond | chain/x/valgate/keeper/keeper.go:106-109 | gives the same answer and writes nothing |
| DailyBond.Keeper.RemainingDailyBond | chain/x/valgate/keeper/keeper.go:132-142 | under a cap, a positive amount passes the check if and only if it is at most the result; without one the result is 2^64-1 |
| DailyBond.ChargeIsLocal | chain/x/valgate/keeper/keeper.go:145-162 | a charge is visible to its own validator on its own day only, and adds exactly its amount |
| DailyBond.AnteAgreesWithPost | chain/x/valgate/ante.go:50-61 | from any counters, all independent read-only checks pass if and only if the sequential check-and-record of the same list of distinct validators passes |
| DailyBond.UnmergedListSplitsTheTwo | chain/x/valgate/ante.go:44-61 | without the merge the two differ: two entries of 30 GMB for one validator pass the first and fail the second |
| DailyBond.RemainingIsExactIff | chain/x/valgate/keeper/keeper.go:130-142 | a positive amount passes iff it is at most the reported remainder, exactly when there is a cap or the amount is at most 2^64-1 |
| DailyBond.NoCapReportsLessThanDefault | chain/x/valgate/keeper/keeper.go:130-135 | counterexample to the promise of a huge number: with no cap the report is smaller than under the default cap, while more passes |
| BondRun.ChargeAllEffect | chain/x/valgate/posthandler.go:49-62 | charging a list of distinct validators adds each amount to its own counter and leaves every counter it touched within the cap |
| BondRun.MsgsEffect | chain/x/valgate/keeper/staking_msgserver.go:36-54 | running any messages, with EVM frames that charge themselves and may revert, keeps ledger minus counter equal to the increases still to be charged |
| BondRun.CommitIsLevel | chain/x/valgate/posthandler.go:45-72 | after the post-handler every counter equals what was committed under a cap that day, and each validator that gained is within the cap |
| BondRun.NextKeepsInv | chain/x/valgate/posthandler.go:45-72 | every step keeps the invariant: delivery with rollback, CheckTx, simulation, EVM calls, parameter changes and day changes |
| BondRun.FailuresChargeNothing | chain/x/valgate/posthandler.go:45-49 | a transaction that the ante refuses, that fails to execute or that staking refuses leaves ledger and counters as they were; so do mempool checks, simulations and EVM calls |
| BondRun.WhatIsBonded | chain/x/valgate/ante.go:69-76 | running messages bonds each delegation and redelegation in full wherever it stands, runs frames that do not revert, and bonds nothing else |
| BondRun.WhatAFrameDoes | chain/x/valgate/keeper/staking_msgserver.go:33-54 | a precompile call in a frame bonds and charges exactly if staking takes it and it fits under the cap; nested frames run in place unless they revert |
| BondRun.AnteIff | chain/x/valgate/ante.go:27-61 | the ante passes if and only if the tree is within bounds and, outside of simulation, the sum of what each validator would gain fits under the cap |
| BondRun.CommitsIff | chain/x/valgate/posthandler.go:45-72 | a transaction commits if and only if the ante passes, it executes, and each validator's sum still fits after its messages have run |
| BondRun.LaunchEntry | chain/x/valgate/types/params.go:26-34 | under the launch parameters a creation passes if and only if it bonds 1,000 to 10,000 GMB and commits itself to at least 1,000 |
| BondRun.LaunchIncrease | chain/x/valgate/types/params.go:26-34 | and a first delegation or redelegation to a validator on a day passes if and only if it is at most 50 GMB |
| BondRun.EveryRunIsCapped | chain/x/valgate/posthandler.go:45-72 | over every run from genesis the counter of the day equals the committed capped total of every validator, and each entry left its day within the cap then in force |
| BondRun.DayNeverExceedsLargestCap | chain/x/valgate/keeper/keeper.go:115-128 | over every run, day and validator, what was bonded under caps not above L does not exceed L |
| BondRun.CounterIsTotalIff | chain/x/valgate/keeper/keeper.go:82-92 | the counter equals everything bonded today if and only if nothing was bonded today while the cap was lifted |
| BondRun.LiftedCapLeavesNoTrace | chain/x/valgate/keeper/keeper.go:87-89 | a concrete run in which 1050 GMB are bonded on a day whose counter says 50 |
| BondRun.AnteIsFinalWithoutEvm | chain/x/valgate/posthandler.go:14-62 | without EVM messages, a transaction that passed the ante and executed is never undone by the post-handler |
| BondRun.PostHandlerKeepsIff | chain/x/valgate/posthandler.go:49-62 | in general such a transaction is kept if and only if each validator's merged increase fits the counters as the EVM frames left them |
| BondRun.FrameOvertakesAnte | chain/x/valgate/posthandler.go:55-58 | a concrete transaction that passes the ante, executes and is undone, since its own EVM frame used up the cap |
| BondChain.Chain.PrecompileStake | chain/x/valgate/keeper/staking_msgserver.go:36-54 | check and record, then the inner call: it succeeds if and only if staking takes it and it fits under the cap, and then bonds and charges exactly its amount; a refusal leaves the ledger alone |
| BondChain.Chain.RunFrame | chain/x/valgate/keeper/staking_msgserver.go:33-43 | a frame that reverts puts charges and ledger back, any depth of calls |
| BondChain.Chain.AnteHandle | chain/x/valgate/ante.go:27-42 | the ante's answer is the specified condition and nothing is written |
| BondChain.Chain.PostHandle | chain/x/valgate/posthandler.go:45-72 | charges the collected list in order; refuses if any charge is refused |
| BondChain.Chain.DeliverTx | chain/x/valgate/posthandler.go:45-72 | ante, messages and post-handler in one branch: the new state is the specified step, all or nothing; a failed or refused execution changes neither ledger nor counters |
| Wire.SovIsLength | chain/x/rewardstreamer/types/params.pb.go:212-214 | the size from the highest bit is the length written, for every number |
| Wire.VarintIsGroups | chain/x/rewardstreamer/types/params.pb.go:180-190 | what is written is the shortest list of seven-bit groups of the number, lowest first, with the top bit on all but the last |
| Wire.ReadsBack | chain/x/rewardstreamer/types/params.pb.go:180-190 | reading a written varint gives value and length back, whatever follows and at any shift |
| Wire.ReadVarintFits | chain/x/rewardstreamer/types/params.pb.go:224-238 | what the decode loop returns always fits 64 bits: higher bits are shifted out |
| Wire.ReadVarintExtends | chain/x/rewardstreamer/types/params.pb.go:224-238 | a varint that reads does not depend on what follows it |
| Wire.VarintReadsIff | chain/x/rewardstreamer/types/params.pb.go:224-238 | a varint reads if and only if one of its first ten bytes ends it, its value is that of its groups cut to 64 bits, and otherwise the error says whether it ends early or is too long |
| Wire.DecodeVarint | chain/x/rewardstreamer/types/params.pb.go:224-238 | the index-and-shift loop computes the recursive reading, with overflow after ten bytes and unexpected end as errors |
| Wire.EncodeVarint | chain/x/rewardstreamer/types/params.pb.go:180-190 | writes exactly the varint just before the offset and no other byte of the buffer |
| Wire.Skip | chain/x/rewardstreamer/types/params.pb.go:373-450 | halts on every byte string and equals the recursive skipping of one field with nested groups, error for error |
| Wire.SkipField | chain/x/rewardstreamer/types/params.pb.go:377-445 | one turn of the skipping loop: index and group depth after each wire type, and every error |
| Wire.SkipExtends | chain/x/rewardstreamer/types/params.pb.go:373-450 | skipping a complete field does not depend on what follows |
| Wire.SkipMoves | chain/x/rewardstreamer/types/params.pb.go:373-450 | nor on where in the input it starts |
| RoundTrip.FieldBack | chain/x/rewardstreamer/types/params.pb.go:218-372 | decoding one encoded field, of any kind and nested to any depth, sets exactly that field |
| RoundTrip.Refuses | chain/x/rewardstreamer/types/params.pb.go:239-262 | decoding fails, with the right error, on an unopened group, field 0, a known field of another wire type and the two undefined wire types |
| RoundTrip.RefusesPayload | chain/x/rewardstreamer/types/params.pb.go:305-332 | and on a payload that its own decoder does not take |
| RoundTrip.DecodesEncoded | chain/x/rewardstreamer/types/params.pb.go:218-372 | decoding the encoding of the fields from k on turns a partly filled message into the full one |
| RoundTrip.UnmarshalMarshal | chain/x/rewardstreamer/types/params.pb.go:125-372 | for every message schema of this template and every typed message, decoding the encoding gives the message |
| RoundTrip.DecodeConcat | chain/x/rewardstreamer/types/params.pb.go:218-372 | decoding a concatenation is decoding the parts one after the other |
| RoundTrip.SkipsOneField | chain/x/rewardstreamer/types/params.pb.go:373-450 | every field generated by the grammar of unknown fields, with balanced groups nested to any depth, is skipped whole |
| RoundTrip.StepOverUnknown | chain/x/rewardstreamer/types/params.pb.go:352-366 | one turn of the field loop over such a field changes no field of the message |
| RoundTrip.UnknownFieldIsIgnored | chain/x/rewardstreamer/types/params.pb.go:352-372 | splicing a well-formed unknown field after any decodable beginning and before any bytes changes neither success nor result |
| Messages.ParamsSizeIsExact | chain/x/rewardstreamer/types/params.pb.go:191-211 | Size is the exact length of the encoding |
| Messages.UpdateParamsSizeIsExact | chain/x/rewardstreamer/types/tx.pb.go:597-611 | Size of the message with a nested message is exact |
| Messages.UpdateFormulaSizeIsExact | chain/x/rewardstreamer/types/tx.pb.go:621-651 | Size of the eight-field message is exact |
| Messages.ParamsLayout | chain/x/rewardstreamer/types/params.pb.go:140-178 | the encoding is, byte for byte, tags 0x08, 0x12, 0x1a and 0x20 with their members in this order, zero members left out |
| Messages.UpdateParamsLayout | chain/x/rewardstreamer/types/tx.pb.go:423-446 | tag 0x0a with the authority, tag 0x12 with the nested params |
| Messages.UpdateFormulaLayout | chain/x/rewardstreamer/types/tx.pb.go:486-561 | the eight tags 0x0a to 0x42, each with its own member: 0x22 with the floor, 0x2a with the cap |
| Messages.ParamsReads | chain/x/rewardstreamer/types/params.pb.go:218-372 | a single field of any of the four tags sets its own member of any message and no other |
| Messages.UpdateParamsReads | chain/x/rewardstreamer/types/tx.pb.go:667-781 | the same for the two tags, where the nested params are merged into those that are there |
| Messages.UpdateFormulaReads | chain/x/rewardstreamer/types/tx.pb.go:832-1120 | the same for the eight tags: 0x22 sets the floor, 0x2a the cap |
| Messages.ParamsToSizedBuffer | chain/x/rewardstreamer/types/params.pb.go:140-178 | the back-to-front writer puts exactly the front-to-back encoding before the end and touches nothing else |
| Messages.UpdateParamsToSizedBuffer | chain/x/rewardstreamer/types/tx.pb.go:423-446 | the same with the nested message written in place before its length and tag |
| Messages.UpdateFormulaToSizedBuffer | chain/x/rewardstreamer/types/tx.pb.go:486-561 | the same for eight fields |
| Messages.MarshalParams | chain/x/rewardstreamer/types/params.pb.go:125-133 | the sized buffer is filled entirely by the encoding, spelled out tag by tag from the members |
| Messages.MarshalUpdateParams | chain/x/rewardstreamer/types/tx.pb.go:408-416 | the sized buffer is filled entirely by the encoding, spelled out tag by tag from the members |
| Messages.MarshalUpdateFormula | chain/x/rewardstreamer/types/tx.pb.go:471-479 | the sized buffer is filled entirely by the encoding, spelled out tag by tag from the members |
| Messages.UnmarshalParams | chain/x/rewardstreamer/types/params.pb.go:218-372 | the decode loop computes the decoding of the schema, error for error, and returns the one message with the decoded members |
| Messages.UnmarshalUpdateParams | chain/x/rewardstreamer/types/tx.pb.go:667-781 | the same with the recursive call for the nested message |
| Messages.UnmarshalUpdateFormula | chain/x/rewardstreamer/types/tx.pb.go:832-1120 | the same for eight fields |
| Messages.ParamsBack | chain/x/rewardstreamer/types/params.pb.go:125-372 | decoding the encoding of any Params gives it back |
| Messages.UpdateParamsBack | chain/x/rewardstreamer/types/tx.pb.go:408-446 | decoding the encoding of any MsgUpdateParams gives it back |
| Messages.UpdateFormulaBack | chain/x/rewardstreamer/types/tx.pb.go:471-561 | decoding the encoding of any MsgUpdateFormulaParams gives it back |
| Messages.ParamsRoundTrip | chain/x/rewardstreamer/types/params.pb.go:125-372 | the two programs in sequence, buffer and loops: Unmarshal(Marshal(m)) is m |
| Messages.UpdateParamsRoundTrip | chain/x/rewardstreamer/types/tx.pb.go:667-781 | the two programs in sequence give the message back |
| Messages.UpdateFormulaRoundTrip | chain/x/rewardstreamer/types/tx.pb.go:832-1120 | the two programs in sequence give the message back |
| Nonces.NonceManager.TakeNonce | endurance/lib/nonceManager.js:14-19 | hands out the counter and advances it and the in-flight count |
| Nonces.NonceManager.SettleOne | endurance/lib/nonceManager.js:20-20 | lowers the in-flight count, not below zero |
| Nonces.NonceManager.ResyncTo | endurance/lib/nonceManager.js:24-31 | moves the counter forward to the read count, never back |
| Nonces.NoncesIncrease | endurance/lib/nonceManager.js:14-31 | a wallet never gets a nonce twice, in any interleaving with settling and resyncs that read an old count |
| Nonces.NonceManager.MaySend | endurance/lib/nonceManager.js:13-13 | a wallet may send if and only if its in-flight count is below the window |
| Nonces.WindowBoundsGapIff | endurance/lib/nonceManager.js:1-5 | with a count within the window: whatever the window still lets through keeps next minus mined within the cap, if and only if the count covers the gap now |
| Nonces.LevelIff | endurance/lib/nonceManager.js:14-31 | sends and mining keep the gap covered; a resync does exactly if it reads no more than is mined; a settling exactly if there is no gap or room above it |
| Nonces.HardFailureLeaks | endurance/scripts/run.js:178-180 | a hard failure settles without a resync and uncovers the gap |
| Nonces.RefusedNonceLeaks | endurance/scripts/run.js:172-172 | a refused nonce is resynced truthfully and settled once more, which uncovers the gap |
| Nonces.LateScanLeaks | endurance/scripts/run.js:40-40 | a truthful resync before the block scan, which settles again, uncovers the gap |
| Window.StepIff | endurance/scripts/run.js:161-184 | every step of harness and chain leaves a covered gap covered if and only if the event is calm: no node claims more than is mined and the count has room for the event's settlings |
| Window.CoveredIffCalm | endurance/scripts/run.js:161-184 | over every run the gap stays covered at each prefix if and only if every event is calm when it comes |
| Window.WindowBoundsTheGap | endurance/lib/nonceManager.js:1-5 | over every run of calm events, with sends only by wallets picked while the window had room, the next nonce never outruns the mined ones by more than the window, though the check may be out of date when the send happens |
| Window.WindowHoldsIff | endurance/scripts/run.js:159-159 | from any state with a window not overfull, picking and sending can pass the cap if and only if the gap is not covered |
| Window.FailuresOutrunTheWindow | endurance/scripts/run.js:178-180 | the failing run, for every n: n hard failures leave the window free and the next nonce n ahead of the mined one |
| Sending.SendRaw | endurance/lib/tx.js:31-56 | the retry loop: one nonce for all attempts, the outcome and number of broadcasts of the specification, a resync only when dropped |
| Sending.TheLastReplyDecides | endurance/lib/tx.js:10-55 | at most four broadcasts; all but the last were transient; accepted, benign and refused-nonce replies are told apart exactly, and a reply that means the pool has it is never a failure |
| Collector.ReceiptCollector.TrackTx | endurance/lib/receiptCollector.js:17-21 | a tracked transaction enters the map with its deadline |
| Collector.ReceiptCollector.ScanBlock | endurance/lib/receiptCollector.js:45-64 | the loop over a block's hashes moves exactly the tracked ones to mined and queues a receipt job for each |
| Collector.ReceiptCollector.SweepAll | endurance/lib/receiptCollector.js:110-131 | the sweep over the map while deleting from it: one re-broadcast, then a timeout; returns exactly what left the map |
| Collector.ReceiptCollector.ReceiptTurn | endurance/lib/receiptCollector.js:65-86 | an answered receipt decides as it was answered and leaves the queue; an unanswered one is queued again at the end with one more try, up to four, and then decides failure |
| Collector.AnswerDecides | endurance/lib/receiptCollector.js:65-86 | the same for a job at any place of the queue: what is decided, what stays queued, and that nothing else changes |
| Collector.ScanTakes | endurance/lib/receiptCollector.js:45-64 | a block takes exactly its own transactions off the map, counts each once and queues one receipt for each |
| Collector.SweepOnEach | endurance/lib/receiptCollector.js:110-131 | what a sweep does to any one entry: nothing if not overdue, one more window if it can be sent again, a timeout otherwise |
| Collector.AnswerKeepsInv | endurance/lib/receiptCollector.js:65-86 | answering any queued job keeps the accounting, also with several workers |
| Collector.SweepKeepsInv | endurance/lib/receiptCollector.js:110-131 | a sweep keeps submitted = mined + timed out + in flight, one settle and at most one re-broadcast each, and times out only after two full windows |
| Collector.ScanKeepsInv | endurance/lib/receiptCollector.js:45-64 | so does scanning a block, with repeated and unknown hashes in it |
| Credits.Workload.Build | endurance/config/workloads.js:59-60 | a withdrawal is built if and only if the confirmed credit covers it, and then debits it by exactly its amount; no other credit changes |
| Credits.Workload.OnResolve | endurance/scripts/run.js:43-43 | the deferred credit is applied only on success, to its own account and in its own amount, and removed in any case |
| Credits.OwedUpdate | endurance/config/workloads.js:59-60 | how one transaction's change shifts what an account is owed in total |
| HarnessRun.NextKeeps | endurance/scripts/run.js:161-184 | every step keeps the invariant of harness and chain together: build, accept, drop, fail, mine, scan, receipt, sweep, nonce calls |
| HarnessRun.BalancesAreAccountedFor | endurance/config/workloads.js:119-123 | in every reachable state on-chain balance = opening balance + local credit + outstanding withdrawals + uncredited deposits, and the credit is never negative |
| HarnessRun.WithdrawalsAreCovered | endurance/config/workloads.js:78-79 | in every interleaving a withdrawal that has not been mined finds its amount on chain, also after a drop, a loss or a timeout |
| HarnessRun.EveryTransactionSettlesOnce | endurance/lib/receiptCollector.js:17-64 | over every run submitted = mined + timed out + in flight; each settles at most once, is re-sent at most once and times out only after more than two windows |
| HarnessRun.OverdueSettles | endurance/lib/receiptCollector.js:110-131 | and it does settle: an entry that a sweep meets past its window, and another one more than a window later, has left the map and is settled by one call, whatever happened in between |
| HarnessRun.NoNonceIsSignedTwice | endurance/lib/nonceManager.js:14-31 | in every reachable state the next signed transaction has a wallet and nonce that none before it had |
| HarnessRun.EveryRunKeepsOpen | endurance/lib/receiptCollector.js:59-85 | in every reachable state the effect of a tracked deposit stays deferred until its receipt or a timeout decides it |
| HarnessRun.ReceiptDecides | endurance/lib/receiptCollector.js:77-83 | in every reachable state a receipt that says success raises the credit of its deposit's account by exactly the deposit, any other receipt changes no credit; the deposit is decided and the job done |
| HarnessRun.UnreadReceiptWaits | endurance/lib/receiptCollector.js:72-75 | a receipt that cannot be read changes no credit and stays queued up to four times |
| HarnessRun.CreditsMoveOnlySo | endurance/scripts/run.js:43-43 | a credit rises only by a receipt that says success for a deposit that succeeded on chain, and falls only by building a withdrawal, by its amount |
| HarnessRun.LeavingSettles | endurance/scripts/run.js:40-40 | a block and a sweep lower the in-flight count of each wallet by the number of its transactions that leave the map |
| HarnessRun.SendingEnds | endurance/scripts/run.js:171-180 | an accepted submit is tracked with its deadline and its deposit deferred; a failed one lowers the in-flight count and does nothing else |
| Harness.Engine.NextSigner | endurance/scripts/run.js:159-159 | a wallet is picked if and only if its window has room |
| Harness.Engine.Fire | endurance/scripts/run.js:161-171 | building for the picked wallet and taking a nonce in one turn is the machine's step, or nothing happens |
| Harness.Engine.Accept | endurance/scripts/run.js:174-177 | tracking and remembering the deferred effect is the machine's step: the hash is in flight and its deposit deferred |
| Harness.Engine.Drop | endurance/scripts/run.js:171-173 | a dropped submit settles after an optional resync |
| Harness.Engine.Resync | endurance/scripts/run.js:40-40 | the count a timeout asked for moves the counter forward |
| Harness.Engine.Fail | endurance/scripts/run.js:178-180 | a failed submit settles without a resync |
| Harness.Engine.SeeBlock | endurance/scripts/run.js:40-40 | scanning a block and settling its wallets is the machine's step |
| Harness.Engine.SweepOnce | endurance/lib/receiptCollector.js:110-131 | a sweep with its settle and resolve callbacks is the machine's step |
| Harness.Engine.FetchReceipt | endurance/lib/receiptCollector.js:65-86 | a receipt turn with its resolve callback is the machine's step: an answered success credits the deferred deposit in full, anything else credits nothing |
| NftShelf.PickIsTheFirstWanted | endurance/config/workloads.js:105-106 | the windowed search returns the first wanted offer, and nothing only if the window has none |
| NftShelf.SkipTakenStops | endurance/config/workloads.js:100-100 | the cursor passes taken offers only and stops at the first untaken one |
| NftShelf.NftState.ApplyMint | endurance/config/workloads.js:109-109 | a batch is pushed id by id and the cap is checked once: all ids in order, without the head if that makes more than 300 |
| NftShelf.NftState.ApplyList | endurance/config/workloads.js:104-104 | an offer is appended; beyond 6000 the last 3000 stay and the cursor starts over |
| NftShelf.NftState.Buy | endurance/config/workloads.js:105-105 | marks the first untaken offer of somebody else among 400 from the cursor on, or only moves the cursor |
| NftShelf.NftState.Cancel | endurance/config/workloads.js:106-106 | marks the first untaken own offer among the first 200, or changes nothing |
| NftRun.NextKeeps | endurance/config/workloads.js:98-111 | every step of building, mining and applying keeps the invariant, across queue caps, truncation and cursor resets |
| NftRun.BuildingTakesTheFirst | endurance/config/workloads.js:98-111 | what is built uses the head of a queue, or fresh ids for a mint, and takes nothing else off the shelf |
| NftRun.MiningMoves | endurance/config/workloads.js:1-12 | a transaction that goes through gives its tokens to the right holder and touches no other token |
| NftRun.ApplyingRecords | endurance/config/workloads.js:98-111 | what went through is recorded in full: minted ids in order, staked ids, offers; only the head of a queue past 300 and the oldest of more than 6000 offers are given up |
| NftRun.NoIdInTwoStages | endurance/config/workloads.js:98-111 | in every reachable state an id is in one queue position, one untaken offer or one open transaction, never two |
| NftRun.QueuedIsOwned | endurance/config/workloads.js:51-52 | a queued id is owned on chain by its queue's wallet (or staked by it, or in escrow for its seller) and no move of it is outstanding |
| NftRun.EveryMoveIsAccepted | endurance/config/workloads.js:1-12 | whenever a transaction executes, however late, the contract finds each token where the harness believed it: nothing reverts for that reason |
| NftRun.EachStepOnce | endurance/config/workloads.js:104-106 | each offer is bought or cancelled at most once, each id leaves its queue at most once and is minted at most once |
| NftRun.NothingToBuyMeansNoneNear | endurance/config/workloads.js:105-105 | a wallet that finds nothing has no untaken offer of others within a window of the first untaken one, nor before the cursor |
| Bank.MoveKeepsSupply | chain/testutil/bankfake.go:87-99 | a move keeps the supply of every denomination, also from an account to itself |
| Bank.BurnLowersSupply | chain/testutil/bankfake.go:108-121 | a burn lowers the supply by exactly its amount |
| Bank.MoveBalance | chain/testutil/bankfake.go:87-99 | what a move does to every account |
| Bank.MoveTransfers | chain/testutil/bankfake.go:87-99 | a transfer of one denomination goes through if and only if it is held, and then changes the two balances by its amount and nothing else |
| Bank.BankKeeper.Send | chain/testutil/bankfake.go:87-99 | moves all or refuses and changes nothing |
| Bank.BankKeeper.BurnCoins | chain/testutil/bankfake.go:113-121 | burns all or refuses and changes nothing |
| Bank.BankKeeper.GetSupply | chain/testutil/bankfake.go:77-83 | the loop over all accounts, in any order, computes the sum of the balances |
| SlashFunds.SlashBank.BurnCoins | chain/x/slashfunds/keeper.go:78-97 | a burn from either staking pool moves to the faucet, any other burn passes through; stated over the balance of every account |
| SlashFunds.RedirectSimulatesBurning | chain/x/slashfunds/keeper.go:74-97 | over any operations, every success or refusal is as in the burning run if and only if no payment out of the faucet needs slashed stake; then all balances agree, with the faucet ahead by exactly what was slashed |
| SlashFunds.UntouchedFaucetPaysItsOwn | chain/x/slashfunds/keeper.go:74-97 | in particular over operations that never debit the faucet |
| SlashFunds.SupplyExceedsBySlashed | chain/x/slashfunds/keeper.go:1-24 | as long as no payment needs slashed stake, the supply exceeds the burning run's by exactly what was slashed |
| SlashFunds.SlashingKeepsSupply | chain/x/slashfunds/keeper.go:1-24 | without minting and foreign burns the supply never changes over any run |
| SlashFunds.FaucetPaymentsTellThemApart | chain/x/slashfunds/keeper.go:74-97 | a concrete payment that needs slashed stake and tells the two runs apart |
| Formula.DocumentedIff | chain/x/rewardstreamer/types/formula.go:51-65 | the code equals the documented max(floor, min(cap, x)) on a positive stake if and only if the cap is not below the floor |
| Formula.ValidDocumentedIff | chain/x/rewardstreamer/types/formula.go:86-110 | for parameters that validate: if and only if the cap is non-zero or the floor is zero |
| Formula.MoreStakeEarnsNoLess | chain/x/rewardstreamer/types/formula.go:53-74 | more stake never earns less per day or block, and nobody more than the cap or its share of a day |
| Formula.Rescale | chain/x/rewardstreamer/keeper/formula_stream.go:65-71 | rescaling the allocations in place scales each by limit over total, and sums them |
| Formula.BuildRound | chain/x/rewardstreamer/keeper/formula_stream.go:38-75 | the loops build the specified round and its total |
| Formula.ScaledRoundIsTight | chain/x/rewardstreamer/keeper/formula_stream.go:58-75 | a round over its limit L with n allocations comes out in (L-n, L] |
| Formula.RoundFits | chain/x/rewardstreamer/keeper/formula_stream.go:58-75 | a round never exceeds the reserve, nor a budget that is set |
| Formula.RoundPays | chain/x/rewardstreamer/keeper/formula_stream.go:42-75 | each validator is paid its daily reward divided by the blocks of a day, to the unit, or its pro-rata part of the reserve or the block budget if the round asks for more |
| Formula.RoundIsFair | chain/x/rewardstreamer/keeper/formula_stream.go:42-75 | in every round a larger stake is never paid less, and nobody gets more than the unscaled reward or cap divided by blocks per day |
| Formula.DailyBudgetIff | chain/x/rewardstreamer/types/formula.go:76-84 | over any blocks of a day the drain is within MaxTotalPerDay if and only if that is at least BlocksPerDay or nobody is ever paid |
| Formula.TinyBudgetIsNoBudget | chain/x/rewardstreamer/types/formula.go:76-84 | under the default rates and any budget below 28,800 units, one validator with 1,000 GMB is paid more than the day's budget in one block |
| Streams.SplitDivides | chain/x/feesplit/keeper/split.go:31-44 | a valid ratio never overdraws; per denomination the faucet gets the floor of its share, the rest stays, and no other account is touched |
| Streams.FeeSplit.SplitFeesOnce | chain/x/feesplit/keeper/split.go:20-52 | the loop over the denominations and the transfer: all shares move, or nothing does |
| Streams.FeeSplit.BeginBlock | chain/x/feesplit/keeper/abci.go:11-32 | a refusal or panic is swallowed and nothing has moved |
| Streams.StreamPays | chain/x/tailreward/keeper/stream.go:24-50 | over balances: a stream moves the smaller of slice and balance from its account to the fee collector and changes no other balance; only the bank stops it |
| Streams.StreamOnce | chain/x/rewardstreamer/keeper/stream.go:18-59 | the legacy stream and the tail stream: the early exits, then the smaller of slice and balance goes to the fee collector, and nothing else moves |
| Streams.RewardStreamer.CreditAll | chain/x/rewardstreamer/keeper/formula_stream.go:83-91 | credits in order until distribution refuses one; what was credited before stays |
| Streams.FormulaPays | chain/x/rewardstreamer/keeper/formula_stream.go:77-81 | over balances: a round moves its total from the reserve to distribution and changes no other balance |
| Streams.RewardStreamer.StreamFormulaRewards | chain/x/rewardstreamer/keeper/formula_stream.go:23-93 | the whole stream with every early exit and every partial failure; the round goes from the reserve to distribution, and no other balance changes |
| Streams.RewardStreamer.BeginBlock | chain/x/rewardstreamer/keeper/abci.go:16-43 | dispatches between formula and legacy stream and swallows errors; states which account pays which, and how much, in each case |
| Streams.TailReward.BeginBlock | chain/x/tailreward/keeper/abci.go:14-32 | the tail stream with any failure swallowed: the buffer pays the fee collector what is due or nothing |
| App.Modules.Start | chain/x/wiring/order.go:34-37 | the application starts if and only if the order is accepted |
| App.Modules.BeginBlock | chain/x/wiring/order.go:1-13 | the modules on one bank, run in any order of names, do what the specified block does |
| MoneyRun.SupplyIsConstant | chain/x/rewardstreamer/keeper/abci.go:16-43 | over every run of blocks in any module order, slashes, transfers and parameter updates, with any failure swallowed, the supply of each denomination is constant |
| MoneyRun.CreditAtMostTotal | chain/x/rewardstreamer/keeper/formula_stream.go:83-91 | a round credits at most what it moved, and all of it if no allocation fails |
| MoneyRun.CreditGoesToEach | chain/x/rewardstreamer/keeper/formula_stream.go:83-91 | each validator is credited what the round holds for it if no allocation fails, and never more |
| MoneyRun.RoundReachesDistribution | chain/x/rewardstreamer/keeper/formula_stream.go:77-92 | a round raises the balance of distribution by what it takes from the reserve, leaves every other account alone and credits no more than that, exactly that without refusals |
| MoneyRun.CreditsAreCovered | chain/x/rewardstreamer/keeper/formula_stream.go:77-92 | over every run validators are credited at most what the account of distribution gained while the reward module ran, exactly that if no allocation failed |
| MoneyRun.DistributionHoldsCredits | chain/x/rewardstreamer/keeper/formula_stream.go:77-92 | over every run distribution holds or has paid out at least what it has credited, on top of what it held at first |
| MoneyRun.DistributeTakesAll | chain/x/wiring/order.go:1-13 | from height 2 on distribution empties the fee collector into its own account and touches no other |
| Wiring.ValidateBeginBlockOrder | chain/x/wiring/order.go:38-66 | accepts if and only if the list restricted to the four modules is the required chain; each error names a real violation with its positions |
| Wiring.AcceptedIs | chain/x/wiring/order.go:1-13 | the required chain, by name: feesplit, rewardstreamer, tailreward, distribution |
| Wiring.OnlyTheChainMatters | chain/x/wiring/order.go:34-37 | a block depends on the order of the four modules alone |
| Wiring.AcceptedOrdersAgree | chain/x/wiring/order.go:1-13 | all accepted orders run the same block: split, reward, tail, distribution |
| Wiring.FaucetLivesOnFees | chain/x/feesplit/keeper/split.go:12-19 | under every accepted order, over any run, faucet and fee collector are a function of fees and split parameters alone |
| Wiring.RewardsNeverReachTheFaucet | chain/x/tailreward/keeper/stream.go:24-50 | two runs with the same fees and splits have the same faucet, whatever their reserves, buffers, stakes, reward settings and failures |
| Runway.ReserveLasts | chain/x/rewardstreamer/keeper/formula_stream.go:61-80 | k blocks drain at most k budgets from the reserve, whatever validators there are and whatever fails |
| Runway.DayDrainsAtMostBudget | chain/x/rewardstreamer/types/formula.go:25-31 | any BlocksPerDay blocks drain at most MaxTotalPerDay when that is at least BlocksPerDay |
| Runway.DefaultsLastTenYears | chain/x/rewardstreamer/types/formula.go:36-49 | with the defaults 20,000,000 GMB are not exhausted after 3650 days of 28,800 blocks |
| Runway.LegacyLeavesExactly | chain/x/rewardstreamer/keeper/stream.go:30-58 | after k active blocks exactly max(0, R - k * perBlock) is left |
| Notifier.NakamotoCoefficient | services/blockchain-notifier/src/index.js:84-87 | the greedy count is the minimum size of any set of bonded validators with more than a third of the stake, and the loop leaves by its break whenever there is stake |
| Notifier.LargestHoldMost | services/blockchain-notifier/src/index.js:84-87 | no set of validators holds more than as many of the largest |
| Notifier.SalesWatcher.WatchGmbSales | services/blockchain-notifier/src/index.js:139-164 | one poll scans from the cursor to the tip and moves the cursor only if it succeeds |
| Notifier.EverySaleIsSeenOnce | services/blockchain-notifier/src/index.js:139-164 | if the first poll that goes through finds a height above 0, the scanned ranges are consecutive and end at the cursor, over any other polls, failures and stale heights |
| Notifier.OnePoll | services/blockchain-notifier/src/index.js:139-164 | after any polls, one more keeps the ranges consecutive unless it scans again with the cursor at 0, and then exactly if the tip is 501 |
| Notifier.SeenOnceIff | services/blockchain-notifier/src/index.js:139-164 | over any polls at all: no block is scanned twice or skipped if and only if every scan that follows one at height 0 finds the tip at 501 |
| Notifier.GenesisIsForgotten | services/blockchain-notifier/src/index.js:141-141 | after a scan at height 0 the next one scans block 0 again or, past height 501, leaves out every block up to its look-back |
| TokenBucket.RateLimiter.TakeTurn | endurance/lib/rateLimiter.js:11-17 | one turn of the waiting loop: what has accrued up to the capacity, minus one if that is at least one; else the time in which the missing part accrues, kept between 2 and 100 ms |
| TokenBucket.GrantsInWindow | endurance/lib/rateLimiter.js:2-19 | in any window of T ms in which the rate never exceeds R at most max(1,R) + R*T/1000 takes are granted, from any state and over any rate changes |
| TokenBucket.FullBucketGrantsAtOnce | endurance/lib/rateLimiter.js:4-14 | a full bucket grants its whole capacity at one instant, so the burst term is needed |
| TokenBucket.GrantedOnceEarned | endurance/lib/rateLimiter.js:11-17 | a refused caller is granted at its next turn if and only if what was missing has accrued by then |
| TokenBucket.NobodyWaitsLonger | endurance/lib/rateLimiter.js:7-17 | at rate R > 0 an untouched bucket grants at the latest after 1000 / R milliseconds |
| Cooldown.CooldownLimiter.TryAcquire | services/testnet-faucet/src/ratelimit.js:20-25 | grants if and only if the key is unknown or a cooldown has passed; a refusal changes nothing, a grant records the time and keeps every young entry |
| Cooldown.CooldownLimiter.Sweep | services/testnet-faucet/src/ratelimit.js:38-42 | deleting while iterating leaves exactly the young entries |
| Cooldown.SweepingIsInvisible | services/testnet-faucet/src/ratelimit.js:32-42 | every later query is answered as by a map that never evicts |
| Cooldown.OnlyYoungEntries | services/testnet-faucet/src/ratelimit.js:32-37 | after each acquisition all entries are younger than the cooldown |
| Cooldown.ReleaseUndoes | services/testnet-faucet/src/ratelimit.js:27-30 | acquiring and releasing restores every answer from then on |
| Cooldown.KeptGrantsAreApart | services/testnet-faucet/src/ratelimit.js:19-30 | over every run whose holders give back within one cooldown, or late but harmlessly, two kept grants of a key are at least a cooldown apart |
| Cooldown.InTimeIsHarmless | services/testnet-faucet/src/ratelimit.js:27-30 | a release within one cooldown of its grant is harmless: no other kept grant of the key is young |
| Cooldown.HarmfulIff | services/testnet-faucet/src/ratelimit.js:27-30 | a release is harmless if and only if the next request for the key at that moment leaves kept grants a cooldown apart |
| Cooldown.LateReleaseBreaksIt | services/testnet-faucet/src/ratelimit.js:27-30 | a concrete run with one harmful release in which two kept grants are one millisecond apart |

## Left out

- The encoding of amounts and decimals inside payload fields, nil amounts there and 256-bit overflow: a payload is an opaque byte string, each of the two codecs accepts some of them, and the round trips hold for accepted payloads.
- The or of disjoint bits in the varint loops is written as a sum, with truncation to 64 bits where the code shifts bits out.
- What a message holds after a failed Unmarshal: the error is modelled, the half-filled fields are not.
- Parameters are fields of the state: their JSON or protobuf storage, genesis and the message servers that set them are not modelled. Nil and negative formula values, which validation rejects, are outside the types.
- DailyBond.Keeper.SetParams: how a nil cap is written to the store; cosmossdk.io/math is not part of this model, and a nil cap is read back as the default.
- setDailyBondUsed silently records nothing if an amount fails to marshal: amounts always marshal here.
- Creation stake and cancelled unbonding are not charged by the cap, and the creation hook is not part of this model.
- Gas, fees of a bond transaction, sequence numbers and other ante decorators.
- Messages executed outside transactions and the staking precompile, such as by governance.
- Events, logs, counters for monitoring, notices and their deduplication.
- `sdk.Coins` keeps sorted lists without zeros; the bank here keeps maps in which a zero and an absent denomination mean the same.
- Payments out of the distribution module to validators and delegators: credits are counted, not withdrawn.
- The sleeping between attempts, turns and polls; a turn may come at any time instead.
- Semaphore in `rateLimiter.js`: its counter is not bounded by the maximum when several callers wait.
- HarnessRun.NextKeeps: the semaphore and the rate limiter delay sending; the machine may send at any time after a wallet is picked, which covers more runs.
- Errors thrown by the log writer inside a receipt worker, which would leave a deferred effect unresolved for good.
- Vault and liquidity credits, whose shares round on chain; permit, governance, auction, deployment and clone operations, which depend on wall-clock windows or on queues like those modelled.
- NftRun.NextKeeps: one shelf has the operations of all collections; a real collection uses some of them, and token approvals and prices are not modelled.
- Sending.TheLastReplyDecides: messages are compared as they are after lower-casing.
- Notifier.NakamotoCoefficient: fetching validators, shares, snapshots and alerts around the count are left out.
- The copy of the chain modules under `gemba-validator/`, and the other generated codecs, which follow the same template.
- Front ends, explorer, deployment, mail, database and network code.
