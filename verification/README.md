# A model of the USDB regtest world simulator and its companions

This project models the crash-safe slot executor of the USDB regtest world simulator, the state
machines it drives, and five smaller cores of the same repository, and proves what they promise.
`dafny verify dfyconfig.toml` checks everything.

**The slot executor.** A tick of the simulator has a number of action slots. For each one the process
picks an agent and an action, persists the plan, runs an external command that cannot be undone,
persists what the command printed, updates its memory, persists a receipt together with the updated
memory, books the slot, removes the printed result, and persists the state of the next slot. It may
die between any two writes. The next process reads the last snapshot and replays the recorded
receipt, rebuilds a receipt from the printed result, rebuilds it from what a wallet shows, or gives
the slot up. `SlotProtocol` is that protocol as a transition system: a disk (snapshot and result
files), a process with its memory and program counter, the outside world (the sequence of performed
actions and of mined ticks), and an event per step, with `Crash` and `Restart` possible everywhere.
`CrashRefinement` compares its histories with `DirectSlot`, the slot executed without interruption
(for histories in which, whenever a resumed slot has only its plan, the result file or a wallet shows
what the command printed; `CrashLimits` says what happens otherwise),
and `Simulator` proves the updating methods of the simulator object against the same functions.

| file | contents |
|---|---|
| `World`, `Wrappers`, `Strings` | entities shared by the rest, failure types, trimming and searching |
| `OutputText` | ids read out of printed text |
| `Actions` | the seven actions, receipts, rebuilding and applying receipts |
| `Probe` | what a wallet shows of an action whose result was not persisted |
| `SlotProtocol`, `SlotSafety` | the transition system; at most once, slot accounting |
| `Mining`, `Evidence`, `Expectations` | how often a tick is mined; what is booked was performed, and will be verified |
| `ResultFiles` | what a slot leaves outside the process |
| `Outcomes` | what each action chooses, counts and leaves behind, in terms of the state before |
| `CrashRefinement`, `CrashLimits` | interrupted against uninterrupted ticks; exactly when they differ |
| `ReplayCounts` | the counters of a whole interrupted tick |
| `CrashPoints` | one slot crashed at a chosen point, from any safe state |
| `Ownership`, `Partition` | the pass ownership index against the agents' sets, over whole runs |
| `ChainView` | what a view rebuilt from a listing says |
| `Simulator` | the simulator object, updated in place |
| `ScriptedCycle`, `ValidatorSamples`, `EnergyOracle` | scheduler, samples under reorgs, energy |
| `CanonicalIdentity`, `IdentityReader`, `KeyCodec` | hashed identities, their streams read back, storage keys |
| `BalanceOracle` | the UTXO balance oracle |
| `Rollback` | rolling the balance-history store back, interrupted and resumed |
| `PsbtText`, `Descriptor` | PSBT text forms, private descriptors |

## What the code does where its intention suggests otherwise

The model follows the code; each of these is a theorem.

- A receipt is persisted together with counters that already contain its effect, and replaying it
  counts once more (`CrashLimits.RecordedReceiptCountsTwice`). Everything else of the slot comes out
  as without the crash, and a whole tick is off by exactly those counts
  (`ReplayCounts.TickEndsWithReplays`).
- The result file is removed before the booked slot is persisted. A second crash between the two
  leaves a plan without a result, and the action that was performed is booked as failed unless a
  wallet shows it (`CrashLimits.SecondCrashLosesTheResult`).
- Receipts are rebuilt outside the exception handler of the slot. Persisted text that does not parse
  ends every later process, for ever (`CrashLimits.UnreadableResultIsFatal`), where direct execution
  of the same text only fails the slot (`CrashLimits.UnreadableResultOnlyFailsDirectly`), or for a
  payment even succeeds (`CrashPoints.UnreadablePaymentStopsTheRun`).
- Payments report the first twelve characters of the printed text when executed, and of the
  transaction id found in it when rebuilt. The two receipts are equal exactly on `Recoverable` text
  (`Actions.RebuildIsFaithful`).
- A skipped or idle action leaves nothing outside, so its slot is given up after a crash between its
  plan and its receipt; interrupted and uninterrupted slots agree exactly when the effect was seen
  (`CrashLimits.ResumedSlotAgreesIff`).
- Blocks are mined at least once per tick, not exactly once: once more for every process that dies
  between mining and the end of the tick (`Mining.MinedOncePerDeath`, reached in
  `Mining.MiningCanRepeat`).
- A short deposit pays when it lifts a balance over the threshold
  (`EnergyOracle.DepositOverThresholdPaysIff`), so the law needs a base balance at the threshold.
- A rollback of the balance-history store records each height only after the block is rolled back. A
  crash between the two, or before its record is written whole, leaves a store that every later
  resumption refuses (`Rollback.CrashWedgesIff`, `Rollback.WedgedForever`,
  `Rollback.InterruptedRollbackEndsIff`).
- Length prefixes wrap at 2^32 (`CanonicalIdentity.LongComponentsCollide`).
- Crediting a live outpoint of value a second time breaks the balance oracle's agreement for good
  (`BalanceOracle.AgreementIff`).
- Base64 text made only of hexadecimal digits is read as hexadecimal (`PsbtText.AmbiguousText`); text
  of a PSBT never is.

## Model

| member | source | states |
|---|---|---|
| SlotSafety.AtMostOnce | src/btc/usdb-indexer/scripts/regtest_world_simulator.py:3711-4088 | over every history of steps, crashes and restarts, no two performed external actions share a (tick, slot) |
| SlotSafety.HistoryIsSafe | src/btc/usdb-indexer/scripts/regtest_world_simulator.py:3590-4088 | from any safe state every history stays safe: everything performed lies before the persisted position, except the one action whose plan is persisted |
| SlotSafety.HeadIsSafe | src/btc/usdb-indexer/scripts/regtest_world_simulator.py:3716-3934 | replaying, rebuilding, probing, giving up and planning afresh all keep that invariant, whatever the wallet shows |
| SlotSafety.DurableBooksBalance | src/btc/usdb-indexer/scripts/regtest_world_simulator.py:3785-4086 | every in-tick snapshot has one trace entry per finished slot, results plus failures equal to it, and no agent in two slots of the tick or still available after one |
| SlotSafety.HistoryKeepsBooks | src/btc/usdb-indexer/scripts/regtest_world_simulator.py:3711-4088 | the same accounting holds in memory and on disk at every point of every history |
| Mining.MinedAtLeastOnce | src/btc/usdb-indexer/scripts/regtest_world_simulator.py:4090-4288 | every tick the disk has left behind was mined, and every tick of a finished batch |
| Mining.MinedOncePerDeath | src/btc/usdb-indexer/scripts/regtest_world_simulator.py:4090-4288 | over every history each tick was mined once per process that died between mining it and persisting its end, and once more if it is left behind or its process lives; so exactly once iff none died there |
| Mining.FinishedBatchIsComplete | src/btc/usdb-indexer/scripts/regtest_world_simulator.py:3590-4288 | over every history only ticks 1 to the length of the batch are mined, all of them when it is over, and an endless batch is never over |
| Mining.MiningCanRepeat | src/btc/usdb-indexer/scripts/regtest_world_simulator.py:4090-4288 | a reachable history in which one tick is mined twice |
| Evidence.CommittedExactlyOnce | src/btc/usdb-indexer/scripts/regtest_world_simulator.py:3748-4039 | over every history in which wallets show only effects of performed actions, each committed slot on disk that did not skip, and each expectation, belongs to an action performed exactly once |
| Expectations.ExpectationsFollowTrace | src/btc/usdb-indexer/scripts/regtest_world_simulator.py:3998-4039 | over every history, in every in-tick snapshot the expectations to be verified are, in order, those of the committed slots that did not skip, each with its slot's id, action and actor |
| Expectations.CountsFollowTrace | src/btc/usdb-indexer/scripts/regtest_world_simulator.py:3936-3938 | over every history, between two slots an action is counted once for every finished slot of it, those given up for want of a result excepted |
| Evidence.IssuedTextIsNoSkip | src/btc/usdb-indexer/scripts/regtest_world_simulator.py:2458-2758 | a command that ran never reports the text of a skip |
| ResultFiles.FilesTellOpenSlot | src/btc/usdb-indexer/scripts/regtest_world_simulator.py:3748-4088 | over every history a result file on disk is that of the slot the snapshot holds open, holds exactly what the command printed, and that command was performed |
| ResultFiles.PerformedTookEffect | src/btc/usdb-indexer/scripts/regtest_world_simulator.py:3940-4088 | over every history an action counts as performed only if its command took effect |
| ResultFiles.IssuedCommandActs | src/btc/usdb-indexer/scripts/regtest_world_simulator.py:3940-3970 | an issued command that takes effect is performed once more, whether or not it then reports success, and nothing else is |
| SlotProtocol.PlanFor | src/btc/usdb-indexer/scripts/regtest_world_simulator.py:3880-3914 | a new plan names this slot and an available agent, and leaves the books alone |
| Outcomes.PlanTouchesScriptOnly | src/btc/usdb-indexer/scripts/regtest_world_simulator.py:3880-3914 | planning changes nothing but the actor's place in the script; the adaptive policy changes nothing and draws the action at the slot's position |
| Outcomes.TickStartsEmpty | src/btc/usdb-indexer/scripts/regtest_world_simulator.py:3649-3671 | a tick starts with every active agent available, nothing booked and nothing counted |
| CrashRefinement.CrashRefinement | src/btc/usdb-indexer/scripts/regtest_world_simulator.py:3711-4039 | after any history in which the effects are visible, the disk between two slots holds what the uninterrupted tick holds there: results, failures, trace, counts, expectations, available agents, ownership, and the metrics too if no recorded receipt was replayed |
| CrashRefinement.ResumedTickEndsAlike | src/btc/usdb-indexer/scripts/regtest_world_simulator.py:3711-4090 | the state in which an interrupted tick starts to mine is the state in which the uninterrupted one does |
| CrashRefinement.HistoryRefines | src/btc/usdb-indexer/scripts/regtest_world_simulator.py:3711-4088 | at every point of such a history the process and the disk are at some step of the uninterrupted tick |
| ReplayCounts.TickEndsWithReplays | src/btc/usdb-indexer/scripts/regtest_world_simulator.py:3711-4090 | over every such history the counters at the end of the tick exceed the uninterrupted ones by exactly one count for each slot committed from a replayed receipt |
| ReplayCounts.MetricsExceedByReplays | src/btc/usdb-indexer/scripts/regtest_world_simulator.py:3715-4039 | the same at every slot boundary on disk, with everything else equal |
| ReplayCounts.SlotShifts | src/btc/usdb-indexer/scripts/regtest_world_simulator.py:3880-4086 | the uninterrupted slot does not look at the counters: shifted before, equally shifted after |
| CrashRefinement.SlotStepStaysInside | src/btc/usdb-indexer/scripts/regtest_world_simulator.py:3715-4039 | each step inside a slot keeps memory, disk and result files matched to the uninterrupted slot |
| CrashRefinement.RecoveryMatches | src/btc/usdb-indexer/scripts/regtest_world_simulator.py:3748-3879 | a receipt rebuilt from truthful text and applied to the planned state gives the result of direct execution |
| CrashRefinement.ReplayMatches | src/btc/usdb-indexer/scripts/regtest_world_simulator.py:3731-3736 | a receipt replayed over the state saved with it gives the result of direct execution up to metrics |
| CrashRefinement.AttemptReceipted | src/btc/usdb-indexer/scripts/regtest_world_simulator.py:3950-3977 | every successful slot changes one counter by one and ownership by at most one patch, and its receipt says exactly that |
| CrashLimits.ResumedSlotAgreesIff | src/btc/usdb-indexer/scripts/regtest_world_simulator.py:3748-3879 | a resumed slot without a receipt ends in the uninterrupted state if and only if the effect was seen, in the result file or in a wallet |
| CrashLimits.RecordedReceiptCountsTwice | src/btc/usdb-indexer/scripts/regtest_world_simulator.py:3978-3997 | after a crash between receipt and commit the slot ends in the uninterrupted state except for one counter, one too high |
| CrashLimits.SecondCrashLosesTheResult | src/btc/usdb-indexer/scripts/regtest_world_simulator.py:4019-4039 | a second crash between removing the result and committing books a performed action as failed, from every state in which the result file was there |
| CrashLimits.UnreadableResultIsFatal | src/btc/usdb-indexer/scripts/regtest_world_simulator.py:3749-3761 | with an unreadable result file no history moves disk or world again |
| CrashLimits.UnreadableResultOnlyFailsDirectly | src/btc/usdb-indexer/scripts/regtest_world_simulator.py:3940-4088 | for pass actions the texts that cannot be rebuilt are exactly those that fail direct execution |
| CrashLimits.UnreadablePaymentSucceedsDirectly | src/btc/usdb-indexer/scripts/regtest_world_simulator.py:2597-2676 | a payment succeeds on every printed text, and cannot be rebuilt exactly when the text names no transaction |
| CrashPoints.UnreadablePaymentStopsTheRun | src/btc/usdb-indexer/scripts/regtest_world_simulator.py:3749-3761 | from every open slot whose payment prints no transaction id, a crash after filing leaves a disk that no history moves again, with the payment made |
| CrashLimits.FinishIsAHistory | src/btc/usdb-indexer/scripts/regtest_world_simulator.py:3940-4088 | past the top of the loop at most five crash-free steps close the slot |
| CrashLimits.FinishEndsSlot | src/btc/usdb-indexer/scripts/regtest_world_simulator.py:3940-4088 | from any point inside the uninterrupted slot, running on ends as the uninterrupted slot does |
| CrashLimits.UninterruptedSlot | src/btc/usdb-indexer/scripts/regtest_world_simulator.py:3880-4088 | the step-by-step protocol, left alone, ends each slot in exactly the specified state |
| CrashLimits.QuietWalletIsTruthful | src/btc/usdb-indexer/scripts/regtest_world_simulator.py:835-958 | if every view read shows at most this slot's effect and some poll shows it, the wait ends with the text that refinement asks for, whatever other polls fail or come too early |
| CrashPoints.CrashAfterFilingIsHarmless | src/btc/usdb-indexer/scripts/regtest_world_simulator.py:3715-4039 | from every open slot whose command prints recoverable text: crash right after the result was filed, restart, and the slot ends in exactly the uninterrupted state with the action performed once |
| CrashPoints.CrashAfterReceiptCountsTwice | src/btc/usdb-indexer/scripts/regtest_world_simulator.py:3971-4039 | the same crash after the receipt was persisted ends in that state with one counter one too high |
| CrashPoints.TwoCrashesBookAFailure | src/btc/usdb-indexer/scripts/regtest_world_simulator.py:4019-4039 | a second crash after the result was removed books the action, performed once, as failed when no wallet shows it |
| Actions.RebuildIsFaithful | src/btc/usdb-indexer/scripts/regtest_world_simulator.py:1044-1318 | on every printed text of every action, the rebuilt receipt equals the receipt of direct execution exactly when the text is recoverable |
| Outcomes.RemintNamesGoodPass | src/btc/usdb-indexer/scripts/regtest_world_simulator.py:2678-2745 | a remint is skipped iff no pass is indexed; otherwise it names an indexed pass, valid at its owner if any indexed pass is, and so does its rebuilt receipt |
| Outcomes.TransferChoices | src/btc/usdb-indexer/scripts/regtest_world_simulator.py:2526-2595 | a transfer sends a pass the actor owns to another available agent, or says which of the two is missing |
| Outcomes.TransferSkipIff | src/btc/usdb-indexer/scripts/regtest_world_simulator.py:2526-2549 | a transfer is issued iff the actor owns a pass and another agent is available |
| Outcomes.PaymentChoices | src/btc/usdb-indexer/scripts/regtest_world_simulator.py:2597-2676 | a payment to an agent lies between 0.01 and 0.25; one by an agent is at most half of its balance, between 0.001 and 0.05, and is skipped exactly below 0.002 |
| Outcomes.DrawnAtItsPosition | src/btc/usdb-indexer/scripts/regtest_world_simulator.py:2526-2690 | every pass, receiver and amount is the draw made at the position of its slot, from exactly the eligible ones |
| Outcomes.ReportTells | src/btc/usdb-indexer/scripts/regtest_world_simulator.py:2458-2758 | the report of a completed command: the id found in the printed text or the first twelve characters of it, the wallets, the amount |
| Outcomes.AmountText | src/btc/usdb-indexer/scripts/regtest_world_simulator.py:2648 | the text of an amount is sign, whole coins, point and eight decimals, and reads as exactly the satoshis |
| Outcomes.PatchEffect | src/btc/usdb-indexer/scripts/regtest_world_simulator.py:1115-1136 | everything a patch changes, pass by pass and agent by agent |
| Outcomes.SuccessCounts | src/btc/usdb-indexer/scripts/regtest_world_simulator.py:2458-2758 | a completed command counts one success of its own action, a skipped slot one skip, and nothing else |
| Outcomes.RebuiltCounts | src/btc/usdb-indexer/scripts/regtest_world_simulator.py:1147-1318 | a rebuilt receipt counts one success of its own action and nothing else |
| Outcomes.FailureEffect | src/btc/usdb-indexer/scripts/regtest_world_simulator.py:2760-2778 | a failed slot counts one failure of its own action and sends the actor into a cooldown of one slot; nothing else of the agents or the index changes |
| Outcomes.BookEffect | src/btc/usdb-indexer/scripts/regtest_world_simulator.py:3998-4016 | a booked slot uses up exactly the agents of the action, runs the actor's cooldown down by one and leaves counters and ownership alone |
| Outcomes.MintTells | src/btc/usdb-indexer/scripts/regtest_world_simulator.py:2458-2524 | the expectation of a completed mint names the printed pass, the reminted one and the balance before |
| Outcomes.TransferTells | src/btc/usdb-indexer/scripts/regtest_world_simulator.py:2526-2595 | that of a transfer names the pass, the receiver and whether it had an active pass |
| Outcomes.PaymentTells | src/btc/usdb-indexer/scripts/regtest_world_simulator.py:2597-2676 | that of a payment names its amount and the balance before; ownership is untouched |
| Outcomes.DifferencesAddUp | src/btc/usdb-indexer/scripts/regtest_world_simulator.py:1036-1042 | the recorded counter differences, added to the counters before, give those after |
| Actions.RebuildDependsOnId | src/btc/usdb-indexer/scripts/regtest_world_simulator.py:1147-1318 | rebuilding sees the recovered text only through the id it names |
| Actions.CompleteReceipted | src/btc/usdb-indexer/scripts/regtest_world_simulator.py:1044-1091 | the receipt of every completed command holds its one counter and its whole ownership change |
| Actions.ReceiptReplaysDirectExecution | src/btc/usdb-indexer/scripts/regtest_world_simulator.py:1093-1145 | applying that receipt to the state before gives the state, detail and agents of direct execution |
| Actions.PatchIdempotent | src/btc/usdb-indexer/scripts/regtest_world_simulator.py:1115-1136 | ownership patches are idempotent |
| Actions.ReplayCountsTwice | src/btc/usdb-indexer/scripts/regtest_world_simulator.py:1093-1145 | applying a receipt to the state that already contains it changes nothing but its counter, by one more |
| Probe.ProbeTellsTheTruth | src/btc/usdb-indexer/scripts/regtest_world_simulator.py:835-923 | on a wallet otherwise unchanged since the plan, the probe reports the effect if it is listed and nothing if there was none |
| Probe.WaitMeaning | src/btc/usdb-indexer/scripts/regtest_world_simulator.py:925-958 | the wait ends empty iff every poll was read and saw nothing, and with text iff some poll found it |
| Probe.FirstWithComment | src/btc/usdb-indexer/scripts/regtest_world_simulator.py:776-784 | finds a transaction that carries the action's comment, or there is none |
| Outcomes.BaselineWatchesSender | src/btc/usdb-indexer/scripts/regtest_world_simulator.py:814-833 | what is recorded before a command belongs to the wallet that will pay for it, and there is none exactly for an idle slot |
| OutputText.FirstInscription | src/btc/usdb-indexer/scripts/regtest_world_simulator.py:1621-1625 | the leftmost match of the inscription pattern, or there is no match |
| OutputText.FirstTxid | src/btc/usdb-indexer/scripts/regtest_world_simulator.py:1627-1631 | the leftmost match of the transaction id pattern between word boundaries, or there is no match |
| OutputText.ExtractedInscription | src/btc/usdb-indexer/scripts/regtest_world_simulator.py:1621-1625 | the id extracted stands in the text with every digit that follows, none starts before it, and there is none iff no id stands anywhere |
| OutputText.ExtractedTxid | src/btc/usdb-indexer/scripts/regtest_world_simulator.py:1627-1631 | the transaction id extracted is the first standing between word boundaries, and there is none iff none stands anywhere |
| OutputText.ExtractInscriptionIdIdempotent | src/btc/usdb-indexer/scripts/regtest_world_simulator.py:1621-1625 | reading an id out of the id it found gives that id |
| OutputText.ExtractTxidIdempotent | src/btc/usdb-indexer/scripts/regtest_world_simulator.py:1627-1631 | the same for transaction ids |
| Ownership.IndexOverAllHistories | src/btc/usdb-indexer/scripts/regtest_world_simulator.py:3711-4288 | over every history in which the end of a tick counts, refreshes and rebuilds, the index and the owned sets agree, in memory and on disk |
| Partition.PartitionOverAllHistories | src/btc/usdb-indexer/scripts/regtest_world_simulator.py:3711-4288 | over every history of mints, transfers, replayed and rebuilt receipts, refreshes, view rebuilds, crashes and restarts, the owned sets partition the index in memory and on disk, as long as mints are fresh, refreshes agree with the local view and rebuilt rows are distinct |
| Partition.RecoveryKeepsPartitionIff | src/btc/usdb-indexer/scripts/regtest_world_simulator.py:1147-1318 | a receipt rebuilt from a file or a wallet keeps the partition iff the id it recovers for a mint is not indexed to another agent |
| Partition.ReplayKeepsPartition | src/btc/usdb-indexer/scripts/regtest_world_simulator.py:1093-1145 | a receipt replayed over the state persisted with it always keeps the partition |
| Partition.PatchKeepsPartitionIff | src/btc/usdb-indexer/scripts/regtest_world_simulator.py:1115-1136 | a receipt patch keeps the partition iff its pass is unindexed or indexed to the agent it names, and the index then says what the patch says |
| Partition.ViewAllKeepsPartition | src/btc/usdb-indexer/scripts/regtest_world_simulator.py:4110-4167 | any sequence of counting, agreeing refreshes and rebuilds of distinct rows keeps the partition |
| Ownership.MintKeepsIndex | src/btc/usdb-indexer/scripts/regtest_world_simulator.py:2490-2494 | a mint keeps index and sets agreed, and keeps them a partition iff the pass is not indexed to another agent |
| Ownership.MoveKeepsIndex | src/btc/usdb-indexer/scripts/regtest_world_simulator.py:2576-2579 | the same for a transfer, iff the pass was indexed to the sender or the receiver if at all |
| Ownership.RefreshKeepsIndex | src/btc/usdb-indexer/scripts/regtest_world_simulator.py:2880-2891 | the same for a refresh, iff the chain agrees with the local index |
| Ownership.RebuildRestoresIndex | src/btc/usdb-indexer/scripts/regtest_world_simulator.py:3098-3161 | a rebuild gives an agreed index from any earlier state, and a partition when the rows are distinct |
| ChainView.RebuildTellsListing | src/btc/usdb-indexer/scripts/regtest_world_simulator.py:3098-3161 | a rebuild fails iff a row has no id or no known owner or an agent has two active passes; otherwise owners, owned, invalid and active passes are exactly what the rows say |
| ChainView.RefreshEffect | src/btc/usdb-indexer/scripts/regtest_world_simulator.py:2880-2891 | a refresh sets the active pass of one agent, and an active pass is owned by and indexed to it; nothing else changes |
| Ownership.CommandKeepsPartition | src/btc/usdb-indexer/scripts/regtest_world_simulator.py:2458-2676 | one directly executed command keeps the partition iff it does not mint an id indexed to another agent |
| Simulator.Simulator.RunSlots | src/btc/usdb-indexer/scripts/regtest_world_simulator.py:3711-4088 | the slot loop, in place, reaches the state and the snapshot of the uninterrupted tick |
| Simulator.Simulator.RunSlot | src/btc/usdb-indexer/scripts/regtest_world_simulator.py:3880-4088 | one slot, in place, reaches the state of the uninterrupted slot and persists it |
| Simulator.Simulator.PlanSlot | src/btc/usdb-indexer/scripts/regtest_world_simulator.py:3880-3914 | planning in place gives the plan, and the agent's new script index, that the specification gives |
| Simulator.Simulator.ExecuteAgentAction | src/btc/usdb-indexer/scripts/regtest_world_simulator.py:2692-2758 | direct execution in place: new memory, performed actions and result files, on success and on failure |
| Simulator.Simulator.OpMint | src/btc/usdb-indexer/scripts/regtest_world_simulator.py:2458-2524 | minting in place updates index, sets and counter as specified, or nothing when the text does not parse |
| Simulator.Simulator.OpTransfer | src/btc/usdb-indexer/scripts/regtest_world_simulator.py:2526-2595 | the same for a transfer, including the skipped cases |
| Simulator.Simulator.OpSendBalance | src/btc/usdb-indexer/scripts/regtest_world_simulator.py:2597-2627 | the same for a payment to an agent |
| Simulator.Simulator.OpSpendBalance | src/btc/usdb-indexer/scripts/regtest_world_simulator.py:2629-2676 | the same for a payment to the miner, including the skipped cases |
| Simulator.Simulator.ApplyActionReceipt | src/btc/usdb-indexer/scripts/regtest_world_simulator.py:1093-1145 | replay in place reaches the state the receipt stands for, or fails without touching anything |
| Simulator.Simulator.ChooseScripted | src/btc/usdb-indexer/scripts/regtest_world_simulator.py:2441-2456 | the scan in place chooses the action and stores the index of the specification |
| Simulator.Simulator.Commit | src/btc/usdb-indexer/scripts/regtest_world_simulator.py:3998-4039 | booking a success in place, up to the persisted next slot |
| Simulator.Simulator.Fail | src/btc/usdb-indexer/scripts/regtest_world_simulator.py:4040-4086 | booking a failure in place, up to the persisted next slot |
| Simulator.Simulator.RefreshAgentState | src/btc/usdb-indexer/scripts/regtest_world_simulator.py:2880-2891 | the refresh in place is the specified refresh |
| Simulator.Simulator.RebuildLocalChainView | src/btc/usdb-indexer/scripts/regtest_world_simulator.py:3113-3161 | the rebuild in place succeeds iff the specified rebuild does, reaching its state and reporting the number of rows |
| ScriptedCycle.BoundedFairness | src/btc/usdb-indexer/scripts/regtest_world_simulator.py:2441-2456 | an action that stays viable is taken within its cyclic distance, less than one cycle of selections, however the viability of the others changes |
| ScriptedCycle.SelectionApproaches | src/btc/usdb-indexer/scripts/regtest_world_simulator.py:2441-2456 | a selection takes a viable position or brings the index strictly closer to it |
| Outcomes.ScriptedActionIsPossible | src/btc/usdb-indexer/scripts/regtest_world_simulator.py:2427-2456 | a scripted transfer has a pass and another agent, a remint an indexed pass, a spend a balance of 0.002; the slot is idle only if the cycle offers nothing possible |
| Outcomes.NoneViable | src/btc/usdb-indexer/scripts/regtest_world_simulator.py:2441-2456 | when no action of the cycle is viable the script moves on by one place |
| ValidatorSamples.RunKeeps | src/btc/usdb-indexer/scripts/regtest_world_simulator.py:1827-2082 | over every run of mine, reorg, capture and validate with fresh hashes, whatever the indexer answers: a pending sample expects the error iff its block is no longer canonical, validated samples are reported once, at a head at least the configured advance past their block, and the counter equals their number |
| ValidatorSamples.StepKeeps | src/btc/usdb-indexer/scripts/regtest_world_simulator.py:3189-3247 | each event keeps that invariant |
| ValidatorSamples.ValidatedIsFinal | src/btc/usdb-indexer/scripts/regtest_world_simulator.py:1930-2082 | no later event changes a validated sample |
| ValidatorSamples.PassDecides | src/btc/usdb-indexer/scripts/regtest_world_simulator.py:1930-2082 | over any answers: a pending sample far enough below the head is validated iff it expects an error and is answered with it, or expects none and is answered with as many candidates of equal owner, state and energy; every other sample is unchanged, and each validation, and each refusal, is counted once |
| ValidatorSamples.CaptureRecordsHead | src/btc/usdb-indexer/scripts/regtest_world_simulator.py:1827-1928 | a captured sample records the head block and the candidates as listed, pending |
| ValidatorSamples.ReorgReplacesTop | src/btc/usdb-indexer/scripts/regtest_world_simulator.py:3189-3247 | a reorg replaces exactly the top blocks and marks exactly the pending samples there |
| ValidatorSamples.HonestPassSettlesAll | src/btc/usdb-indexer/scripts/regtest_world_simulator.py:1930-2082 | with an indexer that knows the chain one pass validates every sample whose block is far enough below the head, counts no failure and touches no other |
| ValidatorSamples.WinnerBeatsAll | src/btc/usdb-indexer/scripts/regtest_world_simulator.py:200-206 | the winner is one of the candidates, has the most energy, and the least id among those |
| ValidatorSamples.TextLeIsLexicographic | src/btc/usdb-indexer/scripts/regtest_world_simulator.py:200-206 | ids are compared at the first place where they differ |
| ValidatorSamples.WinnerIgnoresOrder | src/btc/usdb-indexer/scripts/regtest_world_simulator.py:200-206 | two listings of the same candidates have the same winner |
| ValidatorSamples.ChooseWinner | src/btc/usdb-indexer/scripts/regtest_world_simulator.py:200-206 | the scan finds the winner, and fails exactly on no candidates |
| ValidatorSamples.SampleBook.PerformReorg | src/btc/usdb-indexer/scripts/regtest_world_simulator.py:3189-3247 | the reorg in place is the specified reorg |
| ValidatorSamples.SampleBook.CaptureSample | src/btc/usdb-indexer/scripts/regtest_world_simulator.py:1827-1928 | the capture in place adds the specified sample |
| ValidatorSamples.SampleBook.ValidatePending | src/btc/usdb-indexer/scripts/regtest_world_simulator.py:1930-2082 | the pass in place reaches the specified book |
| EnergyOracle.StepwiseIsLazy | src/btc/usdb-indexer/scripts/regtest_world_simulator.py:1649-1671 | n saturating one-block updates equal one saturating update over n blocks |
| EnergyOracle.LazyAgreesWithOracle | src/btc/usdb-indexer/scripts/regtest_world_simulator.py:2978-2984 | settling only when the balance changes agrees with the per-block rule on every run of changes |
| EnergyOracle.OracleInRange | src/btc/usdb-indexer/scripts/regtest_world_simulator.py:2978-2984 | energy stays a u64 over any run of growth and penalties |
| EnergyOracle.RatesInNumbers | src/btc/usdb-indexer/scripts/regtest_world_simulator.py:1659-1671 | growth is 10,000 per satoshi and block from 100,000 satoshis on, the penalty 43,200,000 per satoshi withdrawn, both saturating at 2^64-1 |
| EnergyOracle.OneBlockInNumbers | src/btc/usdb-indexer/scripts/regtest_world_simulator.py:2978-2984 | one block grows by the balance before it, then pays for what left, saturating both ways |
| EnergyOracle.ShortDepositsNeverPay | src/btc/usdb-indexer/scripts/regtest_world_simulator.py:1649-1671 | from a base at the threshold a deposit withdrawn within 4320 blocks never gains, under full saturation |
| EnergyOracle.DepositPaysIffLong | src/btc/usdb-indexer/scripts/regtest_world_simulator.py:1649-1671 | from a base at the threshold it gains iff it stays longer than 4320 blocks and the holding and the penalty together stay below 2^64-1, for every u64 energy |
| EnergyOracle.DepositOverThresholdPaysIff | src/btc/usdb-indexer/scripts/regtest_world_simulator.py:1649-1671 | when the deposit itself lifts the balance over the threshold: it gains iff its blocks outweigh the penalty and the penalty stays below saturation, for every u64 energy |
| EnergyOracle.ShortDepositCanPayBelowThreshold | src/btc/usdb-indexer/scripts/regtest_world_simulator.py:1659-1671 | a deposit of 2161 blocks that gains from a base below the threshold |
| EnergyOracle.DepositIsARun | src/btc/usdb-indexer/scripts/regtest_world_simulator.py:2978-2984 | the closed forms of holding and of depositing are runs of the per-block rule |
| CanonicalIdentity.SystemIdBindsEverything | src/btc/usdb-util/src/types.rs:327-408 | equal system-state ids mean equal snapshots and equal local states, field by field, or one of three pairs of streams is a collision of the hash |
| CanonicalIdentity.LocalCommitBindsSnapshot | src/btc/usdb-util/src/types.rs:345-400 | equal local commits mean equal upstream snapshots, or a collision |
| CanonicalIdentity.SnapshotIdBinds | src/btc/usdb-util/src/types.rs:345-368 | equal snapshot ids iff equal identities or a collision |
| CanonicalIdentity.LocalCommitBinds | src/btc/usdb-util/src/types.rs:370-400 | equal local commits iff equal local states or a collision |
| CanonicalIdentity.SystemIdBinds | src/btc/usdb-util/src/types.rs:402-408 | equal system-state ids iff equal system states or a collision |
| CanonicalIdentity.SnapshotPreimageInjective | src/btc/usdb-util/src/types.rs:345-368 | the byte stream determines every field of a snapshot identity |
| CanonicalIdentity.LocalPreimageInjective | src/btc/usdb-util/src/types.rs:370-400 | the same for a local state, absent against present options included |
| CanonicalIdentity.SystemPreimageInjective | src/btc/usdb-util/src/types.rs:402-408 | the same for a system state |
| IdentityReader.SnapshotReads | src/btc/usdb-util/src/types.rs:345-368 | a reader that takes the fields in the published order, literals included, gets the snapshot identity back from its stream |
| IdentityReader.LocalReads | src/btc/usdb-util/src/types.rs:370-400 | the same for a local state: pass commit before active balance, each behind its marker |
| IdentityReader.SystemReads | src/btc/usdb-util/src/types.rs:402-408 | the same for a system state |
| CanonicalIdentity.KindsNeverCollide | src/btc/usdb-util/src/types.rs:345-408 | no stream of one kind is a stream of another, whatever the lengths |
| CanonicalIdentity.IdKindsNeverCollide | src/btc/usdb-util/src/types.rs:345-408 | ids of different kinds agree only in a collision |
| CanonicalIdentity.LongComponentsCollide | src/btc/usdb-util/src/types.rs:336-339 | for every component length from 2^32 on there is a system state that shares its stream with another |
| CanonicalIdentity.HexInjective | src/btc/usdb-util/src/types.rs:327-334 | hexadecimal text determines the bytes |
| IdentityReader.HexDigits | src/btc/usdb-util/src/types.rs:327-334 | each byte is two characters of "0123456789abcdef", the high half first |
| CanonicalIdentity.BuildConsensusSnapshotId | src/btc/usdb-util/src/types.rs:345-368 | feeding the hasher piece by piece gives the id of the snapshot's stream |
| CanonicalIdentity.BuildLocalStateCommit | src/btc/usdb-util/src/types.rs:370-400 | the same for a local state |
| CanonicalIdentity.BuildSystemStateId | src/btc/usdb-util/src/types.rs:402-408 | the same for a system state |
| CanonicalIdentity.EncodeHex | src/btc/usdb-util/src/types.rs:327-334 | the loop builds the hexadecimal text |
| KeyCodec.OutPointRoundTrip | src/btc/usdb-util/src/types.rs:414-434 | encoding and decoding are inverse, and decoding succeeds exactly on 36 bytes |
| KeyCodec.UtxoRoundTrip | src/btc/usdb-util/src/types.rs:32-53 | the same on 40 bytes |
| KeyCodec.KeyLayout | src/btc/usdb-util/src/types.rs:32-37 | 32 bytes of hash, then the number with its high byte first |
| KeyCodec.KeyOrder | src/btc/usdb-util/src/types.rs:415-420 | encoded outpoints sort as (transaction id bytes, output index) |
| KeyCodec.FillOutPoint | src/btc/usdb-util/src/types.rs:415-420 | filling the array in place gives the encoding |
| KeyCodec.FillUtxo | src/btc/usdb-util/src/types.rs:32-37 | the same for a UTXO value |
| BalanceOracle.ChainAgreement | src/btc/balance-history/scripts/regtest_balance_oracle.py:50-94 | with pairwise distinct credited outpoints each tracked balance is the sum of its live outputs, the credits never spent, and what the outputs of the chain pay it minus what is spent, never negative |
| BalanceOracle.ChainAgreementIff | src/btc/balance-history/scripts/regtest_balance_oracle.py:50-94 | for every chain: balances are what its outputs pay minus what is spent and never negative, and agree with the live outputs iff no credit overwrites an output of value |
| BalanceOracle.OutputCredits | src/btc/balance-history/scripts/regtest_balance_oracle.py:41-47 | an output brings one credit of its whole value to its own address if tracked, else to the first tracked of its addresses, and none iff no address of it is tracked |
| BalanceOracle.ChainIncome | src/btc/balance-history/scripts/regtest_balance_oracle.py:66-87 | what a chain credits an address is the sum of the outputs that pay it |
| BalanceOracle.TxSpendsFirst | src/btc/balance-history/scripts/regtest_balance_oracle.py:66-87 | a transaction spends the outpoints its inputs name, in order, before it credits |
| BalanceOracle.QueryAnswers | src/btc/balance-history/scripts/regtest_balance_oracle.py:97-106 | a query answers what the outputs of the blocks up to the height pay minus what those blocks spend, and 0 before the start |
| BalanceOracle.LedgerFromChain | src/btc/balance-history/scripts/regtest_balance_oracle.py:66-87 | for every sequence of tracked moves the balance is credited minus spent, each spend valued at the output it consumes, and is the live outputs plus what was overwritten |
| BalanceOracle.AgreementIff | src/btc/balance-history/scripts/regtest_balance_oracle.py:66-87 | from any agreeing ledger a whole run ends in agreement iff every credit overwrites nothing or a live output of value zero |
| BalanceOracle.DistinctCreditsAreFresh | src/btc/balance-history/scripts/regtest_balance_oracle.py:78-87 | pairwise distinct outpoints absent from the ledger are new to it when credited, whatever is spent in between |
| BalanceOracle.ReplayMatchesRecomputation | src/btc/balance-history/scripts/regtest_balance_oracle.py:66-87 | from any agreeing ledger, in-place replay gives the surviving old outputs plus the new ones never spent, spends within the block included |
| BalanceOracle.UnspentIsCreditedMinusSpent | src/btc/balance-history/scripts/regtest_balance_oracle.py:66-87 | with distinct outpoints the credits that no later move spends are the credits minus the value each spend consumes |
| BalanceOracle.SpendKeepsAgreement | src/btc/balance-history/scripts/regtest_balance_oracle.py:67-75 | a spend always keeps it |
| BalanceOracle.BlockFollows | src/btc/balance-history/scripts/regtest_balance_oracle.py:56-92 | a block is accepted iff it extends the heights without a gap, and the history then holds every height of the longer chain |
| BalanceOracle.Oracle.AddBlock | src/btc/balance-history/scripts/regtest_balance_oracle.py:50-94 | the block applied in place, or nothing on a height mismatch |
| BalanceOracle.Oracle.GetBalance | src/btc/balance-history/scripts/regtest_balance_oracle.py:97-106 | the answer is the balance after replaying exactly the blocks up to the smaller of h and the current height, and 0 before the start |
| BalanceOracle.Oracle.CreditOutput | src/btc/balance-history/scripts/regtest_balance_oracle.py:78-87 | an output credits its first tracked address only |
| Rollback.InterruptedRollbackEndsIff | src/btc/balance-history/src/db/db.rs:1459-1549 | a rollback begun on a clean record, interrupted and resumed any number of times, can end in the store built up to its target iff no interruption fell before its record was whole or between rolling a block back and writing its height |
| Rollback.WholeBlocksAlways | src/btc/balance-history/src/db/db.rs:1377-1549 | over every history of rollbacks, crashes and resumptions the store is the one built up to its height |
| Rollback.RollbackUndoesForward | src/btc/balance-history/src/db/db.rs:1377-1456 | rolling back a block that fitted gives exactly the store it was put on: outputs, balance rows, commits, undo journal and height |
| Rollback.ForwardEffect | src/btc/balance-history/src/db/db.rs:960-1165 | a block put on brings its new outputs, takes those it spends, and writes its rows, commit and undo bundle at the new height only |
| Rollback.RollbackEffect | src/btc/balance-history/src/db/db.rs:1377-1456 | rolled back, spent outputs are there with their values, other created ones are gone, and so are rows of touched scripts, commit and bundle of that height, which is one lower but not below zero |
| Rollback.CrashWedgesIff | src/btc/balance-history/src/db/db.rs:1476-1486 | at which of its writes a crash leaves a store that no process resumes, records of an earlier rollback included |
| Rollback.WedgedForever | src/btc/balance-history/src/db/db.rs:1500-1537 | from there no history changes store or record |
| Rollback.WedgedIffDiedInGap | src/btc/balance-history/src/db/db.rs:1459-1549 | after any history of one rollback it is wedged iff it died in such a gap |
| Rollback.UndoWanting | src/btc/balance-history/src/db/db.rs:1663-1716 | undo is refused exactly when a boundary lies above the first block to undo, none is recorded, or a bundle is missing |
| Rollback.ResumeDecides | src/btc/balance-history/src/db/db.rs:1500-1537 | what a resumption does with every possible record |
| Rollback.LiveRollbackEnds | src/btc/balance-history/src/db/db.rs:1480-1494 | a live process, left alone, reaches the target |
| Rollback.RollDownIsBuilt | src/btc/balance-history/src/db/db.rs:1459-1498 | on the store of a chain, rolling down reaches the store built up to the target |
| Rollback.HistoryStore.RollbackOneBlock | src/btc/balance-history/src/db/db.rs:1377-1456 | the batch assembled list by list is the specified rollback, or nothing on the wrong height or a missing bundle |
| Rollback.HistoryStore.RollbackToBlockHeight | src/btc/balance-history/src/db/db.rs:1459-1498 | fails, changing nothing, iff the target is above the height or undo is unavailable; otherwise rolls down and clears its record |
| Rollback.HistoryStore.ResumeRollbackIfNeeded | src/btc/balance-history/src/db/db.rs:1500-1549 | does nothing, fails, or completes the recorded rollback, exactly as the record says |
| PsbtText.PsbtTextRoundTrip | web/usdb-console-app/src/lib/btcWallet.ts:183-200 | for every byte string starting with the magic of BIP 174 both texts, with any white space put in, are read back with the right format |
| PsbtText.HexTextReadsBack | web/usdb-console-app/src/lib/btcWallet.ts:139-200 | hexadecimal text of any non-empty bytes, in either letter case and with white space put in, is read back |
| PsbtText.Base64TextReadsBackIff | web/usdb-console-app/src/lib/btcWallet.ts:183-200 | base64 text of any non-empty bytes is read back iff it holds a character that is not a hexadecimal digit |
| PsbtText.TakenIff | web/usdb-console-app/src/lib/btcWallet.ts:183-200 | the same for every text that stands for some bytes, canonical or not |
| PsbtText.AmbiguousText | web/usdb-console-app/src/lib/btcWallet.ts:183-200 | three bytes whose base64 text is read as two other bytes |
| PsbtText.SameHexPayloadIff | web/usdb-console-app/src/lib/btcWallet.ts:170-181 | two texts read as hexadecimal stand for the same bytes iff they agree up to white space and case |
| PsbtText.UnreadableIff | web/usdb-console-app/src/lib/btcWallet.ts:183-200 | reading fails exactly on blank text and on text that is neither form |
| PsbtText.HexRoundTrip | web/usdb-console-app/src/lib/btcWallet.ts:139-141 | every byte string has an even hexadecimal text that reads as itself |
| PsbtText.HexReadThenWritten | web/usdb-console-app/src/lib/btcWallet.ts:170-181 | writing what was read gives the same digits in lower case |
| PsbtText.Base64Shape | web/usdb-console-app/src/lib/btcWallet.ts:143-168 | the text of every byte string is well-formed base64 that stands for it |
| PsbtText.QuadIsNumber | web/usdb-console-app/src/lib/btcWallet.ts:143-168 | three bytes are one number of 24 bits written as four digits of the standard alphabet, high bits first |
| PsbtText.Base64Layout | web/usdb-console-app/src/lib/btcWallet.ts:143-168 | groups of three in order, a rest written as if zeros followed and padded |
| PsbtText.HexLayout | web/usdb-console-app/src/lib/btcWallet.ts:139-141 | each byte as two digits of "0123456789abcdef", the high half first |
| PsbtText.AlphabetIsStandard | web/usdb-console-app/src/lib/btcWallet.ts:156-168 | what is read as a base64 digit is exactly what is written as one |
| PsbtText.HexCharacters | web/usdb-console-app/src/lib/btcWallet.ts:170-181 | hexadecimal digits are read in either letter case, with their values |
| PsbtText.HexToBytes | web/usdb-console-app/src/lib/btcWallet.ts:170-181 | the loop over pairs of digits gives the bytes, or the error |
| PsbtText.BytesToBase64 | web/usdb-console-app/src/lib/btcWallet.ts:143-154 | the loop over bytes gives the base64 text of section 4 of RFC 4648 |
| Descriptor.DescriptorInstantiation | src/btc/usdb-control-plane/src/rpc_client.rs:573-664 | from the text of a descriptor and a key path, parsing and resolving gives the steps after the origin iff they are an instance of the suffix |
| Descriptor.ReadsBack | src/btc/usdb-control-plane/src/rpc_client.rs:573-615 | a written descriptor is read back as its kind, key and suffix, with or without origin and checksum, and fails only when the key does not read |
| Descriptor.ResolvesIff | src/btc/usdb-control-plane/src/rpc_client.rs:617-664 | resolution succeeds iff the path ends in an instance of the suffix, and returns that instance |
| Descriptor.ShortPathFails | src/btc/usdb-control-plane/src/rpc_client.rs:625-632 | the length error is reported exactly for paths shorter than the suffix |
| Descriptor.FaultIsLocated | src/btc/usdb-control-plane/src/rpc_client.rs:636-660 | another error names the first segment that does not stand for its step, and says what is wrong with it |
| Descriptor.BracketErrors | src/btc/usdb-control-plane/src/rpc_client.rs:573-615 | which bracket error is reported, in terms of the text before the checksum: no opening one, no closing one, or every closing one first |
| Descriptor.ResolveDescriptorChildPath | src/btc/usdb-control-plane/src/rpc_client.rs:617-664 | the loop gives the specified path or error |

## Left out

- Subprocesses, RPC, retries, timeouts, JSON and files: only the effect of a command, what it prints and the durable write are kept. Durable writes are atomic, and what is written is read back unchanged.
- Randomness: every draw is a function of its position (tick, slot, phase, components, draw index), as the position seeds make it; weights of actors and of adaptive actions are not modelled, only that the result is one of the candidates.
- Balance, active-pass and wallet-name queries are functions of agent and height that do not fail. An exception raised by a query after memory was already changed is therefore not covered.
- The `fail_fast` option: a raise after the last write of a slot is a crash there.
- The contents of an action id, a digest in the program, are its tick, slot and kind.
- Wallet listings are whole; the program asks for at most 200 transactions.
- White space, digits and word characters in printed text are those of ASCII.
- Agents are values in a sequence, so a Python alias of an agent is a position in it; the per-agent baselines of the energy self-check, the reorg counter and the samples are not part of the modelled memory.
- The phase between mining and the end of a tick (expectations, refresh, reorg, samples, cross checks) is one step that hands the protocol a new memory, arbitrary except in the ownership theorems, where counting, refreshes and rebuilds produce it; nothing is claimed about a crash inside it. Reorg, capture and validation are proved on their own.
- Starting a new batch after one has finished.
- The tampered-candidate check, the global cross check, and the sample fields that only the report uses.
- The service's own energy bookkeeping is not part of this model; `EnergyOracle` holds the simulator's rule for one block and its consequences.
- CanonicalIdentity.SystemIdBindsEverything: SHA-256 is any function of the bytes with 32-byte results; no such function is injective, so the statement names the collision instead of excluding it.
- Rollback: blocks are put on one at a time, as the per-block undo bundles describe them; the script registry, which is not rolled back, pruning of the undo journal, caches and the search for a common ancestor are not modelled. Writes to the database are atomic and ordered.
- Amounts are satoshis; the conversion from decimal text is not modelled.
- PsbtText: the fallback encoders used outside a browser, and the platform's message inside the error text.
- Descriptor: reading an extended private key and reading one derivation step belong to a library and are arbitrary functions here; deriving keys and printing WIF are not modelled.
- The address analysis of the balance-history browser (`analyzeRows`, `summarizeRows`, `chooseBucketSize`): folds that would only add easy members.
- Readiness flags, user interfaces, logging, locks, configuration and the Rust indexer.
