# Descartes rollups: the epoch protocol, the node's view of it, and the mock wallet

The repository runs a rollup. Contracts collect inputs in epochs, let a set of
validators claim a hash for every epoch and finalize one; a node reads the
contracts' events, rebuilds their state and feeds the inputs to a machine; a mock
wallet keeps layer-2 balances. This project models the three layers and proves what
ties them together.

**On chain.** `Protocol` is the phase machine as functions from state to state, with the
nested calls of one transaction (a claim, the dispute it starts, the dispute's end, the
new epoch) written out; `ConsensusRules` is the validator manager on sets of slots.
`Contracts`, `ValidatorManagers` and `Outputs` are the same contracts as classes with
the source's fields, 32-bit masks and loops; every method is proved to do what the
functions say, and `Contracts.Transact` rolls a reverted transaction back. The state
carries the event log. `Runs` plays blocks of transactions, reverted ones included;
`Invariant` and `Steps` show that the storage is at all times determined by the log, and
`Effects` says what each transaction does, and `Theorems`, `Support` and `DueEpochs`
draw the conclusions. `DisputeGame` follows a chain of disputes for any outcomes.
`Deployments` plays the same blocks on the classes, so a theorem about `Run` is a
theorem about them.

**Off chain.** `InputFold`, `SealedFold`, `FinalizedFold` and `EpochFold` are the node's
delegates: a `sync` that reads the whole log and a `fold` that adds one block, guarded
by the block's bloom filter. `NodeRuns` compares the two over whole runs, `Refinement`
compares `sync` with the contracts' storage, and `LogicalView` compares the derived
logical phase with what the contracts would do at that block's time.

**Machine and wallet.** `CatchUp` is the loop that catches the machine up, against a
machine that goes on working between any two calls; `NodeLoop` is the node's whole
reaction to a block, and its loop over the blocks of a run. `Ledger`, `Wallet` and
`MockWallet` are the batch that moves layer-2 funds, the runs of calls that lead to it,
and the two contracts with their loops and locks; `Accounts` and `Acceptance` say who
has how much after a batch, and when a call is taken.

## What the model assumes

- Senders are not the zero address; the initial validators are distinct and not zero
  (`contracts/ValidatorManagerImpl.sol:44` asks for it). The constructor reverts for
  32 validators or more: `2**n` is a checked 32-bit power.
- Addresses and hashes are numbers of which only zero is special. The digest of an
  input is a free term of its sender, time and payload: different inputs, different
  digests.
- Additions of 256-bit numbers are checked: an overflow reverts a transaction, and
  panics in the node. Epoch numbers do not overflow.
- Block times do not decrease. Every event carries the number and time of its block.
- A bloom filter is any test that is true for the keys of every event in the block.
- Whole runs use the dispute manager of the repository, which lets the first claimer
  win. The dispute chain itself is proved for every assignment of outcomes.
- The machine manager refuses a request to enqueue an input unless it is for its active
  epoch and for the next place in it: that is what a request carries both for.
- A query of a sub-fold answers its `sync` at that block, as the state-fold library
  promises; the agreement of `fold` and `sync` is proved for each delegate.

## Where the code does not do what it is for

Each of these is kept as the code has it, with the exact condition.

- `sealingEpochTimestamp` is documented as the moment a claim becomes challengeable,
  but an input that seals an epoch leaves it alone. Until a dispute, `finalizeEpoch`
  then counts from zero in epoch 0 (so a claim can be finalized at once), and in every
  later epoch from the greatest number of all (so it never succeeds):
  `Theorems.FinalizeExactly`.
  The node believes in a full challenge period: `LogicalView.TimeoutWithoutClock`
  says exactly when the two still agree. They do not in `Counterexamples.UnsetClock`
  (epoch 0) and in `Counterexamples.StuckEpoch` (a later epoch).
- A validator that is the only one behind the current claim and then contradicts
  itself is removed as the loser of a dispute with itself, and nobody is left behind the
  claim. That is the only way to get there (`Support.UnsupportedExactly`), and
  contradicting claims are refused exactly while it lasts, that is until somebody agrees
  with the claim (`Support.ContestableExactly`). `Counterexamples.AbandonedClaim` is a
  run.
- With a dispute manager that may let the challenger win, a validator that contradicts
  itself can win, and so be expelled, and then lose the next dispute as a stranger. Both
  masks come out empty, which counts as consensus although validators remain. Outcomes
  that lead there exist exactly when the challenger agreed with the claim it contradicts
  and a validator in a higher slot did too: `DisputeGame.LosesTrackExactly`.
  `DisputeGame.DisputesEnd` gives every end of a chain, `DisputeGame.SelfDisputeEmpties`
  is a case.
- A dispute in a block with the time of the epoch's first claim is not noticed by the
  logical view, which decides by comparing times: `LogicalView.ConflictExactly`, and
  `Counterexamples.UnnoticedDispute` for a run.
- A bloom filter that reports a `PhaseChange` that did not happen makes the node take
  a sealed epoch for one that accumulates, until the phase really changes:
  `NodeRuns.EpochNodeAgrees`, and `Counterexamples.EmptyBlockMisleads` for a run.
- The sealed-epoch fold never reads inputs again, so it must start from a block in
  which the epoch gets no more of them: `NodeRuns.SealedNodeAgrees`, and
  `Counterexamples.EarlyStartMisses` for a run.
- `getBitMaskPosition` gives an index the position of another output exactly when it is
  out of range: `Outputs.PositionCollides`.
- An executed output is remembered by its three indices, while the proof that admits it
  is checked along the paths of two drives, with 2^32 leaves for inputs and 2^16 for
  outputs. A proof for one leaf admits exactly the indices that agree with it up to those
  sizes, and executes the output again under each of them: `Outputs.ReplayExactly`,
  `Outputs.ReplayExists`. Under indices inside the drives, with proofs that are only
  accepted for what an epoch's tree has at the leaf, every leaf is executed at most once,
  and so is an output that has one leaf in its epoch: `Outputs.OutputsAtMostOnce`. The
  library that checks the paths is not part of the repository; without any assumption
  about it, indices that agree up to multiples of 2^59 are one to every proof
  (`Outputs.PositionsRepeat`), because their positions are cut to 64 bits.
- `react` goes on with the machine status it read before it finished the sealed epoch. In
  the block in which the epoch is finished it then asks for a slice beyond the end of the
  current inputs, or sends inputs for the finished epoch, unless both epochs have equally
  many inputs. A sender that has claimed and has to wait for the others reaches code that
  is not written yet. `NodeLoop.React` has the exact conditions,
  `Counterexamples.EarlyReacts`, `LateReacts` and `ClaimerReacts` are runs.
- The drawing in `contracts/DescartesV2Impl.sol:22-42` lets a dispute that ends after
  the challenge period finalize the epoch. In the code a dispute ends the epoch exactly
  when all validators that remain agree, and otherwise restarts the period:
  `Support.DisputeFinalizes`.

## Model

| member | source | states |
|---|---|---|
| Contracts.InputImpl.AddInput | contracts/InputImpl.sol:47-79 | An input of legal size goes to the box of the epoch it belongs to, after the swap that a late input causes, and is announced under that epoch; the call reverts for an illegal size or an overflowing deadline, and only then |
| Contracts.InputImpl.SwapInputBox | contracts/InputImpl.sol:128-130 | The two boxes change roles and keep their contents |
| Contracts.InputImpl.OnNewInputAccumulation | contracts/InputImpl.sol:107-110 | The boxes change roles when a claim seals the epoch |
| Contracts.InputImpl.OnNewEpoch | contracts/InputImpl.sol:114-120 | The sealed epoch's box is emptied, the active one is untouched |
| Contracts.InputImpl.GetInput | contracts/InputImpl.sol:86-88 | Reads the sealed epoch's box, whichever of the two it is |
| Contracts.InputImpl.GetNumberOfInputs | contracts/InputImpl.sol:94-96 | Counts the sealed epoch's inputs |
| Contracts.DisputeManagerImpl.InitiateDispute | contracts/DisputeManagerImpl.sol:41-46 | Calling back with the first claimer as winner leaves all contracts as the settled conflict of the protocol does, new epoch included |
| Contracts.DescartesV2.constructor | contracts/DescartesV2Impl.sol:80-109 | Starts epoch 0 accumulating at the creation time, with no claim and every validator in the goal |
| Contracts.DescartesV2.Claim | contracts/DescartesV2Impl.sol:116-151 | Seals a late epoch, records and announces the claim, and settles its verdict through all nested calls; reverts exactly when the protocol step does |
| Contracts.DescartesV2.FinalizeEpoch | contracts/DescartesV2Impl.sol:155-171 | Finalizes under exactly the three guards, overflow of the deadline included |
| Contracts.DescartesV2.NotifyInput | contracts/DescartesV2Impl.sol:175-184 | Announces the phase change of a late input, answers whether it did, and leaves the challenge clock alone |
| Contracts.DescartesV2.ResolveDispute | contracts/DescartesV2Impl.sol:191-211 | Expels the loser, restarts the clock, announces the dispute and settles what the manager decides, a further dispute included |
| Contracts.DescartesV2.StartNewEpoch | contracts/DescartesV2Impl.sol:214-226 | Resets the clocks, hands the claim to the outputs under the next number and empties the sealed box |
| Contracts.DescartesV2.ResolveValidatorResult | contracts/DescartesV2Impl.sol:232-247 | Each result leads to its phase, or, with the claims and claimers of the answer handed on, through the chain of disputes to the phase of its last verdict |
| Contracts.DescartesV2.UpdatePhase | contracts/DescartesV2Impl.sol:251-256 | Only a change of phase is announced |
| Contracts.DescartesV2.GetCurrentEpoch | contracts/DescartesV2Impl.sol:264-268 | One more than the number of finalized epochs once an epoch is sealed |
| Contracts.Transact | contracts/DescartesV2Impl.sol:116-184 | A transaction takes all contracts to the protocol's next state, or reverts and leaves every one of them as it was |
| Deployments.Play | contracts/DescartesV2Impl.sol:80-256 | The contracts, deployed and sent any blocks of transactions, end in the state that Run computes |
| ValidatorManagers.ValidatorManager.constructor | contracts/ValidatorManagerImpl.sol:46-53 | The goal is the set of non-zero validators, nobody agrees, there is no claim |
| ValidatorManagers.ValidatorManager.OnClaim | contracts/ValidatorManagerImpl.sol:65-105 | On 32-bit masks does what the set version does: the first claim becomes current, an equal one joins, another one meets the lowest agreeing validator; the answer has the standing claim and its champion before the new claim and its sender, or the claim and its sender alone, or nobody, and is announced |
| ValidatorManagers.ValidatorManager.OnDisputeEnd | contracts/ValidatorManagerImpl.sol:111-174 | The loser goes; the winning claim stands, meets the next defender, or replaces the current one; the answer has the standing claim and its champion before the winning claim and the winner, or the winning claim and the winner alone, or nobody, and is announced |
| ValidatorManagers.ValidatorManager.OnNewEpoch | contracts/ValidatorManagerImpl.sol:178-188 | Hands back the claim and forgets it with its supporters; the validators stay; the claim is announced |
| ValidatorManagers.ValidatorManager.UpdateConsensusGoalMask | contracts/ValidatorManagerImpl.sol:277-293 | The loop sets exactly the bits of the non-zero validators |
| ValidatorManagers.ValidatorManager.UpdateClaimAgreementMask | contracts/ValidatorManagerImpl.sol:298-312 | The loop adds exactly the sender's bit |
| ValidatorManagers.ValidatorManager.RemoveFromValidatorSetAndBothBitmasks | contracts/ValidatorManagerImpl.sol:318-337 | The loop clears the validator's slot and its bit in both masks; both masks come out empty for a stranger |
| ValidatorManagers.ValidatorManager.GetClaimerOfCurrentClaim | contracts/ValidatorManagerImpl.sol:254-273 | The loop finds the lowest agreeing validator, or reverts when nobody agrees |
| ValidatorManagers.ValidatorManager.IsAllowed | contracts/ValidatorManagerImpl.sol:339-344 | Exactly the listed addresses may claim |
| ValidatorManagers.ValidatorManager.IsConsensus | contracts/ValidatorManagerImpl.sol:346-352 | Equal masks are equal sets: the agreeing validators are all that remain |
| Bits.BitSetInjective | contracts/ValidatorManagerImpl.sol:346-352 | Comparing two masks compares the sets of validators they stand for |
| Bits.BitSetSet | contracts/ValidatorManagerImpl.sol:298-312 | Or-ing in a power of two adds that slot and no other |
| Bits.BitSetClear | contracts/ValidatorManagerImpl.sol:318-337 | And-ing with the complement removes that slot and no other |
| Protocol.AcceptedIsReady | contracts/ValidatorManagerImpl.sol:65-105 | Whatever conflict an accepted claim reports is between two real validators, so its dispute can be played |
| ConsensusRules.ChampionIsLowestAgreeing | contracts/ValidatorManagerImpl.sol:254-273 | Whenever somebody agrees, the search finds the agreeing validator of lowest slot |
| ConsensusRules.RoundShrinksGoal | contracts/ValidatorManagerImpl.sol:111-174 | A dispute always ends, and when it leaves a conflict a validator fewer remains |
| DisputeGame.ConflictsAreChallenges | contracts/ValidatorManagerImpl.sol:83-90 | A contradicting claim, by a supporter or not, is a conflict with the lowest agreeing validator, and changes nothing yet |
| DisputeGame.ChallengerWins | contracts/ValidatorManagerImpl.sol:111-174 | A lost defence expels the lowest agreeing validator, the challenger itself if it is that one, and passes the claim to the next defender, or to the challenger when there is none |
| DisputeGame.DefenderWins | contracts/ValidatorManagerImpl.sol:125-145 | A won defence removes the challenger and nobody else, or empties both masks when the challenger is already gone |
| DisputeGame.DisputesEnd | contracts/ValidatorManagerImpl.sol:111-174 | For every outcome of every dispute, and any challenger, the chain ends within as many rounds as validators agreed, in one of three ways: the claim stands without the challenger and the lowest defenders; it falls with all its supporters; or both masks are empty because the challenger had beaten itself |
| DisputeGame.OutsiderDisputesEnd | contracts/ValidatorManagerImpl.sol:111-174 | Against a challenger that did not agree: the claim stands with somebody behind it and the challenger gone, or all defenders are gone and the challenger alone agrees with its own claim |
| DisputeGame.LosesTrackExactly | contracts/ValidatorManagerImpl.sol:111-174 | Some outcomes end a chain with a goal mask that does not stand for the listed validators if and only if the challenger agreed with the claim it contradicts and so did a validator in a higher slot |
| DisputeGame.SelfDisputeEmpties | contracts/ValidatorManagerImpl.sol:318-337 | Three validators and two outcomes that lead to consensus on empty masks with two validators left |
| DisputeGame.ChainNeverReverts | contracts/DescartesV2Impl.sol:191-247 | For every outcome the chain of nested calls ends without a revert, self-disputes included |
| Steps.ShippedDispute | contracts/DisputeManagerImpl.sol:41-46 | With the shipped manager the chain has one round, and the challenger loses it |
| Steps.StepKeeps | contracts/DescartesV2Impl.sol:116-247 | Every transaction keeps the whole invariant, and what it appends to the log is stamped with its block, leaves sealed epochs alone and changes phase or hashes only together with a PhaseChange |
| Runs.Run | contracts/DescartesV2Impl.sol:116-247 | After any blocks of transactions the whole invariant holds |
| Runs.RunExtends | contracts/InputImpl.sol:60-76 | What a block appends leaves all sealed epochs alone, and finalizes only with a change of phase |
| Runs.RunNext | contracts/DescartesV2Impl.sol:116-184 | A run goes on one transaction at a time: each succeeds or changes nothing |
| Effects.DeployEffect | contracts/DescartesV2Impl.sol:80-109 | A run starts accumulating at its creation time with empty boxes, an empty log, no claim and the whole roster |
| Effects.InputEffect | contracts/InputImpl.sol:47-79 | In every reachable state: an input is accepted if and only if its size is legal and the deadline fits, and then exactly one input is added, in its box and under its epoch, after the phase change and the swap of a late one; nothing else changes |
| Effects.ClaimEffect | contracts/DescartesV2Impl.sol:116-151 | In every reachable state: a claim is accepted if and only if it is not zero, its sender is listed, the epoch is sealed or its time is up, and it agrees or somebody can defend the current claim; then every field and every event is what sealing, joining or being expelled, and the end of the epoch if all that remain agree, make of it |
| Effects.FinalizeEffect | contracts/DescartesV2Impl.sol:155-171 | In every reachable state: an accepted finalizeEpoch enters accumulation at its time, appends the epoch's first claim, forgets the claim and its supporters but no validator, empties the sealed box only, and announces just the phase and the epoch |
| Theorems.RunIsLater | contracts/InputImpl.sol:60-76 | Later blocks only append to the log and to the hashes, the current epoch never goes back, and a sealed epoch's inputs never change |
| Theorems.InboxRefinesEpochs | contracts/InputImpl.sol:47-130 | In every reachable state the active box is the current epoch's by parity and has exactly its inputs, the other has exactly the sealed epoch's or nothing, and epoch numbers of inputs never decrease |
| Theorems.EpochAdvancesByOne | contracts/DescartesV2Impl.sol:264-268 | No transaction moves the current epoch, or the number of hashes, by more than one, or back |
| Theorems.FirstClaimWins | contracts/DescartesV2Impl.sol:214-226 | FinalizeEpoch events are numbered without gaps or repeats, each carries the non-zero hash of its epoch's first Claim event, and they are the append-only list of hashes |
| Theorems.MasksMeanClaims | contracts/ValidatorManagerImpl.sol:277-337 | In every reachable state a goal bit means that the validator remains, an agreement bit that it also claimed the current claim this epoch; whenever a bit is set the search for a claimer succeeds |
| Theorems.OnlyDissentersAreRemoved | contracts/ValidatorManagerImpl.sol:125-145 | A validator is gone exactly when it has contradicted the first claim of some epoch, and its claims revert from then on |
| Theorems.ClaimExpelsOnlyItsSender | contracts/ValidatorManagerImpl.sol:83-90 | An accepted claim removes its sender when it contradicts the standing one, and nobody otherwise |
| Theorems.PhasesAtRest | contracts/DescartesV2Impl.sol:232-256 | Between transactions there is no open dispute, no claim or support while inputs accumulate, no consensus left unsettled; no two neighbouring PhaseChange events are equal and the last one is the phase |
| Theorems.FinalizeExactly | contracts/DescartesV2Impl.sol:155-184 | finalizeEpoch succeeds if and only if the sealed epoch has a claim and its clock, where it runs, is more than a challenge period old; without a clock, epoch 0 counts from zero and no later epoch ever succeeds |
| Theorems.FinalizeIsLate | contracts/DescartesV2Impl.sol:155-171 | Such a finalization is more than a challenge period after the epoch's first claim and after its last dispute, except for an epoch 0 whose clock never ran |
| Theorems.EpochsTakeTime | contracts/DescartesV2Impl.sol:121-130 | After n finalizations at least n full accumulation periods have passed |
| Theorems.ConsensusIsUnanimous | contracts/ValidatorManagerImpl.sol:75-104 | An epoch that a claim finalizes has been claimed, with the finalized hash, by every validator that remains |
| Theorems.MissingClaimsFinalize | contracts/ValidatorManagerImpl.sol:92-104 | The missing validators' agreeing claims, in any order and at any times, are all accepted, and the epoch is finalized with the last of them and not before |
| Support.SomebodyRemains | contracts/ValidatorManagerImpl.sol:125-145 | Over every run that starts with a validator, one remains |
| Support.ConsensusProgress | contracts/DescartesV2Impl.sol:232-247 | From every sealed epoch of every run that starts with a validator, somebody's claim is missing, and the missing claims, in any order, finalize the epoch with the last of them |
| Support.UnsupportedExactly | contracts/ValidatorManagerImpl.sol:111-145 | After an accepted claim a claim stands with nobody behind it if and only if its only supporter has just contradicted it |
| Support.ContestableExactly | contracts/ValidatorManagerImpl.sol:83-90 | While a claim stands, a contradicting claim is accepted if and only if its sender is listed and somebody stands behind the current one |
| Support.UnsupportedClaim | contracts/ValidatorManagerImpl.sol:111-145 | A sole supporter can contradict its own claim at any time; it is expelled, the claim stands, and in that state every contradicting claim reverts |
| Support.DisputeFinalizes | contracts/DescartesV2Impl.sol:191-247 | A claim that is disputed ends the epoch if and only if all that remain without its sender agree; otherwise the challenge period starts again |
| DueEpochs.StepAhead | contracts/InputImpl.sol:60-76 | No transaction gives an input to an epoch whose time is up, whether it has been sealed or not |
| DueEpochs.DueIsFinal | contracts/DescartesV2Impl.sol:175-184 | Over every run, an epoch whose time is up gets no more inputs, and the epoch that is due never goes back |
| Events.DisputeSetsClock | contracts/DescartesV2Impl.sol:206-209 | After a dispute the challenge clock runs from the last dispute |
| Outputs.PositionInRange | contracts/OutputImpl.sol:187-195 | For indices in range the position is the plain weighted sum, without lost bits or overflow |
| Outputs.PositionInjective | contracts/OutputImpl.sol:187-195 | In range, two indices share a position if and only if they are the same |
| Outputs.PositionCollides | contracts/OutputImpl.sol:187-195 | An index has the position of another one in range if and only if it is out of range itself |
| Outputs.LockHolds | contracts/OutputImpl.sol:39-45 | Whatever a destination calls back while an output is executed, no output is executed inside |
| Outputs.CallExecutesItsOwn | contracts/OutputImpl.sol:72-102 | A call executes under its own index or not at all; a failed one leaves everything as it was and can be retried |
| Outputs.ExecuteExactly | contracts/OutputImpl.sol:72-102 | With the lock free, the epoch known, the proof valid and the bit clear a call returns what its destination returns, whatever that calls, and otherwise reverts; only a successful one sets the bit, and keeps the hashes handed in meanwhile |
| Outputs.CallsInTurn | contracts/OutputImpl.sol:72-109 | Calls take effect one after the other; a new hash is appended |
| Outputs.AtMostOnce | contracts/OutputImpl.sol:72-102 | Over every run, re-entrant calls included, no index of output, input and epoch returns success twice |
| Outputs.OutputsAtMostOnce | contracts/OutputImpl.sol:71-102 | Over every run, re-entrant calls included: what genuine proofs execute under indices inside the drives is what the epoch's tree has at their leaf, no leaf twice, so an output with one leaf in its epoch is executed at most once under whatever such indices and proofs |
| Outputs.OnePlainIndex | contracts/OutputImpl.sol:113-180 | Genuine proofs for an output with one leaf in an epoch admit at most one index inside the drives |
| Outputs.SameLeaf | contracts/OutputImpl.sol:28-30 | In range, two indices stand for the same leaf if and only if they agree in the epoch, up to 2^32 in the input and up to 2^16 in the output |
| Outputs.PositionsRepeat | contracts/OutputImpl.sol:201-206 | No proof of any kind tells indices apart that agree up to multiples of 2^59 |
| Outputs.ProofsSeeLeaves | contracts/OutputImpl.sol:131-177 | Every proof that reads no more than the place inside the two drives gives the same answer for two indices if and only if they stand for the same leaf |
| Outputs.ReplayExactly | contracts/OutputImpl.sol:72-102 | In any state, with a proof for one leaf, an output executed under one index is executed again under another one in range that has not been used, if and only if that one stands for the same leaf; at most one of the two is inside the drives |
| Outputs.ReplayExists | contracts/OutputImpl.sol:201-206 | For every index inside the drives there is another one in range for the same leaf, one drive further on |
| Outputs.RefusedOnlyWhenDone | contracts/OutputImpl.sol:72-102 | In range, an output with a valid proof is refused exactly when its index has been executed before |
| Outputs.OutputImpl.ExecuteOutput | contracts/OutputImpl.sol:72-102 | The code with its lock, a proof for the output that sees the indices as positions cut to 64 bits, and a destination that calls back in, has exactly the effect and reply of the call model |
| Outputs.OutputImpl.OnNewEpoch | contracts/OutputImpl.sol:107-109 | A hash is appended, whether or not the lock is held |
| NodeTypes.EpochClaims.UpdateWithNewClaim | offchain/src/fold/types.rs:78-86 | The sender is added to its claim's senders, everybody else stays, the time of the first claim stays |
| NodeTypes.GetSenderClaim | offchain/src/fold/types.rs:92-99 | Finds a claim of the sender whatever order the table is searched in, or shows that it made none |
| NodeTypes.ClaimBook.InsertClaim | offchain/src/fold/types.rs:88-90 | In place, the same as the pure update |
| NodeTypes.EpochStore.InsertEpoch | offchain/src/fold/types.rs:182-189 | Appends exactly the next epoch and otherwise changes nothing |
| NodeTypes.FinalizedEpochs.GetIsTheWindow | offchain/src/fold/types.rs:161-170 | In an indexed store an index is found exactly inside the window, under its own number |
| NodeTypes.MissMeansNone | offchain/src/fold/input_delegate.rs:84-91 | A bloom filter without false negatives that misses a key of the query's events proves that the block has none |
| InputFold.InputStepIsSync | offchain/src/fold/input_delegate.rs:77-116 | Folding a block into the inputs of an epoch gives what reading all blocks gives |
| InputFold.InputStepExactly | offchain/src/fold/input_delegate.rs:77-116 | With any bloom filter, folding a block gives what reading all blocks gives if and only if the filter hits or the block has no input of the epoch |
| InputFold.Sync | offchain/src/fold/input_delegate.rs:40-75 | The loop collects exactly the epoch's inputs, in order |
| InputFold.Fold | offchain/src/fold/input_delegate.rs:77-116 | The loop appends exactly the block's inputs of the epoch, or none when the bloom filter misses |
| SealedFold.AddClaimsIsVotes | offchain/src/fold/sealed_epoch_delegate.rs:130-160 | The table says exactly who claimed what, is absent exactly when nobody did, and carries the time of the first claim |
| SealedFold.SealedStepIsSync | offchain/src/fold/sealed_epoch_delegate.rs:171-249 | Folding a block agrees with reading everything again if and only if the block has no input for the epoch |
| SealedFold.Sync | offchain/src/fold/sealed_epoch_delegate.rs:90-169 | The loop over all claim events gives the specified state |
| SealedFold.Fold | offchain/src/fold/sealed_epoch_delegate.rs:171-249 | The loop over the block's claim events gives the specified step |
| FinalizedFold.InsertGapless | offchain/src/fold/finalized_epoch_delegate.rs:144-168 | On events numbered without gaps no insertion fails, and exactly the ones not yet stored are appended, in order |
| FinalizedFold.SyncIsWindow | offchain/src/fold/finalized_epoch_delegate.rs:49-102 | From scratch all assertions hold and the store is the window from the initial epoch on, empty when there are too few epochs |
| FinalizedFold.WindowIsFaithful | offchain/src/fold/types.rs:153-190 | The store answers an index exactly between the initial and the next epoch, with the event of that number and all inputs of that epoch |
| FinalizedFold.FinalizedStepIsSync | offchain/src/fold/finalized_epoch_delegate.rs:104-169 | Folding a block gives what reading everything again gives, for a log without gaps whose finalized epochs receive no more inputs |
| FinalizedFold.FinalizedStepExactly | offchain/src/fold/finalized_epoch_delegate.rs:104-169 | With any bloom filter, the same holds if and only if the filter hits or the block finalizes no epoch that belongs in the store |
| FinalizedFold.Sync | offchain/src/fold/finalized_epoch_delegate.rs:49-102 | The loop with its assertion answers the specified store, or fails exactly where the specification does |
| FinalizedFold.Fold | offchain/src/fold/finalized_epoch_delegate.rs:104-169 | The same for one block, with the early return and the skipped events |
| EpochFold.EpochStepIsSync | offchain/src/fold/epoch_delegate.rs:240-437 | Folding a block agrees with reading everything again if and only if the bloom filter has not reported a phase change that did not happen while an epoch was sealed |
| Refinement.FinalizedRefines | offchain/src/fold/finalized_epoch_delegate.rs:49-102 | On the log of any run the store never fails, holds exactly the contract's hashes with all inputs of each epoch and the block that finalized it, and reaches the contract's last epoch exactly when it does not start beyond it |
| Refinement.NodeRefinesContract | offchain/src/fold/epoch_delegate.rs:96-238 | On the log of any run the node has the contract's phase, next epoch and current epoch, the inputs of both boxes, the sealed epoch's claims as the masks and the log have them, and the start of the accumulation |
| Refinement.NodeNeverFails | offchain/src/fold/epoch_delegate.rs:96-238 | On the log of any run the read never fails, never meets an open dispute, and finds the contract's phase |
| NodeRuns.DeltaFollows | offchain/src/fold/finalized_epoch_delegate.rs:104-125 | Every block of every run keeps what the early returns of the folds rely on |
| NodeRuns.InputNodeAgrees | offchain/src/fold/input_delegate.rs:77-116 | Over any run, folding block by block from any start equals reading everything at the end |
| NodeRuns.FinalizedNodeAgrees | offchain/src/fold/finalized_epoch_delegate.rs:104-169 | The same for the finalized epochs, without a failed assertion |
| NodeRuns.SealedNodeAgrees | offchain/src/fold/sealed_epoch_delegate.rs:171-249 | The same for the sealed epoch exactly when it gets no input after the start, as when it starts sealed |
| NodeRuns.EpochNodeStep | offchain/src/fold/epoch_delegate.rs:240-437 | In any run a fold of one block goes wrong exactly at a false alarm of the bloom filter |
| NodeRuns.EpochNodeAgrees | offchain/src/fold/epoch_delegate.rs:240-437 | Over any run, block by block equals from scratch exactly when no false alarm has come since the last change of phase; a misled node takes a sealed epoch for one that accumulates |
| LogicalView.ViewExistsExactly | offchain/src/fold/descartesv2_delegate.rs:164-283 | There is a logical state if and only if no deadline that it needs overflows; the branch for an open dispute is never reached |
| LogicalView.ViewSealsAhead | offchain/src/fold/descartesv2_delegate.rs:164-283 | The view is that of the contract after the phase change the next input would make; it panics when that input would overflow |
| LogicalView.ViewPredictsInputs | offchain/src/fold/descartesv2_delegate.rs:170-209 | An input sent at the block's time is accepted whatever its legal size, goes to the view's current epoch, and lands after exactly the inputs the view gives it |
| LogicalView.ViewPredictsClaims | offchain/src/fold/descartesv2_delegate.rs:178-222 | An agreeing claim is accepted exactly when the view has a sealed epoch, is recorded for it and its inputs, and is the first one exactly when the view waits for a first claim |
| LogicalView.TimeoutExactly | offchain/src/fold/descartesv2_delegate.rs:224-246 | The view calls a timeout exactly when the challenge period has passed since the first claim and since the last change of phase |
| LogicalView.TimeoutIsFinalizable | offchain/src/fold/descartesv2_delegate.rs:224-246 | For an epoch sealed by a claim or with a dispute, the view calls a timeout exactly when finalizeEpoch would succeed |
| LogicalView.TimeoutWithoutClock | contracts/DescartesV2Impl.sol:155-184 | For a claimed epoch sealed by an input and without a dispute, exactly when view and contract still agree |
| Counterexamples.UnsetClock | contracts/DescartesV2Impl.sol:175-184 | A run in which finalizeEpoch succeeds one second after the only claim, and the view sees no timeout |
| Counterexamples.StuckEpoch | contracts/DescartesV2Impl.sol:155-184 | A run that ends in a claimed epoch 1 which finalizeEpoch can never finalize in that state, at any time, while the view calls a timeout |
| Counterexamples.UnnoticedDispute | offchain/src/fold/descartesv2_delegate.rs:240-256 | A run with a dispute in the block of the first claim, of which the view shows nothing |
| Counterexamples.EarlyStartMisses | offchain/src/fold/sealed_epoch_delegate.rs:241-248 | A run in which a sealed-epoch node that starts too early misses an input |
| Counterexamples.LateReacts | offchain/src/logic/descartes_logic.rs:193-218 | A run at whose only block the node of a fresh machine sends a request that the machine refuses |
| Counterexamples.EarlyReacts | offchain/src/logic/descartes_logic.rs:193-218 | A run at whose last block a node that finds a machine with one input processed asks for a slice beyond the end |
| Counterexamples.ClaimerReacts | offchain/src/logic/descartes_logic.rs:220-250 | A run at whose only block the node of the validator that claimed reaches the unwritten code |
| Counterexamples.AbandonedClaim | contracts/ValidatorManagerImpl.sol:111-145 | A run that ends with a current claim and nobody in the agreement mask |
| Counterexamples.EmptyBlockMisleads | offchain/src/fold/epoch_delegate.rs:345-355 | A run whose last block is empty, with a bloom filter that reports everything: the node was right before it and is wrong after it |
| LogicalView.ViewKnowsVotes | offchain/src/fold/descartesv2_delegate.rs:205-256 | The claims in the logical phase are exactly who has claimed what for the next epoch to finalize, with the time of the first, and none while there is no claimed epoch |
| LogicalView.ConflictExactly | offchain/src/fold/descartesv2_delegate.rs:246-256 | The view reports a conflict exactly when a dispute came later than the first claim, with the last dispute as the base of the period |
| CatchUp.Machine.EnqueueInputs | offchain/src/machine/rollup_mm.rs:143-168 | One request each, in order, while the machine works on; they are refused exactly when the first of them is for another epoch or another place |
| CatchUp.Machine.GetEpochClaim | offchain/src/machine/mod.rs:40-41 | May only be called for an epoch that has been finished, and answers the claim for its inputs |
| CatchUp.Machine.FinishEpoch | offchain/src/machine/mod.rs:31-38 | May only be called when every input of the epoch is processed and none is pending |
| CatchUp.EnqueueRemainingInputs | offchain/src/logic/descartes_logic.rs:379-401 | For any status: nothing is sent when all was processed, the slice is out of range when more was sent than there is, the request is refused when it is not for the machine's epoch and place; with a status that the machine has been true to since, neither happens and the machine ends with exactly all inputs |
| CatchUp.EnqueueInputsOfFinalizedEpochs | offchain/src/logic/descartes_logic.rs:330-377 | Ends, keeps the machine gap-free, finishes only fully processed epochs, fails no assertion, slice or request; true exactly when the machine is past the finalized epochs, and otherwise it has all inputs of an epoch it had not processed; it moves on whenever the status said that all was processed |
| CatchUp.UpdateSealedEpoch | offchain/src/logic/descartes_logic.rs:403-427 | Finishes the sealed epoch exactly when all its inputs were processed, and otherwise has enqueued them all |
| NodeLoop.ChainGrows | contracts/InputImpl.sol:60-76 | Later blocks only append to an epoch's inputs, and only while its time is not up |
| NodeLoop.StaysInStep | contracts/InputImpl.sol:60-76 | A machine in step with the chain, no further than the due epoch, still is at any later block |
| NodeLoop.ViewShows | offchain/src/fold/descartesv2_delegate.rs:164-283 | On any run the logical state has the deployment's constants, the node's initial epoch, the chain's inputs of the sealed and of the current epoch, and the due epoch as current |
| NodeLoop.NodeKnows | offchain/src/fold/types.rs:153-190 | On any run the node's finalized epochs have the chain's inputs |
| NodeLoop.FeedSealedThenCurrent | offchain/src/logic/descartes_logic.rs:155-176 | With the status read before: in a block that finishes the sealed epoch the next request is refused, the slice out of range, or nothing sent, exactly as the sealed epoch has fewer, more, or as many inputs as the current one; in every other block neither failure occurs |
| NodeLoop.React | offchain/src/logic/descartes_logic.rs:101-325 | Every branch: the machine stays in step, never goes beyond the sealed epoch, moves on when all was processed, and has all inputs of its epoch unless it has just finished one; a request is refused or a slice out of range if and only if the block finishes a sealed epoch with another number of inputs than the current one; otherwise the machine's claim for the chain's inputs is sent, the epoch finalized, or unwritten code reached exactly as the sender has claimed and the period is over |
| NodeLoop.MainLoop | offchain/src/logic/descartes_logic.rs:62-99 | From any machine in step with the chain, fresh or found again, over any run: there is one reaction to each block, each from where the last one left the machine, and only the last may fail; the machine never accepts a wrong input and never misses one of an epoch it leaves; the loop ends early only at a block without a logical state, with a sealed and a current epoch of different numbers of inputs, or before the timeout of an epoch that the sender has claimed |
| NodeLoop.DecisionsStand | offchain/src/logic/descartes_logic.rs:220-304 | In any run, while nothing else happens: a timeout acted on is one for finalizeEpoch when the challenge clock runs, and was only acted on after the sender's claim; a remaining validator's claim, only sent when it has not claimed, is accepted if and only if it is not zero and agrees with the current claim or somebody stands behind that |
| Ledger.TotalUpdate | contracts/mockWallet/MockInputImpl.sol:40-43 | Writing one balance changes the total by exactly the difference |
| Ledger.MoveTotal | contracts/mockWallet/MockInputImpl.sol:181-190 | A transfer, covered or not, to oneself or not, leaves the total as it was |
| Ledger.BatchConserves | contracts/mockWallet/MockInputImpl.sol:166-231 | A batch adds to the total of ether, and of each token, exactly what the portal deposited in it |
| Ledger.OnlyHoldersSpend | contracts/mockWallet/MockInputImpl.sol:155-159 | A balance only goes down in a batch with a transfer sent by its holder |
| Accounts.BatchExactly | contracts/mockWallet/MockInputImpl.sol:166-231 | A batch goes through if and only if every amount that counts is there and no balance overflows on the way, and then every holder of every asset has what the movements, receiver by receiver, give it: deposits of the portal, and transfers that the sender can cover |
| Accounts.DepositShares | contracts/mockWallet/MockInputImpl.sol:171-179 | A deposit of the portal gives every holder the sum of the amounts beside its name, in that asset only |
| Accounts.TransferMoves | contracts/mockWallet/MockInputImpl.sol:206-224 | A transfer moves the amount if the sender has it, to the last unit, and otherwise nothing; nobody else is touched |
| Wallet.CheckedSum | contracts/mockWallet/MockPortalImpl.sol:61-65 | The checked sum fails exactly when the amounts do not fit 256 bits |
| Acceptance.EtherDepositExactly | contracts/mockWallet/MockPortalImpl.sol:51-79 | In every run, an ether deposit is accepted if and only if the arrays match, the sum is paid, the encoded input has at most 512 bytes and there is room, the batch of a tenth included; then exactly its blob is added, and a tenth moves the funds holder by holder |
| Acceptance.Erc20DepositExactly | contracts/mockWallet/MockPortalImpl.sol:89-126 | The same for a token that pulls the sum, on the state in which its own calls have left the wallet |
| Acceptance.DirectInputExactly | contracts/mockWallet/MockInputImpl.sol:64-164 | The same for an input sent directly: the operation asked for chooses the decoding, and only 0 and 1 are operations |
| Acceptance.NewEpochExactly | contracts/mockWallet/MockInputImpl.sol:258-263 | A new epoch empties the box and moves no funds |
| Acceptance.WhileAskedNext | contracts/mockWallet/MockPortalImpl.sol:33-38 | While a token is asked every deposit is refused, and inputs and new epochs are taken as ever |
| Wallet.AppliedOnce | contracts/mockWallet/MockInputImpl.sol:64-164 | Over every run each accepted blob, sent directly, by the portal, or by a token while it is asked, sits in one box, and is applied once, in order, when that box fills; not at all otherwise |
| Wallet.ReceivedCovers | contracts/mockWallet/MockPortalImpl.sol:51-126 | What the accepted blobs deposit never exceeds what the portal received, and for a token equals it, nested calls included |
| Wallet.Backed | contracts/mockWallet/MockInputImpl.sol:64-231 | Over every run the total of each asset is what the portal deposited in filled boxes, and with the deposits still waiting it is at most the ether or the tokens received |
| MockWallet.MockInputImpl.DepositBlob | contracts/mockWallet/MockInputImpl.sol:171-179 | The loop credits exactly the listed receivers, for the portal only; it reverts on an overflow or a missing amount |
| MockWallet.MockInputImpl.TransferBlob | contracts/mockWallet/MockInputImpl.sol:181-190 | The loop moves each covered amount and passes over the others; it reverts on an overflow or a missing amount |
| MockWallet.MockInputImpl.ProcessBatchInputs | contracts/mockWallet/MockInputImpl.sol:166-231 | The nested loops have exactly the effect of the batch, or revert exactly when it does |
| MockWallet.MockInputImpl.AddInput | contracts/mockWallet/MockInputImpl.sol:64-164 | The tenth input has the box processed, an eleventh reverts; the lock is free again |
| MockWallet.MockInputImpl.OnNewEpoch | contracts/mockWallet/MockInputImpl.sol:258-263 | The box is emptied, processed or not |
| MockWallet.MockPortalImpl.EtherDeposit | contracts/mockWallet/MockPortalImpl.sol:51-79 | Accepted exactly when the ether sent covers the sum and the input contract takes the deposit |
| MockWallet.MockPortalImpl.Erc20Deposit | contracts/mockWallet/MockPortalImpl.sol:89-126 | Whatever the token calls before it answers, nested deposits being refused by the lock: accepted exactly when the token pulls the sum and the input contract then takes the deposit |
| MockWallet.MockPortalImpl.CallBack | contracts/mockWallet/MockPortalImpl.sol:33-38 | The token's calls run one after the other under the lock, each succeeding or changing nothing |
| MockWallet.MockPortalImpl.Transact | contracts/mockWallet/MockPortalImpl.sol:51-126 | A call takes both contracts to the specified state, or reverts and changes nothing |
| MockWallet.Run | contracts/mockWallet/MockInputImpl.sol:64-263 | The contracts, deployed and sent any calls, end in the state that Play computes |

## Left out

- Contracts.Transact: gas is not modelled; a transaction reverts only where the code says so.
- Contracts.DescartesV2.ResolveDispute: disputes of a manager other than the shipped one are settled inside the transaction that starts them; a dispute that stays open between transactions is not modelled.
- Outputs.OutputImpl.ExecuteOutput: a proof is any answer that depends on the epoch hash and the two positions, and a destination's calls are those to this contract only.
- Outputs.OutputsAtMostOnce: that proofs are genuine, and read positions inside the drives only, is assumed of the Merkle library and of the hashes.
- NodeTypes.GetSenderClaim: a sender with two claims may get either, as in the unordered table.
- FinalizedFold.Sync: a finalized epoch keeps the number and time of its block, not the block's hash.
- EpochFold.EpochStepIsSync: a phase number other than the contract's three, and errors of the node's connection, are not modelled.
- NodeLoop.React: ends at a slice that starts beyond the end, because whether the vector library then fails or yields nothing is not part of the repository; transactions are sent and their fate is not followed.
- CatchUp.Machine.GetEpochClaim: the claim is any function of the epoch and its inputs, not of the machine's earlier states; skipped inputs and the machine's own failures are not modelled.
- MockWallet.MockPortalImpl.Erc20Deposit: what a token says it has moved counts as moved. The balances of tokens are indexed by token first.
- Wallet.Backed: withdrawals from the portal, which the mock ledger does not record, are not modelled.
- Keccak, ABI encoding, Merkle proofs and the bit mask library are not part of the repository: free terms, tuples, the size of an encoded deposit, a yes or no, and a set of positions stand for them.
- Caching and chain reorganisations are handled by the state-fold library: a query at a block is the read at that block.
- The creation event, contract addresses and the wiring of the delegates are constants of a deployment.
- Network access, the gRPC client, the transaction manager, the block subscriber and configuration are input and output only.
- PortalImpl, MockOutputImpl, the accumulating-epoch delegate, getters and access modifiers would add only easy members; modifiers appear as preconditions or as who may call whom.
