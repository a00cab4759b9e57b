# vTorrent: governance and the Bitcoin SPV view, in Dafny

This project models the two stateful cores of vTorrent-NG and proves what they promise over every run.

**Governance.** Proposals, votes weighted by unspent outputs, vote locks that travel with coinstakes, one-shot
activation of parameters, undo records, and the block journal behind reorganizations. `GovernanceState` is a class whose
methods are proved against the rules in `GovernanceRules`. What those rules accept and do is said a second time, of the
state alone, in `GovernancePolicy`, `Activations` and `LedgerPolicy`, and proved to be the same; `PolicyRuns` draws the
consequences for whole runs. `Ledger` puts those rules into the chain's step relation,
from before governance is active, and `VoteTracking`, `VoteSafety` and `ProposalLifecycle` prove invariants of every run.
`BlockJournal` carries them across rollbacks, with the totals of `Totals`, on the general histories of `Histories`.
`QuorumSafety` brings both together: what is counted for a proposal against what its quorum is measured by. `Money`
compares the value of all unspent outputs with the recorded supply.
`Deployments` and `Consensus` cover activation, rewards and the stake kernel.

**Bitcoin SPV.** The work-based header chain with pruning, the fork search, compact-filter agreement, coin selection,
rollback and rescan, and scanning with peers that fail. `HeaderChain`, `FilterHeaderStore`, `UtxoSet`, `BtcSync` and
`BtcWallet` are classes. What their methods compute is restated on the block lineage alone, without reference to what
happens to be stored; `ScanMeaning` says what a scan finds in terms of the blocks. `UnsoundReorgs` holds header chains on which the wallet goes wrong, each reached by accepting
headers alone: where something is pruned, it is because the headers of one synchronization outgrow the window.

**Merkle commitments.** The in-place root, inclusion proofs and the commitment to the unspent outputs.

## How the model is set up

- Signature recovery, script classification, payload decoding and proposal ids are functions in `Env`; filter and pair
  hashes are function parameters. No proof assumes anything about them.
- A Bitcoin block hash is the header that was hashed, as a term. This says that hashes do not collide and that no block
  is its own ancestor. A filter fingerprint is likewise the data it hashes.
- A transaction id is used once on any one chain. The ledger records the used ids and refuses a second use.
- The ledger accepts every transaction that passes the governance, spending and shape rules. The chain refuses more
  (scripts, amounts, kernels, supply), so its runs are among those covered.
- Governance becomes active for a block exactly if the deployment in `Env` is active on the versions of the blocks
  before it. A run starts on any chain on which it has not been active yet.
- Proposal ids are the eight bytes read as a big-endian number. `restore_undo` panics on a missing proposal;
  `NeverPanics` is the condition that it does not, and every undo record built here is proved to meet it.
- Proof of work and difficulty of a Bitcoin header are one verdict passed to `AddHeader`.

## Where the code falls short of its documentation

The code was followed. Each case has the exact condition and a concrete input.

- `check_stake_kernel_v2` says only the entire staked supply can always win. `AlwaysWinsExactly` gives
  the real bound; `AlwaysWinsWithoutWholeSupply` is an instance.
- `header_work` says work is 2^256 over the target, saturated to 128 bits. `WorkIsDocumentedExactly` gives the bits for
  which it is; `WorkCanOverstate` is an instance.
- `is_ancestor` promises to tell whether a block is on the main chain ending at the tip. By `ReachesExactly` it says so
  only if everything above the block is stored. So a wallet is also rolled back when its tip never left the chain:
  `LeftAloneExactly`, with `UnsoundReorgs.OutOfSight` as an instance.
- `find_fork` promises the highest common height. `ForkIsHighestCommonExactly` says when it gives it.
  `UnsoundReorgs.Overshoot` and `UnsoundReorgs.Undershoot` are chains for which it answers too high and too low.
- `reset_chain_cache_from` says that what lies above the fork is all a reorganization invalidates. A rescan from there
  may lack outputs, which `RescanLessMissing` names, with `RescanCanLose` as an instance. After a wrong fork, or if the
  window starts above the fork, it may also hold outputs that do not exist: `ReorgIsSoundExactly`, with
  `UnsoundReorgs.Overshoot` and `UnsoundReorgs.OutOfSight` as instances.
- It also sets the next height to scan to one above the fork when the wallet had not scanned that far. The blocks between
  the last one scanned and the fork, the fork included, are skipped: no later scan visits them, their payments are not
  found, and an output that one of them spends can stay. `ReorgIsSoundExactly` has this as its second condition; in
  `UnsoundReorgs.Skipped`, with every header stored and the fork right, the skipped block is `c2`.
- A quorum is measured against the stake when the proposal is created. If the least stake is lowered while voting is open,
  outputs that were not part of that stake vote too. `TurnoutNeverExceedsQuorum` holds as long as it is not lowered.
- `deployment_state` promises that only completed periods count. With start height 0 an unfinished period 0 can:
  `EarlyLockInExactly`, `EarlyLockInHappens`. Its threshold test is a percentage only up to a bound:
  `ThresholdTestExactly`, `SaturatedThresholdPasses`.

## Model

| member | source | states |
|---|---|---|
| QuorumSafety.TurnoutNeverExceedsQuorum | vtorrent-node/src/governance.rs:279-304 | over every history of blocks, rollbacks and trims, yes + no + abstain of a proposal is at most the supply its quorum is measured against, unless the least stake has been lowered since its block began |
| QuorumSafety.QuorumsAreCounted | vtorrent-node/src/governance.rs:596-609 | over every history, the supply recorded with a proposal is exactly what could be staked when its block began, wherever in the block the proposal stands |
| QuorumSafety.TurnoutWithinStake | vtorrent-node/src/governance.rs:614-657 | over every run, the votes counted for a proposal weigh at most what could be staked at the start of its block, through any number of coinstakes, unless the least stake has been lowered since |
| VoteSafety.TurnoutNeverExceedsSupply | vtorrent-node/src/governance.rs:573-717 | over every run, whatever the least stake does, yes + no + abstain of a proposal is at most the total value of the outputs unspent when it was created |
| VoteSafety.NoStakeCountedTwice | vtorrent-node/src/governance.rs:625-717 | over every run, before and after the decision, the tallies are the sum of weights of identities matched one to one with outputs unspent at the creation, each for at most its value; while voting is open these are the identities on record |
| VoteSafety.CountedVotesStayLocked | vtorrent-node/src/governance.rs:658-679 | over every run, each identity counted for an open proposal is carried by exactly one lock, on an unspent output, until at least voting end plus grace |
| VoteSafety.LocksNameTheirProposal | vtorrent-node/src/governance.rs:663-717 | over every run, each lock is live, sits on an unspent output worth its weight, and ends exactly when the proposal it names requires |
| PolicyRuns.VotesWereAuthorized | vtorrent-node/src/governance.rs:614-649 | over every run, each identity on record for a proposal was entered by a vote, in a transaction of that run, that the owner of the output it then named had signed, with unspent mature stake of that identity |
| PolicyRuns.BlockActivations | vtorrent-node/src/governance.rs:546-570 | over every run, a block start tries exactly its due proposals, by activation height, creation height and id, each on the parameters the ones before it left, and ends with what they leave |
| PolicyRuns.OneActivation | vtorrent-node/src/governance.rs:551-569 | a block that tries one proposal sets the parameter it names to its value and no other, exactly if the value is in bounds, the stake ages stay in order and some output can stake afterwards; otherwise nothing changes; the failure mark says which |
| PolicyRuns.ParamsComeFromProposals | vtorrent-node/src/governance.rs:550-570 | over every run, with any number of activations in a block, a parameter that none of them changed is as it was, and one that some did has the value of the last successful one |
| PolicyRuns.ParamsStayInBlock | vtorrent-node/src/chain/chain_reorg.rs:270-320 | over every run, parameters never change within a block |
| Ledger.ActiveExactly | vtorrent-node/src/chain.rs:319-336 | over every run, governance is active for a block if and only if the scheduled deployment is Active, at 90%, on the signals of the blocks before it |
| LedgerPolicy.AcceptedExactly | vtorrent-node/src/chain/chain_reorg.rs:529-838 | a transaction is accepted if and only if its inputs are unspent and distinct, its governance outputs stand in order, no live lock is spent but by a coinstake that returns it whole, and staked value is of a kind and size that may stake; and what is then unspent, locked and recorded is exactly what these say |
| GovernancePolicy.VoteExactly | vtorrent-node/src/governance.rs:611-679 | a vote is accepted if and only if its output is unspent, of a votable kind, large and old enough and signed for by its owner, the proposal is known and open, the identity older than the proposal and not counted, and nothing overflows; then that identity is entered, the tally of its choice raised by its weight, and the output locked until six blocks after the voting |
| GovernancePolicy.RefusedVoteLeaves | vtorrent-node/src/governance.rs:647-662 | a refused vote changes nothing, unless the tally or the unlock height overflows after it was entered, and then only that record |
| GovernancePolicy.ProposalExactly | vtorrent-node/src/governance.rs:111-136 | a proposal is accepted if and only if both windows, the deposit, its burning and the new value are within policy and its id is new; then it is recorded empty, with the stake of now as its quorum |
| GovernancePolicy.TransactionExactly | vtorrent-node/src/governance.rs:573-685 | a transaction passes if and only if each of its outputs does in turn, on the state the ones before it left; malformed messages and unsigned votes never do |
| GovernancePolicy.TransferExactly | vtorrent-node/src/governance.rs:687-717 | a live lock is moved if and only if the transaction is a coinstake with one output of value, to the same script and worth at least as much; it then sits there with identity, weight, age and end unchanged; a refusal changes nothing, and what is not locked passes |
| Activations.ActivateAllExactly | vtorrent-node/src/governance.rs:550-570 | activations in a row each take effect, or fail and are marked so, on the parameters the ones before left |
| Ledger.RunFlagged | vtorrent-node/src/chain.rs:319-336 | over every run, governance has no state before its deployment is active, a block was applied under the active flag if and only if the chain still says its deployment was active there, and active governance never becomes inactive |
| Ledger.BeginIsBlockStart | vtorrent-node/src/chain/chain_reorg.rs:270-290 | skipping the block start while governance is inactive is running it on an empty state |
| VoteSafety.RunInvariant | vtorrent-node/src/chain/chain_reorg.rs:292-320 | the tracking invariant holds after every step of every run, and each snapshot is the set of outputs unspent at its proposal's creation |
| VoteSafety.TxPreserves | vtorrent-node/src/chain/chain_reorg.rs:529-838 | one accepted transaction, with its votes, proposals, spends, outputs and moved lock, keeps the invariant |
| VoteSafety.MovePreserves | vtorrent-node/src/governance.rs:687-717 | moving a locked stake to its new output keeps the invariant |
| VoteSafety.RelockMoves | vtorrent-node/src/governance.rs:697-715 | an accepted coinstake of a locked output puts the lock on an output that exists, under the same script, worth at least as much |
| VoteSafety.BeginPreserves | vtorrent-node/src/governance.rs:525-549 | the start of a block, with expiring locks and closing votes, keeps the invariant |
| VoteTracking.VotePreserves | vtorrent-node/src/governance.rs:614-679 | a counted vote keeps the invariant, its identity and weight being written down |
| VoteTracking.ProposePreserves | vtorrent-node/src/governance.rs:588-610 | an accepted proposal keeps the invariant, its snapshot being the outputs unspent now |
| VoteTracking.TrackedBacked | vtorrent-node/src/governance.rs:644-657 | counted weight is charged to distinct outputs of the snapshot, through any number of coinstakes |
| VoteTracking.VoteRecord | vtorrent-node/src/governance.rs:647-657 | a counted vote raises the tally of its choice by its weight and no other, its identity is new to the proposal, and no other proposal changes |
| ProposalLifecycle.ProposalsStayOnSchedule | vtorrent-node/src/governance.rs:518-571 | over every run, proposals obey the policy windows; decided exactly from voting end on, passed exactly if the tallies won, tried exactly from activation height on |
| ProposalLifecycle.DecisionsAreFinal | vtorrent-node/src/governance.rs:529-549 | over every run, tallies and result never change once decided, and nothing changes once tried |
| ProposalLifecycle.TriedAtMostOnce | vtorrent-node/src/governance.rs:546-569 | over every run, no proposal is activated twice |
| ProposalLifecycle.ParamsChangeOnlyByActivation | vtorrent-node/src/governance.rs:551-570 | over every run, parameters change only when a passed proposal is tried at its activation height, and then some output can stake under the new ones |
| ProposalLifecycle.ParamsStayInRange | vtorrent-node/src/governance.rs:52-74 | over every run from parameters in range, the parameters stay in range |
| ProposalLifecycle.LocksNeverShrink | vtorrent-node/src/governance.rs:676-679 | over every run, until its unlock height a lock lives on with the same identity, weight and age, ending no earlier |
| ProposalLifecycle.TallyIsExactPercentage | vtorrent-node/src/governance.rs:279-304 | a tally wins exactly if voting is over, turnout is at least 33% of the stake and yes at least 66% of the decisive votes, as real fractions |
| GovernanceBlocks.BeginBlockKeepsStakingPossible | vtorrent-node/src/governance.rs:550-570 | after a block start the parameters are unchanged or some output is eligible under them, with any number of activations; no due activation, no change |
| GovernanceBlocks.BeginBlockDeterministic | vtorrent-node/src/chain.rs:386-398 | the state and parameters after a block start are determined, so producer and validator agree |
| GovernanceBlocks.DueOrderUnique | vtorrent-node/src/governance.rs:547-550 | the order of due activations is determined by the proposals alone |
| GovernanceBlocks.BeginBlockRecords | vtorrent-node/src/governance.rs:528-569 | each record is decided, tried or kept as its own dates demand, and none is added or removed |
| Governance.GovernanceState.ProcessTransaction | vtorrent-node/src/governance.rs:573-685 | the loop over outputs leaves the state and error the rules give, including a failure part-way, and succeeds exactly if every output stands in turn |
| Governance.GovernanceState.AcceptVote | vtorrent-node/src/governance.rs:611-679 | a vote is counted and its output locked if and only if it stands; one that is not allowed changes nothing |
| Governance.GovernanceState.CheckVote | vtorrent-node/src/governance.rs:614-649 | the checks pass if and only if the vote is by the owner of unspent mature stake older than the proposal, on an open proposal, for the first time; they give the identity and weight of the lock where there is one |
| Governance.GovernanceState.AcceptProposal | vtorrent-node/src/governance.rs:587-610 | a proposal is recorded if and only if it is within policy and new, and otherwise changes nothing |
| Governance.GovernanceState.TransferStakeLock | vtorrent-node/src/governance.rs:687-717 | a live lock moves if and only if the stake is returned whole; otherwise the transaction is refused and nothing changes; an output without a live lock passes |
| Governance.GovernanceState.BeginBlock | vtorrent-node/src/governance.rs:518-571 | visiting proposals in any order gives the one determined result, the due ones activated in turn |
| Governance.GovernanceState.DecideProposals | vtorrent-node/src/governance.rs:527-549 | every record is decided, and exactly the due ones are collected, once each |
| Governance.GovernanceState.ActivatePending | vtorrent-node/src/governance.rs:551-570 | activations are tried in order, each changing one parameter of what the ones before left, or failing |
| Governance.GovernanceState.UndoSince | vtorrent-node/src/governance.rs:382-421 | the record built takes the present state back to any given earlier one |
| Governance.GovernanceState.RestoreUndo | vtorrent-node/src/governance.rs:424-463 | the changes are taken back last first, for every record that does not panic |
| Governance.GovernanceState.TransactionUndo | vtorrent-node/src/governance.rs:466-511 | the record taken beforehand undoes every outcome of processing the transaction |
| TransactionUndo.TransactionRoundTrip | vtorrent-node/src/governance.rs:424-511 | record, process to any outcome, restore: the starting state exactly |
| TransactionUndo.ProcessWithin | vtorrent-node/src/governance.rs:573-685 | whatever a transaction does, even failing part-way, stays within the entries recorded beforehand |
| GovernanceUndo.UndoesRestores | vtorrent-node/src/governance.rs:424-463 | a record with one right entry per changed id never panics and restores the earlier state exactly |
| GovernanceUndo.RestoreStackExact | vtorrent-node/src/chain/chain_reorg.rs:162-214 | popping any number of stacked records gives the state at the chosen earlier block |
| BlockJournal.ReorgsReachOnlyRunStates | vtorrent-node/src/chain/chain_reorg.rs:881-1000 | a node that extends, rolls back and trims journals in any order, also across the activation of governance, is always in a state some rollback-free run reaches |
| BlockJournal.BlockIsUndone | vtorrent-node/src/chain/chain_reorg.rs:162-214 | rolling a block back restores governance, parameters, outputs, height, time, staked and issued supply, and claimed addresses |
| BlockJournal.FailedBlockIsUndone | vtorrent-node/src/chain/chain_reorg.rs:388-423 | a block that fails part-way through any transaction is taken back exactly: governance, parameters, outputs, supplies and claims |
| BlockJournal.StakedSupplyIsExact | vtorrent-node/src/chain/chain_reorg.rs:323-397 | over every history of blocks, rollbacks and trims, the recorded staked supply is exactly the value of the stakeable outputs, as long as that value fits 64 bits |
| BlockJournal.BlockKeepsStakedExactly | vtorrent-node/src/chain/chain_reorg.rs:270-383 | a block, with its spends, outputs and a change of the least stake, keeps the staked supply exact if and only if the stakeable value fits 64 bits |
| Totals.TxStake | vtorrent-node/src/chain/chain_reorg.rs:621-716 | an accepted transaction changes the stakeable value by exactly what it adds to the journal |
| Money.SupplyCoversMoney | vtorrent-node/src/chain/chain_reorg.rs:363-370 | over every history of blocks, rollbacks and trims, all unspent outputs together are worth at most the recorded supply, which is at most 20 million coins, plus what the claimed legacy addresses are worth, as long as claims pay no more than that and it stays within the cap |
| Money.TxValue | vtorrent-node/src/chain/chain_reorg.rs:529-838 | an accepted transaction leaves no more value unspent than there was, less its inputs, plus its outputs |
| Money.IssuedExactly | vtorrent-node/src/chain.rs:54-60 | a transaction issues what it pays out beyond its inputs, and the claim of an address issues nothing |
| BlockJournal.RollbackKeepsOk | vtorrent-node/src/chain/chain_reorg.rs:162-214 | a rollback computed from the state and the journal leads exactly to the state, totals and versions the block started from |
| Histories.ShortenedIsJournaled | vtorrent-node/src/chain/chain_reorg.rs:162-214 | after a rollback the remaining journals are those of the blocks before |
| BlockJournal.RollbackRestoresExactly | vtorrent-node/src/chain/chain_reorg.rs:409-419 | rolling back journaled mutations restores the outputs if and only if none inserted over an output live at the start and not yet spent |
| BlockJournal.RollbackLosesOverwritten | vtorrent-node/src/chain/chain_reorg.rs:412-417 | inserting over a live output is the failing case |
| BlockJournal.TrailMutations | vtorrent-node/src/chain/chain_reorg.rs:323-364 | the outputs after each transaction of a block are those the journaled mutations lead to |
| Consensus.ReachableParamsExactly | vtorrent-node/src/governance.rs:52-74 | the parameter sets reachable from the default are exactly those within the allowed ranges |
| Consensus.ApplyExactly | vtorrent-node/src/governance.rs:52-74 | a change is made if and only if its value is within the bounds of the parameter it names and the stake ages stay in order; it sets that parameter and no other |
| Consensus.ApplyByName | vtorrent-node/src/governance.rs:52-74 | which parameter each id sets, on the default parameters |
| Consensus.RewardIsExactAndBounded | vtorrent-node/src/consensus.rs:114-128 | under every reachable parameter set the product of stake, capped age and rate fits 128 bits, the reward is its exact quotient, the cast loses nothing and the reward is at most a tenth of the stake |
| Consensus.RewardOfAYear | vtorrent-node/src/consensus.rs:114-128 | with the age cap at a year, a stake of a year or more earns its annual rate in basis points |
| Consensus.SplittingNeverPays | vtorrent-node/src/consensus.rs:114-128 | cutting a stake into any parts never earns more than leaving it whole |
| Consensus.WinnersCount | vtorrent-node/src/consensus.rs:234-251 | exactly min(2^32, floor(value * 2^32 / total) + 1) kernel values win |
| Consensus.KernelSharesAddUp | vtorrent-node/src/consensus.rs:216-227 | stakes that make up the whole supply win between 2^32 and 2^32 + k values in all; stakes within it never more |
| Consensus.AlwaysWinsExactly | vtorrent-node/src/consensus.rs:216-251 | a stake wins with every kernel value if and only if it lacks at most one part in 2^32 of the supply |
| Consensus.AlwaysWinsWithoutWholeSupply | vtorrent-node/src/consensus.rs:220-222 | a stake one unit short of the supply that wins every time |
| Consensus.V2AcceptsV1Exactly | vtorrent-node/src/consensus.rs:179-251 | every v1 hit is a v2 hit if and only if the staked supply is at most 1000 * 2^32 |
| Deployments.StateOf | vtorrent-node/src/deployments.rs:58-115 | the scan gives the state settled by the first period that locks in, or its absence |
| Deployments.LockInAt | vtorrent-node/src/deployments.rs:77-96 | the loop finds the first period from the start that locks in, and if it finds none there is none at any later height |
| Deployments.StateUnique | vtorrent-node/src/deployments.rs:98-114 | that state is unique |
| Deployments.CountSignals | vtorrent-node/src/chain.rs:608-623 | each counter is the number of signalling blocks of its period |
| Deployments.SignalsExactly | vtorrent-node/src/chain.rs:616-618 | a version signals a bit if and only if that bit is set in its binary form |
| Deployments.GovernanceActive | vtorrent-node/src/chain.rs:319-336 | at any height, governance is active exactly if the scheduled deployment is in the state Active there on the chain's signals |
| Deployments.DeploymentMovesForward | vtorrent-node/src/deployments.rs:58-115 | on an append-only chain the state only moves forward; Active and Failed are final |
| Deployments.LockInLastsOnePeriod | vtorrent-node/src/deployments.rs:98-106 | with start height at least 1, lock-in comes from one completed period that met the threshold before the timeout, lasts exactly the next period, then is Active |
| Deployments.ActiveIsFinal | vtorrent-node/src/deployments.rs:98-106 | an active deployment is active on every longer chain |
| Deployments.PastAnswersStand | vtorrent-node/src/chain.rs:319-336 | whether governance was active at a height the chain has reached does not depend on how far it has grown since |
| Deployments.EarlyLockInExactly | vtorrent-node/src/deployments.rs:77-96 | some chain reports lock-in on an unfinished period if and only if the threshold is a percentage, the start height is 0, the first period ends before the timeout and all its blocks but one can meet the threshold |
| Deployments.EarlyLockInHappens | vtorrent-node/src/deployments.rs:80-96 | a chain with nine of ten blocks of its first period that reports lock-in |
| Deployments.SaturatedThresholdPasses | vtorrent-node/src/deployments.rs:91-94 | a count of one in a hundred that passes a threshold of all blocks |
| Deployments.ThresholdTestExactly | vtorrent-node/src/deployments.rs:91-94 | the saturating test is the true percentage for every count if and only if the threshold is within what a saturating count reaches |
| Merkle.ComputeMerkleRoot | vtorrent-node/src/block.rs:271-304 | the in-place reduction computes the top-down duplicate-last tree for every number of leaves |
| Merkle.RootExactly | vtorrent-node/src/block.rs:271-304 | that tree bottom up: zero for no leaf, the leaf for one, and else the root of neighbours hashed in pairs, left before right, a last odd one with itself |
| Merkle.ReduceLevel | vtorrent-node/src/block.rs:284-301 | one pass overwrites a level by the level above it |
| Merkle.VerifyInclusion | vtorrent-btc/src/merkle.rs:21-42 | a proof is accepted exactly if folding it gives the root |
| Merkle.GenuineProofsAccepted | vtorrent-btc/src/merkle.rs:27-38 | the genuine proof of every leaf is accepted |
| Merkle.AcceptedProofsAreSound | vtorrent-btc/src/merkle.rs:17-42 | an accepted proof of tree depth for an index in range is the genuine proof of the leaf there, or a step of its fold hashes another pair than the tree does at that place to the same hash |
| Merkle.RootBindsLeaves | vtorrent-node/src/block.rs:266-304 | equally long leaf lists with one root are equal, or some node of the two trees hashes different children to the same hash |
| Merkle.RootIgnoresRepeatedLast | vtorrent-node/src/block.rs:284-292 | repeating the last leaf of an odd list does not change the root |
| Merkle.UtxoRootIsCanonical | vtorrent-node/src/block.rs:397-416 | the sorted commitment is the same for every listing of the same outputs, and equals the ordered one on a sorted listing |
| Merkle.ComputeUtxoRootSorted | vtorrent-node/src/block.rs:401-409 | the commitment is the root over the same outputs in the order of transaction id and then output number |
| Merkle.ComputeUtxoRootOrdered | vtorrent-node/src/block.rs:411-416 | the commitment is the root over the leaves in the order given |
| Lineage.AgreeExactlyBelowMeet | vtorrent-btc/src/wallet.rs:38-54 | two lineages agree at a height if and only if it is at or below where they meet |
| Lineage.WorkIsDocumentedExactly | vtorrent-btc/src/headers.rs:381-400 | for every nonzero target, header work is 2^256 over it, saturated to 128 bits, if and only if the exponent is at least 20 or the mantissa at most 2^(152 - 8 * exponent), and the exponent is at most 35 or the mantissa not 1 |
| Lineage.WorkElsewhere | vtorrent-btc/src/headers.rs:381-400 | work is zero without a mantissa, the greatest below exponent 20, and one above exponent 35 with mantissa 1 |
| Lineage.WorkCanOverstate | vtorrent-btc/src/headers.rs:393-397 | bits whose quotient fits 107 bits and whose work is the greatest of 128 bits |
| HeaderChain.HeaderChain.constructor | vtorrent-btc/src/headers.rs:66-87 | an anchored chain holds genesis with its work |
| HeaderChain.HeaderChain.AddHeader | vtorrent-btc/src/headers.rs:90-215 | when a header is accepted; stored height and work are those of the lineage, the tip has the most work of any header ever accepted and never less than before, and the store stays bounded |
| HeaderChain.HeaderChain.Prune | vtorrent-btc/src/headers.rs:226-234 | the store is cut to the window exactly if it has outgrown it by the slack, so it stays bounded |
| HeaderChain.HeaderChain.PruneForce | vtorrent-btc/src/headers.rs:237-270 | what remains is the stored best chain down to the window, and genesis, at most two above the window length |
| HeaderChain.HeaderChain.SetRetention | vtorrent-btc/src/headers.rs:218-221 | the window is set and enforced at once |
| HeaderChain.HeaderChain.HashesFrom | vtorrent-btc/src/headers.rs:348-372 | the best chain from a height up, ascending, as far down as it is stored |
| HeaderChain.HashesFromExactly | vtorrent-btc/src/headers.rs:345-372 | the same in terms of lineage: consecutive ancestors of the tip, from the requested height if stored that far |
| HeaderChain.HeaderChain.IsActiveAnchor | vtorrent-btc/src/headers.rs:332-343 | whether a block is found on the stored best chain at a height |
| HeaderChain.OnChainExactly | vtorrent-btc/src/headers.rs:331-343 | the same in terms of lineage: the ancestor of the tip at that height, with the chain stored down to it |
| HeaderChain.PruneInvisibleInWindow | vtorrent-btc/src/headers.rs:223-270 | a prune changes no answer about heights inside the window |
| Wallet.CheckAncestor | vtorrent-btc/src/wallet.rs:16-36 | whether following stored parents from the tip finds the block |
| Wallet.ReachesExactly | vtorrent-btc/src/wallet.rs:15-36 | that is: an ancestor, with everything above it stored |
| Wallet.FindFork | vtorrent-btc/src/wallet.rs:39-54 | the fork for every store and every former tip: the meeting height, genesis or the window floor |
| Wallet.ForkIsHighestCommonExactly | vtorrent-btc/src/wallet.rs:38-54 | the fork is the highest common height if and only if both lineages are stored down to it, or the height fallen back to is the right one |
| UnsoundReorgs.Overshoot | vtorrent-btc/src/wallet.rs:38-54 | a chain, reached by accepting headers, whose fork is above every common block and whose rescan can hold a coin of the abandoned block |
| UnsoundReorgs.Undershoot | vtorrent-btc/src/wallet.rs:38-54 | a chain so reached whose fork is below the highest common block |
| UnsoundReorgs.OutOfSight | vtorrent-btc/src/wallet.rs:15-36 | a chain so reached on which an ancestor of the tip is not found, its fork is above it, and the rescan can hold a coin that was spent |
| UnsoundReorgs.Skipped | vtorrent-btc/src/wallet.rs:173-184 | a chain with every header stored and the fork right, on which a wallet that had not scanned up to the fork can be left holding a coin a skipped block spent |
| Wallet.LeftAloneExactly | vtorrent-btc/src/wallet.rs:559-579 | a wallet is left alone, whatever it holds, if and only if its old tip is an ancestor of the new one and everything above it is stored |
| Wallet.BtcWallet.ResetChainCacheFrom | vtorrent-btc/src/wallet.rs:173-196 | coins above the fork, the completed scan and all filter state go, and a rescan above the fork is scheduled |
| Wallet.BtcWallet.AfterHeaders | vtorrent-btc/src/wallet.rs:546-587 | a restored wallet is cleared; then nothing is dropped if the old tip is found on the best chain, and exactly what lies above the fork if it is not; flags and filters follow, and filters are pruned to the chain |
| Wallet.RescanStartsThere | vtorrent-btc/src/wallet.rs:173-184 | the rescan starts where the reaction sets the next height, or at the window if that is higher |
| Wallet.ReorgIsSoundExactly | vtorrent-btc/src/wallet.rs:167-196 | for every store and every wallet that has scanned the old chain up to some block: no block contents make the rescan hold an outpoint that a scan from scratch does not, if and only if it starts at most one above the meeting point and at most one above the last block scanned, or nothing scanned before survives |
| Wallet.ReorgThenRescan | vtorrent-btc/src/wallet.rs:167-196 | for every store in which that holds and the range to scan is whole, and every wallet, with its gaps and reservations: fork search, rollback and rescan leave exactly the outpoints of a scan from scratch, less the missing ones and those still reserved |
| Wallet.MeetOfAncestor | vtorrent-btc/src/wallet.rs:38-54 | a wallet that stopped part-way up the old chain has in common with the new one what the old chain has, as far as it got |
| Wallet.BtcSync.ScanInner | vtorrent-btc/src/sync.rs:811-973 | in requests of 1000, a peer that fails after any number of blocks has had exactly those counted, in order, and those of them whose filter matches recorded, coins and reservations alike |
| Wallet.MatchingIsEnough | vtorrent-btc/src/sync.rs:896-920 | if every block whose filter does not match has nothing for the wallet as it then stands, fetching the matching blocks gives what fetching all of them would |
| Wallet.BtcSync.MultiPass | vtorrent-btc/src/sync.rs:729-767 | whatever the peers do, a prefix of the range is scanned, each block once and in order; the full length is reported exactly if all of it was; and an error exactly if nothing was and the range has gaps or every peer failed |
| Rescan.RecordMatchingOutputs | vtorrent-btc/src/sync.rs:469-497 | an outpoint is held afterwards if and only if it was and is not an input, or the transaction pays the wallet there and it is not still reserved; a new coin has the value and address of that output; reservations that were spent end |
| ScanMeaning.FreshScanExactly | vtorrent-btc/src/sync.rs:469-497 | a scan from scratch holds an outpoint if and only if some transaction on the chain from the birthday on pays the wallet there and nothing later on the chain spends it; every coin has the value, address and height of such a payment |
| ScanMeaning.BlockExactly | vtorrent-btc/src/sync.rs:469-497 | the same for one block on what was held before it |
| Rescan.MissingOfExactWallet | vtorrent-btc/src/utxo.rs:119-126 | for a wallet that lacked nothing, the missing outputs are those of the common part that the blocks above the fork spent and the new blocks neither spend nor pay again |
| Rescan.NeverInventsExactly | vtorrent-btc/src/utxo.rs:119-126 | for any rollback height and any start of the rescan: no block contents make the wallet hold an outpoint that a scan from scratch does not, if and only if the rescan starts at most one above where the scanned chain and the new one meet, or nothing scanned before survives |
| Rescan.WalletsNeverInvent | vtorrent-btc/src/utxo.rs:92-126 | over any number of scans, reservations and reorganizations, a wallet never holds an outpoint that a scan from scratch up to the same block does not, as long as every rescan starts at most one above where the blocks it had scanned meet the new chain, so that none is skipped |
| Rescan.RescanLessMissing | vtorrent-btc/src/utxo.rs:119-126 | for a wallet that may already lack outputs and has any reserved, rollback and rescan hold exactly the outpoints of the fresh scan, less those of the common part that were gone before and are not found again, and less those still reserved |
| Rescan.ScanHeldKeys | vtorrent-btc/src/utxo.rs:92-103 | reservations take away from a scan exactly the outpoints still reserved at its end |
| Rescan.RescanCoinsAgree | vtorrent-btc/src/utxo.rs:92-126 | without reuse of outpoints, value, address and height of every coin agree with the fresh scan |
| Rescan.RollbackLeaves | vtorrent-btc/src/utxo.rs:124-126 | a rollback leaves exactly the coins of the common part that the old branch did not spend |
| Rescan.RescanCanLose | vtorrent-btc/src/utxo.rs:119-126 | a reorganization to more work after which a coin spent only on the abandoned branch is missing |
| UtxoSet.UtxoSet.Add | vtorrent-btc/src/utxo.rs:92-103 | a coin is added unless reserved or present |
| UtxoSet.UtxoSet.Remove | vtorrent-btc/src/utxo.rs:105-107 | exactly that outpoint goes |
| UtxoSet.UtxoSet.RollbackAbove | vtorrent-btc/src/utxo.rs:124-126 | exactly the coins above the height go |
| UtxoSet.UtxoSet.Reserve | vtorrent-btc/src/utxo.rs:128-131 | a reserved outpoint stops being spendable |
| UtxoSet.UtxoSet.ReserveUtxo | vtorrent-btc/src/utxo.rs:135-140 | the same, keeping the coin's details |
| UtxoSet.UtxoSet.NoteSpend | vtorrent-btc/src/utxo.rs:149-159 | a spent reservation ends and is remembered |
| UtxoSet.UtxoSet.Release | vtorrent-btc/src/utxo.rs:175-180 | a released reservation ends |
| UtxoSet.UtxoSet.Select | vtorrent-btc/src/utxo.rs:221-238 | succeeds if and only if the amounts are sane, there is a coin and the coins cover the sum; the choice covers it with as few coins as possible, or one for nothing, and no choice of as many is worth more |
| UtxoSet.FrontIsWorthMost | vtorrent-btc/src/utxo.rs:226-236 | no choice of coins is worth more than as many of the largest |
| Filters.FilterHeaderStore.ObserveCandidate | vtorrent-btc/src/filters.rs:185-247 | the number of groups behind the candidate for this tip, or a refusal exactly if it is enough but contradicts what is adopted; nothing is adopted before; every record and every checkpoint adopted was so backed, and adopted filters never change |
| Filters.KeyExactly | vtorrent-btc/src/filters.rs:249-266 | two candidates are counted together if and only if they report the same tip, the same checkpoints and the same filters |
| Filters.FilterHeaderStore.Vote | vtorrent-btc/src/filters.rs:195-214 | a group is counted up to the voter limit, and every backing ever counted is remembered |
| Filters.FilterHeaderStore.Enter | vtorrent-btc/src/filters.rs:195-208 | a new tip starts over, the oldest candidate is evicted first, and the queue lists the live candidates once |
| Filters.FilterHeaderStore.Adopt | vtorrent-btc/src/filters.rs:219-246 | all of an agreed candidate is taken over exactly if it contradicts nothing adopted |
| Filters.FilterHeaderStore.ApplyRange | vtorrent-btc/src/filters.rs:118-166 | a range is applied whole or not at all, exactly if every filter fits the records and checkpoints |
| Filters.RangeIsChained | vtorrent-btc/src/filters.rs:134-160 | each filter header of a range is the hash of its filter with the header before it, and a block is recorded with its own height, filter and header |
| Filters.FilterHeaderStore.ReconcileCheckpoints | vtorrent-btc/src/filters.rs:36-70 | accepted exactly if the count is right and nothing known differs; a known checkpoint is never replaced, even by a refused list, and every new one is listed; a new tip forgets who agreed |
| Filters.FilterHeaderStore.RetainCheckpoints | vtorrent-btc/src/filters.rs:79-83 | a checkpoint at a regular height stays exactly if it is at most one interval below the window and not above the tip, and the floor is the last such height below the window |
| Filters.FilterHeaderStore.Prune | vtorrent-btc/src/filters.rs:85-97 | which records and checkpoints stay, unchanged, and that a new tip ends the collection of votes |
| Filters.FilterHeaderStore.Clear | vtorrent-btc/src/filters.rs:100-109 | everything stored goes |

## Left out

- Byte encodings of proposals and votes, and `op_return_data`: payloads arrive decoded; only easy round trips would be added.
- Checks of `apply_transaction_journaled` beyond locks, inputs and outputs: leaving them out allows more runs, not fewer.
- The 63-bit bound on one block's staked change and the test that amounts stay below the money cap: leaving them out allows more runs, not fewer.
- Mempool outputs, which no scan of blocks produces: a fresh scan holds confirmed coins only.
- QuorumSafety.TurnoutNeverExceedsQuorum: goes one way; after the least stake was lowered the bound may or may not hold, depending on who votes.
- HeaderChain.HeaderChain.AddHeader: folds proof of work and difficulty into one verdict; on a parent at height 2^32 - 1, where the source panics, it refuses.
- Header chains without an anchor, which only exist in tests; `block_locator`; the network group of an address, which is passed in.
- Merging of requests, timeouts, locks, sockets and persistence: input and output.
- Order book, swap contracts and their scans, key derivation, signing, address and message codecs, migration, daemon, UI.
