# Verification of the Sentrix node core

Dafny models of the parts of the Sentrix node whose correctness spans many calls, with proofs of what
they keep over whole runs:

* **Consensus.** `EngineSpec` is the BFT engine on values, `EngineObject` the same engine as an object whose
  methods are proved against it. On top of it: no double voting (`EngineRuns`), the lock (`EngineLock`) and
  the bytes it lets the engine re-propose (`ReproposeCache`), exact tallies (`Tallies`), the round-skip scans
  and what they do to an engine (`RoundSkip`, `PeerRounds`), quorum arguments (`LockedQuorums`), agreement of
  the whole multi-engine system (`Agreement`) and the run in which it fails (`Disagreement`). On the other
  side, what an engine must do: who may propose (`Election`), the cause of every vote and action
  (`VoteCauses`), and the round that everyone hears (`GoodRounds`). `Driver` is the action cascade of the validator loop and its progress measure.
* **Signing.** `LastSignGuard` is the persistent guard under crashes and failed writes, `Resume` its
  composition with a restarted engine, `SigningPayload` the bytes that are signed, `SignedVotes` the guard
  and those bytes together.
* **Block execution.** `Ledger`, `Rewards`, `RewardDust` and `Tokenomics` are the money, `ExecutorSpec`
  the two-pass executor on values, `Executor` the same as an object with snapshot and rollback. On top
  of it: which blocks are let through (`Admission`) and which are accepted (`Acceptance`), conservation
  (`Conservation`), every address by itself (`Payouts`, `AccountFlows`, `Wealth`, `WealthRuns`), Pass 1
  against Pass 2 and the treasury (`Solvency`, `SolventRuns`), nonces (`ReplayFree`), rollback and the block
  window (`ChainWindow`), the state trie (`StateTrie`, `TrieMirror`, `TwoSpellings`), what the hash of a block
  commits (`StateRoots`), and the waiting transactions, statistics and indices (`BlockEffects`).

`Sums` holds the finite sums that stake, balances and rewards share, `BftTypes` the common vocabulary.

## Conventions

* A mutable structure of the node is a class; its methods state their whole new state as a function of
  the old one, and the theorems are about that function. Failing operations return the state they leave
  behind.
* Widths are explicit: `u32` and `u64` are bounded, saturating, wrapping and checked operations are
  written as such.
* Hash maps are maps, and every place where the node iterates one in arbitrary order takes an arbitrary
  answer; uniqueness is then proved.
* A vote can be added to the network only under the name of its author, or of any faulty validator.
  Digests and hashes are injective. Timeouts may happen at any moment.

## What turned out not to hold as stated

* `advance_round` saturates at round 2^32 - 1 while clearing the cast flags, so double voting is possible
  there and only there (`EngineRuns.AdvanceSafeIff`). The resume rule has the same edge
  (`Resume.ResumeWorksIff`).
* Agreement is false of the node as a whole. An engine that is locked without cached bytes proposes a fresh
  block and bundles a prevote for it, which is not the vote its engine casts
  (`Agreement.EmbeddedPrevoteAgrees`); receivers count it, and it can complete a second quorum.
  `Disagreement.AgreementFails` builds the run, with less than a third faulty, no relax and no restart.
  `Disagreement.AgreementIff` gives the exact guard: a proposer must not bundle a prevote while it is locked
  on another block. The engines by themselves, without bundled prevotes, always agree
  (`Agreement.Agreement`).
* The comment on the stale-lock relax says that releasing the lock cannot fork. The same cast of validators
  reaches two finalizations with the relax alone, without any bundled prevote (`Disagreement.AgreementFails`
  for mode `Relaxing`).
* The trie does not always mirror the accounts. Addresses are accepted in any letter case, accounts are kept
  per spelling and leaves are not, so one transfer to another spelling breaks the mirror
  (`TwoSpellings.PaymentBreaksMirror`); `TrieMirror.RunMirrorsIff` says exactly when it holds.
* The comment on the guard's initial state says every tuple from (0, 0, 0) on is allowed; the code
  refuses exactly (0, 0, proposal) (`LastSignGuard.FirstRequest`). A failed persist leaves memory ahead of
  the file, and rebroadcasting that vote is the one unsafe call (`LastSignGuard.CallSafeIff`).
* `total_burned` rounds every fee up on its own, while the burn is rounded once per block
  (`Conservation.CounterConservesIff`).
* The comments call the treasury equal to all accumulators. Rounding leaves dust in the treasury
  (`Rewards.DistributionLeavesDust`, bounded by `RewardDust.OnlyDustIsLost`); what holds is that it
  covers them.
* Rollback cuts the list of blocks by length, which undoes nothing once the window is full
  (`ChainWindow.RollbackExactIff`, `ChainWindow.FullWindowKeepsRejected`). The stored transaction index is
  not rolled back at all (`ChainWindow.IndexAfterFailure`).
* The sum of the stakes in a justification wraps at 64 bits. `Rewards.NeverOverpaysIff` says exactly for which
  weights a distribution can then credit more than the reward.
* The guard does not grant everything a resumed engine's driver signs. A prevote that is re-emitted after the
  precommit of its round was handed out is refused (`Resume.RetriedPrevoteRefused`), and so is a proposal that
  is rebuilt with other bytes in the round of the last one; nothing else is (`Resume.ResumedSigningIff`).
* A claim pays pending and delegator rewards added up with saturation and then drains both, so what does not
  fit in 64 bits is lost (`AccountFlows.ClaimKeepsWealthIff`); behind the reward fork a sound node never gets
  there (`WealthRuns.SoundRunWealth`).
* The bytes a lock promotes are the last ones stashed in its round, with one exception: a proposal that makes
  the engine give up a stale lock also drops what was stashed before it (`ReproposeCache.LastStashIsStaged`).
* The comment on the reward counts on 64 halvings until emission ends; it ends with the 27th
  (`Tokenomics.EmissionEndsIff`).
* The comment on the emission fork assumes it comes in the first era; `Tokenomics.RewardFallsAcrossForkIff`
  adds that the old cap must not bite yet.
* The comment on the version 2 magic calls its payloads unambiguously distinct from version 1. That rests
  on the fixed lengths, not on the byte (`SigningPayload.VersionsOverlap`, `SigningPayload.VersionsApart`).

## Model

The results over whole runs come first, then the steps behind them, then the objects that are proved against
the value model.

| member | source | states |
|---|---|---|
| `Agreement.Agreement` | crates/sentrix-bft/src/engine.rs:439-899 | no run of the engines contains two finalizations of different hashes at one height, in whatever rounds and by whichever engines, for faulty stake of at most a third and no stale-lock relax; nothing is assumed of proposers when proposals carry no vote, and with bundled prevotes only that a proposer is not locked on another block |
| `Disagreement.AgreementIff` | crates/sentrix-bft/src/engine.rs:465-487 | agreement holds in every run if and only if no proposer bundles a prevote while it is locked on another block and no lock is dropped as stale |
| `Disagreement.AgreementFails` | bin/sentrix/src/main.rs:1336-1372 | with bundled prevotes from locked proposers, as the node builds them, or with the stale-lock relax, a run of four correct engines and one faulty validator with 4 of 13 units of stake finalizes two blocks at one height |
| `GoodRounds.HeardRoundEnds` | crates/sentrix-bft/src/engine.rs:439-899 | a round opened by the elected proposer (or by a timeout), in which supermajorities of prevotes and then precommits for the same vote arrive in any order, makes the engine prevote it, precommit it, and finalize the block justified by exactly those precommits, or skip the round if it is nil |
| `VoteCauses.EmitsIff` | crates/sentrix-bft/src/engine.rs:360-968 | an input makes an engine hand out a vote if and only if the vote is due (round opened, supermajority completed, or timed out with nil) or it is the pending one, on a timeout or on its own proposal |
| `VoteCauses.EveryVoteWasDue` | crates/sentrix-bft/src/engine.rs:360-968 | in every run each vote handed out, repeated or not, was due: a prevote for a block answers the elected proposer’s proposal of it, a precommit for a block a prevote supermajority for it |
| `Election.EveryoneProposes` | crates/sentrix-staking/src/staking.rs:1088-1095 | in any n consecutive rounds of a height each of the n active validators is elected exactly once |
| `EngineLock.LockDiscipline` | crates/sentrix-bft/src/engine.rs:465-487 | over every run: between a non-nil precommit and a prevote for another block of the height there is a supermajority for another block in a later round, or the 16-round relax without bytes |
| `EngineRuns.NoDoubleVote` | crates/sentrix-bft/src/engine.rs:587-653 | over every run, cast votes strictly increase in (height, round, step), and all votes ever handed out for one position, retries included, are one and the same |
| `EngineRuns.AdvanceSafeIff` | crates/sentrix-bft/src/engine/state.rs:91-104 | because the round counter saturates, advancing after a prevote lets a later run contradict it if and only if the round is already 2^32 - 1 |
| `Tallies.TalliesStayExact` | crates/sentrix-bft/src/engine.rs:694-855 | in every run each weight is the summed stake of the distinct validators recorded for that hash |
| `Tallies.FinalizeIsJustified` | crates/sentrix-bft/src/engine.rs:835-862 | a finalization names exactly the recorded backers of its hash, at table stake, and they reach the threshold |
| `EngineLock.ReproposedBytesBelongToLock` | crates/sentrix-bft/src/engine.rs:1161-1185 | in every run, bytes offered for re-proposal were stashed under exactly the hash now locked |
| `ReproposeCache.ReproposedExactly` | crates/sentrix-bft/src/engine.rs:735-752 | in every run, bytes are offered for a block if and only if its lock was taken with them stashed last, and since then the height has not changed, no other block was locked and it was not locked again with new bytes |
| `ReproposeCache.OfferedFromThenOn` | crates/sentrix-bft/src/engine.rs:1161-1185 | from a prevote supermajority in a round whose last stash was for that block, exactly those bytes are offered until one of these three things happens |
| `ReproposeCache.NothingOfferedIff` | crates/sentrix-bft/src/engine.rs:1180-1185 | while locked, an engine has nothing to offer if and only if no round in which this lock was taken had its block as the last stash |
| `PeerRounds.RunSkips` | crates/sentrix-bft/src/engine.rs:1015-1029 | over every run, after a status of its height an engine stands at the largest round that more than a third of the recorded stake has reached, freshly opened and with its lock, or unmoved if none is ahead |
| `PeerRounds.BookExact` | crates/sentrix-bft/src/engine.rs:1003-1022 | after any inputs the peer book lists exactly the peers that reported at the current height, each with the stake it reported last and the highest round it reported |
| `RoundSkip.Scan` | crates/sentrix-bft/src/engine.rs:1071-1131 | the sorted, saturating scan returns the largest round above ours that peers holding the threshold have reached, and nothing exactly when there is none |
| `RoundSkip.ThirdCannotDrag` | crates/sentrix-bft/src/engine.rs:1104-1131 | peers with at most a third of the stake cannot pull an engine past every round that the others reported by the f+1 skip |
| `Driver.ThreeTimeoutsEndTheRound` | crates/sentrix-bft/src/engine.rs:902-968 | from any unfinished state, over any admissible inputs with three timeouts whose votes go out, some turn ends the round by an advance, a skip or a finalization, or leaves it |
| `LastSignGuard.NeverSignsTwice` | crates/sentrix-bft/src/last_sign_guard.rs:73-221 | over every run of calls, failed writes, crashes and restarts without a rebroadcast of an unsaved vote, no place is granted for two payloads and new grants strictly increase |
| `LastSignGuard.GrantedIff` | crates/sentrix-bft/src/last_sign_guard.rs:152-221 | while writes succeed, over any calls and restarts, a request is granted if and only if it lies above the last one recorded or repeats it, bytes and all; steps outside the protocol pass unrecorded |
| `LastSignGuard.CallSafeIff` | crates/sentrix-bft/src/last_sign_guard.rs:175-200 | one call makes a later double grant possible if and only if it rebroadcasts a vote that memory holds and the file does not |
| `Resume.ResumedSigningIff` | bin/sentrix/src/main.rs:3343-3394 | everything the driver of a resumed engine signs in a run, proposals, votes and re-emitted votes, is granted if and only if it does not begin by rebuilding, with other bytes, the proposal that the guard signed last, and no prevote is signed after a precommit of its round was handed out |
| `Resume.RetriedPrevoteRefused` | bin/sentrix/src/main.rs:2796-2798 | a run of three inputs in which the guard refuses the re-emitted prevote, whatever the bytes |
| `Resume.ResumedNeverRefused` | crates/sentrix-bft/src/last_sign_guard.rs:175-200 | the guard grants the votes a resumed engine casts, at their first emission and in order, in every run |
| `Resume.ResumeWorksIff` | bin/sentrix/src/main.rs:2028-2032 | a resumed engine is never refused at a first emission if and only if the last vote of the height was not cast in round 2^32 - 1 |
| `Resume.ResumesEarliest` | bin/sentrix/src/main.rs:2022-2050 | an engine that starts its height in a given round is never refused at a first emission if and only if that round is not before the resume round, which is thus the earliest safe one |
| `SignedVotes.OneSignaturePerPosition` | crates/sentrix-bft/src/messages.rs:467-540 | across crashes and restarts, two signed messages of one kind, height and round are the same message, up to the spelling of nil |
| `SigningPayload.PayloadEqualIff` | crates/sentrix-bft/src/messages.rs:188-217 | two messages have the same bytes if and only if they agree in kind, height, round and content, up to the spelling of nil |
| `SigningPayload.SignedBytesDetermine` | crates/sentrix-bft/src/messages.rs:330-348 | whatever the fork height, the bytes built for a height determine the message, and from the fork on the chain |
| `Admission.Pass1Exact` | crates/sentrix-core/src/block_executor.rs:195-625 | Pass 1 lets a block through if and only if its header is right (next index, parent hash, own hash, a time between the parent’s and 15 s ahead of the clock, no id twice, no COINBASE sender, the scheduled reward paid to the validator) and every transaction is signed for this chain, pays the minimum fee, moves something if native, carries the ledger nonce plus the number of earlier ones of its sender, and is paid for by the sender’s balance less what it spent before; a bad header is answered first, otherwise the first bad transaction with the error that its first failing check gives |
| `Admission.RunAdmitted` | crates/sentrix-primitives/src/transaction.rs:634-690 | every transaction of every block of every run was signed for this chain, is next in its sender’s count and paid for by what the sender held before the block; every header was right |
| `Acceptance.RunAcceptsIff` | crates/sentrix-core/src/block_executor.rs:189-1876 | the same in every state of every lawful run, so nothing that Pass 1 does not see, but the claim addresses, the last nonce and the root, can make a block fail |
| `WealthRuns.SoundRunWealth` | crates/sentrix-core/src/block_executor.rs:797-1962 | behind the reward fork, in every lawful run from a sound state, that account is exact for every address but the treasury, with no condition on the amounts |
| `WealthRuns.RunWealth` | crates/sentrix-core/src/block_executor.rs:797-1962 | the same account over every run, with what the reward fork makes the node forget as the only other term |
| `WealthRuns.NothingLeavesUnsigned` | crates/sentrix-primitives/src/transaction.rs:634-690 | in such a run no address loses anything of what it has or is owed unless it signed a transaction for this chain |
| `Wealth.BlockExact` | crates/sentrix-core/src/block_executor.rs:189-1962 | an accepted block, address by address: balance, nonce and both accumulators after it |
| `AccountFlows.ClaimKeepsWealthIff` | crates/sentrix-core/src/block_executor.rs:1065-1094 | balance plus pending plus delegator reward of any address but the treasury is unchanged by a claim if and only if what the claimer is owed fits in 64 bits |
| `Payouts.EveryonePaid` | crates/sentrix-staking/src/staking.rs:745-916 | a distribution credits each signing validator its commission and own-stake part, each delegator its part of every pool it delegated to, the proposer alone when there is nothing to weigh, and nobody anything else |
| `Conservation.RunConserves` | crates/sentrix-core/src/block_executor.rs:406-1559 | over every run of accepted blocks, balances plus burnt fees minus minted is constant and the mint stays within the cap |
| `Conservation.CounterConservesIff` | crates/sentrix-primitives/src/account.rs:208-209 | told with the node’s own counter, conservation holds over a run if and only if no block has two odd fees |
| `SolventRuns.NoBlockRunsShort` | crates/sentrix-core/src/block_executor.rs:431-1095 | in every reachable state, a block that Pass 1 accepts is never refused by Pass 2 for lack of funds |
| `SolventRuns.RunSolvent` | crates/sentrix-core/src/block_executor.rs:797-1650 | over every run what is owed never exceeds the treasury |
| `SolventRuns.ExecutePassesIff` | crates/sentrix-core/src/block_executor.rs:797-1559 | with room in the supply and in the treasury nonce, a block that Pass 1 accepts executes if and only if every sender has a nonce left and every claim is addressed to the treasury |
| `ReplayFree.NoReplay` | crates/sentrix-primitives/src/transaction.rs:672-677 | over every run of accepted blocks, two transactions of one sender carry nonces in the order they were applied, so none is applied twice |
| `StateRoots.RefusedForRootIff` | crates/sentrix-core/src/block_executor.rs:1655-1871 | a block that executed is refused if and only if the trie cannot be written, or from the fork on its root is missing and it came from a peer or from past the speculative fork, or its root differs from the written trie and it is not a verified peer block |
| `StateRoots.RunCommitsAccounts` | crates/sentrix-primitives/src/block.rs:75-101 | in runs with one spelling per address, the hash of the tip contains the trie a fresh backfill of the accounts would build |
| `StateRoots.SameTipSameAccounts` | crates/sentrix-primitives/src/block.rs:75-101 | two nodes in such runs whose tips have the same hash hold the same balances, and the same nonces for everyone who holds anything |
| `StateRoots.SameTipSameHistory` | crates/sentrix-primitives/src/block.rs:142-165 | two linked histories with the same tip hash agree block by block as far as both reach |
| `ChainWindow.RollbackExactIff` | crates/sentrix-core/src/block_executor.rs:643-717 | a failed application restores everything but the stored transaction index if and only if it failed before the append or the window was not full |
| `ChainWindow.WindowRefinesHistory` | crates/sentrix-core/src/block_executor.rs:1599-1625 | over every run the window is the last min(n, 1000) blocks of a history that is linked, correctly hashed, ordered in time and made of the applied blocks |
| `ChainWindow.GetBlockExact` | crates/sentrix-core/src/blockchain_block_accessors.rs:34-56 | lookup by index finds that block of the history if it is in range, and nothing otherwise |
| `BlockEffects.AcceptedMempool` | crates/sentrix-core/src/block_executor.rs:1565-1592 | after an accepted block exactly those transactions wait whose id is not in it and whose nonce its senders have not passed, in the order in which they waited |
| `BlockEffects.RunStatistics` | crates/sentrix-core/src/block_executor.rs:1561-1597 | over every run each validator is credited with the blocks it produced, and each id is found at the height of the last block that has it |
| `TrieMirror.RunMirrorsIff` | crates/sentrix-core/src/blockchain_trie_ops.rs:385-660 | over every run with the extended touch list, trie and accounts stay in step if and only if the spellings agree after every block |
| `TrieMirror.IncrementalIsBackfill` | crates/sentrix-core/src/blockchain_trie_ops.rs:168-660 | over every run with the extended touch list whose spellings agree, the incrementally updated trie equals a fresh backfill after every block |
| `TrieMirror.SpelledOnceIsBackfill` | crates/sentrix-core/src/blockchain_trie_ops.rs:168-660 | testable before a run: if no two of the first accounts and all addresses its blocks name share a key, the trie equals a fresh backfill after every block |
| `TwoSpellings.PaymentBreaksMirror` | crates/sentrix-core/src/address.rs:15-17 | one accepted transfer to another spelling of a funded address puts trie and accounts out of step |
| `RewardDust.OnlyDustIsLost` | crates/sentrix-staking/src/staking.rs:745-779 | over fully staked signers a distribution credits the whole reward, less at most one unit for each signer and each delegation to it |
| `Rewards.NeverOverpaysIff` | crates/sentrix-staking/src/staking.rs:760-776 | for distinct signers with 64-bit weights, the payout stays within the reward for every sane registry, proposer and reward if and only if the stake sum fits in 64 bits or wraps to zero |
| `BftTypes.SupermajorityThreshold` | crates/sentrix-primitives/src/justification.rs:18-20 | the threshold is the least stake above two thirds of the total |
| `BftTypes.FPlusOneThreshold` | crates/sentrix-bft/src/engine.rs:1108-1110 | the least stake above one third of the total |
| `BftTypes.QuorumIntersection` | crates/sentrix-primitives/src/justification.rs:17-20 | for every stake table, two sets that reach the threshold share at least total/3 + 1 stake |
| `BftTypes.QuorumsShareCorrect` | crates/sentrix-primitives/src/justification.rs:17-20 | two sets that reach the threshold share a member outside any set that holds at most a third |
| `RoundSkip.SortedAhead` | crates/sentrix-bft/src/engine.rs:1079-1085 | collects exactly the peers ahead of us, once each, in descending round order |
| `RoundSkip.Insert` | crates/sentrix-bft/src/engine.rs:1084-1085 | ordered insertion: keeps the order and adds exactly one element |
| `RoundSkip.StopsAtLargest` | crates/sentrix-bft/src/engine.rs:1086-1094 | stopping where the running sum first meets the threshold names the largest round that peers holding the threshold have reached |
| `RoundSkip.SkipTargetUnique` | crates/sentrix-bft/src/engine.rs:1071-1131 | the answer does not depend on map order |
| `RoundSkip.CoalitionCannotDrag` | crates/sentrix-bft/src/engine.rs:1015-1029 | peers below any threshold cannot pull an engine past every round that the others reported |
| `EngineRuns.CatchUpLands` | crates/sentrix-bft/src/engine.rs:254-332 | where a catch-up ends, for every target |
| `EngineRuns.StepVotes` | crates/sentrix-bft/src/engine.rs:360-968 | every step keeps the engine well formed, never goes back in (height, round, phase), and any vote it hands out is either new and later than all before, or the pending one again |
| `EngineLock.PrecommitTakesLock` | crates/sentrix-bft/src/engine.rs:717-764 | a new non-nil precommit leaves the engine locked on that hash at that round |
| `EngineLock.LockStep` | crates/sentrix-bft/src/engine.rs:439-899 | within a height, a step changes a held lock if and only if a counted prevote completes a supermajority for another block in the prevote phase, or the stale relax fires |
| `EngineLock.LockedPrevote` | crates/sentrix-bft/src/engine.rs:550-582 | while the lock is held, a new prevote is nil or for the locked block |
| `EngineLock.LockLasts` | crates/sentrix-bft/src/engine.rs:439-899 | the lock persists through every run without a release |
| `EngineLock.ProposalKeepsLock` | crates/sentrix-bft/src/engine.rs:439-585 | accepting a proposal without a relax leaves the locked hash and round alone |
| `Tallies.AddVoteExact` | crates/sentrix-bft/src/engine/vote_collector.rs:26-33 | adding a vote keeps every weight equal to the stake of its recorded backers |
| `Tallies.SupermajorityUnique` | crates/sentrix-bft/src/engine/vote_collector.rs:35-55 | at most one hash can be found, so map order cannot matter |
| `Tallies.JustificationWeighs` | crates/sentrix-bft/src/engine.rs:843-855 | the weights in a justification add up to the tallied weight |
| `Tallies.OnlyPrecommitsFinalize` | crates/sentrix-bft/src/engine.rs:770-899 | nothing but a precommit finalizes |
| `LockedQuorums.CommonVoter` | crates/sentrix-primitives/src/justification.rs:17-20 | two quorums of one height share an honest voter |
| `LockedQuorums.OnePrevoteQuorum` | crates/sentrix-bft/src/engine.rs:694-719 | one round has at most one block with a prevote quorum |
| `LockedQuorums.CommittedStays` | crates/sentrix-bft/src/engine.rs:550-582 | after a precommit quorum for a block, no later round has a prevote quorum for another |
| `LockedQuorums.CommitsAgree` | crates/sentrix-bft/src/engine.rs:795-862 | precommit quorums of one height agree across rounds |
| `Agreement.EmbeddedPrevoteAgrees` | bin/sentrix/src/main.rs:1366-1372 | the prevote a proposer bundles unsigned is the one its engine then casts, if and only if the engine is not locked on another block or drops that lock as stale |
| `Agreement.StepLocal` | crates/sentrix-bft/src/engine.rs:439-968 | in the modes in which agreement holds, every step keeps the local invariant: books, flags, pending votes and the lock agree with what is on the network |
| `Agreement.StepNet` | crates/sentrix-bft/src/engine.rs:550-764 | in the modes in which agreement holds, every step keeps the network invariant: honest ballots are unique per slot, precommits have prevote quorums, later prevotes obey the lock rule |
| `Agreement.RunHolds` | crates/sentrix-bft/src/engine.rs:439-968 | in the modes in which agreement holds, the local and the network invariant hold in every state of every run of the whole system |
| `Driver.CascadeSettles` | bin/sentrix/src/main.rs:3340-3394 | broadcast, mark, feed back: a cascade ends after at most two broadcasts and lowers the measure when it sent anything |
| `Driver.TimeoutProgress` | crates/sentrix-bft/src/engine.rs:902-968 | one driven timeout ends the round or lowers a measure that is at most 2 |
| `Driver.OpenRoundBound` | crates/sentrix-bft/src/engine.rs:902-968 | whatever inputs come in between, a round that is still open has seen at most as many timeouts as its measure at the start |
| `Driver.HandleTimeout` | bin/sentrix/src/main.rs:3340-3394 | the driver loop itself: it terminates, and with its votes sent it ends the round or lowers the measure |
| `LastSignGuard.StepCovers` | crates/sentrix-bft/src/last_sign_guard.rs:152-221 | every call and restart keeps the file above everything granted |
| `LastSignGuard.FirstRequest` | crates/sentrix-bft/src/last_sign_guard.rs:81-85 | a guard without a file grants every request but the proposal of height 0, round 0 |
| `Resume.StartEngine` | bin/sentrix/src/main.rs:2022-2050 | the resume loop leaves a fresh engine at the resume round |
| `Resume.ResumedVotesAboveMark` | bin/sentrix/src/main.rs:2022-2050 | in every run after a restart, each vote cast lies strictly above the persisted mark |
| `Resume.FieldsTell` | crates/sentrix-bft/src/engine.rs:902-925 | for a driver that marks a precommit before it feeds it back, the pending and cast fields of the engine say at every step whether a prevote would be signed late |
| `Ledger.CreditSupply` | crates/sentrix-primitives/src/account.rs:132-140 | a credit adds exactly its amount to the supply, and succeeds whenever the supply still fits |
| `Ledger.TransferPassesIff` | crates/sentrix-primitives/src/account.rs:169-212 | while the supply fits in 64 bits a transfer succeeds if and only if the sender can pay and has a nonce left |
| `Ledger.TransferSupply` | crates/sentrix-primitives/src/account.rs:169-212 | a transfer takes exactly its fee out of circulation and counts half of it, rounded up |
| `Ledger.TransferBalances` | crates/sentrix-primitives/src/account.rs:169-212 | what it does to every single balance and nonce, also when sender and recipient coincide |
| `Ledger.TransferTouches` | crates/sentrix-primitives/src/account.rs:181-182 | every account it changes is in the touch list, on failure too |
| `Rewards.SpreadOverDelegators` | crates/sentrix-staking/src/staking.rs:880-914 | the pool is spread over the delegators by amount |
| `Rewards.DistributeBound` | crates/sentrix-staking/src/staking.rs:745-779 | whatever the justification, stakes and delegations, as long as their sums fit in 64 bits, a distribution credits at most the reward |
| `Rewards.SumStakes` | crates/sentrix-staking/src/staking.rs:760 | the stake sum wraps at 64 bits |
| `Rewards.SumDelegations` | crates/sentrix-staking/src/staking.rs:879-885 | the sum of the delegations to a validator wraps at 64 bits |
| `Rewards.WrappedSumPassesGate` | crates/sentrix-primitives/src/justification.rs:50-67 | two weights that are overpaid can pass the supermajority gate of any active stake below 2^63 |
| `Rewards.WrappedSumOverpays` | crates/sentrix-staking/src/staking.rs:760-776 | for distinct signers with 64-bit weights whose sum wraps to something positive, there are a sane registry and a reward that the distribution overpays |
| `Rewards.DistributionLeavesDust` | crates/sentrix-staking/src/staking.rs:745-779 | it can credit less: two equal signers of a reward of one get nothing |
| `Rewards.PeekWithinOwed` | crates/sentrix-staking/src/staking.rs:1084-1086 | a claim is part of what is owed |
| `Rewards.DrainOwed` | crates/sentrix-core/src/block_executor.rs:1065-1094 | a claim takes off the books exactly what it pays |
| `RewardDust.PayDelegatorsExact` | crates/sentrix-staking/src/staking.rs:880-914 | the delegators of one validator receive the pool up to one unit for each delegation to it |
| `RewardDust.PayOneSignerExact` | crates/sentrix-staking/src/staking.rs:815-916 | one signer’s share is credited up to one unit for each delegation to it |
| `Tokenomics.MintWithinCap` | crates/sentrix-core/src/blockchain_block_accessors.rs:119-145 | minting the reward never passes the cap in force, and the cap never falls |
| `Tokenomics.RewardFalls` | crates/sentrix-core/src/blockchain_block_accessors.rs:119-145 | away from the emission fork, the reward one height later is at most the one just minted |
| `Tokenomics.RewardFallsAcrossForkIff` | crates/sentrix-core/src/tokenomics.rs:86-97 | across the emission fork, the reward one height later is at most the one just minted if and only if the fork comes in the first era and before the old cap bites |
| `ExecutorSpec.RetainedIff` | crates/sentrix-core/src/mempool.rs:300-327 | a transaction stays waiting if and only if it survives the block |
| `Conservation.ExecuteSettles` | crates/sentrix-core/src/block_executor.rs:819-1559 | one block adds its coinbase and removes exactly ceil(fees/2), claims included |
| `Conservation.AcceptedHeight` | crates/sentrix-core/src/block_executor.rs:192-415 | an accepted block has the next index, pays the scheduled reward and becomes the tip |
| `Conservation.CountedExcess` | crates/sentrix-primitives/src/account.rs:208-209 | the burn counter of a block exceeds the burn by half its number of odd fees |
| `Solvency.TransferCovers` | crates/sentrix-core/src/block_executor.rs:450-480 | a transfer that Pass 1 let through is never short in Pass 2, and real balances stay at or above working ones |
| `Solvency.ClaimCovered` | crates/sentrix-core/src/block_executor.rs:1065-1094 | a solvent treasury covers every claim and stays as solvent |
| `Solvency.TxsCovered` | crates/sentrix-core/src/block_executor.rs:431-867 | no transaction of a list that Pass 1 accepts is short of funds in Pass 2, claims included |
| `Solvency.TxsPassIff` | crates/sentrix-core/src/block_executor.rs:836-867 | with room in supply and treasury nonce, the list goes through if and only if every sender has a nonce left and every claim is addressed to the treasury |
| `SolventRuns.ExecuteNeverShort` | crates/sentrix-core/src/block_executor.rs:797-1559 | no block that passed Pass 1 fails in Pass 2 for lack of funds, and the treasury ends ahead by the coinbase |
| `SolventRuns.NextRewardFits` | crates/sentrix-core/src/block_executor.rs:1944-1945 | the reward distributed, one height later, is at most the one minted |
| `SolventRuns.BookkeepPays` | crates/sentrix-core/src/block_executor.rs:1926-1962 | over fully staked signers the bookkeeping pays the reward out up to dust |
| `ReplayFree.TxsSpend` | crates/sentrix-core/src/block_executor.rs:431-470 | every transaction of an accepted list uses up a nonce that was free, in order |
| `ChainWindow.IndexAfterFailure` | crates/sentrix-core/src/block_executor.rs:1593-1597 | the stored transaction index answers for a block that failed after the append, and is otherwise untouched |
| `ChainWindow.FullWindowKeepsRejected` | crates/sentrix-core/src/block_executor.rs:1599-1661 | with a full window, a block that fails after the append stays at the tip, in place of the oldest one |
| `ChainWindow.SealedBlock` | crates/sentrix-core/src/block_executor.rs:1709-1711 | stamping and rehashing keep the hash valid and the block otherwise unchanged |
| `ChainWindow.ConsecutiveIndices` | crates/sentrix-primitives/src/block.rs:147-160 | indices of the history are consecutive |
| `StateTrie.ValidKeysEqualIff` | crates/sentrix-trie/src/address.rs:14-21 | two well-formed addresses share a leaf if and only if they differ at most in letter case |
| `StateTrie.PickLeast` | crates/sentrix-core/src/blockchain_trie_ops.rs:511-512 | the next address of the sorted set |
| `StateTrie.WriteTouched` | crates/sentrix-core/src/blockchain_trie_ops.rs:635-660 | the loop of inserts and deletes over the sorted touch list |
| `StateTrie.BackfillTrie` | crates/sentrix-core/src/blockchain_trie_ops.rs:168-186 | the trie built from all funded accounts |
| `StateTrie.RefreshLeaf` | crates/sentrix-core/src/blockchain_trie_ops.rs:635-660 | a written leaf is that of the touched address written last to its key, every other leaf is left alone |
| `StateTrie.BackfillHoldsIff` | crates/sentrix-core/src/blockchain_trie_ops.rs:168-186 | a backfilled trie represents the accounts if and only if accounts that share a key share a leaf |
| `StateTrie.RefreshHoldsIff` | crates/sentrix-core/src/blockchain_trie_ops.rs:494-660 | for every account table and touch list: rewriting keeps the trie in step if and only if no changed leaf is missed, none is erased under another spelling, and accounts that share a key share a leaf |
| `TrieMirror.ExecuteTracked` | crates/sentrix-core/src/block_executor.rs:744-750 | a block touches every account it changes |
| `TrieMirror.AcceptedMirrorsIff` | crates/sentrix-core/src/blockchain_trie_ops.rs:385-530 | an accepted block keeps trie and accounts in step if and only if its touch list misses no changed leaf and the spellings agree |
| `TrieMirror.ExtendedListMissesNothing` | crates/sentrix-core/src/blockchain_trie_ops.rs:494-508 | the extended touch list misses no changed leaf |
| `TrieMirror.SpelledOnceMirrors` | crates/sentrix-core/src/blockchain_trie_ops.rs:385-530 | testable before a block: if no two of the accounts and the addresses the block names share a key, an accepted block with the extended touch list keeps trie and accounts in step |
| `TrieMirror.ExecuteWithin` | crates/sentrix-core/src/block_executor.rs:819-1559 | a block opens accounts only for addresses it names and the treasury |
| `SigningPayload.ParsePayload` | crates/sentrix-bft/src/messages.rs:135-142 | a version 1 payload can be read back, up to the spelling of nil |
| `SigningPayload.PayloadV2EqualIff` | crates/sentrix-bft/src/messages.rs:74-79 | two version 2 payloads are equal if and only if the chain and the message are, up to the spelling of nil |
| `SigningPayload.VersionsOverlap` | crates/sentrix-bft/src/messages.rs:66-79 | the magic byte alone does not separate the versions: every version 2 payload is also the version 1 payload of some message |
| `SigningPayload.VersionsApart` | crates/sentrix-bft/src/messages.rs:250-279 | for 64-character hashes and 42-character addresses, version 1 and version 2 payloads never coincide |
| `Admission.RefusedUntouched` | crates/sentrix-core/src/block_executor.rs:195-625 | a block that Pass 1 does not let through leaves the node exactly as it was |
| `Admission.NeverRepeats` | crates/sentrix-core/src/block_executor.rs:424-452 | the check for a repeated (sender, nonce) never decides: no sender can pay the minimum fee often enough for its wrapping working nonce to come round |
| `Admission.CheckedExactly` | crates/sentrix-primitives/src/transaction.rs:634-690 | one transaction, against the list before it: let through exactly when it is admitted, and answered with the error of the first check that fails |
| `Acceptance.AcceptedIff` | crates/sentrix-core/src/block_executor.rs:189-1876 | with a covering treasury and room in its nonce, a block is accepted if and only if header and transactions are admitted, every sender has a nonce left, dispatched claims go to the treasury, the trie can be written and the root is neither missing nor wrong |
| `Acceptance.RunBacked` | crates/sentrix-core/src/block_executor.rs:406-1559 | over every run all coins in circulation were minted, and the treasury covers what it owes |
| `AccountFlows.ClaimExact` | crates/sentrix-core/src/block_executor.rs:1065-1094 | a passing claim pays the claimer all it is owed (cut at 64 bits) out of the treasury, empties its accumulators and touches nobody else’s balance, nonce or accumulators |
| `AccountFlows.ExecuteExact` | crates/sentrix-core/src/block_executor.rs:750-1559 | one executed block, address by address: the balance falls by what was sent and paid in fees and rises by what was received, one claim of everything owed, the coinbase (treasury or validator, by fork) and half the fees (validator); nonces and accumulators likewise |
| `Wealth.BlockWealth` | crates/sentrix-core/src/block_executor.rs:1065-1962 | what an address has, counting what it is owed, changes in an accepted block by what it spent, received, was granted and earned; claims do not change it |
| `WealthRuns.IncomeBounded` | crates/sentrix-staking/src/staking.rs:745-916 | what one address earns from a block is at most its reward |
| `StateRoots.AcceptedSealed` | crates/sentrix-core/src/block_executor.rs:1663-1871 | an accepted block stands at the tip with the root of the trie the node is left with, unless it brought another and was taken on trust; only a root filled in after the fork changes its hash |
| `StateRoots.RunCommitsTrie` | crates/sentrix-primitives/src/block.rs:75-101 | over every run, the hash of every tip from the fork on that was not taken on trust contains the trie of its state |
| `StateRoots.TrustedRootIff` | crates/sentrix-core/src/block_executor.rs:1772-1828 | a block taken on trust carries the root of its state if and only if it brought it |
| `StateRoots.HashCommitsIff` | crates/sentrix-primitives/src/block.rs:75-101 | two blocks have the same hash if and only if they agree in index, parent, transaction ids, time, validator and, from the fork on, root |
| `BlockEffects.AcceptedCounts` | crates/sentrix-core/src/block_executor.rs:1561-1597 | an accepted block is counted once for its validator, and exactly its ids are found at its height |
| `BlockEffects.AcceptedLeaves` | crates/sentrix-core/src/blockchain_trie_ops.rs:385-660 | the leaves an accepted block rewrites are those of its valid senders and recipients, its validator, the treasury from its fork on and everything touched from the extended fork on; each becomes the account’s own, every other leaf stays |
| `PeerRounds.StatusSkips` | crates/sentrix-bft/src/engine.rs:1024-1029 | one status: no round ahead is left that more than a third has reached, and everything but the book is as it was unless the round moved |
| `PeerRounds.OtherHeightIgnored` | crates/sentrix-bft/src/engine.rs:995-1002 | a status of another height changes nothing, and a higher one asks for a sync |
| `ReproposeCache.LastStashIsStaged` | crates/sentrix-bft/src/engine.rs:735-752 | what a lock promotes is the last stash of its round, unless a proposal in it made the engine give up a stale lock |
| `GoodRounds.OpeningAnswered` | crates/sentrix-bft/src/engine.rs:439-585 | the opening is answered by a prevote for the proposed block if the engine is free for it, and by a nil prevote otherwise |
| `GoodRounds.OthersIgnored` | crates/sentrix-bft/src/engine.rs:366-415 | a proposal of anyone but the elected, unbarred proposer, or out of phase, changes nothing |
| `GoodRounds.PrevotesAnswered` | crates/sentrix-bft/src/engine.rs:694-764 | the prevote that completes a supermajority, for a block or for nil, is answered by the precommit for the same, and none before it; only a block moves the lock |
| `GoodRounds.PrecommitsAnswered` | crates/sentrix-bft/src/engine.rs:795-899 | the precommit that completes a supermajority finalizes the block with exactly the precommits received, signatures and stakes included, or skips the round on nil, and none before it |
| `VoteCauses.ActsIff` | crates/sentrix-bft/src/engine.rs:770-1031 | when an input makes an engine finalize, skip the round, advance it or ask for a sync, exactly |
| `LastSignGuard.UnarmedGrantsAll` | crates/sentrix-bft/src/last_sign_guard.rs:152-165 | before it is initialised the guard grants everything and remembers nothing |
| `Tokenomics.EraRewardExact` | crates/sentrix-core/src/tokenomics.rs:86-107 | the reward of an era is the first one divided by a power of two, rounded down |
| `Tokenomics.EmissionEndsIff` | crates/sentrix-core/src/tokenomics.rs:86-107 | the era reward is zero if and only if 27 halvings have passed |
| `Tokenomics.RewardHalves` | crates/sentrix-core/src/tokenomics.rs:86-107 | the era reward halves every 42 million blocks before the emission fork and every 126 million after it |
| `Tokenomics.FirstEra` | crates/sentrix-core/src/tokenomics.rs:86-107 | the first interval of either schedule pays the full reward |
| `Tokenomics.RewardIsLargest` | crates/sentrix-core/src/blockchain_block_accessors.rs:119-145 | the reward is the largest amount within the era reward that keeps the mint within the cap in force |
| `VoteCauses.MarkedOnce` | crates/sentrix-bft/src/engine.rs:1208-1218 | once a vote of a round is marked as cast, no other vote of its kind falls due in that round; the cast flags say exactly whether it was |
| `Tallies.TalliesWrap` | crates/sentrix-bft/src/engine/vote_collector.rs:26-33 | in every run, whatever stakes votes come with, each weight is the sum of the stakes recorded for its hash, one per validator, modulo 2^64 |
| `LastSignGuard.InitOnce` | crates/sentrix-bft/src/last_sign_guard.rs:73-93 | initialising the guard again changes nothing |
| `Election.OnlyActiveElected` | crates/sentrix-staking/src/staking.rs:1088-1095 | only active validators are elected, and someone is unless there are none |
| `SigningPayload.ParsePayloadV2` | crates/sentrix-bft/src/messages.rs:66-79 | a version 2 payload can be read back: magic byte, chain and message, up to the spelling of nil |
| `BlockEffects.AcceptedDrained` | crates/sentrix-core/src/blockchain_trie_ops.rs:494-510 | from the extended fork on, an accepted block drains the touch list |
| `StateTrie.PrefixIgnored` | crates/sentrix-trie/src/address.rs:14-21 | a leading 0x more or less does not change the leaf of an address |
| `StateTrie.TextKeysEqualIff` | crates/sentrix-trie/src/address.rs:14-21 | two texts that are not hexadecimal share a leaf if and only if they differ at most in prefixes and letter case |
| `Driver.CascadeMarks` | bin/sentrix/src/main.rs:3340-3394 | every vote that goes out in a cascade ends up marked as cast and no longer pending |
| `EngineObject.BftEngine.constructor` | crates/sentrix-bft/src/engine.rs:87-100 | a new engine is at round 0 of its height with nothing recorded |
| `EngineObject.BftEngine.NewHeight` | crates/sentrix-bft/src/engine.rs:161-182 | a new height forgets votes, cast flags, pending votes, peers, lock and caches |
| `EngineObject.BftEngine.AdvanceRound` | crates/sentrix-bft/src/engine.rs:185-210 | the next round (saturating) forgets votes and staging and keeps the lock and its bytes |
| `EngineObject.BftEngine.CatchUpRound` | crates/sentrix-bft/src/engine.rs:254-332 | the loop of advances lands at the target round, or changes nothing when the target is not ahead; a pending vote of another round is dropped |
| `EngineObject.BftEngine.OnProposal` | crates/sentrix-bft/src/engine.rs:360-418 | a proposal is voted on only at our height and round, from the expected, unbarred proposer; otherwise nothing changes |
| `EngineObject.BftEngine.OnOwnProposal` | crates/sentrix-bft/src/engine.rs:422-430 | our own proposal is accepted as a peer’s is, without the proposer checks |
| `EngineObject.BftEngine.AcceptProposal` | crates/sentrix-bft/src/engine.rs:439-585 | staging, stale-lock relax, retry of a pending prevote and the vote (the block, or nil when locked elsewhere), in that order |
| `EngineObject.BftEngine.EmitPrevote` | crates/sentrix-bft/src/engine.rs:600-627 | the vote becomes pending and is handed to the driver; it counts as cast only once marked |
| `EngineObject.BftEngine.EmitPrecommit` | crates/sentrix-bft/src/engine.rs:629-653 | a precommit becomes pending and is handed to the driver; it counts as cast only once marked |
| `EngineObject.BftEngine.RecordPrevote` | crates/sentrix-bft/src/engine.rs:694-716 | one vote per validator and round is tallied, at the weight given |
| `EngineObject.BftEngine.CountPrevote` | crates/sentrix-bft/src/engine.rs:667-716 | late, foreign and repeated prevotes are not counted |
| `EngineObject.BftEngine.OnPrevoteWeighted` | crates/sentrix-bft/src/engine.rs:667-767 | a prevote supermajority for a block locks it and precommits it; one for nil precommits nil |
| `EngineObject.BftEngine.EnterPrecommit` | crates/sentrix-bft/src/engine.rs:717-764 | the precommit phase is entered once per round and the lock moves with it |
| `EngineObject.BftEngine.MoveLock` | crates/sentrix-bft/src/engine.rs:735-752 | the lock takes the staged bytes when they belong to the hash, keeps its own when the hash is unchanged, and drops them otherwise |
| `EngineObject.BftEngine.RecordPrecommit` | crates/sentrix-bft/src/engine.rs:795-842 | one precommit per validator and round is tallied and kept with its signature |
| `EngineObject.BftEngine.CountPrecommit` | crates/sentrix-bft/src/engine.rs:770-842 | which precommits are counted |
| `EngineObject.BftEngine.OnPrecommitWeighted` | crates/sentrix-bft/src/engine.rs:770-899 | a precommit supermajority finalizes with its justification, or skips the round on nil |
| `EngineObject.BftEngine.OnTimeout` | crates/sentrix-bft/src/engine.rs:902-968 | what each phase does on a timeout, including the give-up past the last round |
| `EngineObject.BftEngine.OnRoundStatusWeighted` | crates/sentrix-bft/src/engine.rs:989-1031 | a peer report is recorded and may trigger one catch-up |
| `EngineObject.BftEngine.FPlusOneRound` | crates/sentrix-bft/src/engine.rs:1104-1131 | the f+1 scan over the recorded peers, none without stake |
| `EngineObject.BftEngine.PeerSupermajorityHigherRound` | crates/sentrix-bft/src/engine.rs:1071-1095 | the 2/3+1 scan over the recorded peers |
| `EngineObject.BftEngine.StashProposalBytes` | crates/sentrix-bft/src/engine.rs:1161-1163 | staging holds the last bytes and their hash |
| `EngineObject.BftEngine.LockedProposalBytes` | crates/sentrix-bft/src/engine.rs:1180-1185 | the pair offered for re-proposal is the lock and its bytes |
| `EngineObject.BftEngine.MarkPrevoteCast` | crates/sentrix-bft/src/engine.rs:1208-1214 | marking casts the pending prevote |
| `EngineObject.BftEngine.MarkPrecommitCast` | crates/sentrix-bft/src/engine.rs:1216-1218 | marking casts the pending precommit |
| `EngineObject.FindSupermajority` | crates/sentrix-bft/src/engine/vote_collector.rs:35-55 | the scan of a tally returns a key at or above the threshold, and none exactly when there is none |
| `EngineObject.CollectJustification` | crates/sentrix-bft/src/engine.rs:843-855 | the justification is exactly the recorded precommits for the finalized hash |
| `LastSignGuard.LastSignGuard.Initialise` | crates/sentrix-bft/src/last_sign_guard.rs:73-93 | the file if there is one, otherwise the zero mark, written first |
| `LastSignGuard.LastSignGuard.CheckAndRecordWithBytes` | crates/sentrix-bft/src/last_sign_guard.rs:152-221 | grants a place above the mark or an exact replay, refuses everything else; memory moves before the write, so a failed write leaves memory ahead |
| `LastSignGuard.LastSignGuard.CurrentState` | crates/sentrix-bft/src/last_sign_guard.rs:104-108 | the mark in memory |
| `Ledger.AccountDB.GetOrCreate` | crates/sentrix-primitives/src/account.rs:113-117 | creates a missing account empty and changes nothing else |
| `Ledger.AccountDB.DoCredit` | crates/sentrix-primitives/src/account.rs:132-140 | checked credit; the account is created and touched even when the sum does not fit |
| `Ledger.AccountDB.DoTransfer` | crates/sentrix-primitives/src/account.rs:169-212 | checked transfer with nonce, fee and burn counter, including what each failure leaves behind |
| `Rewards.StakeRegistry.DistributeReward` | crates/sentrix-staking/src/staking.rs:745-779 | the loop over the signers computes the pro-rata distribution, with the fallback to the proposer |
| `Rewards.StakeRegistry.PayOneValidator` | crates/sentrix-staking/src/staking.rs:783-811 | commission and self share of a single payout |
| `Rewards.StakeRegistry.PaySigner` | crates/sentrix-staking/src/staking.rs:815-916 | commission, self share and delegator pool of one signer |
| `Rewards.StakeRegistry.ClaimPaid` | crates/sentrix-core/src/block_executor.rs:1083-1094 | both accumulators of the claimer are emptied, no other |
| `Rewards.StakeRegistry.ForgetRewards` | crates/sentrix-core/src/block_executor.rs:797-805 | at the fork every accumulator is emptied |
| `Executor.AllDistinct` | crates/sentrix-primitives/src/block.rs:196-214 | the seen-set loop decides whether all txids differ |
| `Executor.Blockchain.GetBlockReward` | crates/sentrix-core/src/blockchain_block_accessors.rs:119-145 | the halving reward, cut at the remaining supply |
| `Executor.Blockchain.CheckHeader` | crates/sentrix-core/src/block_executor.rs:192-421 | structure, links, hash, clock and coinbase of a candidate block |
| `Executor.Blockchain.CheckTransactions` | crates/sentrix-core/src/block_executor.rs:431-625 | the Pass 1 loop over working balances and nonces |
| `Executor.Blockchain.BeginBlock` | crates/sentrix-core/src/block_executor.rs:750-805 | a fresh touch list, and the reset at the reward fork |
| `Executor.Blockchain.MintReward` | crates/sentrix-core/src/block_executor.rs:807-833 | the coinbase goes to the validator, or from the fork on to the treasury |
| `Executor.Blockchain.ApplyTransaction` | crates/sentrix-core/src/block_executor.rs:838-867 | transfer, fee sum and claim dispatch of one transaction, with what a failure leaves behind |
| `Executor.Blockchain.ApplyTransactions` | crates/sentrix-core/src/block_executor.rs:836-867 | the Pass 2 loop stops at the first failure |
| `Executor.Blockchain.DoPayClaim` | crates/sentrix-core/src/block_executor.rs:1065-1094 | peek, transfer, drain: the accumulators are touched only after the payment |
| `Executor.Blockchain.PayFeeShare` | crates/sentrix-core/src/block_executor.rs:1553-1559 | the validator gets the half rounded down |
| `Executor.Blockchain.ExecuteBlock` | crates/sentrix-core/src/block_executor.rs:750-1559 | the fallible steps before the append |
| `Executor.RetainWaiting` | crates/sentrix-core/src/block_executor.rs:1565-1592 | the mempool keeps exactly what was not mined and is not behind a sender of the block |
| `Executor.RecordIds` | crates/sentrix-core/src/block_executor.rs:1593-1597 | every id of the block is indexed at its height |
| `Executor.Blockchain.PushBlock` | crates/sentrix-core/src/block_executor.rs:1561-1625 | statistics, mempool, transaction index, append and window drain |
| `Executor.Blockchain.ApplyRewardBookkeeping` | crates/sentrix-core/src/block_executor.rs:1926-1962 | the distribution for the block just appended, at the reward of the next height |
| `Executor.Blockchain.WriteTrie` | crates/sentrix-core/src/blockchain_trie_ops.rs:385-660 | the touched addresses are written in sorted order; the touch list is drained from the fork on |
| `Executor.Blockchain.SealLast` | crates/sentrix-core/src/block_executor.rs:1663-1850 | stamping, rehashing or checking the state root, in every combination of source, fork and justification |
| `Executor.Blockchain.CommitBlock` | crates/sentrix-core/src/block_executor.rs:1561-1850 | the steps from the append on, including a trie write that fails half way |
| `Executor.Blockchain.RollBackTo` | crates/sentrix-core/src/block_executor.rs:686-717 | every snapshotted field is restored and the list of blocks cut back by length |
| `Executor.Blockchain.AppendBlock` | crates/sentrix-core/src/block_executor.rs:189-717 | both passes together |

## Left out

- Networking, storage, RPC, metrics, command line, clocks: inputs of the model may arrive in any order and any number of times, time is a parameter.
- ECDSA, SHA-256, bincode, JSON: signatures are "only the author can add the ballot", digests are injective, a transaction carries the verdict of its signature check.
- EVM execution, SRC-20 and NFT operations, `charge_fee_only`, system transactions: a block holds native transfers and ClaimRewards.
- Other staking operations, slashing, liveness, epochs, unbonding: stakes and delegations are fixed during a run.
- The round-robin authority check and the justification gate of Pass 1: whether a justification was verified is a parameter of the application.
- Operator overrides (treasury rebase, legacy validation height, replay bypass) and a node without an initialised trie.
- Trie nodes, pruning, and the consensus state that later forks also write under other keys: the trie is the map it represents.
- Mempool expiry and the sidecar indices: the mempool is the list of waiting transactions.
- Concurrent callers of the guard, and a node that runs without one: signing is sequential and guarded.
- Agreement.Agreement: assumes no restart of an honest engine within the height, because locks are not persisted; the stale-lock relax is excluded because agreement is false with it.
- SolventRuns.RunSolvent: assumes commission rates of at most 100 percent, delegations and justification weights whose sums fit in 64 bits, no signature in the treasury's name, and an early emission fork, as the registry and the schedule arrange; and that rewards are distributed only on the apply path, so below that fork the receive paths that distribute them are not covered.
- RewardDust.OnlyDustIsLost: covers signers whose delegated stake is matched by delegations; a signer without them loses its delegator pool by design.
- StateTrie.ValidKeysEqualIff: lower-casing and text bytes are modelled for ASCII only.
- Election.EveryoneProposes: excludes rounds in which height plus round passes 2^64, where the rotation jumps unless the number of validators is a power of two.
- StateRoots.HashCommitsIff: takes the hashed text to be read back in one way only, and a missing root to differ from every root.
- StateRoots.RefusedForRootIff: omits the operator's legacy validation height, below which a wrong root is tolerated.
- Admission.Pass1Exact: omits the authority check, the justification gate and the token and NFT checks, as the executor model does.
- LastSignGuard.NeverSignsTwice: assumes non-empty payloads are told apart by their digest.
- Executor.Blockchain.CheckHeader: omits the authority check and the justification gate, whose verdict is a parameter.
- Executor.Blockchain.CheckTransactions: omits the token and NFT checks of Pass 1, because blocks hold transfers and claims only.
- Executor.Blockchain.ApplyTransaction: omits token, EVM and other staking operations, for the same reason.
- Executor.Blockchain.ApplyTransactions: covers transfers and claims only, for the same reason.
- Executor.Blockchain.ExecuteBlock: omits the same operations.
- Executor.Blockchain.PushBlock: omits mempool expiry and event emission.
- Executor.Blockchain.ApplyRewardBookkeeping: omits liveness and epoch accounting, which rewards do not read.
- Executor.Blockchain.WriteTrie: omits the consensus state written under other keys.
- Executor.Blockchain.CommitBlock: omits epoch bookkeeping.
- Executor.Blockchain.RollBackTo: omits the contract, NFT, epoch and slashing parts of the snapshot, which the model does not have.
- Executor.Blockchain.AppendBlock: inherits these omissions.
