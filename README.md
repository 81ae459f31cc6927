# OP_NET prediction-market contracts in Dafny

This project models three OP_NET smart contracts written in AssemblyScript:

- the **governance contract**: proposals are created, voted on during a fixed window, finalized against an absolute quorum, executed after a timelock, or cancelled;
- the **prediction market**: binary markets are created, take bets on YES or NO, are resolved by their resolver and pay winners a proportional share less a 2 % fee, or are cancelled by their creator;
- the **staking contract**: users lock tokens for a number of blocks, earn a per-block reward shared by the total stake, pay a 10 % penalty on early withdrawal and carry a voting weight that grows with the remaining lock.

Every contract keeps its state in the chain's key-value storage. A key is the hash of a (tag, id, address, field) tuple. The model replaces the hash with the injective datatype `Ledger.Key`. Storage is a `map<Key, nat>` in which an unset slot reads as 0.

Each contract is a class:

- fields: the store and the one counter the contract keeps (`proposalCounter`, `marketCounter`, `totalStaked`);
- one method per public operation;
- the sender and the block number or timestamp are passed as parameters;
- every `throw` is an `Err` result that leaves all state unchanged, because the transaction aborts.

Each successful operation is specified by the exact new store, written as a pure function of the old one:

| contract | transition functions |
|---|---|
| governance | `NewProposal`, `RecordVote` |
| market | `NewMarket`, `BetPlaced`, `Resolved`, `Claimed`, `Cancelled` |
| staking | `Staked`, `RewardsClaimed`, `Withdrawn` |

The invariant of reachable states is a predicate on the store and the counter: `GovInv`, `MarketInv`, and "`totalStaked` is the sum of all stakes". Lemmas prove that each transition preserves it.

The model follows the code where it differs from the contracts' stated design. The proofs make the consequences explicit:

- **Governance, unreachable ACTIVE status.**
  - `castVote` rejects a stored status of PENDING before it would flip PENDING to ACTIVE. Every new proposal reads as PENDING, and so does every id never created, unless address 0 (the proposer an unset slot reads as) cancels it.
  - So in every reachable state no PENDING proposal has a ballot, and its tallies are 0. `finalizeProposal` accepts only PENDING proposals, so it only ever stores DEFEATED, and `executeProposal` always fails.
  - `cancelProposal` does not look at the voting window. A proposal cancelled before its window closes still accepts votes inside the window, and its tallies grow. `finalizeProposal` and `executeProposal` reject it.
  - The lemmas are `Governance.PendingHasNoBallots`, `Governance.FinalizeNeverPasses` and `Governance.NoSucceededIfValid`.
- **Governance, against-votes slots.**
  - The setter writes field `"against Votes"` but the getter reads `"againstVotes"`.
  - So the against tally read by `finalizeProposal` and `getProposalVotes` is always 0.
  - Each against vote overwrites the written slot with 0 + weight.
- **Governance, `support` is not validated.** A value of 3 or more is recorded on the ballot and changes no tally.
- **Market, bets overwrite.** A second bet by the same user overwrites the stored amount and side instead of adding to them, while both pools grow by the full amount.
- **Staking, re-staking.**
  - `stake` resets the last-reward block without paying the pending reward, so that reward is lost.
  - `stake` resets the unlock block to `now + lockPeriod`, which can shorten an existing lock.

## Model

| member | source | states |
|---|---|---|
| `Ledger.ReadU8` | src/contracts/PredictionMarket.ts:414-417 | a u8 read of a slot returns the stored value whenever it fits in 8 bits |
| `Ledger.Read` | src/contracts/PredictionMarket.ts:406-408 | an unset slot reads as 0, a written slot as the value last written |
| `Ledger.Wrap` | src/contracts/StakingContract.ts:157-163 | unchecked u256 arithmetic: the exact value cut to 256 bits; a value that fits is unchanged and a negative difference of at most 2^256 gains 2^256 |
| `Governance.PointersInjective` | src/contracts/GovernanceContract.ts:385-400 | two proposal (or ballot) slots coincide exactly when their id, address and field do; proposal and ballot slots never coincide |
| `Governance.AgainstSlotsDiffer` | src/contracts/GovernanceContract.ts:340-347 | the against-votes setter and getter name different slots |
| `Governance.ProposalPointer` | src/contracts/GovernanceContract.ts:385-391 | the slot of one field of one proposal, standing for the hash of ("proposal", id, field); distinct tuples give distinct slots by `PointersInjective` |
| `Governance.UserVotePointer` | src/contracts/GovernanceContract.ts:393-400 | the slot of one field of one voter's ballot on one proposal, standing for the hash of ("vote", id, voter, field) |
| `Governance.GovernanceContract.ProposalProposer` | src/contracts/GovernanceContract.ts:275-278 | reads the proposer slot of a proposal (0 when unset) |
| `Governance.GovernanceContract.ProposalVotingStart` | src/contracts/GovernanceContract.ts:305-308 | reads the voting-start slot |
| `Governance.GovernanceContract.ProposalVotingEnd` | src/contracts/GovernanceContract.ts:315-318 | reads the voting-end slot |
| `Governance.GovernanceContract.ProposalStatus` | src/contracts/GovernanceContract.ts:325-328 | reads the status slot as a u8, so an unset status is PENDING (0) |
| `Governance.GovernanceContract.ProposalForVotes` | src/contracts/GovernanceContract.ts:335-338 | reads the for tally |
| `Governance.GovernanceContract.ProposalAgainstVotes` | src/contracts/GovernanceContract.ts:345-348 | reads the "againstVotes" slot, which no setter writes |
| `Governance.GovernanceContract.ProposalAbstainVotes` | src/contracts/GovernanceContract.ts:355-358 | reads the abstain tally |
| `Governance.GovernanceContract.ProposalExecutionTime` | src/contracts/GovernanceContract.ts:365-368 | reads the execution-time slot |
| `Governance.GovernanceContract.HasVoted` | src/contracts/GovernanceContract.ts:380-383 | a voter has voted exactly when the ballot's "voted" slot reads 1 as a u8; after a vote it does, by `VoteMarksBallot` |
| `Governance.NewProposal` | src/contracts/GovernanceContract.ts:84-100 | the store after `createProposal`: proposer, target, voting start, voting end 17280 blocks later, status PENDING and the three tallies zero, with the against tally in the setter's slot; its reads are stated by `NewProposalReads` |
| `Governance.NewProposalFrame` | src/contracts/GovernanceContract.ts:84-100 | `createProposal` writes no slot outside the new proposal |
| `Governance.RecordVote` | src/contracts/GovernanceContract.ts:148-161 | the store after a successful `castVote`: the ballot (voted, support, weight), then for support 0, 1 or 2 the tally read through the getter plus the weight, written through the setter |
| `Governance.RecordVoteFrame` | src/contracts/GovernanceContract.ts:148-161 | a vote writes no proposal slot except the tally it adds to |
| `Governance.GovernanceContract.SetProposalProposer` | src/contracts/GovernanceContract.ts:270-273 | writes the proposer slot and nothing else |
| `Governance.GovernanceContract.SetProposalTarget` | src/contracts/GovernanceContract.ts:290-293 | writes the target slot and nothing else |
| `Governance.GovernanceContract.SetProposalVotingStart` | src/contracts/GovernanceContract.ts:300-303 | writes the voting-start slot and nothing else |
| `Governance.GovernanceContract.SetProposalVotingEnd` | src/contracts/GovernanceContract.ts:310-313 | writes the voting-end slot and nothing else |
| `Governance.GovernanceContract.SetProposalStatus` | src/contracts/GovernanceContract.ts:320-323 | writes the status slot and nothing else |
| `Governance.GovernanceContract.SetProposalForVotes` | src/contracts/GovernanceContract.ts:330-333 | writes the for tally and nothing else |
| `Governance.GovernanceContract.SetProposalAbstainVotes` | src/contracts/GovernanceContract.ts:350-353 | writes the abstain tally and nothing else |
| `Governance.GovernanceContract.SetProposalExecutionTime` | src/contracts/GovernanceContract.ts:360-363 | writes the execution-time slot and nothing else |
| `Governance.VotingPower` | src/contracts/GovernanceContract.ts:253-256 | the stubbed voting power is positive and meets the proposal threshold for every address |
| `Governance.NewProposalReads` | src/contracts/GovernanceContract.ts:84-100 | a new proposal reads back its proposer, `votingStart`, `votingEnd = votingStart + 17280`, status PENDING and zero tallies, and the getter's against slot is not created |
| `Governance.CreatePreserves` | src/contracts/GovernanceContract.ts:79-100 | creating proposal counter + 1 keeps the governance invariant with the counter advanced |
| `Governance.GovernanceContract.WriteProposal` | src/contracts/GovernanceContract.ts:88-100 | the setter calls of `createProposal` produce exactly `NewProposal` of the old store |
| `Governance.GovernanceContract.CreateProposal` | src/contracts/GovernanceContract.ts:63-103 | always succeeds with id old counter + 1; the store becomes `NewProposal` with `votingStart = now + 144`; the invariant is kept |
| `Governance.VoteMarksBallot` | src/contracts/GovernanceContract.ts:370-383 | after a recorded vote the ballot reads voted = 1 with its support and the voter's power, so `hasVoted` holds and a second vote fails |
| `Governance.RecordVoteTallies` | src/contracts/GovernanceContract.ts:149-161 | support 1 adds the weight to the for tally, support 2 to the abstain tally, and support 0 writes the getter's against slot plus the weight into the setter's slot; support 3 or more changes no tally |
| `Governance.BallotsAfterVote` | src/contracts/GovernanceContract.ts:149-150 | a first vote adds exactly its ballot to the ballots of its proposal and support and changes no other ballot set |
| `Governance.BallotCountAfterVote` | src/contracts/GovernanceContract.ts:149-150 | a first vote adds one to the ballot count of its support on its proposal and changes no other count |
| `Governance.VoteKeepsTallies` | src/contracts/GovernanceContract.ts:149-161 | after a first vote every proposal's for and abstain tallies still equal 10000 times its ballot count, and its written against slot is 10000 if and only if someone voted against |
| `Governance.VotePreserves` | src/contracts/GovernanceContract.ts:110-162 | a first vote on a non-PENDING proposal keeps the governance invariant |
| `Governance.PendingHasNoBallots` | src/contracts/GovernanceContract.ts:115-118 | in a reachable state a PENDING proposal has no ballots and all its tallies read 0 |
| `Governance.FinalizeNeverPasses` | src/contracts/GovernanceContract.ts:176-199 | in a reachable state a proposal that `finalizeProposal` accepts is PENDING and misses the quorum |
| `Governance.StatusWritePreserves` | src/contracts/GovernanceContract.ts:320-323 | storing DEFEATED or CANCELLED keeps the governance invariant |
| `Governance.StatusReadsStored` | src/contracts/GovernanceContract.ts:325-328 | in a reachable state the status reads as PENDING, DEFEATED or CANCELLED |
| `Governance.EmptyStoreValid` | src/contracts/GovernanceContract.ts:39 | the empty store with counter 0 satisfies the governance invariant |
| `Governance.GovernanceContract.constructor` | src/contracts/GovernanceContract.ts:39-43 | a fresh contract has an empty store, counter 0 and satisfies the invariant |
| `Governance.GovernanceContract.CastVote` | src/contracts/GovernanceContract.ts:110-162 | fails with 'Voting not started' on a PENDING status or before `votingStart`, then 'Voting ended' from `votingEnd`, then 'Already voted'; otherwise stores `RecordVote` and marks the voter as having voted; keeps the invariant |
| `Governance.GovernanceContract.FinalizeProposal` | src/contracts/GovernanceContract.ts:167-200 | fails before `votingEnd` or on a status other than PENDING or ACTIVE; otherwise sets SUCCEEDED and `executionTime = now + 2880` if for + against reaches 100000 and for exceeds against, else DEFEATED; in a reachable state always DEFEATED |
| `Governance.GovernanceContract.ExecuteProposal` | src/contracts/GovernanceContract.ts:205-226 | needs SUCCEEDED and an expired timelock, then sets EXECUTED; in a reachable state it always fails |
| `Governance.GovernanceContract.CancelProposal` | src/contracts/GovernanceContract.ts:231-247 | only the proposer, and never on an EXECUTED proposal; sets CANCELLED |
| `Governance.GovernanceContract.GetProposalVotes` | src/contracts/GovernanceContract.ts:261-267 | in a reachable state returns 10000 times the for and abstain ballot counts and an against tally of 0 |
| `Governance.TallyOf` | src/contracts/GovernanceContract.ts:335-358 | in a reachable state the getters read the for and abstain tallies as 10000 times their ballot counts and the against tally as 0 |
| `Governance.NeverPassesIfValid` | src/contracts/GovernanceContract.ts:183-192 | in a reachable state the quorum and majority test of `finalizeProposal` is false |
| `Governance.NoSucceededIfValid` | src/contracts/GovernanceContract.ts:208-212 | no reachable state has a SUCCEEDED, ACTIVE or EXECUTED proposal |
| `Governance.GovernanceContract.SetProposalAgainstVotes` | src/contracts/GovernanceContract.ts:340-343 | writes the `"against Votes"` slot and nothing else |
| `Governance.GovernanceContract.SetUserVote` | src/contracts/GovernanceContract.ts:370-378 | writes voted = 1, the support and the weight of the ballot, in that order |
| `Market.Payout` | src/contracts/PredictionMarket.ts:212-216 | the payout is at most the share and at least 98 % of it (the 200 bps fee), so the subtraction never underflows |
| `Market.MarketPointer` | src/contracts/PredictionMarket.ts:384-390 | the slot of one field of one market, standing for the hash of ("market", id, field) |
| `Market.UserBetPointer` | src/contracts/PredictionMarket.ts:392-399 | the slot of one field of one user's bet on one market, standing for the hash of ("bet", id, user, field) |
| `Market.Share` | src/contracts/PredictionMarket.ts:212 | the bet times the total pool divided, truncating, by the winning pool; bounded by `ShareWithinPool` and `SharesSuperadditive` |
| `Market.Fee` | src/contracts/PredictionMarket.ts:215 | the 200 bps protocol fee of a share, truncating; bounded by `FeeBelowShare` |
| `Market.FeeBelowShare` | src/contracts/PredictionMarket.ts:215-216 | the fee is at most the share and at most 2 % of it |
| `Market.ShareWithinPool` | src/contracts/PredictionMarket.ts:212 | a bet within the winning pool gets a share of at most the total pool |
| `Market.PayoutWithinPool` | src/contracts/PredictionMarket.ts:205-217 | a bet within the winning pool is paid at most the total pool |
| `Market.SharesSuperadditive` | src/contracts/PredictionMarket.ts:212 | the shares of two bets add up to at most the share of their sum |
| `Market.TotalPayoutWithinPool` | src/contracts/PredictionMarket.ts:203-217 | winners whose bets add up to at most the winning pool are paid at most the total pool together |
| `Market.PayoutExample` | src/contracts/PredictionMarket.ts:212-216 | a bet of 100 in a winning pool of 500 and a total pool of 1000 gets share 200, fee 4 and payout 196 |
| `Market.NewMarketReads` | src/contracts/PredictionMarket.ts:78-90 | a new market reads back its creator, end and resolution times, resolver, status ACTIVE, outcome NONE and three empty pools |
| `Market.NewMarket` | src/contracts/PredictionMarket.ts:78-90 | the store after `createMarket`: creator, end time, resolution time, resolver, status ACTIVE, outcome NONE and three zero pools; its reads are stated by `NewMarketReads` |
| `Market.NewMarketFrame` | src/contracts/PredictionMarket.ts:78-90 | `createMarket` writes no slot outside the new market |
| `Market.BetPlaced` | src/contracts/PredictionMarket.ts:122-135 | the store after `placeBet`: the side's pool and the total pool grow by the amount and the bet is overwritten; its reads are stated by `BetPlacedReads` |
| `Market.Resolved` | src/contracts/PredictionMarket.ts:171-172 | the store after `resolveMarket`: status RESOLVED and the outcome |
| `Market.Claimed` | src/contracts/PredictionMarket.ts:220 | the store after `claimWinnings`: the bet's claimed flag set |
| `Market.Cancelled` | src/contracts/PredictionMarket.ts:252 | the store after `cancelMarket`: status CANCELLED |
| `Market.PredictionMarket.MarketCreator` | src/contracts/PredictionMarket.ts:261-264 | reads the creator slot |
| `Market.PredictionMarket.MarketEndTime` | src/contracts/PredictionMarket.ts:281-284 | reads the end-time slot |
| `Market.PredictionMarket.MarketResolutionTime` | src/contracts/PredictionMarket.ts:291-294 | reads the resolution-time slot |
| `Market.PredictionMarket.MarketResolver` | src/contracts/PredictionMarket.ts:301-304 | reads the resolver slot |
| `Market.PredictionMarket.MarketStatus` | src/contracts/PredictionMarket.ts:311-314 | reads the status slot as a u8 |
| `Market.PredictionMarket.MarketOutcome` | src/contracts/PredictionMarket.ts:321-324 | reads the outcome slot as a u8 |
| `Market.PredictionMarket.MarketYesPool` | src/contracts/PredictionMarket.ts:331-334 | reads the YES pool |
| `Market.PredictionMarket.MarketNoPool` | src/contracts/PredictionMarket.ts:341-344 | reads the NO pool |
| `Market.PredictionMarket.MarketTotalPool` | src/contracts/PredictionMarket.ts:351-354 | reads the total pool |
| `Market.PredictionMarket.UserBetAmount` | src/contracts/PredictionMarket.ts:364-367 | reads a user's bet amount |
| `Market.PredictionMarket.UserBetSide` | src/contracts/PredictionMarket.ts:369-372 | a bet is on YES exactly when its side slot reads 1 as a u8 |
| `Market.PredictionMarket.HasUserClaimed` | src/contracts/PredictionMarket.ts:379-382 | a bet is claimed exactly when its claimed slot reads 1 as a u8 |
| `Market.PredictionMarket.UserWon` | src/contracts/PredictionMarket.ts:200-205 | a bet wins when its side matches the stored outcome |
| `Market.PredictionMarket.SetMarketSlot` | src/contracts/PredictionMarket.ts:256-353 | each field setter of a market writes its one slot and nothing else |
| `Market.CreatePreserves` | src/contracts/PredictionMarket.ts:65-90 | creating market counter + 1 with end time before resolution time keeps the market invariant and every terminal status |
| `Market.PredictionMarket.WriteMarket` | src/contracts/PredictionMarket.ts:78-90 | the setter calls of `createMarket` produce exactly `NewMarket` of the old store |
| `Market.PredictionMarket.CreateMarket` | src/contracts/PredictionMarket.ts:54-93 | fails unless `now < endTime < resolutionTime`; otherwise returns counter + 1 and stores `NewMarket`, which reads ACTIVE, outcome NONE and empty pools |
| `Market.BetPlacedReads` | src/contracts/PredictionMarket.ts:122-135 | a bet overwrites the user's amount and side, grows its side's pool and the total pool by the amount, leaves the other pool and the claimed flag alone, and changes no other market |
| `Market.BetKeepsPools` | src/contracts/PredictionMarket.ts:122-135 | a bet keeps total = YES + NO on every market and keeps every stored bet within the pool of its side |
| `Market.BetPreserves` | src/contracts/PredictionMarket.ts:101-136 | a bet on an ACTIVE market keeps the market invariant and every terminal status |
| `Market.PredictionMarket.PlaceBet` | src/contracts/PredictionMarket.ts:101-136 | fails unless the market is ACTIVE, `now < endTime` and the amount is at least 10000; otherwise stores `BetPlaced` |
| `Market.PredictionMarket.SetUserBet` | src/contracts/PredictionMarket.ts:356-362 | writes the amount, then the side as 1 or 0 |
| `Market.ResolvePreserves` | src/contracts/PredictionMarket.ts:143-173 | resolving an ACTIVE market with YES or NO keeps the market invariant and every terminal status |
| `Market.PredictionMarket.ResolveMarket` | src/contracts/PredictionMarket.ts:143-173 | fails unless the market is ACTIVE, the sender is its resolver, the resolution time is reached and the outcome is YES or NO; otherwise sets RESOLVED and the outcome |
| `Market.WinningPoolCoversBet` | src/contracts/PredictionMarket.ts:205-208 | in a reachable state a stored bet is at most the pool of its side, which is at most the total pool |
| `Market.ClaimPreserves` | src/contracts/PredictionMarket.ts:219-220 | marking a bet on a RESOLVED market as claimed keeps the market invariant and every terminal status |
| `Market.PredictionMarket.ClaimWinnings` | src/contracts/PredictionMarket.ts:179-223 | fails unless RESOLVED, with a nonzero bet, not yet claimed; pays a winner `Payout` of the bet and a loser 0, at most the total pool; marks the bet claimed in both cases |
| `Market.PredictionMarket.SetUserClaimed` | src/contracts/PredictionMarket.ts:374-377 | writes the claimed flag as 1 or 0 |
| `Market.CancelPreserves` | src/contracts/PredictionMarket.ts:229-253 | cancelling an ACTIVE market keeps the market invariant and every terminal status |
| `Market.PredictionMarket.CancelMarket` | src/contracts/PredictionMarket.ts:229-253 | fails unless the sender is the creator, the market is ACTIVE and `now < endTime`; otherwise sets CANCELLED |
| `Market.ActiveIsCreated` | src/contracts/PredictionMarket.ts:105-109 | a market that reads ACTIVE or RESOLVED has an id between 1 and the counter |
| `Market.EmptyStoreValid` | src/contracts/PredictionMarket.ts:31 | the empty store with counter 0 satisfies the market invariant |
| `Market.PredictionMarket.constructor` | src/contracts/PredictionMarket.ts:31-44 | a fresh contract has an empty store, counter 0 and satisfies the invariant |
| `Staking.RewardBounded` | src/contracts/StakingContract.ts:150-170 | where nothing wraps, a stake within the total stake earns at most 100 per block since the last claim |
| `Staking.UserPointer` | src/contracts/StakingContract.ts:253-259 | the slot of one field of one staker, standing for the hash of ("staking", user, field) |
| `Staking.PendingRewards` | src/contracts/StakingContract.ts:150-170 | the reward formula with the u256 wrap of the block difference and of both products; always a u256 |
| `Staking.RewardUnwrapped` | src/contracts/StakingContract.ts:150-170 | where the current block is not before the last claim and the product fits in 256 bits, the reward is the exact stake × blocks × 100 divided by the total stake |
| `Staking.NoRewardInSameBlock` | src/contracts/StakingContract.ts:156-166 | in the block of the last claim nothing is pending, whatever the stake |
| `Staking.RewardWrapExamples` | src/contracts/StakingContract.ts:156-166 | a current block one before the last claim counts 2^256 − 1 blocks and pays 2^256 − 100; a stake of 2^255 over two blocks earns 0 |
| `Staking.RewardExample` | src/contracts/StakingContract.ts:150-170 | a stake of 200 out of 1000 earns 200 over ten blocks; no stake or no total stake earns 0 |
| `Staking.Penalty` | src/contracts/StakingContract.ts:105-108 | the penalty is the amount's tenth, rounded down |
| `Staking.WithdrawAmount` | src/contracts/StakingContract.ts:101-110 | the amount less the penalty when early, the whole amount otherwise; bounded by `WithdrawAmountBounds` |
| `Staking.Multiplier` | src/contracts/StakingContract.ts:188-196 | the lock bonus in basis points: 20000 from 4320 remaining blocks, 15000 from 1008, 12500 from 144, else 10000; bounded by `MultiplierBounds` |
| `Staking.LockedWeight` | src/contracts/StakingContract.ts:198 | the stake times the multiplier, cut to 256 bits, divided by 10000 |
| `Staking.VotingWeight` | src/contracts/StakingContract.ts:175-199 | the bare stake once unlocked, else the locked weight of the remaining lock; bounded by `WeightBounds` |
| `Staking.WithdrawAmountBounds` | src/contracts/StakingContract.ts:101-110 | the paid amount is at most the amount and at least 90 % of it, and the whole amount when not early |
| `Staking.WithdrawAmountExample` | src/contracts/StakingContract.ts:101-110 | 500 withdrawn early pays 450 and 500 otherwise; 9 withdrawn early pays 9 |
| `Staking.MultiplierBounds` | src/contracts/StakingContract.ts:188-196 | the lock multiplier lies between 1x and 2x and never decreases with the remaining lock |
| `Staking.UnlockedIsNoLock` | src/contracts/StakingContract.ts:180-198 | where the 1x product fits in 256 bits, an unlocked stake weighs what a stake with zero remaining lock weighs |
| `Staking.WeightBounds` | src/contracts/StakingContract.ts:175-199 | where twice the stake times 10000 fits in 256 bits, the voting weight lies between the stake and twice the stake; once unlocked it is the stake, whatever its size |
| `Staking.WeightMonotone` | src/contracts/StakingContract.ts:185-198 | where the products fit, more remaining lock never gives less weight |
| `Staking.WeightExamples` | src/contracts/StakingContract.ts:175-199 | 1000 locked for at least 4320, 1008, 144 and fewer blocks weighs 2000, 1500, 1250 and 1000; unlocked it weighs 1000 |
| `Staking.WeightWrapExample` | src/contracts/StakingContract.ts:198 | a stake of 2^255 locked for 4320 blocks weighs 0, because its product wraps to 0 |
| `Staking.Staked` | src/contracts/StakingContract.ts:66-74 | the store after `stake`: the stake grows by the amount, the unlock block becomes now + lockPeriod and the last-reward block now; its reads are stated by `StakedReads` |
| `Staking.RewardsClaimed` | src/contracts/StakingContract.ts:133-141 | the store after `claimRewards`: the last-reward block moves to now only when the reward is nonzero |
| `Staking.Withdrawn` | src/contracts/StakingContract.ts:112-117 | the store after `withdraw`: first that of `claimRewards` on the old stake, then the stake less the amount |
| `Staking.StakedReads` | src/contracts/StakingContract.ts:64-74 | staking adds the amount to the stake, resets the unlock block to `now + lockPeriod`, leaves no pending reward and leaves other users alone |
| `Staking.ClaimedReads` | src/contracts/StakingContract.ts:129-145 | claiming leaves nothing to claim in the same block and changes no stake, no unlock block and no other user's last-reward block |
| `Staking.WithdrawnReads` | src/contracts/StakingContract.ts:112-117 | withdrawing moves the last-reward block to now exactly when the reward on the old stake is nonzero, then takes the amount off the stake, keeping the unlock block |
| `Staking.SumRemove` | src/contracts/StakingContract.ts:29 | the sum of the stakes is any one of them plus the sum of the rest |
| `Staking.StakeBelowTotal` | src/contracts/StakingContract.ts:29 | no single stake exceeds the sum of all stakes |
| `Staking.TotalAfterStakeWrite` | src/contracts/StakingContract.ts:223-226 | writing one stake moves the sum of the stakes by the difference |
| `Staking.StakeKeepsTotal` | src/contracts/StakingContract.ts:66-77 | staking adds the amount to the sum of the stakes, as it does to `totalStaked` |
| `Staking.ClaimKeepsTotal` | src/contracts/StakingContract.ts:129-145 | claiming keeps the sum of the stakes |
| `Staking.WithdrawKeepsTotal` | src/contracts/StakingContract.ts:112-120 | a withdrawal within the stake is within the sum of the stakes and takes the amount off it, as it does off `totalStaked` |
| `Staking.RewardBoundedByRate` | src/contracts/StakingContract.ts:150-170 | while `totalStaked` is the sum of the stakes and nothing wraps, every reward is at most 100 per block since the last claim |
| `Staking.StakingContract.CalculatePendingRewards` | src/contracts/StakingContract.ts:150-170 | for every current block: a u256; 0 without a stake or in the block of the last claim; in a reachable state where nothing wraps, at most 100 per block since the last claim |
| `Staking.StakingContract.GetVotingWeight` | src/contracts/StakingContract.ts:175-199 | exactly the stake once unlocked; between the stake and twice the stake where the weight product fits in 256 bits (`WeightWrapExample` shows a locked weight that wraps to 0) |
| `Staking.StakingContract.constructor` | src/contracts/StakingContract.ts:29-33 | a fresh contract has an empty store, `totalStaked` 0 and satisfies the invariant |
| `Staking.StakingContract.UserStakedAmount` | src/contracts/StakingContract.ts:211-230 | reads a staker's stake slot |
| `Staking.StakingContract.UserUnlock` | src/contracts/StakingContract.ts:218-240 | reads a staker's unlock block |
| `Staking.StakingContract.UserLastRewardBlock` | src/contracts/StakingContract.ts:248-251 | reads a staker's last-reward block |
| `Staking.StakingContract.SetUserStake` | src/contracts/StakingContract.ts:223-226 | writes the stake slot and nothing else |
| `Staking.StakingContract.SetUserUnlockBlock` | src/contracts/StakingContract.ts:233-236 | writes the unlock slot and nothing else |
| `Staking.StakingContract.Stake` | src/contracts/StakingContract.ts:50-81 | fails below 1000 tokens or a 144-block lock; otherwise stores `Staked` and adds the amount to `totalStaked`; keeps the invariant |
| `Staking.StakingContract.ClaimRewards` | src/contracts/StakingContract.ts:129-145 | returns the pending reward, a u256, for every block; moves the last-reward block to now only when it is nonzero, and keeps the invariant |
| `Staking.StakingContract.Withdraw` | src/contracts/StakingContract.ts:87-124 | fails when the amount exceeds the stake; otherwise claims first, then takes the amount off the stake and `totalStaked`, and returns the amount less the 10 % penalty before the unlock block; keeps the invariant |
| `Staking.StakingContract.SetUserLastRewardBlock` | src/contracts/StakingContract.ts:243-246 | writes the last-reward block and nothing else |

## Left out

- `PredictionToken.ts`: an OP_20 token wrapper whose minting, burning and balances belong to a library that is not part of this model.
- Hashing and byte encoding of storage pointers: the `Key` datatype stands for the hash, so hash collisions are not modelled.
- The string fields (proposal title, description and calldata; market question and description): they are only ever stored as hashes and never read, so the model does not write them.
- Token custody and transfers, reward minting and the call of a proposal's target: these are placeholders in the contracts. `Withdraw` returns the amount the transfer would pay.
- `initialize` of the governance and staking contracts: the token and staking addresses it sets are only used by the placeholders above.
- The unused constants `QUORUM_PERCENTAGE` and `MARKET_CREATION_FEE`.
- Cross-contract voting power: governance uses its stub of 10000 per address, not the staking weight.
- Persistence of the class fields `proposalCounter`, `marketCounter` and `totalStaked` across contract instantiations: they are treated as persistent fields.
- Wrap-around of u256 arithmetic outside the staking reward and weight formulas. The reward's block difference and products and the weight's product are modelled with wrap-around (`Ledger.Wrap`). Every other add, multiply and subtract that could wrap is excluded by a precondition, and the model computes exact values:
  - Governance.GovernanceContract.CreateProposal: requires the counter to stay below 2^256; `now + 144 + 17280` is unbounded here.
  - Governance.GovernanceContract.CastVote: requires the read tally plus the weight to stay below 2^256.
  - Governance.GovernanceContract.FinalizeProposal: requires for + against to stay below 2^256.
  - Market.PredictionMarket.CreateMarket: requires the counter to stay below 2^256.
  - Market.PredictionMarket.PlaceBet: requires both updated pools to stay below 2^256.
  - Market.PredictionMarket.ClaimWinnings: requires bet × total pool and total pool × 200 to stay below 2^256.
  - Staking.StakingContract.Stake: requires the new stake, the new total and the unlock block to stay below 2^256.
  - Staking.StakingContract.Withdraw: requires the amount to stay within `totalStaked` when it is within the stake, and the penalty product to stay below 2^256 before the unlock block.
- Staking.StakingContract.CalculatePendingRewards: its bound of 100 per block is promised only where the current block is not before the last-reward block and the reward product fits in 256 bits. Other calls are modelled with the wrapped values, and `Staking.RewardWrapExamples` shows two of them.
- Staking.StakingContract.GetVotingWeight: its bound of the stake to twice the stake is promised only where twice the stake times 10000 fits in 256 bits. Larger locked stakes are modelled with the wrapped product, and `Staking.WeightWrapExample` shows one that weighs 0.
- Market.PredictionMarket.CreateMarket: its contract does not mention the market invariant. Preservation is stated on the store function it equals, by `Market.CreatePreserves`.
- Market.PredictionMarket.PlaceBet: its contract does not mention the market invariant. Preservation is stated on the store function it equals, by `Market.BetPreserves`.
- Market.PredictionMarket.ClaimWinnings: requires the market invariant. For a winning bet in an unreachable state the winning pool could be 0, and division by zero is not modelled.
- Division by zero elsewhere: `calculatePendingRewards` guards its only division, and the penalty and weight divide by the constant 10000.
