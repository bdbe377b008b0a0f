# Verified model of the staking, minting and bridge pallets

Four cooperating pallets of the parachain, as state machines over maps, a queue and token ledgers,
with block numbers as u32 and balances as u128. Each call is one all-or-nothing step; each block
start is one hook step.

- **Stable staking.** `StakingInfo.dfy` holds one position and the in-place `Checkpoint`;
  `Drift.dfy` relates a synthetic position (an amount and its weighted average start) to the positions
  it stands for; `Epochs.dfy` and `Queue.dfy` are the calendar and the sorted queue. `StakingState.dfy`
  is the storage and every call. `StakingBooks.dfy`, `StakingSteps.dfy` and `StakingInvariants.dfy`
  build the invariant that `StakingRuns.dfy` proves of every run; `StakingRecords.dfy` ties what the
  committee set to the log; `StakingRoom.dfy` and `StakingAhead.dfy` follow each
  pool's cap and time, `StakingDrift.dfy` bounds the synthetic positions and `StakingShares.dfy` the shares
  claimed from them, over runs in which hooks may fail;
  `StakingTheorems.dfy` says what it all means for users and exactly when the hook fails, and
  `StakingAcceptance.dfy` exactly when deposits, rewards, claims and withdrawals are accepted.
  `StakingExamples.dfy`, over the concrete steps of `StakingScenes.dfy`, has the runs from an empty chain
  that show where a promise breaks; `StakingPallet.dfy` is the pallet as it updates its storage.
  `StakingEffects.dfy` says in full what each call leaves behind, `StakingRefusals.dfy` why one fails.
  `Telescope.dfy` follows one position, and `StakingTelescope.dfy` finds it in storage.
- **Halving mint.** `Halving.dfy` is the schedule and its closed form, `HalvingMint.dfy` the hook and
  the calls, their runs, and the pallet class with the halving loop; `HalvingEffects.dfy` what each call does
  and how the blocks of a run are spent.
- **Bridge.** `ProposalVotes.dfy` is one proposal's votes and the decision. `BridgeState.dfy` joins the
  voting protocol, the asset handler and the transfer pallet. `BridgeHistory.dfy` reads the log of
  everything emitted as an independent account of relayers, votes, decisions, nonces and supply, and
  says which logs follow the protocol; `BridgeInvariants.dfy` and `BridgeTheorems.dfy` prove that the
  storage of every run is that reading; `BridgeExamples.dfy` has the runs in which a vote decides
  otherwise than said; `BridgeEffects.dfy` says when each call is accepted, what it leaves behind and why
  one fails; `BridgePallet.dfy` is the pallets as they update storage.
  `ResourceIds.dfy` is the id derivation with its byte loop.

`Base.dfy`, `Sums.dfy` and `Ledger.dfy` are shared: integer widths, results and guards, sums over maps,
and an exact ledger.

The pallet classes do what the pure steps say, statement by statement, including partial work before a
rollback; each has a `Dispatch` that performs any step of a run and keeps the invariant proved of the steps.

## Assumptions

- One AIUSD asset is registered throughout a run. The staking escrow and the bridge's account never sign.
  Anybody may send tokens to the escrow; outside movements of other tokens and accounts are arbitrary.
- The token pallets refuse transfers, mints and burns for reasons of their own; a parameter of each call
  lists the accounts or pairs they refuse.
- The ratio of two weights is any value of at most one, and is one when the part covers the whole or there
  is no whole; applying it rounds to the nearest unit, ties down.
- The sort of the standard library is a stable sort; `Queue.StableSortUnique` shows that this determines it.
- Twice the halving interval fits a u32 and is positive. The chain's runs stay below the last block number;
  `HalvingMint.LastBlockKeepsScheduleIff` covers that block.
- Unchecked arithmetic wraps, as in a release build: the sum in `claim_based_on_weight`, the relayer count,
  the expiry of a proposal and the rejecting sum of `try_to_complete`.
- The committee and manager origins are one privileged origin.

## Where the code and its own words differ

- A weight before any single start must never be used, say the comments on it
  (`pallets/stable-staking/src/lib.rs:56`, `pallets/stable-staking/src/lib.rs:112`), but a claim checks only the
  caller's own last add. A claim up to a block before another user started can find the pool's weight to be
  zero and take everything: `StakingExamples.EarlyClaimTakesAll`. `StakingShares.ShareComparesByGap` says exactly
  how a claim compares with the whole.
- The ratio of zero to zero is one. When a pool's time is the claimed block its weight is zero, so a claim
  of no weight takes everything, also up to the current block: `StakingExamples.FreshClaimTakesAll` and
  `StakingExamples.NativeClaimAtOnceTakesAll`, with the exact condition in `StakingAcceptance.ZeroWeightPaysIff` and
  `StakingAcceptance.ZeroNativeWeightPaysIff`. Up to the current block this is the only way until a user deposits
  twice or leaves, but for one whose fellow users have no weight: `StakingShares.ReachableShares`.
- `withdraw` leaves the pool's averaged time alone while its amount shrinks
  (`pallets/stable-staking/src/lib.rs:934`), so from the first withdrawal on the pool weight is no bound for
  its users' weights: `StakingExamples.WithdrawalUncovers`, with the exact condition in
  `StakingShares.WithdrawOneSidedIff`. A claim can then push the pool's time ahead of the chain, and until the
  chain catches up nobody in the pool can withdraw: `StakingExamples.WithdrawalLocks`,
  `StakingAcceptance.TimeAheadLocks`, with the exact condition in `StakingAcceptance.WithdrawAcceptedIff`. It is
  never ahead by more than the chain's own length: `StakingAhead.ReachableNear`.
- A second deposit of one user can also uncover the pool by its floor: `StakingExamples.SecondDepositUncovers`,
  with `Drift.DepositOneSidedIff`.
- The hook says it must not error out (`pallets/stable-staking/src/lib.rs:1017`), but a failure has already
  taken the queue and loses it. It fails exactly as `StakingTheorems.HookFailsIff` says: under caps of at most
  2^128 / (2^32 - 1) only on a zero amount (`StakingTheorems.HookFailsOnZeroIff`), so never for positive ones.
- Valid epoch indices are said to end below the number of epochs (`pallets/stable-staking/src/lib.rs:139`), but
  a reward can be recorded for that number too, at any time: `StakingAcceptance.RewardAcceptedIff`.
- A vote against is said not to execute a proposal (`pallets/bridge/src/lib.rs:393`), but it resolves it by
  the same rule, so it carries the call out when the threshold was lowered in between:
  `BridgeExamples.VoteAgainstExecutes`, with the exact condition in `BridgeTheorems.VoteExecutesIff`.
- A proposal is to be rejected once it cannot be approved any more, but the counts compared
  (`pallets/bridge/src/lib.rs:109`) are of all votes against and of the current relayers. A former relayer's vote
  can reject too early, and a threshold raised above the relayers keeps a hopeless proposal open:
  `BridgeExamples.FormerVoteRejectsEarly`, `BridgeExamples.RaisedThresholdStaysOpen`, with the exact condition in
  `Proposals.DecisionExactIff`.
- A genesis start block of zero loses the first slot of the mint: `HalvingMint.GenesisScheduledIff`.

## Model

| member | source | states |
|---|---|---|
| `StakingInfos.AddSucceedsIff` | pallets/stable-staking/src/lib.rs:59-78 | An add succeeds exactly when something is staked afterwards and the total moment fits a u128; the averaged time can never leave the block-number range. |
| `StakingInfos.AddKeepsMoment` | pallets/stable-staking/src/lib.rs:59-78 | An add loses to flooring at least nothing and less than the new amount, and the averaged time never passes the later of the two times. |
| `StakingInfos.ClaimConsumesWeight` | pallets/stable-staking/src/lib.rs:82-88 | A claim moves the moment by exactly the weight it returns, keeps the amount, and leaves nothing to claim at that block. |
| `StakingInfos.ClaimByWeightMovesMoment` | pallets/stable-staking/src/lib.rs:93-102 | Consuming a weight succeeds exactly when there is an amount and the moved time is a block number or so large that the u128 sum wraps; without the wrap the moment advances by the weight rounded down to a multiple of the amount, and the wrap sends the time of a single unit back. |
| `StakingInfos.ClaimByWeightStaysBefore` | pallets/stable-staking/src/lib.rs:93-102 | Consuming at most the weight available at a block always succeeds and never passes that block. |
| `StakingInfos.TakeShareSucceedsIff` | pallets/stable-staking/src/lib.rs:872-884 | A claim finds a share exactly when the holder's last add and both averaged times have come, both weights fit a u128, the pool holds something and its moved time is a block number; the share is the two weights and both positions moved by the holder's. |
| `StakingInfos.PoolTimePassesIff` | pallets/stable-staking/src/lib.rs:93-102 | A claim leaves the pool's time at or before the claimed block exactly when the holder's weight is below the pool's weight plus one pool amount. |
| `StakingInfos.PoolTimeMovesWithin` | pallets/stable-staking/src/lib.rs:876-884 | A claim moves the pool's time by no more than the blocks the holder claims, so never past twice the claimed block. |
| `StakingInfos.ZeroTotalIff` | pallets/stable-staking/src/lib.rs:872-884 | The pool's weight that a share is compared with is zero exactly when the pool's time is the claimed block. |
| `StakingInfos.Checkpoint.Add` | pallets/stable-staking/src/lib.rs:59-78 | The in-place add does what the value-level add says; a failed one has changed only the time of the last add. |
| `StakingInfos.Checkpoint.Claim` | pallets/stable-staking/src/lib.rs:82-88 | The in-place claim returns the weight and consumes it, or returns none and changes nothing. |
| `StakingInfos.Checkpoint.ClaimBasedOnWeight` | pallets/stable-staking/src/lib.rs:93-102 | The in-place move returns the new time, or none without a change for an empty position or a time out of range. |
| `StakingInfos.Checkpoint.Withdraw` | pallets/stable-staking/src/lib.rs:106-110 | Takes exactly the amount out, or fails without a change exactly when it is more than there is. |
| `Drift.DepositGap` | pallets/stable-staking/src/lib.rs:746-806 | A deposit keeps the pool amount equal to the sum of its holders and changes the difference of moments by exactly the two floors. |
| `Drift.ClaimGap` | pallets/stable-staking/src/lib.rs:872-906 | A claim keeps the amounts and lowers the difference of moments by exactly the part of the weight the pool cannot express. |
| `Drift.DepositDrift` | pallets/stable-staking/src/lib.rs:746-806 | After one more deposit the moments differ by at most one more pool amount. |
| `Drift.ClaimDrift` | pallets/stable-staking/src/lib.rs:872-906 | After one more claim the moments differ by at most one more pool amount. |
| `Drift.WeightsWithinDrift` | pallets/stable-staking/src/lib.rs:115-132 | At every block the pool weight and the summed user weights differ by at most the number of moves times the pool amount. |
| `Drift.FirstDepositOneSided` | pallets/stable-staking/src/lib.rs:746-806 | A first-time deposit keeps the pool weight covering its holders. |
| `Drift.DepositOneSidedIff` | pallets/stable-staking/src/lib.rs:746-806 | Any deposit keeps that coverage exactly when the holder's floor does not outweigh the pool's floor and the slack there was. |
| `Drift.ClaimOneSided` | pallets/stable-staking/src/lib.rs:872-906 | A claim keeps that coverage. |
| `Drift.PoolTimeWithinHolders` | pallets/stable-staking/src/lib.rs:59-102 | While the pool covers its holders its averaged time never runs ahead of the latest holder. |
| `Drift.LeaveGap` | pallets/stable-staking/src/lib.rs:934-957 | A withdrawal of all or part of a position keeps the amounts balanced and changes the difference of moments by the difference of the two times over the amount leaving, since the pool's time is not corrected. |
| `StakingRoom.WithdrawLeavesPool` | pallets/stable-staking/src/lib.rs:918-969 | A withdrawal in storage is that leave of the pool's book. |
| `StakingShares.WithdrawLeavesNatives` | pallets/stable-staking/src/lib.rs:942-958 | And, for the stable amount, of the native book. |
| `StakingShares.WithdrawOneSidedIff` | pallets/stable-staking/src/lib.rs:668-682 | After a successful withdraw call, its claims at now included, the pool still covers the users who stay exactly when its time, moved by the leaver's weight, is close enough to now, in terms of the state before the call. |
| `StakingShares.WithdrawNativeOneSidedIff` | pallets/stable-staking/src/lib.rs:668-682 | The same for the native checkpoint. |
| `StakingDrift.ReachableDrift` | pallets/stable-staking/src/lib.rs:59-102 | Up to the first withdrawal the synthetic moment and the summed user moments differ by at most the deposits and claims so far times the amount, one-sided until a user deposits twice: of the native checkpoint in every run, and of a pool in every run in which no hook has failed and, if its cap times the last block number fits a u128, in every run. |
| `StakingDrift.ReachableWeights` | pallets/stable-staking/src/lib.rs:115-132 | The same bound between the pool's weight and its users' weights at any block, in the same runs: all of them for a small cap, those without a failing hook for any. |
| `StakingDrift.ReachableNativeWeights` | pallets/stable-staking/src/lib.rs:115-132 | The same bound for the native checkpoint, in every run up to the first withdrawal. |
| `StakingRoom.FailedBook` | pallets/stable-staking/src/lib.rs:777-806 | An order that fails to settle under a small cap has nothing to add: it leaves its pool with the same amount and time, and all positions of its users. |
| `StakingRoom.ReachableRoomy` | pallets/stable-staking/src/lib.rs:556-575 | In every run without a failing hook, and for a small cap in every run, a pool holds exactly its users' amounts, and with what counts as queued, orders lost by a failing hook included, it never exceeds the cap. |
| `StakingAhead.ReachableNear` | pallets/stable-staking/src/lib.rs:872-906 | In every run, failing hooks included, a pool holds at least its users' amounts and its averaged time is at most twice the current block, which bounds how long it can lock its users out. |
| `StakingAhead.ReachableNativeNear` | pallets/stable-staking/src/lib.rs:811-839 | The same of the native checkpoint, and every user counts natively for at least what it has settled and queued. |
| `StakingShares.ReachableBegun` | pallets/stable-staking/src/lib.rs:59-102 | In every run, failing hooks included, every user's averaged time and last add are at most the current block, for pools and native. |
| `StakingShares.ReachableShares` | pallets/stable-staking/src/lib.rs:857-916 | In every run without a failing hook, and for a small cap in every run, until a user deposits into the pool twice or leaves it, a claim up to the current block of a user with something staked: before that block the pool's weight is positive and covers the user's, at it both are zero; it is for the whole exactly when the others weigh nothing and flooring has lost nothing; it leaves the pool's time at or before the block, and fails only on a pool weight beyond a u128. |
| `StakingShares.ReachableNativeShares` | pallets/stable-staking/src/lib.rs:808-855 | The same for native claims, in every run, until a user stakes twice or withdraws. |
| `StakingShares.ShareComparesByGap` | pallets/stable-staking/src/lib.rs:863-880 | A claim up to any block, in any state with agreeing amounts, weighs less than the pool, as much or more exactly as the pool's moment exceeds its users' by less than the others' weight at that block, by just it, or by more; that weight is negative before they start. |
| `StakingShares.NativeShareComparesByGap` | pallets/stable-staking/src/lib.rs:811-825 | The same for native claims. |
| `Telescope.ClaimsTelescope` | pallets/stable-staking/src/lib.rs:59-88 | Over any run of adds and claims of one position, claimed plus remaining weight is the exact stake-blocks plus a rounding term from zero to below the sum of the amounts after each add, or zero if that sum is. |
| `StakingTelescope.ReachableReplayed` | pallets/stable-staking/src/lib.rs:777-806 | In every run, failing hooks included, a user's stored position in a pool is the one reached from nothing by its settled deposits and claims in the log since its last withdrawal. |
| `StakingTelescope.ReachableTelescope` | pallets/stable-staking/src/lib.rs:872-884 | So in every run the weight those claims consumed and the weight the stored position has left are the exact stake-blocks of those deposits plus a rounding from zero to the sum of the amounts after each. |
| `Epochs.IndexOfBegin` | pallets/stable-staking/src/lib.rs:701-743 | The epoch of the begin of epoch k is the smaller of k and the number of epochs, for every epoch of a pool whose end is a block. |
| `Epochs.BeginOfIndex` | pallets/stable-staking/src/lib.rs:701-743 | Every block of a pool's life lies between the begin of its epoch and the begin of the next. |
| `Epochs.EpochNotOverIff` | pallets/stable-staking/src/lib.rs:701-743 | An epoch is not over exactly until the next one begins. |
| `Epochs.TargetIsLeastBoundary` | pallets/stable-staking/src/lib.rs:577-587 | The target of an accepted stake is the least epoch boundary strictly after now plus setup time, and strictly before the end. |
| `Epochs.TargetExistsIff` | pallets/stable-staking/src/lib.rs:577-587 | A started pool has a target for a stake exactly when a whole epoch still fits between the end of the setup and the end of the pool. |
| `Queue.SortStable` | pallets/stable-staking/src/lib.rs:602-604 | The sort orders the queue by time, loses and adds nothing, and keeps equal times in order of arrival. |
| `Queue.StableSortUnique` | pallets/stable-staking/src/lib.rs:602-604 | Those properties have one solution, so any stable sort gives this queue. |
| `Queue.RipeAreFirst` | pallets/stable-staking/src/lib.rs:973-1008 | In a sorted queue the due orders are exactly those before the first unripe one. |
| `Queue.DropRipeIsFilter` | pallets/stable-staking/src/lib.rs:973-1008 | So popping until the first unripe order is the same as filtering. |
| `StakingSteps.SolveLoopSettlesRipe` | pallets/stable-staking/src/lib.rs:971-1011 | A settling loop that does not fail settles exactly the due prefix, one event each, and puts the rest back in order. |
| `StakingSteps.SolvePendingFilters` | pallets/stable-staking/src/lib.rs:971-1011 | A successful settling at n leaves exactly the orders later than n, in the same order. |
| `StakingSteps.SolveOneFailsIff` | pallets/stable-staking/src/lib.rs:777-806 | Settling an order fails exactly when its add to the pool or to the user divides by zero or takes the moment out of a u128. |
| `StakingBooks.StakeConserves` | pallets/stable-staking/src/lib.rs:589-612 | Queueing a deposit under the cap keeps every equation between pools, users, queue and native amounts. |
| `StakingBooks.SolveConserves` | pallets/stable-staking/src/lib.rs:976-996 | Settling the head of the queue keeps them, and its amount never exceeds the pending amount it is taken from. |
| `StakingBooks.WithdrawConserves` | pallets/stable-staking/src/lib.rs:921-966 | Withdrawing a position keeps them across the four maps it touches. |
| `StakingSteps.StakeOnBooks` | pallets/stable-staking/src/lib.rs:589-612 | A deposit in storage is that queueing step on the amounts. |
| `StakingSteps.SolveOneOnBooks` | pallets/stable-staking/src/lib.rs:976-996 | A settled order in storage is that settling step on the amounts. |
| `StakingSteps.DoWithdrawOnBooks` | pallets/stable-staking/src/lib.rs:918-969 | A withdrawal in storage is that withdrawing step on the amounts, and a user's position always has its pool. |
| `StakingInvariants.QueueTick` | pallets/stable-staking/src/lib.rs:971-1022 | A hook that succeeds at the next block settles exactly the orders due then, each on its target block, and keeps the queue sorted and in order of acceptance. |
| `StakingInvariants.RewardsPay` | pallets/stable-staking/src/lib.rs:886-904 | Paying a claim keeps the recorded epoch rewards of every pool equal to what is unclaimed plus what was paid, without underflow. |
| `StakingInvariants.RewardsAdd` | pallets/stable-staking/src/lib.rs:510-537 | Recording an epoch's reward keeps the same equation. |
| `StakingRuns.StepKeeps` | pallets/stable-staking/src/lib.rs:423-696 | Every call, block and outside token movement keeps the whole invariant, tokens sent to the escrow counted, except a block whose hook fails. |
| `StakingPallet.Pallet.Dispatch` | pallets/stable-staking/src/lib.rs:423-696 | The pallet in place performs any step of a run and keeps the whole invariant unless the hook fails. |
| `StakingRuns.ReachableInvariant` | pallets/stable-staking/src/lib.rs:423-1022 | Every state reachable without a failing hook has it: amounts conserved over six storage items, the queue timely and in order, nothing lost or settled twice, principal kept, withdrawals final, rewards recorded, escrow backed. |
| `StakingRuns.SoundRunsNeverFail` | pallets/stable-staking/src/lib.rs:1013-1022 | With positive deposits and small caps no hook of any run ever fails. |
| `StakingRuns.SolveCallIdle` | pallets/stable-staking/src/lib.rs:634-640 | While the hook runs every block, settling by hand finds nothing due and changes nothing. |
| `StakingRuns.BlockIsSettling` | pallets/stable-staking/src/lib.rs:1013-1022 | A block is the settling of its number, whether or not anything is due and whether or not it fails. |
| `StakingRecords.ReachableRecords` | pallets/stable-staking/src/lib.rs:433-696 | In every run, failing hooks included, pools, epoch rewards and the asset are those announced: each pool once and for good, each epoch rewarded once, deposits only with a target after their pool's start, withdrawals only from an ended pool. |
| `StakingTheorems.OrdersConserved` | pallets/stable-staking/src/lib.rs:971-1022 | Accepted orders are settled or waiting, each once: settled when its target has come, waiting before. |
| `StakingTheorems.HoldsEverything` | pallets/stable-staking/src/lib.rs:577-587 | Once a pool has ended a user's position is everything the user ever staked in it. |
| `StakingTheorems.WithdrawReturnsEverything` | pallets/stable-staking/src/lib.rs:668-682 | A successful withdrawal of a position returns exactly everything the user ever staked in the pool: with the claimed reward it leaves the escrow and is added to the user's own balance. |
| `StakingTheorems.EscrowCovers` | pallets/stable-staking/src/lib.rs:607-620 | The escrow exceeds its starting balance and the tokens sent to it by exactly settled stake, pending stake and unclaimed rewards, so it covers each position and each pool's rewards. |
| `StakingAcceptance.ClaimStableAcceptedIff` | pallets/stable-staking/src/lib.rs:655-662 | In an invariant state a stable claim is accepted exactly up to a block not ahead and, for a user with a position, when its share can be taken there and its reward received; the funds are always there. |
| `StakingAcceptance.ClaimNativeAcceptedIff` | pallets/stable-staking/src/lib.rs:646-649 | A native claim likewise, from the reward account. |
| `StakingAcceptance.WithdrawAcceptedIff` | pallets/stable-staking/src/lib.rs:668-682 | In an invariant state a withdrawal is accepted exactly when the pool has ended, the native share can be taken and received, and so can the stable share together with the principal; no underflow and no lack of funds is possible. |
| `StakingAcceptance.ClaimableNowIff` | pallets/stable-staking/src/lib.rs:115-132 | At the current block only the pool's time, its amount and the integer widths can keep a share from being taken. |
| `StakingAcceptance.TimeAheadLocks` | pallets/stable-staking/src/lib.rs:668-682 | A pool or native checkpoint whose time has run ahead of the chain makes every withdrawal under it fail. |
| `StakingAcceptance.StakeAcceptedIff` | pallets/stable-staking/src/lib.rs:544-628 | In an invariant state a deposit is accepted exactly when the pool has started and a whole epoch still fits, the cap has room, no native moment divides by zero or leaves a u128, and the user can pay the escrow. |
| `StakingAcceptance.RewardAcceptedIff` | pallets/stable-staking/src/lib.rs:493-538 | A reward is recorded exactly by the committee for an existing pool with epochs of some length, for an epoch that is not over or the index one past the last, once, when the token pallet mints it and both balances have room. |
| `StakingEffects.ClaimStableExactly` | pallets/stable-staking/src/lib.rs:655-662 | An accepted stable claim in full, by the state before it: to the user, from the escrow and off the pool's unclaimed reward goes all of that for a weight that reaches the pool's, and else the runtime ratio of the two weights of it to the nearest unit; both positions move by the user's weight, it is announced, and nothing else changes. |
| `StakingEffects.ClaimNativeExactly` | pallets/stable-staking/src/lib.rs:646-649 | An accepted native claim likewise: the reward account loses and the user gains the ratio of the weights of its balance, and every other balance stays. |
| `StakingEffects.AccurateShare` | pallets/stable-staking/src/lib.rs:874-892 | With a ratio within so many parts of the exact one, such a payment is the weight over the total of the whole up to half a unit and that many parts. |
| `StakingEffects.HalfPaysHalf` | pallets/stable-staking/src/lib.rs:874-892 | Of two equal weights with an exact ratio, each is paid half. |
| `StakingEffects.WithdrawExactly` | pallets/stable-staking/src/lib.rs:668-682 | An accepted withdrawal in full, by the state before it: after the end of the pool, the native share of the reward account by the weights at the current block and the stable share with the principal reach the user's balances; the position goes, pool and native positions move and shrink, each part is announced, and nothing else changes. |
| `StakingEffects.StakeExactly` | pallets/stable-staking/src/lib.rs:544-628 | An accepted deposit in full: its order for the least epoch boundary after the setup goes in behind all that are not later, its amount counts as queued and natively from the current block, and goes from the user to the escrow; nothing else changes. |
| `StakingEffects.SolveOneAdds` | pallets/stable-staking/src/lib.rs:777-806 | A settled order is added at the block to its pool and its user, averaged with a floor of less than a block, and taken off the pending amount. |
| `StakingSteps.SolvedMaps` | pallets/stable-staking/src/lib.rs:777-806 | An order fails exactly when an add does or less counts as queued; then the pool's part stays if it was written and the pending amount is untouched. |
| `StakingTheorems.BlockSettlesUpTo` | pallets/stable-staking/src/lib.rs:971-1022 | Every block settles the due orders in turn up to the end or to the first that fails, announces each, puts back the rest only if none failed, and keeps what it has settled. |
| `StakingTheorems.SolveCallSettlesUpTo` | pallets/stable-staking/src/lib.rs:634-640 | Settling by hand does the same at the current block, is accepted exactly if none fails, and changes nothing otherwise. |
| `StakingEffects.NextBlockTouches` | pallets/stable-staking/src/lib.rs:1013-1022 | A block moves the clock by one and touches only deposits that are due and the log. |
| `StakingEffects.CommitteeEnacts` | pallets/stable-staking/src/lib.rs:433-538 | Opening a pool, recording a reward and registering the asset are accepted exactly under the stated conditions, and then write the arguments of the call where they belong, mint the reward to the escrow, and change nothing else. |
| `StakingRefusals.RefusalsExplain` | pallets/stable-staking/src/lib.rs:433-696 | Whatever error a call ends with is true of the state and its arguments, for every call and every error, and the state stays. |
| `StakingAcceptance.ZeroWeightPaysIff` | pallets/stable-staking/src/lib.rs:872-895 | With a ratio that takes zero of something for zero, a claim of no weight is paid all of the pool's unclaimed reward when the pool's time is the claimed block, and nothing otherwise. |
| `StakingAcceptance.ZeroNativeWeightPaysIff` | pallets/stable-staking/src/lib.rs:819-835 | A native claim of no weight likewise, from the reward account. |
| `StakingTheorems.HookFailsIff` | pallets/stable-staking/src/lib.rs:971-1022 | In a state with agreeing amounts the next hook fails exactly when some due order, after those before it, does not fit its pool or its user's position: a zero amount on an empty one, or a moment beyond a u128. |
| `StakingExamples.FailureDropsQueue` | pallets/stable-staking/src/lib.rs:972-1009 | When settling fails the stored queue stays empty: what was not settled is gone. |
| `StakingExamples.ZeroDepositsLoseOrders` | pallets/stable-staking/src/lib.rs:1013-1022 | A run from an empty chain: two deposits of zero make the hook fail and an accepted deposit of seven is neither settled nor waiting. |
| `StakingExamples.SecondDepositUncovers` | pallets/stable-staking/src/lib.rs:59-78 | A run from an empty chain: a second deposit of the same user leaves the pool weight below its users'. |
| `StakingExamples.WithdrawalUncovers` | pallets/stable-staking/src/lib.rs:934-935 | A run from an empty chain: after one of two equal stakes has left, the pool weight is below the other's. |
| `StakingExamples.WithdrawalLocks` | pallets/stable-staking/src/lib.rs:668-682 | That run goes on: the other user's claim pushes the pool's time ahead, and at the next block its withdrawal fails although the pool has ended. |
| `StakingExamples.EarlyClaimTakesAll` | pallets/stable-staking/src/lib.rs:863-906 | A run without a repeated deposit or a withdrawal: a claim up to a block before the other user started takes the whole reward of the pool, and a native one the whole reward account, and both push the time past the claimed block. |
| `StakingExamples.FreshClaimTakesAll` | pallets/stable-staking/src/lib.rs:872-895 | A run with one deposit of each of two users and no withdrawal: a claim up to the current block, at which both were settled, weighs nothing and takes the whole reward of the pool. |
| `StakingExamples.NativeClaimAtOnceTakesAll` | pallets/stable-staking/src/lib.rs:819-835 | A run in which the first staker claims in the block of its deposit and empties the reward account. |
| `StakingPallet.Pallet.CreateStakingPool` | pallets/stable-staking/src/lib.rs:433-454 | Opening a pool, or its error, leaves exactly the state the step describes. |
| `StakingPallet.Pallet.UpdateReward` | pallets/stable-staking/src/lib.rs:493-538 | A failure after minting is rolled back; success records and mints the reward. |
| `StakingPallet.Pallet.Stake` | pallets/stable-staking/src/lib.rs:544-628 | A failure after the queue was written is rolled back; success queues, counts and moves the tokens. |
| `StakingPallet.Pallet.Push` | pallets/stable-staking/src/lib.rs:589-610 | Pushes, sorts in place and adds to the pending amount. |
| `StakingPallet.Pallet.DoNativeAdd` | pallets/stable-staking/src/lib.rs:746-774 | Adds to the global native checkpoint and to the user's, or fails. |
| `StakingPallet.Pallet.DoStableAdd` | pallets/stable-staking/src/lib.rs:777-806 | Adds to the pool's checkpoint and to the user's; the first stays when the second fails. |
| `StakingPallet.Pallet.SolvePending` | pallets/stable-staking/src/lib.rs:971-1011 | The pop loop, with what it leaves behind when it stops on an error. |
| `StakingPallet.Pallet.BeginBlock` | pallets/stable-staking/src/lib.rs:1013-1022 | The hook drops a failure but not its effects. |
| `StakingPallet.Pallet.SolvePendingStake` | pallets/stable-staking/src/lib.rs:634-640 | The same loop as a call is rolled back on a failure. |
| `StakingPallet.Pallet.TakeWeight` | pallets/stable-staking/src/lib.rs:872-884 | The two working copies at a claim agree with one share taken from the pool. |
| `StakingPallet.Pallet.ClaimNative` | pallets/stable-staking/src/lib.rs:646-649 | A native claim writes both checkpoints and pays, or changes nothing. |
| `StakingPallet.Pallet.ClaimStable` | pallets/stable-staking/src/lib.rs:655-662 | A stable claim writes both checkpoints, the unclaimed reward and the tokens, or changes nothing. |
| `StakingPallet.Pallet.Withdraw` | pallets/stable-staking/src/lib.rs:668-682 | Both claims and the withdrawal as one all-or-nothing call. |
| `StakingPallet.Pallet.WithdrawFromNative` | pallets/stable-staking/src/lib.rs:942-958 | Takes the amount from the global and the user's native position, dropping the latter when emptied. |
| `StakingPallet.Pallet.RegistAiusd` | pallets/stable-staking/src/lib.rs:688-696 | Registers the asset for the committee only. |
| `Halving.BitLengthLocates` | pallets/halving-mint/src/lib.rs:184-191 | The bit length of a positive amount puts it between two powers of two, so it counts the halvings before nothing is left. |
| `Halving.HalvedNext` | pallets/halving-mint/src/lib.rs:188-191 | Halving once more is dividing by the next power of two, although each halving floors. |
| `Halving.SlotIsHalved` | pallets/halving-mint/src/lib.rs:172-191 | What the schedule pays in a slot is the first amount divided by two to the number of full intervals before it. |
| `Halving.NextSlot` | pallets/halving-mint/src/lib.rs:172-191 | Minting one more slot adds exactly the amount halved once per full interval. |
| `Halving.SupplyLimit` | pallets/halving-mint/src/lib.rs:172-207 | No number of mints exceeds the interval times twice the first amount less its one bits, and the limit is met exactly from one interval per bit on. |
| `Halving.LimitWithinIssuance` | pallets/halving-mint/src/lib.rs:172-174 | For any first amount that the issuance spreads over two intervals, that limit is within the issuance. |
| `Halving.FirstSpreads` | pallets/halving-mint/src/lib.rs:172-175 | The first amount is the one number of which twice the interval fits the total issuance, and of one more does not. |
| `HalvingMint.HookMintsNextSlot` | pallets/halving-mint/src/lib.rs:160-221 | The hook mints exactly when minting runs and start plus skipped blocks have passed; the mint's effective index is the number of mints before it, and its amount the first one halved once per interval. |
| `HalvingMint.HookSupplies` | pallets/halving-mint/src/lib.rs:193-207 | What is minted is added to the currency's issuance, which stays the initial one plus all mints up to the width of a balance. |
| `HalvingMint.ReachableScheduled` | pallets/halving-mint/src/lib.rs:160-291 | Under every pattern of starts, stops and resumes exactly the due slots have been minted, in order. |
| `HalvingMint.Pallet.Dispatch` | pallets/halving-mint/src/lib.rs:160-291 | The pallet in place performs any step of a run and keeps the schedule and the supply. |
| `HalvingMint.ReachableSupplyLimit` | pallets/halving-mint/src/lib.rs:160-221 | In every run, for the amount that the issuance spreads over two intervals, the total minted stays within the closed-form limit and the intended issuance, equals the limit exactly once enough mints have happened, and is what the issuance grew by exactly when that fits a balance. |
| `HalvingMint.ReachableAmounts` | pallets/halving-mint/src/lib.rs:172-191 | In every run mint number j is that amount divided by two to the number of full intervals before it. |
| `HalvingMint.ThousandOverTen` | pallets/halving-mint/src/tests.rs:82-99 | An issuance of 1000 over intervals of ten starts at 50 and comes to 970, after 60 mints. |
| `HalvingEffects.ReachableBlocks` | pallets/halving-mint/src/lib.rs:163-221 | In every run the skipped blocks are those begun while stopped after a start, and those minted in are those begun while running with as many blocks since the start as were stopped. |
| `HalvingEffects.MintsAreBlocks` | pallets/halving-mint/src/lib.rs:166-219 | So the number of mints is the blocks since the start less the stopped ones. |
| `HalvingEffects.CallTurnsExactly` | pallets/halving-mint/src/lib.rs:233-291 | Each call of the manager is accepted exactly under the stated conditions, turns the switch or sets the start its arguments name, announces that, and changes nothing else. |
| `HalvingEffects.RefusalsExplain` | pallets/halving-mint/src/lib.rs:233-291 | Whatever error a call ends with is true of the state and its arguments. |
| `HalvingMint.PausesOnlyDelay` | pallets/halving-mint/src/lib.rs:213-219 | Of two runs of one configuration the one with fewer mints has minted a prefix of the other's amounts. |
| `HalvingMint.ReachableFollowsLog` | pallets/halving-mint/src/lib.rs:235-291 | In every run the two switches and the start block are what was last announced, each announcement was a change, and nothing was minted while stopped. |
| `HalvingMint.LastBlockKeepsScheduleIff` | pallets/halving-mint/src/lib.rs:166-180 | At the last block number the schedule is kept exactly when minting is stopped or start plus skipped blocks has not saturated. |
| `HalvingMint.GenesisScheduledIff` | pallets/halving-mint/src/lib.rs:147-155 | A chain begins on schedule exactly when its start block, if set at genesis, lies ahead. |
| `HalvingMint.GenesisBlockIsNeverMinted` | pallets/halving-mint/src/lib.rs:147-191 | A concrete case: with start block zero at genesis the first amount ever minted is already the second slot's. |
| `HalvingMint.Pallet.SlotAmount` | pallets/halving-mint/src/lib.rs:172-191 | The halving loop finds the first amount divided by two to the number of elapsed intervals. |
| `HalvingMint.Pallet.BeginBlock` | pallets/halving-mint/src/lib.rs:160-221 | The hook in place does what its step says, in each branch. |
| `HalvingMint.Pallet.SetMinting` | pallets/halving-mint/src/lib.rs:235-242 | Pausing and resuming: the manager only, after a start, and only as a change. |
| `HalvingMint.Pallet.Start` | pallets/halving-mint/src/lib.rs:276-291 | Starting: the manager only, once, and for a later block. |
| `Proposals.DecisionExactIff` | pallets/bridge/src/lib.rs:105-116 | For any voters, relayers and threshold, a proposal not approved, whose votes against plus the threshold fit a u32, is rejected if and only if no votes of the remaining relayers could approve it, exactly when the counts agree: under a threshold the relayers could meet, unless former relayers' votes reject too early; above it, unless it is hopeless. |
| `Proposals.ReachableIff` | pallets/bridge/src/lib.rs:105-116 | A proposal can still be approved exactly while the relayers not against it, and the former ones in favour, meet the threshold. |
| `Proposals.CurrentVotersAgree` | pallets/bridge/src/lib.rs:105-116 | The counts agree while every voter is a relayer and the threshold is within their number. |
| `Proposals.WrapKeepsOpen` | pallets/bridge/src/lib.rs:105-116 | A rejecting sum that wraps while the voters against are relayers leaves the proposal open, hopeless if those in favour are relayers too. |
| `Proposals.EveryVoteDecidesIff` | pallets/bridge/src/lib.rs:105-116 | Once every relayer has voted, whoever else has, a proposal stays open exactly when it is short of a threshold that exceeds the relayers or wraps the rejecting sum. |
| `Proposals.Ballot.TryToComplete` | pallets/bridge/src/lib.rs:105-116 | The working copy takes the decided status, and keeps its own when nothing is decided. |
| `BridgeHistory.ApprovalIsJustified` | pallets/bridge/src/lib.rs:545-567 | In a lawful log an approval happens once per proposal, before its deadline and at a moment when as many different accounts as the threshold then asked for had voted for it, each a relayer when voting; those votes never change afterwards. |
| `BridgeHistory.DecisionStands` | pallets/bridge/src/lib.rs:526-529 | Whatever lawfully follows a decision leaves it and its votes alone. |
| `BridgeHistory.LawfulVotes` | pallets/bridge/src/lib.rs:526-529 | In a lawful log nobody votes twice on a proposal, on one side or on both. |
| `BridgeHistory.NoncesAreGapless` | pallets/bridge/src/lib.rs:460-467 | In a lawful log the nonces announced to a chain are 1, 2, 3 and so on. |
| `BridgeInvariants.CommitFaithful` | pallets/bridge/src/lib.rs:512-542 | A vote keeps the storage equal to the reading of a lawful log. |
| `BridgeInvariants.ResolveFaithful` | pallets/bridge/src/lib.rs:545-612 | Resolving a proposal keeps it, whether it stays open, is rejected, or is approved and carried out. |
| `BridgeInvariants.DepartureShifts` | pallets/assets-handler/src/lib.rs:182-231 | Preparing an outgoing transfer lowers the issuance of its asset by exactly the positive amount it returns, the fee staying inside. |
| `BridgeInvariants.DispatchSupplies` | pallets/assets-handler/src/lib.rs:153-180 | Carrying out an approved transfer raises the issuance of its asset by exactly its amount. |
| `BridgeTheorems.StepFaithful` | pallets/bridge/src/lib.rs:299-639 | Every call, successful or not, and every block keeps the storage faithful to a lawful log. |
| `BridgePallet.Pallet.Dispatch` | pallets/bridge/src/lib.rs:299-437 | The pallets in place perform any step of a run and keep their storage faithful to a lawful log. |
| `BridgeTheorems.ReachableFaithful` | pallets/bridge/src/lib.rs:299-639 | So does every run from a fresh bridge. |
| `BridgeTheorems.ExecutedExactlyOnce` | pallets/bridge/src/lib.rs:512-605 | In every run a proposal has been carried out once if it is stored as approved and never otherwise. |
| `BridgeTheorems.ApprovedByThreshold` | pallets/bridge/src/lib.rs:512-567 | A stored approved proposal was approved at one moment of the run, before it expired, by at least the threshold of that moment of different accounts, each a relayer when it voted from a listed chain. |
| `BridgeTheorems.RunKeepsClosed` | pallets/bridge/src/lib.rs:526-529 | From any state, a complete or expired entry never changes again, whatever is called. |
| `BridgeTheorems.ReachableVotes` | pallets/bridge/src/lib.rs:526-529 | In every run the stored votes for and against a proposal are duplicate-free and disjoint. |
| `BridgeTheorems.ReachableRelayerCount` | pallets/bridge/src/lib.rs:491-507 | In every run the stored count is the size of the relayer set as a u32, both the set and the positive threshold are those last announced. |
| `BridgeTheorems.VoteSettlesExactly` | pallets/bridge/src/lib.rs:570-591 | After every successful vote, for or against, the proposal is approved exactly when its votes in favour meet the threshold; otherwise, if the sums fit a u32, it is rejected if and only if it could no longer be approved exactly when the counts agree, as they do while all voters are relayers who could meet the threshold. |
| `BridgeTheorems.EvalSettlesExactly` | pallets/bridge/src/lib.rs:428-437 | The same after every successful evaluation. |
| `BridgeEffects.VoteExactly` | pallets/bridge/src/lib.rs:374-411 | A vote is accepted exactly from a signed relayer, from a listed chain, on an entry that is open and before its expiry or would be opened with one ahead, in neither list of which the voter is, and of whose call, if the votes in favour then meet the threshold, the mint is possible; it is put on its side, the entry with it is decided, executed and announced, and nothing else changes. |
| `BridgeEffects.EvalExactly` | pallets/bridge/src/lib.rs:428-437 | An evaluation is accepted exactly from a signed account for a stored, open and unexpired entry whose call, if due, is possible; it decides, executes and announces, and changes nothing else. |
| `BridgeEffects.DispatchExactly` | pallets/assets-handler/src/lib.rs:153-180 | An arriving transfer is carried out exactly for a known resource that can be minted; the receiver gains exactly its amount, and no other holding, issuance or resource changes. |
| `BridgeEffects.TransferExactly` | pallets/bridge-transfer/src/lib.rs:104-113 | The transfer call does the same, exactly for the bridge's own account. |
| `BridgeTheorems.VoteExecutesIff` | pallets/bridge/src/lib.rs:570-605 | A successful vote, for or against, carries the proposal's call out, with exactly the call's effect, exactly when the votes in favour, this one included if it is one, meet the threshold. |
| `BridgeExamples.VoteAgainstExecutes` | pallets/bridge/src/lib.rs:582-605 | A run from a fresh bridge: one vote for under a threshold of two, the threshold lowered to one, and a vote against by another relayer mints the transfer. |
| `BridgeExamples.FormerVoteRejectsEarly` | pallets/bridge/src/lib.rs:105-116 | A run: of three relayers under a threshold of two, one votes against after a former relayer has, and the proposal is rejected although the other two could still approve it. |
| `BridgeExamples.RaisedThresholdStaysOpen` | pallets/bridge/src/lib.rs:105-116 | A run: two relayers vote against under a threshold raised to three, and the hopeless proposal stays open. |
| `BridgeTheorems.ReachableNonces` | pallets/bridge/src/lib.rs:460-488 | In every run the nonces announced to a chain are exactly 1 up to its stored nonce, and the stored bridge events are exactly those of the current block in order. |
| `BridgeTheorems.ReachableSupply` | pallets/assets-handler/src/lib.rs:153-231 | In every run, also when resources are remapped and holdings move between accounts, an asset's issuance is the initial one plus carried-out transfers into it minus announced transfers out of it, and equals the sum of its holdings. |
| `BridgeTheorems.ReachableFixedSupply` | pallets/bridge-transfer/src/lib.rs:80-113 | With a fixed resource map that is the initial issuance plus the amounts of all proposals stored as approved minus the amounts of all announced transfers. |
| `BridgeTheorems.TransferAssetsSucceedsIff` | pallets/bridge-transfer/src/lib.rs:80-98 | An outgoing transfer goes through exactly for a member whose funds cover an amount above the fee, of a known resource, to a listed chain with a nonce left. |
| `BridgeTheorems.TransferAssetsPays` | pallets/assets-handler/src/lib.rs:182-231 | Its sender pays the amount, the treasury gains the fee, and no other holding of any asset moves. |
| `BridgeEffects.TransferAssetsAnnounces` | pallets/bridge/src/lib.rs:615-639 | It is announced, stored and logged once, for the recipient named, with the amount less the resource's fee, under the next nonce of its destination; votes, resources and clock stay. |
| `BridgeEffects.CommitteeEnacts` | pallets/bridge/src/lib.rs:318-357 | Threshold, chains, relayers and resources are changed exactly by the committee under the stated conditions, to what the call names, and nothing else changes. |
| `BridgeEffects.NextBlockForgets` | pallets/bridge/src/lib.rs:299-303 | A block moves the clock by one and forgets the transfers of the block before. |
| `BridgeEffects.RefusalsExplain` | pallets/bridge/src/lib.rs:299-437 | Whatever error a call of the bridge ends with is true of the state and its arguments, and the state stays. |
| `BridgePallet.Pallet.SetThreshold` | pallets/bridge/src/lib.rs:318-321 | Sets a positive threshold for the committee only. |
| `BridgePallet.Pallet.WhitelistChain` | pallets/bridge/src/lib.rs:330-333 | Lists another chain once, with nonce zero. |
| `BridgePallet.Pallet.AddRelayer` | pallets/bridge/src/lib.rs:342-345 | Adds a new relayer and counts it. |
| `BridgePallet.Pallet.RemoveRelayer` | pallets/bridge/src/lib.rs:354-357 | Removes a relayer and uncounts it. |
| `BridgePallet.Pallet.CommitVote` | pallets/bridge/src/lib.rs:512-542 | Pushes the vote into the stored or a fresh entry, or refuses it without a change. |
| `BridgePallet.Pallet.TryResolveProposal` | pallets/bridge/src/lib.rs:545-567 | Writes the decided entry, then carries the call out or cancels it. |
| `BridgePallet.Pallet.FinalizeExecution` | pallets/bridge/src/lib.rs:594-605 | Runs the call between its two events, or fails with its error. |
| `BridgePallet.Pallet.Vote` | pallets/bridge/src/lib.rs:374-411 | A vote and its resolution as one all-or-nothing call, undone when the proposal's call fails. |
| `BridgePallet.Pallet.EvalVoteState` | pallets/bridge/src/lib.rs:428-437 | Resolution by anyone who signs, undone when the proposal's call fails. |
| `BridgePallet.Pallet.BumpNonce` | pallets/bridge/src/lib.rs:460-467 | Takes the next nonce, zero standing for an unlisted chain, or fails at the end of a u64 without a change. |
| `BridgePallet.Pallet.SignalTransferFungible` | pallets/bridge/src/lib.rs:615-639 | Announces a transfer under the next nonce of a listed chain. |
| `BridgePallet.Pallet.BeginBlock` | pallets/bridge/src/lib.rs:299-303 | Forgets the transfers of the block before and nothing else. |
| `BridgePallet.Pallet.PrepareTokenBridgeIn` | pallets/assets-handler/src/lib.rs:153-180 | Mints the amount of a known resource's asset to the receiver. |
| `BridgePallet.Pallet.PrepareTokenBridgeOut` | pallets/assets-handler/src/lib.rs:182-231 | Burns the amount, mints the fee to the treasury and returns the rest. |
| `BridgePallet.Pallet.SetResource` | pallets/assets-handler/src/lib.rs:117-126 | Maps a resource, for the committee only. |
| `BridgePallet.Pallet.RemoveResource` | pallets/assets-handler/src/lib.rs:134-139 | Unmaps a resource, for the committee only. |
| `BridgePallet.Pallet.TransferAssets` | pallets/bridge-transfer/src/lib.rs:80-98 | Burn, fee and announcement as one all-or-nothing call of a member. |
| `BridgePallet.Pallet.Transfer` | pallets/bridge-transfer/src/lib.rs:104-113 | Minting on arrival, for the bridge's own account only. |
| `ResourceIds.DeriveResourceId` | pallets/bridge/src/lib.rs:60-72 | The fill loop makes the 32 bytes the padded name and the chain, or zeros for an empty name. |
| `ResourceIds.DerivedValue` | pallets/bridge/src/lib.rs:60-72 | Read big-endian, a named id is 256 times its first 31 bytes at most, plus the chain. |
| `ResourceIds.CollideIff` | pallets/bridge/src/lib.rs:60-72 | Two named ids are equal exactly when their chains and their kept names, as numbers, are. |
| `ResourceIds.InjectiveAtLength` | pallets/bridge/src/lib.rs:60-72 | Among names of one length of at most 31 bytes, ids are injective in chain and name. |
| `ResourceIds.UnnamedCollidesIff` | pallets/bridge/src/lib.rs:60-72 | The id of an empty name is taken by exactly the names of zeros on chain zero. |

## Left out

- `update_metadata` of the staking pallet, weights, benchmarks and storage versions: no property of interest.
- The `OnTokenMinted` callback: only its switch is modelled, what it does with the minted tokens is not.
- Existential deposits, dust, holds and the rest of the balances and assets pallets: the ledger is exact.
- Hashing of storage keys, signatures and dispatch weights: keys are compared by value.
- Proposal calls other than a bridged transfer and a remark: their effects are unbounded.
- Non-fungible and generic bridge transfers: the pallet declares them but has no code that sends them.
- The asset handler's own events: holdings and issuance carry the same information.
- The node, the runtime's wiring and the precompiles: configuration and argument conversion.
- The internals of the fixed-point ratio: its exact value between zero and one is a parameter.
- Proposal events carry only chain and nonce in the program; here they name the whole key, so that two calls under one nonce can be told apart.
- StakingEffects.AccurateShare: takes the accuracy of the ratio as given, because its rounding is internal to the runtime library.
- StakingDrift.ReachableDrift: says nothing of a pool after its first withdrawal, because the code then gives no bound; `Drift.LeaveGap` is the exact change and `StakingShares.WithdrawOneSidedIff` its consequence. Nor of a pool with a cap beyond 2^128 / (2^32 - 1) once a hook has failed, whose part may then hold an amount no user has.
- StakingTelescope.ReachableTelescope: is about pools only, because the log gives a deposit's target and not its block, which the native position counts from.
- HalvingMint.HookSupplies: adds up to the width of a balance, where the currency would drop a deposit that overflows its receiver, because account balances are not part of the mint's model.
- BridgeTheorems.ReachableSupply: leaves out supply changes by halving mint and staking rewards, which are separate pallets with ledgers of their own here.
