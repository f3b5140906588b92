# Uniswap-V3 staker dashboard: staking data layer, modelled in Dafny

This project models the logic core of a staking dashboard for Uniswap-V3 liquidity-position NFTs. The dashboard loads reward incentives from a subgraph and tracks which one is current. It reconciles the wallet's positions against contract reads into a published list, and patches that list on `TokenStaked` / `TokenUnstaked` events. It also drives six transactions (approve, transfer, stake, unstake, claim, withdraw) with a busy label that is always cleared.

Modules, one per source file or concern:

- `Values` (values.dfy): `Option` for `T | null`. `Outcome` (`Ok(value)` / `Fail`) for how an awaited call settled. `Truthy` for JavaScript truthiness of `string | null`.
- `Config` (config.dfy): the network tables of `src/config.tsx`. A missing key looks up as `None`, the way JavaScript's `undefined` does.
- `StakingTypes` (staking_types.dfy): `IncentiveKey`, `Incentive`, `LiquidityPosition` and `Session` (the wallet address, network and contract handles).
- `Incentives` (incentives.dfy): mapping subgraph rows to incentives, `incentives.find`, the `currentIncentive` memo, and the load guard.
- `Reconcile` (reconcile.dfy): what one `refreshPositions` pass computes. `Kept` is the loop's `detailedPositions`. `Aborts` says a zero-liquidity read hit the early `return null`. `SortDesc` is `_orderBy(..., 'desc')`. The lemmas state the filter, isolation and order properties.
- `DataContext` (data_provider.dfy): the class `DataProvider`, holding the `positions`, `incentives` and `currentIncentiveId` state, plus the event listener's `isMounted` flag and captured incentive id. `RefreshPositions` is the record loop, proved against `Kept` and `SortDesc`. `Valid()` keeps the published list sorted by `tokenId` descending, with every position on a configured token pair.
- `PositionActions` (position_actions.dfy): the class `PositionHook` for `usePosition`. Every value `setIsWorking` receives, every `tx(...)` request, every `rewards(...)` read and every `next()` call is recorded in a field, so what happens in the middle of an action is stated too.
- `PositionsPage` (positions_page.dfy): the `ClaimAvailableReward` panel as the class `ClaimPanel`, and the row rules of `LiquidityPositionTableRow`.
- `IncrementingNumber` (incrementing_number.dfy): the counter hook as the class `Counter`. One interval firing is `Tick`. `Animate` repeats ticks until the interval stays cleared, re-running the effect after each change, as React does.

External effects are parameters:

- subgraph answers (`Option` / `Outcome` of records);
- contract reads (function-typed parameters returning an `Outcome`);
- whether the subgraph client could be built (`subgraphAvailable`);
- how a `tx(...)` settled (`TxOutcome`).

Timers and event subscriptions are explicit method calls: `RefreshPositions` for one poll, `Tick` for one interval firing, `OnTokenStaked` for one event.

Three behaviours of the code that the model follows on purpose:

- A record whose on-chain liquidity is zero does not just skip that position. `return null` inside the loop (src/contexts/data.tsx:178) leaves the whole pass, so nothing is published and the previous list stays (`Reconcile.Aborts`, `DataContext.DataProvider.RefreshPositions`).
- No per-position advisory error string is set when a reward read fails. The code only logs it and keeps reward 0, and `LiquidityPosition` has no error field.
- The panel's `claim` (src/pages/Positions.tsx:378) does not check the wallet address. The model passes the possibly-null address through to the read and the claim (`PositionsPage.RewardRead`, `PositionsPage.ClaimRequest`).

## Model

| member | source | states |
|---|---|---|
| `Config.AvailableNetworksExactly` | src/config.tsx:11-13 | a network is supported iff it is "mainnet" or "goerli" |
| `Config.NetworkTablesComplete` | src/config.tsx:15-40 | every supported network has non-empty, distinct TOKEN_0 and TOKEN_1 addresses and subgraph, manager and staking entries, so the empty-address guards never fire for it |
| `Incentives.ToIncentives` | src/contexts/data.tsx:93-127 | the mapped incentive list has one entry per subgraph row, in the same order, with the row's id, reward and ended flag, and the key (reward token, pool, start time, end time, refundee) that stake and unstake submit |
| `Incentives.FindIncentive` | src/contexts/data.tsx:53 | None iff no incentive has the id; otherwise the first incentive carrying that id |
| `Incentives.CurrentIncentiveOf` | src/contexts/data.tsx:49-56 | null when the id is null or empty; for a non-empty id, null iff no incentive has it, otherwise the first incentive carrying that id |
| `Incentives.IncentiveLoadEnabled` | src/contexts/data.tsx:65-70 | the guard of the incentive-loading effect; `Incentives.IncentiveLoadEnabledExactly` states when it passes |
| `Incentives.IncentiveLoadEnabledExactly` | src/contexts/data.tsx:65-70 | the incentive-loading guard passes exactly for the networks "mainnet" and "goerli" |
| `Incentives.LoadedCurrentIsFirst` | src/contexts/data.tsx:93-128 | after a non-empty load the current incentive resolves to the first mapped row, or to null when that row's id is empty |
| `Reconcile.PairMatches` | src/contexts/data.tsx:180-185 | the pair test of the loop; its properties are stated by `Reconcile.PairMatchesExactly` and `Reconcile.AddressesAreCaseSensitive` |
| `Reconcile.AddressesAreCaseSensitive` | src/contexts/data.tsx:180-185 | the pair test compares exact strings: goerli's pair with TOKEN_1 lower-cased is rejected in either order |
| `Reconcile.Kept` | src/contexts/data.tsx:169-221 | `detailedPositions` after the loop over the subgraph records; its properties are stated by `Reconcile.KeptMembers`, `Reconcile.KeptIncludes`, `Reconcile.KeptPositionsWellFormed` and `Reconcile.FailedReadDropsOnlyThat` |
| `Reconcile.SortDesc` | src/contexts/data.tsx:223 | `_orderBy(..., ['tokenId'], ['desc'])`; sorted descending and a permutation by `Reconcile.SortDescCorrect` |
| `Reconcile.Aborts` | src/contexts/data.tsx:172-178 | some record's resolved read reports zero liquidity, so the pass hits `return null`; `Reconcile.PublishedPositions` states that this is exactly when nothing is published |
| `Reconcile.Reconciled` | src/contexts/data.tsx:171-223 | the list one pass publishes, or none when it returns early; characterised by `Reconcile.PublishedPositions` |
| `Reconcile.PairMatchesExactly` | src/contexts/data.tsx:180-185 | on a supported network the pair test is symmetric, never accepts one token twice, and accepts exactly the configured two tokens in either order |
| `Reconcile.InsertDescSorted` | src/contexts/data.tsx:223 | inserting into a list sorted by tokenId descending keeps it sorted |
| `Reconcile.InsertDescPermutes` | src/contexts/data.tsx:223 | insertion adds exactly the inserted position |
| `Reconcile.SortDescCorrect` | src/contexts/data.tsx:223 | the ordering step yields a list sorted by tokenId descending that is a permutation of its input |
| `Reconcile.SortDescExample` | src/contexts/data.tsx:223 | positions with token ids [3, 10, 1] are ordered [10, 3, 1] |
| `Reconcile.KeptAppend` | src/contexts/data.tsx:169-221 | the loop's result over two record lists joined is the join of its results over each |
| `Reconcile.KeptMembers` | src/contexts/data.tsx:171-214 | a position is collected iff some record's position read resolved, its pair matches, and the position is that record with its chain tokens and reward |
| `Reconcile.KeptPositionsWellFormed` | src/contexts/data.tsx:180-213 | every collected position has the configured pair, a zero reward unless staked, and the tokenId, staked flag and owner of some subgraph record |
| `Reconcile.KeptIncludes` | src/contexts/data.tsx:186-213 | a record with a resolved read and a matching pair is collected, with reward 0 when unstaked or its reward read failed, and the read amount otherwise |
| `Reconcile.FailedReadDropsOnlyThat` | src/contexts/data.tsx:172-220 | a failed positions() read removes that record and leaves the rest of the result as if it had never been there |
| `Reconcile.KeptOfFailedRead` | src/contexts/data.tsx:215-220 | a record whose positions() read fails contributes nothing |
| `Reconcile.PublishedPositions` | src/contexts/data.tsx:171-223 | a pass publishes nothing iff some read reports zero liquidity; otherwise it publishes the collected positions sorted by tokenId descending, each with the configured pair and zero reward unless staked |
| `DataContext.SetStaked` | src/contexts/data.tsx:370-391 | the patch keeps length, order, tokenIds, rewards, owners and tokens; it sets `staked` on the matching positions and leaves every other position as it was |
| `DataContext.SetStakedIdempotent` | src/contexts/data.tsx:367-393 | applying the same event patch twice gives the same list as applying it once |
| `DataContext.SetStakedKeepsShape` | src/contexts/data.tsx:370-391 | a patch keeps the list sorted and every position on a configured pair |
| `DataContext.DataProvider.RefreshEnabled` | src/contexts/data.tsx:136-149 | the guard of `refreshPositions`; `DataContext.RefreshEnabledExactly` states when it holds |
| `DataContext.RefreshEnabledExactly` | src/contexts/data.tsx:136-149 | the refresh guard holds iff both contracts, a non-empty address, network mainnet or goerli and a current incentive are present |
| `DataContext.DataProvider.constructor` | src/contexts/data.tsx:43-47 | the context starts with no positions, no incentives, no current id and no listener |
| `DataContext.DataProvider.CurrentIncentive` | src/contexts/data.tsx:49-56 | null when the current id is null or empty; for a non-empty id, null iff no loaded incentive has it, otherwise the first loaded incentive carrying that id |
| `DataContext.DataProvider.SetCurrentIncentiveId` | src/contexts/data.tsx:45-47 | the user override sets the id and leaves the incentive list and positions alone, with no reload |
| `DataContext.DataProvider.LoadIncentives` | src/contexts/data.tsx:64-132 | a failed guard, a null answer or an empty answer changes nothing; otherwise the list is replaced by the mapped rows and the first row's id becomes current |
| `DataContext.DataProvider.RefreshPositions` | src/contexts/data.tsx:135-233 | a failed guard, a missing subgraph client, a failed query or a zero-liquidity read keeps the previous list; otherwise the list becomes the collected positions sorted by tokenId descending, read with the current incentive's key; the list stays sorted and on configured pairs |
| `DataContext.DataProvider.TeardownEvents` | src/contexts/data.tsx:412-414 | cleanup clears the listener's isMounted flag |
| `DataContext.DataProvider.SubscribeEvents` | src/contexts/data.tsx:357-410 | the listener is installed, capturing the current incentive id, only with a staking contract and a non-empty current id; otherwise no listener is mounted, since the previous effect's cleanup has run |
| `DataContext.DataProvider.OnTokenStaked` | src/contexts/data.tsx:367-379 | an event for another incentive, or one after teardown, changes nothing; otherwise exactly the positions with the tokenId become staked |
| `DataContext.DataProvider.OnTokenUnstaked` | src/contexts/data.tsx:381-393 | an event for another incentive, or one after teardown, changes nothing; otherwise exactly the positions with the tokenId become unstaked |
| `PositionActions.PositionHook.constructor` | src/hooks/usePosition.tsx:9-19 | the hook starts idle, bound to its tokenId, with nothing issued |
| `PositionActions.PositionHook.Run` | src/hooks/usePosition.tsx:32-45 | busy takes the label and then null, exactly one tx request is made, and next is called once iff the tx confirmed |
| `PositionActions.PositionHook.Approve` | src/hooks/usePosition.tsx:21-55 | without manager, staking contract and incentive nothing happens; otherwise "Approving" is busy, approve(staking contract, tokenId) is submitted, next runs only on confirmation, and busy ends null |
| `PositionActions.PositionHook.Transfer` | src/hooks/usePosition.tsx:57-95 | without address, manager, staking contract and incentive nothing happens; otherwise safeTransferFrom(address, staking contract, tokenId) is submitted under "Transfering", next runs only on confirmation, and busy ends null |
| `PositionActions.PositionHook.Stake` | src/hooks/usePosition.tsx:97-114 | without staking contract and incentive nothing happens; otherwise stakeToken(incentive key, tokenId) is submitted under "Staking", next runs only on confirmation, and busy ends null |
| `PositionActions.PositionHook.Unstake` | src/hooks/usePosition.tsx:116-133 | without staking contract and incentive nothing happens; otherwise unstakeToken(incentive key, tokenId) is submitted under "Unstaking", next runs only on confirmation, and busy ends null |
| `PositionActions.PositionHook.Claim` | src/hooks/usePosition.tsx:135-160 | without staking contract, incentive and address nothing happens; otherwise rewards(rewardToken, address) is read and exactly that amount is claimed; a failed read submits nothing and skips next; busy ends null |
| `PositionActions.PositionHook.Withdraw` | src/hooks/usePosition.tsx:162-179 | without staking contract and address nothing happens; otherwise withdrawToken(tokenId, address, []) is submitted under "Withdrawing", next runs only on confirmation, and busy ends null |
| `PositionsPage.RowActionOf` | src/pages/Positions.tsx:253-261 | the row offers Unstake iff the position is staked, else Stake |
| `PositionsPage.WithdrawDisabled` | src/pages/Positions.tsx:262-270 | Withdraw is disabled iff the wallet address equals the position's owner |
| `PositionsPage.RewardCellOf` | src/pages/Positions.tsx:280-296 | the reward cell is '-' iff the reward is zero, otherwise it shows the reward |
| `PositionsPage.ClaimButtonLabel` | src/pages/Positions.tsx:426 | the caption is "Claiming..." while a claim runs and "Claim" otherwise |
| `PositionsPage.ClaimButtonDisabled` | src/pages/Positions.tsx:419-427 | Claim is enabled iff no claim runs and the displayed reward is positive |
| `PositionsPage.UnstakedRowsShowDash` | src/pages/Positions.tsx:280-306 | in a published list every unstaked position shows '-' and offers Stake |
| `PositionsPage.StakedPatchShowsUnstake` | src/pages/Positions.tsx:298-306 | after a TokenStaked patch the patched rows offer Unstake, other rows keep their action, and no reward cell changes |
| `PositionsPage.ClaimPanel.constructor` | src/pages/Positions.tsx:334-335 | the panel starts with reward 0, not claiming, not mounted |
| `PositionsPage.ClaimPanel.ClaimDisabled` | src/pages/Positions.tsx:424 | the Claim button's `disabled` is `PositionsPage.ClaimButtonDisabled` of the panel's state: disabled iff a claim runs or the displayed reward is zero |
| `PositionsPage.ClaimPanel.IssueLoad` | src/pages/Positions.tsx:347-351 | `load` issues one `rewards(rewardToken, address)` read with the captured arguments, in flight for the effect run now installed |
| `PositionsPage.ClaimPanel.LoadSettled` | src/pages/Positions.tsx:347-353 | when a read settles, the displayed reward takes the amount only if the read resolved and the effect run that issued it is still mounted; a read arriving after its cleanup changes nothing |
| `PositionsPage.ClaimPanel.Setup` | src/pages/Positions.tsx:337-375 | with staking contract, incentive and address the panel mounts, captures (rewardToken, address) as a new effect run and issues one load; otherwise it stays unmounted (the previous cleanup has run) and nothing else changes |
| `PositionsPage.ClaimPanel.Teardown` | src/pages/Positions.tsx:372-374 | cleanup clears isMounted, so later loads no longer change the reward |
| `PositionsPage.ClaimPanel.Claim` | src/pages/Positions.tsx:377-398 | without staking contract and incentive nothing happens, and the address is not checked; otherwise isClaiming is true then false, and exactly the freshly read amount is claimed, not the displayed reward |
| `IncrementingNumber.Step` | src/hooks/useIncrementingNumber.tsx:19-31 | a tick never passes the target: it stops exactly on the target when within one unit, and otherwise moves one unit closer; the target is a fixed point |
| `IncrementingNumber.Delay` | src/hooks/useIncrementingNumber.tsx:15-16 | the period is 10 when the distance exceeds 100, else 100 |
| `IncrementingNumber.Firings` | src/hooks/useIncrementingNumber.tsx:18-38 | from distance d the interval fires exactly d + 1 times before it stays cleared |
| `IncrementingNumber.Counter.constructor` | src/hooks/useIncrementingNumber.tsx:4-6 | the number starts at the target, not animating, first run pending |
| `IncrementingNumber.Counter.Effect` | src/hooks/useIncrementingNumber.tsx:8-33 | the first run only clears the first-run flag; later runs start animating with the delay for the current distance |
| `IncrementingNumber.Counter.Cleanup` | src/hooks/useIncrementingNumber.tsx:34-37 | cleanup clears the interval and sets isAnimating false |
| `IncrementingNumber.Counter.SetTarget` | src/hooks/useIncrementingNumber.tsx:8-38 | after the mount effect, an unchanged target re-runs nothing and leaves the animation state and delay as they were; a changed target cleans up and re-runs the effect, which starts animating with the delay for the new distance |
| `IncrementingNumber.Counter.Tick` | src/hooks/useIncrementingNumber.tsx:18-32 | one firing sets the number to the step's value and stops the animation exactly when the step stops |
| `IncrementingNumber.Counter.Animate` | src/hooks/useIncrementingNumber.tsx:18-38 | ticking until the interval stays cleared ends exactly on the target, not animating, after Firings ticks, with the first-run flag still cleared so a later target animates again |

## Left out

- Timers: the 10-second poll and the counter's `setInterval` are not modelled. Each poll or firing is an explicit call.
- Subscription plumbing (`contract.on/off`, the `unsubs` arrays) is not modelled; only the handler bodies and the `isMounted` flags are. An effect re-run is a call to the cleanup method followed by the setup method.
- External calls are not modelled: subgraph requests, ethers reads and writes, the `tx` notification wrapper, logging. They appear only as the outcomes passed in. `utils/request`, `contexts/notifications`, `contexts/wallet` and `contexts/contracts` are not part of this model.
- Translation: `t('Approving')` and the other labels are modelled as the translation key itself.
- Amounts are `nat`, with no `BigNumber` or `formatUnits` formatting. Token ids are `nat`, with no `Number(...)` conversion. Date formatting (`formatDate`, `formatTimestamp`) and `useTokenInfo` are not modelled.
- Async interleaving: each method runs to completion, except the panel's `load`, which is split into issuing its read and the read settling, so a read can settle after teardown or after a later effect run. A refresh or event that settles after teardown is modelled by calling it after the teardown method. Concurrent actions on one `PositionHook` are not modelled.
- The event handlers set `position.staked` on the shared position objects. The model replaces the elements of a new sequence instead, so that aliasing is not captured.
- `Reconcile.SortDescCorrect`: it does not state that `_orderBy` is stable among equal token ids.
- `IncrementingNumber.Step`: a non-integer target (JavaScript numbers are floats) is not modelled; the counter is an `int`.
- The commented-out alternative loader in src/contexts/data.tsx is dead code and is not modelled.
- The `currentIncentiveRewardTokenSymbol`/`Decimals` values come from `useTokenInfo`, which is not part of this model.
