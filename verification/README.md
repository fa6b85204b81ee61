# AIverse contracts, modelled and proved in Dafny

Eight components of the AIverse contract suite, modelled as state machines with proofs over
every input and every run. Each contract is a store that an entry point either rewrites or leaves
untouched: a panic, an error code or an arithmetic trap aborts the call with no effect.

| component | files |
|---|---|
| constant-product AMM (pools, flash swaps, rewards, router) | AmmMath, AmmPools, AmmRouter, AmmConservation, AmmTraders, AmmRewards, AmmEffects, AmmProviders, AmmRoutes, AmmContract |
| floor-rounding AMM | AmmProtocol |
| M-of-N time-locked escrow with a sliding-window rate limit | EscrowWindow, EscrowQueue, EscrowProofs, EscrowHistory, EscrowEffects, EscrowContract |
| fee collection, distribution and claims | FeeSplit, FeeDistribution, FeeEffects, FeeContract |
| governance | Governance, GovernanceStory, GovernanceEffects, GovernanceContract |
| collateralised lending | LendingMath, Lending, LendingProofs, LendingHealth, LendingEffects, LendingCustody, LendingContract |
| dependency ordering of atomic transactions | AtomicOrder |
| execution hub: nonces, history, fixed-window limiter | ExecutionHub |
| shared vocabulary, map and sequence sums, integer division, token balances | Prelude, TokenLedger |

Every contract has the same layers:

- a `State` value and one transition function per entry point, returning `None` (or `Err`, for the
  escrow's error codes) for an abort;
- `Step` and `Run` over the entry points, an invariant, and lemmas for every step and every run;
- exact effects: per entry point, when it succeeds, its amounts by the inequalities that fix them, and
  every account it moves, none of it told through the code (`Settles` lists the movements, so an account
  not named did not change);
- a class whose fields are the storage and whose methods update them in place. `View()` reads the
  fields as a `State`; each method is proved to land on exactly the transition's state, or on the old
  one when it aborts. What is proved of the transitions therefore holds of the methods.

`dafny verify dfyconfig.toml` checks the project.

## Findings

Places where the natural statement is false of the code; each has the exact condition instead.

- The hub limiter admits up to 2*max-1 actions within one window length, not max as its stated intent
  says (`ExecutionHub.CapHoldsIff`, attained by `WorstCounts`).
- `get_amount_in` can quote up to two units too little when a fee is charged
  (`AmmMath.AmountInSufficesIff`, `AmountInCanMiss`). Flash swaps still never lower the product.
- The floor-rounding AMM never bounds its fee; its books and its value per share hold over all runs if
  and only if the fee is at most 10000 bps, and above that a swap can take a whole reserve
  (`AmmProtocol.RunKeepsInvariant`, `ShareValueIff`, `OverpaidSwap`).
- One liquidity provider can claim rewards again and again and take more than its share of the pot
  (`AmmRewards.ClaimsExceedShareIff`, `ClaimsTake`).
- Liquidation seizure ignores the price scale that valuation divides by
  (`LendingMath.SeizureCoversIff`).
- Enlarging the escrow's rate window after logs were pruned under-counts
  (`EscrowHistory.WidenedWindowExactIff`) and can let too many executions through
  (`WidenedWindowOverruns`). With a window that never grows, the per-recipient cap never decides anything
  (`EscrowProofs.RecipientCapNeverDecides`).
- A later change of quorum or threshold can turn an executed proposal's reported stage into Defeated
  (`Governance.ParameterChangeIff`, reached by the run of `GovernanceStory.ExecutedCanReadDefeated`).

## Model

| member | source | states |
|---|---|---|
| `AmmMath.Isqrt` | contracts/amm/src/math.rs:2-16 | The Newton loop terminates for every n; a negative n panics, otherwise r*r <= n < (r+1)*(r+1), and r is the root found by counting up |
| `AmmMath.NewtonNext` | contracts/amm/src/math.rs:12-13 | One Newton step never falls below the root, and once it stops falling the root is reached |
| `AmmMath.RootUnique` | contracts/amm/src/math.rs:2-16 | Only one integer has the square-root property, so the loop and the counting definition agree |
| `AmmMath.CeilDiv` | contracts/amm/src/math.rs:19-27 | Panics exactly on a non-positive divisor or negative dividend; otherwise the smallest q with q*b >= a |
| `AmmMath.OutputBounds` | contracts/amm/src/math.rs:38-47 | A quote is at least 0 and below the output reserve, for every fee up to 100% |
| `AmmMath.OutputReached` | contracts/amm/src/math.rs:44-46 | An output is reached exactly when the after-fee input pays for it on the old price curve |
| `AmmMath.SkimLeavesAfterFee` | contracts/amm/src/lib.rs:821-864 | The protocol fee is at most the swap fee, and what stays in the reserve covers the amount that traded, floors included |
| `AmmMath.SwapKeepsProduct` | contracts/amm/src/lib.rs:802-845 | No swap lowers the reserve product, with both fee floors, the output floor and the skim included |
| `AmmMath.FlashKeepsProduct` | contracts/amm/src/lib.rs:183-215 | Nor does a flash swap repaid at the rounded-up quote and then skimmed |
| `AmmMath.SplitTwo` | contracts/amm/src/math.rs:38-47 | Trading a then b yields in total at most trading a+b at once, whatever is skimmed from the first |
| `AmmMath.SplittingNeverHelps` | contracts/amm/src/math.rs:38-47 | The same for any number of pieces |
| `AmmMath.LeastInputExact` | contracts/amm/src/math.rs:38-47 | A quote reaches o exactly when the input is at least LeastInput(o): an independent definition of the inverse quote |
| `AmmMath.BestOutputIff` | contracts/amm/src/math.rs:38-47 | The quote is the greatest output whose least input is within the amount, and the only number that is |
| `AmmMath.AmountInNearLeast` | contracts/amm/src/math.rs:50-57 | get_amount_in never exceeds the least sufficient input and is at most two below it, for every admitted fee |
| `AmmMath.AmountInIsLowerBound` | contracts/amm/src/math.rs:50-57 | Every input whose quote reaches the output is at least get_amount_in of it |
| `AmmMath.AmountInSufficesIff` | contracts/amm/src/math.rs:50-57 | The quoted input buys the quoted output if and only if the overshoots of rounding up the price and of rounding up the fee, both computed from the request and the pool, together stay below one unit of input |
| `AmmMath.NoFeeQuoteExact` | contracts/amm/src/math.rs:50-57 | With no fee get_amount_in is exactly the least input: it suffices and one less does not |
| `AmmMath.AmountInCanMiss` | contracts/amm/src/math.rs:43-57 | A concrete pool with a fee where get_amount_out(get_amount_in(1)) is 0 |
| `AmmMath.MintOverByLessThanOne` | contracts/amm/src/lib.rs:674-676 | Rounding both shares up over-mints by less than one token: new product * S^2 >= old product * (S+L-1)^2 |
| `AmmMath.WithdrawnPart` | contracts/amm/src/lib.rs:748-749 | A burn takes between nothing and all of a reserve, and all of it only with the whole supply |
| `AmmPools.RunKeepsInvariant` | contracts/amm/src/lib.rs:54-860 | In every state reachable by any interleaving of entry points and outside token movements: the account covers all reserves and reward pots of each token, shares sum to supply, and supply is zero exactly when both reserves are |
| `AmmPools.StepKeepsInvariant` | contracts/amm/src/lib.rs:54-860 | Each single step keeps that invariant, aborted steps included |
| `AmmPools.RunKeepsProduct` | contracts/amm/src/lib.rs:156-234 | Over every run with no withdrawal from the pool, swaps, flash swaps and multi-hop swaps mixed, its reserve product never decreases |
| `AmmPools.StepKeepsProduct` | contracts/amm/src/lib.rs:776-864 | Only a withdrawal from a pool can lower its reserve product |
| `AmmPools.NoTradingCycleProfits` | contracts/amm/src/lib.rs:776-864 | Over any run without a withdrawal from a live pool, one reserve ends below its start only if the other ends above its own |
| `AmmTraders.TraderNeverProfits` | contracts/amm/src/lib.rs:156-860 | However one trader mixes swaps, flash swaps and routes in a live pool, fee collector or not, ending with more of one of its tokens means ending with less of the other |
| `AmmTraders.RunNoGain` | contracts/amm/src/lib.rs:156-860 | Over such a run trader and pool together never hold more of any token than before |
| `AmmPools.SwapTrades` | contracts/amm/src/lib.rs:776-860 | A successful swap, either direction, with or without skim, pays out less than the reserve, keeps the product and moves the account at least as the reserves |
| `AmmPools.FlashTrades` | contracts/amm/src/lib.rs:156-234 | The same for a flash swap, lent before it is repaid |
| `AmmPools.MultiHopKeeps` | contracts/amm/src/lib.rs:410-492 | A multi-hop swap over any caller-supplied route keeps the invariant and lowers no pool product |
| `AmmPools.SwapSplitNeverHelps` | contracts/amm/src/lib.rs:776-860 | Two swaps against the live contract yield in total at most the single quote for both inputs |
| `AmmPools.DepositOverMint` | contracts/amm/src/lib.rs:667-707 | A successful later deposit over-mints by less than one share |
| `AmmPools.WithdrawalAlwaysPaid` | contracts/amm/src/lib.rs:722-774 | A withdrawal within the holder's shares and the minimum threshold fails only if one side rounds to zero, never for want of funds |
| `AmmPools.AddLiquidityKeeps` | contracts/amm/src/lib.rs:653-720 | A deposit keeps solvency, share sums and live reserves |
| `AmmPools.RemoveLiquidityKeeps` | contracts/amm/src/lib.rs:722-774 | A withdrawal keeps them, emptying both reserves exactly when the last share is burnt |
| `AmmPools.ClaimRewardsKeeps` | contracts/amm/src/lib.rs:269-306 | A reward claim keeps the invariant, leaves pools alone and never takes more than the pot; the amounts are the subject of AmmRewards |
| `AmmRewards.ClaimsTake` | contracts/amm/src/lib.rs:269-306 | k claims in a row by one holder each move the floor of the holder share of what is then left from each pot to the holder, and never fail for want of funds |
| `AmmRewards.ClaimsExceedShareIff` | contracts/amm/src/lib.rs:279-299 | Together they take more than held/supply of the pot if and only if there is a second claim and what the first leaves still yields a unit |
| `AmmRewards.ClaimsLeave` | contracts/amm/src/lib.rs:279-299 | They leave at least (1 - held/supply)^k of the pot |
| `AmmPools.DepositRewardsKeeps` | contracts/amm/src/lib.rs:237-266 | A reward deposit keeps them and leaves pools alone |
| `AmmPools.CreatePoolKeeps` | contracts/amm/src/lib.rs:54-91 | Creating a pool keeps them |
| `AmmPools.InitialValid` | contracts/amm/src/lib.rs:31-50 | The state after initialization satisfies the invariant |
| `AmmConservation.RunConserves` | contracts/amm/src/lib.rs:54-860 | Over every run the total of each token over all accounts is what there was plus what was issued elsewhere: no entry point creates or destroys tokens |
| `AmmConservation.StepConserves` | contracts/amm/src/lib.rs:54-860 | Each step, lending before repayment and skimming included, conserves every token |
| `AmmEffects.SwapExact` | contracts/amm/src/lib.rs:776-860 | A swap, skimmed or not, succeeds exactly on a served request; it pays the greatest output whose least input is within the amount, skims exactly the protocol share of the fee, moves both reserves by exactly the rest, and changes no other account, pool or record |
| `AmmEffects.SwapPays` | contracts/amm/src/lib.rs:811-844 | The same balance by balance: user, collector, and everyone else |
| `AmmEffects.FlashExact` | contracts/amm/src/lib.rs:156-234 | A flash swap succeeds exactly on a served request: the borrower gets the output and pays the least whole input that covers it, the collector its share, the reserves take the rest, nothing else moves |
| `AmmEffects.RepaymentUnique` | contracts/amm/src/math.rs:50-57 | That least input is fixed by two inequalities over the reserves and the fee |
| `AmmProviders.DepositExact` | contracts/amm/src/lib.rs:653-720 | A deposit succeeds exactly when served; it mints the integer root of the product in an empty pool and the lesser of the two proportional parts, rounded up, in a live one; supply, shares, reserves and the two payments move by exactly that |
| `AmmProviders.EarnsExact` | contracts/amm/src/lib.rs:667-681 | The minted shares are fixed by inequalities over the deposit and the pool |
| `AmmProviders.RatioMeans` | contracts/amm/src/lib.rs:688-700 | The ratio check admits every deposit within 499 basis points of the pool price and none 501 away |
| `AmmProviders.WithdrawalExact` | contracts/amm/src/lib.rs:722-774 | A withdrawal succeeds exactly when served, burns exactly the shares asked for and pays exactly the floored part of each reserve to the holder and no one else |
| `AmmProviders.RewardsDeposited` | contracts/amm/src/lib.rs:237-266 | A reward deposit succeeds exactly for the administrator with the tokens and moves exactly the amount into that pot |
| `AmmProviders.ClaimExact` | contracts/amm/src/lib.rs:269-306 | A claim pays the floored part of each pot to the holder and no one else, and fails only if both are zero |
| `AmmRoutes.MultiHopSparesOthers` | contracts/amm/src/lib.rs:410-492 | A multi-hop swap delivers at least the minimum and moves no account but the user and the contract: hops pay no protocol fee |
| `AmmRoutes.FreshRoutePays` | contracts/amm/src/lib.rs:410-492 | A fresh route takes exactly its input from the user and gives exactly its quoted output, intermediate tokens cancelling out |
| `AmmRoutes.PoolCreated` | contracts/amm/src/lib.rs:54-91 | A pool is created exactly by the administrator, of two tokens, at a fee of at most 1000 bps, empty, under an unused id, touching no other pool |
| `AmmRoutes.FeeConfigured` | contracts/amm/src/lib.rs:532-552 | Collector and share are set exactly by the administrator, the share at most 5000 bps |
| `AmmRoutes.AdminExact` | contracts/amm/src/lib.rs:519-590 | Minimum shares and administrator are set exactly by the administrator |
| `AmmRouter.FindBestRoute` | contracts/amm/src/lib.rs:355-407 | The route returned is fresh and its output is the maximum over every direct pool and, with two or more hops allowed, every ordered pair of distinct pools joined by an intermediate token; it fails exactly when refused or nothing is on offer |
| `AmmRouter.BestDirect` | contracts/amm/src/lib.rs:378-387 | The first loop finds the best direct pool |
| `AmmRouter.BestThrough` | contracts/amm/src/lib.rs:389-404 | The nested loops find the best pair and never lose the best direct route |
| `AmmRouter.TryDirectExact` | contracts/amm/src/lib.rs:897-943 | A direct route is found exactly when the pool offers a positive output |
| `AmmRouter.TryTwoHopExact` | contracts/amm/src/lib.rs:945-1000 | Taking the first shared token loses nothing: any way through the two pools yields the same output |
| `AmmRouter.FreshRouteExecutes` | contracts/amm/src/lib.rs:410-492 | Executing a fresh route on the state it was quoted on yields exactly the quoted output whenever the caller can pay and limits pass |
| `AmmRouter.HopExecutes` | contracts/amm/src/lib.rs:776-860 | A hop quoted on the current state succeeds for exactly its quote and leaves the user able to pay the next |
| `AmmContract.Amm.constructor` | contracts/amm/src/lib.rs:31-50 | Storage starts as the initial state and satisfies the invariant |
| `AmmContract.Amm.CreatePool` | contracts/amm/src/lib.rs:54-91 | Takes exactly the pool-creation transition or aborts unchanged |
| `AmmContract.Amm.AddLiquidity` | contracts/amm/src/lib.rs:653-720 | Takes exactly the deposit transition, with the Newton root for the first deposit, or aborts unchanged |
| `AmmContract.Amm.RemoveLiquidity` | contracts/amm/src/lib.rs:722-774 | Takes exactly the withdrawal transition or aborts unchanged |
| `AmmContract.Amm.SwapInternal` | contracts/amm/src/lib.rs:776-860 | Takes exactly the swap transition, by direction, or aborts unchanged |
| `AmmContract.Amm.FlashSwap` | contracts/amm/src/lib.rs:156-234 | Takes exactly the flash-swap transition or aborts unchanged |
| `AmmContract.Amm.DepositRewards` | contracts/amm/src/lib.rs:237-266 | Takes exactly the reward-deposit transition or aborts unchanged |
| `AmmContract.Amm.ClaimRewards` | contracts/amm/src/lib.rs:269-306 | Takes exactly the reward-claim transition or aborts unchanged |
| `AmmContract.Amm.MultiHopSwap` | contracts/amm/src/lib.rs:410-492 | The hop loop is the fold of swaps; a failure at any hop undoes the earlier ones |
| `AmmContract.Amm.SetFeeConfig` | contracts/amm/src/lib.rs:532-552 | Sets collector and share within the 50% cap or aborts unchanged |
| `AmmContract.Amm.SwapByBestRoute` | contracts/amm/src/lib.rs:355-492 | Quoting and then executing pays the best output on offer, and fails only if nothing is on offer |
| `AmmProtocol.RunKeepsShareValue` | contracts/amm-protocol/src/lib.rs:36-136 | Along every run that keeps shares outstanding, with a fee of at most 10000 bps, reserve product over squared supply never decreases |
| `AmmProtocol.RunKeepsInvariant` | contracts/amm-protocol/src/lib.rs:36-136 | From any valid state, every run keeps balances summing to supply, nothing negative and live reserves if and only if the configured fee is at most 10000 bps |
| `AmmProtocol.ShareValueIff` | contracts/amm-protocol/src/lib.rs:36-136 | and no live run lowers reserve product over squared supply if and only if it is |
| `AmmProtocol.StepKeeps` | contracts/amm-protocol/src/lib.rs:36-136 | Deposits and withdrawals keep the invariant and the value per share whatever the fee, swaps with a fee of at most 10000 bps |
| `AmmProtocol.DepositKeeps` | contracts/amm-protocol/src/lib.rs:36-63 | A deposit mints at most its proportional share |
| `AmmProtocol.WithdrawKeeps` | contracts/amm-protocol/src/lib.rs:65-90 | A withdrawal takes at most its proportional share |
| `AmmProtocol.SwapKeeps` | contracts/amm-protocol/src/lib.rs:92-136 | With a fee of at most 10000 bps a swap keeps the invariant and the product, also against empty reserves |
| `AmmProtocol.SwapSides` | contracts/amm-protocol/src/lib.rs:119-121 | The output is below the reserve and the product is kept, for a fee of at most 100% |
| `AmmProtocol.DepositWithdrawLoses` | contracts/amm-protocol/src/lib.rs:36-90 | Depositing into a live pool and withdrawing the minted shares returns at most what was paid in of each token |
| `AmmProtocol.FeeBoundNeeded` | contracts/amm-protocol/src/lib.rs:119-121 | Every swap keeps a live pool's product if and only if the configured fee, which the contract never checks, is at most 10000 bps |
| `AmmProtocol.OverpaidSwap` | contracts/amm-protocol/src/lib.rs:119-121 | Above 100% a large enough input takes at least the whole other reserve |
| `AmmProtocol.DepositExact` | contracts/amm-protocol/src/lib.rs:36-63 | A deposit of positive amounts always succeeds and mints the sum into an empty pool, or the most shares both amounts pay for |
| `AmmProtocol.WithdrawExact` | contracts/amm-protocol/src/lib.rs:65-90 | A withdrawal succeeds exactly within the shares held and pays the floored part of each reserve |
| `AmmProtocol.SwapExact` | contracts/amm-protocol/src/lib.rs:92-136 | A swap adds the whole input and takes the output; with a fee of at most 10000 bps it succeeds exactly when the greatest output on the curve meets the minimum, and pays that |
| `AmmProtocol.CurveOutputExact` | contracts/amm-protocol/src/lib.rs:119-121 | That output is fixed by two inequalities over reserves, input and fee |
| `AmmProtocol.Contract.DepositLiquidity` | contracts/amm-protocol/src/lib.rs:36-63 | Takes exactly the deposit transition, truncating divisions included |
| `AmmProtocol.Contract.WithdrawLiquidity` | contracts/amm-protocol/src/lib.rs:65-90 | Takes exactly the withdrawal transition |
| `AmmProtocol.Contract.SwapExactTokens` | contracts/amm-protocol/src/lib.rs:92-136 | Takes exactly the swap transition; any token but the first counts as the second |
| `AtomicOrder.ResolveExecutionOrder` | lib/src/atomic.rs:76-122 | Terminates on every list, emits exactly the steps whose dependency chain is grounded, each dependency before its dependents; after validation that is a permutation of all step ids |
| `AtomicOrder.Validate` | lib/src/atomic.rs:49-73 | Accepts exactly the well-formed transactions and reports the error of the first offending step |
| `AtomicOrder.Contains` | lib/src/atomic.rs:95-101 | The search loop decides membership |
| `AtomicOrder.LeftIsUngrounded` | lib/src/atomic.rs:85-119 | Steps left when a pass makes no progress have no grounded chain of any length |
| `AtomicOrder.WellFormedGrounded` | lib/src/atomic.rs:59-70 | Every step of a validated transaction is grounded |
| `AtomicOrder.AtRest` | lib/src/atomic.rs:85-119 | When the worklist rests, the emitted multiset is exactly the grounded steps |
| `ExecutionHub.LimiterBound` | contracts/execution-hub/src/lib.rs:710-733 | For every cap, window and request sequence in time order, no closed interval of one window length holds more than 2*max-1 accepted actions (max if the window is 0) |
| `ExecutionHub.WorstAccepted` | contracts/execution-hub/src/lib.rs:714-725 | The two-burst schedule is accepted in full |
| `ExecutionHub.WorstCounts` | contracts/execution-hub/src/lib.rs:714-725 | and puts exactly that many actions in one window, so the bound is attained |
| `ExecutionHub.CapHoldsIff` | formal-verification/kani_proofs/execution_hub_proofs.rs:14-15 | The stated intent, at most max within any window, holds for all request sequences if and only if max <= 1 or the window is 0 |
| `ExecutionHub.EveryRun` | contracts/execution-hub/src/lib.rs:130-171 | Over every run, for every agent: at most 199 actions in any 60 seconds, and nonces and execution ids strictly increase along the history |
| `ExecutionHub.StepKeeps` | contracts/execution-hub/src/lib.rs:130-171 | Each request keeps every agent's records in order and its limiter record in step with its accepted times |
| `HubEffects.AcceptedExact` | contracts/execution-hub/src/lib.rs:130-171 | An accepted action had a new nonce and is recorded last, under the next id and at its time; nothing of another agent changes |
| `HubEffects.RefusedOnlyWhenBusy` | contracts/execution-hub/src/lib.rs:710-733 | An action with a new nonce is refused only when the history is full or the last 100 actions lie within the last 60 seconds |
| `HubEffects.RunNonce` | contracts/execution-hub/src/lib.rs:143-156 | Over every run the stored nonce is that of the last accepted action |
| `HubContract.Hub.ExecuteAction` | contracts/execution-hub/src/lib.rs:130-171 | Takes exactly the transition: id, nonce, window record and history move together or not at all |
| `EscrowWindow.CountInWindow` | contracts/escrow/src/lib.rs:762-770 | The loop counts exactly the entries at or after the cutoff |
| `EscrowWindow.PruneWindow` | contracts/escrow/src/lib.rs:772-781 | The loop keeps exactly those entries, in order |
| `EscrowWindow.KeepTwice` | contracts/escrow/src/lib.rs:772-781 | Pruning to an earlier cutoff first loses nothing at a later one |
| `EscrowWindow.PrunedCountExactIff` | contracts/escrow/src/lib.rs:762-781 | A pruned log counts correctly from a cutoff if and only if nothing was executed between it and the cutoff pruned to |
| `EscrowWindow.KeepKeep` | contracts/escrow/src/lib.rs:772-781 | Pruning twice is pruning once to the later cutoff |
| `EscrowWindow.CapKept` | contracts/escrow/src/lib.rs:736-760 | Admitting one more only while fewer than max are in the window keeps every interval of that length at max |
| `EscrowProofs.EveryRun` | contracts/escrow/src/lib.rs:124-628 | Over every run: each balance is deposits minus executed amounts and not negative; held tokens cover all token escrows; each transaction ran at most once and never if cancelled; each execution matches its stored record, with at least M distinct approvers (who they were: EscrowHistory.ExecutionWasApproved), within time lock and grace; signer list, flags, count and threshold agree |
| `EscrowProofs.RunKeeps` | contracts/escrow/src/lib.rs:124-628 | The invariant behind it holds in every reachable state |
| `EscrowProofs.StepKeeps` | contracts/escrow/src/lib.rs:184-628 | Every entry point keeps it, as do token movements elsewhere |
| `EscrowProofs.InitializeValid` | contracts/escrow/src/lib.rs:124-176 | It holds after initialization |
| `EscrowProofs.ExecuteKeeps` | contracts/escrow/src/lib.rs:497-584 | Execution keeps it |
| `EscrowProofs.ExecuteNeverTraps` | contracts/escrow/src/lib.rs:526-546 | Execution succeeds if and only if the guards pass and the escrow balance suffices: the token transfer never fails |
| `EscrowProofs.RemoveSignerKeeps` | contracts/escrow/src/lib.rs:211-232 | Removing a signer keeps list, flags, count and threshold consistent |
| `EscrowProofs.RunLogs` | contracts/escrow/src/lib.rs:554-577 | Over every run that never widens the window, the pruned global and per-recipient logs give at every later check the same in-window entries as the full history |
| `EscrowProofs.RunCapped` | contracts/escrow/src/lib.rs:736-760 | With window W and cap M fixed, every closed interval of length W holds at most M executions over every run |
| `EscrowProofs.InitializeLimited` | contracts/escrow/src/lib.rs:124-176 | Both hold after initialization |
| `EscrowProofs.RecipientCapNeverDecides` | contracts/escrow/src/lib.rs:736-760 | A recipient's in-window count never exceeds the global one, so the check passes if and only if the global count is below the cap |
| `EscrowHistory.WidenedWindowExactIff` | contracts/escrow/src/lib.rs:265-282 | Over every run in time order with any changes of the rate limit, the global log and each recipient log count the executions since any moment exactly if and only if nothing ran between that moment and the latest cutoff the log was pruned to; they never count too many |
| `EscrowHistory.RunPruned` | contracts/escrow/src/lib.rs:554-577 | Over every such run each log is the full history pruned once, to the latest cutoff it was ever pruned to |
| `EscrowHistory.CheckExact` | contracts/escrow/src/lib.rs:736-760 | What the rate check decides in every reachable state, in terms of the full history |
| `EscrowHistory.WidenedWindowOverruns` | contracts/escrow/src/lib.rs:554-577 | A run from initialization in which a window widened to 100 seconds with a cap of two lets three executions into 20 seconds |
| `EscrowHistory.ApproverWasEntitled` | contracts/escrow/src/lib.rs:394-467 | Over every run each approver of a stored transaction came in by its own approval while a signer, or is the submitter, then a signer or an administrator |
| `EscrowHistory.ExecutionWasApproved` | contracts/escrow/src/lib.rs:497-584 | So every execution rests on at least M distinct approvers, each a signer when it approved or the submitter |
| `EscrowHistory.InitializeUnused` | contracts/escrow/src/lib.rs:124-176 | Runs start with nothing executed, logged or queued |
| `EscrowEffects.ExecuteExact` | contracts/escrow/src/lib.rs:497-584 | Execution succeeds exactly with enough approvals, inside time lock and grace, with both recent counts below the cap and the balance there; it pays exactly the amount from the contract to the recipient and moves no other balance, none at all for a native escrow |
| `EscrowEffects.RunPays` | contracts/escrow/src/lib.rs:351-584 | Over every run, apart from token movements elsewhere, an account gained of each token exactly the executed amounts naming it as recipient, less its own deposits |
| `EscrowEffects.RunAccounted` | contracts/escrow/src/lib.rs:351-584 | The same for every account, the contract included |
| `EscrowEffects.DepositExact` | contracts/escrow/src/lib.rs:351-380 | A deposit succeeds exactly into an active escrow by a payer who has the amount, takes exactly that from the payer and credits exactly that escrow |
| `EscrowEffects.SubmitExact` | contracts/escrow/src/lib.rs:394-442 | A withdrawal is queued exactly by a signer or administrator within the balance, as asked, with the submitter as its one approver |
| `EscrowEffects.ApproveExact` | contracts/escrow/src/lib.rs:445-491 | An approval adds a signer who has not approved, a revocation removes one who has, only while the transaction is open |
| `EscrowEffects.ApproveRevokeRoundTrip` | contracts/escrow/src/lib.rs:445-491 | Revoking undoes an approval |
| `EscrowEffects.CancelExact` | contracts/escrow/src/lib.rs:589-613 | Until grace has lapsed only an administrator or the submitter cancels, afterwards anyone; never once executed or cancelled |
| `EscrowEffects.SignersExact` | contracts/escrow/src/lib.rs:184-232 | When signers are added and removed, and what that leaves |
| `EscrowEffects.SettingsExact` | contracts/escrow/src/lib.rs:234-282 | When thresholds, time locks and rate limits are accepted, and that they change alone |
| `EscrowEffects.EscrowsExact` | contracts/escrow/src/lib.rs:284-628 | When escrows open and close and the contract pauses, and what that changes |
| `EscrowContract.Initialize` | contracts/escrow/src/lib.rs:124-176 | Creates the contract in the initial state with its invariant, or reports the same error |
| `EscrowContract.ValidateSignerSet` | contracts/escrow/src/lib.rs:795-813 | The nested loops accept exactly 0 < m <= n <= 20 with all signers distinct |
| `EscrowContract.IndexOf` | contracts/escrow/src/lib.rs:783-793 | Finds the first occurrence; removing there removes that signer once |
| `EscrowContract.Escrow.AddSigner` | contracts/escrow/src/lib.rs:184-207 | Takes exactly the transition, error codes included |
| `EscrowContract.Escrow.RemoveSigner` | contracts/escrow/src/lib.rs:211-232 | Takes exactly the transition, error codes included |
| `EscrowContract.Escrow.SetThreshold` | contracts/escrow/src/lib.rs:234-244 | Takes exactly the transition, error codes included |
| `EscrowContract.Escrow.SetRateLimit` | contracts/escrow/src/lib.rs:265-282 | Takes exactly the transition, error codes included |
| `EscrowContract.Escrow.Deposit` | contracts/escrow/src/lib.rs:351-380 | Takes exactly the transition: native escrows by accounting only, token escrows with the transfer |
| `EscrowContract.Escrow.SubmitTransaction` | contracts/escrow/src/lib.rs:394-442 | Takes exactly the transition; the submitter is the first approver |
| `EscrowContract.Escrow.ApproveTransaction` | contracts/escrow/src/lib.rs:445-467 | Takes exactly the transition, no approver twice |
| `EscrowContract.Escrow.RevokeApproval` | contracts/escrow/src/lib.rs:470-491 | Takes exactly the transition |
| `EscrowContract.Escrow.CheckRateLimits` | contracts/escrow/src/lib.rs:736-760 | Refuses exactly when the global or the recipient count has reached the cap |
| `EscrowContract.Escrow.CheckExecutable` | contracts/escrow/src/lib.rs:497-526 | The guards in the order of the source, checked additions included |
| `EscrowContract.Escrow.ExecuteTransaction` | contracts/escrow/src/lib.rs:497-584 | Takes exactly the execution transition, both logs appended and pruned, or returns the error unchanged |
| `EscrowContract.Escrow.CancelTransaction` | contracts/escrow/src/lib.rs:589-613 | Takes exactly the transition, saturating additions included |
| `FeeSplit.SplitExact` | contracts/fee-distribution/src/lib.rs:450-490 | Parts sum to the pending amount, all but the last are floors, and the last exceeds its floor by less than the number of parts |
| `FeeSplit.FloorsNearWhole` | contracts/fee-distribution/src/lib.rs:459-462 | Floored parts fall short of the exact share by less than one unit each |
| `FeeDistribution.DistributionExact` | contracts/fee-distribution/src/lib.rs:420-517 | Every distribution gives each active category its floor and the last a remainder at least 0 and below the active count; each category total rises by exactly its own part, every other category stays as it was, and nothing is left pending |
| `FeeDistribution.EveryRun` | contracts/fee-distribution/src/lib.rs:194-552 | Over every run: claimed <= allocated <= collected, in total and per category; category allocations and archived distributions both sum to the total allocated; active shares sum to the stored total; custody covers collected minus claimed; the rate stays within its caps |
| `FeeDistribution.RunKeeps` | contracts/fee-distribution/src/lib.rs:120-552 | The invariant behind it holds in every reachable state |
| `FeeDistribution.InitializeValid` | contracts/fee-distribution/src/lib.rs:70-116 | and after initialization |
| `FeeDistribution.ListedSum` | contracts/fee-distribution/src/lib.rs:439-448 | The shares met by walking the category list sum to the total over stored categories |
| `FeeDistribution.CreditSums` | contracts/fee-distribution/src/lib.rs:474-490 | Crediting allocations raises the sum of category totals by exactly their sum |
| `FeeDistribution.CreditExact` | contracts/fee-distribution/src/lib.rs:474-490 | Crediting distinct categories raises each by its own part and touches nothing else |
| `FeeDistribution.DistributeKeeps` | contracts/fee-distribution/src/lib.rs:420-517 | Distribution keeps the invariant |
| `FeeDistribution.AddKeeps` | contracts/fee-distribution/src/lib.rs:194-250 | Adding a category keeps it |
| `FeeDistribution.UpdateKeeps` | contracts/fee-distribution/src/lib.rs:252-295 | Updating one keeps it |
| `FeeDistribution.RemoveKeeps` | contracts/fee-distribution/src/lib.rs:297-322 | Deactivating one keeps it |
| `FeeDistribution.ReactivateKeeps` | contracts/fee-distribution/src/lib.rs:324-353 | Reactivating one keeps it |
| `FeeDistribution.ClaimOneKeeps` | contracts/fee-distribution/src/lib.rs:671-714 | A claim keeps it and raises the claimed total by exactly what it pays |
| `FeeDistribution.ClaimEachKeeps` | contracts/fee-distribution/src/lib.rs:528-552 | A batch, repeated ids included, keeps it and raises the claimed total by exactly the sum it reports |
| `FeeDistribution.ClaimAlwaysPaid` | contracts/fee-distribution/src/lib.rs:519-526 | A claim succeeds if and only if the caller is the recipient and something is unclaimed, and pays all of it: custody never falls short |
| `FeeEffects.CollectExact` | contracts/fee-distribution/src/lib.rs:382-416 | A collection charges the floor of the rate, nothing to an exempt payer, succeeds exactly when the payer has it, and takes exactly that |
| `FeeEffects.ClaimExact` | contracts/fee-distribution/src/lib.rs:519-526 | A claim pays the whole unclaimed part to the recipient and moves no other account |
| `FeeEffects.BatchCategories` | contracts/fee-distribution/src/lib.rs:528-552 | A batch settles in full exactly the listed categories of the recipient and leaves every other alone |
| `FeeEffects.BatchPays` | contracts/fee-distribution/src/lib.rs:528-552 | Its payments to the recipient add up to what it reports, with no other account touched |
| `FeeEffects.DistributeIff` | contracts/fee-distribution/src/lib.rs:420-451 | Distribution succeeds exactly when shares add up to 100% and something is pending |
| `FeeEffects.RateChange` | contracts/fee-distribution/src/lib.rs:140-192 | Which changes of rate and maximum are accepted |
| `FeeEffects.CategoryAdded` | contracts/fee-distribution/src/lib.rs:194-250 | Which categories are accepted, and that they start with nothing |
| `FeeEffects.CategoryKept` | contracts/fee-distribution/src/lib.rs:252-353 | Updating, removing and reactivating never touch what a category was allotted or has claimed, and the share total follows |
| `FeeEffects.CategoryRemoved` | contracts/fee-distribution/src/lib.rs:297-353 | Removal ends a share and keeps the recipient; reactivation restores one |
| `FeeEffects.CategoryChangeIff` | contracts/fee-distribution/src/lib.rs:252-353 | Which updates, removals and reactivations are accepted |
| `FeeEffects.BatchIff` | contracts/fee-distribution/src/lib.rs:528-552 | A batch of one to fifty known categories succeeds exactly when something in it is owed to the caller |
| `FeeEffects.InitializeIff` | contracts/fee-distribution/src/lib.rs:70-116 | Which deployments are accepted, and where they start |
| `FeeEffects.SettingsExact` | contracts/fee-distribution/src/lib.rs:120-366 | Pausing and exemptions |
| `FeeContract.Initialize` | contracts/fee-distribution/src/lib.rs:70-116 | Creates the contract in the initial state with its invariant, or nothing |
| `FeeContract.FeeDistribution.AddCategory` | contracts/fee-distribution/src/lib.rs:194-250 | Takes exactly the transition or aborts unchanged |
| `FeeContract.FeeDistribution.RemoveCategory` | contracts/fee-distribution/src/lib.rs:297-322 | Takes exactly the transition or aborts unchanged |
| `FeeContract.FeeDistribution.CollectFee` | contracts/fee-distribution/src/lib.rs:382-416 | Takes exactly the transition; exempt payers and zero fees change nothing |
| `FeeContract.FeeDistribution.CountActive` | contracts/fee-distribution/src/lib.rs:439-448 | The first loop counts the active categories; a dangling id aborts |
| `FeeContract.FeeDistribution.Allocate` | contracts/fee-distribution/src/lib.rs:453-490 | The second loop, with its running sum and late remainder, builds exactly the split and its credits |
| `FeeContract.FeeDistribution.Distribute` | contracts/fee-distribution/src/lib.rs:420-517 | Takes exactly the distribution transition or aborts unchanged |
| `FeeContract.FeeDistribution.ClaimOne` | contracts/fee-distribution/src/lib.rs:671-714 | Takes exactly the claim transition, strict or lenient |
| `FeeContract.FeeDistribution.ClaimBatch` | contracts/fee-distribution/src/lib.rs:528-552 | The loop is the fold of lenient claims; a failure undoes the batch |
| `Governance.EveryRun` | contracts/governance/src/contract.rs:72-354 | Over every run, parameter changes included: tallies are the sums of recorded weights, delegated power the sum of live delegations, each proposal runs at most once and never if cancelled, and only from eta to 14 days later |
| `Governance.RunKeeps` | contracts/governance/src/contract.rs:72-462 | The invariant behind it holds in every reachable state |
| `Governance.StepKeeps` | contracts/governance/src/contract.rs:72-462 | Every entry point keeps it |
| `Governance.InitialValid` | contracts/governance/src/contract.rs:20-66 | It holds after initialization |
| `Governance.RunWarranted` | contracts/governance/src/contract.rs:227-262 | Over every run in time order each executed proposal keeps the eta it ran under, and its final tallies pass the quorum and threshold in force when it ran |
| `Governance.ExecutedUntouched` | contracts/governance/src/contract.rs:154-288 | Once executed, a proposal's record never changes: no vote, queueing, execution or cancellation touches it |
| `Governance.VoteKeepsTallies` | contracts/governance/src/contract.rs:154-196 | A vote adds its weight to exactly one tally, once per voter |
| `Governance.DelegateKeepsPower` | contracts/governance/src/contract.rs:293-329 | Delegating keeps power equal to the sum of live delegations |
| `Governance.RevokeKeepsPower` | contracts/governance/src/contract.rs:332-354 | So does revoking |
| `Governance.ExecuteKeepsRuns` | contracts/governance/src/contract.rs:227-262 | Execution marks and counts exactly one run, on time |
| `Governance.LifecycleForward` | contracts/governance/src/contract.rs:561-594 | Over any run and any wait the stage only moves to a successor (Defeated and Expired only to Canceled, Executed and Canceled nowhere) as long as no parameter change turns the proposal verdict |
| `Governance.TimeMovesForward` | contracts/governance/src/contract.rs:561-594 | Time alone only moves the stage to a successor |
| `Governance.ParameterChangeIff` | contracts/governance/src/contract.rs:575-577 | A parameter change leaves the stage alone, and likewise moves it only forward, if and only if the vote is still open, the proposal is cancelled, or the verdict is the same under both settings |
| `Governance.StepForwardIff` | contracts/governance/src/contract.rs:561-594 | A call moves a proposal stage only forward if and only if it is not an effective parameter change that turns the verdict |
| `Governance.FixedParametersHarmless` | contracts/governance/src/contract.rs:421-462 | Every run without parameter changes meets the condition of LifecycleForward |
| `Governance.ForwardIsAnOrder` | contracts/governance/src/contract.rs:561-594 | The successor relation is transitive and never returns to a stage once left |
| `GovernanceStory.ExecutedCanReadDefeated` | contracts/governance/src/contract.rs:575-581 | A run from initialization after which a proposal reads Executed and, after a quorum change, Defeated |
| `GovernanceEffects.ExecutionWasTimelocked` | contracts/governance/src/contract.rs:199-262 | Over every run each execution came at or after the time of a queueing of its proposal plus the timelock in force at that queueing, and that sum is the eta it ran under |
| `GovernanceEffects.EtaWasScheduled` | contracts/governance/src/contract.rs:199-224 | Over every run a stored eta is the time of a queueing plus the delay in force at it |
| `GovernanceEffects.QueueExact` | contracts/governance/src/contract.rs:199-224 | Queueing succeeds exactly on a closed, passed, open proposal and sets eta to now plus the configured delay |
| `GovernanceEffects.ExecuteExact` | contracts/governance/src/contract.rs:227-262 | Execution succeeds exactly on a queued, passed proposal from eta to 14 days later whose payments are covered; every payment goes from the contract to its named account in full and nothing else moves |
| `GovernanceEffects.PayAllIff` | contracts/governance/src/contract.rs:242-251 | The payments are covered exactly when each is within what the contract holds after those before it |
| `GovernanceEffects.WeighsExact` | contracts/governance/src/contract.rs:632-667 | Voting power is tokens, plus the lock in proportion to its time left, plus the sum of live delegations |
| `GovernanceEffects.VoteExact` | contracts/governance/src/contract.rs:154-196 | A vote counts exactly while open, once per voter, with that weight, on the side named |
| `GovernanceEffects.ProposeExact` | contracts/governance/src/contract.rs:72-151 | Who may propose, and when the vote opens and closes |
| `GovernanceEffects.PassesMeans` | contracts/governance/src/contract.rs:597-629 | A vote passes exactly when turnout over supply and approval over votes cast reach their fractions |
| `GovernanceEffects.CancelExact` | contracts/governance/src/contract.rs:265-288 | Only proposer and administrator cancel, and not once executed |
| `GovernanceEffects.DelegateExact` | contracts/governance/src/contract.rs:293-329 | Who may delegate, and that exactly the delegatee gains |
| `GovernanceEffects.DelegateRevokeRoundTrip` | contracts/governance/src/contract.rs:293-354 | Revoking undoes a delegation |
| `GovernanceEffects.LockExact` | contracts/governance/src/contract.rs:359-414 | Which locks are accepted and when they end |
| `GovernanceEffects.RunLocks` | contracts/governance/src/contract.rs:359-414 | Over every run locks have positive length and amount |
| `GovernanceEffects.ParamsExact` | contracts/governance/src/contract.rs:421-462 | Parameters are set exactly by the administrator |
| `GovernanceContract.Governance.constructor` | contracts/governance/src/contract.rs:20-66 | Storage starts as the initial state and satisfies the invariant |
| `GovernanceContract.Governance.Propose` | contracts/governance/src/contract.rs:72-151 | Takes exactly the transition or aborts unchanged; either way the invariant is kept |
| `GovernanceContract.Governance.CastVote` | contracts/governance/src/contract.rs:154-196 | Takes exactly the transition or aborts unchanged; either way the invariant is kept |
| `GovernanceContract.Governance.Queue` | contracts/governance/src/contract.rs:199-224 | Takes exactly the transition or aborts unchanged; either way the invariant is kept |
| `GovernanceContract.Governance.Pay` | contracts/governance/src/contract.rs:242-251 | The action loop is the fold of transfers; one failure fails all |
| `GovernanceContract.Governance.Execute` | contracts/governance/src/contract.rs:227-262 | Takes exactly the transition or aborts unchanged; either way the invariant is kept |
| `GovernanceContract.Governance.Cancel` | contracts/governance/src/contract.rs:265-288 | Takes exactly the transition or aborts unchanged; either way the invariant is kept |
| `GovernanceContract.Governance.Delegate` | contracts/governance/src/contract.rs:293-329 | Takes exactly the transition or aborts unchanged; either way the invariant is kept |
| `GovernanceContract.Governance.RevokeDelegation` | contracts/governance/src/contract.rs:332-354 | Takes exactly the transition or aborts unchanged; either way the invariant is kept |
| `LendingMath.RateMonotone` | contracts/collateral-management/src/math.rs:31-55 | The kinked rate curve never falls as utilisation rises |
| `LendingMath.SeizureExact` | contracts/collateral-management/src/math.rs:118-135 | At scale 1 the seized collateral is worth covered debt plus bonus and one unit less is not |
| `LendingMath.SeizureCoversIff` | contracts/collateral-management/src/math.rs:127-131 | For every admitted bonus, seizures are always worth the debt they cover, as collateral is valued elsewhere, if and only if the price scale is 1 |
| `LendingMath.ScheduleBound` | contracts/collateral-management/src/math.rs:58-68 | Any schedule of accruals charges at most one call's simple interest and falls short by at most the number of charging calls |
| `LendingProofs.EveryRun` | contracts/collateral-management/src/lib.rs:69-772 | Over every run: total debt per token is the sum of its loans' debts, total collateral the sum over users, debt is principal plus interest with neither negative, a loan is closed exactly when it owes nothing, and users' id lists partition the ids below the counter by borrower |
| `LendingProofs.RunKeeps` | contracts/collateral-management/src/lib.rs:69-772 | The invariant behind it holds in every reachable state |
| `LendingProofs.StepKeeps` | contracts/collateral-management/src/lib.rs:69-772 | Every entry point keeps it |
| `LendingProofs.InitialValid` | contracts/collateral-management/src/lib.rs:40-63 | It holds after initialization |
| `LendingProofs.WithdrawLeavesHealthy` | contracts/collateral-management/src/lib.rs:420-467 | After a withdrawal the user's recomputed health is at least the liquidation threshold |
| `LendingProofs.BorrowLeavesHealthy` | contracts/collateral-management/src/lib.rs:473-555 | After a borrow, accrued interest and the new loan counted, it is too |
| `LendingProofs.OverrideIsReal` | contracts/collateral-management/src/lib.rs:829-905 | Health under an overridden holding equals health once the holding is stored |
| `LendingProofs.WithdrawSparesOthers` | contracts/collateral-management/src/lib.rs:420-467 | A withdrawal changes no other user's health |
| `LendingProofs.BorrowSparesOthers` | contracts/collateral-management/src/lib.rs:473-555 | Nor does a borrow |
| `LendingProofs.BestTokenIsBest` | contracts/collateral-management/src/lib.rs:908-934 | No collateral held is worth more than the token chosen for seizure; none is chosen only if none is held |
| `LendingProofs.LiquidationExact` | contracts/collateral-management/src/lib.rs:626-734 | Liquidation happens only below the threshold, covers at most the debt with fresh interest, takes the most valuable collateral and no more than is held, and moves loan and collateral by exactly that |
| `LendingProofs.StaleCheckIsSafe` | contracts/collateral-management/src/lib.rs:646-654 | The health check that misses the interest just accrued is safe: whoever it finds below the threshold is below it with the interest counted |
| `LendingProofs.InterestOverSchedule` | contracts/collateral-management/src/lib.rs:740-772 | The schedule bound holds of the stored loan under any sequence of accrual calls, since zero charges do not advance its clock |
| `LendingProofs.PaidKeeps` | contracts/collateral-management/src/lib.rs:586-602 | Paying interest before principal leaves a valid loan owing exactly the rest |
| `LendingProofs.AccrueOneKeeps` | contracts/collateral-management/src/lib.rs:740-772 | Accruing one loan keeps the invariant and touches only that borrower's loans |
| `LendingProofs.AccrueEachKeeps` | contracts/collateral-management/src/lib.rs:332-337 | So does accruing a whole list |
| `LendingProofs.BorrowKeeps` | contracts/collateral-management/src/lib.rs:473-555 | A borrow keeps the invariant |
| `LendingProofs.RepayKeeps` | contracts/collateral-management/src/lib.rs:561-620 | A repayment keeps it |
| `LendingProofs.LiquidateKeeps` | contracts/collateral-management/src/lib.rs:626-734 | A liquidation keeps it |
| `LendingCustody.RunBacked` | contracts/collateral-management/src/lib.rs:221-772 | Over every run, for every token, tokens held plus tokens owed cover the collateral deposited |
| `LendingCustody.StepBacked` | contracts/collateral-management/src/lib.rs:221-772 | Each step keeps that bound |
| `LendingCustody.InitialBacked` | contracts/collateral-management/src/lib.rs:40-63 | It holds after initialization |
| `LendingHealth.HealthMeans` | contracts/collateral-management/src/lib.rs:778-905 | Reported health reaches a threshold h exactly when h times the sum of open debts is at most the sum of collateral worths times the value-weighted mean of the liquidation thresholds, floored |
| `LendingHealth.CoverageMeans` | contracts/collateral-management/src/math.rs:74-106 | The health factor of any holdings and debt as that inequality |
| `LendingHealth.BorrowLeavesCovered` | contracts/collateral-management/src/lib.rs:473-555 | After a borrow the debts are covered in that sense |
| `LendingHealth.WithdrawLeavesCovered` | contracts/collateral-management/src/lib.rs:420-467 | and after a withdrawal |
| `LendingHealth.LiquidationNeedsUncovered` | contracts/collateral-management/src/lib.rs:626-734 | Only borrowers whose debts are not covered are liquidated, with the fresh interest counted as well as without |
| `LendingHealth.InterestMeans` | contracts/collateral-management/src/math.rs:58-68 | Interest is the floor of principal times rate times seconds over 10000 times 31536000 |
| `LendingHealth.YearlyInterest` | contracts/collateral-management/src/math.rs:58-68 | A year costs exactly the rate in ten-thousandths of the principal |
| `LendingHealth.UtilizationMeans` | contracts/collateral-management/src/math.rs:11-23 | Utilisation is the floored borrowed part of deposits in basis points, at most all |
| `LendingHealth.RateMeans` | contracts/collateral-management/src/math.rs:31-55 | The rate is the two-slope curve, fixed by inequalities, cut at the largest 32-bit number |
| `LendingHealth.PaymentDivides` | contracts/collateral-management/src/lib.rs:586-602 | A payment reduces principal only once no interest is left, and closes the loan as repaid or liquidated exactly when nothing is owed |
| `LendingEffects.DepositExact` | contracts/collateral-management/src/lib.rs:221-272 | A deposit succeeds exactly within both caps and the balance, and moves exactly the amount |
| `LendingEffects.WithdrawExact` | contracts/collateral-management/src/lib.rs:420-467 | A withdrawal succeeds exactly if what remains covers the debts, and moves exactly the amount to the user |
| `LendingEffects.BorrowExact` | contracts/collateral-management/src/lib.rs:473-555 | A borrow succeeds exactly within cap, ceiling, coverage and the tokens held, pays exactly the amount to the user and records exactly that loan |
| `LendingEffects.RateAtMeans` | contracts/collateral-management/src/lib.rs:518-522 | at the rate of the curve for the utilisation of the moment |
| `LendingEffects.RepayExact` | contracts/collateral-management/src/lib.rs:561-620 | A repayment succeeds exactly up to the debt with fresh interest and moves exactly the amount |
| `LendingEffects.LiquidateIff` | contracts/collateral-management/src/lib.rs:626-676 | Exactly when a liquidation succeeds |
| `LendingEffects.LiquidationPays` | contracts/collateral-management/src/lib.rs:679-720 | It moves exactly the covered debt from liquidator to contract and the seized collateral back, and nothing else |
| `LendingEffects.AccrualExact` | contracts/collateral-management/src/lib.rs:746-772 | A loan brought up to date is charged exactly its interest, and its clock moves only then |
| `LendingEffects.AccrualCalls` | contracts/collateral-management/src/lib.rs:328-337 | Accrual calls bring up to date exactly the loans named |
| `LendingEffects.TypeRegistered` | contracts/collateral-management/src/lib.rs:69-118 | Which collateral types are accepted, and that they are stored as given |
| `LendingEffects.SettingsExact` | contracts/collateral-management/src/lib.rs:120-213 | Which later settings are accepted and what they change |
| `LendingContract.CollateralManagement.constructor` | contracts/collateral-management/src/lib.rs:40-63 | Storage starts as the initial state and satisfies the invariant |
| `LendingContract.CollateralManagement.UserTotalDebt` | contracts/collateral-management/src/lib.rs:785-795 | The loop sums the open debts of the user listed loans and aborts exactly when a listed loan is missing |
| `LendingContract.CollateralManagement.UserDebtForToken` | contracts/collateral-management/src/lib.rs:797-811 | The same in one borrow token |
| `LendingContract.CollateralManagement.Appraise` | contracts/collateral-management/src/lib.rs:813-905 | The valuation loop gives total value and weighted sum, and aborts exactly when a needed price is unknown |
| `LendingContract.CollateralManagement.Holdings` | contracts/collateral-management/src/lib.rs:829-852 | Holdings by token, one overridden if asked |
| `LendingContract.CollateralManagement.HealthFrom` | contracts/collateral-management/src/lib.rs:778-783 | The health factor of these holdings against a debt |
| `LendingContract.CollateralManagement.BestSeizeCollateral` | contracts/collateral-management/src/lib.rs:908-934 | The search loop finds the first token of highest value |
| `LendingContract.CollateralManagement.DepositCollateral` | contracts/collateral-management/src/lib.rs:221-272 | Takes exactly the transition or aborts unchanged |
| `LendingContract.CollateralManagement.SafetyCheck` | contracts/collateral-management/src/lib.rs:430-443 | Decides exactly whether the remaining collateral keeps the user healthy |
| `LendingContract.CollateralManagement.WithdrawCollateral` | contracts/collateral-management/src/lib.rs:420-467 | Takes exactly the transition or aborts unchanged |
| `LendingContract.CollateralManagement.AccrueAll` | contracts/collateral-management/src/lib.rs:496-500 | The accrual loop is the fold over the user's list and keeps the invariant |
| `LendingContract.CollateralManagement.BorrowCheck` | contracts/collateral-management/src/lib.rs:502-516 | Decides exactly whether the debt after the borrow stays healthy |
| `LendingContract.CollateralManagement.Borrow` | contracts/collateral-management/src/lib.rs:473-555 | Takes exactly the transition; a refusal after interest accrued undoes the accrual |
| `LendingContract.CollateralManagement.RepayLoan` | contracts/collateral-management/src/lib.rs:561-620 | Takes exactly the transition or aborts unchanged |
| `LendingContract.CollateralManagement.PlanSeizure` | contracts/collateral-management/src/lib.rs:646-677 | Who may be liquidated, for how much, and what is taken |
| `LendingContract.CollateralManagement.LiquidateLoan` | contracts/collateral-management/src/lib.rs:626-734 | Takes exactly the transition or aborts unchanged |

## Left out

- Integer widths: i128, u64 and u32 overflow traps are aborts and do not occur in the unbounded model; the escrow's checked and saturating u64 additions, the lending u32 cap and Rust's truncating division on negative operands are modelled.
- Authentication: a call reaches the model only once authorised, and no caller is the contract's own address. Roles answered by the linked access-control contract are a boolean input.
- Events, storage tiers, reentrancy locks, views and query caches; published escrow and governance executions are kept, with the terms they ran under, as the history the theorems speak about.
- Initialization: calls before it (not initialized) and a second call (already initialized).
- AMM position limits, pause and circuit breaker: their combined answer is a boolean input. A route's total fee and timestamp carry no behaviour and are not stored.
- Prices: the lending price cache and oracle are one map of known prices; an unknown price aborts.
- Liquidation events: the bonus amount published with a liquidation is not modelled.
- Escrow approvals: those by a signer who was removed later still count, as in the code; a signer's standing at execution time is not claimed.
- Governance proposals: descriptions, targets and calldata are reduced to the length check's answer, and per-field parameter updates to setting all parameters.
- Hub inputs: the string and data size checks are a boolean input; workflows, rules and the hub's other entry points do not touch the limiter, nonces or history and are not modelled.
- Update in place of small setters: escrow time lock, pause, creation and closing; fee rates, exemptions, category update and reactivation; governance locks and parameters; lending administration; AMM minimum shares and admin. They are transitions over which the run theorems range, without a class method of their own.
- Bridges, insurance, compliance, derivatives, the older lending contract, access control, proxies, audit and role helpers.
