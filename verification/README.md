# A constant-product pool over permissioned stablecoins, verified

Two Solana programs are modelled. The stablecoin program issues a Token-2022 token through
minters with allowances, under a supply cap, with a pause and per-account wallet policies
that freeze and thaw accounts. The AMM program keeps a constant-product pool of two such
stablecoins with an LP token of its own, and locks the first 1,000 LP tokens for good. The
demo client's own quote arithmetic is modelled as well.

The project has three layers.

- **Arithmetic.** `SquareRoot`, `AmmMath` and `Client` follow `math.rs` and `demo.ts`, with
  64- and 128-bit widths as subset types and every checked operation written out. The
  two square roots are loops; the quotes are functions. `SwapLaws`, `LiquidityLaws` and
  `SplitLaws` prove what the quotes mean: exactly when each succeeds, that the outputs are the
  greatest the pool can afford, that splitting or reversing an operation never pays.
- **Programs.** `Token` is a small trusted model of one Token-2022 mint. `Issuance` and
  `World` give each instruction as a function on the whole state, with only the checks that
  can fail. The classes `Issuer` and `PoolProgram` are the programs as they run: fields updated in
  place, token calls and reserve writes in the handlers' order, every check the handlers make.
  Each method is proved against its function: in any state it succeeds exactly when the
  function does and the checks the function leaves out pass; in a sound state it also fails
  with the same error, so those checks are shown never to reject. `Steps`, `Liveness` and
  `CoinEffects` say what the functions themselves do without naming their quotes or bodies:
  when each succeeds, what it changes, and that it changes nothing else.
- **Runs.** `Runs` lets anyone take any step in any order: pool instructions, stablecoin
  instructions, and what owners do without the programs (opening and closing accounts,
  transfers, donations to the vaults and to the locked account, burns). `Runs`,
  `Conservation`, `NoProfit`, `Liveness`, `Refusals`, `IssuanceRuns`, `Authority` and
  `Controls` prove what holds over every such history; `PoolProgram.ExecuteAll` carries this
  over to the classes.

A state is called *sound* when it satisfies `World.WorldInv`: both coins' counters, caps,
allowances and mirrored flags are right, supplies are sums of balances, vaults cover
reserves, and the pool is either entirely empty or *seeded* (positive reserves,
`MINIMUM_LIQUIDITY ≤ locked ≤ L` and `L² ≤ reserve_a·reserve_b`). Every state reachable from
initialization is sound.

## Where the code and its documentation differ

The model follows the code.

- The comment at `programs/amm/src/math.rs:54` says every intermediate of the square root
  stays below the value. The candidate does not (`SquareRoot.CandidateCanExceedValue`);
  it stays below for exactly the values more than five quarters of the power of four they
  start at (`SquareRoot.CandidatesStayBelowIff`), and within 128 bits always.
- The property sampled at `programs/amm/src/math.rs:734`, that a larger swap never gets a
  better price, is false by up to one output unit (`SwapLaws.LargerSwapCanGetABetterPrice`).
  `SwapLaws.LargerSwapPrice` has the bound that holds and
  `SwapLaws.LargerSwapNoBetterPriceIff` the exact condition.
- `README.md:103` says each wallet policy agrees with its account's frozen state. An owner who
  closes an allowed, empty account and opens it again has a frozen account under an allowed
  policy (`IssuanceRuns.PolicyCanDisagree`). `IssuanceRuns.PolicyAgreesUnlessReopened` shows
  this is the only way, and the disagreement is always on the safe side: no thawed account ever
  lacks an allowed policy.

## What is taken for granted

- Token-2022 behaves as `Token` says: balances sum to the supply, frozen accounts and paused
  mints neither move, mint nor burn, only empty accounts close, and new stablecoin accounts start
  frozen, as the mint's default account state asks. There is no transfer fee.
- The mint, freeze and pause authorities are the program's own addresses and sign nowhere
  else, so nobody but the pool debits or closes a vault or the locked LP account.
- A failed instruction leaves no trace. The classes restore the earlier state explicitly.
- Account constraints give the right accounts. What is left of them in the model is that an
  account exists, has a policy, and is not the pool's own; their failures are one error,
  `AccountConstraint`. A signer is the key an operation carries.

## Model

| member | source | states |
|---|---|---|
| SquareRoot.FloorSqrt | programs/amm/src/math.rs:49-79 | the number whose square is at most the value and whose successor's square exceeds it; the reference both square roots are proved against |
| SquareRoot.FloorSqrtIsGreatest | programs/amm/src/math.rs:49-79 | `s` is at most the root exactly when `s²` is at most the value |
| SquareRoot.RestoringStep | programs/amm/src/math.rs:63-76 | one digit of the restoring loop keeps `bit = 4^i`, `root = 2·P·2^i`, `remainder = value − P²` and `P² ≤ value < (P + 2^(i+1))²`, taking the digit exactly when it fits, and neither sum leaves 128 bits |
| SquareRoot.CandidateCanExceedValue | programs/amm/src/math.rs:54-64 | the comment that every intermediate stays below `value` is false: for value 4 the loop's candidates are 4 and 5 |
| SquareRoot.CandidatesStayBelowIff | programs/amm/src/math.rs:54-76 | for every 128-bit value from 2 on, all candidates the loop forms stay below the value if and only if it is more than five quarters of the largest power of four within it, the `bit` the loop starts at |
| AmmMath.IntegerSqrt | programs/amm/src/math.rs:49-79 | on every 128-bit value both loops end and the result is the floor root; no overflow exit is ever taken |
| SquareRoot.NewtonStepAboveRoot | scripts/demo.ts:206-217 | a Newton step from any positive guess never lands below the floor root |
| Client.NewtonSqrt | scripts/demo.ts:206-217 | the client's iteration ends, on any natural number, at the same floor root as the on-chain one |
| Client.QuoteInitialLp | scripts/demo.ts:219-221 | equals the `lp_to_user` the program mints whenever the program accepts the first deposit |
| Client.ClientSwapAgrees | scripts/demo.ts:223-231 | the client's swap output equals the on-chain one whenever the on-chain quote succeeds |
| Client.ClientRemoveAgrees | scripts/demo.ts:233-239 | both withdrawal estimates equal the on-chain payouts whenever the on-chain quote succeeds |
| LiquidityLaws.CeilDivIsLeast | programs/amm/src/math.rs:81-92 | the least `c` with `numerator ≤ c·denominator`; rejects only a zero denominator and never overflows |
| SwapLaws.SwapOutIsGreatestAffordable | programs/amm/src/math.rs:117-130 | `y` is at most the output exactly when paying `y` keeps the fee-adjusted product, with the fee in parts of 10_000 written as a number: `(reserve_in·10000 + amount_in·(10000 − fee_bps))·(reserve_out − y) ≥ reserve_in·10000·reserve_out` |
| SwapLaws.AffordableKeepsProduct | programs/amm/src/math.rs:146-154 | any payout the fee-adjusted product allows keeps the plain product `k`, and raises it when there is a fee |
| SwapLaws.QuoteSwapExact | programs/amm/src/math.rs:94-161 | for all machine inputs: the quote succeeds exactly when the inputs and the new input reserve are within the cap and one unit is affordable; then it is the greatest affordable output, below the reserve, with reserves moved by exactly the two amounts; it never overflows, never reports a broken pool, and reports insufficient liquidity only for an empty reserve, so the two late rejections are dead code |
| SwapLaws.SwapAtTheStatedRate | programs/amm/src/math.rs:94-161 | the rate in plain numbers, naming no constant: accepted exactly when the fee is at most 100 parts in 10_000, the amounts fit under 10^15 and one unit can be paid; the output is then the greatest `y` that satisfies the inequality above, so it fails for `y + 1` |
| SwapLaws.TwoSwapsMerge | programs/amm/src/math.rs:110-160 | what two consecutive swaps pay together is affordable to one swap of both inputs, despite flooring and fees |
| SwapLaws.SplittingNeverHelps | programs/amm/src/math.rs:110-160 | for any list of same-direction swaps that all succeed, one swap of the sum succeeds, reaches the same input reserve and pays at least as much in total |
| SwapLaws.RoundTripNeverProfits | programs/amm/src/math.rs:752-772 | swapping out and back returns at most the input, strictly less when there is a fee |
| SwapLaws.LargerSwapPrice | programs/amm/src/math.rs:734-750 | a larger swap pays at least as much, and its price beats the smaller one's by less than one output unit: `out(l)·s < (out(s) + 1)·l` |
| SwapLaws.LargerSwapCanGetABetterPrice | programs/amm/src/math.rs:734-750 | without that unit of slack the property is false: on reserves of a million each with no fee, 2 buys 1 and 3 buys 2 |
| SwapLaws.LargerSwapNoBetterPriceIff | programs/amm/src/math.rs:734-750 | it holds exactly when the rounding loss of the smaller swap (a remainder computed from the inputs) is covered by the price impact between the two sizes plus the rounding loss of the larger |
| AmmMath.QuoteInitialLiquidity | programs/amm/src/math.rs:163-189 | the first-deposit quote as a computation over the restoring root agrees with its definition by the floor root on all inputs, errors included |
| LiquidityLaws.InitialLiquidityExact | programs/amm/src/math.rs:163-189 | succeeds exactly when both amounts are within the cap and their product is at least `(MINIMUM_LIQUIDITY + 1)²`; locked plus minted is then the floor root of the product, at least one unit goes to the user, and nothing overflows |
| LiquidityLaws.MatchDepositExact | programs/amm/src/math.rs:214-234 | on all capped inputs one side is taken whole and the other is the least amount meeting the pool's ratio, neither above what was offered: the `a_optimal > a_desired` rejection is unreachable |
| LiquidityLaws.MatchedIsUnique | programs/amm/src/math.rs:214-234 | at most one pair of amounts matches an offer: the ratio and the offer decide what is taken, whichever branch finds it |
| LiquidityLaws.DepositShareIsGreatest | programs/amm/src/math.rs:236-246 | the LP earned is the greatest number that falls short of neither side's offer: `y ≤ share` exactly when `y·reserve_a ≤ a·L` and `y·reserve_b ≤ b·L` |
| LiquidityLaws.MatchedEarnsFullShare | programs/amm/src/math.rs:236-246 | rounding the matched side up loses nothing: the LP earned on the matched amounts is `min(⌊a_desired·L/reserve_a⌋, ⌊b_desired·L/reserve_b⌋)` |
| LiquidityLaws.QuoteAddExact | programs/amm/src/math.rs:191-271 | on in-range inputs the exact outcome: zero output when that minimum is zero, out of range when a new reserve or the new supply passes the cap, otherwise the matched amounts and exactly that minimum |
| LiquidityLaws.QuoteAddOutOfRange | programs/amm/src/math.rs:198-212 | every other input is rejected, never as an overflow |
| LiquidityLaws.SupplyNarrowingNeverRejects | programs/amm/src/math.rs:265-269 | while `L² ≤ reserve_a·reserve_b`, once both new reserves are within the cap so is the new supply, and the deposit succeeds exactly when it earns at least one LP token |
| LiquidityLaws.QuoteRemoveExact | programs/amm/src/math.rs:273-334 | for all machine inputs: succeeds exactly when the amounts are in range, the minimum liquidity stays behind and both payouts reach one unit; the payouts are the floored shares, below the reserves; it never overflows, and an in-range rejection is a zero output |
| LiquidityLaws.PayoutIsGreatest | programs/amm/src/math.rs:304-314 | a payout is the greatest amount within the burned tokens' share of the reserve |
| LiquidityLaws.NoQuoteOverflows | programs/amm/src/math.rs:94-343 | none of the four quotes returns the overflow error on any machine inputs |
| LiquidityLaws.DepositKeepsValue | README.md:83-89 | a deposit that mints at most its share leaves neither side worth less per LP token, nor the normalised value |
| LiquidityLaws.WithdrawalKeepsValue | README.md:86-89 | a withdrawal of at most its share leaves neither side worth less per LP token, nor the normalised value |
| LiquidityLaws.BurnKeepsValue | README.md:107-112 | LP tokens burned outside the pool leave neither side worth less per LP token, nor the normalised value |
| LiquidityLaws.ValueKeptKeepsRootBound | README.md:81-84 | a step that keeps normalised value keeps `L² ≤ reserve_a·reserve_b` |
| SplitLaws.AddAllWithinShare | programs/amm/src/math.rs:191-271 | whatever one combined deposit would do, a list of deposits that all succeed mints at most the starting pool's share of the total offered, on both sides |
| SplitLaws.SplitDepositsNeverHelp | programs/amm/src/math.rs:191-271 | any list of deposits that all succeed mints at most what one deposit of the totals mints, when that succeeds |
| SplitLaws.SplitWithdrawalsNeverHelp | programs/amm/src/math.rs:273-334 | for any list of withdrawals that all succeed, one withdrawal of the sum succeeds, leaves the same supply and pays at least as much of both coins |
| SplitLaws.AddThenRemoveNeverProfits | programs/amm/src/math.rs:191-334 | withdrawing the LP tokens a deposit minted returns no more of either coin than it took |
| SplitLaws.RemoveThenAddNeverProfits | programs/amm/src/math.rs:191-334 | depositing what a withdrawal paid mints no more LP tokens than were burned |
| PoolProgram.PoolProgram.DepositTermsFor | programs/amm/src/instructions/add_liquidity.rs:151-177 | the two deposit branches with their state checks: in any state it succeeds exactly when the branch's quote does and the state passes the checks; in a sound state the terms are what the pool asks of the offer and owes for it (`Steps.Owed`), and the checks reject nothing |
| PoolProgram.PoolProgram.SettleDeposit | programs/amm/src/instructions/add_liquidity.rs:184-280 | transfers, mints, reserve writes and post-checks; once the token calls go through, success is exactly the specified movement and exactly when the post-checks pass |
| PoolProgram.PoolProgram.AddLiquidity | programs/amm/src/instructions/add_liquidity.rs:119-294 | in any state whatever it succeeds exactly when the specification does and the checks around it pass, and the new state is then the specified one; in a sound state those checks reject nothing, the error is the specified one, and what was taken and issued is `Steps.DepositMade` |
| PoolProgram.PoolProgram.SettleWithdrawal | programs/amm/src/instructions/remove_liquidity.rs:169-228 | burn, two payouts, reserve writes and post-checks; once the token calls go through, success is exactly the specified movement and exactly when the post-checks pass |
| PoolProgram.PoolProgram.RemoveLiquidity | programs/amm/src/instructions/remove_liquidity.rs:119-242 | in any state: success exactly when the specification succeeds and the checks pass, exact new state; in a sound state the exact error, and what was burned and paid is `Steps.WithdrawalMade` |
| PoolProgram.PoolProgram.SettleSwap | programs/amm/src/instructions/swap.rs:148-217 | two transfers, product check, reserve writes by direction and post-check; success is exactly the specified movement |
| PoolProgram.PoolProgram.Swap | programs/amm/src/instructions/swap.rs:104-230 | in any state: success exactly when the specification succeeds and both solvency checks pass, exact new state; in a sound state the exact error, and what was taken and paid is `Steps.SwapMade`; the product check never rejects |
| PoolProgram.PoolProgram.ExecuteAll | programs/amm/src/instructions/mod.rs:17-47 | executing any history of transactions, rejected ones rolled back, from a sound state ends in exactly the state of the run, which is sound: every theorem about runs is about the program |
| Steps.AddEffect | programs/amm/src/instructions/add_liquidity.rs:151-263 | a successful deposit takes, into an empty pool, the whole offer for the root of its product with 1,000 locked, and otherwise the matched part of the offer for exactly its share - told by the new reserves and supplies, not by the quote - moves exactly that between the user and the pool, leaves a sound seeded pool, and in a seeded one keeps both sides' value per LP token |
| Steps.OwedIsUnique | programs/amm/src/instructions/add_liquidity.rs:151-177 | what the pool asks of an offer and owes for it is unique in every sound state, so `DepositMade` and `DepositExactly` leave a deposit no freedom |
| Steps.RemoveEffect | programs/amm/src/instructions/remove_liquidity.rs:146-212 | a successful withdrawal pays the user exactly the floored share of each reserve, burns exactly the LP given, leaves a sound seeded pool and keeps both sides' value per LP token |
| Steps.SwapEffect | programs/amm/src/instructions/swap.rs:126-207 | a successful swap adds exactly the input to its reserve and takes from the other the greatest output payable at the fee in parts of 10_000, in the right direction, leaves LP alone and the pool sound, keeps normalised value and with a fee strictly raises the product |
| Steps.ReservesUnderCap | README.md:96-106 | in every sound state each reserve is within its vault, the vault within the live supply, the supply within the cap; and the LP supply is within the cap too |
| World.InitialHasInv | programs/amm/src/instructions/initialize_pool.rs:183-200 | a freshly initialized pool on two fresh stablecoins is sound and empty |
| Runs.StepKeepsInv | README.md:92-112 | every step anyone can take keeps the state sound and the pool's identity; a seeded pool stays seeded and `k_new·L_old² ≥ k_old·L_new²` |
| Runs.ReachableStatesAreSound | README.md:105-112 | in every reachable state the pool is either entirely empty or has positive reserves, `MINIMUM_LIQUIDITY ≤ locked ≤ L`, `L² ≤ reserve_a·reserve_b` and a product of at least `MINIMUM_LIQUIDITY²`; vaults cover reserves, coins are sound, and LP supply equals the sum of LP balances |
| Runs.ValueNeverFallsOverARun | README.md:111-112 | between any seeded state and any state a run reaches from it, normalised value has not fallen |
| Runs.StepKeepsSides | programs/amm/src/math.rs:214-333 | any step but a swap leaves neither side worth less per LP token |
| Runs.SidesNeverFallWithoutSwaps | programs/amm/src/math.rs:214-333 | the same over any run without swaps |
| Seeding.EveryPoolCanBeSeeded | programs/amm/src/instructions/add_liquidity.rs:151-165 | from every initial state a concrete run reaches a seeded pool with any two amounts the caps and the minimum allow, so the statements about seeded states are not empty |
| Conservation.PoolOpMoves | programs/amm/src/instructions/add_liquidity.rs:184-263 | every pool instruction moves exactly the change of the reserves between its user and the vaults, and exactly the change of the LP supply to or from its user, apart from the first deposit's locked part |
| Conservation.PoolOpsConserveCoins | programs/amm/src/instructions/swap.rs:168-207 | a pool instruction keeps each coin's supply, the joint balance of user and vault, and every third account |
| Conservation.SurplusIsWhatWasDonated | README.md:120-122 | over any run, what a vault holds beyond its reserve changes by exactly what was sent or minted straight into it |
| NoProfit.RunBounded | programs/amm/src/instructions/swap.rs:126-207 | over any run, what a coalition's coins and the reserves hold together never rises on either side, the LP held by everyone else never falls, and normalised value never falls |
| NoProfit.GainsArePaidFor | programs/amm/src/instructions/swap.rs:126-207 | a coalition's gains over any run, each as a signed amount of either coin and of LP, are bounded by the pool's starting value: `(ra − gainA)·(rb − gainB)·L² ≥ ra·rb·(L + gainLp)²` with all three factors positive |
| NoProfit.NoProfitOverAnyRun | programs/amm/src/instructions/swap.rs:126-207 | no set of accounts that receives nothing from outside and ends with at least its starting LP can, by any mix of deposits, withdrawals, swaps, burns and donations, hold at least as much of both coins and more of one; others may act too |
| Liveness.ExitGuarantee | programs/amm/src/instructions/remove_liquidity.rs:139-208 | in every reachable state, with thawed accounts and unpaused coins, a holder redeems any part of their LP balance exactly when both payouts reach one unit and their minimums; the only possible errors are a zero output and slippage |
| Liveness.WithdrawalExactly | programs/amm/src/instructions/remove_liquidity.rs:119-228 | from any sound state, for all inputs: a withdrawal succeeds if and only if the user can move coins on both sides, holds the LP given, and each floored payout reaches one unit and its minimum |
| Liveness.SwapExactly | programs/amm/src/instructions/swap.rs:104-217 | from any sound state, for all inputs: a swap succeeds if and only if the pool is seeded, the user can move coins on both sides and holds the input, and the asked-for output, at least one unit, is payable at the fee in parts of 10_000 |
| Liveness.DepositExactly | programs/amm/src/instructions/add_liquidity.rs:119-280 | from any sound state, for all inputs: a deposit succeeds if and only if the user can move coins on both sides and has an LP account, the offer is within the cap, and the user holds what the pool asks of it - not the whole offer - on terms that meet the minimums |
| Liveness.SwapGuarantee | programs/amm/src/instructions/swap.rs:110-217 | in every reachable seeded state a ready user swaps any part of their balance exactly when the output reaches one unit and their minimum, at any fee |
| Liveness.DepositGuarantee | programs/amm/src/instructions/add_liquidity.rs:127-280 | in every reachable state a ready user's deposit of funds they hold succeeds exactly when it earns LP (or, into an empty pool, reaches the minimum) and its terms - what the pool asks and owes for the offer - meet the minimums; otherwise the error says which |
| Liveness.NothingMovesWhilePaused | README.md:101-102 | while a coin is paused no step changes any of its balances or the pool record |
| Liveness.ReservesMoveOnlyForAllowedUsers | programs/amm/src/instructions/mod.rs:17-33 | the pool record changes only through a pool instruction whose user has an allowed policy and thawed, unpaused accounts on both sides |
| Refusals.BlockedOrPausedIsRefused | programs/amm/src/instructions/mod.rs:17-23 | all three instructions refuse a user without an allowed policy as such and, failing that, a paused coin as such |
| Refusals.DepositRefusalsAreTrue | programs/amm/src/instructions/add_liquidity.rs:119-280 | from a sound state every error a deposit reports is true of the state and the inputs, and no overflow, invariant or liquidity-state error is ever reported |
| Refusals.WithdrawalRefusalsAreTrue | programs/amm/src/instructions/remove_liquidity.rs:119-228 | the same for withdrawals; an invalid liquidity state is reported only for an empty pool |
| Refusals.SwapRefusalsAreTrue | programs/amm/src/instructions/swap.rs:104-217 | the same for swaps; missing liquidity is reported only for an empty pool |
| Issuance.FreshHasInv | programs/stablecoin/src/instructions/initialize_stablecoin.rs:184-198 | a freshly initialized stablecoin is sound |
| Issuance.CoinOpEffect | programs/stablecoin/src/instructions/mod.rs:25-39 | every operation on a coin, direct transfers and burns included, keeps `supply ≤ cap ≤ MAX_SUPPLY_CAP`, `total_burned + supply ≤ total_minted`, each minter within its allowance, the stored pause equal to the live one and every thawed account allowed, and changes the total over any set of accounts by exactly the stated amount |
| CoinEffects.MintExact | programs/stablecoin/src/instructions/mint_to.rs:56-115 | in a sound state minting succeeds if and only if the role is open with that much allowance left, the destination exists, is allowed and thawed, the coin is live, the amount is positive and cap and counter have room; the role, counter, supply and destination each grow by the amount and nothing else changes |
| CoinEffects.MintsAddUp | programs/stablecoin/src/instructions/mint_to.rs:68-115 | minting in two parts is minting the sum: after the first part the second is accepted exactly when the whole would have been, and the resulting coin is the same |
| CoinEffects.MintRefusalsAreTrue | programs/stablecoin/src/instructions/mint_to.rs:56-90 | a refused mint names a limit it would have broken; the counter invariant is never what it names |
| CoinEffects.BurnExact | programs/stablecoin/src/instructions/burn.rs:38-75 | in a sound state a burn succeeds if and only if the coin is live and the thawed account holds the positive amount; the burned counter cannot overflow; balance and supply fall and the counter grows by the amount, nothing else changes |
| CoinEffects.GrantExact | programs/stablecoin/src/instructions/grant_minter.rs:38-55 | a role is opened if and only if the admin asks, none is open, the key is real and the allowance positive; it starts with nothing minted and leaves every other role alone |
| CoinEffects.RevokeExact | programs/stablecoin/src/instructions/revoke_minter.rs:10-45 | a role is closed if and only if the admin asks and it is open; it is gone, and every other role is as before |
| CoinEffects.RevokedAndGrantedAgain | programs/stablecoin/src/instructions/revoke_minter.rs:26-34 | a revoked minter can mint nothing, and granting the role again starts from zero |
| CoinEffects.WalletPolicyExact | programs/stablecoin/src/instructions/set_wallet_policy.rs:57-113 | a policy is set if and only if the compliance authority asks and the account exists; the account is then frozen exactly when it is blocked, whatever it was before, and no balance, other account or other policy changes |
| CoinEffects.PolicyDecidesPayments | programs/stablecoin/src/instructions/set_wallet_policy.rs:64-94 | after a policy is set the account's transfers succeed exactly when it was set to Allowed and the coin is live, the recipient is open and thawed, and the account is funded |
| CoinEffects.PauseExact | programs/stablecoin/src/instructions/set_pause.rs:33-56 | in a sound state the pause is set if and only if the admin or the compliance authority asks and the live flag differs; both flags become what was asked and nothing else changes |
| CoinEffects.PauseIsUndone | programs/stablecoin/src/instructions/set_pause.rs:33-56 | a pause followed by its lifting, by either authority, leads back to exactly the coin before |
| CoinEffects.UpdateExact | programs/stablecoin/src/instructions/update_config.rs:29-84 | an update succeeds if and only if the admin names something and each named value is admissible (a cap from the live supply up to 10^15, a real authority, a real and new admin); exactly the named fields take the named values |
| CoinEffects.AcceptExact | programs/stablecoin/src/instructions/accept_admin.rs:21-35 | acceptance succeeds if and only if the nominated key signs; it becomes the admin, the nomination is used up and nothing else changes |
| CoinEffects.RotationCompletes | README.md:62-64 | any real key the admin nominates becomes the admin by accepting, and the old admin can then configure nothing |
| CoinEffects.DirectTransferExact | README.md:99-103 | an owner's own transfer succeeds if and only if both accounts are thawed, the coin is live and the sender is funded; it moves the amount and nothing else |
| CoinEffects.DirectBurnExact | programs/stablecoin/src/instructions/mod.rs:25-28 | an owner's own burn succeeds if and only if the account is thawed, the coin live and the amount held; no counter sees it |
| CoinEffects.AccountsExact | programs/stablecoin/src/instructions/initialize_stablecoin.rs:123-131 | a new account is empty and frozen, and only an empty account closes |
| Issuer.Issuer.MintTo | programs/stablecoin/src/instructions/mint_to.rs:56-127 | in any state it succeeds exactly when the specification does and the counters are tracked; in a sound state it succeeds if and only if allowance, cap, counter, policy, freeze and pause all permit, and role, counter, supply and destination grow by exactly the amount |
| Issuer.Issuer.Burn | programs/stablecoin/src/instructions/burn.rs:38-86 | in any state it succeeds exactly when the specification does and the counters are tracked; in a sound state it succeeds if and only if the thawed account of a live coin holds the positive amount; balance and supply fall and the counter grows by exactly that |
| Issuer.Issuer.SetWalletPolicy | programs/stablecoin/src/instructions/set_wallet_policy.rs:57-125 | succeeds if and only if the compliance authority asks and the account exists; the account ends frozen exactly when the status is Blocked, whatever it was before, its policy is the status, and no other account's freeze, no other policy and no balance changes |
| Issuer.Issuer.SetPause | programs/stablecoin/src/instructions/set_pause.rs:33-65 | on success stored and live flags are both what was asked; in a sound state it succeeds if and only if an authority asks and the live flag differs; where the flags disagree it never succeeds |
| Issuer.Issuer.UpdateConfig | programs/stablecoin/src/instructions/update_config.rs:29-84 | succeeds exactly when the specification does and, for a cap, the counters are tracked; each field named ends with the value given, a cap never below the live supply |
| Issuer.Issuer.GrantMinter | programs/stablecoin/src/instructions/grant_minter.rs:38-64 | succeeds if and only if the admin grants a positive allowance to a real key with no open role; opens exactly that role with nothing minted |
| Issuer.Issuer.RevokeMinter | programs/stablecoin/src/instructions/revoke_minter.rs:26-45 | succeeds if and only if the admin names an open role; removes exactly that role |
| Issuer.Issuer.AcceptAdmin | programs/stablecoin/src/instructions/accept_admin.rs:21-35 | succeeds if and only if the caller is the nominated key, which becomes the admin and uses up the nomination |
| Issuer.Issuer.Execute | programs/stablecoin/src/instructions/mod.rs:25-39 | any operation as a transaction: the specified step on success, no trace on failure |
| IssuanceRuns.UntrackedIsBurnedOutside | programs/stablecoin/src/instructions/burn.rs:42-75 | over any run `total_minted − total_burned − supply` grows by exactly what owners burned outside the program |
| IssuanceRuns.MintedIsWhatRolesMinted | programs/stablecoin/src/instructions/mint_to.rs:64-115 | over any run `total_minted` grows by exactly what the roles minted, revoked ones included, and the roles' allowances by what was granted |
| IssuanceRuns.IssuanceIsAccountedFor | programs/stablecoin/src/instructions/mint_to.rs:64-115 | from initialization: `total_minted` is the sum of `minted` over all roles ever opened and at most all allowances granted, the untracked gap is exactly what was burned outside, and `supply ≤ supply_cap ≤ MAX_SUPPLY_CAP` |
| IssuanceRuns.PolicyAgreesUnlessReopened | README.md:103 | over every run from initialization, an account's policy and frozen state agree if and only if it is not an Allowed account closed and reopened since its policy was set; an account with no policy is always frozen |
| IssuanceRuns.PolicyCanDisagree | README.md:103 | the unconditional claim is false: after allow, close and reopen, an account is frozen under an Allowed policy |
| Authority.OnlyMintersIssue | programs/stablecoin/src/instructions/mint_to.rs:56-105 | supply rises only by a minter's mint within its remaining allowance and the cap, to an allowed, thawed account of an unpaused coin |
| Authority.RotationTakesTwoSteps | README.md:62-64 | the admin changes only to the nominated key and by its own signature; only the admin nominates, never itself or the default key |
| Authority.OnlyAuthoritiesConfigure | programs/stablecoin/src/instructions/update_config.rs:29-74 | each configuration field, role set, pause and policy changes only by its own instruction and signer, and a new cap is never below the live supply |
| Authority.OnlyComplianceThaws | programs/stablecoin/src/instructions/set_wallet_policy.rs:57-96 | an account that was missing or frozen and can move after a step was allowed in that step by the compliance authority |
| Authority.AuthoritiesStayProper | programs/stablecoin/src/instructions/update_config.rs:51-72 | over any run no authority becomes the default key |
| Controls.EveryCoinCanBePaused | programs/stablecoin/src/instructions/set_pause.rs:33-56 | in every reachable state a live coin can be paused by either authority, reaching a paused state, and either can resume it, which leads back to the very state before |
| Controls.HeldBalanceStays | programs/stablecoin/src/instructions/set_wallet_policy.rs:57-113 | over any run from a sound state, the balance of a frozen or missing account does not change, by anyone or by closing and reopening, until the compliance authority allows it |
| Controls.BlockedBalanceStays | programs/stablecoin/src/instructions/set_wallet_policy.rs:57-113 | blocking an existing account in any reachable state fixes its balance over every run that does not allow it again |
| Controls.LpMovesFreely | README.md:107-110 | outside the pool LP tokens move and burn exactly at their holder's will, up to what is held, never the locked ones, touching only the balances named and the supply |
| Token.TransferEffect | programs/amm/src/instructions/swap.rs:168-194 | a transfer changes the total over any set of accounts by exactly what entered and left it, and supply stays the sum of balances |
| Token.FundedTransferSucceeds | programs/amm/src/instructions/swap.rs:168-194 | between thawed accounts of an unpaused sound token a transfer succeeds exactly when it is funded |
| Token.Ledger.TransferChecked | programs/amm/src/instructions/add_liquidity.rs:205-230 | the mutable ledger makes exactly the specified transfer or changes nothing |

## Left out

- Program-derived addresses, bumps, rent, allocation and pre-funded accounts.
- The account constraints and `ensure_children` / `ensure_locked_account` in detail: which
  field of a wrong account is wrong, and in which order the constraints are tried.
- Who owns which token account. A direct transfer or burn may debit any account that is not the
  pool's, which covers more histories than the owners' signatures allow.
- Token-2022's internal errors and their order: a rejected token call is `TokenRejected`.
- The initialization handlers as code. `World.Initial` and `Issuance.Fresh` state what they
  leave behind: zero reserves and counters, a fee of at most 100 basis points, a cap within the
  protocol's, no role, no policy, every existing account empty and frozen. The pool's own
  existence before its coins issue anything is part of this start.
- Delegates, close authorities, memo and other Token-2022 extensions that the programs do not use.
- The owner, timestamp and author recorded in a wallet policy.
- Events, error numbers, metadata, and name, symbol and URI validation.
- The client's slippage helper, RPC calls, key loading and printing.
- The 128-bit counter `total_minted` can in principle be exhausted; its overflow error is kept
  in the specification as one that can occur. That of `total_burned` cannot (`CoinEffects.BurnExact`).
- SplitLaws.SplitDepositsNeverHelp: assumes that the combined deposit succeeds, because the
  totals offered may exceed the cap where the parts, each taking less than it offers, do not.
- IssuanceRuns.PolicyAgreesUnlessReopened: states the exact condition, because the
  unconditional claim is false once accounts can be closed.
- SwapLaws.LargerSwapPrice: allows one output unit of rounding, because the claim without it
  is false.
