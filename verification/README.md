# StellarPay: a verified model of the money market and the bridge

StellarPay lends on Stellar through a set of Soroban contracts and moves assets
in from other chains through a bridge service. This project models both.

**The money market.** `Rewards` is the staking contract, `LendingPool` one pool
market, `CollateralVault` one vault book, `Oracle` the price aggregation over
`Medians`, and `Protocol` puts a pool market and a vault book per asset together
with the controller and the liquidation engine. A contract is a class whose
fields are its storage keys; each entry point is proved equal to a function from
storage to new storage or a panic, and the `...Runs` modules prove what those
functions keep over arbitrary interleavings of calls by arbitrary users. The
`...Effects` modules say of each call, in numbers, who pays whom, what else
moves and exactly when it is refused. A panic undoes the call; leaving 128 bits
is a panic; `Token` refuses overdrafts; the ledger sequence is an explicit
clock. `RewardsPokes` compares a run of the staking contract with the same run
under extra view calls. `PoolShares` and `PoolRates` hold the share price and
the interest curve, `PoolWorth` what a holding of shares is worth over a run.
`ProtocolSafety` has the properties that need several contracts at once,
`ProtocolLedger` how long a fresh borrow stays safe, `ProtocolExample` and
`ProtocolIdle` runs of all contracts with a borrow and a liquidation. `Quorum`
is the controller's admin and bridge quorums.

**The bridge.** `BridgeChain` is the wrapped asset with `wrap` and `unwrap`.
`MintQueue` and `ReleaseQueue` are the two database queues over `Batches`, each
with an environment that loses answers, refuses, races and kills the worker
between any two writes; `MintOwners` says whose wrap a minted request stands for.
`Indexer` is the cursor-based ingestion with the same kind of crashes;
`Reconciliation` is the comparison of the two ledgers. `Host`, `Totals` and `Lists`
carry checked arithmetic, sums over storage maps and lists.

**What the code does where its documents say otherwise.** The model follows the
code.

- Interest grows linearly: accrual adds to the index an amount that does not
  depend on the index, where docs/rate-model.md compounds it.
- `borrow` writes `principal + amount` at the current index, so pending interest
  is dropped, where docs/invariants.md (L-3) and the rate model keep it
  (`PoolRuns.BorrowRestartsInterest`).
- `total_borrow` loses interest that is repaid and can fall below zero, where it
  then reads as full utilization (`PoolRuns.TotalBorrowMissesInterest`,
  `PoolRates.RepaidInterestMakesBorrowsNegative`).
- A pool withdrawal leaves the recorded total of shares as it is
  (`PoolShares.WithdrawalLowersThePrice`).
- Lenders are to "supply assets to earn interest" (README.md:98). No share is ever
  worth more than the unit the first suppliers paid for it, whatever interest is
  repaid (`PoolWorth.NoShareAbovePar`); a holding gains at most one unit per supply
  by anybody, from rounding (`PoolWorth.RoundTripGainsOnePerSupply`).
- The pool's own `supply_collateral` writes the share key without moving tokens, so
  what it posts can be withdrawn from other people's deposits
  (`PoolWorth.PostedCollateralTakesDeposits`).
- Liquidation is priced by the oracle and the controller has `repay` and
  `withdraw_collateral`, where README.md:466-479 predates both.
- The mint queue is described as replay-safe: a salt that was used is success. It
  is, exactly while the salt was used in the request's own name
  (`MintOwners.AnsweredSubmissionMintsItsOwnIff`). Callers choose salts, each source
  bridge rejects only its own used ones (contracts/lending/evm/Bridge.sol:203), and
  the controller has one namespace for all
  (contracts/lending/controller/src/lib.rs:956-967), so two requests can share a
  salt: the second reads as minted and was not
  (`MintOwners.SharedSaltLosesTheSecond`).
- A release is replay-safe exactly while its chain's guard is free or holds the
  row's own recipient and amount (`ReleaseRuns.AnsweredSubmissionPaysItsOwnIff`), if
  errors are told apart: one that names the pre-check method reads as a replay
  (`ReleaseRuns.FailedPrecheckReadsAsReleasedIff`). The nonce of an unwrap is that of
  its ledger, so two unwraps of one transaction are one row and one release
  (`ReleaseRuns.AllBurnedIsRecordedIff`); for the same reason no two rows share a
  payment (`ReleaseRuns.ReleasedRowsHaveTheirOwnPayment`).
- A dead letter is meant to keep the release queue from starving
  (services/payment/src/release/evmRelease.ts:178-179). Unwraps of a disabled chain
  wait without failing, and 25 of them keep all younger ones waiting
  (`ReleaseRuns.StarvesIffBatchIsIdle`).
- Bridge keys are taken to be distinct; the setters do not check it
  (`Quorum.ThresholdMeansKeysIffDistinct`).

Verify with `dafny verify dfyconfig.toml`.

## Model

| member | source | states |
|---|---|---|
| `Rewards.RewardsContract.UpdateReward` | contracts/rewards/soroban/src/lib.rs:371-414 | the accumulator, the clock and the early returns of one update, or no write at all when a product or sum leaves 128 bits |
| `Rewards.RewardsContract.NotifyReward` | contracts/rewards/soroban/src/lib.rs:89-123 | pool, rate and clock after a notice, every panic leaving storage as it was |
| `Rewards.RewardsContract.Stake` | contracts/rewards/soroban/src/lib.rs:126-180 | settlement at the old stake before the new stake is stored; panics write nothing |
| `Rewards.RewardsContract.Unstake` | contracts/rewards/soroban/src/lib.rs:183-236 | settlement, refusal of more than the stake, and the lowered totals; panics write nothing |
| `Rewards.RewardsContract.Claim` | contracts/rewards/soroban/src/lib.rs:239-299 | pays accrued plus pending and resets them, pays 0 without touching the snapshot when nothing is owed, and refuses when the pool is short |
| `Rewards.RewardsContract.Earned` | contracts/rewards/soroban/src/lib.rs:302-334 | the answer of the view and the update it stores |
| `RewardsEffects.UpdateSpreadsTheRate` | contracts/rewards/soroban/src/lib.rs:371-414 | an update with somebody staked and time passed adds to the index the elapsed ledgers' emission per staked unit, rounded down; every other update leaves it, and nothing but index and clock ever moves |
| `RewardsEffects.UpdateSucceedsIff` | contracts/rewards/soroban/src/lib.rs:401-406 | an update fails exactly when the emission or the new index leaves 128 bits |
| `RewardsEffects.NotifyEffects` | contracts/rewards/soroban/src/lib.rs:89-123 | the pool rises by the amount and the rate spreads it over a week, rounded down; no stake or accrual moves |
| `RewardsEffects.StakeEffects` | contracts/rewards/soroban/src/lib.rs:126-180 | the user is credited what the old stake earned, rounded down, and only then are stake and total raised; nobody else's keys move |
| `RewardsEffects.UnstakeEffects` | contracts/rewards/soroban/src/lib.rs:183-236 | the same with stake and total lowered, never below what was staked |
| `RewardsEffects.ClaimEffects` | contracts/rewards/soroban/src/lib.rs:239-299 | the claim pays accrued plus earned out of the pool and leaves nothing accrued; stakes stay |
| `RewardsEffects.EarnedEffects` | contracts/rewards/soroban/src/lib.rs:302-334 | the view answers accrued plus earned and stores the update alone |
| `RewardsEffects.CallIsRefusedIff` | contracts/rewards/soroban/src/lib.rs:89-414 | in every reachable state each call goes through or panics for exactly the stated reason, in numbers |
| `RewardsRuns.StepKeepsInv` | contracts/rewards/soroban/src/lib.rs:89-414 | every call keeps the books, the per-user entitlement bounds and the funding bound |
| `RewardsRuns.RewardConservation` | contracts/rewards/soroban/src/lib.rs:126-299 | in every run, everything paid and owed fits in the emission due by the auditor's own clock; total staked is the sum of stakes; the pool is notices less claims |
| `RewardsRuns.LazyRefinesEager` | contracts/rewards/soroban/src/lib.rs:136-161 | no user is ever ahead of a model that pays every staker at every update, and each is behind by less than one unit per own settlement; the eager model itself loses at most the total stake per update |
| `RewardsRuns.NoClaimFindsThePoolShort` | contracts/rewards/soroban/src/lib.rs:270-278 | no claim in any run panics for a short pool while the emission charged, counting the claim's own update, is within the notices |
| `RewardsRuns.ClaimsWithinTheWeekArePaid` | contracts/rewards/soroban/src/lib.rs:111-118 | which holds while no notified rate was charged beyond its week |
| `RewardsRuns.EmissionBeyondNoticesCannotBePaid` | contracts/rewards/soroban/src/lib.rs:270-278 | the converse up to fractions: once emission exceeds the notices by more than the dropped fractions, the pool is smaller than what its users are owed together |
| `RewardsRuns.RateOutlivesItsFunding` | contracts/rewards/soroban/src/lib.rs:107-118 | the week is exact: for a lone staker the claim fails for want of funds if and only if more ledgers than the window have passed |
| `RewardsPokes.ExtraQueriesNeverPayMore` | contracts/rewards/soroban/src/lib.rs:302-334 | for every run and any extra `earned` calls put in anywhere by anybody: the run's own calls still succeed except exactly where a number leaves 128 bits, which cannot happen while the plain run's emission and notices fit; nobody is paid more and the pool holds no less |
| `RewardsPokes.PaddedStaysBehind` | contracts/rewards/soroban/src/lib.rs:302-334 | the simulation behind it: in the padded run nobody's payments are higher, nor their payments and claims together at the same clock |
| `RewardsPokes.RepresentableIffSucceeds` | contracts/rewards/soroban/src/lib.rs:371-414 | a call that succeeds in the plain run succeeds in the padded one if and only if the pool, the scaled pending amount and the settled amount fit 128 bits |
| `RewardsPokes.ExtraQueryCanBlockANotice` | contracts/rewards/soroban/src/lib.rs:94-103 | where the two runs part: with the pool filled to the last unit, an extra call floors away a claim that had made room for one more notice |
| `RewardsPokes.ExtraUpdatesCostLittle` | contracts/rewards/soroban/src/lib.rs:302-303 | a block of extra calls before a claim lowers it by less than one unit plus one index step of the stake per call, and the claim still succeeds |
| `RewardsPokes.EarnedIsWhatClaimPays` | contracts/rewards/soroban/src/lib.rs:302-334 | the view answers exactly the claim of the same ledger |
| `Token.TransferConserves` | contracts/lending/soroban/src/lib.rs:206-213 | a token transfer moves exactly the amount from payer to payee, touches nobody else, keeps the sum and overdraws nobody |
| `Token.TransferSucceedsIff` | contracts/lending/soroban/src/lib.rs:206-213 | it succeeds exactly within the payer's balance |
| `LendingPool.LendingPoolContract.AccrueInterest` | contracts/lending/soroban/src/lib.rs:600-638 | index and clock after accrual; neither moves without borrows or without elapsed ledgers |
| `LendingPool.LendingPoolContract.Supply` | contracts/lending/soroban/src/lib.rs:199-244 | tokens, shares and totals after a supply at the virtual-offset price, or nothing on a panic |
| `LendingPool.LendingPoolContract.Withdraw` | contracts/lending/soroban/src/lib.rs:246-284 | tokens, shares and deposits after a withdrawal, with the recorded total of shares left as it is, or nothing on a panic |
| `LendingPool.LendingPoolContract.PostCollateral` | contracts/lending/soroban/src/lib.rs:290-312 | the collateral call writes the share key |
| `LendingPool.LendingPoolContract.TakeCollateral` | contracts/lending/soroban/src/lib.rs:315-336 | the collateral call lowers the share key, refusing more than is there |
| `LendingPool.LendingPoolContract.Borrow` | contracts/lending/soroban/src/lib.rs:491-539 | the health check, the payout and the snapshot written at the current index, or nothing on a panic |
| `LendingPool.LendingPoolContract.Repay` | contracts/lending/soroban/src/lib.rs:541-598 | the capped repayment, the rewritten snapshot and total_borrow, or nothing on a panic |
| `LendingPool.Utilization` | contracts/lending/soroban/src/lib.rs:471-475 | utilization never exceeds 10 000 basis points, with the 64-bit casts as written |
| `PoolEffects.NewMarketStartsNow` | contracts/lending/soroban/src/lib.rs:114-157 | a new market owes nothing, and interest counts from the ledger it was added in |
| `PoolEffects.AccrualEffects` | contracts/lending/soroban/src/lib.rs:600-638 | accrual does nothing without borrows or elapsed ledgers; otherwise the clock is current and the index gains five seconds of the yearly rate per ledger, rounded down |
| `PoolEffects.AccrualSucceedsIff` | contracts/lending/soroban/src/lib.rs:618-636 | with a rate to charge it fails exactly for a number beyond 128 bits |
| `PoolEffects.SupplyEffects` | contracts/lending/soroban/src/lib.rs:199-244 | the supplier pays the pool the amount and gets the floored shares; no other wallet, share or loan moves |
| `PoolEffects.WithdrawEffects` | contracts/lending/soroban/src/lib.rs:246-284 | the pool pays the holder the floored redemption; no other wallet, share or loan moves |
| `PoolEffects.BorrowEffects` | contracts/lending/soroban/src/lib.rs:491-539 | the pool pays the borrower, whose loan is the old principal and the amount at the current index; nothing else moves |
| `PoolEffects.RepayEffects` | contracts/lending/soroban/src/lib.rs:541-598 | the payer, who need not be the borrower, pays the pool exactly what is repaid: the amount or all that is owed; no other wallet or loan moves |
| `PoolEffects.CollateralEffects` | contracts/lending/soroban/src/lib.rs:290-336 | the pool's collateral calls write one share key, and when they refuse |
| `PoolEffects.SupplyRefusedIff` | contracts/lending/soroban/src/lib.rs:199-244 | a supply is refused exactly for its amount, the supplier's wallet or 128 bits |
| `PoolEffects.WithdrawRefusedIff` | contracts/lending/soroban/src/lib.rs:246-284 | a withdrawal is refused exactly for its amount, the holder's shares, the pool's cash or 128 bits |
| `PoolEffects.BorrowRefusedIff` | contracts/lending/soroban/src/lib.rs:491-539 | a borrow is refused exactly for its amount, shares below the debt with it, the pool's cash or 128 bits |
| `PoolEffects.RepayRefusedIff` | contracts/lending/soroban/src/lib.rs:541-598 | a repayment is refused exactly for its amount, the payer's wallet or 128 bits |
| `PoolRuns.AccrualOnlyRaisesIndex` | contracts/lending/soroban/src/lib.rs:600-638 | accrual raises index and clock and changes nothing else, total_borrow included |
| `PoolRuns.StepKeepsInv` | contracts/lending/soroban/src/lib.rs:199-598 | every call, donation and wait keeps books, snapshots and the principal accounting, and conserves tokens |
| `PoolRuns.BooksBalance` | contracts/lending/soroban/src/lib.rs:207-241 | in every run the pool holds deposits less borrows plus donations, so without donations borrows never exceed deposits |
| `PoolRuns.TotalBorrowMissesInterest` | contracts/lending/soroban/src/lib.rs:592-596 | total_borrow is the sum of principals less all interest capitalised by repayments, and equals it if and only if there was none |
| `PoolRuns.IndexNeverFalls` | contracts/lending/soroban/src/lib.rs:600-638 | the borrow index never falls in any run |
| `PoolRuns.DebtSafety` | contracts/lending/soroban/src/lib.rs:413-427 | in every run each snapshot lies between the initial and the current index and no debt is below its principal |
| `PoolRuns.DebtIsGrownPrincipal` | contracts/lending/soroban/src/lib.rs:413-427 | a debt is the principal grown by the index since its snapshot, rounded down by less than one unit |
| `PoolRuns.DebtFallsOnlyByTouching` | contracts/lending/soroban/src/lib.rs:413-427 | a debt falls only by a repayment of it or a new borrow of its owner |
| `PoolRuns.RepayLeavesTheRest` | contracts/lending/soroban/src/lib.rs:541-598 | a repayment takes min(amount, owed), brings that much cash, and leaves exactly the rest |
| `PoolRuns.BorrowRestartsInterest` | contracts/lending/soroban/src/lib.rs:515-532 | a borrow drops the interest pending on the old loan: the debt rises by the amount exactly when none was pending; a checked borrow ends covered by the shares |
| `PoolShares.SupplyStaysBacked` | contracts/lending/soroban/src/lib.rs:215-241 | minting at the floored price keeps all outstanding shares redeemable together |
| `PoolShares.WithdrawStaysBacked` | contracts/lending/soroban/src/lib.rs:254-283 | a redemption never exceeds the deposits and keeps the rest redeemable together |
| `PoolShares.MintFloors` | contracts/lending/soroban/src/lib.rs:218-228 | minted shares are the deposit at the virtual-offset price, rounded down by less than one share |
| `PoolShares.RedemptionFloors` | contracts/lending/soroban/src/lib.rs:262-269 | a redemption is the shares at the virtual-offset price, rounded down by less than one unit |
| `PoolShares.ShareSolvency` | contracts/lending/soroban/src/lib.rs:199-284 | in every run without the pool's collateral calls outstanding shares stay within the recorded total and redeemable together, and deposits never go negative |
| `PoolShares.RedemptionNeedsOnlyCash` | contracts/lending/soroban/src/lib.rs:246-284 | in a reachable state a holder is refused only by arithmetic limits or for cash, and for cash exactly when the redemption exceeds what is not lent out |
| `PoolShares.WithdrawalLowersThePrice` | contracts/lending/soroban/src/lib.rs:262-282 | a withdrawal lowers the price of all other shares, strictly if and only if the shares withdrawn are worth a whole unit |
| `PoolShares.SecondToLeaveLoses` | contracts/lending/soroban/src/lib.rs:254-283 | two depositors of any equal amount n, in a run from the start: the first to leave gets everything, the second n (n + V) / (2n + V), which is less |
| `PoolWorth.NoShareAbovePar` | contracts/lending/soroban/src/lib.rs:215-269 | in every run without the pool's collateral calls deposits stay within the recorded total of shares, so no redemption by anybody pays more than one unit a share |
| `PoolWorth.WorthRisesByAtMostOnePerSupply` | contracts/lending/soroban/src/lib.rs:199-284 | what any holding would redeem for rises over a run by at most one unit for each supply by anybody, and by nothing else |
| `PoolWorth.RoundTripGainsOnePerSupply` | contracts/lending/soroban/src/lib.rs:199-284 | in every run, supplying and later withdrawing the minted shares returns at most what was put in plus one unit for each supply by anybody in between |
| `PoolWorth.RoundTripNeverProfits` | contracts/lending/soroban/src/lib.rs:199-284 | in particular never more than was put in when nobody supplies in between, with any withdrawals, loans, repayments, donations and waiting |
| `PoolWorth.RoundTripCanGain` | contracts/lending/soroban/src/lib.rs:215-228 | such a gain is reached: after a depositor has come and left, a million units and five later supplies of one unit redeem for a million and one |
| `PoolWorth.SharesWithinTotalIff` | contracts/lending/soroban/src/lib.rs:199-336 | in every run, the collateral calls included, outstanding shares are the recorded total plus what was posted less what withdrawals burned; they stay within the total if and only if no more was posted than burned |
| `PoolWorth.PostedCollateralTakesDeposits` | contracts/lending/soroban/src/lib.rs:290-336 | after a deposit of n by somebody else, p shares posted without a token are withdrawn as p tokens if and only if p is at most n, as long as the products fit 128 bits; the depositor's shares stay and the tokens are gone |
| `PoolRates.RateCurveRises` | contracts/lending/soroban/src/lib.rs:476-483 | the rate curve is bounded by base and base + slope1 + slope2 and rises with utilization, also across the kink |
| `PoolRates.CurveEndpoints` | contracts/lending/soroban/src/lib.rs:476-483 | base when idle, base + slope1 at the kink, slope2 more at full use |
| `PoolRates.RateIsInterpolated` | contracts/lending/soroban/src/lib.rs:476-483 | between them the rate lies on the two lines, each rounded down |
| `PoolRates.BorrowRateIsTheCurve` | contracts/lending/soroban/src/lib.rs:467-484 | a market's rate is the curve at the floored borrowed share of its deposits |
| `PoolRates.UtilizationMonotone` | contracts/lending/soroban/src/lib.rs:471-475 | utilization rises with borrows and falls with deposits |
| `PoolRates.BorrowRateSound` | contracts/lending/soroban/src/lib.rs:467-484 | the borrow rate is bounded, rises in borrows and falls in deposits |
| `PoolRates.EmptyMarketReadsIdle` | contracts/lending/soroban/src/lib.rs:471-473 | a market without deposits has the base rate whatever is borrowed |
| `PoolRates.NegativeBorrowsReadAsFull` | contracts/lending/soroban/src/lib.rs:474 | a negative total_borrow is cast to a huge number and reads as full utilization |
| `PoolRates.RepaidInterestMakesBorrowsNegative` | contracts/lending/soroban/src/lib.rs:592-596 | such a total is reached: a deposit of any size lent for a year at 100% and repaid in full leaves total_borrow at minus the deposit |
| `PoolRates.SecondBorrowDropsInterest` | contracts/lending/soroban/src/lib.rs:515-532 | a borrow that drops interest is reached: a loan of any size n, doubled by a year at 100%, still stands at 2n after n more is borrowed |
| `PoolRates.AccrualPathIndependent` | contracts/lending/soroban/src/lib.rs:600-638 | k extra accruals leave the index at most k below a single accrual and never above |
| `PoolRates.InterestFollowsTheRate` | contracts/lending/soroban/src/lib.rs:618-636 | an accrual adds five seconds of the yearly rate per ledger to the index, rounded down by less than one in all |
| `PoolRates.FirstBorrowerPaysIdleTime` | contracts/lending/soroban/src/lib.rs:601-604 | an idle market keeps its clock, so the accrual after its first borrow charges the idle ledgers, even in the same ledger |
| `CollateralVault.CollateralVaultContract.Deposit` | contracts/collateral/soroban/src/lib.rs:81-112 | position, total and tokens after a deposit, or nothing on a panic |
| `CollateralVault.CollateralVaultContract.Withdraw` | contracts/collateral/soroban/src/lib.rs:115-148 | position, total and tokens after a withdrawal, or nothing on a panic |
| `CollateralVault.CollateralVaultContract.Seize` | contracts/collateral/soroban/src/lib.rs:151-184 | positions and tokens after a seizure, also when owner and recipient coincide, or nothing on a panic |
| `CollateralVault.DepositEffects` | contracts/collateral/soroban/src/lib.rs:81-112 | the depositor pays the vault and only their position rises; when it is refused, and why |
| `CollateralVault.WithdrawEffects` | contracts/collateral/soroban/src/lib.rs:115-148 | the vault pays the owner and only their position falls; when it is refused, and why |
| `CollateralVault.SeizeEffects` | contracts/collateral/soroban/src/lib.rs:151-184 | the vault pays the recipient, and no other wallet moves; when it is refused, and why |
| `CollateralVault.SeizureMovesPositions` | contracts/collateral/soroban/src/lib.rs:151-184 | a seizure moves exactly the amount between positions, whoever they belong to, and leaves the total alone |
| `CollateralVault.PositionsAddUpCustodyDoesNot` | contracts/collateral/soroban/src/lib.rs:81-184 | in every run positions add up to the total and are not negative; the tokens held are the total less everything seized, so they cover all positions if and only if no more was seized than donated |
| `CollateralVault.SeizedPositionCannotBeWithdrawn` | contracts/collateral/soroban/src/lib.rs:151-184 | a vault whose only deposit was seized holds nothing for the position the seizure credited: its withdrawal fails |
| `Medians.LowerMedianIsUnique` | contracts/oracle/soroban/src/lib.rs:361-373 | the counting property of the lower median has one solution |
| `Medians.HonestMajorityBoundsMedian` | contracts/oracle/soroban/src/lib.rs:371-373 | with at most (n-1)/2 arbitrary reports the median stays in the range of the others |
| `Medians.BoundIsTight` | contracts/oracle/soroban/src/lib.rs:371-373 | that bound is exact, for every number of honest and arbitrary reports |
| `Medians.MedianIsMonotone` | contracts/oracle/soroban/src/lib.rs:371-373 | raising any one report never lowers the median |
| `Oracle.SortPrices` | contracts/oracle/soroban/src/lib.rs:361-369 | the exchange sort yields a sorted permutation in place |
| `Oracle.OracleContract.Collect` | contracts/oracle/soroban/src/lib.rs:329-355 | the array is filled with exactly the fresh positive reports, and more than sixteen do not fit |
| `Oracle.OracleContract.ReadPrice` | contracts/oracle/soroban/src/lib.rs:189-201 | fill, sort and middle element give the specified price, which is answered exactly with enough reports, and otherwise the named panic |
| `Oracle.OracleContract.SetPrice` | contracts/oracle/soroban/src/lib.rs:121-151 | only whitelisted publishers store positive prices, with the ledger of the report |
| `Oracle.OracleContract.AddPublisher` | contracts/oracle/soroban/src/lib.rs:79-86 | one more entry of the publisher; a list that was the whitelist, each publisher once, stays so if and only if the publisher was not on it |
| `Oracle.OracleContract.RemovePublisher` | contracts/oracle/soroban/src/lib.rs:288-320 | the search loop with swap-remove of the first entry; the publisher leaves the whitelist, and a list that was the whitelist stays so |
| `Oracle.Report` | contracts/oracle/soroban/src/lib.rs:339-353 | a report counts, at its stored price, if and only if that price is positive and not older than the time to live |
| `Oracle.Reports` | contracts/oracle/soroban/src/lib.rs:334-355 | only positive reports are aggregated, at most one per list entry |
| `Oracle.GetPrice` | contracts/oracle/soroban/src/lib.rs:189-201 | a price that is answered is positive |
| `Oracle.PriceIsAnsweredIff` | contracts/oracle/soroban/src/lib.rs:323-361 | a price is answered if and only if the asset is configured and the fresh positive reports are at least one, at least the minimum and at most sixteen; the panic of each other case |
| `Oracle.ReportsAreCounted` | contracts/oracle/soroban/src/lib.rs:334-355 | a positive value is aggregated exactly as often as list entries report it |
| `Oracle.ReportsAreFresh` | contracts/oracle/soroban/src/lib.rs:334-355 | a value is aggregated if and only if a listed publisher's fresh positive report has it |
| `Oracle.ReportLivesItsTtl` | contracts/oracle/soroban/src/lib.rs:339-353 | a published price counts until its age exceeds the time to live, and not a ledger longer |
| `Oracle.PriceIsTheLowerMedian` | contracts/oracle/soroban/src/lib.rs:371-373 | the price has at most (n-1)/2 aggregated reports below it and more than that at or below it |
| `Oracle.PriceWithinHonestRange` | contracts/oracle/soroban/src/lib.rs:323-374 | the price lies within the range of the honest reports while at most (n-1)/2 are arbitrary |
| `Oracle.SwapRemoveDropsOne` | contracts/oracle/soroban/src/lib.rs:288-320 | removal takes out exactly one entry of the publisher and nothing else |
| `Oracle.ListIsTheWhitelist` | contracts/oracle/soroban/src/lib.rs:274-320 | in every run that adds nobody twice, the list is the whitelist, each publisher once |
| `Oracle.AddKeepsDistinctIffNew` | contracts/oracle/soroban/src/lib.rs:274-286 | adding keeps that if and only if the publisher is new |
| `Oracle.RemovedTwinStillReports` | contracts/oracle/soroban/src/lib.rs:79-95 | added twice and removed once, a publisher is off the whitelist while their fresh report is still aggregated, and is the price where they are alone |
| `Protocol.MoneyMarket.SumDebts` | contracts/lending/controller/src/lib.rs:1053-1070 | the loop values every positive debt over the asset list, failing at the first that cannot be valued |
| `Protocol.MoneyMarket.CheckBorrow` | contracts/lending/controller/src/lib.rs:343-393 | the staged check of a borrow, first failure first; when it passes, the debt with the new amount is worth at most three quarters of the collateral with the new deposit |
| `Protocol.MoneyMarket.ControllerBorrow` | contracts/lending/controller/src/lib.rs:335-419 | test, vault deposit and pool borrow as one transaction: all or nothing |
| `Protocol.MoneyMarket.CheckWithdrawal` | contracts/lending/controller/src/lib.rs:491-532 | the LTV test of a withdrawal against the total debt, with every panic in order |
| `Protocol.MoneyMarket.ControllerWithdraw` | contracts/lending/controller/src/lib.rs:485-553 | test and vault withdrawal as one transaction: all or nothing |
| `Protocol.MoneyMarket.LiquidatePosition` | contracts/liquidation/soroban/src/lib.rs:90-223 | assessment, repayment and the two seizures as one transaction: all or nothing |
| `ProtocolEffects.ValueIsFloored` | contracts/oracle/soroban/src/lib.rs:250-257 | a value is the amount at the price, rounded down, and fails exactly for want of a price or for 128 bits |
| `ProtocolEffects.TotalDebtIsTheSum` | contracts/lending/controller/src/lib.rs:1053-1070 | the total debt is the sum of the values of the user's positive debts, each asset counted once |
| `ProtocolEffects.BorrowAllowedIff` | contracts/lending/controller/src/lib.rs:343-393 | with both sides valued the test passes if and only if debt with the amount is within collateral with the deposit at the capped LTV, and refuses for health otherwise |
| `ProtocolEffects.WithdrawAllowedIff` | contracts/lending/controller/src/lib.rs:491-532 | the same for what a withdrawal leaves against the total debt |
| `ProtocolEffects.UnhealthyIff` | contracts/liquidation/soroban/src/lib.rs:103-130 | the engine's health test, exactly |
| `ProtocolEffects.AssessedIff` | contracts/liquidation/soroban/src/lib.rs:132-189 | a position is refused as healthy, beyond the close factor or too small to seize from, in this order and exactly then |
| `ProtocolEffects.BorrowEffects` | contracts/lending/controller/src/lib.rs:335-419 | the user pays the collateral to the vault and is paid the loan by the pool, whichever assets coincide; only their position and loan move |
| `ProtocolEffects.WithdrawEffects` | contracts/lending/controller/src/lib.rs:485-553 | the vault pays the user, whose position alone falls |
| `ProtocolEffects.SupplyCollateralEffects` | contracts/lending/controller/src/lib.rs:276-319 | supplying collateral moves the tokens once, into the vault, and records them as a position and as pool shares |
| `ProtocolEffects.SupplyCollateralGoesThroughIff` | contracts/lending/controller/src/lib.rs:276-319 | it goes through exactly when the user's wallet has them and the records fit 128 bits |
| `ProtocolEffects.BorrowGoesThroughIff` | contracts/lending/controller/src/lib.rs:396-418 | once tested, a borrow goes through exactly with the collateral in the wallet, the cash in the pool and numbers within 128 bits |
| `ProtocolEffects.WithdrawGoesThroughIff` | contracts/lending/controller/src/lib.rs:534-552 | once tested, a withdrawal goes through exactly with the tokens in the vault |
| `ProtocolSafety.LiquidationGoesThroughIff` | contracts/liquidation/soroban/src/lib.rs:191-223 | once assessed, a liquidation goes through exactly when the liquidator can pay and the vault holds what is taken |
| `ProtocolRuns.SeizureFloors` | contracts/liquidation/soroban/src/lib.rs:149-179 | fee and liquidator's part make up what is taken; it is worth at most the repaid value with the bonus; the liquidator gets at least the repaid value |
| `ProtocolRuns.FeeIsTheBonusShare` | contracts/liquidation/soroban/src/lib.rs:149-175 | the total is the repaid value with the bonus and the fee its share of the bonus, each up to rounding |
| `ProtocolRuns.CoverageNotLowered` | contracts/liquidation/soroban/src/lib.rs:149-189 | taking at most the bonus-weighted repayment from a covered position does not lower collateral per debt |
| `ProtocolSafety.LiquidationWorsensUncovered` | contracts/liquidation/soroban/src/lib.rs:132-206 | the other direction up to the floors: every liquidation of a position short of the cover by more than the floors can cost lowers its collateral per debt |
| `ProtocolExample.UncoveredPositionCanWorsen` | contracts/liquidation/soroban/src/lib.rs:90-223 | a run from an empty deployment with a liquidation that goes through and leaves less collateral per debt |
| `ProtocolRuns.StepKeepsSystem` | contracts/lending/controller/src/lib.rs:276-553 | every call of every contract, price change and configuration change keeps the system invariant |
| `ProtocolRuns.SystemInvariant` | contracts/lending/controller/src/lib.rs:276-553 | in every run of the whole system, for every asset: positions add up, the pool holds deposits less borrows plus donations, snapshots are in range |
| `ProtocolSafety.HealthTestsAgree` | contracts/liquidation/soroban/src/lib.rs:115-130 | the controller's test and the engine's test are exact complements under floor division |
| `ProtocolSafety.ValueMonotone` | contracts/oracle/soroban/src/lib.rs:250-257 | a smaller amount is worth no more and can be valued whenever the larger can |
| `ProtocolSafety.BorrowIsNotLiquidatable` | contracts/lending/controller/src/lib.rs:335-419 | right after a controller borrow, at unchanged prices, nobody can liquidate that pair: the engine calls it healthy |
| `ProtocolSafety.BorrowSafeInEveryRun` | contracts/lending/controller/src/lib.rs:335-419 | the same in every reachable state of the whole system |
| `ProtocolLedger.BorrowSafeThroughTheLedger` | contracts/lending/controller/src/lib.rs:335-419 | it stays so through the ledger when the market was not idle or its clock was current: after any calls by anybody that leave prices alone and neither take from that collateral nor add to that debt, a liquidation of the pair is refused |
| `ProtocolLedger.BorrowedDesks` | contracts/lending/soroban/src/lib.rs:600-608 | which is exactly when the borrow leaves its market's clock at the current ledger |
| `ProtocolIdle.IdleBorrowIsLiquidatedInItsLedger` | contracts/lending/soroban/src/lib.rs:601-604 | otherwise it can fail: in a run from an empty deployment a borrow from a market idle for a year is healthy, one unit supplied in the same ledger charges it the year, and half of it is liquidated at unchanged prices |
| `Protocol.BorrowWithinThreeQuarters` | contracts/lending/controller/src/lib.rs:376-393 | a borrow is worth at most three quarters of the collateral, however high the asset's own limit |
| `ProtocolExample.AfterIsReached` | contracts/lending/controller/src/lib.rs:335-419 | deposits, a borrow and a fall in price lead from an empty deployment to the liquidated position |
| `ProtocolExample.BorrowGoesThrough` | contracts/lending/controller/src/lib.rs:335-419 | the borrow of that run passes every check and leaves the expected position and debt |
| `ProtocolExample.LiquidationGoesThrough` | contracts/liquidation/soroban/src/lib.rs:90-223 | the liquidation of that run goes through for the expected collateral and debt |
| `ProtocolSafety.TotalBoundsEach` | contracts/lending/controller/src/lib.rs:1053-1070 | no single debt's value exceeds the total of the loop |
| `ProtocolSafety.WithdrawalKeepsEveryDebtSafe` | contracts/lending/controller/src/lib.rs:485-553 | after a controller withdrawal no debt of the user can be liquidated against that collateral, as healthy whenever the debt asset has a price |
| `ProtocolSafety.WithdrawalSafeInEveryRun` | contracts/lending/controller/src/lib.rs:485-553 | the same in every reachable state of the whole system, as healthy whenever the debt asset has a price |
| `ProtocolSafety.SeizureIsBounded` | contracts/liquidation/soroban/src/lib.rs:132-189 | what a liquidation takes is within the balance, the bonus and the close factor, and pays the liquidator at least the repaid value |
| `ProtocolSafety.RepaymentIsTakenInFull` | contracts/liquidation/soroban/src/lib.rs:191-200 | the repayment inside a liquidation is taken in full although interest accrues between the check and it |
| `ProtocolSafety.LiquidationEffects` | contracts/liquidation/soroban/src/lib.rs:191-223 | the accrued debt falls by exactly the repayment, which the liquidator pays the pool; the collateral goes to liquidator and treasury, as positions and as tokens, and nowhere else; totals and other wallets stay, whoever coincides with whom |
| `ProtocolSafety.LiquidationKeepsCoverage` | contracts/liquidation/soroban/src/lib.rs:132-206 | a liquidation never lowers collateral per debt of a position still covered with the bonus |
| `Quorum.ControllerQuorums.constructor` | contracts/lending/controller/src/lib.rs:144-158 | one admin, threshold one |
| `Quorum.ControllerQuorums.RequireAdminMultisig` | contracts/lending/controller/src/lib.rs:802-838 | the nested loops answer as specified, first failure first |
| `Quorum.ControllerQuorums.ChangeAdmins` | contracts/lending/controller/src/lib.rs:684-744 | add, remove and set threshold after a passing quorum, or nothing; a removal takes out the named admin and nobody else |
| `Quorum.ControllerQuorums.RequireBridge` | contracts/lending/controller/src/lib.rs:887-913 | the attestation loop answers as specified, first failure first |
| `Quorum.MultisigExact` | contracts/lending/controller/src/lib.rs:802-838 | the check passes if and only if there are enough approvals, all distinct, all current admins, all signed |
| `Quorum.ApprovalFailsAtTheFirst` | contracts/lending/controller/src/lib.rs:812-837 | a failing check names what is wrong with the first bad approval |
| `Quorum.MultisigExhibitsQuorum` | contracts/lending/controller/src/lib.rs:802-838 | a passing check exhibits at least threshold distinct admins who signed |
| `Quorum.ChangeNeedsQuorum` | contracts/lending/controller/src/lib.rs:684-744 | every change was signed by a quorum of the admins in office and leaves distinct admins and a threshold in range |
| `Quorum.ChangeEffects` | contracts/lending/controller/src/lib.rs:684-744 | the named admin and nobody else comes, last, or goes, with the others in their order; or the threshold is the given one; nothing else changes |
| `Quorum.ChangeGoesThroughIff` | contracts/lending/controller/src/lib.rs:684-744 | a change goes through exactly with a passing quorum and an admissible admin or threshold, and the reason if not |
| `Quorum.GovernanceNeverLocksOut` | contracts/lending/controller/src/lib.rs:684-744 | in every run of admin changes the full admin list still passes the check |
| `Quorum.AttestedExact` | contracts/lending/controller/src/lib.rs:851-913 | the bridge check passes if and only if enough attestations have rising key indexes and valid signatures |
| `Quorum.AttestationFailsAtTheFirst` | contracts/lending/controller/src/lib.rs:895-907 | a failing check names what is wrong with the first bad attestation |
| `Quorum.AttestationExhibitsQuorum` | contracts/lending/controller/src/lib.rs:851-913 | a passing check exhibits at least threshold distinct key indexes with valid signatures |
| `Quorum.DistinctKeysAttest` | contracts/lending/controller/src/lib.rs:851-913 | which are as many distinct keys when no key is listed twice |
| `Quorum.ThresholdMeansKeysIffDistinct` | contracts/lending/controller/src/lib.rs:851-913 | for every key list and threshold: each passing check is signed by threshold distinct keys if and only if the keys are distinct, or the threshold is at most one or above the number of keys |
| `Quorum.RepeatedKeyShowsFewer` | contracts/lending/controller/src/lib.rs:664-680 | attestations through two indexes of one key show fewer keys than attestations |
| `BridgeChain.WrappedAsset.Mint` | contracts/treasury/soroban/src/lib.rs:118-147 | balance and supply after a mint, or nothing on a panic |
| `BridgeChain.WrappedAsset.Burn` | contracts/treasury/soroban/src/lib.rs:151-176 | balance and supply after a burn, or nothing on a panic |
| `BridgeChain.WrapKeepsChain` | contracts/lending/controller/src/lib.rs:180-224 | a wrap keeps supply = sum of balances = wraps less burns and uses its salt once |
| `BridgeChain.UnwrapKeepsChain` | contracts/lending/controller/src/lib.rs:227-262 | an unwrap keeps the same identity |
| `BridgeChain.WrapEffects` | contracts/lending/controller/src/lib.rs:180-224 | a wrap credits its recipient alone and uses its salt alone; refused exactly for a used salt, its amount or 128 bits |
| `BridgeChain.UnwrapEffects` | contracts/lending/controller/src/lib.rs:227-262 | an unwrap debits its caller alone; refused exactly for its amount, the balance or 128 bits |
| `MintQueue.MintService.Enqueue` | services/payment/src/mint/stellarMinter.ts:74-128 | one row per event: an existing request is never touched, a new one holds the event's request, pending exactly when it is valid; the chain does not move |
| `MintQueue.MintService.Mint` | services/payment/src/mint/stellarMinter.ts:274-299 | one submission: what reaches chain and database for each fate of the answer |
| `MintQueue.MintService.ProcessPending` | services/payment/src/mint/stellarMinter.ts:131-188 | one pass over the oldest pending requests, with its counters, up to any crash |
| `MintRuns.AttemptDecides` | services/payment/src/mint/stellarMinter.ts:145-188 | one attempt, exactly: when the wrap is submitted, when the row is minted, failed or one attempt older, and when the worker is gone |
| `MintRuns.LandedIff` | services/payment/src/mint/stellarMinter.ts:274-299 | an answer counts as landed exactly for a used salt or a wrap that goes through |
| `MintRuns.PassIsCounted` | services/payment/src/mint/stellarMinter.ts:131-188 | a finished pass counts every request of its batch, as minted exactly where it is minted now |
| `MintRuns.MintProtocolSafety` | services/payment/src/mint/stellarMinter.ts:131-188 | for every schedule: a minted row has its salt on the chain, terminal rows never change, each salt mints once, supply = balances = wraps less burns |
| `MintOwners.AnsweredSubmissionMintsItsOwnIff` | services/payment/src/mint/stellarMinter.ts:274-299 | in every reachable state an answered submission of a usable request ends as minted, and has a wrap of its own, of its recipient and amount, if and only if the salt was free or used by a submission of that request |
| `MintOwners.MintedRowsOwnTheirWrapsIff` | services/payment/src/mint/stellarMinter.ts:74-299 | in every run, with repeated salts, lost and late submissions and foreign wraps: each minted request has a wrap of its own if and only if no two of them share a salt and none of their salts was used by a foreign wrap or for a request that was not minted |
| `MintOwners.MintedIsWrappedIff` | services/payment/src/mint/stellarMinter.ts:286-294 | in totals: what was wrapped for minted requests themselves is within what they ask for, and all of it if and only if each has its own wrap; where no stranger took their salts, they ask for no less than was wrapped under these, and for exactly that if and only if no two share one |
| `MintOwners.MintedRowsMintedTheirOwn` | services/payment/src/mint/stellarMinter.ts:286-294 | in every run whose new requests bring salts of their own and whose foreign wraps use none of these, a minted request has a wrap of its own, of its recipient and amount; lost submissions may land later |
| `MintOwners.UsedSaltDecides` | services/payment/src/mint/stellarMinter.ts:274-299 | once a salt is used, whose it is never changes: whatever follows, the request has its own wrap if and only if it has it then |
| `MintOwners.StaysApartIff` | services/payment/src/mint/stellarMinter.ts:74-188 | passes, burns and late landings keep requests apart, and a new request or a foreign wrap does if and only if it comes apart itself |
| `MintOwners.SharedSaltLosesTheSecond` | services/payment/src/mint/stellarMinter.ts:286-294 | where it fails, from the empty queue: two requests with one salt, for any recipients and amounts, equal or not, both end as minted, only the first was, and another recipient has nothing |
| `MintRuns.RequestEndsWithinItsAttempts` | services/payment/src/mint/stellarMinter.ts:145-188 | in every run, with arrivals and crashes, a request is minted or failed once eleven finished passes have had it in their batch |
| `MintRuns.EveryRequestEnds` | services/payment/src/mint/stellarMinter.ts:131-188 | a request is minted or failed once as many passes have finished as attempts are left in it and in the requests before it, whatever is enqueued meanwhile |
| `MintRuns.FirstRequestStands` | services/payment/src/mint/stellarMinter.ts:91-127 | a request is fixed by its first event, and an invalid one never mints |
| `Batches.InBatchIffFewAhead` | services/payment/src/store/db.ts:102-108 | a pending row is in the batch if and only if fewer than the batch size are older |
| `Batches.BatchKeepsOrder` | services/payment/src/store/db.ts:102-108 | the batch keeps the order of creation |
| `ReleaseQueue.EvmReleaser.SaveUnwrap` | services/payment/src/store/db.ts:56-75 | one row per transaction and nonce, never touched again; the row is due the event's recipient and amount if and only if the key was new or already was |
| `ReleaseQueue.EvmReleaser.Release` | services/payment/src/release/evmRelease.ts:272-329 | what one release throws or returns, and what it leaves in the replay guard of the row's own chain |
| `ReleaseQueue.EvmReleaser.ProcessRow` | services/payment/src/release/evmRelease.ts:226-262 | one row: skip, dead letter, success, replay or retry |
| `ReleaseQueue.EvmReleaser.ProcessPending` | services/payment/src/release/evmRelease.ts:209-269 | one pass over the oldest pending unwraps, with its counters, up to any crash |
| `ReleaseRuns.AttemptDecides` | services/payment/src/release/evmRelease.ts:223-329 | one attempt, exactly: when a payment reaches the chain, and when the row is released, skipped, given up or one attempt older |
| `ReleaseRuns.PassIsCounted` | services/payment/src/release/evmRelease.ts:209-269 | a finished pass counts the rows of its batch that are released now, that failed, and of disabled chains |
| `ReleaseRuns.ReleaseProtocolSafety` | services/payment/src/release/evmRelease.ts:209-329 | for every schedule, while replay errors are told apart: a released row is recorded by its own chain's replay guard, terminal rows never change, a recorded release is never replaced |
| `ReleaseRuns.FailedPrecheckReadsAsReleasedIff` | services/payment/src/release/evmRelease.ts:140-147 | in every reachable state: a failed pre-check marks a row with a free guard released if and only if its error names the method it called |
| `ReleaseRuns.FailedPrecheckReadsAsReleased` | services/payment/src/release/evmRelease.ts:140-147 | and from the empty queue, with the row and the guard it ends with |
| `ReleaseRuns.AnsweredSubmissionPaysItsOwnIff` | services/payment/src/release/evmRelease.ts:272-329 | in every reachable state an answered submission ends as released, and its chain has paid the row's recipient its amount if and only if the guard was free or already held that payment |
| `ReleaseRuns.ReleasedRowsWerePaid` | services/payment/src/release/evmRelease.ts:272-329 | in every run whose new unwraps, races and foreign releases do not contradict what is known of their transactions, a released row stands for a payment of exactly its amount to its recipient on its own chain |
| `ReleaseRuns.ReleasedRowsHaveTheirOwnPayment` | services/payment/src/release/evmRelease.ts:272-329 | of its own: no other row has the same slot of a guard, because the nonce is the ledger's |
| `ReleaseRuns.RecordedReleaseDecides` | services/payment/src/release/evmRelease.ts:272-281 | once a release is recorded its payment is final: whatever follows, the row was paid what it is due if and only if that payment is there |
| `ReleaseRuns.AgreementIsKept` | services/payment/src/release/evmRelease.ts:209-329 | a new unwrap or a foreign release keeps that agreement if and only if it agrees itself, and a pass keeps it when its races pay what is due |
| `ReleaseRuns.AllBurnedIsRecordedIff` | contracts/lending/controller/src/lib.rs:1005-1014 | the nonce is the ledger's: in every run the rows ask for no more than was burned, and for all of it if and only if no two unwraps share a transaction |
| `ReleaseRuns.SharedTransactionLosesTheSecond` | services/payment/src/store/db.ts:56-75 | from the empty queue: two unwraps of one transaction, in any amounts, leave one row and one payment, and the second amount is never released |
| `ReleaseRuns.StepSpends` | services/payment/src/release/evmRelease.ts:226-262 | no step gives a row attempts back; a finished pass takes one from every row of an enabled chain in its batch |
| `ReleaseRuns.UnwrapEndsWithinItsAttempts` | services/payment/src/release/evmRelease.ts:226-262 | in every run an unwrap of an enabled chain is released or dead-lettered once as many finished passes as attempts are allowed have had it in their batch |
| `ReleaseRuns.UnwrapEnds` | services/payment/src/release/evmRelease.ts:209-269 | with fewer than 25 older pending unwraps of disabled chains, it ends once as many passes have finished as attempts are left in it and in older unwraps of enabled chains, whatever happens meanwhile |
| `ReleaseRuns.StarvesIffBatchIsIdle` | services/payment/src/release/evmRelease.ts:220-233 | the exact starvation condition: some number of finished passes is certain to end a pending unwrap of an enabled chain if and only if fewer than 25 older pending unwraps belong to disabled chains |
| `ReleaseRuns.StarvedForever` | services/payment/src/release/evmRelease.ts:220-233 | otherwise it never changes, in any run |
| `ReleaseRuns.TakenUpIffFewOlder` | services/payment/src/store/db.ts:102-108 | a pending unwrap is taken up if and only if fewer than 25 pending ones are older |
| `Indexer.EventIndexer.InsertEvent` | services/indexer/src/events/store.ts:129-226 | an insert happens if and only if no stored row has the id or the secondary key |
| `Indexer.EventIndexer.IngestPage` | services/indexer/src/events/stream.ts:123-142 | the loop over one page, with its counters, up to any crash |
| `Indexer.EventIndexer.IngestEvents` | services/indexer/src/events/stream.ts:113-152 | the page loop: cursor saved after the page, stop at a short page, up to any crash |
| `IndexerRuns.LoopKeeps` | services/indexer/src/events/stream.ts:113-152 | from any crash point of a poll every row is an offered event with keys of its own, every offered event has a key that is taken, and everything persistable before the cursor was offered |
| `IndexerRuns.ExactlyOnceIffApart` | services/indexer/src/events/stream.ts:81-152 | for any schedule of polls and crashes: nothing is stored twice, nothing else is stored, and everything handed to the database is stored if and only if no two different such events share an id or a secondary key |
| `IndexerRuns.ExactlyOnceUnderCrashes` | services/indexer/src/events/stream.ts:81-152 | in particular every persistable event before the cursor is stored, once, when the persistable events of the history have keys of their own |
| `IndexerRuns.CollidingEventIsDropped` | services/indexer/src/events/store.ts:219-225 | in every run, of any two different offered events that share a key at most one is stored |
| `IndexerRuns.SecondOfAPairIsPassed` | services/indexer/src/events/store.ts:219-225 | on one page the second of any such pair is counted as a duplicate and the cursor passes it |
| `IndexerRuns.FetchedIsAccountedFor` | services/indexer/src/events/stream.ts:113-152 | fetched = inserted + duplicates + ignored + decode errors for every poll that returns, whatever the store held and the source answered |
| `IndexerRuns.CountersMeanWhatTheySay` | services/indexer/src/events/stream.ts:113-152 | for every poll that returns: errors are the malformed events on the pages read, ignored the foreign ones, inserted the growth of the store, duplicates the other persistable ones; which pages were read and which cursor is saved |
| `IndexerRuns.UndisturbedPollCatchesUp` | services/indexer/src/events/stream.ts:113-152 | a poll that lives long enough moves the cursor by its full pages, or to the end |
| `Reconciliation.Fill` | services/payment/src/invariants.ts:108-122 | a map filled from a list in insertion order, with one violation per repeated key |
| `Reconciliation.ReportMismatches` | services/payment/src/invariants.ts:124-134 | the loop over the left map |
| `Reconciliation.ReportMissing` | services/payment/src/invariants.ts:135-139 | the loop over the keys of the right map |
| `Reconciliation.CompareLedgers` | services/payment/src/invariants.ts:97-141 | the exact list of violations: empty if and only if both lists are duplicate-free and the same ledger, and each one reported exactly when what it says is so |
| `Reconciliation.CleanIffBijection` | services/payment/src/invariants.ts:97-141 | the specified verdict is clean if and only if the ledgers are in bijection |
| `Reconciliation.ViolationsSayWhatIsSo` | services/payment/src/invariants.ts:97-141 | an amount violation is reported if and only if the left amount, the right amount and their difference are as it says, an unmatched key if and only if the other list lacks it, a duplicate if and only if it occurs twice |
| `Reconciliation.ReportIsOrdered` | services/payment/src/invariants.ts:97-141 | repeats on the left and right come first, then the left list, then the right, and everything but a repeat is said once |
| `Reconciliation.RepeatsAreReported` | services/payment/src/invariants.ts:112-120 | a repeated key is reported once for each entry after the first |
| `Reconciliation.BackingSaysWhatIsSo` | services/payment/src/invariants.ts:54-71 | each backing violation is reported exactly when its two numbers are the supply and a different sum |
| `Reconciliation.CleanMeansEqualTotals` | services/payment/src/invariants.ts:97-141 | a clean comparison means equal totals |
| `Reconciliation.CausalityImpliesBacking` | services/payment/src/invariants.ts:54-71 | with X-2 and X-3 clean, X-1 on the summed totals is silent if and only if supply = wrapped less unwrapped |
| `Reconciliation.CheckX1Backing` | services/payment/src/invariants.ts:54-71 | silent if and only if supply equals both the backing and the derived supply |

## Left out

- RewardsRuns.EmissionBeyondNoticesCannotBePaid: between the two bounds, that is within the dropped fractions, the model does not say whether all users can be paid; that the week is exact is proved for lone stakers.
- RewardsPokes.ExtraUpdatesCostLittle: the loss is bounded for a block of extra calls before one claim, not over whole runs.
- ProtocolSafety.LiquidationWorsensUncovered: between it and LiquidationKeepsCoverage, where the floors decide, neither direction holds in general.
- ReleaseRuns.AgreementIsKept: for a pass only one direction, because a race that pays something else may not come to be tried.
- PoolShares.ShareSolvency: ranges over runs without the pool's own `supply_collateral` and `withdraw_collateral`, which write the share key without a deposit; PoolWorth.SharesWithinTotalIff and PoolWorth.PostedCollateralTakesDeposits say what they do.
- PoolWorth.NoShareAbovePar, and the bounds on worth and round trips: range over the same runs; posted shares are not bought at any price.
- ProtocolLedger.BorrowSafeThroughTheLedger: says nothing once the ledger or a price changes, or the borrower withdraws that collateral or borrows more of that asset; for an idle market with an old clock it is not claimed, and ProtocolIdle reaches its failure.
- MintOwners.MintedRowsMintedTheirOwn: needs new salts to be free when their request arrives; the exact condition, for all runs, is MintedRowsOwnTheirWrapsIff.
- ProtocolSafety.WithdrawalKeepsEveryDebtSafe: speaks of the withdrawn collateral asset against each debt, which is what the controller checks; other collateral of the user is not valued by it.
- PoolRates.BorrowRateSound: for totals below 2^64 / 10 000 and slopes whose products fit 32 bits; outside that range the modelled casts and panics apply and nothing is claimed.
- MintRuns.EveryRequestEnds: counts passes the worker finishes; a worker killed after every submission makes no progress, because the attempt count is written afterwards.
- Rewards and vault: one asset per contract object, since every storage key carries the asset.
- ProtocolSafety.LiquidationGoesThroughIff: for vaults whose recorded total fits 128 bits, which a deposit checks.
- PoolEffects.SupplyRefusedIff and the other `RefusedIff` lemmas of the pool: for calls whose accrual goes through; when it does is PoolEffects.AccrualSucceedsIff.
- Protocol: desks are values that the class reassigns, not objects of the pool and vault classes, so aliasing between contracts is not modelled.
- Operator, minter and admin authorisation of single calls, pause flags, initialise-once checks and the switch that skips token transfers: single-branch facts.
- Re-adding a configured asset, which resets its totals: runs add each asset once.
- `controller.repay`, which only forwards to the pool, and `set_mint_rate_limit`, `propose_bridge` and `execute_bridge`.
- `check_mint_rate`: its window never resets; a refused wrap is an environment choice.
- Signatures, hashes and payload bytes: a relation of valid key and signature pairs stands for them.
- The bridge contract on the source chains: only each one's replay guard, keyed by Stellar transaction, is modelled.
- `markUnwrapFailed`, the pending counters that end a pass, metrics and logs.
- Several workers on one queue: the service runs one.
- `peek_price`, `publisher_count`, `health_factor`, the X-4 check, governance, the Solana and EVM watchers, the web and API packages.
- Decoding of event payloads: an event is malformed, foreign or persistable.
