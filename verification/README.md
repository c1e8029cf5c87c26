# Set Protocol test harness: reference arithmetic and snapshot cache

This project models the TypeScript that the Set Protocol contracts are checked against, and the test sandboxing
that the checks run on.

- **Snapshot cache** (`SnapshotChain`, `Blockchains`, `TestingUtils`, `SuiteRuns`, `CacheProofs`, `TestPhases`,
  `InnerHooks`, `TestEnds`, `CacheTheorems`, `CountingRuns`, `SandboxNesting`, `SandboxRuns`). `cacheBeforeEach` runs
  each initializer once and afterwards reverts the chain to the innermost snapshot on a global stack. The hooks are
  classes over a mutable node, each proved against a function on the values it sees; those functions drive a model of
  nested suites, which is proved to simulate plain re-execution of every hook before every test, for every
  initializer, every ordinary `beforeEach` hook and every state-changing test. The code does not do this for every
  forest of suites: a cached hook registered inside an
  `addSnapshotBeforeRestoreAfterEach` sandbox loses its snapshot with the first test. The exact condition is that no
  such hook serves a second test, counting the tests of its suite and of the suites below it. A run reverts to a
  consumed snapshot if and only if the condition fails; while it holds the run is re-execution and every sandbox
  restores; and a forest of the same shape whose hooks count is told from re-execution whenever it fails.
  `InnerInitializerIsLost` shows the smallest case: the second test starts without the inner initializer, and its
  changes escape the sandbox. Whether they escape has an exact condition of its own, on every run, stale reverts or
  not: a test's changes are undone if and only if a sandbox precedes every cached hook of its path or follows the
  last one initialized.
- **Fixed-point arithmetic** (`BigNumbers`, `MathUtils`, `Rounding`). 18-decimal multiplication and division with
  their roundings, over integers of either sign. `BigNumber.div` truncates toward zero and `BigNumber.mod` is never
  negative; both are written out. Dividing by zero throws, so a divisor is required to be nonzero, except where the
  source itself tests for zero.
- **NAV issuance and streaming fees** (`NavIssuance`, `NavProperties`, `NavAccounting`, `NavExactness`,
  `StreamingFee`, `Vault`, `VaultSteps`, `ReserveDrift`). The reference functions, what each of them rounds, and a
  vault whose steps (issue, redeem, fee accrual) are computed by exactly these functions. When a step takes effect
  follows the contracts the functions stand in for: supply is minted or burned and the multiplier and the reserve
  unit are edited
  (`contracts/protocol/modules/NAVIssuanceModule.sol:779-820`), a redeem needs the collateral it pays out
  (`contracts/protocol/modules/NAVIssuanceModule.sol:1067-1085`), neither is allowed below the minimum supply
  (`contracts/protocol/modules/NAVIssuanceModule.sol:649-674`), and a multiplier of zero is refused
  (`contracts/protocol/SetToken.sol:582-586`).
- **AMM helpers** (`UniswapUtils`). Newton square root, LP minting, claims on reserves, engage and rebalance
  quantities. The source compares BigNumber objects with `<`, `>`, `==` and `!=` there; the model reads these as the
  numeric comparisons they evidently mean, as `.lt` does in `utils/common/mathUtils.ts:67`.

Values that the source awaits from the chain (supplies, valuations, reserves, balances, fee rates) are parameters.
The test runner is modelled as Mocha runs suites: `beforeEach` hooks outermost first, then the test, then `afterEach`
hooks innermost suite first; a suite's tests before its child suites, its `after` hooks last. The node hands out
fresh snapshot ids, and reverting consumes a snapshot and every later one; reverting to a consumed id changes nothing
and is not noticed by the source.

## Model

| member | source | states |
|---|---|---|
| Blockchains.Blockchain.SaveSnapshot | utils/common/blockchainUtils.ts:13-18 | takes a snapshot of the chain as it is, and answers and remembers its fresh id |
| Blockchains.Blockchain.Revert | utils/common/blockchainUtils.ts:20-22 | reverts to the remembered id; nothing changes when that id is consumed |
| Blockchains.Blockchain.RevertById | utils/common/blockchainUtils.ts:24-26 | reverts to the given id; nothing changes when that id is consumed |
| TestingUtils.CachedHook.BeforeEach | utils/test/testingUtils.ts:49-59 | first call: initializer, then snapshot pushed; later calls: pop, revert, fresh snapshot pushed; fails only on an empty stack |
| TestingUtils.CachedHook.After | utils/test/testingUtils.ts:61-65 | pops one id if and only if the hook was initialized |
| TestingUtils.SandboxHook.BeforeEach | utils/test/testingUtils.ts:31-33 | snapshots the chain and remembers the id for this sandbox only |
| TestingUtils.SandboxHook.AfterEach | utils/test/testingUtils.ts:35-37 | reverts to this sandbox's own id |
| TestingUtils.SandboxHook.Around | utils/test/testingUtils.ts:29-38 | around any test: chain state and all older snapshots come back exactly |
| CacheProofs.RevertRenews | utils/test/testingUtils.ts:54-58 | an initialized hook leaves the state of the innermost snapshot and keeps every id on the stack alive with its recorded state |
| CacheProofs.InitializePushes | utils/test/testingUtils.ts:50-53 | a new hook pushes an alive id that holds the initialized state |
| CacheProofs.BeforeEachReady | utils/test/testingUtils.ts:49-59 | over all beforeEach hooks of a path: once the initialized hooks have run, the state is the one re-running every hook gives, and every id on the stack is alive with the state recorded for its hook |
| CacheProofs.AfterEachRestores | utils/test/testingUtils.ts:35-37 | however sandboxes are nested and ordered, their afterEach hooks end with the outermost one restored and only older snapshots left |
| CacheTheorems.StackDiscipline | utils/test/testingUtils.ts:43-65 | every suite tree, ordered or not: one id per initialized cached hook of the path, no pop of an empty stack; a suite that ran a test leaves exactly one id per cached hook still on the path, any other leaves as many as it found |
| CacheTheorems.SnapshotsNeverUnderflow | utils/test/testingUtils.ts:43-65 | a whole run never pops an empty stack and ends with it empty |
| CacheTheorems.TestAgrees | utils/test/testingUtils.ts:45-66 | one test: it reverts to a consumed id exactly when an initialized cached hook of the path is inside a sandbox, and keeps the simulation with re-execution otherwise; all ids stay alive exactly when no cached hook of the path is inside a sandbox |
| CacheTheorems.StaleIffServedTwice | utils/test/testingUtils.ts:29-66 | a run of any forest reverts to a consumed id if and only if some cached hook inside a sandbox serves more than one test |
| CacheTheorems.CacheRefinesReExecution | utils/test/testingUtils.ts:29-66 | every forest in which no cached hook inside a sandbox serves more than one test: each test starts in the state re-execution gives, the chain ends in the same state, every sandbox restores what it found, no pop is empty, no revert names a consumed id, the stack ends empty |
| CountingRuns.ServedOnceIsExact | utils/test/testingUtils.ts:29-66 | the condition is exact for a shape of forest: with counting hooks in place of its own, a forest refines re-execution if and only if no cached hook inside a sandbox serves more than one test, and then it refines with its own hooks too |
| CountingRuns.StaleTestTold | utils/test/testingUtils.ts:54-58 | counting initializers: the test that reverts to a consumed id starts short of re-execution by exactly the number of initialized cached hooks inside a sandbox |
| InnerHooks.DirtyTestStart | utils/test/testingUtils.ts:49-59 | the exact start of a test that reverts to a consumed id: hooks before the first cached one run on what the last test left, everything up to the last initialized hook is skipped, the rest run |
| InnerHooks.ShieldedTest | utils/test/testingUtils.ts:29-66 | without a cached hook outside the sandboxes a test restores its outermost sandbox even when its cached hooks revert to consumed ids |
| CacheTheorems.IntactIffOrdered | utils/test/testingUtils.ts:29-66 | every id on the stack survives every test if and only if no path to a test has a cached hook inside a sandbox |
| SandboxNesting.SandboxLeavesNoTrace | utils/test/testingUtils.ts:29-38 | a test below any number of sandboxes leaves the state that the outermost sandbox hook found; with an initialized cached hook inside a sandbox and another outside all of them, if and only if the end state of `EndState` is that state |
| TestPhases.TestStart | utils/test/testingUtils.ts:45-66 | over whatever snapshots earlier tests left: a test starts from the innermost id's state, or from the state found if that id is consumed, with exactly the hooks after the last initialized cached one run |
| TestEnds.TestEnd | utils/test/testingUtils.ts:29-66 | where a test ends: the first sandbox after the last initialized cached hook undoes it, and without one its changes stay; the ids pushed outside all sandboxes stay alive |
| TestEnds.LeavesNoTraceIff | utils/test/testingUtils.ts:29-66 | all tests end in the same state if and only if a sandbox precedes every cached hook of the path or follows the last initialized one |
| SandboxRuns.RunUndoneIffContained | utils/test/testingUtils.ts:29-66 | over every forest: the changes of every sandboxed test of the run are undone if and only if the tree of suites puts such a sandbox on the path of each test, given the cached hooks initialized by then |
| SandboxRuns.RunRestoresIff | utils/test/testingUtils.ts:29-66 | over every forest: each sandboxed test leaves what its outermost sandbox hook found if and only if every test that runs with initialized cached hooks both inside and outside sandboxes happens to end there |
| SandboxNesting.DirtyTestEnd | utils/test/testingUtils.ts:29-66 | the same on a path of the simulation with an initialized cached hook inside a sandbox and another outside: the end state in terms of hooks and state before the test |
| SandboxNesting.SandboxLeaks | utils/test/testingUtils.ts:29-66 | every sandbox before the last initialized cached hook has lost its snapshot when the test runs; with none after that hook the afterEach hooks change nothing |
| SandboxNesting.TestStartsRight | utils/test/testingUtils.ts:45-66 | a test starts where re-execution starts it if and only if no initialized cached hook is inside a sandbox or the skipped hooks make no difference |
| SandboxNesting.SandboxedTestIsInvisible | utils/test/testingUtils.ts:29-38 | sandboxed from the first hook on, a test leaves the state before its hooks |
| SandboxNesting.SandboxedForestIsInvisible | utils/test/testingUtils.ts:29-66 | a whole run over any forest whose paths all begin with a sandbox leaves chain state and snapshots as it found them, cached hooks inside or not |
| SandboxNesting.InnerInitializerIsLost | utils/test/testingUtils.ts:29-66 | for all initializers and tests: with a cached hook inside a sandbox serving two tests, the second starts without the inner initializer and leaves its changes behind; re-execution runs the initializer and undoes the changes |
| Rounding.OneIsNeutral | utils/constants.ts:31 | the number one is ten to the eighteenth: multiplying or dividing by it changes nothing |
| MathUtils.PreciseMul | utils/common/mathUtils.ts:5-7 | the product over UNIT rounded toward zero, for both signs |
| MathUtils.PreciseMulCeil | utils/common/mathUtils.ts:9-15 | rounded up for non-negative products; for negative ones where the idiom really lands |
| Rounding.PreciseMulCeilIntRoundsAway | utils/common/mathUtils.ts:17-27 | magnitude is the ceiling of the magnitudes' product over UNIT, sign is the product's |
| Rounding.PreciseDivRoundsTowardZero | utils/common/mathUtils.ts:29-31 | quotient rounded toward zero for every dividend and nonzero divisor |
| MathUtils.PreciseDivCeil | utils/common/mathUtils.ts:33-39 | rounded up for non-negative dividends and positive divisors, zero when either is zero; for other signs where the idiom really lands |
| Rounding.PreciseDivCeilExcess | utils/common/mathUtils.ts:33-39 | every sign: never below the ceiling, and by how much above it, zero, one or two, depending on the remainder |
| Rounding.PreciseDivCeilIntRoundsAway | utils/common/mathUtils.ts:41-51 | positive divisor: magnitude is the ceiling, sign is the dividend's |
| Rounding.PreciseDivCeilIntNegativeDivisor | utils/common/mathUtils.ts:41-51 | negative divisor: the sign is the quotient's, the magnitude never below the ceiling and at most 2 above; exact iff the remainder is neither 0 nor one less than the divisor's magnitude, 2 above iff the divisor is -1 |
| MathUtils.DivDown | utils/common/mathUtils.ts:53-61 | mathematical floor division for every dividend and nonzero divisor |
| MathUtils.Min | utils/common/mathUtils.ts:63-68 | one of the two values, below both |
| Rounding.VirtualRoundTrip | test/protocol/setToken.spec.ts:617-618 | the stored unit is the largest worth no more than the real one, the unit read back the largest worth no more than that; it never increases a unit of either sign and loses less than multiplier / UNIT + 1 |
| Rounding.StoreAndReadUnit | test/protocol/setToken.spec.ts:617-618 | the same conversion through divDown itself, with the stored unit and the one read back |
| NavProperties.PostFeeQuantityExact | utils/common/navIssuanceModuleUtils.ts:77-86 | the ceiling of the share left by both fees, plus one exactly when the two dropped fractions make a whole unit; between 0 and the quantity |
| NavProperties.PostFeeQuantityAlmostMonotone | utils/common/navIssuanceModuleUtils.ts:77-86 | a larger quantity leaves at most one unit less |
| NavProperties.PostFeeQuantityNotMonotone | utils/common/navIssuanceModuleUtils.ts:77-86 | an instance: two units can leave less than one unit does |
| NavProperties.PostFeeQuantityDrops | utils/common/navIssuanceModuleUtils.ts:77-86 | of two quantities the larger leaves less if and only if both leave the same ceiling and only the smaller one's dropped fee fractions make a whole unit |
| NavProperties.PremiumComplement | utils/common/navIssuanceModuleUtils.ts:96-101 | the notional less the rounded-up premium is the rounded-down rest |
| NavProperties.MultipliersAreScaledRatio | utils/common/navIssuanceModuleUtils.ts:7-17 | the ceil-based issue and the floor-based redeem multiplier are the same function of multiplier and supplies |
| NavProperties.ScaledRatioLoss | utils/common/navIssuanceModuleUtils.ts:109-119 | multiplier times supply does not grow, and how little it can lose |
| NavProperties.IssueNeverDilutes | utils/common/navIssuanceModuleUtils.ts:32-49 | value per token of the others does not fall, the issued share is at most the net deposit, the quantity is within rounding of the exact one; throws if and only if the set is worthless and no premium is left after rounding |
| NavExactness.QuoteExact | utils/common/navIssuanceModuleUtils.ts:32-47 | every amount of an issue from the inputs: the deposit after fees and after the premium, both normalised, and the denominator, each with its rounding |
| NavExactness.IssuedQuantityIsLargest | utils/common/navIssuanceModuleUtils.ts:49 | a quantity is at most the issued one if and only if the floored product covers its share of the denominator |
| NavExactness.IssueMintsFairShare | utils/common/navIssuanceModuleUtils.ts:32-49 | the issued quantity is the deposit less fees and premium, times the supply, over the value and premium that stay, with explicit bounds on both sides |
| NavProperties.RoundTripNeverProfits | utils/common/navIssuanceModuleUtils.ts:32-106 | redeeming all issued tokens at any valuation the assets back pays at most the deposit net of fees and premium |
| NavProperties.RedeemBounds | utils/common/navIssuanceModuleUtils.ts:88-107 | the payout is non-negative and never exceeds what leaves the set |
| NavAccounting.RedeemPaysFairValue | utils/common/navIssuanceModuleUtils.ts:88-107 | the payout is valuation times quantity less premium and fees, with explicit bounds on both sides |
| NavExactness.RedeemExact | utils/common/navIssuanceModuleUtils.ts:88-107 | payout and outflow from the inputs, rounding by rounding |
| NavAccounting.OutflowIsFeelessPayout | utils/common/navIssuanceModuleUtils.ts:133-137 | without fees everything that leaves the set is the payout |
| NavAccounting.IssueUnitAccounts | utils/common/navIssuanceModuleUtils.ts:52-75 | the new unit over the new supply accounts for the old claim plus the deposit net of fees, never above it and below it by at most the two roundings |
| NavAccounting.RedeemUnitAccounts | utils/common/navIssuanceModuleUtils.ts:121-145 | the new unit accounts for the old claim less what left, never above it and below it by at most the two roundings |
| NavExactness.IssueUnitExact | utils/common/navIssuanceModuleUtils.ts:52-75 | the unit is the largest that reads back from a virtual unit worth no more than each token's part of the old claim plus the deposit net of fees |
| NavExactness.RedeemUnitExact | utils/common/navIssuanceModuleUtils.ts:121-145 | the same for the old claim less what left |
| StreamingFee.FourYearsFee | utils/constants.ts:29 | 1461 days of 86400 seconds cost exactly four times the yearly rate |
| StreamingFee.TimeFee | utils/common/feeModuleUtils.ts:18-19 | the yearly rate's share of the elapsed time, rounded down |
| StreamingFee.TimeFeeSuperadditive | utils/common/feeModuleUtils.ts:18-19 | splitting a span loses at most one unit of fee and never gains |
| StreamingFee.SupplyAfterAccrual | utils/common/feeModuleUtils.ts:22-30 | the supply after minting is the old supply over one minus the fee, rounded down |
| StreamingFee.InflationIsLargestShare | utils/common/feeModuleUtils.ts:22-30 | an amount's share of the new supply is at most the fee if and only if it is at most the minted amount |
| StreamingFee.SplittingNeverOverMints | utils/common/feeModuleUtils.ts:18-29 | accruing at any increasing timestamps ends with at most the supply of one accrual over the whole interval |
| StreamingFee.SplittingMintsAtLeast | utils/common/feeModuleUtils.ts:18-29 | accruing at any increasing timestamps mints at least the simple interest of the interval, less one unit of fee and one of supply for each accrual |
| StreamingFee.GetPostFeePositionUnits | utils/common/feeModuleUtils.ts:32-45 | same length and order; every unit, of either sign, is the floor of its share |
| StreamingFee.PostFeeUnitIsFloor | utils/common/feeModuleUtils.ts:38-42 | truncating positive and rounding negative units away from zero is the floor |
| StreamingFee.AccrualStep | utils/common/feeModuleUtils.ts:22-45 | one accrual: claims on an asset do not grow, a debt is understated by less than one unit's share |
| StreamingFee.AssetNeverOverclaimed | utils/common/feeModuleUtils.ts:22-45 | any run of accruals: units times supply never exceed the start |
| StreamingFee.AssetDriftBounded | utils/common/feeModuleUtils.ts:22-45 | any run of accruals: what is left unclaimed of an asset is bounded by the number of accruals |
| StreamingFee.DebtDriftBounded | utils/common/feeModuleUtils.ts:22-45 | any run of accruals: a debt is understated by at most its initial unit per accrual |
| Vault.SolventReconciles | test/protocol/modules/CustomOracleNAVIssuanceModule.spec.ts:3551-3565 | the inductive invariant implies the balance check for the reserve and every other component |
| Vault.SolventIffAlwaysReconciles | test/protocol/modules/CustomOracleNAVIssuanceModule.spec.ts:3551-3565 | with a minimum supply of at most one: the balance check holds after every run if and only if it holds for the reserve at the start and every other component's unrounded claim is below its balance plus one |
| Vault.ReconcilesIsNotInductive | test/protocol/modules/CustomOracleNAVIssuanceModule.spec.ts:3551-3565 | an instance of the condition failing: the balance check holds and one redeem breaks it |
| Vault.ScaledSupplyStep | utils/common/navIssuanceModuleUtils.ts:7-17 | issue, redeem and accrual all keep multiplier times supply from growing, with a bound on each step's loss |
| Vault.StepKeepsReserve | utils/common/navIssuanceModuleUtils.ts:52-145 | every step keeps the reserve units covered by the reserve balance |
| Vault.StepKeepsSolvent | contracts/protocol/modules/NAVIssuanceModule.sol:779-820 | every step, refused or not, keeps the reserve and all other components solvent |
| Vault.RunStaysSolvent | test/protocol/modules/CustomOracleNAVIssuanceModule.spec.ts:3551-3565 | every sequence of issues, redeems and accruals, at any valuations, keeps all balances reconciled |
| VaultSteps.IssueStep | contracts/protocol/modules/NAVIssuanceModule.sol:779-820 | an issue mints exactly the expected quantity, takes in the deposit net of fees, rescales the multiplier and resets the reserve unit; it is refused exactly when the quantity is undefined, the supply is below the minimum or the multiplier would vanish |
| VaultSteps.RedeemStep | contracts/protocol/modules/NAVIssuanceModule.sol:779-820 | a redeem at any valuation burns its quantity and pays out the outflow; it is refused exactly when it would leave no supply or less than the minimum, or pay more than the reserve accounts for |
| VaultSteps.AccrualStepExact | utils/common/feeModuleUtils.ts:22-45 | an accrual divides the supply by one minus the fee and multiplies multiplier and reserve unit with it, each rounded down |
| VaultSteps.StepKeepsMinimum | contracts/protocol/modules/NAVIssuanceModule.sol:649-674 | no step takes the supply below the minimum, and below it nothing is issued or redeemed |
| VaultSteps.RunKeepsMinimum | contracts/protocol/modules/NAVIssuanceModule.sol:649-674 | the same over every run |
| VaultSteps.RunAppend | contracts/protocol/modules/NAVIssuanceModule.sol:779-820 | a run of two sequences of steps is the second run from where the first one ends |
| Vault.RunDriftBounded | utils/common/navIssuanceModuleUtils.ts:7-119 | over a run multiplier times supply never grows and loses at most the sum of its steps' roundings |
| ReserveDrift.StepUnclaimed | utils/common/navIssuanceModuleUtils.ts:52-145 | one step never claims more of the reserve than before, and leaves at most a stated amount unclaimed |
| ReserveDrift.RunReserveDrift | utils/common/navIssuanceModuleUtils.ts:52-145 | over a run the unclaimed reserve never falls and grows by at most the number of steps times a bound set by the run's largest supply and unit and smallest multiplier |
| Vault.RoundTripNeverDrains | utils/common/navIssuanceModuleUtils.ts:32-145 | issuing and redeeming the issued quantity restores the supply and leaves reserve balance, multiplier and components no worse |
| UniswapUtils.Sqrt | utils/common/uniswapUtils.ts:145-160 | terminates with exactly the integer square root of every non-negative value, and with 1 on a negative one |
| UniswapUtils.SqrtUnique | utils/common/uniswapUtils.ts:145-160 | the integer square root is unique |
| UniswapUtils.CalculateLPTokensIssued | utils/common/uniswapUtils.ts:9-28 | first mint: liquidity plus 1000 is the square root of the product of deposits; later mints: the pro-rata liquidity |
| UniswapUtils.ProRataLiquidityIsLargest | utils/common/uniswapUtils.ts:21-24 | an amount is at most the liquidity if and only if its share of each reserve is covered by the deposit |
| UniswapUtils.MintNeverDilutes | utils/common/uniswapUtils.ts:17-27 | neither reserve per LP token falls, nor the product of reserves per squared LP token |
| UniswapUtils.ClaimIsProRata | utils/common/uniswapUtils.ts:129-132 | a claim is the exact share of the reserve up to two roundings |
| UniswapUtils.TokensInReserveExact | utils/common/uniswapUtils.ts:118-133 | each of the two answers is the claim on its own reserve: an amount is at most the claim if and only if the balance at the floored token price covers it, and the claim is within two roundings of the exact share |
| UniswapUtils.ClaimsExhaustReserves | utils/common/uniswapUtils.ts:118-133 | the claims of holders who own the whole supply leave less of each reserve than one rounding of the price over the supply and one unit per holder |
| UniswapUtils.ClaimsConserved | utils/common/uniswapUtils.ts:118-133 | the claims of any list of holders within the supply sum to at most each reserve |
| UniswapUtils.EngageHitsTargets | utils/common/uniswapUtils.ts:48-54 | moving the quantities leaves each balance at the target percentage up to the two dropped fractions, asking for no more than either side holds |
| UniswapUtils.CalculateRebalanceQuantity | utils/common/uniswapUtils.ts:93-115 | sells the richer side; with the extra amounts counted; without an override the quantity is held, is the floored half of the difference, and trading it balances the two sides up to rounding; an override wins |

## Left out

- Solidity contracts: only when their steps take effect is used; their own arithmetic, access control and events are not modelled.
- BigNumber object comparison in `utils/common/uniswapUtils.ts`: the coercion that JavaScript applies to objects is not modelled, only the numeric reading.
- Vault.StepKeepsSolvent: the vault refuses only a multiplier of zero, where the contract also refuses one that zeroes the smallest unit; a refused step changes nothing, so the contract's runs are among the model's.
- Vault.SolventIffAlwaysReconciles: exact over the model's runs, that is without the smallest-unit refusal, and for a minimum supply of at most one; under a larger minimum no redeem may leave a single unit, and the condition is proved sufficient (RunStaysSolvent) but not necessary.
- Hook failures and skipped tests, `before` hooks that change the chain inside a cached suite, ordinary `afterEach` hooks, and script variables set by initializers.
- The block-time, mining and reset calls of `Blockchain`, JSON-RPC transport and promises.
- `calculateRebalanceFlows` (a router quote) and `getReservesSafe` (address order): I/O over the arithmetic modelled here.
- The choice between a passed-in and a stored streaming fee rate in `getStreamingFee`: the rate is a parameter.
- Unit converters, deployment helpers and fixtures: they would only add easy members.
