# JuiceSwap V2 core, modelled in Dafny

JuiceSwap V2 is a constant-product automated market maker with the Uniswap V2
design. It has three parts:

- a **pair** holds reserves of two tokens, issues liquidity tokens for
  deposits (`mint`), redeems them (`burn`), trades one token for the other
  under a 0.3% fee (`swap`), and accumulates time-weighted prices (`sync`);
- a **factory** creates one pair per unordered token pair at a deterministic
  CREATE2 address, and controls the protocol fee recipient `feeTo`;
- the pair's **liquidity token** is an ERC-20 ledger with the EIP-2612
  `permit` extension.

This repository's contract sources are not part of this model. The pair,
factory and token are modelled from the behaviour their test suites fix,
case by case, and from the shared test helpers in `test/shared/utilities.ts`.

Where the code updates state, the model is imperative:

- `Erc20.Token`, `Pair.Pair` and `Factory.Factory` are classes whose methods
  update their fields;
- every method is specified against pure functions of the old state (`Move`,
  `Credit`, `Update`, `PlanMint`, `PlanBurn`, `CheckSwap`, `PairFor`);
- the arithmetic promises are lemmas about those functions.

Each test case is a method in `token_cases.dfy`, `factory_cases.dfy` or
`pair_cases.dfy`. It drives the classes through the case's calls, and its
contract states the values the case expects. The concrete arithmetic of the
pair cases is proved once, as lemmas in `scenarios.dfy`.

Modules, by file:

- `common.dfy` (Common): addresses (20 bytes), hashes (32 bytes), the
  `Result` type and the revert reasons.
- `utilities.dfy` (Utilities): `expandTo18Decimals`, 2^112 and
  `encodePrice`, plus integer-division facts.
- `address_order.dfy` (AddressOrder): the order on addresses, and its
  agreement with comparing lower-case hex strings.
- `create2.dfy` (Create2): `getCreate2Address`, made of the token sort,
  the 85-byte preimage and the 20-byte truncation.
- `sqrt_math.dfy` (SqrtMath): the floor square root.
- `pair_math.dfy` (PairMath): the pair's arithmetic, covering the reserve
  update with price accumulators, the protocol fee, mint and burn amounts,
  and the swap's K check.
- `erc20.dfy` (Erc20): the ledger functions and the `Token` class.
- `pair.dfy` (Pair): the `Pair` class.
- `factory.dfy` (Factory): the registry functions and the `Factory` class.
- `scenarios.dfy`, `token_cases.dfy`, `factory_cases.dfy`, `pair_cases.dfy`:
  the test cases.

Modelling choices:

- Addresses are compared as 20-byte big-endian numbers (`Below`).
  `LowerHexOrder` proves that this is the order of the lower-case `0x…`
  strings that `getCreate2Address` compares.
- Keccak-256 is a parameter `keccak: Bytes -> Hash`. The permit signature
  check is a parameter `recover: PermitMessage -> Address`, standing for
  EIP-712 hashing plus ECDSA recovery.
- Block times are explicit `now` parameters. The stored timestamp is
  `now mod 2^32`. Elapsed time wraps modulo 2^32, and the accumulators wrap
  modulo 2^256.
- The pair takes the factory's `feeTo` as a parameter of `Mint` and `Burn`.
  The fee is on exactly when `feeTo` is not the zero address.
- The pair's two underlying tokens are `Token` objects, `ledger0` and
  `ledger1`. The pair's own liquidity token is the `Token` object `lp`.

## Model

| member | source | states |
|---|---|---|
| Utilities.ExpandTo18DecimalsScales | test/shared/utilities.ts:5-7 | `expandTo18Decimals(n)` is `n * 10^18`, and dividing by 10^18 gives `n` back |
| Utilities.TwoPow112IsPow2 | test/shared/utilities.ts:25-26 | the constant 5192296858534827628530496329220096 is exactly 2^112 |
| Utilities.EncodePriceIsFloor | test/shared/utilities.ts:28-33 | each component of `encodePrice(r0, r1)` is the floor of the UQ112x112 ratio: `p0 * r0 <= r1 * 2^112 < (p0 + 1) * r0`, and likewise for `p1` |
| Utilities.EncodePriceSwap | test/shared/utilities.ts:28-33 | swapping the two reserves swaps the two prices |
| Utilities.EncodePriceEqual | test/shared/utilities.ts:28-33 | equal reserves price both tokens at 1.0, that is 2^112 |
| Utilities.EncodePriceScaleInvariant | test/shared/utilities.ts:28-33 | scaling both reserves by the same factor leaves both prices unchanged |
| AddressOrder.LowerHexOrder | test/shared/utilities.ts:14 | comparing the lower-case hex strings of two addresses is the same as comparing the addresses as numbers, in both directions |
| AddressOrder.BelowTotal | test/shared/utilities.ts:14 | two different addresses are always ordered one way or the other |
| AddressOrder.ZeroLeast | test/UniswapV2Factory.spec.ts:35-55 | the zero address is below every other address, so a pair's `token0` is zero whenever either token is |
| Create2.SortTokensOrdered | test/shared/utilities.ts:14 | for different tokens the sorted pair is strictly ascending, both numerically and as lower-case hex, and it is one of the two orders of the arguments |
| Create2.SortTokensIsNumeric | test/shared/utilities.ts:14 | the sort keeps the arguments when the first is numerically smaller, and swaps them otherwise |
| Create2.SortTokensSymmetric | test/shared/utilities.ts:14 | the sort gives the same pair whatever the order of the arguments |
| Create2.PackAddresses | test/shared/utilities.ts:18 | packing two addresses gives 40 bytes |
| Create2.Create2Preimage | test/shared/utilities.ts:15-21 | the preimage is 85 bytes |
| Create2.GetCreate2AddressSymmetric | test/shared/utilities.ts:9-23 | the pair address does not depend on the order of the two tokens |
| Create2.GetCreate2AddressLayout | test/shared/utilities.ts:14-22 | the hashed preimage is 0xff, then the factory, then the hash of the sorted tokens, then the hash of the code (85 bytes in that order), and the address is the last 20 bytes of its hash |
| SqrtMath.FloorSqrtCorrect | test/UniswapV2Pair.spec.ts:24-50 | `FloorSqrt(y)` is the floor square root: `r*r <= y < (r+1)*(r+1)` |
| SqrtMath.FloorSqrtUnique | test/UniswapV2Pair.spec.ts:24-50 | any `r` with `r*r <= y < (r+1)*(r+1)` is `FloorSqrt(y)` |
| SqrtMath.FloorSqrtMono | test/UniswapV2Pair.spec.ts:263-286 | the floor square root is monotone, so a growing product never shrinks the root |
| PairMath.Wrap256 | test/UniswapV2Pair.spec.ts:211-244 | an accumulator is kept modulo 2^256, and is unchanged below that bound |
| PairMath.TimeElapsed | test/UniswapV2Pair.spec.ts:211-244 | the seconds since the last update are a 32-bit quantity, and without wrap-around they are exactly `now - blockTimestampLast` |
| PairMath.Update | test/UniswapV2Pair.spec.ts:211-244 | the reserve update fails with Overflow exactly when a balance exceeds 2^112 - 1; on success the reserves become the balances and the stored time is `now mod 2^32` |
| PairMath.UpdateAccumulates | test/UniswapV2Pair.spec.ts:211-244 | with nonzero reserves and no wrap-around, each accumulator grows by `encodePrice(reserves) * elapsed`, and the time is set to `now` |
| PairMath.UpdateWithoutElapsedTime | test/UniswapV2Pair.spec.ts:24-50 | in the same second, or from empty reserves, the update leaves the accumulators unchanged |
| PairMath.MintFee | test/UniswapV2Pair.spec.ts:246-261 | with the fee off, or no `kLast` recorded, no fee is minted |
| PairMath.MintFeeIsOneSixth | test/UniswapV2Pair.spec.ts:263-286 | with the fee on, the fee is zero unless sqrt(k) grew since `kLast`; otherwise it is the floor of `supply * (rootK - rootKLast) / (5 * rootK + rootKLast)`, and the recipient's share of the grown supply is at most one sixth of the relative growth of sqrt(k): `fee * 6 * rootK <= (supply + fee) * (rootK - rootKLast)` |
| PairMath.FeeFromRootsBounds | test/UniswapV2Pair.spec.ts:263-286 | the fee formula `supply * (rootK - rootKLast) / (5 * rootK + rootKLast)` keeps the same one-sixth bound for all roots |
| PairMath.MintLiquidity | test/UniswapV2Pair.spec.ts:24-56 | a successful mint issues a positive amount of liquidity |
| PairMath.MintLiquidityFirst | test/UniswapV2Pair.spec.ts:24-50 | the first deposit succeeds exactly when floor(sqrt(a0 * a1)) exceeds the 1000 locked units, and the issued amount plus 1000 is then the floor square root of `a0 * a1` |
| PairMath.MintLiquidityProportional | test/UniswapV2Pair.spec.ts:52-56 | a later deposit succeeds exactly when each deposit is worth at least one unit (`a * supply >= reserve`), and then issues the largest `l` with `l * reserve <= a * supply` for both tokens |
| PairMath.BurnAmounts | test/UniswapV2Pair.spec.ts:181-209 | a successful burn pays a positive amount of both tokens |
| PairMath.BurnAmountsProRata | test/UniswapV2Pair.spec.ts:181-209 | each payout is the floor of `liquidity * balance / supply`, and the burn succeeds exactly when both are at least one unit |
| PairMath.BurnAmountsBounded | test/UniswapV2Pair.spec.ts:181-209 | redeeming at most the supply never pays out more than the pool holds |
| PairMath.AmountIn | test/UniswapV2Pair.spec.ts:83-157 | the inferred input is positive exactly when the balance exceeds `reserve - out`, is then that excess, and never exceeds the balance |
| PairMath.CheckSwap | test/UniswapV2Pair.spec.ts:58-157 | the post-transfer check succeeds exactly when some input arrived and the fee-adjusted product holds; a failure is InsufficientInputAmount when no input arrived and K otherwise, and on success returns the two inferred inputs |
| PairMath.KHoldsKeepsProduct | test/UniswapV2Pair.spec.ts:103-157 | a swap passing the K check never lowers `reserve0 * reserve1` |
| PairMath.KHoldsSymmetric | test/UniswapV2Pair.spec.ts:131-157 | the K check is the same with the two tokens exchanged |
| PairMath.KHoldsIffAmountOut | test/UniswapV2Pair.spec.ts:58-79 | paying `in` of one token for `out` of the other passes the K check exactly when `out <= getAmountOut(in, reserveIn, reserveOut)` |
| PairMath.KHoldsIffOptimistic | test/UniswapV2Pair.spec.ts:83-101 | depositing `in` and withdrawing `out` of the same token infers the input `in`, and passes the K check exactly when `out * 1000 <= in * 997` |
| PairMath.PlanMintFirstDeposit | test/UniswapV2Pair.spec.ts:24-50 | the first deposit mints no fee, locks 1000 units, and locked plus issued equals floor(sqrt(a0 * a1)); it succeeds exactly when that root exceeds 1000 |
| PairMath.PlanBurnBounded | test/UniswapV2Pair.spec.ts:181-209 | after the fee is minted, a burn of at most the supply pays positive amounts no larger than the balances |
| Erc20.MoveEffect | test/UniswapV2ERC20.spec.ts:65-72 | a move debits the sender by the amount, credits the receiver by it, and leaves every other balance alone; a move to oneself changes no balance |
| Erc20.MoveConserves | test/UniswapV2ERC20.spec.ts:65-72 | a move leaves the sum of all balances unchanged |
| Erc20.CreditSum | test/UniswapV2Pair.spec.ts:24-50 | minting to one account raises the sum of balances by the amount |
| Erc20.DebitSum | test/UniswapV2Pair.spec.ts:181-209 | burning from one account lowers the sum of balances by the amount |
| Erc20.Token.constructor | test/UniswapV2ERC20.spec.ts:26-33 | the deployer holds the whole supply, and there are no allowances and no nonces; the invariant that the supply is the sum of the balances holds |
| Erc20.Token.Mint | test/UniswapV2Pair.spec.ts:24-50 | minting credits the account and raises the supply by the amount, keeping supply equal to the sum of the balances |
| Erc20.Token.Burn | test/UniswapV2Pair.spec.ts:181-209 | burning debits the account and lowers the supply by the amount, keeping the invariant |
| Erc20.Token.Approve | test/UniswapV2ERC20.spec.ts:57-63 | the allowance of (owner, spender) becomes exactly the value; nothing else changes |
| Erc20.Token.Transfer | test/UniswapV2ERC20.spec.ts:65-78 | succeeds exactly when the sender holds at least the amount; on success the balances are moved, on failure (SubUnderflow) nothing changes; the supply is unchanged |
| Erc20.Token.TransferFrom | test/UniswapV2ERC20.spec.ts:80-100 | succeeds exactly when the allowance is the maximum or at least the amount (and the balance suffices); moves the balances; lowers the allowance by the amount unless it is the maximum, which is never lowered |
| Erc20.Token.Permit | test/UniswapV2ERC20.spec.ts:102-143 | succeeds exactly when the deadline has not passed and the signature recovers to the owner over the current nonce; then sets the allowance and increments that nonce by one; fails with Expired before checking the signature, with InvalidSignature otherwise, and then changes nothing |
| Pair.Pair.constructor | test/UniswapV2Factory.spec.ts:51-54 | a new pair records its factory and its two tokens, starts with empty reserves, no `kLast` and a liquidity token with no supply |
| Pair.Pair.SwapCheck | test/UniswapV2Pair.spec.ts:58-157 | a passing check means a nonzero output below each reserve, a recipient that is not one of the tokens, and outputs the pool can pay |
| Pair.Pair.Sync | test/UniswapV2Pair.spec.ts:211-244 | the state becomes `Update` of the old state and the current balances, so the reserves equal the balances; on Overflow nothing changes |
| Pair.Pair.Mint | test/UniswapV2Pair.spec.ts:24-56 | reverts exactly when `PlanMint` or `Update` does, changing nothing; otherwise mints the fee to `feeTo`, the locked minimum to the zero address, the planned liquidity to `to`, syncs the reserves to the balances, and records `kLast` as the new reserve product when the fee is on, 0 when it is off |
| Pair.Pair.Burn | test/UniswapV2Pair.spec.ts:181-209 | reverts exactly when `PlanBurn` or `Update` does, changing nothing; otherwise mints the fee, burns the liquidity the pair itself holds, pays the pro-rata amounts (never more than the balances) to `to`, syncs the reserves, and records `kLast` |
| Pair.Pair.Swap | test/UniswapV2Pair.spec.ts:58-157 | reverts exactly when the checks or `Update` do, changing nothing; otherwise pays the outputs to `to`, returns the inferred inputs, sets the reserves to the new balances and never lowers the reserve product; the liquidity token and `kLast` are untouched |
| Factory.KeysSymmetric | test/UniswapV2Factory.spec.ts:44-49 | a registered token pair is registered in both orders |
| Factory.RegisterKeepsInvariant | test/UniswapV2Factory.spec.ts:44-49 | registering a new sorted pair keeps the registry invariant: `getPair` is defined for exactly the registered pairs in both orders, maps them to their CREATE2 address, and `allPairs` lists the addresses of distinct, sorted, nonzero pairs |
| Factory.CheckNewPairCorrect | test/UniswapV2Factory.spec.ts:35-65 | the checks of `createPair` fail with IdenticalAddresses, ZeroAddress or PairExists in that order, exactly in those cases, and otherwise give the sorted pair |
| Factory.Factory.constructor | test/UniswapV2Factory.spec.ts:28-33 | a fresh factory has no fee recipient, the deployer as setter and no pairs |
| Factory.Factory.CreatePair | test/UniswapV2Factory.spec.ts:35-65 | succeeds exactly when the tokens differ, neither is zero and the pair is new in either order; then returns the CREATE2 address, records it under both orders and appends it to `allPairs`; a failure changes nothing |
| Factory.Factory.Register | test/UniswapV2Factory.spec.ts:46-49 | recording a new sorted pair maps it to its CREATE2 address under both orders and appends the address and the tokens, keeping the invariant |
| Factory.Factory.SetFeeTo | test/UniswapV2Factory.spec.ts:76-81 | succeeds exactly for the current setter and then sets `feeTo`; otherwise fails with Forbidden and changes nothing |
| Factory.Factory.SetFeeToSetter | test/UniswapV2Factory.spec.ts:83-89 | succeeds exactly for the current setter and then hands the role over; otherwise fails with Forbidden and changes nothing |
| Scenarios.FirstMint | test/UniswapV2Pair.spec.ts:24-50 | depositing 1e18 and 4e18 into an empty pool locks 1000 and issues 2e18 - 1000 |
| Scenarios.SwapTable | test/UniswapV2Pair.spec.ts:58-79 | for every row the expected output is `getAmountOut`; one unit more fails with K, exactly it succeeds with the swap amount as input |
| Scenarios.OptimisticSwaps | test/UniswapV2Pair.spec.ts:83-101 | for every same-token row one unit more than the output fails with K, and the output itself succeeds |
| Scenarios.BurnAllButLocked | test/UniswapV2Pair.spec.ts:181-209 | redeeming all but 1000 units of a 3e18/3e18 pool pays 3e18 - 1000 of each token |
| Scenarios.CumulativePrices | test/UniswapV2Pair.spec.ts:211-244 | the accumulators after the sync at t+1, the swap at t+10 and the sync at t+20 are 1, 10 and 10 + 10 times the prices in force |
| Scenarios.Prices | test/UniswapV2Pair.spec.ts:211-244 | the 3/3 pool prices both tokens at 2^112, the 6/2 pool at 1/3 and 3 in UQ112x112 |
| Scenarios.FeeOffBurn | test/UniswapV2Pair.spec.ts:246-261 | with the fee off, burning the whole position leaves the supply at 1000 and 1000 and 1001 wei in the pool |
| Scenarios.FeeOnMintFee | test/UniswapV2Pair.spec.ts:263-286 | with the fee on, the protocol fee after the swap is 249750499251388 |
| Scenarios.FeeOnBurn | test/UniswapV2Pair.spec.ts:263-286 | with the fee on, the burn leaves 1000 + 249501683697445 and 1000 + 250000187312969 wei and a supply of 1000 + 249750499251388 |
| TokenCases.Deployment | test/UniswapV2ERC20.spec.ts:26-33 | name, symbol and 18 decimals, and the deployer holds the whole supply |
| TokenCases.ApproveCase | test/UniswapV2ERC20.spec.ts:57-63 | the allowance is the approved amount |
| TokenCases.TransferCase | test/UniswapV2ERC20.spec.ts:65-72 | the transfer succeeds and moves the amount |
| TokenCases.TransferFailCase | test/UniswapV2ERC20.spec.ts:74-78 | sending one more than the supply, and sending from an empty balance, both fail |
| TokenCases.TransferFromCase | test/UniswapV2ERC20.spec.ts:80-89 | the spender moves the amount and the allowance drops to 0 |
| TokenCases.TransferFromMaxCase | test/UniswapV2ERC20.spec.ts:91-100 | under the maximum allowance the amount moves and the allowance stays at the maximum |
| TokenCases.PermitCase | test/UniswapV2ERC20.spec.ts:102-143 | a valid permit sets the allowance and moves the nonce to 1; a signature that does not also recover over nonce 1 is refused once the nonce has moved |
| FactoryCases.FreshFactory | test/UniswapV2Factory.spec.ts:28-33 | `feeTo` is zero, the setter is the deployer, no pairs |
| FactoryCases.TestAddressesOrdered | test/UniswapV2Factory.spec.ts:35-65 | the two test tokens are nonzero, different and ascending |
| FactoryCases.CreatePairCase | test/UniswapV2Factory.spec.ts:35-65 | in either argument order the first call returns the CREATE2 address, repeats fail with PairExists in both orders, both lookups and `allPairs(0)` give the address, the length is 1, and the tokens the factory recorded for the pair are the two test tokens ascending |
| FactoryCases.SetFeeToCase | test/UniswapV2Factory.spec.ts:76-81 | another account is refused, the setter sets `feeTo` |
| FactoryCases.SetFeeToSetterCase | test/UniswapV2Factory.spec.ts:83-89 | another account is refused, the setter hands over the role and is refused afterwards |
| PairCases.MintCase | test/UniswapV2Pair.spec.ts:24-50 | the first mint returns 2e18 - 1000 to the depositor with 1000 locked, and the reserves equal the deposits |
| PairCases.FirstDepositSucceeds | test/UniswapV2Pair.spec.ts:52-56 | any first deposit whose product is at least 1001^2 succeeds |
| PairCases.Deposit | test/UniswapV2Pair.spec.ts:52-56 | depositing and minting sets the reserves to the deposits, the supply to the floor root, the depositor's liquidity to the root minus 1000, and 1000 at the zero address |
| PairCases.SwapCase | test/UniswapV2Pair.spec.ts:58-129 | on every table row, taking one unit more than expected reverts with K and changes nothing, taking the expected output succeeds and leaves the reserves at `rIn + in` and `rOut - out` with the wallet credited |
| PairCases.OptimisticCase | test/UniswapV2Pair.spec.ts:83-101 | on every same-token row, one unit more reverts with K and the output itself succeeds with the deposit as input |
| PairCases.SwapToken1Case | test/UniswapV2Pair.spec.ts:131-157 | swapping 1e18 token1 into a 5/10 pool pays 453305446940074565 token0 and sets the reserves and wallet balances accordingly |
| PairCases.BurnCase | test/UniswapV2Pair.spec.ts:181-209 | the burn pays 3e18 - 1000 of each token, leaves 1000 and 1000 in the pool, a supply of 1000, and the wallet with no liquidity |
| PairCases.CumulativeCase | test/UniswapV2Pair.spec.ts:211-244 | the accumulators and timestamps read after each of the three calls are the expected ones |
| PairCases.FeeOffCase | test/UniswapV2Pair.spec.ts:246-261 | with `feeTo` unset the final burn succeeds and the supply is back to 1000 |
| PairCases.FeeOnCase | test/UniswapV2Pair.spec.ts:263-286 | with `feeTo` set the supply ends at 1000 + 249750499251388, the recipient holds 249750499251388, and the pool holds the expected balances |

## Left out

- Events (`Transfer`, `Approval`, `Mint`, `Burn`, `Swap`, `Sync`, `PairCreated`) are not modelled. Only the state changes they announce are.
- Gas-usage assertions (test/UniswapV2Pair.spec.ts:159-179, test/UniswapV2Factory.spec.ts:67-74) are not modelled, because gas is a property of the compiled code.
- The flash-swap callback (`data` argument of `swap`) and the reentrancy lock are not modelled. No case passes callback data, and nested execution is outside a sequential model.
- `skim` is not modelled, because no case calls it.
- The Keccak-256 function, the EIP-712 domain separator and permit typehash, and ECDSA recovery (test/UniswapV2ERC20.spec.ts:35-54, 135-136) are parameters (`keccak`, `recover`), because they are cryptographic primitives.
- EIP-55 checksum casing of the address returned by `getCreate2Address` is not modelled. Addresses are byte sequences.
- Time manipulation of the test network: block times are the `now` parameters.
- The factory does not deploy pair objects. `CreatePair` records the CREATE2 address, and the `Pair` class is built separately with its factory and tokens, so the reads `pair.factory()`, `pair.token0()` and `pair.token1()` (test/UniswapV2Factory.spec.ts:51-54) are not linked to the factory: the factory's own record of each pair's sorted tokens (`pairTokens`) is what `FactoryCases.CreatePairCase` reads, and `Pair.Pair.constructor` accepts any factory and tokens.
- `initialize`, which the factory calls once on a new pair, is merged into `Pair.Pair.constructor`. Its guard that only the factory may call it is not modelled.
- Pair reads of the factory's `feeTo` are replaced by the `feeTo` parameter of `Mint` and `Burn`.
- uint256 overflow is not modelled outside the pair's reserves and accumulators, because integers are unbounded: neither in the intermediate products of mint, burn, swap and the fee, nor in the liquidity token's supply, balances, allowances, nonces and amounts. The 112-bit reserve bound, the 32-bit timestamp and the 2^256 accumulators are modelled.
- Erc20.Token.Mint: does not revert when the supply would exceed 2^256 - 1, because the ledger's values are unbounded; the contract's checked addition would revert there.
- Erc20.Token.Approve: accepts values above 2^256 - 1, which the contract's uint256 argument cannot carry.
- PairMath.UpdateAccumulates: states the accumulator growth only where no 32-bit time wrap and no 2^256 wrap occurs, because the cases never reach either.
- SqrtMath.FloorSqrt: computes the floor square root digit by digit, rather than with the Babylonian iteration of the contracts. The contract fixes the result, which is the same for any correct method.
- Pair.Pair.SwapCheck: a transfer out of more than the pair holds fails with TransferFailed before the K check. The real token's revert message is not modelled.
- Erc20.Token.TransferFrom: an allowance that is too small and a balance that is too small both fail as SubUnderflow, because the token's safe-math revert does not tell them apart.
- scripts/computePairInitCodeHash.ts and test/shared/fixtures.ts are not part of this model: the first only prints a hash of compiled bytecode, the second is deployment plumbing whose token sort is `SortTokens`.
