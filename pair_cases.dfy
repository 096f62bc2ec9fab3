/** The cases of the pair's test suite, run against the `Pair` class: two
    test tokens, each deployed with 10000 tokens for `wallet`, are the
    pair's ledgers, and the pair lives at `pairAddress`. Each method returns
    what the case reads back, and its contract states the values the case
    expects. Block times are parameters. */
module PairCases {
  import opened Common
  import opened Utilities
  import opened SqrtMath
  import opened PairMath
  import opened Erc20
  import opened Pair
  import opened Scenarios

  const TOTAL_SUPPLY: nat := 10000 * E18

  /** The accounts of a case: the depositor, the pair and the two tokens are
      different accounts, and none of them is the zero address. */
  predicate Accounts(wallet: Address, pairAddress: Address, token0: Address, token1: Address)
  {
    && wallet != pairAddress && wallet != ZERO_ADDRESS && pairAddress != ZERO_ADDRESS
    && wallet != token0 && wallet != token1
  }

  /** `mint`: the first deposit of 1 and 4 tokens issues 2 tokens of
      liquidity, 1000 units of them locked at the zero address, and the
      reserves become the deposits. */
  method MintCase(wallet: Address, pairAddress: Address, factory: Address, token0: Address, token1: Address, now: nat)
    returns (r: Result<nat>, supply: nat, walletLiquidity: nat, locked: nat,
             balance0: nat, balance1: nat, reserve0: nat, reserve1: nat)
    requires Accounts(wallet, pairAddress, token0, token1)
    ensures r == Ok(2 * E18 - MINIMUM_LIQUIDITY)
    ensures supply == 2 * E18 && walletLiquidity == 2 * E18 - MINIMUM_LIQUIDITY && locked == MINIMUM_LIQUIDITY
    ensures balance0 == 1 * E18 && balance1 == 4 * E18 && reserve0 == 1 * E18 && reserve1 == 4 * E18
  {
    var pair := Fund(wallet, pairAddress, factory, token0, token1, 1 * E18, 4 * E18);
    FirstMint();
    r := pair.Mint(wallet, ZERO_ADDRESS, now);
    supply, walletLiquidity, locked := pair.lp.totalSupply, pair.lp.Balance(wallet), pair.lp.Balance(ZERO_ADDRESS);
    balance0, balance1 := pair.Balance0(), pair.Balance1();
    reserve0, reserve1 := pair.reserve0, pair.reserve1;
  }

  /** A first deposit whose product is at least 1001 * 1001 issues liquidity. */
  lemma FirstDepositSucceeds(kLast: nat, amount0: nat, amount1: nat, feeOn: bool)
    requires 1001 * 1001 <= amount0 * amount1
    ensures PlanMint(0, 0, kLast, amount0, amount1, 0, feeOn).Ok?
  {
    PlanMintFirstDeposit(kLast, amount0, amount1, feeOn);
    FloorSqrtOfSquare(1001);
    FloorSqrtMono(1001 * 1001, amount0 * amount1);
  }

  /** The fixture and the transfers of `addLiquidity`: deploys the two test
      tokens and the pair, and sends `amount0` and `amount1` to the pair. */
  method Fund(wallet: Address, pairAddress: Address, factory: Address, token0: Address, token1: Address,
              amount0: nat, amount1: nat) returns (pair: Pair)
    requires Accounts(wallet, pairAddress, token0, token1)
    requires amount0 <= TOTAL_SUPPLY && amount1 <= TOTAL_SUPPLY
    ensures fresh(pair) && fresh(pair.ledger0) && fresh(pair.ledger1) && fresh(pair.lp) && pair.Valid()
    ensures pair.self == pairAddress && pair.token0 == token0 && pair.token1 == token1
    ensures pair.State() == EMPTY_RESERVES && pair.kLast == 0
    ensures pair.ledger0.Balance(wallet) == TOTAL_SUPPLY - amount0 && pair.Balance0() == amount0
    ensures pair.ledger1.Balance(wallet) == TOTAL_SUPPLY - amount1 && pair.Balance1() == amount1
    ensures pair.lp.totalSupply == 0 && pair.lp.balanceOf == map[]
  {
    var ledger0 := new Token(wallet, TOTAL_SUPPLY);
    var ledger1 := new Token(wallet, TOTAL_SUPPLY);
    pair := new Pair(pairAddress, factory, token0, token1, ledger0, ledger1);
    var sent0 := ledger0.Transfer(wallet, pairAddress, amount0);
    var sent1 := ledger1.Transfer(wallet, pairAddress, amount1);
  }

  /** `addLiquidity` on a fresh pair: the deposit, then `mint` to `wallet`,
      with the fee on when `feeTo` is set. */
  method Deposit(wallet: Address, pairAddress: Address, factory: Address, token0: Address, token1: Address,
                 amount0: nat, amount1: nat, feeTo: Address, now: nat) returns (pair: Pair)
    requires Accounts(wallet, pairAddress, token0, token1)
    requires amount0 <= TOTAL_SUPPLY && amount1 <= TOTAL_SUPPLY && 1001 * 1001 <= amount0 * amount1
    ensures fresh(pair) && fresh(pair.ledger0) && fresh(pair.ledger1) && fresh(pair.lp) && pair.Valid()
    ensures pair.self == pairAddress && pair.token0 == token0 && pair.token1 == token1
    ensures pair.State() == Reserves(amount0, amount1, now % TWO_POW_32, 0, 0)
    ensures pair.kLast == if feeTo != ZERO_ADDRESS then amount0 * amount1 else 0
    ensures pair.ledger0.Balance(wallet) == TOTAL_SUPPLY - amount0 && pair.Balance0() == amount0
    ensures pair.ledger1.Balance(wallet) == TOTAL_SUPPLY - amount1 && pair.Balance1() == amount1
    ensures pair.lp.totalSupply == FloorSqrt(amount0 * amount1)
    ensures pair.lp.Balance(wallet) == FloorSqrt(amount0 * amount1) - MINIMUM_LIQUIDITY
    ensures pair.lp.Balance(ZERO_ADDRESS) == MINIMUM_LIQUIDITY
    ensures forall a :: a != wallet && a != ZERO_ADDRESS ==> pair.lp.Balance(a) == 0
  {
    pair := Fund(wallet, pairAddress, factory, token0, token1, amount0, amount1);
    FirstDepositSucceeds(0, amount0, amount1, feeTo != ZERO_ADDRESS);
    PlanMintFirstDeposit(0, amount0, amount1, feeTo != ZERO_ADDRESS);
    var minted := pair.Mint(wallet, feeTo, now);
  }

  /** `addLiquidity` followed by sending `in0` of `token0` and `in1` of
      `token1` to the pair, ahead of a swap. */
  method Primed(wallet: Address, pairAddress: Address, factory: Address, token0: Address, token1: Address,
                reserve0: nat, reserve1: nat, in0: nat, in1: nat, feeTo: Address, now: nat) returns (pair: Pair)
    requires Accounts(wallet, pairAddress, token0, token1)
    requires reserve0 + in0 <= TOTAL_SUPPLY && reserve1 + in1 <= TOTAL_SUPPLY && 1001 * 1001 <= reserve0 * reserve1
    ensures fresh(pair) && fresh(pair.ledger0) && fresh(pair.ledger1) && fresh(pair.lp) && pair.Valid()
    ensures pair.self == pairAddress && pair.token0 == token0 && pair.token1 == token1
    ensures pair.State() == Reserves(reserve0, reserve1, now % TWO_POW_32, 0, 0)
    ensures pair.kLast == if feeTo != ZERO_ADDRESS then reserve0 * reserve1 else 0
    ensures pair.ledger0.Balance(wallet) == TOTAL_SUPPLY - reserve0 - in0 && pair.Balance0() == reserve0 + in0
    ensures pair.ledger1.Balance(wallet) == TOTAL_SUPPLY - reserve1 - in1 && pair.Balance1() == reserve1 + in1
  {
    pair := Deposit(wallet, pairAddress, factory, token0, token1, reserve0, reserve1, feeTo, now);
    var sent0 := pair.ledger0.Transfer(wallet, pairAddress, in0);
    var sent1 := pair.ledger1.Transfer(wallet, pairAddress, in1);
  }

  /** `getInputPrice`: for every row of the swap table, after depositing the
      row's reserves and sending the swap amount of `token0`, asking for one
      unit more than the expected output of `token1` reverts with K and
      asking for the expected output succeeds; the reserves are then the
      balances, `reserveIn + amountIn` and `reserveOut - expected`, and the
      wallet holds what it has not deposited plus the output (`swap:token0`
      is the first row). */
  method SwapCase(i: nat, wallet: Address, pairAddress: Address, factory: Address, token0: Address, token1: Address,
                  now: nat, later: nat)
    returns (tooMuch: Result<(nat, nat)>, exact: Result<(nat, nat)>, reserve0: nat, reserve1: nat,
             walletBalance0: nat, walletBalance1: nat)
    requires i < |SWAP_CASES| && Accounts(wallet, pairAddress, token0, token1)
    ensures var (amountIn, reserveIn, reserveOut, expected) := SWAP_CASES[i];
            && tooMuch == Err(K) && exact == Ok((amountIn, 0))
            && reserve0 == reserveIn + amountIn && reserve1 == reserveOut - expected
            && walletBalance0 == TOTAL_SUPPLY - reserveIn - amountIn
            && walletBalance1 == TOTAL_SUPPLY - reserveOut + expected
  {
    var (amountIn, reserveIn, reserveOut, expected) := SWAP_CASES[i];
    SwapTable(i);
    tooMuch, exact, reserve0, reserve1, walletBalance0, walletBalance1 :=
      SwapRow(amountIn, reserveIn, reserveOut, expected, wallet, pairAddress, factory, token0, token1, now, later);
  }

  /** A swap out of `token1` only, to an account other than the pair and
      the two tokens, comes down to the K check on the balances with the
      output gone. */
  lemma SwapCheckOut1(pair: Pair, amount1Out: nat, to: Address)
    requires pair.Valid() && to != pair.self && to != pair.token0 && to != pair.token1
    requires 0 < amount1Out < pair.reserve1 && 0 < pair.reserve0 && amount1Out <= pair.Balance1()
    ensures pair.SwapCheck(0, amount1Out, to)
         == CheckSwap(pair.reserve0, pair.reserve1, 0, amount1Out, pair.Balance0(), pair.Balance1() - amount1Out)
  {
    MoveEffect(pair.ledger1.balanceOf, pair.self, to, amount1Out, pair.self);
  }

  /** The same for a swap out of `token0` only. */
  lemma SwapCheckOut0(pair: Pair, amount0Out: nat, to: Address)
    requires pair.Valid() && to != pair.self && to != pair.token0 && to != pair.token1
    requires 0 < amount0Out < pair.reserve0 && 0 < pair.reserve1 && amount0Out <= pair.Balance0()
    ensures pair.SwapCheck(amount0Out, 0, to)
         == CheckSwap(pair.reserve0, pair.reserve1, amount0Out, 0, pair.Balance0() - amount0Out, pair.Balance1())
  {
    MoveEffect(pair.ledger0.balanceOf, pair.self, to, amount0Out, pair.self);
  }

  /** A swap that the checks reject: it reports the check's error and
      changes nothing. */
  method Rejected(pair: Pair, amount0Out: nat, amount1Out: nat, to: Address, now: nat) returns (r: Result<(nat, nat)>)
    requires pair.Valid() && pair.SwapCheck(amount0Out, amount1Out, to).Err?
    modifies pair, pair.ledger0, pair.ledger1
    ensures r == Err(old(pair.SwapCheck(amount0Out, amount1Out, to)).error)
    ensures unchanged(pair, pair.ledger0, pair.ledger1)
  {
    r := pair.Swap(amount0Out, amount1Out, to, now);
  }

  /** One row of the swap table, given what the K check says about it. */
  method SwapRow(amountIn: nat, reserveIn: nat, reserveOut: nat, expected: nat,
                 wallet: Address, pairAddress: Address, factory: Address, token0: Address, token1: Address,
                 now: nat, later: nat)
    returns (tooMuch: Result<(nat, nat)>, exact: Result<(nat, nat)>, reserve0: nat, reserve1: nat,
             walletBalance0: nat, walletBalance1: nat)
    requires Accounts(wallet, pairAddress, token0, token1)
    requires reserveIn + amountIn <= TOTAL_SUPPLY && reserveOut <= TOTAL_SUPPLY && 1001 * 1001 <= reserveIn * reserveOut
    requires 0 < amountIn && 0 < expected && expected + 1 < reserveOut
    requires CheckSwap(reserveIn, reserveOut, 0, expected + 1, reserveIn + amountIn, reserveOut - (expected + 1)) == Err(K)
    requires CheckSwap(reserveIn, reserveOut, 0, expected, reserveIn + amountIn, reserveOut - expected) == Ok((amountIn, 0))
    ensures tooMuch == Err(K) && exact == Ok((amountIn, 0))
    ensures reserve0 == reserveIn + amountIn && reserve1 == reserveOut - expected
    ensures walletBalance0 == TOTAL_SUPPLY - reserveIn - amountIn
    ensures walletBalance1 == TOTAL_SUPPLY - reserveOut + expected
  {
    var pair;
    pair, tooMuch := SwapRowRejected(amountIn, reserveIn, reserveOut, expected, wallet, pairAddress, factory,
                                     token0, token1, now, later);
    SwapCheckOut1(pair, expected, wallet);
    exact := pair.Swap(0, expected, wallet, later);
    reserve0, reserve1 := pair.reserve0, pair.reserve1;
    walletBalance0, walletBalance1 := pair.ledger0.Balance(wallet), pair.ledger1.Balance(wallet);
  }

  /** The first half of a row: the deposit, the input, and the swap of one
      unit too many, which reverts. */
  method SwapRowRejected(amountIn: nat, reserveIn: nat, reserveOut: nat, expected: nat,
                         wallet: Address, pairAddress: Address, factory: Address, token0: Address, token1: Address,
                         now: nat, later: nat)
    returns (pair: Pair, tooMuch: Result<(nat, nat)>)
    requires Accounts(wallet, pairAddress, token0, token1)
    requires reserveIn + amountIn <= TOTAL_SUPPLY && reserveOut <= TOTAL_SUPPLY && 1001 * 1001 <= reserveIn * reserveOut
    requires 0 < amountIn && 0 < expected && expected + 1 < reserveOut
    requires CheckSwap(reserveIn, reserveOut, 0, expected + 1, reserveIn + amountIn, reserveOut - (expected + 1)) == Err(K)
    ensures fresh(pair) && fresh(pair.ledger0) && fresh(pair.ledger1) && fresh(pair.lp) && pair.Valid()
    ensures pair.self == pairAddress && pair.token0 == token0 && pair.token1 == token1
    ensures tooMuch == Err(K)
    ensures pair.reserve0 == reserveIn && pair.reserve1 == reserveOut
    ensures pair.ledger0.Balance(wallet) == TOTAL_SUPPLY - reserveIn - amountIn && pair.Balance0() == reserveIn + amountIn
    ensures pair.ledger1.Balance(wallet) == TOTAL_SUPPLY - reserveOut && pair.Balance1() == reserveOut
  {
    pair := Primed(wallet, pairAddress, factory, token0, token1, reserveIn, reserveOut, amountIn, 0, ZERO_ADDRESS, now);
    SwapCheckOut1(pair, expected + 1, wallet);
    tooMuch := Rejected(pair, 0, expected + 1, wallet, later);
  }

  /** `optimistic`: for every same-token case, after depositing the case's
      reserves and sending its input of `token0`, withdrawing one unit more
      than the case's output of `token0` reverts with K and withdrawing the
      output succeeds, with the input inferred net of the output. */
  method OptimisticCase(i: nat, wallet: Address, pairAddress: Address, factory: Address, token0: Address,
                        token1: Address, now: nat, later: nat)
    returns (tooMuch: Result<(nat, nat)>, exact: Result<(nat, nat)>, reserve0: nat, reserve1: nat)
    requires i < |OPTIMISTIC_CASES| && Accounts(wallet, pairAddress, token0, token1)
    ensures var (amountOut, reserveA, reserveB, amountIn) := OPTIMISTIC_CASES[i];
            && tooMuch == Err(K) && exact == Ok((amountIn, 0))
            && reserve0 == reserveA + amountIn - amountOut && reserve1 == reserveB
  {
    var (amountOut, reserveA, reserveB, amountIn) := OPTIMISTIC_CASES[i];
    OptimisticSwaps(i);
    var pair;
    pair, tooMuch := OptimisticRejected(amountOut, reserveA, reserveB, amountIn, wallet, pairAddress, factory,
                                        token0, token1, now, later);
    SwapCheckOut0(pair, amountOut, wallet);
    exact := pair.Swap(amountOut, 0, wallet, later);
    reserve0, reserve1 := pair.reserve0, pair.reserve1;
  }

  /** The first half of a same-token case: the deposit, the input, and the
      withdrawal of one unit too many, which reverts. */
  method OptimisticRejected(amountOut: nat, reserve0: nat, reserve1: nat, amountIn: nat,
                            wallet: Address, pairAddress: Address, factory: Address, token0: Address, token1: Address,
                            now: nat, later: nat)
    returns (pair: Pair, tooMuch: Result<(nat, nat)>)
    requires Accounts(wallet, pairAddress, token0, token1)
    requires reserve0 + amountIn <= TOTAL_SUPPLY && reserve1 <= TOTAL_SUPPLY && 1001 * 1001 <= reserve0 * reserve1
    requires 0 < amountOut && amountOut + 1 < reserve0
    requires CheckSwap(reserve0, reserve1, amountOut + 1, 0, reserve0 + amountIn - (amountOut + 1), reserve1) == Err(K)
    ensures fresh(pair) && fresh(pair.ledger0) && fresh(pair.ledger1) && fresh(pair.lp) && pair.Valid()
    ensures pair.self == pairAddress && pair.token0 == token0 && pair.token1 == token1
    ensures tooMuch == Err(K)
    ensures pair.reserve0 == reserve0 && pair.reserve1 == reserve1
    ensures pair.Balance0() == reserve0 + amountIn && pair.Balance1() == reserve1
  {
    pair := Primed(wallet, pairAddress, factory, token0, token1, reserve0, reserve1, amountIn, 0, ZERO_ADDRESS, now);
    SwapCheckOut0(pair, amountOut + 1, wallet);
    tooMuch := Rejected(pair, amountOut + 1, 0, wallet, later);
  }

  /** The check of `swap:token1`: 1 token1 in buys 453305446940074565 of
      `token0` from a 5/10 pool. */
  lemma SwapToken1Check()
    ensures var r := CheckSwap(5 * E18, 10 * E18, 453305446940074565, 0, 5 * E18 - 453305446940074565, 11 * E18);
            r.Ok? && r.value == (0, 1 * E18)
  {
    SwapTable(1);
    KHoldsIffAmountOut(1 * E18, 453305446940074565, 10 * E18, 5 * E18);
    KHoldsSymmetric(5 * E18 - 453305446940074565, 11 * E18, 0, 1 * E18, 5 * E18, 10 * E18);
  }

  /** `swap:token1`: the mirror of `swap:token0`, paying 1 token1 for
      453305446940074565 of `token0`; the reserves follow the balances and
      the wallet receives the output. */
  method SwapToken1Case(wallet: Address, pairAddress: Address, factory: Address, token0: Address, token1: Address,
                        now: nat, later: nat)
    returns (r: Result<(nat, nat)>, reserve0: nat, reserve1: nat, walletBalance0: nat, walletBalance1: nat)
    requires Accounts(wallet, pairAddress, token0, token1)
    ensures r.Ok? && r.value == (0, 1 * E18)
    ensures reserve0 == 5 * E18 - 453305446940074565 && reserve1 == 10 * E18 + 1 * E18
    ensures walletBalance0 == TOTAL_SUPPLY - 5 * E18 + 453305446940074565
    ensures walletBalance1 == TOTAL_SUPPLY - 10 * E18 - 1 * E18
  {
    var pair := Primed(wallet, pairAddress, factory, token0, token1, 5 * E18, 10 * E18, 0, 1 * E18, ZERO_ADDRESS, now);
    SwapToken1Check();
    SwapCheckOut0(pair, 453305446940074565, wallet);
    r := pair.Swap(453305446940074565, 0, wallet, later);
    reserve0, reserve1 := pair.reserve0, pair.reserve1;
    walletBalance0, walletBalance1 := pair.ledger0.Balance(wallet), pair.ledger1.Balance(wallet);
  }

  /** `burn`: after a 3/3 deposit the wallet returns all its liquidity to the
      pair and burns it, receiving all but 1000 units of each token; the
      supply falls back to the locked minimum and the reserves to 1000 and
      1000. */
  method BurnCase(wallet: Address, pairAddress: Address, factory: Address, token0: Address, token1: Address,
                  now: nat, later: nat)
    returns (r: Result<(nat, nat)>, walletLiquidity: nat, supply: nat, balance0: nat, balance1: nat,
             reserve0: nat, reserve1: nat, walletBalance0: nat, walletBalance1: nat)
    requires Accounts(wallet, pairAddress, token0, token1)
    ensures r.Ok? && r.value == (3 * E18 - 1000, 3 * E18 - 1000)
    ensures walletLiquidity == 0 && supply == MINIMUM_LIQUIDITY
    ensures balance0 == 1000 && balance1 == 1000 && reserve0 == 1000 && reserve1 == 1000
    ensures walletBalance0 == TOTAL_SUPPLY - 1000 && walletBalance1 == TOTAL_SUPPLY - 1000
  {
    var pair, liquidity := Returned(wallet, pairAddress, factory, token0, token1, 3 * E18, 3 * E18, ZERO_ADDRESS, now);
    FloorSqrtOfSquare(3 * E18);
    BurnAllButLocked();
    r := pair.Burn(wallet, ZERO_ADDRESS, later);
    walletLiquidity, supply := pair.lp.Balance(wallet), pair.lp.totalSupply;
    balance0, balance1 := pair.Balance0(), pair.Balance1();
    reserve0, reserve1 := pair.reserve0, pair.reserve1;
    walletBalance0, walletBalance1 := pair.ledger0.Balance(wallet), pair.ledger1.Balance(wallet);
  }

  /** `addLiquidity`, then the wallet sends all its liquidity back to the
      pair, ahead of a burn. */
  method Returned(wallet: Address, pairAddress: Address, factory: Address, token0: Address, token1: Address,
                  amount0: nat, amount1: nat, feeTo: Address, now: nat) returns (pair: Pair, liquidity: nat)
    requires Accounts(wallet, pairAddress, token0, token1)
    requires amount0 <= TOTAL_SUPPLY && amount1 <= TOTAL_SUPPLY && 1001 * 1001 <= amount0 * amount1
    ensures fresh(pair) && fresh(pair.ledger0) && fresh(pair.ledger1) && fresh(pair.lp) && pair.Valid()
    ensures pair.self == pairAddress && pair.token0 == token0 && pair.token1 == token1
    ensures pair.State() == Reserves(amount0, amount1, now % TWO_POW_32, 0, 0)
    ensures pair.kLast == if feeTo != ZERO_ADDRESS then amount0 * amount1 else 0
    ensures pair.ledger0.Balance(wallet) == TOTAL_SUPPLY - amount0 && pair.Balance0() == amount0
    ensures pair.ledger1.Balance(wallet) == TOTAL_SUPPLY - amount1 && pair.Balance1() == amount1
    ensures liquidity + MINIMUM_LIQUIDITY == FloorSqrt(amount0 * amount1)
    ensures pair.lp.totalSupply == liquidity + MINIMUM_LIQUIDITY
    ensures pair.lp.Balance(pairAddress) == liquidity && pair.lp.Balance(wallet) == 0
  {
    pair := Deposit(wallet, pairAddress, factory, token0, token1, amount0, amount1, feeTo, now);
    liquidity := SendBack(pair, wallet);
  }

  /** The transfer of all of `wallet`'s liquidity to the pair itself. */
  method SendBack(pair: Pair, wallet: Address) returns (liquidity: nat)
    requires pair.Valid() && wallet != pair.self
    modifies pair.lp
    ensures pair.Valid() && liquidity == old(pair.lp.Balance(wallet))
    ensures pair.lp.totalSupply == old(pair.lp.totalSupply)
    ensures pair.lp.Balance(pair.self) == old(pair.lp.Balance(pair.self)) + liquidity && pair.lp.Balance(wallet) == 0
    ensures pair.lp.balanceOf == Move(old(pair.lp.balanceOf), wallet, pair.self, liquidity)
  {
    liquidity := pair.lp.Balance(wallet);
    var sent := pair.lp.Transfer(wallet, pair.self, liquidity);
    MoveEffect(old(pair.lp.balanceOf), wallet, pair.self, liquidity, wallet);
    MoveEffect(old(pair.lp.balanceOf), wallet, pair.self, liquidity, pair.self);
  }

  /** A swap whose checks pass, out to an account other than the pair: the
      reserves become the balances net of the outputs, which reach `to`. */
  method Swapped(pair: Pair, amount0Out: nat, amount1Out: nat, to: Address, now: nat) returns (r: Result<(nat, nat)>)
    requires pair.Valid() && to != pair.self && pair.SwapCheck(amount0Out, amount1Out, to).Ok?
    requires pair.Balance0() <= UINT112_MAX && pair.Balance1() <= UINT112_MAX
    modifies pair, pair.ledger0, pair.ledger1
    ensures pair.Valid() && r == old(pair.SwapCheck(amount0Out, amount1Out, to))
    ensures pair.State()
         == Update(old(pair.State()), old(pair.Balance0()) - amount0Out, old(pair.Balance1()) - amount1Out, now).value
    ensures pair.Balance0() == old(pair.Balance0()) - amount0Out && pair.Balance1() == old(pair.Balance1()) - amount1Out
    ensures pair.ledger0.Balance(to) == old(pair.ledger0.Balance(to)) + amount0Out
    ensures pair.ledger1.Balance(to) == old(pair.ledger1.Balance(to)) + amount1Out
    ensures pair.kLast == old(pair.kLast) && unchanged(pair.lp)
  {
    MoveEffect(pair.ledger0.balanceOf, pair.self, to, amount0Out, pair.self);
    MoveEffect(pair.ledger1.balanceOf, pair.self, to, amount1Out, pair.self);
    MoveEffect(pair.ledger0.balanceOf, pair.self, to, amount0Out, to);
    MoveEffect(pair.ledger1.balanceOf, pair.self, to, amount1Out, to);
    r := pair.Swap(amount0Out, amount1Out, to, now);
  }

  /** The swap of `price{0,1}CumulativeLast`: 3 token0 in buys 1 token1 out
      of a 3/3 pool. */
  lemma CumulativeSwapCheck()
    ensures var r := CheckSwap(3 * E18, 3 * E18, 0, 1 * E18, 6 * E18, 2 * E18);
            r.Ok? && r.value == (3 * E18, 0)
  {
  }

  /** `price{0,1}CumulativeLast`: after a 3/3 deposit at time `t`, a sync at
      `t + 1` accumulates one second of the initial price, a swap to 6/2 at
      `t + 10` ten seconds of it, and a sync at `t + 20` ten more seconds of
      the new price. */
  method CumulativeCase(wallet: Address, pairAddress: Address, factory: Address, token0: Address, token1: Address,
                        t: nat)
    returns (first0: nat, first1: nat, firstTime: nat, second0: nat, second1: nat, secondTime: nat,
             third0: nat, third1: nat, thirdTime: nat)
    requires Accounts(wallet, pairAddress, token0, token1) && t + 20 < TWO_POW_32
    ensures first0 == INITIAL_PRICE.0 && first1 == INITIAL_PRICE.1 && firstTime == t + 1
    ensures second0 == INITIAL_PRICE.0 * 10 && second1 == INITIAL_PRICE.1 * 10 && secondTime == t + 10
    ensures third0 == INITIAL_PRICE.0 * 10 + NEXT_PRICE.0 * 10 && third1 == INITIAL_PRICE.1 * 10 + NEXT_PRICE.1 * 10
    ensures thirdTime == t + 20
  {
    CumulativePrices(t);
    var pair;
    pair, first0, first1, firstTime := CumulativeSwapped(wallet, pairAddress, factory, token0, token1, t);
    second0, second1, secondTime := pair.price0CumulativeLast, pair.price1CumulativeLast, pair.blockTimestampLast;
    var synced := pair.Sync(t + 20);
    third0, third1, thirdTime := pair.price0CumulativeLast, pair.price1CumulativeLast, pair.blockTimestampLast;
  }

  /** The deposit and the sync at `t + 1`, whose accumulators are returned,
      then the swap at `t + 10`. */
  method CumulativeSwapped(wallet: Address, pairAddress: Address, factory: Address, token0: Address, token1: Address,
                           t: nat)
    returns (pair: Pair, first0: nat, first1: nat, firstTime: nat)
    requires Accounts(wallet, pairAddress, token0, token1) && t + 20 < TWO_POW_32
    ensures fresh(pair) && fresh(pair.ledger0) && fresh(pair.ledger1) && fresh(pair.lp) && pair.Valid()
    ensures pair.Balance0() == 6 * E18 && pair.Balance1() == 2 * E18
    ensures first0 == INITIAL_PRICE.0 && first1 == INITIAL_PRICE.1 && firstTime == t + 1
    ensures pair.State() == Reserves(6 * E18, 2 * E18, t + 10, INITIAL_PRICE.0 * 10, INITIAL_PRICE.1 * 10)
  {
    CumulativePrices(t);
    pair := CumulativeSynced(wallet, pairAddress, factory, token0, token1, t);
    first0, first1, firstTime := pair.price0CumulativeLast, pair.price1CumulativeLast, pair.blockTimestampLast;
    CumulativeSwapCheck();
    SwapCheckOut1(pair, 1 * E18, wallet);
    var swapped := Swapped(pair, 0, 1 * E18, wallet, t + 10);
  }

  /** The deposit at `t`, the sync at `t + 1` and the transfer of the swap's
      3 token0 to the pair. */
  method CumulativeSynced(wallet: Address, pairAddress: Address, factory: Address, token0: Address, token1: Address,
                          t: nat)
    returns (pair: Pair)
    requires Accounts(wallet, pairAddress, token0, token1) && t + 20 < TWO_POW_32
    ensures fresh(pair) && fresh(pair.ledger0) && fresh(pair.ledger1) && fresh(pair.lp) && pair.Valid()
    ensures pair.self == pairAddress && pair.token0 == token0 && pair.token1 == token1
    ensures pair.Balance0() == 6 * E18 && pair.Balance1() == 3 * E18
    ensures pair.State() == Reserves(3 * E18, 3 * E18, t + 1, INITIAL_PRICE.0, INITIAL_PRICE.1)
  {
    pair := FirstSync(wallet, pairAddress, factory, token0, token1, t);
    var sent := pair.ledger0.Transfer(wallet, pairAddress, 3 * E18);
  }

  /** The deposit of 3 and 3 tokens at `t` and the sync at `t + 1`. */
  method FirstSync(wallet: Address, pairAddress: Address, factory: Address, token0: Address, token1: Address,
                   t: nat)
    returns (pair: Pair)
    requires Accounts(wallet, pairAddress, token0, token1) && t + 20 < TWO_POW_32
    ensures fresh(pair) && fresh(pair.ledger0) && fresh(pair.ledger1) && fresh(pair.lp) && pair.Valid()
    ensures pair.self == pairAddress && pair.token0 == token0 && pair.token1 == token1
    ensures pair.ledger0.Balance(wallet) == TOTAL_SUPPLY - 3 * E18
    ensures pair.Balance0() == 3 * E18 && pair.Balance1() == 3 * E18
    ensures pair.State() == Reserves(3 * E18, 3 * E18, t + 1, INITIAL_PRICE.0, INITIAL_PRICE.1)
  {
    CumulativePrices(t);
    assert t % TWO_POW_32 == t;
    pair := Deposit(wallet, pairAddress, factory, token0, token1, 3 * E18, 3 * E18, ZERO_ADDRESS, t);
    var synced := pair.Sync(t + 1);
  }

  /** The swap of the fee cases: 1 token1 in buys 996006981039903216 of
      `token0` from a 1000/1000 pool. */
  lemma FeeSwapCheck()
    ensures var r := CheckSwap(1000 * E18, 1000 * E18, 996006981039903216, 0, FEE_RESERVE0, FEE_RESERVE1);
            r.Ok? && r.value == (0, 1 * E18)
  {
    SwapTable(6);
    KHoldsIffAmountOut(1 * E18, 996006981039903216, 1000 * E18, 1000 * E18);
    KHoldsSymmetric(FEE_RESERVE0, FEE_RESERVE1, 0, 1 * E18, 1000 * E18, 1000 * E18);
  }

  /** The setup of `feeTo:off` and `feeTo:on`: a 1000/1000 deposit with the
      fee recipient `feeTo`, a swap of 1 token1 for 996006981039903216 of
      `token0`, and all of the wallet's liquidity back to the pair. */
  method FeeReturned(wallet: Address, pairAddress: Address, factory: Address, token0: Address, token1: Address,
                     feeTo: Address, now: nat, later: nat) returns (pair: Pair)
    requires Accounts(wallet, pairAddress, token0, token1) && feeTo != wallet && feeTo != pairAddress
    ensures fresh(pair) && fresh(pair.ledger0) && fresh(pair.ledger1) && fresh(pair.lp) && pair.Valid()
    ensures pair.self == pairAddress && pair.token0 == token0 && pair.token1 == token1
    ensures pair.reserve0 == FEE_RESERVE0 && pair.reserve1 == FEE_RESERVE1
    ensures pair.Balance0() == FEE_RESERVE0 && pair.Balance1() == FEE_RESERVE1
    ensures pair.kLast == if feeTo != ZERO_ADDRESS then 1000 * E18 * (1000 * E18) else 0
    ensures pair.lp.totalSupply == 1000 * E18 && pair.lp.Balance(pairAddress) == 1000 * E18 - MINIMUM_LIQUIDITY
    ensures feeTo != ZERO_ADDRESS ==> pair.lp.Balance(feeTo) == 0
  {
    pair := FeeSwapped(wallet, pairAddress, factory, token0, token1, feeTo, now, later);
    MoveEffect(pair.lp.balanceOf, wallet, pairAddress, pair.lp.Balance(wallet), feeTo);
    var liquidity := SendBack(pair, wallet);
  }

  /** The deposit and the swap of the fee cases. */
  method FeeSwapped(wallet: Address, pairAddress: Address, factory: Address, token0: Address, token1: Address,
                    feeTo: Address, now: nat, later: nat) returns (pair: Pair)
    requires Accounts(wallet, pairAddress, token0, token1) && feeTo != wallet && feeTo != pairAddress
    ensures fresh(pair) && fresh(pair.ledger0) && fresh(pair.ledger1) && fresh(pair.lp) && pair.Valid()
    ensures pair.self == pairAddress && pair.token0 == token0 && pair.token1 == token1
    ensures pair.reserve0 == FEE_RESERVE0 && pair.reserve1 == FEE_RESERVE1
    ensures pair.Balance0() == FEE_RESERVE0 && pair.Balance1() == FEE_RESERVE1
    ensures pair.kLast == if feeTo != ZERO_ADDRESS then 1000 * E18 * (1000 * E18) else 0
    ensures pair.lp.totalSupply == 1000 * E18 && pair.lp.Balance(pairAddress) == 0
    ensures pair.lp.Balance(wallet) == 1000 * E18 - MINIMUM_LIQUIDITY
    ensures feeTo != ZERO_ADDRESS ==> pair.lp.Balance(feeTo) == 0
  {
    pair := FeeDeposited(wallet, pairAddress, factory, token0, token1, feeTo, now);
    FeeSwapCheck();
    SwapCheckOut0(pair, 996006981039903216, wallet);
    var swapped := Swapped(pair, 996006981039903216, 0, wallet, later);
  }

  /** `feeTo:off`: with no fee recipient, burning the wallet's whole position
      after the swap returns the supply to the locked minimum. */
  method FeeOffCase(wallet: Address, pairAddress: Address, factory: Address, token0: Address, token1: Address,
                    now: nat, later: nat, last: nat)
    returns (r: Result<(nat, nat)>, supply: nat)
    requires Accounts(wallet, pairAddress, token0, token1)
    ensures r.Ok? && supply == MINIMUM_LIQUIDITY
  {
    var pair := FeeReturned(wallet, pairAddress, factory, token0, token1, ZERO_ADDRESS, now, later);
    FeeOffBurn();
    var p := PlanBurn(FEE_RESERVE0, FEE_RESERVE1, 0, FEE_RESERVE0, FEE_RESERVE1, 1000 * E18 - 1000, 1000 * E18, false);
    MoveEffect(pair.ledger0.balanceOf, pairAddress, wallet, p.value.amount0, pairAddress);
    MoveEffect(pair.ledger1.balanceOf, pairAddress, wallet, p.value.amount1, pairAddress);
    r := pair.Burn(wallet, ZERO_ADDRESS, last);
    supply := pair.lp.totalSupply;
  }

  /** `feeTo:on`: with `other` as fee recipient the same burn first mints
      the protocol fee of 249750499251388 to `other`, so that much more
      supply remains, and the pool keeps the matching share of each token. */
  method FeeOnCase(wallet: Address, other: Address, pairAddress: Address, factory: Address, token0: Address,
                   token1: Address, now: nat, later: nat, last: nat)
    returns (r: Result<(nat, nat)>, supply: nat, otherLiquidity: nat, balance0: nat, balance1: nat)
    requires Accounts(wallet, pairAddress, token0, token1)
    requires other != wallet && other != pairAddress && other != ZERO_ADDRESS
    ensures r.Ok? && supply == MINIMUM_LIQUIDITY + 249750499251388 && otherLiquidity == 249750499251388
    ensures balance0 == 1000 + 249501683697445 && balance1 == 1000 + 250000187312969
  {
    var pair := FeeReturned(wallet, pairAddress, factory, token0, token1, other, now, later);
    FeeOnBurn();
    var p := PlanBurn(FEE_RESERVE0, FEE_RESERVE1, 1000 * E18 * (1000 * E18), FEE_RESERVE0, FEE_RESERVE1,
                      1000 * E18 - 1000, 1000 * E18, true);
    MoveEffect(pair.ledger0.balanceOf, pairAddress, wallet, p.value.amount0, pairAddress);
    MoveEffect(pair.ledger1.balanceOf, pairAddress, wallet, p.value.amount1, pairAddress);
    r := pair.Burn(wallet, other, last);
    supply, otherLiquidity := pair.lp.totalSupply, pair.lp.Balance(other);
    balance0, balance1 := pair.Balance0(), pair.Balance1();
  }

  /** The 1000/1000 deposit of the fee cases and the swap's 1 token1 sent
      to the pair. */
  method FeeDeposited(wallet: Address, pairAddress: Address, factory: Address, token0: Address, token1: Address,
                      feeTo: Address, now: nat) returns (pair: Pair)
    requires Accounts(wallet, pairAddress, token0, token1) && feeTo != wallet && feeTo != pairAddress
    ensures fresh(pair) && fresh(pair.ledger0) && fresh(pair.ledger1) && fresh(pair.lp) && pair.Valid()
    ensures pair.self == pairAddress && pair.token0 == token0 && pair.token1 == token1
    ensures pair.reserve0 == 1000 * E18 && pair.reserve1 == 1000 * E18
    ensures pair.Balance0() == 1000 * E18 && pair.Balance1() == 1001 * E18
    ensures pair.kLast == if feeTo != ZERO_ADDRESS then 1000 * E18 * (1000 * E18) else 0
    ensures pair.lp.totalSupply == 1000 * E18 && pair.lp.Balance(pairAddress) == 0
    ensures pair.lp.Balance(wallet) == 1000 * E18 - MINIMUM_LIQUIDITY
    ensures feeTo != ZERO_ADDRESS ==> pair.lp.Balance(feeTo) == 0
  {
    FloorSqrtOfSquare(1000 * E18);
    pair := Deposit(wallet, pairAddress, factory, token0, token1, 1000 * E18, 1000 * E18, feeTo, now);
    var sent := pair.ledger1.Transfer(wallet, pairAddress, 1 * E18);
  }
}
