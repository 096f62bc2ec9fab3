/** The concrete cases of the pair's test suite, stated on the model: each
    lemma fixes the inputs of one case and proves the outcome the case
    expects. */
module Scenarios {
  import opened Common
  import opened Utilities
  import opened SqrtMath
  import opened PairMath

  const E18: nat := 1_000_000_000_000_000_000

  /** The first deposit of 1 and 4 tokens into an empty pool issues 2 units
      of liquidity in total: 1000 locked, the rest to the depositor. */
  lemma FirstMint()
    ensures PlanMint(0, 0, 0, 1 * E18, 4 * E18, 0, false) == Ok(MintPlan(0, 1000, 2 * E18 - 1000))
  {
    FloorSqrtUnique(1 * E18 * (4 * E18), 2 * E18);
  }

  /** The rows of the swap table: swap amount, reserve in, reserve out and the
      expected output, in wei. */
  const SWAP_CASES: seq<(nat, nat, nat, nat)> := [
    (1 * E18, 5 * E18, 10 * E18, 1662497915624478906),
    (1 * E18, 10 * E18, 5 * E18, 453305446940074565),
    (2 * E18, 5 * E18, 10 * E18, 2851015155847869602),
    (2 * E18, 10 * E18, 5 * E18, 831248957812239453),
    (1 * E18, 10 * E18, 10 * E18, 906610893880149131),
    (1 * E18, 100 * E18, 100 * E18, 987158034397061298),
    (1 * E18, 1000 * E18, 1000 * E18, 996006981039903216)
  ]

  /** For every row, the expected output is `getAmountOut`; taking one more
      fails the K check and taking exactly it succeeds, with the swap amount
      inferred as the input. */
  lemma SwapTable(i: nat)
    requires i < |SWAP_CASES|
    ensures var (amountIn, reserveIn, reserveOut, expected) := SWAP_CASES[i];
            && GetAmountOut(amountIn, reserveIn, reserveOut) == expected
            && CheckSwap(reserveIn, reserveOut, 0, expected + 1, reserveIn + amountIn, reserveOut - (expected + 1)) == Err(K)
            && CheckSwap(reserveIn, reserveOut, 0, expected, reserveIn + amountIn, reserveOut - expected)
               == Ok((amountIn, 0))
  {
    var (amountIn, reserveIn, reserveOut, expected) := SWAP_CASES[i];
    var d := reserveIn * 1000 + amountIn * 997;
    var n := amountIn * 997 * reserveOut;
    assert expected * d <= n < (expected + 1) * d;
    DivBounds(n, d);
    DivUnique(n, d, n / d, expected);
    KHoldsIffAmountOut(amountIn, expected, reserveIn, reserveOut);
    KHoldsIffAmountOut(amountIn, expected + 1, reserveIn, reserveOut);
  }

  /** The same-token cases: output, reserve0, reserve1 and the token0 input. */
  const OPTIMISTIC_CASES: seq<(nat, nat, nat, nat)> := [
    (997_000_000_000_000_000, 5 * E18, 10 * E18, 1 * E18),
    (997_000_000_000_000_000, 10 * E18, 5 * E18, 1 * E18),
    (997_000_000_000_000_000, 5 * E18, 5 * E18, 1 * E18),
    (1 * E18, 5 * E18, 5 * E18, 1003009027081243732)
  ]

  /** Depositing token0 and withdrawing token0: one unit more than the case's
      output fails the K check, the output itself succeeds. */
  lemma OptimisticSwaps(i: nat)
    requires i < |OPTIMISTIC_CASES|
    ensures var (amountOut, reserve0, reserve1, amountIn) := OPTIMISTIC_CASES[i];
            && CheckSwap(reserve0, reserve1, amountOut + 1, 0, reserve0 + amountIn - (amountOut + 1), reserve1) == Err(K)
            && CheckSwap(reserve0, reserve1, amountOut, 0, reserve0 + amountIn - amountOut, reserve1) == Ok((amountIn, 0))
  {
    var (amountOut, reserve0, reserve1, amountIn) := OPTIMISTIC_CASES[i];
    KHoldsIffOptimistic(amountIn, amountOut, reserve0, reserve1);
    KHoldsIffOptimistic(amountIn, amountOut + 1, reserve0, reserve1);
  }

  /** Redeeming all but the locked liquidity of a 3/3 pool pays out all but
      1000 wei of each token. */
  lemma BurnAllButLocked()
    ensures PlanBurn(3 * E18, 3 * E18, 0, 3 * E18, 3 * E18, 3 * E18 - 1000, 3 * E18, false)
         == Ok(BurnPlan(0, 3 * E18 - 1000, 3 * E18 - 1000))
  {
    DivUnique((3 * E18 - 1000) * (3 * E18), 3 * E18, (3 * E18 - 1000) * (3 * E18) / (3 * E18), 3 * E18 - 1000);
  }

  /** The prices of a 3/3 pool and of a 6/2 pool, as UQ112x112. */
  const INITIAL_PRICE: (nat, nat) := EncodePrice(3 * E18, 3 * E18)
  const NEXT_PRICE: (nat, nat) := EncodePrice(6 * E18, 2 * E18)

  /** The accumulators through a sync at t + 1, a swap at t + 10 that moves
      the pool from 3/3 to 6/2, and a sync at t + 20, starting from a first
      deposit at time t: each step adds its elapsed seconds times the price
      the reserves held before it. */
  lemma CumulativePrices(t: nat)
    requires t + 20 < TWO_POW_32
    ensures Update(Reserves(3 * E18, 3 * E18, t, 0, 0), 3 * E18, 3 * E18, t + 1)
         == Ok(Reserves(3 * E18, 3 * E18, t + 1, INITIAL_PRICE.0, INITIAL_PRICE.1))
    ensures Update(Reserves(3 * E18, 3 * E18, t + 1, INITIAL_PRICE.0, INITIAL_PRICE.1), 6 * E18, 2 * E18, t + 10)
         == Ok(Reserves(6 * E18, 2 * E18, t + 10, INITIAL_PRICE.0 * 10, INITIAL_PRICE.1 * 10))
    ensures Update(Reserves(6 * E18, 2 * E18, t + 10, INITIAL_PRICE.0 * 10, INITIAL_PRICE.1 * 10), 6 * E18, 2 * E18, t + 20)
         == Ok(Reserves(6 * E18, 2 * E18, t + 20, INITIAL_PRICE.0 * 10 + NEXT_PRICE.0 * 10,
                        INITIAL_PRICE.1 * 10 + NEXT_PRICE.1 * 10))
  {
    Prices();
    var s0 := Reserves(3 * E18, 3 * E18, t, 0, 0);
    UpdateAccumulates(s0, 3 * E18, 3 * E18, t + 1);
    var s1 := Reserves(3 * E18, 3 * E18, t + 1, INITIAL_PRICE.0, INITIAL_PRICE.1);
    assert WellFormed(s1);
    UpdateAccumulates(s1, 6 * E18, 2 * E18, t + 10);
    var s2 := Reserves(6 * E18, 2 * E18, t + 10, INITIAL_PRICE.0 * 10, INITIAL_PRICE.1 * 10);
    assert WellFormed(s2);
    UpdateAccumulates(s2, 6 * E18, 2 * E18, t + 20);
  }

  /** Both prices of the 3/3 pool are 1.0, that is 2^112; the 6/2 pool's
      are 1/3 and 3, rounded down. */
  lemma Prices()
    ensures INITIAL_PRICE == (TWO_POW_112, TWO_POW_112)
    ensures NEXT_PRICE == (1730765619511609209510165443073365, 15576890575604482885591488987660288)
  {
    EncodePriceEqual(3 * E18);
    TwoPow112IsPow2();
    DivUnique(2 * E18 * TWO_POW_112, 6 * E18, 2 * E18 * TWO_POW_112 / (6 * E18), 1730765619511609209510165443073365);
    DivUnique(6 * E18 * TWO_POW_112, 2 * E18, 6 * E18 * TWO_POW_112 / (2 * E18), 15576890575604482885591488987660288);
  }

  /** Reserves after the fee cases' swap of 1 token1 for
      996006981039903216 token0 against a 1000/1000 pool. */
  const FEE_RESERVE0: nat := 1000 * E18 - 996006981039903216
  const FEE_RESERVE1: nat := 1001 * E18

  /** With the fee off, burning the depositor's whole position returns the
      supply to the locked 1000 and leaves 1000 and 1001 wei in the pool. */
  lemma FeeOffBurn()
    ensures var r := PlanBurn(FEE_RESERVE0, FEE_RESERVE1, 0, FEE_RESERVE0, FEE_RESERVE1, 1000 * E18 - 1000, 1000 * E18, false);
            && r.Ok? && r.value.fee == 0
            && FEE_RESERVE0 - r.value.amount0 == 1000 && FEE_RESERVE1 - r.value.amount1 == 1001
            && 1000 * E18 + r.value.fee - (1000 * E18 - 1000) == MINIMUM_LIQUIDITY
  {
    var n0, n1 := (1000 * E18 - 1000) * FEE_RESERVE0, (1000 * E18 - 1000) * FEE_RESERVE1;
    DivUnique(n0, 1000 * E18, n0 / (1000 * E18), FEE_RESERVE0 - 1000);
    DivUnique(n1, 1000 * E18, n1 / (1000 * E18), FEE_RESERVE1 - 1001);
  }

  /** With the fee on (kLast recorded as 1000 * 1000 at the deposit) the
      swap grew sqrt(k) from 1000 tokens to 1000001498504866770022 wei, and
      the protocol fee is 249750499251388. */
  lemma FeeOnMintFee()
    ensures MintFee(FEE_RESERVE0, FEE_RESERVE1, 1000 * E18 * (1000 * E18), 1000 * E18, true) == 249750499251388
  {
    RootKAfterSwap();
    FloorSqrtOfSquare(1000 * E18);
    FeeAfterSwap();
  }

  /** sqrt(k) after the swap. */
  lemma RootKAfterSwap()
    ensures FloorSqrt(FEE_RESERVE0 * FEE_RESERVE1) == 1000001498504866770022
  {
    FloorSqrtUnique(FEE_RESERVE0 * FEE_RESERVE1, 1000001498504866770022);
  }

  /** The fee formula on those roots and a supply of 1000 tokens. */
  lemma FeeAfterSwap()
    ensures FeeFromRoots(1000001498504866770022, 1000 * E18, 1000 * E18) == 249750499251388
  {
    var n := 1000 * E18 * (1000001498504866770022 - 1000 * E18);
    var d := 1000001498504866770022 * 5 + 1000 * E18;
    DivUnique(n, d, n / d, 249750499251388);
  }

  /** The fee-on burn first mints that fee to the recipient, then leaves
      1000 + 249501683697445 and 1000 + 250000187312969 wei in the pool. */
  lemma FeeOnBurn()
    ensures var r := PlanBurn(FEE_RESERVE0, FEE_RESERVE1, 1000 * E18 * (1000 * E18), FEE_RESERVE0, FEE_RESERVE1,
                              1000 * E18 - 1000, 1000 * E18, true);
            && r.Ok? && r.value.fee == 249750499251388
            && FEE_RESERVE0 - r.value.amount0 == 1000 + 249501683697445
            && FEE_RESERVE1 - r.value.amount1 == 1000 + 250000187312969
            && 1000 * E18 + r.value.fee - (1000 * E18 - 1000) == MINIMUM_LIQUIDITY + 249750499251388
  {
    FeeOnMintFee();
    var supply := 1000 * E18 + 249750499251388;
    var n0, n1 := (1000 * E18 - 1000) * FEE_RESERVE0, (1000 * E18 - 1000) * FEE_RESERVE1;
    DivUnique(n0, supply, n0 / supply, FEE_RESERVE0 - 1000 - 249501683697445);
    DivUnique(n1, supply, n1 / supply, FEE_RESERVE1 - 1000 - 250000187312969);
  }
}
