/** The arithmetic of the pair engine, as pure functions: the reserve update
    with its price accumulators, the protocol fee, liquidity issued by a
    mint, amounts redeemed by a burn, and the fee-adjusted constant-product
    check of a swap. The `Pair` class applies these to its state. */
module PairMath {
  import opened Common
  import opened Utilities
  import opened SqrtMath

  /** Liquidity locked forever at the zero address by the first mint. */
  const MINIMUM_LIQUIDITY: nat := 1000

  /** 2^112 - 1, the largest value a reserve (a `uint112`) can hold. */
  const UINT112_MAX: nat := TWO_POW_112 - 1

  const TWO_POW_32: nat := 0x1_0000_0000

  const TWO_POW_256: nat := MAX_UINT256 + 1

  /** What the reserve ledger stores: the reserves, the 32-bit time of the
      last update and the two price accumulators. */
  datatype Reserves = Reserves(
    reserve0: nat,
    reserve1: nat,
    blockTimestampLast: nat,
    price0CumulativeLast: nat,
    price1CumulativeLast: nat)

  /** Every field fits its storage width. */
  ghost predicate WellFormed(s: Reserves)
  {
    && s.reserve0 <= UINT112_MAX && s.reserve1 <= UINT112_MAX
    && s.blockTimestampLast < TWO_POW_32
    && s.price0CumulativeLast < TWO_POW_256 && s.price1CumulativeLast < TWO_POW_256
  }

  /** reserve0 * reserve1, the product the protocol fee is measured against. */
  function ReserveProduct(s: Reserves): nat
  {
    s.reserve0 * s.reserve1
  }

  /** The ledger of a pair that has never been updated. */
  const EMPTY_RESERVES := Reserves(0, 0, 0, 0, 0)

  /** Reduction modulo 2^256: wrapping `uint256` addition. */
  function Wrap256(x: nat): (r: nat)
    ensures r < TWO_POW_256
    ensures x < TWO_POW_256 ==> r == x
  {
    x % TWO_POW_256
  }

  /** Seconds since the last update, in wrapping 32-bit arithmetic. */
  function TimeElapsed(blockTimestampLast: nat, now: nat): (r: nat)
    ensures r < TWO_POW_32
    ensures blockTimestampLast <= now < TWO_POW_32 ==> r == now - blockTimestampLast
  {
    (now % TWO_POW_32 - blockTimestampLast) % TWO_POW_32
  }

  /** `_update`: stores the balances as the new reserves after adding
      price * elapsed time to each accumulator (wrapping at 2^256), provided
      some time has passed and both old reserves are nonzero. */
  function Update(s: Reserves, balance0: nat, balance1: nat, now: nat): (r: Result<Reserves>)
    ensures r.Err? <==> balance0 > UINT112_MAX || balance1 > UINT112_MAX
    ensures r.Err? ==> r.error == Overflow
    ensures r.Ok? ==> && r.value.reserve0 == balance0 && r.value.reserve1 == balance1
                      && r.value.blockTimestampLast == now % TWO_POW_32
                      && (WellFormed(s) ==> WellFormed(r.value))
  {
    if balance0 > UINT112_MAX || balance1 > UINT112_MAX then Err(Overflow)
    else
      var timestamp := now % TWO_POW_32;
      var elapsed := TimeElapsed(s.blockTimestampLast, now);
      if elapsed > 0 && s.reserve0 != 0 && s.reserve1 != 0 then
        var price := EncodePrice(s.reserve0, s.reserve1);
        Ok(Reserves(balance0, balance1, timestamp,
                    Wrap256(s.price0CumulativeLast + price.0 * elapsed),
                    Wrap256(s.price1CumulativeLast + price.1 * elapsed)))
      else
        Ok(Reserves(balance0, balance1, timestamp, s.price0CumulativeLast, s.price1CumulativeLast))
  }

  /** Between two updates at times last <= now (no 32-bit wrap, no 256-bit
      overflow), each accumulator grows by exactly its price times the
      elapsed seconds. */
  lemma UpdateAccumulates(s: Reserves, balance0: nat, balance1: nat, now: nat)
    requires WellFormed(s) && balance0 <= UINT112_MAX && balance1 <= UINT112_MAX
    requires s.reserve0 > 0 && s.reserve1 > 0
    requires s.blockTimestampLast <= now < TWO_POW_32
    requires s.price0CumulativeLast + EncodePrice(s.reserve0, s.reserve1).0 * (now - s.blockTimestampLast) < TWO_POW_256
    requires s.price1CumulativeLast + EncodePrice(s.reserve0, s.reserve1).1 * (now - s.blockTimestampLast) < TWO_POW_256
    ensures var r := Update(s, balance0, balance1, now);
            && r.Ok?
            && r.value.price0CumulativeLast == s.price0CumulativeLast + EncodePrice(s.reserve0, s.reserve1).0 * (now - s.blockTimestampLast)
            && r.value.price1CumulativeLast == s.price1CumulativeLast + EncodePrice(s.reserve0, s.reserve1).1 * (now - s.blockTimestampLast)
            && r.value.blockTimestampLast == now
  {
    var price := EncodePrice(s.reserve0, s.reserve1);
    var elapsed := now - s.blockTimestampLast;
    assert TimeElapsed(s.blockTimestampLast, now) == elapsed by {
      assert now % TWO_POW_32 == now;
    }
    NatProduct(price.0, elapsed);
    NatProduct(price.1, elapsed);
    var sum0, sum1 := s.price0CumulativeLast + price.0 * elapsed, s.price1CumulativeLast + price.1 * elapsed;
    assert Wrap256(sum0) == sum0 && Wrap256(sum1) == sum1;
    if elapsed == 0 {
      assert sum0 == s.price0CumulativeLast && sum1 == s.price1CumulativeLast;
    }
  }

  lemma NatProduct(a: nat, b: nat)
    ensures 0 <= a * b
  {
    if a > 0 {
      MulMono(0, a, b);
    }
  }

  /** An update in the same second as the last one (or on an empty pool)
      leaves both accumulators as they were. */
  lemma UpdateWithoutElapsedTime(s: Reserves, balance0: nat, balance1: nat, now: nat)
    requires balance0 <= UINT112_MAX && balance1 <= UINT112_MAX
    requires now % TWO_POW_32 == s.blockTimestampLast || s.reserve0 == 0 || s.reserve1 == 0
    ensures var r := Update(s, balance0, balance1, now);
            && r.Ok?
            && r.value.price0CumulativeLast == s.price0CumulativeLast
            && r.value.price1CumulativeLast == s.price1CumulativeLast
  {
  }

  /** `_mintFee`: the liquidity minted to the fee recipient, one sixth of the
      growth of sqrt(k) since `kLast` was recorded. */
  function MintFee(reserve0: nat, reserve1: nat, kLast: nat, totalSupply: nat, feeOn: bool): (fee: nat)
    ensures !feeOn || kLast == 0 ==> fee == 0
  {
    if feeOn && kLast != 0 then FeeFromRoots(FloorSqrt(reserve0 * reserve1), FloorSqrt(kLast), totalSupply)
    else 0
  }

  /** totalSupply * (rootK - rootKLast) / (5 * rootK + rootKLast) when sqrt(k) grew, else nothing. */
  function FeeFromRoots(rootK: nat, rootKLast: nat, totalSupply: nat): nat
  {
    if rootK > rootKLast then FloorDiv(totalSupply * (rootK - rootKLast), rootK * 5 + rootKLast) else 0
  }

  /** The fee formula's promise for roots `rootK`, `rootKLast`: no fee
      without growth; otherwise `fee` is the floor of the formula, and the
      recipient's share of the grown supply is at most
      (rootK - rootKLast) / (6 rootK), one sixth of the growth in sqrt(k). */
  predicate FeeIsOneSixth(fee: nat, rootK: nat, rootKLast: nat, totalSupply: nat)
  {
    && (rootK <= rootKLast ==> fee == 0)
    && (rootK > rootKLast ==>
          && fee * (5 * rootK + rootKLast) <= totalSupply * (rootK - rootKLast)
          && totalSupply * (rootK - rootKLast) < (fee + 1) * (5 * rootK + rootKLast)
          && fee * (6 * rootK) <= (totalSupply + fee) * (rootK - rootKLast))
  }

  /** With fees on, `_mintFee` keeps that promise on the roots of the
      current and the recorded product. */
  lemma MintFeeIsOneSixth(reserve0: nat, reserve1: nat, kLast: nat, totalSupply: nat)
    requires kLast != 0
    ensures FeeIsOneSixth(MintFee(reserve0, reserve1, kLast, totalSupply, true),
                          FloorSqrt(reserve0 * reserve1), FloorSqrt(kLast), totalSupply)
  {
    var rootK, rootKLast := FloorSqrt(reserve0 * reserve1), FloorSqrt(kLast);
    FeeFromRootsBounds(rootK, rootKLast, totalSupply);
  }

  /** The formula keeps the promise for all roots. */
  lemma FeeFromRootsBounds(rootK: nat, rootKLast: nat, totalSupply: nat)
    ensures FeeIsOneSixth(FeeFromRoots(rootK, rootKLast, totalSupply), rootK, rootKLast, totalSupply)
  {
    if rootK > rootKLast {
      var d := rootK * 5 + rootKLast;
      var g := rootK - rootKLast;
      var fee := FeeFromRoots(rootK, rootKLast, totalSupply);
      DivBounds(totalSupply * g, d);
      assert 5 * rootK + rootKLast == d;
      ShareBound(fee, totalSupply, g, d, rootK);
    }
  }

  /** From fee * d <= supply * g with d + g == 6 rootK: the fee's share of
      the grown supply is at most g / (6 rootK). */
  lemma ShareBound(fee: nat, totalSupply: nat, g: nat, d: nat, rootK: nat)
    requires d + g == 6 * rootK
    requires fee * d <= totalSupply * g
    ensures fee * (6 * rootK) <= (totalSupply + fee) * g
  {
    assert fee * (6 * rootK) == fee * d + fee * g;
    assert (totalSupply + fee) * g == totalSupply * g + fee * g;
  }

  /** Liquidity the `mint` call issues for deposits `amount0`, `amount1`:
      on the first deposit sqrt(amount0 * amount1) less the locked minimum,
      afterwards the smaller of the two proportional shares. */
  function MintLiquidity(reserve0: nat, reserve1: nat, amount0: nat, amount1: nat, totalSupply: nat): (r: Result<nat>)
    ensures r.Ok? ==> r.value > 0
  {
    if totalSupply == 0 then
      var root := FloorSqrt(amount0 * amount1);
      if root < MINIMUM_LIQUIDITY then Err(SubUnderflow)
      else if root == MINIMUM_LIQUIDITY then Err(InsufficientLiquidityMinted)
      else Ok(root - MINIMUM_LIQUIDITY)
    else if reserve0 == 0 || reserve1 == 0 then Err(DivisionByZero)
    else
      var liquidity := Min(FloorDiv(amount0 * totalSupply, reserve0), FloorDiv(amount1 * totalSupply, reserve1));
      if liquidity == 0 then Err(InsufficientLiquidityMinted) else Ok(liquidity)
  }

  /** The first deposit succeeds exactly when sqrt(amount0 * amount1)
      exceeds the minimum liquidity, and then issues floor(sqrt) - 1000: the
      depositor's share together with the locked minimum squares to at most
      the product of the deposits. */
  lemma MintLiquidityFirst(reserve0: nat, reserve1: nat, amount0: nat, amount1: nat)
    ensures var r := MintLiquidity(reserve0, reserve1, amount0, amount1, 0);
            && (r.Ok? <==> FloorSqrt(amount0 * amount1) > MINIMUM_LIQUIDITY)
            && (r.Ok? ==> IsFloorSqrt(amount0 * amount1, r.value + MINIMUM_LIQUIDITY))
  {
    FloorSqrtCorrect(amount0 * amount1);
  }

  /** A later deposit issues the largest share that the scarcer of the two
      deposits pays for at the current reserves and supply; it succeeds
      exactly when each deposit is worth at least one unit of liquidity. */
  lemma MintLiquidityProportional(reserve0: nat, reserve1: nat, amount0: nat, amount1: nat, totalSupply: nat)
    requires totalSupply > 0 && reserve0 > 0 && reserve1 > 0
    ensures var r := MintLiquidity(reserve0, reserve1, amount0, amount1, totalSupply);
            && (r.Ok? <==> amount0 * totalSupply >= reserve0 && amount1 * totalSupply >= reserve1)
            && (r.Ok? ==>
                  && r.value * reserve0 <= amount0 * totalSupply
                  && r.value * reserve1 <= amount1 * totalSupply
                  && ((r.value + 1) * reserve0 > amount0 * totalSupply
                      || (r.value + 1) * reserve1 > amount1 * totalSupply))
  {
    var n0, n1 := amount0 * totalSupply, amount1 * totalSupply;
    var x, y := n0 / reserve0, n1 / reserve1;
    FloorDivCharacterization(n0, reserve0, 1);
    FloorDivCharacterization(n1, reserve1, 1);
    var l := Min(x, y);
    assert l * reserve0 <= n0 by {
      DivBounds(n0, reserve0);
      MulMono(l, x, reserve0);
    }
    assert l * reserve1 <= n1 by {
      DivBounds(n1, reserve1);
      MulMono(l, y, reserve1);
    }
    assert (l + 1) * reserve0 > n0 || (l + 1) * reserve1 > n1 by {
      DivBounds(n0, reserve0);
      DivBounds(n1, reserve1);
    }
  }

  /** Amounts a `burn` of `liquidity` pays out: the share `liquidity` of the
      supply applied to each current balance, rounded down. */
  function BurnAmounts(liquidity: nat, balance0: nat, balance1: nat, totalSupply: nat): (r: Result<(nat, nat)>)
    ensures r.Ok? ==> 0 < r.value.0 && 0 < r.value.1
  {
    if totalSupply == 0 then Err(DivisionByZero)
    else
      var amount0 := FloorDiv(liquidity * balance0, totalSupply);
      var amount1 := FloorDiv(liquidity * balance1, totalSupply);
      if amount0 == 0 || amount1 == 0 then Err(InsufficientLiquidityBurned) else Ok((amount0, amount1))
  }

  /** Each payout is exactly the holder's pro-rata part of the balance,
      rounded down; the burn succeeds exactly when both parts are at least one
      unit. */
  lemma BurnAmountsProRata(liquidity: nat, balance0: nat, balance1: nat, totalSupply: nat)
    requires totalSupply > 0
    ensures var r := BurnAmounts(liquidity, balance0, balance1, totalSupply);
            && (r.Ok? <==> liquidity * balance0 >= totalSupply && liquidity * balance1 >= totalSupply)
            && (r.Ok? ==>
                  && r.value.0 * totalSupply <= liquidity * balance0 < (r.value.0 + 1) * totalSupply
                  && r.value.1 * totalSupply <= liquidity * balance1 < (r.value.1 + 1) * totalSupply)
  {
    var n0, n1 := liquidity * balance0, liquidity * balance1;
    DivBounds(n0, totalSupply);
    DivBounds(n1, totalSupply);
    FloorDivCharacterization(n0, totalSupply, 1);
    FloorDivCharacterization(n1, totalSupply, 1);
  }

  /** A burn never pays out more than the pool holds. */
  lemma BurnAmountsBounded(liquidity: nat, balance0: nat, balance1: nat, totalSupply: nat)
    requires liquidity <= totalSupply
    requires BurnAmounts(liquidity, balance0, balance1, totalSupply).Ok?
    ensures BurnAmounts(liquidity, balance0, balance1, totalSupply).value.0 <= balance0
    ensures BurnAmounts(liquidity, balance0, balance1, totalSupply).value.1 <= balance1
  {
    ShareAtMost(liquidity, balance0, totalSupply);
    ShareAtMost(liquidity, balance1, totalSupply);
  }

  /** A share of at most the whole supply is at most the whole balance. */
  lemma ShareAtMost(liquidity: nat, balance: nat, totalSupply: nat)
    requires 0 < totalSupply && liquidity <= totalSupply
    ensures FloorDiv(liquidity * balance, totalSupply) <= balance
  {
    var n := liquidity * balance;
    var q := n / totalSupply;
    assert q * totalSupply <= n by { DivBounds(n, totalSupply); }
    assert n <= totalSupply * balance by { MulMono(liquidity, totalSupply, balance); }
  }

  /** The input a swap infers for one token: what the pool holds beyond the
      reserve left after the optimistic output. */
  function AmountIn(balance: nat, reserve: nat, amountOut: nat): (r: nat)
    requires amountOut <= reserve
    ensures r > 0 <==> balance > reserve - amountOut
    ensures r > 0 ==> balance == reserve - amountOut + r
    ensures r <= balance
  {
    if balance > reserve - amountOut then balance - (reserve - amountOut) else 0
  }

  /** The fee-adjusted constant-product check: with 0.3% of each input
      withheld, the product of the balances (scaled by 1000 each) is at least
      the product of the old reserves. */
  predicate KHolds(balance0: nat, balance1: nat, amount0In: nat, amount1In: nat, reserve0: nat, reserve1: nat)
  {
    (balance0 * 1000 - amount0In * 3) * (balance1 * 1000 - amount1In * 3) >= reserve0 * reserve1 * 1000000
  }

  /** What `swap` checks once the outputs have left the pool and the pool's
      balances are `balance0`, `balance1`: returns the inferred inputs. */
  function CheckSwap(reserve0: nat, reserve1: nat, amount0Out: nat, amount1Out: nat,
                     balance0: nat, balance1: nat): (r: Result<(nat, nat)>)
    requires amount0Out <= reserve0 && amount1Out <= reserve1
    ensures r.Ok? <==>
      && (AmountIn(balance0, reserve0, amount0Out) > 0 || AmountIn(balance1, reserve1, amount1Out) > 0)
      && KHolds(balance0, balance1, AmountIn(balance0, reserve0, amount0Out), AmountIn(balance1, reserve1, amount1Out),
                reserve0, reserve1)
    ensures r.Ok? ==> r.value == (AmountIn(balance0, reserve0, amount0Out), AmountIn(balance1, reserve1, amount1Out))
    ensures r.Err? ==> r.error == if AmountIn(balance0, reserve0, amount0Out) == 0 && AmountIn(balance1, reserve1, amount1Out) == 0
                                  then InsufficientInputAmount else K
  {
    var amount0In := AmountIn(balance0, reserve0, amount0Out);
    var amount1In := AmountIn(balance1, reserve1, amount1Out);
    if amount0In == 0 && amount1In == 0 then Err(InsufficientInputAmount)
    else if !KHolds(balance0, balance1, amount0In, amount1In, reserve0, reserve1) then Err(K)
    else Ok((amount0In, amount1In))
  }

  /** A swap that passes the check never lowers the product of the reserves. */
  lemma KHoldsKeepsProduct(balance0: nat, balance1: nat, amount0In: nat, amount1In: nat, reserve0: nat, reserve1: nat)
    requires amount0In <= balance0 && amount1In <= balance1
    requires KHolds(balance0, balance1, amount0In, amount1In, reserve0, reserve1)
    ensures balance0 * balance1 >= reserve0 * reserve1
  {
    var x0, x1 := balance0 * 1000 - amount0In * 3, balance1 * 1000 - amount1In * 3;
    assert 0 <= x0 <= balance0 * 1000 && 0 <= x1 <= balance1 * 1000;
    assert x0 * x1 <= (balance0 * 1000) * x1 <= (balance0 * 1000) * (balance1 * 1000);
    assert (balance0 * 1000) * (balance1 * 1000) == balance0 * balance1 * 1000000;
  }

  /** `getAmountOut`: the largest output a given input buys at these
      reserves, net of the 0.3% fee. */
  function GetAmountOut(amountIn: nat, reserveIn: nat, reserveOut: nat): nat
    requires amountIn > 0 && reserveIn > 0
  {
    FloorDiv(amountIn * 997 * reserveOut, reserveIn * 1000 + amountIn * 997)
  }

  /** The check is symmetric in the two tokens. */
  lemma KHoldsSymmetric(balance0: nat, balance1: nat, amount0In: nat, amount1In: nat, reserve0: nat, reserve1: nat)
    ensures KHolds(balance0, balance1, amount0In, amount1In, reserve0, reserve1)
        <==> KHolds(balance1, balance0, amount1In, amount0In, reserve1, reserve0)
  {
    assert (balance0 * 1000 - amount0In * 3) * (balance1 * 1000 - amount1In * 3)
        == (balance1 * 1000 - amount1In * 3) * (balance0 * 1000 - amount0In * 3);
    assert reserve0 * reserve1 == reserve1 * reserve0;
  }

  /** Paying `amountIn` of one token for `amountOut` of the other passes the
      check exactly when `amountOut` is at most `getAmountOut`. */
  lemma KHoldsIffAmountOut(amountIn: nat, amountOut: nat, reserveIn: nat, reserveOut: nat)
    requires amountIn > 0 && reserveIn > 0 && amountOut <= reserveOut
    ensures KHolds(reserveIn + amountIn, reserveOut - amountOut, amountIn, 0, reserveIn, reserveOut)
        <==> amountOut <= GetAmountOut(amountIn, reserveIn, reserveOut)
  {
    var d := reserveIn * 1000 + amountIn * 997;
    var n := amountIn * 997 * reserveOut;
    var lhs := ((reserveIn + amountIn) * 1000 - amountIn * 3) * ((reserveOut - amountOut) * 1000 - 0 * 3);
    assert (reserveIn + amountIn) * 1000 - amountIn * 3 == d;
    assert lhs == d * (reserveOut - amountOut) * 1000;
    assert d * (reserveOut - amountOut) == d * reserveOut - d * amountOut;
    assert d * reserveOut == reserveIn * reserveOut * 1000 + n;
    // lhs >= reserveIn * reserveOut * 10^6  <==>  d * amountOut <= n
    assert lhs >= reserveIn * reserveOut * 1000000 <==> d * (reserveOut - amountOut) >= reserveIn * reserveOut * 1000;
    assert d * (reserveOut - amountOut) >= reserveIn * reserveOut * 1000 <==> amountOut * d <= n;
    FloorDivCharacterization(n, d, amountOut);
  }

  /** For the same token in and out (deposit `amountIn`, withdraw
      `amountOut`), the check passes exactly when the withdrawal is at most
      99.7% of the deposit, whatever the reserves. */
  lemma KHoldsIffOptimistic(amountIn: nat, amountOut: nat, reserve0: nat, reserve1: nat)
    requires amountIn > 0 && reserve1 > 0 && amountOut <= reserve0
    ensures AmountIn(reserve0 + amountIn - amountOut, reserve0, amountOut) == amountIn
    ensures KHolds(reserve0 + amountIn - amountOut, reserve1, amountIn, 0, reserve0, reserve1)
        <==> amountOut * 1000 <= amountIn * 997
  {
    var x0 := (reserve0 + amountIn - amountOut) * 1000 - amountIn * 3;
    var lhs := x0 * (reserve1 * 1000 - 0 * 3);
    assert lhs == x0 * reserve1 * 1000;
    assert reserve0 * reserve1 * 1000000 == (reserve0 * 1000) * reserve1 * 1000;
    CancelPositive(x0, reserve0 * 1000, reserve1 * 1000);
  }

  lemma CancelPositive(x: int, y: int, c: int)
    requires c > 0
    ensures x * c >= y * c <==> x >= y
  {
    if x >= y {
      assert x * c - y * c == (x - y) * c;
    } else {
      assert y * c - x * c == (y - x) * c;
    }
  }

  lemma FloorDivCharacterization(n: nat, d: nat, q: nat)
    requires d > 0
    ensures q * d <= n <==> q <= n / d
  {
    var f := n / d;
    DivBounds(n, d);
    if q <= f {
      MulMono(q, f, d);
    } else {
      MulMono(f + 1, q, d);
    }
  }

  /** What a successful `mint` issues: the protocol fee to `feeTo`, the
      minimum locked at the zero address (first deposit only) and the
      depositor's liquidity. */
  datatype MintPlan = MintPlan(fee: nat, locked: nat, liquidity: nat)

  /** The checks and amounts of `mint`, before anything changes: the
      deposits are what the balances hold beyond the reserves (reverting when
      a balance is below its reserve); the protocol fee is minted first and
      is part of the supply the deposit is priced against. */
  function PlanMint(reserve0: nat, reserve1: nat, kLast: nat, balance0: nat, balance1: nat,
                    totalSupply: nat, feeOn: bool): Result<MintPlan>
  {
    if balance0 < reserve0 || balance1 < reserve1 then Err(SubUnderflow)
    else
      var fee := MintFee(reserve0, reserve1, kLast, totalSupply, feeOn);
      var liquidity :- MintLiquidity(reserve0, reserve1, balance0 - reserve0, balance1 - reserve1, totalSupply + fee);
      Ok(MintPlan(fee, if totalSupply + fee == 0 then MINIMUM_LIQUIDITY else 0, liquidity))
  }

  /** The first deposit into an empty pool: no fee, 1000 units locked, and
      locked plus issued liquidity is exactly floor(sqrt(amount0 * amount1)). */
  lemma PlanMintFirstDeposit(kLast: nat, balance0: nat, balance1: nat, feeOn: bool)
    ensures var r := PlanMint(0, 0, kLast, balance0, balance1, 0, feeOn);
            && (r.Ok? <==> FloorSqrt(balance0 * balance1) > MINIMUM_LIQUIDITY)
            && (r.Ok? ==> && r.value.fee == 0 && r.value.locked == MINIMUM_LIQUIDITY
                          && r.value.locked + r.value.liquidity == FloorSqrt(balance0 * balance1))
  {
    assert FloorSqrt(0 * 0) == 0;
  }

  /** What a successful `burn` pays: the protocol fee to `feeTo` and the two
      amounts sent to the recipient. */
  datatype BurnPlan = BurnPlan(fee: nat, amount0: nat, amount1: nat)

  /** The checks and amounts of `burn`, before anything changes: the fee is
      minted first, then `liquidity` is redeemed against the grown supply. */
  function PlanBurn(reserve0: nat, reserve1: nat, kLast: nat, balance0: nat, balance1: nat,
                    liquidity: nat, totalSupply: nat, feeOn: bool): Result<BurnPlan>
  {
    var fee := MintFee(reserve0, reserve1, kLast, totalSupply, feeOn);
    var amounts :- BurnAmounts(liquidity, balance0, balance1, totalSupply + fee);
    Ok(BurnPlan(fee, amounts.0, amounts.1))
  }

  /** Redeeming at most the supply never pays out more than the pool holds,
      so the transfers of a burn cannot fail. */
  lemma PlanBurnBounded(reserve0: nat, reserve1: nat, kLast: nat, balance0: nat, balance1: nat,
                        liquidity: nat, totalSupply: nat, feeOn: bool)
    requires liquidity <= totalSupply
    ensures var r := PlanBurn(reserve0, reserve1, kLast, balance0, balance1, liquidity, totalSupply, feeOn);
            r.Ok? ==> 0 < r.value.amount0 <= balance0 && 0 < r.value.amount1 <= balance1
  {
    var fee := MintFee(reserve0, reserve1, kLast, totalSupply, feeOn);
    if BurnAmounts(liquidity, balance0, balance1, totalSupply + fee).Ok? {
      BurnAmountsBounded(liquidity, balance0, balance1, totalSupply + fee);
    }
  }
}
