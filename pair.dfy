/** The constant-product pair: reserves, price accumulators and `kLast`
    kept in place, its own liquidity token, and the ledgers of the two pooled
    tokens, whose balances of the pair's address are what `mint`, `burn`,
    `swap` and `sync` read. All checks of a call happen before its first
    change, so a call that fails changes nothing. */
module Pair {
  import opened Common
  import opened PairMath
  import opened Erc20

  class Pair {
    /** The pair's own address on the token ledgers. */
    const self: Address
    const factory: Address
    const token0: Address
    const token1: Address
    /** The ledger of `token0`, the ledger of `token1`, and the pair's own
        liquidity token; three different objects. */
    const ledger0: Token
    const ledger1: Token
    const lp: Token

    var reserve0: nat
    var reserve1: nat
    var blockTimestampLast: nat
    var price0CumulativeLast: nat
    var price1CumulativeLast: nat
    var kLast: nat

    ghost predicate Valid()
      reads this, ledger0, ledger1, lp
    {
      && ledger0 != ledger1 && ledger0 != lp && ledger1 != lp
      && ledger0.Valid() && ledger1.Valid() && lp.Valid()
      && WellFormed(State())
    }

    /** The deployment followed by `initialize(token0, token1)`: empty
        reserves and an empty liquidity token. */
    constructor (self: Address, factory: Address, token0: Address, token1: Address, ledger0: Token, ledger1: Token)
      requires ledger0 != ledger1 && ledger0.Valid() && ledger1.Valid()
      ensures Valid() && fresh(lp)
      ensures this.self == self && this.factory == factory && this.token0 == token0 && this.token1 == token1
      ensures this.ledger0 == ledger0 && this.ledger1 == ledger1
      ensures State() == EMPTY_RESERVES && kLast == 0
      ensures lp.totalSupply == 0 && lp.balanceOf == map[]
    {
      this.self := self;
      this.factory := factory;
      this.token0 := token0;
      this.token1 := token1;
      this.ledger0 := ledger0;
      this.ledger1 := ledger1;
      lp := new Token.Empty();
      reserve0, reserve1, blockTimestampLast := 0, 0, 0;
      price0CumulativeLast, price1CumulativeLast := 0, 0;
      kLast := 0;
    }

    /** `getReserves()` together with the two accumulators. */
    function State(): Reserves
      reads this
    {
      Reserves(reserve0, reserve1, blockTimestampLast, price0CumulativeLast, price1CumulativeLast)
    }

    /** The pair's balance of `token0`. */
    function Balance0(): nat
      reads this, ledger0
    {
      ledger0.Balance(self)
    }

    /** The pair's balance of `token1`. */
    function Balance1(): nat
      reads this, ledger1
    {
      ledger1.Balance(self)
    }

    /** The pair's balance of `token0` once `amount` of it has gone to `to`. */
    function Balance0After(to: Address, amount: nat): nat
      requires amount <= Balance0()
      reads this, ledger0
    {
      BalanceOf(Move(ledger0.balanceOf, self, to, amount), self)
    }

    /** The pair's balance of `token1` once `amount` of it has gone to `to`. */
    function Balance1After(to: Address, amount: nat): nat
      requires amount <= Balance1()
      reads this, ledger1
    {
      BalanceOf(Move(ledger1.balanceOf, self, to, amount), self)
    }

    /** What `mint` would issue now; the fee is on when the factory's
        `feeTo` is set. */
    function MintPlanNow(feeTo: Address): Result<MintPlan>
      reads this, ledger0, ledger1, lp
    {
      PlanMint(reserve0, reserve1, kLast, Balance0(), Balance1(), lp.totalSupply, feeTo != ZERO_ADDRESS)
    }

    /** What `burn` would pay now for the liquidity tokens the pair holds. */
    function BurnPlanNow(feeTo: Address): Result<BurnPlan>
      reads this, ledger0, ledger1, lp
    {
      PlanBurn(reserve0, reserve1, kLast, Balance0(), Balance1(), lp.Balance(self), lp.totalSupply,
               feeTo != ZERO_ADDRESS)
    }

    /** The checks of `swap`, in the order the call makes them, with the
        inputs it infers once the outputs have been sent. */
    function SwapCheck(amount0Out: nat, amount1Out: nat, to: Address): (r: Result<(nat, nat)>)
      reads this, ledger0, ledger1
      ensures r.Ok? ==> && 0 < amount0Out + amount1Out
                        && amount0Out < reserve0 && amount1Out < reserve1
                        && to != token0 && to != token1
                        && amount0Out <= Balance0() && amount1Out <= Balance1()
    {
      if amount0Out == 0 && amount1Out == 0 then Err(InsufficientOutputAmount)
      else if amount0Out >= reserve0 || amount1Out >= reserve1 then Err(InsufficientLiquidity)
      else if to == token0 || to == token1 then Err(InvalidTo)
      else if amount0Out > Balance0() || amount1Out > Balance1() then Err(TransferFailed)
      else CheckSwap(reserve0, reserve1, amount0Out, amount1Out, Balance0After(to, amount0Out), Balance1After(to, amount1Out))
    }

    method Store(s: Reserves)
      modifies this
      ensures State() == s && kLast == old(kLast)
    {
      reserve0, reserve1, blockTimestampLast := s.reserve0, s.reserve1, s.blockTimestampLast;
      price0CumulativeLast, price1CumulativeLast := s.price0CumulativeLast, s.price1CumulativeLast;
    }

    /** `sync()`: the reserves take the pair's balances, after the
        accumulators have advanced. */
    method Sync(now: nat) returns (r: Result<()>)
      requires Valid()
      modifies this
      ensures Valid()
      ensures var u := Update(old(State()), old(Balance0()), old(Balance1()), now);
              && (r.Ok? <==> u.Ok?)
              && (u.Ok? ==> State() == u.value && reserve0 == Balance0() && reserve1 == Balance1())
              && (u.Err? ==> r == Err(u.error) && State() == old(State()))
      ensures kLast == old(kLast)
    {
      var u := Update(State(), Balance0(), Balance1(), now);
      if u.Err? {
        return Err(u.error);
      }
      Store(u.value);
      r := Ok(());
    }

    /** `mint(to)`: issues liquidity for what was deposited since the last
        update. Mints the protocol fee to `feeTo` first, locks the minimum
        at the zero address on the first deposit, then syncs the reserves
        and, with the fee on, records their product in `kLast`. */
    method Mint(to: Address, feeTo: Address, now: nat) returns (r: Result<nat>)
      requires Valid()
      modifies this, lp
      ensures Valid()
      ensures old(MintPlanNow(feeTo)).Err? ==> r == Err(old(MintPlanNow(feeTo)).error)
      ensures old(MintPlanNow(feeTo)).Ok? ==>
                var p := old(MintPlanNow(feeTo)).value;
                var u := Update(old(State()), old(Balance0()), old(Balance1()), now);
                && (u.Err? ==> r == Err(u.error))
                && (u.Ok? ==>
                      && r == Ok(p.liquidity)
                      && State() == u.value
                      && lp.totalSupply == old(lp.totalSupply) + p.fee + p.locked + p.liquidity
                      && lp.balanceOf == Credit(Credit(Credit(old(lp.balanceOf), feeTo, p.fee), ZERO_ADDRESS, p.locked),
                                                to, p.liquidity)
                      && kLast == if feeTo != ZERO_ADDRESS then ReserveProduct(State()) else 0)
      ensures r.Ok? ==> reserve0 == Balance0() && reserve1 == Balance1()
      ensures r.Err? ==> unchanged(this, lp)
    {
      var b0, b1 := Balance0(), Balance1();
      var plan := MintPlanNow(feeTo);
      if plan.Err? {
        return Err(plan.error);
      }
      var u := Update(State(), b0, b1, now);
      if u.Err? {
        return Err(u.error);
      }
      var MintPlan(fee, locked, liquidity) := plan.value;
      if fee > 0 {
        lp.Mint(feeTo, fee);
      }
      if locked > 0 {
        lp.Mint(ZERO_ADDRESS, locked);
      }
      lp.Mint(to, liquidity);
      Store(u.value);
      kLast := if feeTo != ZERO_ADDRESS then ReserveProduct(u.value) else 0;
      r := Ok(liquidity);
    }

    /** `burn(to)`: redeems the liquidity tokens the pair holds for its
        pro-rata share of both balances, paid to `to`. Mints the protocol fee
        first, then syncs the reserves to what is left and, with the fee on,
        records their product in `kLast`. */
    method Burn(to: Address, feeTo: Address, now: nat) returns (r: Result<(nat, nat)>)
      requires Valid()
      modifies this, lp, ledger0, ledger1
      ensures Valid()
      ensures old(BurnPlanNow(feeTo)).Err? ==> r == Err(old(BurnPlanNow(feeTo)).error)
      ensures old(BurnPlanNow(feeTo)).Ok? ==>
                var p := old(BurnPlanNow(feeTo)).value;
                p.amount0 <= old(Balance0()) && p.amount1 <= old(Balance1())
      ensures old(BurnPlanNow(feeTo)).Ok? ==>
                var p := old(BurnPlanNow(feeTo)).value;
                var u := Update(old(State()), old(Balance0After(to, p.amount0)), old(Balance1After(to, p.amount1)), now);
                && (u.Err? ==> r == Err(u.error))
                && (u.Ok? ==>
                      && r == Ok((p.amount0, p.amount1))
                      && State() == u.value
                      && ledger0.balanceOf == Move(old(ledger0.balanceOf), self, to, p.amount0)
                      && ledger1.balanceOf == Move(old(ledger1.balanceOf), self, to, p.amount1)
                      && lp.totalSupply == old(lp.totalSupply) + p.fee - old(lp.Balance(self))
                      && lp.balanceOf == Debit(Credit(old(lp.balanceOf), feeTo, p.fee), self, old(lp.Balance(self)))
                      && kLast == if feeTo != ZERO_ADDRESS then ReserveProduct(State()) else 0)
      ensures r.Ok? ==> reserve0 == Balance0() && reserve1 == Balance1()
      ensures r.Err? ==> unchanged(this, lp, ledger0, ledger1)
    {
      var plan := BurnPlanNow(feeTo);
      if plan.Err? {
        return Err(plan.error);
      }
      var liquidity := lp.Balance(self);
      SumBoundsEntry(lp.balanceOf, self);
      PlanBurnBounded(reserve0, reserve1, kLast, Balance0(), Balance1(), liquidity, lp.totalSupply,
                      feeTo != ZERO_ADDRESS);
      var BurnPlan(fee, amount0, amount1) := plan.value;
      var u := Update(State(), Balance0After(to, amount0), Balance1After(to, amount1), now);
      if u.Err? {
        return Err(u.error);
      }
      Redeem(feeTo, fee, liquidity);
      Pay(to, amount0, amount1);
      Store(u.value);
      kLast := if feeTo != ZERO_ADDRESS then ReserveProduct(u.value) else 0;
      r := Ok((amount0, amount1));
    }

    /** The liquidity side of `burn`: the protocol fee is minted to
        `feeTo`, then `liquidity` of the pair's own tokens is burned. */
    method Redeem(feeTo: Address, fee: nat, liquidity: nat)
      requires lp.Valid() && liquidity <= lp.Balance(self)
      modifies lp
      ensures lp.Valid()
      ensures lp.totalSupply == old(lp.totalSupply) + fee - liquidity
      ensures lp.balanceOf == Debit(Credit(old(lp.balanceOf), feeTo, fee), self, liquidity)
    {
      if fee > 0 {
        lp.Mint(feeTo, fee);
      }
      lp.Burn(self, liquidity);
    }

    /** The payout of `burn`: `amount0` of `token0` and `amount1` of
        `token1` from the pair to `to`. */
    method Pay(to: Address, amount0: nat, amount1: nat)
      requires ledger0 != ledger1 && ledger0.Valid() && ledger1.Valid()
      requires amount0 <= Balance0() && amount1 <= Balance1()
      modifies ledger0, ledger1
      ensures ledger0.Valid() && ledger1.Valid()
      ensures ledger0.balanceOf == Move(old(ledger0.balanceOf), self, to, amount0)
      ensures ledger1.balanceOf == Move(old(ledger1.balanceOf), self, to, amount1)
    {
      var paid0 := ledger0.Transfer(self, to, amount0);
      var paid1 := ledger1.Transfer(self, to, amount1);
    }

    /** `swap(amount0Out, amount1Out, to, data)` with empty `data`: sends the
        outputs to `to`, infers the inputs from the balances, enforces the
        fee-adjusted constant product and syncs the reserves. */
    method Swap(amount0Out: nat, amount1Out: nat, to: Address, now: nat) returns (r: Result<(nat, nat)>)
      requires Valid()
      modifies this, ledger0, ledger1
      ensures Valid()
      ensures old(SwapCheck(amount0Out, amount1Out, to)).Err? ==> r == Err(old(SwapCheck(amount0Out, amount1Out, to)).error)
      ensures old(SwapCheck(amount0Out, amount1Out, to)).Ok? ==>
                var u := Update(old(State()), old(Balance0After(to, amount0Out)), old(Balance1After(to, amount1Out)), now);
                && (u.Err? ==> r == Err(u.error))
                && (u.Ok? ==>
                      && r == old(SwapCheck(amount0Out, amount1Out, to))
                      && State() == u.value
                      && ledger0.balanceOf == Move(old(ledger0.balanceOf), self, to, amount0Out)
                      && ledger1.balanceOf == Move(old(ledger1.balanceOf), self, to, amount1Out))
      ensures r.Ok? ==> && reserve0 == Balance0() && reserve1 == Balance1()
                        && ReserveProduct(State()) >= old(ReserveProduct(State()))
      ensures r.Err? ==> unchanged(this, ledger0, ledger1)
      ensures kLast == old(kLast) && unchanged(lp)
    {
      var check := SwapCheck(amount0Out, amount1Out, to);
      if check.Err? {
        return Err(check.error);
      }
      var b0, b1 := Balance0After(to, amount0Out), Balance1After(to, amount1Out);
      var u := Update(State(), b0, b1, now);
      if u.Err? {
        return Err(u.error);
      }
      KHoldsKeepsProduct(b0, b1, check.value.0, check.value.1, reserve0, reserve1);
      if amount0Out > 0 {
        var sent := ledger0.Transfer(self, to, amount0Out);
      }
      if amount1Out > 0 {
        var sent := ledger1.Transfer(self, to, amount1Out);
      }
      Store(u.value);
      r := check;
    }
  }
}
