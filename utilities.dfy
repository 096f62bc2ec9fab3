/** The arithmetic helpers of the test suite: token amounts with 18 decimals
    and the UQ112x112 fixed-point price that the pair's accumulators add up. */
module Utilities {

  const TEN_TO_18: nat := 1_000_000_000_000_000_000

  /** 2^112 written out, as the helper file spells it. */
  const TWO_POW_112: nat := 5192296858534827628530496329220096

  function Pow2(n: nat): (r: nat)
    ensures r > 0
  {
    if n == 0 then 1 else 2 * Pow2(n - 1)
  }

  function Pow10(n: nat): (r: nat)
    ensures r > 0
  {
    if n == 0 then 1 else 10 * Pow10(n - 1)
  }

  /** `n` whole tokens expressed in the smallest unit of an 18-decimal token. */
  function ExpandTo18Decimals(n: int): int
  {
    n * TEN_TO_18
  }

  lemma TenTo18IsPow10()
    ensures TEN_TO_18 == Pow10(18)
  {
    assert Pow10(18) == 1_000_000_000_000_000_000 by {
      assert Pow10(6) == 1_000_000 by { assert Pow10(3) == 1000; }
      assert Pow10(12) == 1_000_000 * 1_000_000 by {
        PowAdd10(6, 6);
      }
      PowAdd10(12, 6);
    }
  }

  lemma {:induction false} PowAdd10(a: nat, b: nat)
    ensures Pow10(a + b) == Pow10(a) * Pow10(b)
  {
    if b > 0 {
      PowAdd10(a, b - 1);
    }
  }

  lemma {:induction false} PowAdd2(a: nat, b: nat)
    ensures Pow2(a + b) == Pow2(a) * Pow2(b)
  {
    if b > 0 {
      PowAdd2(a, b - 1);
    }
  }

  /** expandTo18Decimals(n) is n * 10^18 for every integer n. */
  lemma ExpandTo18DecimalsScales(n: int)
    ensures ExpandTo18Decimals(n) == n * Pow10(18)
    ensures ExpandTo18Decimals(n) / Pow10(18) == n
  {
    TenTo18IsPow10();
  }

  /** The literal constant really is 2^112. */
  lemma TwoPow112IsPow2()
    ensures TWO_POW_112 == Pow2(112)
  {
    assert Pow2(4) == 16;
    Pow2Sum(4, 4, 16, 16);
    Pow2Sum(8, 8, 256, 256);
    Pow2Sum(16, 16, 65536, 65536);
    Pow2Sum(32, 16, 4294967296, 65536);
    Pow2Sum(48, 48, 281474976710656, 281474976710656);
    Pow2Sum(96, 16, 79228162514264337593543950336, 65536);
  }

  /** Powers of two of known values multiply. */
  lemma Pow2Sum(a: nat, b: nat, powA: nat, powB: nat)
    requires Pow2(a) == powA && Pow2(b) == powB
    ensures Pow2(a + b) == powA * powB
  {
    PowAdd2(a, b);
  }

  /** The pair of UQ112x112 prices (token1 per token0, token0 per token1)
      for reserves `reserve0`, `reserve1`, both nonzero. */
  function EncodePrice(reserve0: nat, reserve1: nat): (nat, nat)
    requires reserve0 > 0 && reserve1 > 0
  {
    (FloorDiv(reserve1 * TWO_POW_112, reserve0), FloorDiv(reserve0 * TWO_POW_112, reserve1))
  }

  /** Each component is the ratio of the reserves with 112 fractional bits,
      rounded down: floor(reserve1 * 2^112 / reserve0) and the converse. */
  lemma EncodePriceIsFloor(reserve0: nat, reserve1: nat)
    requires reserve0 > 0 && reserve1 > 0
    ensures var r := EncodePrice(reserve0, reserve1);
            && r.0 * reserve0 <= reserve1 * Pow2(112) < (r.0 + 1) * reserve0
            && r.1 * reserve1 <= reserve0 * Pow2(112) < (r.1 + 1) * reserve1
  {
    TwoPow112IsPow2();
    var r := EncodePrice(reserve0, reserve1);
    DivBounds(reserve1 * TWO_POW_112, reserve0);
    DivBounds(reserve0 * TWO_POW_112, reserve1);
  }

  lemma DivBounds(n: nat, d: nat)
    requires d > 0
    ensures (n / d) * d <= n < (n / d + 1) * d
  {
  }

  /** Swapping the reserves swaps the two prices. */
  lemma EncodePriceSwap(reserve0: nat, reserve1: nat)
    requires reserve0 > 0 && reserve1 > 0
    ensures EncodePrice(reserve1, reserve0) == (EncodePrice(reserve0, reserve1).1, EncodePrice(reserve0, reserve1).0)
  {
  }

  /** Equal reserves give the price one, that is 2^112 in UQ112x112. */
  lemma EncodePriceEqual(reserve: nat)
    requires reserve > 0
    ensures EncodePrice(reserve, reserve) == (TWO_POW_112, TWO_POW_112)
  {
    var r := EncodePrice(reserve, reserve);
    DivBounds(reserve * TWO_POW_112, reserve);
    DivUnique(reserve * TWO_POW_112, reserve, TWO_POW_112, r.0);
  }

  /** Scaling both reserves by the same factor leaves the price unchanged. */
  lemma EncodePriceScaleInvariant(reserve0: nat, reserve1: nat, c: nat)
    requires reserve0 > 0 && reserve1 > 0 && c > 0
    ensures EncodePrice(c * reserve0, c * reserve1) == EncodePrice(reserve0, reserve1)
  {
    var p := EncodePrice(reserve0, reserve1);
    var q := EncodePrice(c * reserve0, c * reserve1);
    assert q.0 == p.0 by {
      MulDivCancel(reserve1 * TWO_POW_112, reserve0, c);
      assert c * reserve1 * TWO_POW_112 == c * (reserve1 * TWO_POW_112);
    }
    assert q.1 == p.1 by {
      MulDivCancel(reserve0 * TWO_POW_112, reserve1, c);
      assert c * reserve0 * TWO_POW_112 == c * (reserve0 * TWO_POW_112);
    }
  }

  /** Unsigned integer division, rounding down (Solidity's `/` on `uint`). */
  function FloorDiv(n: nat, d: nat): nat
    requires d > 0
  {
    n / d
  }

  /** The quotient is the unique q with q*d <= n < (q+1)*d. */
  lemma DivUnique(n: nat, d: nat, q: nat, q': nat)
    requires d > 0
    requires q * d <= n < (q + 1) * d
    requires q' * d <= n < (q' + 1) * d
    ensures q == q'
  {
    if q < q' {
      assert (q + 1) * d <= q' * d by { MulMono(q + 1, q', d); }
    } else if q' < q {
      assert (q' + 1) * d <= q * d by { MulMono(q' + 1, q, d); }
    }
  }

  lemma MulMono(a: int, b: int, d: int)
    requires a <= b && 0 <= d
    ensures a * d <= b * d
  {
  }

  lemma MulDivCancel(n: nat, d: nat, c: nat)
    requires d > 0 && c > 0
    ensures (c * n) / (c * d) == n / d
  {
    var q := n / d;
    assert q * (c * d) <= c * n < (q + 1) * (c * d) by {
      DivBounds(n, d);
      ScaleBounds(q, n, d, c);
    }
    DivOfBounds(c * n, c * d, q);
  }

  /** A q with q*d <= n < (q+1)*d is the quotient. */
  lemma DivOfBounds(n: nat, d: nat, q: nat)
    requires d > 0 && q * d <= n < (q + 1) * d
    ensures n / d == q
  {
    var r := n / d;
    assert r * d <= n < (r + 1) * d by { DivBounds(n, d); }
    DivUnique(n, d, r, q);
  }

  lemma ScaleBounds(q: nat, n: nat, d: nat, c: nat)
    requires q * d <= n < (q + 1) * d && c > 0
    ensures q * (c * d) <= c * n < (q + 1) * (c * d)
  {
    MulMono(q * d, n, c);
    MulMono(n + 1, (q + 1) * d, c);
    assert q * (c * d) == (q * d) * c;
    assert (q + 1) * (c * d) == ((q + 1) * d) * c;
  }
}
