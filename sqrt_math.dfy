/** Integer square root: the `floor(sqrt(x))` the pair uses for the first
    mint and for the protocol fee. */
module SqrtMath {

  /** `r` is the floor of the square root of `y`. */
  ghost predicate IsFloorSqrt(y: nat, r: nat)
  {
    r * r <= y < (r + 1) * (r + 1)
  }

  /** Digit-by-digit square root: from the root of y / 4 the root of y is
      twice that or one more. */
  function FloorSqrt(y: nat): nat
    decreases y
  {
    if y < 4 then (if y == 0 then 0 else 1)
    else
      var h := 2 * FloorSqrt(y / 4);
      if (h + 1) * (h + 1) <= y then h + 1 else h
  }

  /** `FloorSqrt(y)` is the floor of the square root of `y`. */
  lemma {:induction false} FloorSqrtCorrect(y: nat)
    ensures IsFloorSqrt(y, FloorSqrt(y))
    decreases y
  {
    if y >= 4 {
      FloorSqrtCorrect(y / 4);
      RootStep(y, FloorSqrt(y / 4));
    }
  }

  /** The root of y lies between twice the root of y / 4 and that plus one. */
  lemma RootStep(y: nat, s: nat)
    requires IsFloorSqrt(y / 4, s)
    ensures (2 * s) * (2 * s) <= y < (2 * s + 2) * (2 * s + 2)
  {
    var q := y / 4;
    assert 4 * q <= y < 4 * q + 4;
    assert (2 * s) * (2 * s) == 4 * (s * s);
    assert (2 * s + 2) * (2 * s + 2) == 4 * ((s + 1) * (s + 1));
  }

  lemma SquareMono(a: nat, b: nat)
    requires a <= b
    ensures a * a <= b * b
  {
    assert a * a <= a * b <= b * b;
  }

  /** At most one number is the floor square root of `y`; hence any `r`
      with the defining property is `FloorSqrt(y)`. */
  lemma FloorSqrtUnique(y: nat, r: nat)
    requires r * r <= y < (r + 1) * (r + 1)
    ensures FloorSqrt(y) == r
  {
    var s := FloorSqrt(y);
    FloorSqrtCorrect(y);
    if s < r {
      SquareMono(s + 1, r);
    } else if r < s {
      SquareMono(r + 1, s);
    }
  }

  /** The root of a perfect square. */
  lemma FloorSqrtOfSquare(r: nat)
    ensures FloorSqrt(r * r) == r
  {
    assert r * r < (r + 1) * (r + 1);
    FloorSqrtUnique(r * r, r);
  }

  /** The root is monotone in its argument. */
  lemma FloorSqrtMono(x: nat, y: nat)
    requires x <= y
    ensures FloorSqrt(x) <= FloorSqrt(y)
  {
    var a, b := FloorSqrt(x), FloorSqrt(y);
    FloorSqrtCorrect(x);
    FloorSqrtCorrect(y);
    if b < a {
      SquareMono(b + 1, a);
    }
  }

  function Min(a: nat, b: nat): (r: nat)
    ensures r <= a && r <= b && (r == a || r == b)
  {
    if a < b then a else b
  }
}
