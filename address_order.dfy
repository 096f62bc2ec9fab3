/** The order on token addresses. The test helper compares the lower-case hex
    strings of two addresses; the factory compares the addresses as numbers.
    Both are the lexicographic order on the 20 address bytes, proved below. */
module AddressOrder {
  import opened Common

  /** Lexicographic strict order on byte strings (for equal lengths: the
      big-endian numeric order). */
  predicate Below(a: Bytes, b: Bytes)
  {
    if a == [] || b == [] then a == [] && b != []
    else if a[0] != b[0] then a[0] < b[0]
    else Below(a[1..], b[1..])
  }

  /** JavaScript's `<` on strings: lexicographic by character code, a proper
      prefix coming first. */
  predicate StringLess(s: string, t: string)
  {
    if s == [] || t == [] then s == [] && t != []
    else if s[0] != t[0] then s[0] < t[0]
    else StringLess(s[1..], t[1..])
  }

  /** One lower-case hexadecimal digit. */
  function HexDigit(n: int): (c: char)
    requires 0 <= n < 16
    ensures c in "0123456789abcdef"
  {
    if n < 10 then (48 + n) as char else (97 + n - 10) as char
  }

  /** Two lower-case hex digits per byte, most significant first. */
  function Hex(a: Bytes): (s: string)
    ensures |s| == 2 * |a|
  {
    if a == [] then []
    else [HexDigit(a[0] as int / 16), HexDigit(a[0] as int % 16)] + Hex(a[1..])
  }

  /** `address.toLowerCase()`: the address as a `0x`-prefixed lower-case hex string. */
  function LowerHex(a: Address): (s: string)
    ensures |s| == 42 && s[..2] == "0x"
  {
    "0x" + Hex(a)
  }

  lemma HexDigitMonotone(m: int, n: int)
    requires 0 <= m < 16 && 0 <= n < 16
    ensures HexDigit(m) < HexDigit(n) <==> m < n
    ensures HexDigit(m) == HexDigit(n) <==> m == n
  {
  }

  /** A common prefix does not change the string order. */
  lemma {:induction false} StringLessPrefix(p: string, s: string, t: string)
    ensures StringLess(p + s, p + t) <==> StringLess(s, t)
  {
    if p != [] {
      assert (p + s)[1..] == p[1..] + s;
      assert (p + t)[1..] == p[1..] + t;
      StringLessPrefix(p[1..], s, t);
    } else {
      assert p + s == s && p + t == t;
    }
  }

  /** Comparing lower-case hex strings is comparing the bytes. */
  lemma {:induction false} HexOrder(a: Bytes, b: Bytes)
    requires |a| == |b|
    ensures StringLess(Hex(a), Hex(b)) <==> Below(a, b)
  {
    if a != [] {
      var x, y := a[0] as int, b[0] as int;
      var pa := [HexDigit(x / 16), HexDigit(x % 16)];
      var pb := [HexDigit(y / 16), HexDigit(y % 16)];
      assert Hex(a) == pa + Hex(a[1..]);
      assert Hex(b) == pb + Hex(b[1..]);
      HexDigitMonotone(x / 16, y / 16);
      HexDigitMonotone(x % 16, y % 16);
      if x == y {
        StringLessPrefix(pa, Hex(a[1..]), Hex(b[1..]));
        HexOrder(a[1..], b[1..]);
      } else if x / 16 != y / 16 {
        assert (pa + Hex(a[1..]))[0] == pa[0];
        assert (pb + Hex(b[1..]))[0] == pb[0];
        assert x < y <==> x / 16 < y / 16;
      } else {
        var s, t := pa + Hex(a[1..]), pb + Hex(b[1..]);
        assert s[0] == t[0];
        assert s[1..][0] == pa[1] && t[1..][0] == pb[1];
        assert x < y <==> x % 16 < y % 16;
      }
    }
  }

  /** The helper's comparison `a.toLowerCase() < b.toLowerCase()` is `Below`. */
  lemma LowerHexOrder(a: Address, b: Address)
    ensures StringLess(LowerHex(a), LowerHex(b)) <==> Below(a, b)
  {
    StringLessPrefix("0x", Hex(a), Hex(b));
    HexOrder(a, b);
  }

  lemma {:induction false} BelowIrreflexive(a: Bytes)
    ensures !Below(a, a)
  {
    if a != [] {
      BelowIrreflexive(a[1..]);
    }
  }

  lemma {:induction false} BelowAsymmetric(a: Bytes, b: Bytes)
    requires Below(a, b)
    ensures !Below(b, a)
  {
    if a != [] && b != [] && a[0] == b[0] {
      BelowAsymmetric(a[1..], b[1..]);
    }
  }

  lemma {:induction false} BelowTransitive(a: Bytes, b: Bytes, c: Bytes)
    requires Below(a, b) && Below(b, c)
    ensures Below(a, c)
  {
    if a != [] && b != [] && c != [] && a[0] == b[0] && b[0] == c[0] {
      BelowTransitive(a[1..], b[1..], c[1..]);
    }
  }

  /** Two different byte strings of the same length are ordered one way or the other. */
  lemma {:induction false} BelowTotal(a: Bytes, b: Bytes)
    requires |a| == |b| && a != b
    ensures Below(a, b) || Below(b, a)
  {
    if a[0] == b[0] {
      assert a == [a[0]] + a[1..] && b == [b[0]] + b[1..];
      BelowTotal(a[1..], b[1..]);
    }
  }

  /** The zero address comes before every other address. */
  lemma {:induction false} ZeroBelow(z: Bytes, a: Bytes)
    requires |z| == |a| && z != a
    requires forall i :: 0 <= i < |z| ==> z[i] == 0
    ensures Below(z, a)
  {
    if z[0] == a[0] {
      assert z == [z[0]] + z[1..] && a == [a[0]] + a[1..];
      ZeroBelow(z[1..], a[1..]);
    }
  }

  lemma ZeroAddressBytes()
    ensures forall i :: 0 <= i < |ZERO_ADDRESS| ==> ZERO_ADDRESS[i] == 0
  {
  }

  /** The zero address is the least address. */
  lemma ZeroLeast(a: Bytes)
    requires |a| == |ZERO_ADDRESS| && a != ZERO_ADDRESS
    ensures Below(ZERO_ADDRESS, a)
  {
    ZeroAddressBytes();
    ZeroBelow(ZERO_ADDRESS, a);
  }
}
