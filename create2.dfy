/** The deterministic pair address of the test helper `getCreate2Address`:
    the address rule of EIP-1014 (its Specification section) applied to a
    canonically sorted token pair. Keccak-256 is a parameter. */
module Create2 {
  import opened Common
  import opened AddressOrder

  /** The ternary sort of the helper: lower-case hex strings compared with `<`. */
  function SortTokens(tokenA: Address, tokenB: Address): (r: (Address, Address))
  {
    if StringLess(LowerHex(tokenA), LowerHex(tokenB)) then (tokenA, tokenB) else (tokenB, tokenA)
  }

  /** `solidityPacked(['address', 'address'], [token0, token1])`: the two
      addresses back to back, without padding. */
  function PackAddresses(token0: Address, token1: Address): (r: Bytes)
    ensures |r| == 40
  {
    token0 + token1
  }

  /** The byte string the helper hashes: 0xff, the factory, the salt and the code hash. */
  function Create2Preimage(factory: Address, salt: Hash, codeHash: Hash): (r: Bytes)
    ensures |r| == 85
  {
    [0xff] + factory + salt + codeHash
  }

  /** `getCreate2Address(factory, [tokenA, tokenB], bytecode)` (without the
      EIP-55 checksum casing of `getAddress`): the low 20 bytes of the hash. */
  function GetCreate2Address(keccak: Bytes -> Hash, factory: Address, tokenA: Address, tokenB: Address,
                             bytecode: Bytes): Address
  {
    var sorted := SortTokens(tokenA, tokenB);
    var salt := keccak(PackAddresses(sorted.0, sorted.1));
    keccak(Create2Preimage(factory, salt, keccak(bytecode)))[12..]
  }

  /** After sorting, two different tokens come in strictly ascending order,
      and the sorted pair is the input pair in some order. */
  lemma SortTokensOrdered(tokenA: Address, tokenB: Address)
    requires tokenA != tokenB
    ensures Below(SortTokens(tokenA, tokenB).0, SortTokens(tokenA, tokenB).1)
    ensures StringLess(LowerHex(SortTokens(tokenA, tokenB).0), LowerHex(SortTokens(tokenA, tokenB).1))
    ensures SortTokens(tokenA, tokenB) in {(tokenA, tokenB), (tokenB, tokenA)}
  {
    LowerHexOrder(tokenA, tokenB);
    LowerHexOrder(tokenB, tokenA);
    BelowTotal(tokenA, tokenB);
  }

  /** The helper's sort agrees with the numeric sort the factory performs. */
  lemma SortTokensIsNumeric(tokenA: Address, tokenB: Address)
    ensures SortTokens(tokenA, tokenB) == if Below(tokenA, tokenB) then (tokenA, tokenB) else (tokenB, tokenA)
  {
    LowerHexOrder(tokenA, tokenB);
  }

  /** The argument order does not matter to the sort. */
  lemma SortTokensSymmetric(tokenA: Address, tokenB: Address)
    ensures SortTokens(tokenA, tokenB) == SortTokens(tokenB, tokenA)
  {
    LowerHexOrder(tokenA, tokenB);
    LowerHexOrder(tokenB, tokenA);
    if tokenA != tokenB {
      BelowTotal(tokenA, tokenB);
      if Below(tokenA, tokenB) {
        BelowAsymmetric(tokenA, tokenB);
      } else {
        BelowAsymmetric(tokenB, tokenA);
      }
    }
  }

  /** getCreate2Address(f, [a, b], c) == getCreate2Address(f, [b, a], c). */
  lemma GetCreate2AddressSymmetric(keccak: Bytes -> Hash, factory: Address, tokenA: Address, tokenB: Address,
                                   bytecode: Bytes)
    ensures GetCreate2Address(keccak, factory, tokenA, tokenB, bytecode)
         == GetCreate2Address(keccak, factory, tokenB, tokenA, bytecode)
  {
    SortTokensSymmetric(tokenA, tokenB);
  }

  /** The layout of the hashed preimage (85 bytes: 0xff, the 20-byte factory,
      the 32-byte hash of the sorted pair, the 32-byte hash of the code) and
      the truncation of its hash to the last 20 bytes. */
  lemma GetCreate2AddressLayout(keccak: Bytes -> Hash, factory: Address, tokenA: Address, tokenB: Address,
                                bytecode: Bytes)
    ensures var (token0, token1) := SortTokens(tokenA, tokenB);
            var p := Create2Preimage(factory, keccak(PackAddresses(token0, token1)), keccak(bytecode));
            && |p| == 85
            && p[0] == 0xff
            && p[1..21] == factory
            && p[21..53] == keccak(token0 + token1)
            && p[53..85] == keccak(bytecode)
            && GetCreate2Address(keccak, factory, tokenA, tokenB, bytecode) == keccak(p)[32 - 20..]
  {
    var (token0, token1) := SortTokens(tokenA, tokenB);
    var salt := keccak(PackAddresses(token0, token1));
    var p := Create2Preimage(factory, salt, keccak(bytecode));
    assert p == [0xff] + factory + salt + keccak(bytecode);
    assert p[1..21] == factory;
    assert p[21..53] == salt;
    assert p[53..85] == keccak(bytecode);
  }
}
