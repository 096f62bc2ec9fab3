/** The cases of the factory's test suite, run against the `Factory` class:
    `wallet` deploys the factory at `factoryAddress`, `other` is a second
    account, and the two test tokens are 0x1000…00 and 0x2000…00. Keccak-256
    and the pair's creation code are whatever the deployment uses. */
module FactoryCases {
  import opened Common
  import opened AddressOrder
  import opened Create2
  import opened Factory

  const TEST_ADDRESS0: Address := [0x10, 0, 0, 0, 0, 0, 0, 0, 0, 0, 0, 0, 0, 0, 0, 0, 0, 0, 0, 0]
  const TEST_ADDRESS1: Address := [0x20, 0, 0, 0, 0, 0, 0, 0, 0, 0, 0, 0, 0, 0, 0, 0, 0, 0, 0, 0]

  /** A fresh factory has no fee recipient, `wallet` as setter and no pairs. */
  method FreshFactory(wallet: Address, factoryAddress: Address, keccak: Bytes -> Hash, pairCode: Bytes)
    returns (feeTo: Address, feeToSetter: Address, allPairsLength: nat)
    ensures feeTo == ZERO_ADDRESS && feeToSetter == wallet && allPairsLength == 0
  {
    var factory := new Factory(factoryAddress, wallet, keccak, pairCode);
    feeTo, feeToSetter, allPairsLength := factory.feeTo, factory.feeToSetter, factory.AllPairsLength();
  }

  /** The test tokens are nonzero, different and ascending. */
  lemma TestAddressesOrdered()
    ensures TEST_ADDRESS0 != ZERO_ADDRESS && TEST_ADDRESS1 != ZERO_ADDRESS && TEST_ADDRESS0 != TEST_ADDRESS1
    ensures Below(TEST_ADDRESS0, TEST_ADDRESS1)
  {
    assert TEST_ADDRESS0[0] != ZERO_ADDRESS[0] && TEST_ADDRESS1[0] != ZERO_ADDRESS[0];
    assert TEST_ADDRESS0[0] != TEST_ADDRESS1[0];
  }

  /** `createPair` with the test tokens in the order given by `reverse`: the
      first call succeeds with the deterministic address, a second call fails
      in either order, both lookups and `allPairs(0)` return the address, the
      length is 1, and the tokens the factory recorded for that pair are the
      two test tokens in ascending order. */
  method CreatePairCase(wallet: Address, factoryAddress: Address, keccak: Bytes -> Hash, pairCode: Bytes, reverse: bool)
    returns (created: Result<Address>, again: Result<Address>, againReversed: Result<Address>,
             forward: Address, backward: Address, first: Address, allPairsLength: nat,
             ghost token0: Address, ghost token1: Address)
    ensures var (tokenA, tokenB) := if reverse then (TEST_ADDRESS1, TEST_ADDRESS0) else (TEST_ADDRESS0, TEST_ADDRESS1);
            created == Ok(GetCreate2Address(keccak, factoryAddress, tokenA, tokenB, pairCode))
    ensures again == Err(PairExists) && againReversed == Err(PairExists)
    ensures created.Ok? && forward == created.value && backward == created.value && first == created.value
    ensures allPairsLength == 1
    ensures token0 == TEST_ADDRESS0 && token1 == TEST_ADDRESS1
  {
    TestAddressesOrdered();
    var (tokenA, tokenB) := if reverse then (TEST_ADDRESS1, TEST_ADDRESS0) else (TEST_ADDRESS0, TEST_ADDRESS1);
    SortTokensIsNumeric(tokenA, tokenB);
    BelowAsymmetric(TEST_ADDRESS0, TEST_ADDRESS1);
    var factory := new Factory(factoryAddress, wallet, keccak, pairCode);
    created := factory.CreatePair(tokenA, tokenB);
    again := factory.CreatePair(tokenA, tokenB);
    againReversed := factory.CreatePair(tokenB, tokenA);
    forward, backward := factory.GetPair(tokenA, tokenB), factory.GetPair(tokenB, tokenA);
    first, allPairsLength := factory.allPairs[0], factory.AllPairsLength();
    token0, token1 := factory.pairTokens[0].0, factory.pairTokens[0].1;
  }

  /** Only the setter may set the fee recipient. */
  method SetFeeToCase(wallet: Address, other: Address, factoryAddress: Address, keccak: Bytes -> Hash, pairCode: Bytes)
    returns (denied: Result<()>, accepted: Result<()>, feeTo: Address)
    requires wallet != other
    ensures denied == Err(Forbidden) && accepted.Ok? && feeTo == wallet
  {
    var factory := new Factory(factoryAddress, wallet, keccak, pairCode);
    denied := factory.SetFeeTo(other, other);
    accepted := factory.SetFeeTo(wallet, wallet);
    feeTo := factory.feeTo;
  }

  /** Handing the setter role to `other` takes it away from `wallet`. */
  method SetFeeToSetterCase(wallet: Address, other: Address, factoryAddress: Address, keccak: Bytes -> Hash,
                            pairCode: Bytes)
    returns (denied: Result<()>, accepted: Result<()>, feeToSetter: Address, deniedAfter: Result<()>)
    requires wallet != other
    ensures denied == Err(Forbidden) && accepted.Ok? && feeToSetter == other
    ensures deniedAfter == Err(Forbidden)
  {
    var factory := new Factory(factoryAddress, wallet, keccak, pairCode);
    denied := factory.SetFeeToSetter(other, other);
    accepted := factory.SetFeeToSetter(wallet, other);
    feeToSetter := factory.feeToSetter;
    deniedAfter := factory.SetFeeToSetter(wallet, wallet);
  }
}
