/** The factory: the registry of pairs. `createPair` files each new pair
    under both orders of its tokens and appends it to `allPairs`; the fee
    recipient and its setter change only on the setter's own call. */
module Factory {
  import opened Common
  import opened AddressOrder
  import opened Create2

  /** Both orders of every registered token pair. */
  function Keys(pairs: seq<(Address, Address)>): set<(Address, Address)>
  {
    if pairs == [] then {}
    else Keys(pairs[..|pairs| - 1]) + {pairs[|pairs| - 1], (pairs[|pairs| - 1].1, pairs[|pairs| - 1].0)}
  }

  lemma KeysAppend(pairs: seq<(Address, Address)>, p: (Address, Address))
    ensures Keys(pairs + [p]) == Keys(pairs) + {p, (p.1, p.0)}
  {
    assert (pairs + [p])[..|pairs|] == pairs;
  }

  /** The keys come in both orders. */
  lemma {:induction false} KeysSymmetric(pairs: seq<(Address, Address)>, k: (Address, Address))
    ensures k in Keys(pairs) <==> (k.1, k.0) in Keys(pairs)
    decreases |pairs|
  {
    if pairs != [] {
      KeysSymmetric(pairs[..|pairs| - 1], k);
    }
  }

  /** Every registered pair is a key, in either order. */
  lemma {:induction false} KeysContain(pairs: seq<(Address, Address)>, i: nat)
    requires i < |pairs|
    ensures pairs[i] in Keys(pairs) && (pairs[i].1, pairs[i].0) in Keys(pairs)
    decreases |pairs|
  {
    if i < |pairs| - 1 {
      KeysContain(pairs[..|pairs| - 1], i);
    }
  }

  /** Every key is a registered pair in one order or the other. */
  lemma {:induction false} KeysFrom(pairs: seq<(Address, Address)>, k: (Address, Address))
    requires k in Keys(pairs)
    ensures exists i :: 0 <= i < |pairs| && (pairs[i] == k || pairs[i] == (k.1, k.0))
    decreases |pairs|
  {
    var last := pairs[|pairs| - 1];
    if k != last && k != (last.1, last.0) {
      KeysFrom(pairs[..|pairs| - 1], k);
      var i :| 0 <= i < |pairs| - 1 && (pairs[..|pairs| - 1][i] == k || pairs[..|pairs| - 1][i] == (k.1, k.0));
      assert pairs[i] == pairs[..|pairs| - 1][i];
    }
  }

  /** The address rule of the factory at `factory` with creation code `code`, as a value. */
  function PairAddressOf(keccak: Bytes -> Hash, factory: Address, code: Bytes): (Address, Address) -> Address
  {
    (tokenA: Address, tokenB: Address) => GetCreate2Address(keccak, factory, tokenA, tokenB, code)
  }

  /** The registry invariant for the address rule `pairFor`: `allPairs[i]` is the pair of the i-th registered tokens, which
      are sorted, nonzero and never registered twice; `getPair` holds exactly
      those pairs in both orders, each under its deterministic address. */
  ghost predicate Registered(pairFor: (Address, Address) -> Address,
                             getPair: map<(Address, Address), Address>, allPairs: seq<Address>,
                             pairTokens: seq<(Address, Address)>)
  {
    && |allPairs| == |pairTokens|
    && (forall i :: 0 <= i < |pairTokens| ==>
          && Below(pairTokens[i].0, pairTokens[i].1) && pairTokens[i].0 != ZERO_ADDRESS
          && allPairs[i] == pairFor(pairTokens[i].0, pairTokens[i].1))
    && (forall i, j :: 0 <= i < j < |pairTokens| ==> pairTokens[i] != pairTokens[j])
    && getPair.Keys == Keys(pairTokens)
    && (forall k :: k in getPair ==> getPair[k] == pairFor(k.0, k.1))
  }

  /** Registering a new sorted, nonzero pair under both orders keeps the invariant. */
  lemma RegisterKeepsInvariant(pairFor: (Address, Address) -> Address,
                               getPair: map<(Address, Address), Address>, allPairs: seq<Address>,
                               pairTokens: seq<(Address, Address)>, token0: Address, token1: Address)
    requires Registered(pairFor, getPair, allPairs, pairTokens)
    requires Below(token0, token1) && token0 != ZERO_ADDRESS && (token0, token1) !in getPair
    requires pairFor(token1, token0) == pairFor(token0, token1)
    ensures Registered(pairFor,
                       getPair[(token0, token1) := pairFor(token0, token1)]
                              [(token1, token0) := pairFor(token0, token1)],
                       allPairs + [pairFor(token0, token1)],
                       pairTokens + [(token0, token1)])
  {
    var pair := pairFor(token0, token1);
    RegisterSorted(pairFor, allPairs, pairTokens, token0, token1);
    RegisterDistinct(pairTokens, token0, token1);
    KeysAppend(pairTokens, (token0, token1));
    RegisterAddresses(pairFor, getPair, token0, token1);
  }

  lemma RegisterSorted(pairFor: (Address, Address) -> Address,
                       allPairs: seq<Address>, pairTokens: seq<(Address, Address)>, token0: Address, token1: Address)
    requires |allPairs| == |pairTokens|
    requires forall i :: 0 <= i < |pairTokens| ==>
               && Below(pairTokens[i].0, pairTokens[i].1) && pairTokens[i].0 != ZERO_ADDRESS
               && allPairs[i] == pairFor(pairTokens[i].0, pairTokens[i].1)
    requires Below(token0, token1) && token0 != ZERO_ADDRESS
    ensures var allPairs', pairTokens' := allPairs + [pairFor(token0, token1)],
                                          pairTokens + [(token0, token1)];
            forall i :: 0 <= i < |pairTokens'| ==>
              && Below(pairTokens'[i].0, pairTokens'[i].1) && pairTokens'[i].0 != ZERO_ADDRESS
              && allPairs'[i] == pairFor(pairTokens'[i].0, pairTokens'[i].1)
  {
    var allPairs', pairTokens' := allPairs + [pairFor(token0, token1)],
                                  pairTokens + [(token0, token1)];
    forall i | 0 <= i < |pairTokens'|
      ensures && Below(pairTokens'[i].0, pairTokens'[i].1) && pairTokens'[i].0 != ZERO_ADDRESS
              && allPairs'[i] == pairFor(pairTokens'[i].0, pairTokens'[i].1)
    {
      if i < |pairTokens| {
        assert pairTokens'[i] == pairTokens[i] && allPairs'[i] == allPairs[i];
      }
    }
  }

  lemma RegisterDistinct(pairTokens: seq<(Address, Address)>, token0: Address, token1: Address)
    requires forall i, j :: 0 <= i < j < |pairTokens| ==> pairTokens[i] != pairTokens[j]
    requires (token0, token1) !in Keys(pairTokens)
    ensures var pairTokens' := pairTokens + [(token0, token1)];
            forall i, j :: 0 <= i < j < |pairTokens'| ==> pairTokens'[i] != pairTokens'[j]
  {
    var pairTokens' := pairTokens + [(token0, token1)];
    forall i, j | 0 <= i < j < |pairTokens'|
      ensures pairTokens'[i] != pairTokens'[j]
    {
      if j == |pairTokens| {
        KeysContain(pairTokens, i);
      } else {
        assert pairTokens'[i] == pairTokens[i] && pairTokens'[j] == pairTokens[j];
      }
    }
  }

  lemma RegisterAddresses(pairFor: (Address, Address) -> Address,
                          getPair: map<(Address, Address), Address>, token0: Address, token1: Address)
    requires forall k :: k in getPair ==> getPair[k] == pairFor(k.0, k.1)
    requires pairFor(token1, token0) == pairFor(token0, token1)
    ensures var pair := pairFor(token0, token1);
            var getPair' := getPair[(token0, token1) := pair][(token1, token0) := pair];
            forall k :: k in getPair' ==> getPair'[k] == pairFor(k.0, k.1)
  {
  }

  /** The checks `createPair` makes, in order, against the registry; on
      success the tokens sorted by numeric order. */
  function CheckNewPair(tokenA: Address, tokenB: Address, getPair: map<(Address, Address), Address>)
    : Result<(Address, Address)>
  {
    if tokenA == tokenB then Err(IdenticalAddresses)
    else
      var sorted := if Below(tokenA, tokenB) then (tokenA, tokenB) else (tokenB, tokenA);
      if sorted.0 == ZERO_ADDRESS then Err(ZeroAddress)
      else if sorted in getPair then Err(PairExists)
      else Ok(sorted)
  }

  /** With a registry that files each pair under both orders, `createPair`
      fails exactly for identical tokens, the zero address, or a pair that
      exists in either order; when it succeeds the sorted pair is strictly
      ascending, nonzero, and the sort of the address helper. */
  lemma CheckNewPairCorrect(tokenA: Address, tokenB: Address, getPair: map<(Address, Address), Address>)
    requires (tokenA, tokenB) in getPair <==> (tokenB, tokenA) in getPair
    ensures var r := CheckNewPair(tokenA, tokenB, getPair);
            && (r.Ok? <==> tokenA != tokenB && tokenA != ZERO_ADDRESS && tokenB != ZERO_ADDRESS
                           && (tokenA, tokenB) !in getPair)
            && (r.Err? ==> r.error == if tokenA == tokenB then IdenticalAddresses
                                      else if tokenA == ZERO_ADDRESS || tokenB == ZERO_ADDRESS then ZeroAddress
                                      else PairExists)
            && (r.Ok? ==> && r.value == SortTokens(tokenA, tokenB)
                          && Below(r.value.0, r.value.1) && r.value.0 != ZERO_ADDRESS)
  {
    if tokenA != tokenB {
      SortTokensIsNumeric(tokenA, tokenB);
      BelowTotal(tokenA, tokenB);
      if tokenA == ZERO_ADDRESS {
        ZeroLeast(tokenB);
      } else if tokenB == ZERO_ADDRESS {
        ZeroLeast(tokenA);
        BelowAsymmetric(tokenB, tokenA);
      }
    }
  }

  class Factory {
    /** The factory's own address, the first input of every pair address. */
    const self: Address
    /** Keccak-256, left uninterpreted. */
    const keccak: Bytes -> Hash
    /** The pair's creation code. */
    const pairCode: Bytes

    var feeTo: Address
    var feeToSetter: Address
    var getPair: map<(Address, Address), Address>
    var allPairs: seq<Address>
    /** The sorted token pair behind each entry of `allPairs`. */
    ghost var pairTokens: seq<(Address, Address)>

    /** The deterministic address of the pair of `tokenA` and `tokenB`. */
    function PairFor(tokenA: Address, tokenB: Address): Address
    {
      GetCreate2Address(keccak, self, tokenA, tokenB, pairCode)
    }

    ghost predicate Valid()
      reads this
    {
      Registered(PairAddressOf(keccak, self, pairCode), getPair, allPairs, pairTokens)
    }

    /** A fresh factory: no fee recipient, the deployer as `feeToSetter`, no pairs. */
    constructor (self: Address, feeToSetter: Address, keccak: Bytes -> Hash, pairCode: Bytes)
      ensures Valid()
      ensures this.self == self && this.keccak == keccak && this.pairCode == pairCode
      ensures feeTo == ZERO_ADDRESS && this.feeToSetter == feeToSetter
      ensures getPair == map[] && allPairs == [] && AllPairsLength() == 0
    {
      this.self := self;
      this.keccak := keccak;
      this.pairCode := pairCode;
      feeTo := ZERO_ADDRESS;
      this.feeToSetter := feeToSetter;
      getPair := map[];
      allPairs := [];
      pairTokens := [];
    }

    function AllPairsLength(): nat
      reads this
    {
      |allPairs|
    }

    /** `getPair(tokenA, tokenB)`: the zero address when there is no such pair. */
    function GetPair(tokenA: Address, tokenB: Address): Address
      reads this
    {
      if (tokenA, tokenB) in getPair then getPair[(tokenA, tokenB)] else ZERO_ADDRESS
    }

    /** `createPair(tokenA, tokenB)`: rejects identical tokens, the zero
        address and a pair that exists in either order; otherwise registers
        the sorted pair under both orders and appends it to `allPairs`. */
    method CreatePair(tokenA: Address, tokenB: Address) returns (r: Result<Address>)
      requires Valid()
      modifies this
      ensures Valid()
      ensures r.Ok? <==> && tokenA != tokenB && tokenA != ZERO_ADDRESS && tokenB != ZERO_ADDRESS
                         && (tokenA, tokenB) !in old(getPair)
      ensures r.Err? ==> r.error == if tokenA == tokenB then IdenticalAddresses
                                  else if tokenA == ZERO_ADDRESS || tokenB == ZERO_ADDRESS then ZeroAddress
                                  else PairExists
      ensures r.Err? ==> unchanged(this)
      ensures r.Ok? ==>
                var (token0, token1) := SortTokens(tokenA, tokenB);
                && r.value == PairFor(tokenA, tokenB)
                && getPair == old(getPair)[(token0, token1) := r.value][(token1, token0) := r.value]
                && allPairs == old(allPairs) + [r.value]
                && pairTokens == old(pairTokens) + [(token0, token1)]
      ensures feeTo == old(feeTo) && feeToSetter == old(feeToSetter)
    {
      KeysSymmetric(pairTokens, (tokenA, tokenB));
      CheckNewPairCorrect(tokenA, tokenB, getPair);
      var check := CheckNewPair(tokenA, tokenB, getPair);
      if check.Err? {
        return Err(check.error);
      }
      var (token0, token1) := check.value;
      GetCreate2AddressSymmetric(keccak, self, token0, token1, pairCode);
      var pair := Register(token0, token1);
      r := Ok(pair);
    }

    /** The effect of a successful `createPair`: the sorted pair is
        registered under both orders and appended to `allPairs`. */
    method Register(token0: Address, token1: Address) returns (pair: Address)
      requires Valid() && Below(token0, token1) && token0 != ZERO_ADDRESS && (token0, token1) !in getPair
      modifies this
      ensures Valid() && pair == PairFor(token0, token1)
      ensures getPair == old(getPair)[(token0, token1) := pair][(token1, token0) := pair]
      ensures allPairs == old(allPairs) + [pair] && pairTokens == old(pairTokens) + [(token0, token1)]
      ensures feeTo == old(feeTo) && feeToSetter == old(feeToSetter)
    {
      pair := PairFor(token0, token1);
      GetCreate2AddressSymmetric(keccak, self, token0, token1, pairCode);
      RegisterKeepsInvariant(PairAddressOf(keccak, self, pairCode), getPair, allPairs, pairTokens, token0, token1);
      getPair := getPair[(token0, token1) := pair][(token1, token0) := pair];
      allPairs := allPairs + [pair];
      pairTokens := pairTokens + [(token0, token1)];
    }

    /** `setFeeTo(feeTo)` sent by `sender`: only the setter may call it. */
    method SetFeeTo(sender: Address, newFeeTo: Address) returns (r: Result<()>)
      requires Valid()
      modifies this
      ensures Valid()
      ensures r.Ok? <==> sender == old(feeToSetter)
      ensures r.Err? ==> r.error == Forbidden
      ensures feeTo == if r.Ok? then newFeeTo else old(feeTo)
      ensures feeToSetter == old(feeToSetter) && getPair == old(getPair) && allPairs == old(allPairs)
    {
      if sender != feeToSetter {
        return Err(Forbidden);
      }
      feeTo := newFeeTo;
      r := Ok(());
    }

    /** `setFeeToSetter(feeToSetter)` sent by `sender`: only the setter may
        hand its role on. */
    method SetFeeToSetter(sender: Address, newFeeToSetter: Address) returns (r: Result<()>)
      requires Valid()
      modifies this
      ensures Valid()
      ensures r.Ok? <==> sender == old(feeToSetter)
      ensures r.Err? ==> r.error == Forbidden
      ensures feeToSetter == if r.Ok? then newFeeToSetter else old(feeToSetter)
      ensures feeTo == old(feeTo) && getPair == old(getPair) && allPairs == old(allPairs)
    {
      if sender != feeToSetter {
        return Err(Forbidden);
      }
      feeToSetter := newFeeToSetter;
      r := Ok(());
    }
  }
}
