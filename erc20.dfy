/** The ERC-20 (EIP-20) token ledger of the liquidity token, with the
    EIP-2612 `permit`. The test suite's `ERC20` contract is this ledger with a
    constructor that mints the whole supply to the deployer; the same ledger
    also stands in for the two pooled tokens. */
module Erc20 {
  import opened Common

  const NAME: string := "JuiceSwap V2"
  const SYMBOL: string := "JUICE-V2"
  const DECIMALS: nat := 18

  /** A missing entry of a balance map is a zero balance. */
  function BalanceOf(m: map<Address, nat>, a: Address): nat
  {
    if a in m then m[a] else 0
  }

  /** `to` gains `value`; crediting nothing leaves the map as it is. */
  function Credit(m: map<Address, nat>, to: Address, value: nat): map<Address, nat>
  {
    if value == 0 then m else m[to := BalanceOf(m, to) + value]
  }

  /** `from` loses `value`; debiting nothing leaves the map as it is. */
  function Debit(m: map<Address, nat>, from: Address, value: nat): map<Address, nat>
    requires value <= BalanceOf(m, from)
  {
    if value == 0 then m else m[from := BalanceOf(m, from) - value]
  }

  /** `_transfer` on a balance map: debit `from`, then credit `to`. When the
      two are the same account the balance ends where it started. */
  function Move(m: map<Address, nat>, from: Address, to: Address, value: nat): map<Address, nat>
    requires value <= BalanceOf(m, from)
  {
    Credit(Debit(m, from, value), to, value)
  }

  /** The effect of a move on every account: `from` loses `value`, `to`
      gains it, and every other balance stays as it was. */
  lemma MoveEffect(m: map<Address, nat>, from: Address, to: Address, value: nat, a: Address)
    requires value <= BalanceOf(m, from)
    ensures BalanceOf(Move(m, from, to, value), a) ==
            if from == to || (a != from && a != to) then BalanceOf(m, a)
            else if a == from then BalanceOf(m, a) - value
            else BalanceOf(m, a) + value
  {
  }

  /** Sum of all balances. */
  ghost function Sum(m: map<Address, nat>): nat
    decreases |m|
  {
    if m == map[] then 0
    else
      var k :| k in m;
      assert |m - {k}| == |m| - 1 by { assert (m - {k}).Keys == m.Keys - {k}; }
      m[k] + Sum(m - {k})
  }

  /** Any one entry can be split off the sum. */
  lemma {:induction false} SumRemove(m: map<Address, nat>, k: Address)
    requires k in m
    ensures Sum(m) == m[k] + Sum(m - {k})
    decreases |m|
  {
    var j :| j in m && Sum(m) == m[j] + Sum(m - {j});
    if j != k {
      assert |m - {j}| == |m| - 1 by { assert (m - {j}).Keys == m.Keys - {j}; }
      assert |m - {k}| == |m| - 1 by { assert (m - {k}).Keys == m.Keys - {k}; }
      SumRemove(m - {j}, k);
      SumRemove(m - {k}, j);
      assert m - {j} - {k} == m - {k} - {j};
    }
  }

  /** A balance never exceeds the sum of all balances. */
  lemma SumBoundsEntry(m: map<Address, nat>, a: Address)
    ensures BalanceOf(m, a) <= Sum(m)
  {
    if a in m {
      SumRemove(m, a);
    }
  }

  /** Overwriting one balance changes the sum by the difference. */
  lemma SumUpdate(m: map<Address, nat>, k: Address, v: nat)
    ensures Sum(m[k := v]) + BalanceOf(m, k) == Sum(m) + v
  {
    SumRemove(m[k := v], k);
    if k in m {
      SumRemove(m, k);
      assert m[k := v] - {k} == m - {k};
    } else {
      assert m[k := v] - {k} == m;
    }
  }

  /** A move leaves the total of all balances unchanged. */
  lemma MoveConserves(m: map<Address, nat>, from: Address, to: Address, value: nat)
    requires value <= BalanceOf(m, from)
    ensures Sum(Move(m, from, to, value)) == Sum(m)
  {
    if value > 0 {
      var debited := Debit(m, from, value);
      SumUpdate(m, from, BalanceOf(m, from) - value);
      SumUpdate(debited, to, BalanceOf(debited, to) + value);
    }
  }

  /** Crediting adds exactly `value` to the sum of all balances. */
  lemma CreditSum(m: map<Address, nat>, to: Address, value: nat)
    ensures Sum(Credit(m, to, value)) == Sum(m) + value
  {
    SumUpdate(m, to, BalanceOf(m, to) + value);
  }

  /** Debiting removes exactly `value` from the sum of all balances. */
  lemma DebitSum(m: map<Address, nat>, from: Address, value: nat)
    requires value <= BalanceOf(m, from)
    ensures value <= Sum(m)
    ensures Sum(Debit(m, from, value)) == Sum(m) - value
  {
    SumBoundsEntry(m, from);
    SumUpdate(m, from, BalanceOf(m, from) - value);
  }

  /** The message an EIP-2612 signature covers. */
  datatype PermitMessage = PermitMessage(owner: Address, spender: Address, value: nat, nonce: nat, deadline: nat)

  class Token {
    var totalSupply: nat
    var balanceOf: map<Address, nat>
    var allowance: map<(Address, Address), nat>
    var nonces: map<Address, nat>

    /** The supply is the sum of all balances. */
    ghost predicate Valid()
      reads this
    {
      totalSupply == Sum(balanceOf)
    }

    /** A ledger with no balances, allowances or nonces: the liquidity token
        of a newly created pair. */
    constructor Empty()
      ensures Valid()
      ensures totalSupply == 0 && balanceOf == map[] && allowance == map[] && nonces == map[]
    {
      totalSupply := 0;
      balanceOf := map[];
      allowance := map[];
      nonces := map[];
    }

    /** The test token: the whole `supply` is minted to `deployer`. */
    constructor (deployer: Address, supply: nat)
      ensures Valid()
      ensures totalSupply == supply && balanceOf == map[deployer := supply]
      ensures allowance == map[] && nonces == map[]
    {
      totalSupply := supply;
      balanceOf := map[deployer := supply];
      allowance := map[];
      nonces := map[];
      SumUpdate(map[], deployer, supply);
    }

    function Balance(a: Address): nat
      reads this
    {
      BalanceOf(balanceOf, a)
    }

    function Allowance(owner: Address, spender: Address): nat
      reads this
    {
      if (owner, spender) in allowance then allowance[(owner, spender)] else 0
    }

    function Nonce(owner: Address): nat
      reads this
    {
      if owner in nonces then nonces[owner] else 0
    }

    /** `_mint`: new tokens for `to`; the supply grows by the same amount. */
    method Mint(to: Address, value: nat)
      requires Valid()
      modifies this
      ensures Valid()
      ensures totalSupply == old(totalSupply) + value
      ensures balanceOf == Credit(old(balanceOf), to, value)
      ensures allowance == old(allowance) && nonces == old(nonces)
    {
      CreditSum(balanceOf, to, value);
      balanceOf := Credit(balanceOf, to, value);
      totalSupply := totalSupply + value;
    }

    /** `_burn`: tokens of `from` destroyed; the supply shrinks by the same
        amount. Only the pair calls it, on a balance it has just read. */
    method Burn(from: Address, value: nat)
      requires Valid() && value <= Balance(from)
      modifies this
      ensures Valid()
      ensures totalSupply == old(totalSupply) - value
      ensures balanceOf == Debit(old(balanceOf), from, value)
      ensures allowance == old(allowance) && nonces == old(nonces)
    {
      DebitSum(balanceOf, from, value);
      balanceOf := Debit(balanceOf, from, value);
      totalSupply := totalSupply - value;
    }

    /** `transfer(to, value)` sent by `sender`: reverts on an insufficient balance. */
    method Transfer(sender: Address, to: Address, value: nat) returns (r: Result<()>)
      requires Valid()
      modifies this
      ensures Valid()
      ensures r.Ok? <==> value <= old(Balance(sender))
      ensures r.Err? ==> r.error == SubUnderflow
      ensures balanceOf == if r.Ok? then Move(old(balanceOf), sender, to, value) else old(balanceOf)
      ensures totalSupply == old(totalSupply) && allowance == old(allowance) && nonces == old(nonces)
    {
      if value > Balance(sender) {
        return Err(SubUnderflow);
      }
      MoveConserves(balanceOf, sender, to, value);
      balanceOf := Move(balanceOf, sender, to, value);
      r := Ok(());
    }

    /** `approve(spender, value)` sent by `owner`: the allowance becomes exactly `value`. */
    method Approve(owner: Address, spender: Address, value: nat)
      requires Valid()
      modifies this
      ensures Valid()
      ensures allowance == old(allowance)[(owner, spender) := value]
      ensures totalSupply == old(totalSupply) && balanceOf == old(balanceOf) && nonces == old(nonces)
    {
      allowance := allowance[(owner, spender) := value];
    }

    /** `transferFrom(from, to, value)` sent by `sender`: spends the
        allowance `from` gave `sender`, unless that allowance is the maximum
        `uint256`, which is never decremented. */
    method TransferFrom(sender: Address, from: Address, to: Address, value: nat) returns (r: Result<()>)
      requires Valid()
      modifies this
      ensures Valid()
      ensures r.Ok? <==> (old(Allowance(from, sender)) == MAX_UINT256 || value <= old(Allowance(from, sender)))
                         && value <= old(Balance(from))
      ensures r.Err? ==> r.error == SubUnderflow
      ensures r.Err? ==> balanceOf == old(balanceOf) && allowance == old(allowance)
      ensures r.Ok? ==> balanceOf == Move(old(balanceOf), from, to, value)
      ensures r.Ok? ==> allowance == if old(Allowance(from, sender)) == MAX_UINT256 then old(allowance)
                                     else old(allowance)[(from, sender) := old(Allowance(from, sender)) - value]
      ensures totalSupply == old(totalSupply) && nonces == old(nonces)
    {
      var allowed := Allowance(from, sender);
      if allowed != MAX_UINT256 && value > allowed {
        return Err(SubUnderflow);
      }
      if value > Balance(from) {
        return Err(SubUnderflow);
      }
      if allowed != MAX_UINT256 {
        allowance := allowance[(from, sender) := allowed - value];
      }
      MoveConserves(balanceOf, from, to, value);
      balanceOf := Move(balanceOf, from, to, value);
      r := Ok(());
    }

    /** `permit`: with a valid signature by `owner` over the message that
        carries `owner`'s current nonce, sets the allowance and uses up the
        nonce. `recover` is signature recovery (ecrecover) applied to the
        caller's signature; the zero address means no valid signer. */
    method Permit(owner: Address, spender: Address, value: nat, deadline: nat, now: nat,
                  recover: PermitMessage -> Address) returns (r: Result<()>)
      requires Valid()
      modifies this
      ensures Valid()
      ensures r.Ok? <==> deadline >= now && PermitSignedBy(owner, spender, value, deadline, old(Nonce(owner)), recover)
      ensures r.Ok? ==> allowance == old(allowance)[(owner, spender) := value]
                        && nonces == old(nonces)[owner := old(Nonce(owner)) + 1]
      ensures r.Err? ==> allowance == old(allowance) && nonces == old(nonces)
      ensures r.Err? ==> r.error == (if deadline < now then Expired else InvalidSignature)
      ensures totalSupply == old(totalSupply) && balanceOf == old(balanceOf)
    {
      if deadline < now {
        return Err(Expired);
      }
      var nonce := Nonce(owner);
      if !PermitSignedBy(owner, spender, value, deadline, nonce, recover) {
        return Err(InvalidSignature);
      }
      nonces := nonces[owner := nonce + 1];
      allowance := allowance[(owner, spender) := value];
      r := Ok(());
    }
  }

  /** The signature recovers to `owner` itself (and not to the zero address)
      on the message with nonce `nonce`. */
  predicate PermitSignedBy(owner: Address, spender: Address, value: nat, deadline: nat, nonce: nat,
                           recover: PermitMessage -> Address)
  {
    var signer := recover(PermitMessage(owner, spender, value, nonce, deadline));
    signer != ZERO_ADDRESS && signer == owner
  }
}
