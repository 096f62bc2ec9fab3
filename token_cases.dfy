/** The cases of the liquidity token's test suite, run against the `Token`
    class: the test token is deployed with 10000 tokens for `wallet`, and
    `other` is a second account. Each method returns what the case reads
    back, and its contract states the values the case expects. */
module TokenCases {
  import opened Common
  import opened Erc20

  const TOTAL_SUPPLY: nat := 10000 * 1_000_000_000_000_000_000
  const TEST_AMOUNT: nat := 10 * 1_000_000_000_000_000_000

  /** The metadata and the deployer's position. */
  method Deployment(wallet: Address) returns (name: string, symbol: string, decimals: nat, supply: nat, balance: nat)
    ensures name == "JuiceSwap V2" && symbol == "JUICE-V2" && decimals == 18
    ensures supply == TOTAL_SUPPLY && balance == TOTAL_SUPPLY
  {
    var token := new Token(wallet, TOTAL_SUPPLY);
    name, symbol, decimals := NAME, SYMBOL, DECIMALS;
    supply, balance := token.totalSupply, token.Balance(wallet);
  }

  /** `approve` sets the allowance to exactly the amount. */
  method ApproveCase(wallet: Address, other: Address) returns (allowance: nat)
    ensures allowance == TEST_AMOUNT
  {
    var token := new Token(wallet, TOTAL_SUPPLY);
    token.Approve(wallet, other, TEST_AMOUNT);
    allowance := token.Allowance(wallet, other);
  }

  /** `transfer` moves the amount from the sender to the receiver. */
  method TransferCase(wallet: Address, other: Address) returns (r: Result<()>, walletBalance: nat, otherBalance: nat)
    requires wallet != other
    ensures r.Ok?
    ensures walletBalance == TOTAL_SUPPLY - TEST_AMOUNT && otherBalance == TEST_AMOUNT
  {
    var token := new Token(wallet, TOTAL_SUPPLY);
    r := token.Transfer(wallet, other, TEST_AMOUNT);
    walletBalance, otherBalance := token.Balance(wallet), token.Balance(other);
  }

  /** Sending one more than the supply, and sending from an empty balance,
      both revert. */
  method TransferFailCase(wallet: Address, other: Address) returns (tooMuch: Result<()>, fromEmpty: Result<()>)
    requires wallet != other
    ensures tooMuch == Err(SubUnderflow) && fromEmpty == Err(SubUnderflow)
  {
    var token := new Token(wallet, TOTAL_SUPPLY);
    tooMuch := token.Transfer(wallet, other, TOTAL_SUPPLY + 1);
    fromEmpty := token.Transfer(other, wallet, 1);
  }

  /** `transferFrom` under an allowance of exactly the amount spends all of
      it. */
  method TransferFromCase(wallet: Address, other: Address)
    returns (r: Result<()>, allowance: nat, walletBalance: nat, otherBalance: nat)
    requires wallet != other
    ensures r.Ok? && allowance == 0
    ensures walletBalance == TOTAL_SUPPLY - TEST_AMOUNT && otherBalance == TEST_AMOUNT
  {
    var token := new Token(wallet, TOTAL_SUPPLY);
    token.Approve(wallet, other, TEST_AMOUNT);
    r := token.TransferFrom(other, wallet, other, TEST_AMOUNT);
    allowance := token.Allowance(wallet, other);
    walletBalance, otherBalance := token.Balance(wallet), token.Balance(other);
  }

  /** `transferFrom` under the maximum allowance leaves it at the maximum. */
  method TransferFromMaxCase(wallet: Address, other: Address)
    returns (r: Result<()>, allowance: nat, walletBalance: nat, otherBalance: nat)
    requires wallet != other
    ensures r.Ok? && allowance == MAX_UINT256
    ensures walletBalance == TOTAL_SUPPLY - TEST_AMOUNT && otherBalance == TEST_AMOUNT
  {
    var token := new Token(wallet, TOTAL_SUPPLY);
    token.Approve(wallet, other, MAX_UINT256);
    r := token.TransferFrom(other, wallet, other, TEST_AMOUNT);
    allowance := token.Allowance(wallet, other);
    walletBalance, otherBalance := token.Balance(wallet), token.Balance(other);
  }

  /** A permit signed by `wallet` over nonce 0 with the maximum deadline sets
      the allowance and moves the nonce to 1; submitting the same signature
      again is refused, since it was made over the used nonce. */
  method PermitCase(wallet: Address, other: Address, now: nat, recover: PermitMessage -> Address)
    returns (r: Result<()>, allowance: nat, nonce: nat, replay: Result<()>)
    requires now <= MAX_UINT256
    requires PermitSignedBy(wallet, other, TEST_AMOUNT, MAX_UINT256, 0, recover)
    requires !PermitSignedBy(wallet, other, TEST_AMOUNT, MAX_UINT256, 1, recover)
    ensures r.Ok? && allowance == TEST_AMOUNT && nonce == 1
    ensures replay == Err(InvalidSignature)
  {
    var token := new Token(wallet, TOTAL_SUPPLY);
    r := token.Permit(wallet, other, TEST_AMOUNT, MAX_UINT256, now, recover);
    allowance, nonce := token.Allowance(wallet, other), token.Nonce(wallet);
    replay := token.Permit(wallet, other, TEST_AMOUNT, MAX_UINT256, now, recover);
  }
}
