/** Types shared by every part of the model: bytes, addresses, hashes and the
    failure datatype that stands for a reverted call. */
module Common {

  newtype uint8 = x: int | 0 <= x < 256

  type Bytes = seq<uint8>

  /** An account or contract address: exactly 20 bytes. */
  type Address = s: Bytes | |s| == 20 witness ZERO_ADDRESS

  /** A Keccak-256 digest: exactly 32 bytes. */
  type Hash = s: Bytes | |s| == 32 witness seq(32, _ => 0)

  const ZERO_ADDRESS: Bytes := [0, 0, 0, 0, 0, 0, 0, 0, 0, 0, 0, 0, 0, 0, 0, 0, 0, 0, 0, 0]

  /** 2^256 - 1, the largest `uint256`; an allowance of this size is never spent. */
  const MAX_UINT256: nat := 0x1_0000_0000_0000_0000_0000_0000_0000_0000_0000_0000_0000_0000_0000_0000_0000_0000_0000_0000_0000_0000 - 1

  /** The reasons a call reverts; each comment gives the revert string. */
  datatype Error =
    | Overflow                       // 'UniswapV2: OVERFLOW'
    | InsufficientLiquidityMinted    // 'UniswapV2: INSUFFICIENT_LIQUIDITY_MINTED'
    | InsufficientLiquidityBurned    // 'UniswapV2: INSUFFICIENT_LIQUIDITY_BURNED'
    | InsufficientOutputAmount       // 'UniswapV2: INSUFFICIENT_OUTPUT_AMOUNT'
    | InsufficientInputAmount        // 'UniswapV2: INSUFFICIENT_INPUT_AMOUNT'
    | InsufficientLiquidity          // 'UniswapV2: INSUFFICIENT_LIQUIDITY'
    | InvalidTo                      // 'UniswapV2: INVALID_TO'
    | K                              // 'UniswapV2: K'
    | Forbidden                      // 'UniswapV2: FORBIDDEN'
    | IdenticalAddresses             // 'UniswapV2: IDENTICAL_ADDRESSES'
    | ZeroAddress                    // 'UniswapV2: ZERO_ADDRESS'
    | PairExists                     // 'UniswapV2: PAIR_EXISTS'
    | Expired                        // 'UniswapV2: EXPIRED'
    | InvalidSignature               // 'UniswapV2: INVALID_SIGNATURE'
    | TransferFailed                 // 'UniswapV2: TRANSFER_FAILED'
    | SubUnderflow                   // 'ds-math-sub-underflow'
    | DivisionByZero                 // a division by zero (a virtual-machine fault, no string)

  datatype Result<T> = Ok(value: T) | Err(error: Error) {
    predicate IsFailure() { Err? }
    function PropagateFailure<U>(): Result<U>
      requires Err?
    {
      Err(error)
    }
    function Extract(): T
      requires Ok?
    {
      value
    }
  }
}
