/** Primitive chain values used by the front-running script: addresses, amounts
    in wei, and the fixed addresses and units the script hard-codes. */
module Chain {

  datatype Option<T> = None | Some(value: T)

  /** 2^160: an address is a 20-byte number. */
  const ADDRESS_BOUND: nat := 0x1_0000_0000_0000_0000_0000_0000_0000_0000_0000_0000

  /** An address, as the number the script compares with BigNumber.eq (so the
      letter case of its hex spelling does not matter). */
  type Address = a: nat | a < ADDRESS_BOUND

  /** Amounts and gas prices are arbitrary-precision BigNumbers in the script:
      unbounded naturals here, with no wrap-around. */
  type Wei = nat

  const WEI_PER_GWEI: Wei := 1_000_000_000
  const WEI_PER_ETHER: Wei := 1_000_000_000_000_000_000

  /** The Uniswap V2 router the script watches and trades through. */
  const ROUTER: Address := 0x7a250d5630B4cF539739dF2C5dAcb4c659F2488D
  /** The DAI token, the output currency of the swaps the script front-runs. */
  const DAI: Address := 0x6B175474E89094C44Da98b954EedeAC495271d0F

  /** Gas limit of every swap the script builds. */
  const GAS_LIMIT: nat := 300_000

  function Last<T>(s: seq<T>): T
    requires |s| > 0
  {
    s[|s| - 1]
  }
}
