/** The transaction records the script reads from the node and the router swaps
    it builds with `populateTransaction` and submits. */
module Swaps {
  import opened Chain
  import opened Slippage

  const SWAP_EXACT_ETH_FOR_TOKENS: string := "swapExactETHForTokens"
  const SWAP_EXACT_TOKENS_FOR_ETH: string := "swapExactTokensForETH"

  /** The ETH the script's own (user) swap sells: 1000 ether. */
  const USER_SWAP_VALUE: Wei := 1000 * WEI_PER_ETHER
  /** The gas price of the user swap: 100 gwei. */
  const USER_GAS_PRICE: Wei := 100 * WEI_PER_GWEI

  /** A router call as abi-decoder reports it: the method name and, for
      `swapExactETHForTokens`, its `path` and `amountOutMin` parameters (the
      script reads these two only after it has checked the name). */
  datatype Call = Call(name: string, path: seq<Address>, amountOutMin: Wei)

  /** A pending transaction as `eth_getTransactionByHash` reports it, with its
      input already decoded. `to` is None for a contract creation. */
  datatype PendingTx = PendingTx(to: Option<Address>, call: Call, value: Wei, gasPrice: Wei)

  /** A router swap the script submits. Every one is addressed to ROUTER. */
  datatype Swap =
    | EthForTokens(amountOutMin: Wei, path: seq<Address>, recipient: Address, deadline: nat,
                   value: Wei, gasLimit: nat, gasPrice: Wei)
    | TokensForEth(amountIn: Wei, amountOutMin: Wei, path: seq<Address>, recipient: Address,
                   deadline: nat, gasLimit: nat, gasPrice: Wei)

  /** The user's ETH->DAI swap built before the attack starts: 1000 ether in at
      100 gwei, with the minimum DAI out taken from the router's quote `quotedOut`
      at the script's 10% tolerance. */
  function UserSwap(weth: Address, quotedOut: Wei, signer: Address, deadline: nat): (s: Swap)
    ensures s.EthForTokens? && s.path == [weth, DAI] && s.recipient == signer
    ensures s.value == USER_SWAP_VALUE && s.gasPrice == USER_GAS_PRICE && s.gasLimit == GAS_LIMIT
    ensures s.amountOutMin <= quotedOut
    ensures s.amountOutMin == MinOut(quotedOut, SLIPPAGE_TOLERANCE)
  {
    MinOutWithinQuote(quotedOut, SLIPPAGE_TOLERANCE);
    EthForTokens(MinOut(quotedOut, SLIPPAGE_TOLERANCE), [weth, DAI], signer, deadline,
                 USER_SWAP_VALUE, GAS_LIMIT, USER_GAS_PRICE)
  }

  /** How the node reports a swap once it is pending and decoded: addressed to
      the router, with the swap's own method name and parameters. */
  function AsPending(s: Swap): (tx: PendingTx)
    ensures tx.to == Some(ROUTER) && tx.gasPrice == s.gasPrice
    ensures tx.call.name == SWAP_EXACT_ETH_FOR_TOKENS <==> s.EthForTokens?
  {
    match s
    case EthForTokens(amountOutMin, path, _, _, value, _, gasPrice) =>
      PendingTx(Some(ROUTER), Call(SWAP_EXACT_ETH_FOR_TOKENS, path, amountOutMin), value, gasPrice)
    case TokensForEth(_, amountOutMin, path, _, _, _, gasPrice) =>
      PendingTx(Some(ROUTER), Call(SWAP_EXACT_TOKENS_FOR_ETH, path, amountOutMin), 0, gasPrice)
  }
}
