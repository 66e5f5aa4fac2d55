# Front-running decision logic, modelled in Dafny

This project models the decision logic of `scripts/frontrun.ts` from a set of
exploratory scripts that run against a forked Ethereum mainnet. The script
submits its own ETH->DAI swap through the Uniswap V2 router. It sets the
swap's minimum output to the router's quote less a 10% slippage tolerance.
Then it walks the transactions of the pending block. For each one it checks
four things:

- the transaction is addressed to the router;
- the call is `swapExactETHForTokens`;
- the path runs from WETH to DAI;
- the router's fresh quote for the victim's ETH is strictly greater than the
  victim's `amountOutMin`.

When all four hold, it submits two swaps:

- a "pump" at 100 gwei above the victim's gas price;
- a "dump" at exactly the victim's gas price.

The model is a pure decision layer over abstract inputs:

- `Chain`: addresses as 160-bit numbers, since the script compares them with
  `BigNumber.eq`. Amounts are unbounded naturals, since BigNumber does not wrap.
  Also the router and DAI addresses, the units and the gas limit.
- `Slippage`: the minimum-output expression `out / 100 * (100 - tolerance)`, and
  what dividing first does to it.
- `Swaps`: the decoded pending transaction, the swaps the script submits, and
  the script's own user swap.
- `Frontrun`: the verdict on one pending transaction (`Assess`), the whole
  loop as a specification function (`Scan`), and the loop itself as a method
  (`FrontrunPending`). The method is proved equal to `Scan`. The lemmas about
  `Scan` state the filter, profitability, ordering and output properties.

The inputs from outside are parameters. The router's WETH address, the
attacker account, the pending transactions (already decoded) and the router
quote come from the node. The deadline comes from the clock: it is fixed by
`Date.now()` before the attack starts. The quote is a total function that returns
`None` when `getAmountsOut` reverts. It is fixed for the whole loop. This is
faithful when automatic mining is off (the default in `hardhat.config.ts`).
In that case the swaps the loop sends stay pending and do not change the
reserves the router quotes from. Sending a swap is modelled as appending it to
the output sequence.

Of the inputs the model takes, three throw an exception in the script and end
it with exit code 1. The model represents each one as a halted `Outcome`.
Swaps sent before the failure stay sent:

- a pending transaction whose target is null (a contract creation);
- a `swapExactETHForTokens` call with an empty path, where `path[0]` is
  undefined;
- a router quote that reverts.

The script has other throws that the model does not take as inputs: calldata
abi-decoder does not recognise, a failed `sendTransaction` and a failed
`getReserves`. The "## Left out" section lists these.

The slippage minimum at line 41 divides by 100 before it multiplies. The
subtractive formula `out - out*tol/100` and the single truncation
`out*(100-tol)/100` can give a different value than the code does:

- The formulas agree when the quote is a whole number of hundreds of wei
  (`MinOutExactOnWholeHundreds`).
- At the script's 10% tolerance, the code and `out - out*tol/100` agree only
  on such quotes (`MinOutMatchesReferenceOnlyOnWholeHundreds`).
- At 199 wei and 10%, they give 90 and 180 (`MinOutDivergesFromReference`).

Where the code and its own comments disagree, the model follows the code:

- The comment on the dump's gas price says "user's trade -1 gwei". The code
  uses the victim's gas price unchanged, and `CounterSwapTerms` states that.

## Model

| member | source | states |
|---|---|---|
| Slippage.MinOut | scripts/frontrun.ts:20-41 | The divide-first minimum `out / 100 * (100 - tol)`. For a tolerance from 0% to 100% it lies between 0 and the quote, and it is 0 at 100%. The lemmas below state the rest. |
| Slippage.MinOutWithinQuote | scripts/frontrun.ts:41 | For a tolerance from 0% to 100%, the minimum is non-negative. It is at most the multiply-first value `out*(100-tol)/100`, which is at most the quote. |
| Slippage.MinOutTruncationLoss | scripts/frontrun.ts:41 | Dividing first loses exactly `(out % 100)*(100-tol)/100`. That is less than `100 - tol` wei. |
| Slippage.MinOutAtZeroTolerance | scripts/frontrun.ts:41 | At 0% tolerance the minimum is `out - out % 100`. It equals the quote only when the quote is a multiple of 100. |
| Slippage.MinOutExactOnWholeHundreds | scripts/frontrun.ts:41 | For a quote that is a multiple of 100, divide-first, multiply-first and `out - out*tol/100` all agree. |
| Slippage.MinOutBelowPositiveQuote | scripts/frontrun.ts:41 | For a tolerance from 1% to 100%, the minimum is strictly below any positive quote. |
| Slippage.MinOutMatchesReferenceOnlyOnWholeHundreds | scripts/frontrun.ts:20-41 | At the script's 10% tolerance, if the divide-first minimum equals `out - out*10/100`, then the quote is a multiple of 100. This is the converse of `MinOutExactOnWholeHundreds` at that tolerance. |
| Slippage.MinOutDivergesFromReference | scripts/frontrun.ts:41 | A witness that the code differs from the subtractive formula: 199 wei at 10% gives 90 against 180. |
| Swaps.UserSwap | scripts/frontrun.ts:40-58 | The user swap sells 1000 ether along [WETH, DAI] at 100 gwei and gas limit 300000. Its minimum out is the 10% slippage minimum of the quote, so never more than the quote. |
| Swaps.AsPending | scripts/frontrun.ts:72-86 | Once pending, a swap the script sent is reported as addressed to the router, with its own gas price. It decodes as `swapExactETHForTokens` exactly when it is an ETH-for-tokens swap. |
| Frontrun.Pump | scripts/frontrun.ts:153-166 | The pump is an ETH-for-tokens swap paying the attacker. It asks for the victim's `amountOutMin`, at a gas price strictly above the victim's. `CounterSwapTerms` gives all its terms. |
| Frontrun.Dump | scripts/frontrun.ts:169-182 | The dump is a tokens-for-ETH swap paying the attacker. It sells the victim's `amountOutMin` of DAI, at exactly the victim's gas price. It asks for more ETH back than the pump's 10 ether. `CounterSwapTerms` gives all its terms. |
| Frontrun.Assess | scripts/frontrun.ts:74-128 | The verdict on one pending transaction. It fails exactly on the three throwing inputs: a null target, an empty path on a router `swapExactETHForTokens` call, and a reverted quote for a WETH->DAI router swap. It skips as "not the router" exactly when the target is another address. An attack outbids the victim with the pump and matches it with the dump. `AttackIffProfitableVictim` and the `Skips...` lemmas give the other cases. |
| Frontrun.Scan | scripts/frontrun.ts:71-184 | The loop sends at most two swaps per pending transaction. |
| Frontrun.FrontrunPending | scripts/frontrun.ts:71-184 | The imperative loop, with its `continue` skips and its sends, produces exactly `Scan` of the pending list: the same sent swaps in the same order, and the same halting. |
| Frontrun.AttackIffProfitableVictim | scripts/frontrun.ts:74-128 | A transaction is attacked if and only if four things hold: it targets the router, it calls `swapExactETHForTokens`, its path runs from WETH to DAI, and the quote for its value is strictly above its `amountOutMin`. What is then built is the pump and the dump. |
| Frontrun.SkipsWrongTarget | scripts/frontrun.ts:74-78 | A transaction to any address other than the router is skipped as not the router. It contributes nothing to the rest of the run. |
| Frontrun.SkipsWrongMethod | scripts/frontrun.ts:82-85 | A router call whose decoded name is not `swapExactETHForTokens` is skipped. It contributes nothing. |
| Frontrun.SkipsWrongPath | scripts/frontrun.ts:89-95 | A non-empty path that does not start with WETH, or does not end with DAI, is skipped. It contributes nothing. |
| Frontrun.PathInteriorIgnored | scripts/frontrun.ts:86-95 | Intermediate hops are never inspected. Two non-empty paths with the same first and last address get the same verdict. |
| Frontrun.SkipsUnprofitable | scripts/frontrun.ts:104-128 | When the quote for the victim's value is at most its `amountOutMin`, including the equal case, nothing is sent for it. |
| Frontrun.AttacksProfitable | scripts/frontrun.ts:118-183 | A profitable victim contributes exactly [pump, dump], in that order, ahead of what the rest of the block produces. |
| Frontrun.FailureHalts | scripts/frontrun.ts:74-114 | Three cases each fail: a null target, an empty path on a router `swapExactETHForTokens` call, and a reverted quote for a WETH->DAI router swap. Each ends the run without sending anything for that transaction or any later one. |
| Frontrun.CounterSwapTerms | scripts/frontrun.ts:153-183 | For an attacked transaction, the pump's gas price is the victim's plus 100 gwei, so strictly greater. The dump's gas price equals the victim's. The pump sells 10 ether for at least the victim's minimum DAI along [WETH, DAI]. The dump sells that same DAI amount along [DAI, WETH] for at least 10.1 ether. Both pay the attacker, with gas limit 300000 and the deadline fixed before the attack. |
| Frontrun.ScanAppend | scripts/frontrun.ts:71-184 | Pending transactions are processed in order. The run over `a + b` is the run over `a`, halted there if `a` failed, and otherwise followed by the run over `b`. |
| Frontrun.SkippedContributesNothing | scripts/frontrun.ts:71-184 | Inserting a skipped transaction anywhere in the pending list does not change the outcome. |
| Frontrun.NothingAfterFailure | scripts/frontrun.ts:71-203 | Once a transaction fails, the run halts. Its outcome is that of the prefix ending at the failing transaction. |
| Frontrun.HaltsIffSomeFailure | scripts/frontrun.ts:71-203 | The run halts if and only if some pending transaction fails. |
| Frontrun.ScanSendsPairs | scripts/frontrun.ts:153-183 | The sent swaps come in consecutive (pump, dump) pairs, so their number is even. In each pair the dump sells the DAI amount the pump asks for, and the pump bids 100 gwei more than the dump. |
| Frontrun.UserSwapFrontrunIffPositiveQuote | scripts/frontrun.ts:40-128 | The script's own swap, once it is reported back as pending, is front-run exactly when the quote it was built from is positive. The router must still give that same quote. |

## Left out

- The node RPC calls (`eth_getBlockByNumber`, `eth_getTransactionByHash`, `sendTransaction`, `evm_mine`) are I/O against the simulated node. Their results are inputs and their effects are the output sequence. A failed `sendTransaction` is not modelled, so a run cannot stop between a pump and its dump.
- `getAmountsOut` prices swaps inside the external Uniswap V2 contract, so the quote is an opaque input. The model takes the chain state it reads as fixed for the whole loop, which holds when automatic mining is off.
- abi-decoder is a foreign library, so the pending transactions come already decoded. A decoding failure (an input the decoder does not recognise) is not modelled.
- The `getReserves` call and the constant product `k` feed only a log line. The pair address is therefore not modelled either, and neither is a failed `getReserves` call.
- The commented-out `calcAmountEthRequired` is dead code.
- `Date.now()`, `formatEther` and the console logging are clock and presentation concerns. The deadline is an input.
- `scripts/vulnerable-price-oracle.ts` only orchestrates calls into external contracts, so it is not part of this model.
- `hardhat.config.ts` is configuration only. It matters here only through its automatic-mining switch, which the fixed quote above assumes is off.
