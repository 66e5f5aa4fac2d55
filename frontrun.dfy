/** The attack loop of the front-running script: for each transaction of the
    pending block, in the order the node reports them, decide whether it is a
    profitable WETH->DAI swap through the router and, if it is, submit a "pump"
    swap that outbids it and a "dump" swap that sells back at its gas price. */
module Frontrun {
  import opened Chain
  import opened Slippage
  import opened Swaps

  /** ETH the pump swap sells: 10 ether. */
  const FRONTRUN_ETH: Wei := 10 * WEI_PER_ETHER
  /** What the pump adds to the victim's gas price: 100 gwei. */
  const FRONTRUN_GAS_PREMIUM: Wei := 100 * WEI_PER_GWEI
  /** Minimum ETH the dump swap must return: `10 ether / 100 * 101`. */
  const DUMP_MIN_ETH_OUT: Wei := FRONTRUN_ETH / 100 * 101

  /** What the loop reads from outside: the router's WETH address (asked of the
      router at start-up), the attacker's account, the deadline fixed before the
      attack, and a quote: the DAI `getAmountsOut` would report for selling a
      given amount of WETH along [WETH, DAI], or None when that call reverts. */
  datatype Context = Context(weth: Address, attacker: Address, deadline: nat)

  type Quote = Wei -> Option<Wei>

  datatype SkipReason = NotRouter | NotSwapExactETHForTokens | NotWethToDai | NoValueToExtract

  /** What throws inside the loop and so ends the script: `BigNumber.from` of a
      null target or of the missing first element of an empty path, and a
      reverted quote. */
  datatype Failure = NullTarget | EmptyPath | QuoteReverted

  /** The loop's decision about one pending transaction. */
  datatype Verdict = Skipped(reason: SkipReason) | Failed(failure: Failure) | Attack(pump: Swap, dump: Swap)

  /** The swaps the loop submitted, in order, and whether it stopped on a failure. */
  datatype Outcome = Outcome(sent: seq<Swap>, halted: bool)

  /** A `swapExactETHForTokens` call to the router whose path sells WETH for
      DAI: the three filters of the loop. */
  ghost predicate IsWethToDaiRouterSwap(ctx: Context, tx: PendingTx)
  {
    && tx.to == Some(ROUTER)
    && tx.call.name == SWAP_EXACT_ETH_FOR_TOKENS
    && |tx.call.path| > 0
    && tx.call.path[0] == ctx.weth
    && Last(tx.call.path) == DAI
  }

  /** The transaction the attack wants, stated declaratively: a WETH->DAI
      router swap whose quoted output is strictly greater than the victim's own
      minimum. */
  ghost predicate IsProfitableVictim(ctx: Context, quote: Quote, tx: PendingTx)
  {
    && IsWethToDaiRouterSwap(ctx, tx)
    && quote(tx.value).Some?
    && quote(tx.value).value > tx.call.amountOutMin
  }

  /** The transactions on which the loop body throws: a null target, an empty
      path on a router `swapExactETHForTokens` call, and a reverted quote for a
      WETH->DAI router swap. */
  ghost predicate Throws(ctx: Context, quote: Quote, tx: PendingTx)
  {
    || tx.to.None?
    || (tx.to == Some(ROUTER) && tx.call.name == SWAP_EXACT_ETH_FOR_TOKENS && tx.call.path == [])
    || (IsWethToDaiRouterSwap(ctx, tx) && quote(tx.value).None?)
  }

  /** The pump: sells 10 ether for DAI along [WETH, DAI] with the victim's own
      minimum, at 100 gwei above the victim's gas price. */
  function Pump(ctx: Context, victim: PendingTx): (pump: Swap)
    ensures pump.EthForTokens? && pump.gasPrice > victim.gasPrice
    ensures pump.amountOutMin == victim.call.amountOutMin && pump.recipient == ctx.attacker
  {
    EthForTokens(victim.call.amountOutMin, [ctx.weth, DAI], ctx.attacker, ctx.deadline,
                 FRONTRUN_ETH, GAS_LIMIT, FRONTRUN_GAS_PREMIUM + victim.gasPrice)
  }

  /** The dump: sells the victim's minimum amount of DAI back along [DAI, WETH]
      for at least 10.1 ether, at exactly the victim's gas price. */
  function Dump(ctx: Context, victim: PendingTx): (dump: Swap)
    ensures dump.TokensForEth? && dump.gasPrice == victim.gasPrice
    ensures dump.amountIn == victim.call.amountOutMin && dump.recipient == ctx.attacker
    ensures dump.amountOutMin > FRONTRUN_ETH
  {
    TokensForEth(victim.call.amountOutMin, DUMP_MIN_ETH_OUT, [DAI, ctx.weth], ctx.attacker,
                 ctx.deadline, GAS_LIMIT, victim.gasPrice)
  }

  /** One pass of the loop body, check by check in the script's order. */
  function Assess(ctx: Context, quote: Quote, tx: PendingTx): (v: Verdict)
    ensures v.Failed? <==> Throws(ctx, quote, tx)
    ensures v == Skipped(NotRouter) <==> tx.to.Some? && tx.to.value != ROUTER
    ensures v.Attack? ==> v.pump.gasPrice > tx.gasPrice && v.dump.gasPrice == tx.gasPrice
  {
    if tx.to.None? then Failed(NullTarget)
    else if tx.to.value != ROUTER then Skipped(NotRouter)
    else if tx.call.name != SWAP_EXACT_ETH_FOR_TOKENS then Skipped(NotSwapExactETHForTokens)
    else if |tx.call.path| == 0 then Failed(EmptyPath)
    else if tx.call.path[0] != ctx.weth || Last(tx.call.path) != DAI then Skipped(NotWethToDai)
    else match quote(tx.value)
      case None => Failed(QuoteReverted)
      case Some(actualOut) =>
        if !(actualOut > tx.call.amountOutMin) then Skipped(NoValueToExtract)
        else Attack(Pump(ctx, tx), Dump(ctx, tx))
  }

  function Then(first: seq<Swap>, rest: Outcome): (r: Outcome)
  {
    Outcome(first + rest.sent, rest.halted)
  }

  /** What the loop does with the rest of the run after its verdict on one
      transaction. */
  function Continue(v: Verdict, rest: Outcome): (r: Outcome)
  {
    match v
    case Failed(_) => Outcome([], true)
    case Skipped(_) => rest
    case Attack(pump, dump) => Then([pump, dump], rest)
  }

  /** The whole loop over the pending transactions: each attacked transaction
      contributes its [pump, dump] pair, a skipped one nothing, and the first
      failure ends the run. At most two swaps are sent per pending transaction. */
  function Scan(ctx: Context, quote: Quote, pending: seq<PendingTx>): (r: Outcome)
    ensures |r.sent| <= 2 * |pending|
    decreases |pending|
  {
    if pending == [] then Outcome([], false)
    else Continue(Assess(ctx, quote, pending[0]), Scan(ctx, quote, pending[1..]))
  }

  lemma ScanStep(ctx: Context, quote: Quote, pending: seq<PendingTx>, i: nat)
    requires i < |pending|
    ensures Scan(ctx, quote, pending[i..]) == Continue(Assess(ctx, quote, pending[i]), Scan(ctx, quote, pending[i + 1..]))
  {
    assert pending[i..][1..] == pending[i + 1..];
  }

  /** The loop of `main` as the script runs it, with each `sendTransaction`
      appending to `sent` and an exception ending the run with `halted`. */
  method FrontrunPending(ctx: Context, quote: Quote, pending: seq<PendingTx>)
    returns (sent: seq<Swap>, halted: bool)
    ensures Outcome(sent, halted) == Scan(ctx, quote, pending)
  {
    sent, halted := [], false;
    var i := 0;
    while i < |pending|
      invariant i <= |pending|
      invariant Scan(ctx, quote, pending) == Then(sent, Scan(ctx, quote, pending[i..]))
    {
      var tx := pending[i];
      ScanStep(ctx, quote, pending, i);
      ghost var v := Assess(ctx, quote, tx);
      i := i + 1;
      if tx.to.None? {
        assert v == Failed(NullTarget);
        halted := true;
        return;
      }
      if tx.to.value != ROUTER {
        assert v == Skipped(NotRouter);
        continue;
      }
      var call := tx.call;
      if call.name != SWAP_EXACT_ETH_FOR_TOKENS {
        assert v == Skipped(NotSwapExactETHForTokens);
        continue;
      }
      if |call.path| == 0 {
        assert v == Failed(EmptyPath);
        halted := true;
        return;
      }
      if call.path[0] != ctx.weth || call.path[|call.path| - 1] != DAI {
        assert v == Skipped(NotWethToDai);
        continue;
      }
      var amountsOut := quote(tx.value);
      if amountsOut.None? {
        assert v == Failed(QuoteReverted);
        halted := true;
        return;
      }
      var actualDaiOut := amountsOut.value;
      if !(actualDaiOut > call.amountOutMin) {
        assert v == Skipped(NoValueToExtract);
        continue;
      }
      assert v == Attack(Pump(ctx, tx), Dump(ctx, tx));
      sent := sent + [Pump(ctx, tx)];
      sent := sent + [Dump(ctx, tx)];
    }
  }

  // ---------------------------------------------------------------------------
  // One pending transaction

  /** The loop attacks exactly the profitable victims, and what it builds for
      them is the pump and the dump. */
  lemma AttackIffProfitableVictim(ctx: Context, quote: Quote, tx: PendingTx)
    ensures Assess(ctx, quote, tx).Attack? <==> IsProfitableVictim(ctx, quote, tx)
    ensures Assess(ctx, quote, tx).Attack? ==>
              Assess(ctx, quote, tx) == Attack(Pump(ctx, tx), Dump(ctx, tx))
  {
  }

  /** A transaction to any address other than the router sends nothing, and the
      loop goes on with the next one. */
  lemma SkipsWrongTarget(ctx: Context, quote: Quote, tx: PendingTx, rest: seq<PendingTx>)
    requires tx.to.Some? && tx.to.value != ROUTER
    ensures Assess(ctx, quote, tx) == Skipped(NotRouter)
    ensures Scan(ctx, quote, [tx] + rest) == Scan(ctx, quote, rest)
  {
    ScanStep(ctx, quote, [tx] + rest, 0);
    assert ([tx] + rest)[1..] == rest;
  }

  /** A router call other than `swapExactETHForTokens` sends nothing, and the
      loop goes on with the next transaction. */
  lemma SkipsWrongMethod(ctx: Context, quote: Quote, tx: PendingTx, rest: seq<PendingTx>)
    requires tx.to == Some(ROUTER)
    requires tx.call.name != SWAP_EXACT_ETH_FOR_TOKENS
    ensures Assess(ctx, quote, tx) == Skipped(NotSwapExactETHForTokens)
    ensures Scan(ctx, quote, [tx] + rest) == Scan(ctx, quote, rest)
  {
    ScanStep(ctx, quote, [tx] + rest, 0);
    assert ([tx] + rest)[1..] == rest;
  }

  /** A swap whose path does not start with WETH or does not end with DAI sends
      nothing, and the loop goes on with the next transaction. */
  lemma SkipsWrongPath(ctx: Context, quote: Quote, tx: PendingTx, rest: seq<PendingTx>)
    requires tx.to == Some(ROUTER)
    requires tx.call.name == SWAP_EXACT_ETH_FOR_TOKENS
    requires |tx.call.path| > 0
    requires tx.call.path[0] != ctx.weth || Last(tx.call.path) != DAI
    ensures Assess(ctx, quote, tx) == Skipped(NotWethToDai)
    ensures Scan(ctx, quote, [tx] + rest) == Scan(ctx, quote, rest)
  {
    ScanStep(ctx, quote, [tx] + rest, 0);
    assert ([tx] + rest)[1..] == rest;
  }

  /** Only the two ends of the path are inspected: any two non-empty paths with
      the same first and last hop get the same verdict. */
  lemma PathInteriorIgnored(ctx: Context, quote: Quote, tx: PendingTx, path: seq<Address>)
    requires |tx.call.path| > 0 && |path| > 0
    requires path[0] == tx.call.path[0] && Last(path) == Last(tx.call.path)
    ensures Assess(ctx, quote, tx.(call := tx.call.(path := path))) == Assess(ctx, quote, tx)
  {
  }

  /** When the quote for the victim's ETH is no more than the victim's minimum,
      the equal case included, nothing is sent for it. */
  lemma SkipsUnprofitable(ctx: Context, quote: Quote, tx: PendingTx, rest: seq<PendingTx>)
    requires tx.to == Some(ROUTER)
    requires tx.call.name == SWAP_EXACT_ETH_FOR_TOKENS
    requires |tx.call.path| > 0 && tx.call.path[0] == ctx.weth && Last(tx.call.path) == DAI
    requires quote(tx.value).Some? && quote(tx.value).value <= tx.call.amountOutMin
    ensures Assess(ctx, quote, tx) == Skipped(NoValueToExtract)
    ensures Scan(ctx, quote, [tx] + rest) == Scan(ctx, quote, rest)
  {
    ScanStep(ctx, quote, [tx] + rest, 0);
    assert ([tx] + rest)[1..] == rest;
  }

  /** A profitable victim gets exactly two swaps, the pump and then the dump,
      ahead of whatever the rest of the block produces. */
  lemma AttacksProfitable(ctx: Context, quote: Quote, tx: PendingTx, rest: seq<PendingTx>)
    requires IsProfitableVictim(ctx, quote, tx)
    ensures Scan(ctx, quote, [tx] + rest) ==
              Then([Pump(ctx, tx), Dump(ctx, tx)], Scan(ctx, quote, rest))
  {
    ScanStep(ctx, quote, [tx] + rest, 0);
    assert ([tx] + rest)[1..] == rest;
  }

  /** A null target, an empty path and a reverted quote each end the run without
      sending anything for that transaction or any later one. */
  lemma FailureHalts(ctx: Context, quote: Quote, tx: PendingTx, rest: seq<PendingTx>)
    requires Throws(ctx, quote, tx)
    ensures Assess(ctx, quote, tx).Failed?
    ensures Scan(ctx, quote, [tx] + rest) == Outcome([], true)
  {
    ScanStep(ctx, quote, [tx] + rest, 0);
  }

  /** The pump outbids the victim by exactly 100 gwei, so a miner ordering by gas
      price takes it first; the dump bids exactly the victim's gas price. The
      pump spends 10 ether and asks for the victim's minimum DAI; the dump sells
      that much DAI and asks for 10.1 ether, 1% more than the pump spent. Both
      pay the attacker, with gas limit 300000 and the deadline fixed before the
      attack. */
  lemma CounterSwapTerms(ctx: Context, quote: Quote, tx: PendingTx)
    requires Assess(ctx, quote, tx).Attack?
    ensures var v := Assess(ctx, quote, tx);
      && v.pump.EthForTokens? && v.dump.TokensForEth?
      && v.pump.gasPrice == tx.gasPrice + 100 * WEI_PER_GWEI
      && v.pump.gasPrice > tx.gasPrice
      && v.dump.gasPrice == tx.gasPrice
      && v.pump.value == 10 * WEI_PER_ETHER
      && v.pump.amountOutMin == tx.call.amountOutMin
      && v.pump.path == [ctx.weth, DAI]
      && v.dump.amountIn == tx.call.amountOutMin
      && v.dump.amountOutMin == 10 * WEI_PER_ETHER + 10 * WEI_PER_ETHER / 100
      && v.dump.path == [DAI, ctx.weth]
      && v.pump.recipient == v.dump.recipient == ctx.attacker
      && v.pump.gasLimit == GAS_LIMIT && v.dump.gasLimit == GAS_LIMIT
      && v.pump.deadline == ctx.deadline && v.dump.deadline == ctx.deadline
  {
  }

  // ---------------------------------------------------------------------------
  // The whole loop

  /** Running the loop over two consecutive lists of pending transactions is
      running it over the first and, unless that failed, over the second after. */
  lemma {:induction false} ScanAppend(ctx: Context, quote: Quote, a: seq<PendingTx>, b: seq<PendingTx>)
    ensures Scan(ctx, quote, a + b) ==
              if Scan(ctx, quote, a).halted then Scan(ctx, quote, a)
              else Then(Scan(ctx, quote, a).sent, Scan(ctx, quote, b))
    decreases |a|
  {
    if a == [] {
      assert a + b == b;
    } else {
      ScanStep(ctx, quote, a + b, 0);
      assert (a + b)[0] == a[0];
      assert (a + b)[1..] == a[1..] + b;
      ScanAppend(ctx, quote, a[1..], b);
      match Assess(ctx, quote, a[0])
      case Failed(_) =>
      case Skipped(_) =>
      case Attack(pump, dump) =>
        var ra, rb := Scan(ctx, quote, a[1..]), Scan(ctx, quote, b);
        if !ra.halted {
          assert [pump, dump] + (ra.sent + rb.sent) == ([pump, dump] + ra.sent) + rb.sent;
        }
    }
  }

  /** A skipped transaction contributes nothing wherever it stands. */
  lemma SkippedContributesNothing(ctx: Context, quote: Quote, a: seq<PendingTx>, tx: PendingTx, b: seq<PendingTx>)
    requires Assess(ctx, quote, tx).Skipped?
    ensures Scan(ctx, quote, a + [tx] + b) == Scan(ctx, quote, a + b)
  {
    ScanAppend(ctx, quote, a, [tx] + b);
    ScanAppend(ctx, quote, a, b);
    ScanStep(ctx, quote, [tx] + b, 0);
    assert ([tx] + b)[1..] == b;
    assert a + [tx] + b == a + ([tx] + b);
  }

  /** Nothing after the first failing transaction is looked at. */
  lemma NothingAfterFailure(ctx: Context, quote: Quote, pending: seq<PendingTx>, k: nat)
    requires k < |pending| && Assess(ctx, quote, pending[k]).Failed?
    ensures Scan(ctx, quote, pending).halted
    ensures Scan(ctx, quote, pending) == Scan(ctx, quote, pending[..k + 1])
  {
    ScanAppend(ctx, quote, pending[..k], pending[k..]);
    assert pending[..k] + pending[k..] == pending;
    ScanStep(ctx, quote, pending[k..], 0);
    ScanAppend(ctx, quote, pending[..k], [pending[k]]);
    assert pending[..k + 1] == pending[..k] + [pending[k]];
    ScanStep(ctx, quote, [pending[k]], 0);
  }

  /** The run halts exactly when some pending transaction fails. */
  lemma {:induction false} HaltsIffSomeFailure(ctx: Context, quote: Quote, pending: seq<PendingTx>)
    ensures Scan(ctx, quote, pending).halted <==>
              exists i :: 0 <= i < |pending| && Assess(ctx, quote, pending[i]).Failed?
    decreases |pending|
  {
    if pending != [] {
      HaltsIffSomeFailure(ctx, quote, pending[1..]);
      if exists i :: 0 <= i < |pending[1..]| && Assess(ctx, quote, pending[1..][i]).Failed? {
        var i :| 0 <= i < |pending[1..]| && Assess(ctx, quote, pending[1..][i]).Failed?;
        assert pending[1..][i] == pending[i + 1];
      }
      if exists i :: 0 <= i < |pending| && Assess(ctx, quote, pending[i]).Failed? {
        var i :| 0 <= i < |pending| && Assess(ctx, quote, pending[i]).Failed?;
        if i > 0 {
          assert pending[1..][i - 1] == pending[i];
        }
      }
    }
  }

  /** A pump and the dump that follows it, as the loop builds them. */
  ghost predicate CounterPair(ctx: Context, pump: Swap, dump: Swap)
  {
    && pump.EthForTokens? && dump.TokensForEth?
    && pump.path == [ctx.weth, DAI] && dump.path == [DAI, ctx.weth]
    && pump.value == FRONTRUN_ETH && dump.amountOutMin == DUMP_MIN_ETH_OUT
    && dump.amountIn == pump.amountOutMin
    && pump.gasPrice == dump.gasPrice + FRONTRUN_GAS_PREMIUM
    && pump.recipient == ctx.attacker && dump.recipient == ctx.attacker
  }

  /** The sent swaps split into consecutive (pump, dump) pairs. */
  ghost predicate PairedCounterSwaps(ctx: Context, sent: seq<Swap>)
    decreases |sent|
  {
    sent == [] || (|sent| >= 2 && CounterPair(ctx, sent[0], sent[1]) && PairedCounterSwaps(ctx, sent[2..]))
  }

  /** Every swap the loop sends belongs to a pump-then-dump pair, so it sends
      an even number of swaps, each pump immediately followed by its dump. */
  lemma {:induction false} ScanSendsPairs(ctx: Context, quote: Quote, pending: seq<PendingTx>)
    ensures PairedCounterSwaps(ctx, Scan(ctx, quote, pending).sent)
    ensures |Scan(ctx, quote, pending).sent| % 2 == 0
    decreases |pending|
  {
    if pending != [] {
      ScanSendsPairs(ctx, quote, pending[1..]);
      match Assess(ctx, quote, pending[0])
      case Failed(_) =>
      case Skipped(_) =>
      case Attack(pump, dump) =>
        var rest := Scan(ctx, quote, pending[1..]).sent;
        assert ([pump, dump] + rest)[2..] == rest;
        assert ([pump, dump] + rest)[0] == pump && ([pump, dump] + rest)[1] == dump;
    }
  }

  // ---------------------------------------------------------------------------
  // The demonstration end to end

  /** The script's own swap, once pending, is front-run exactly when the quote it
      was built from is positive: its 10% slippage minimum then lies strictly
      below what the unchanged router still quotes. */
  lemma UserSwapFrontrunIffPositiveQuote(ctx: Context, quote: Quote, out: Wei, signer: Address)
    requires quote(USER_SWAP_VALUE) == Some(out)
    ensures var victim := AsPending(UserSwap(ctx.weth, out, signer, ctx.deadline));
      Scan(ctx, quote, [victim]) ==
        Outcome(if out > 0 then [Pump(ctx, victim), Dump(ctx, victim)] else [], false)
  {
    var victim := AsPending(UserSwap(ctx.weth, out, signer, ctx.deadline));
    if out > 0 {
      MinOutBelowPositiveQuote(out, SLIPPAGE_TOLERANCE);
    }
    ScanStep(ctx, quote, [victim], 0);
  }
}
