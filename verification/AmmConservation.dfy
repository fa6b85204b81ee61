/** The AMM neither creates nor destroys tokens: over every run the total of each token over all
    accounts changes only by what is issued elsewhere (contracts/amm/src/lib.rs). */
module AmmConservation {
  import opened Prelude
  import opened TokenLedger
  import opened AmmMath
  import opened AmmPools

  lemma CollectorConserves(l: Ledger, collector: Option<Address>, token: Address, fee: int, t: Address)
    requires PayCollector(l, collector, token, fee).Some?
    ensures Supply(PayCollector(l, collector, token, fee).value, t) == Supply(l, t)
  {
    hide Supply;
    if fee > 0 && collector.Some? {
      TransferConserves(l, token, SELF, collector.value, fee, t);
    }
  }

  lemma AddLiquidityConserves(s: State, provider: Address, id: nat, a: int, b: int, t: Address)
    requires AddLiquidity(s, provider, id, a, b).Some?
    ensures Supply(AddLiquidity(s, provider, id, a, b).value.0.ledger, t) == Supply(s.ledger, t)
  {
    hide Supply, LpMinted, RatioAccepted, Transfer;
    var p := s.pools[id];
    TransferConserves(s.ledger, p.tokenA, provider, SELF, a, t);
    TransferConserves(Transfer(s.ledger, p.tokenA, provider, SELF, a).value, p.tokenB, provider, SELF, b, t);
  }

  lemma RemoveLiquidityConserves(s: State, provider: Address, id: nat, amount: int, t: Address)
    requires RemoveLiquidity(s, provider, id, amount).Some?
    ensures Supply(RemoveLiquidity(s, provider, id, amount).value.0.ledger, t) == Supply(s.ledger, t)
  {
    hide Supply, Transfer;
    var p := s.pools[id];
    var a, b := amount * p.reserveA / p.supply, amount * p.reserveB / p.supply;
    TransferConserves(s.ledger, p.tokenA, SELF, provider, a, t);
    TransferConserves(Transfer(s.ledger, p.tokenA, SELF, provider, a).value, p.tokenB, SELF, provider, b, t);
  }

  lemma SwapConserves(s: State, user: Address, id: nat, tokenIn: Address, amountIn: int, minOut: int, skim: bool, t: Address)
    requires Swap(s, user, id, tokenIn, amountIn, minOut, skim).Some?
    ensures Supply(Swap(s, user, id, tokenIn, amountIn, minOut, skim).value.0.ledger, t) == Supply(s.ledger, t)
  {
    hide Supply, Transfer, PayCollector, AmountOut, ProtocolFee;
    var p := s.pools[id];
    var fee := if skim then ProtocolFee(amountIn, p.feeBps, s.shareBps) else 0;
    var l1 := Transfer(s.ledger, tokenIn, user, SELF, amountIn).value;
    TransferConserves(s.ledger, tokenIn, user, SELF, amountIn, t);
    CollectorConserves(l1, s.collector, tokenIn, fee, t);
    TransferConserves(PayCollector(l1, s.collector, tokenIn, fee).value, Partner(p, tokenIn), SELF, user,
                      AmountOut(amountIn, Sides(p, tokenIn).0, Sides(p, tokenIn).1, p.feeBps), t);
  }

  lemma FlashConserves(s: State, user: Address, id: nat, tokenOut: Address, amountOut: int, tokenIn: Address, maxIn: int, t: Address)
    requires FlashSwap(s, user, id, tokenOut, amountOut, tokenIn, maxIn).Some?
    ensures Supply(FlashSwap(s, user, id, tokenOut, amountOut, tokenIn, maxIn).value.0.ledger, t) == Supply(s.ledger, t)
  {
    hide Supply, Transfer, PayCollector, AmountIn, ProtocolFee;
    var p := s.pools[id];
    var paid := AmountIn(amountOut, Sides(p, tokenIn).0, Sides(p, tokenIn).1, p.feeBps).value;
    var l1 := Transfer(s.ledger, tokenOut, SELF, user, amountOut).value;
    TransferConserves(s.ledger, tokenOut, SELF, user, amountOut, t);
    TransferConserves(l1, tokenIn, user, SELF, paid, t);
    CollectorConserves(Transfer(l1, tokenIn, user, SELF, paid).value, s.collector, tokenIn,
                       ProtocolFee(paid, p.feeBps, s.shareBps), t);
  }

  lemma {:induction false} HopsConserve(s: State, user: Address, hops: seq<Hop>, amount: int, token: Address, t: Address)
    requires ExecuteHops(s, user, hops, amount, token).Some?
    ensures Supply(ExecuteHops(s, user, hops, amount, token).value.0.ledger, t) == Supply(s.ledger, t)
    decreases |hops|
  {
    hide Supply, Swap;
    if hops != [] {
      var hop := hops[0];
      SwapConserves(s, user, hop.pool, hop.tokenIn, hop.amountIn, hop.minOut, false, t);
      var (s', out) := Swap(s, user, hop.pool, hop.tokenIn, hop.amountIn, hop.minOut, false).value;
      HopsConserve(s', user, hops[1..], out, hop.tokenOut, t);
    }
  }

  lemma ClaimSideConserves(s: State, provider: Address, id: nat, token: Address, share: int, t: Address)
    requires ClaimSide(s, provider, id, token, share).Some?
    ensures Supply(ClaimSide(s, provider, id, token, share).value.ledger, t) == Supply(s.ledger, t)
  {
    hide Supply, Transfer;
    if share > 0 {
      TransferConserves(s.ledger, token, SELF, provider, share, t);
    }
  }

  lemma ClaimConserves(s: State, provider: Address, id: nat, t: Address)
    requires ClaimRewards(s, provider, id).Some?
    ensures Supply(ClaimRewards(s, provider, id).value.0.ledger, t) == Supply(s.ledger, t)
  {
    hide Supply, ClaimSide;
    var p, held := s.pools[id], At(s.lp, LpKey(id, provider));
    var a := At(s.rewards, RewardKey(id, p.tokenA)) * held / p.supply;
    var b := At(s.rewards, RewardKey(id, p.tokenB)) * held / p.supply;
    ClaimSideConserves(s, provider, id, p.tokenA, a, t);
    ClaimSideConserves(ClaimSide(s, provider, id, p.tokenA, a).value, provider, id, p.tokenB, b, t);
  }

  /** What a step issues of a token: only issuance elsewhere does. */
  function Issued(op: Op, t: Address): int {
    if op.OpMint? && op.token == t && op.amount >= 0 then op.amount else 0
  }

  function IssuedBy(ops: seq<Op>, t: Address): int {
    if ops == [] then 0 else Issued(ops[0], t) + IssuedBy(ops[1..], t)
  }

  lemma StepConserves(s: State, op: Op, t: Address)
    ensures Supply(Step(s, op).ledger, t) == Supply(s.ledger, t) + Issued(op, t)
  {
    hide Supply, Transfer, AddLiquidity, RemoveLiquidity, Swap, FlashSwap, ExecuteHops, ClaimRewards;
    match op
    case OpAddLiquidity(c, id, a, b) =>
      if AddLiquidity(s, c, id, a, b).Some? { AddLiquidityConserves(s, c, id, a, b, t); }
    case OpRemoveLiquidity(c, id, n) =>
      if RemoveLiquidity(s, c, id, n).Some? { RemoveLiquidityConserves(s, c, id, n, t); }
    case OpSwap(c, id, x, n, m) =>
      if Swap(s, c, id, x, n, m, true).Some? { SwapConserves(s, c, id, x, n, m, true, t); }
    case OpFlashSwap(c, id, x, n, y, m) =>
      if FlashSwap(s, c, id, x, n, y, m).Some? { FlashConserves(s, c, id, x, n, y, m, t); }
    case OpMultiHop(c, r, m, l) =>
      if MultiHopSwap(s, c, r, m, l).Some? { HopsConserve(s, c, r.hops, r.amountIn, r.tokenIn, t); }
    case OpDepositRewards(c, id, x, n) =>
      if DepositRewards(s, c, id, x, n).Some? { TransferConserves(s.ledger, x, c, SELF, n, t); }
    case OpClaimRewards(c, id) =>
      if ClaimRewards(s, c, id).Some? { ClaimConserves(s, c, id, t); }
    case OpTransfer(x, c, y, n) =>
      if OutsideTransfer(s, x, c, y, n).Some? { TransferConserves(s.ledger, x, c, y, n, t); }
    case OpMint(x, y, n) =>
      if n >= 0 { SupplyUpdate(s.ledger, Holding(x, y), Balance(s.ledger, x, y) + n, t); }
    case _ =>
  }

  /** Over every run, the total of each token is what there was plus what was issued. */
  lemma {:induction false} RunConserves(s: State, ops: seq<Op>, t: Address)
    ensures Supply(Run(s, ops).ledger, t) == Supply(s.ledger, t) + IssuedBy(ops, t)
    decreases |ops|
  {
    hide Supply, Step, Issued;
    if ops != [] {
      StepConserves(s, ops[0], t);
      RunConserves(Step(s, ops[0]), ops[1..], t);
    }
  }
}
