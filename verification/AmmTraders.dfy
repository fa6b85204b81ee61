/** What trading against one pool does to the trader's own balances (contracts/amm/src/lib.rs). */
module AmmTraders {
  import opened Prelude
  import opened TokenLedger
  import opened AmmMath
  import opened AmmPools

  /** A swap, flash swap or multi-hop swap of this trader in this pool only. */
  predicate TradesIn(op: Op, trader: Address, id: nat) {
    match op
    case OpSwap(c, j, _, _, _) => c == trader && j == id
    case OpFlashSwap(c, j, _, _, _, _) => c == trader && j == id
    case OpMultiHop(c, r, _, _) => c == trader && HopsIn(r.hops, id)
    case _ => false
  }

  predicate HopsIn(hops: seq<Hop>, id: nat) {
    forall i :: 0 <= i < |hops| ==> hops[i].pool == id
  }

  /** Trader and pool together hold no more of a token than before; a skim can only leave. */
  ghost predicate NoGain(s: State, s': State, trader: Address, id: nat) {
    && id in s.pools && id in s'.pools && SameTokens(s.pools[id], s'.pools[id])
    && forall t :: Balance(s'.ledger, t, trader) + ReserveOf(s'.pools[id], t) <= Balance(s.ledger, t, trader) + ReserveOf(s.pools[id], t)
  }

  predicate SameTokens(p: Pool, p': Pool) {
    p'.tokenA == p.tokenA && p'.tokenB == p.tokenB && p'.supply == p.supply
  }

  lemma CollectorBalance(l: Ledger, collector: Option<Address>, token: Address, fee: int, h: Address)
    requires PayCollector(l, collector, token, fee).Some? && h != SELF
    ensures forall t :: Balance(PayCollector(l, collector, token, fee).value, t, h)
                        <= Balance(l, t, h) + (if t == token && fee > 0 then fee else 0)
  {
  }

  lemma SwapNoGain(s: State, user: Address, id: nat, tokenIn: Address, amountIn: int, minOut: int, skim: bool)
    requires Records(s) && Swap(s, user, id, tokenIn, amountIn, minOut, skim).Some?
    ensures NoGain(s, Swap(s, user, id, tokenIn, amountIn, minOut, skim).value.0, user, id)
  {
    hide AmountOut, ProtocolFee, PayCollector;
    var p := s.pools[id];
    var fee := if skim then ProtocolFee(amountIn, p.feeBps, s.shareBps) else 0;
    SkimLeavesAfterFee(amountIn, p.feeBps, s.shareBps);
    CollectorBalance(Transfer(s.ledger, tokenIn, user, SELF, amountIn).value, s.collector, tokenIn, fee, user);
  }

  lemma FlashNoGain(s: State, user: Address, id: nat, tokenOut: Address, amountOut: int, tokenIn: Address, maxIn: int)
    requires Records(s) && FlashSwap(s, user, id, tokenOut, amountOut, tokenIn, maxIn).Some?
    ensures NoGain(s, FlashSwap(s, user, id, tokenOut, amountOut, tokenIn, maxIn).value.0, user, id)
  {
    hide AmountIn, ProtocolFee, PayCollector;
    var p := s.pools[id];
    var paid := AmountIn(amountOut, Sides(p, tokenIn).0, Sides(p, tokenIn).1, p.feeBps).value;
    var l2 := Transfer(Transfer(s.ledger, tokenOut, SELF, user, amountOut).value, tokenIn, user, SELF, paid).value;
    var fee := ProtocolFee(paid, p.feeBps, s.shareBps);
    SkimLeavesAfterFee(paid, p.feeBps, s.shareBps);
    CollectorBalance(l2, s.collector, tokenIn, fee, user);
  }

  lemma NoGainTransitive(s: State, s1: State, s2: State, trader: Address, id: nat)
    requires NoGain(s, s1, trader, id) && NoGain(s1, s2, trader, id)
    ensures NoGain(s, s2, trader, id)
  {
  }

  lemma {:induction false} HopsNoGain(s: State, user: Address, hops: seq<Hop>, amount: int, token: Address, id: nat)
    requires Inv(s) && id in s.pools && HopsIn(hops, id) && ExecuteHops(s, user, hops, amount, token).Some?
    ensures NoGain(s, ExecuteHops(s, user, hops, amount, token).value.0, user, id)
    decreases |hops|
  {
    hide Swap, NoGain;
    if hops == [] {
      Unchanged(s, user, id);
    } else {
      var hop := hops[0];
      SwapNoGain(s, user, id, hop.tokenIn, hop.amountIn, hop.minOut, false);
      var s1, net, out := SwapTrades(s, user, id, hop.tokenIn, hop.amountIn, hop.minOut, false);
      TradeKeeps(s, s1, id, hop.tokenIn, net, out);
      HopsNoGain(s1, user, hops[1..], out, hop.tokenOut, id);
      NoGainTransitive(s, s1, ExecuteHops(s, user, hops, amount, token).value.0, user, id);
    }
  }

  lemma Unchanged(s: State, trader: Address, id: nat)
    requires id in s.pools
    ensures NoGain(s, s, trader, id)
  {
  }

  lemma StepNoGain(s: State, op: Op, trader: Address, id: nat)
    requires Inv(s) && id in s.pools && TradesIn(op, trader, id)
    ensures NoGain(s, Step(s, op), trader, id)
  {
    hide Inv, Swap, FlashSwap, ExecuteHops, NoGain;
    Unchanged(s, trader, id);
    OnlyRecords(s);
    match op
    case OpSwap(c, j, t, n, m) =>
      if Swap(s, c, j, t, n, m, true).Some? { SwapNoGain(s, c, j, t, n, m, true); }
    case OpFlashSwap(c, j, x, n, y, m) =>
      if FlashSwap(s, c, j, x, n, y, m).Some? { FlashNoGain(s, c, j, x, n, y, m); }
    case OpMultiHop(c, r, m, l) =>
      if ExecuteHops(s, c, r.hops, r.amountIn, r.tokenIn).Some? { HopsNoGain(s, c, r.hops, r.amountIn, r.tokenIn, id); }
  }

  lemma OnlyRecords(s: State)
    requires Inv(s)
    ensures Records(s)
  {
  }

  lemma {:induction false} RunNoGain(s: State, ops: seq<Op>, trader: Address, id: nat)
    requires Inv(s) && id in s.pools && forall i :: 0 <= i < |ops| ==> TradesIn(ops[i], trader, id)
    ensures NoGain(s, Run(s, ops), trader, id)
    decreases |ops|
  {
    hide Inv, Step, NoGain, TradesIn;
    if ops == [] {
      Unchanged(s, trader, id);
    } else {
      StepNoGain(s, ops[0], trader, id);
      StepKeepsInvariant(s, ops[0]);
      PoolStays(s, Step(s, ops[0]), trader, id);
      RunNoGain(Step(s, ops[0]), ops[1..], trader, id);
      NoGainTransitive(s, Step(s, ops[0]), Run(s, ops), trader, id);
    }
  }

  lemma PoolStays(s: State, s': State, trader: Address, id: nat)
    requires NoGain(s, s', trader, id)
    ensures id in s'.pools
  {
  }

  /** However one trader mixes swaps, flash swaps and routes in a live pool, collecting the protocol fee
      or not: ending with more of one of its tokens means ending with less of the other. */
  lemma TraderNeverProfits(s: State, ops: seq<Op>, trader: Address, id: nat)
    requires Inv(s) && id in s.pools && s.pools[id].supply > 0
    requires forall i :: 0 <= i < |ops| ==> TradesIn(ops[i], trader, id)
    ensures var l, l', p := s.ledger, Run(s, ops).ledger, s.pools[id];
            && (Balance(l', p.tokenA, trader) > Balance(l, p.tokenA, trader) ==> Balance(l', p.tokenB, trader) < Balance(l, p.tokenB, trader))
            && (Balance(l', p.tokenB, trader) > Balance(l, p.tokenB, trader) ==> Balance(l', p.tokenA, trader) < Balance(l, p.tokenA, trader))
  {
    RunNoGain(s, ops, trader, id);
    NoTradingCycleProfits(s, ops, id);
    var p, p' := s.pools[id], Run(s, ops).pools[id];
    assert ReserveOf(p', p.tokenA) == p'.reserveA && ReserveOf(p', p.tokenB) == p'.reserveB;
    assert ReserveOf(p, p.tokenA) == p.reserveA && ReserveOf(p, p.tokenB) == p.reserveB;
  }
}
