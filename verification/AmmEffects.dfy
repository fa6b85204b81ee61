/** What each entry point of the AMM answers and moves, account by account, told without its code:
    when it accepts, the amounts by the inequalities that fix them, and every balance it changes
    (contracts/amm/src/lib.rs). */
module AmmEffects {
  import opened Prelude
  import opened Arithmetic
  import opened TokenLedger
  import opened AmmMath
  import opened AmmPools

  /** Where a skim ends up: with the collector, or left on the contract's own account. */
  function Account(collector: Option<Address>): Address {
    if collector.Some? then collector.value else SELF
  }

  lemma CollectorSettles(l: Ledger, l1: Ledger, moves: seq<Movement>, collector: Option<Address>, token: Address, fee: int)
    requires Settles(l, l1, moves) && fee >= 0 && PayCollector(l1, collector, token, fee).Some?
    ensures Settles(l, PayCollector(l1, collector, token, fee).value, moves + [Move(token, SELF, Account(collector), fee)])
  {
    hide Net, Transfer;
    var all := moves + [Move(token, SELF, Account(collector), fee)];
    if fee > 0 && collector.Some? {
      TransferSettles(l, l1, moves, token, SELF, collector.value, fee);
    } else {
      forall t, h ensures SettledFor(l, l1, all, t, h) {
        assert SettledFor(l, l1, moves, t, h);
        NetAppend(moves, Move(token, SELF, Account(collector), fee), t, h);
      }
    }
  }

  lemma CollectorPayable(l: Ledger, collector: Option<Address>, token: Address, fee: int)
    requires 0 <= fee <= Balance(l, token, SELF)
    ensures PayCollector(l, collector, token, fee).Some?
  {
  }

  function Other(p: Pool, token: Address): Address {
    if token == p.tokenA then p.tokenB else p.tokenA
  }

  /** One pool changed, and of it only the reserves. */
  ghost predicate OnlyReserves(s: State, s': State, id: nat) {
    && id in s.pools && id in s'.pools
    && s' == s.(pools := s.pools[id := s'.pools[id]], ledger := s'.ledger)
    && s'.pools[id] == s.pools[id].(reserveA := s'.pools[id].reserveA, reserveB := s'.pools[id].reserveB)
  }

  // ----- swaps -----

  /** The request is one the contract serves, and `out` is the most its input pays for. */
  ghost predicate SwapServed(s: State, user: Address, id: nat, tokenIn: Address, amountIn: int, minOut: int, out: int) {
    && amountIn > 0 && user != SELF && id in s.pools && s.pools[id].supply > 0
    && s.pools[id].reserveA > 0 && s.pools[id].reserveB > 0 && tokenIn in {s.pools[id].tokenA, s.pools[id].tokenB}
    && BestOutput(out, amountIn, ReserveOf(s.pools[id], tokenIn), ReserveOf(s.pools[id], Other(s.pools[id], tokenIn)), s.pools[id].feeBps)
    && out > 0 && out >= minOut && amountIn <= Balance(s.ledger, tokenIn, user)
  }

  ghost predicate SwapMoves(s: State, s': State, user: Address, id: nat, tokenIn: Address, amountIn: int, out: int, skimmed: int) {
    && OnlyReserves(s, s', id)
    && var p, p' := s.pools[id], s'.pools[id];
       && ReserveOf(p', tokenIn) == ReserveOf(p, tokenIn) + amountIn - skimmed
       && ReserveOf(p', Other(p, tokenIn)) == ReserveOf(p, Other(p, tokenIn)) - out
       && Settles(s.ledger, s'.ledger, [Move(tokenIn, user, SELF, amountIn), Move(tokenIn, SELF, Account(s.collector), skimmed),
                                        Move(Other(p, tokenIn), SELF, user, out)])
  }

  lemma SwapLedger(l: Ledger, user: Address, collector: Option<Address>, tokenIn: Address, tokenOut: Address,
                   amountIn: int, fee: int, out: int) returns (l': Ledger)
    requires tokenIn != tokenOut && user != SELF && 0 <= fee <= amountIn <= Balance(l, tokenIn, user)
    requires 0 <= out <= Balance(l, tokenOut, SELF)
    ensures var l1 := Transfer(l, tokenIn, user, SELF, amountIn);
            l1.Some? && var l2 := PayCollector(l1.value, collector, tokenIn, fee);
            l2.Some? && Transfer(l2.value, tokenOut, SELF, user, out) == Some(l')
    ensures Settles(l, l', [Move(tokenIn, user, SELF, amountIn), Move(tokenIn, SELF, Account(collector), fee), Move(tokenOut, SELF, user, out)])
  {
    hide Net, Transfer, PayCollector;
    NothingMoved(l);
    TransferSettles(l, l, [], tokenIn, user, SELF, amountIn);
    var l1 := Transfer(l, tokenIn, user, SELF, amountIn).value;
    var m1 := [Move(tokenIn, user, SELF, amountIn)];
    assert [] + m1 == m1;
    CollectorPayable(l1, collector, tokenIn, fee);
    CollectorSettles(l, l1, m1, collector, tokenIn, fee);
    var l2 := PayCollector(l1, collector, tokenIn, fee).value;
    var m2 := [Move(tokenIn, user, SELF, amountIn), Move(tokenIn, SELF, Account(collector), fee)];
    assert m1 + [Move(tokenIn, SELF, Account(collector), fee)] == m2;
    assert SettledFor(l, l2, m2, tokenOut, SELF);
    NetOfFew(m2, tokenOut, SELF);
    TransferSettles(l, l2, m2, tokenOut, SELF, user, out);
    l' := Transfer(l2, tokenOut, SELF, user, out).value;
    assert m2 + [Move(tokenOut, SELF, user, out)]
        == [Move(tokenIn, user, SELF, amountIn), Move(tokenIn, SELF, Account(collector), fee), Move(tokenOut, SELF, user, out)];
  }

  lemma SwapAccepted(s: State, user: Address, id: nat, tokenIn: Address, amountIn: int, minOut: int, skim: bool, out: int)
    requires Inv(s) && SwapServed(s, user, id, tokenIn, amountIn, minOut, out)
    ensures var skimmed := if skim then amountIn * s.pools[id].feeBps / BPS * s.shareBps / BPS else 0;
            Swap(s, user, id, tokenIn, amountIn, minOut, skim).Some? &&
            var (s', o) := Swap(s, user, id, tokenIn, amountIn, minOut, skim).value;
            o == out && SwapMoves(s, s', user, id, tokenIn, amountIn, out, skimmed)
  {
    hide AmountOut, BestOutput, Settles, PayCollector, Transfer;
    var p := s.pools[id];
    var other := Other(p, tokenIn);
    BestOutputIff(out, amountIn, ReserveOf(p, tokenIn), ReserveOf(p, other), p.feeBps);
    OutputBounds(amountIn, ReserveOf(p, tokenIn), ReserveOf(p, other), p.feeBps);
    SkimLeavesAfterFee(amountIn, p.feeBps, s.shareBps);
    AfterFeeNonNegative(amountIn, p.feeBps);
    ReserveCovered(s, id, other);
    var l := SwapLedger(s.ledger, user, s.collector, tokenIn, other, amountIn,
                        if skim then ProtocolFee(amountIn, p.feeBps, s.shareBps) else 0, out);
  }

  lemma SwapWasServed(s: State, user: Address, id: nat, tokenIn: Address, amountIn: int, minOut: int, skim: bool)
    requires Inv(s) && Swap(s, user, id, tokenIn, amountIn, minOut, skim).Some?
    ensures SwapServed(s, user, id, tokenIn, amountIn, minOut, Swap(s, user, id, tokenIn, amountIn, minOut, skim).value.1)
  {
    hide AmountOut, BestOutput, PayCollector;
    var p, out := s.pools[id], Swap(s, user, id, tokenIn, amountIn, minOut, skim).value.1;
    BestOutputIff(out, amountIn, ReserveOf(p, tokenIn), ReserveOf(p, Other(p, tokenIn)), p.feeBps);
  }

  /** A swap, skimmed or not, succeeds exactly on a served request. It then pays the greatest output whose
      least input is within the amount, skims exactly the protocol's share of the fee, and moves the two
      reserves by exactly what remains; no other account, pool or record changes. */
  lemma SwapExact(s: State, user: Address, id: nat, tokenIn: Address, amountIn: int, minOut: int, skim: bool)
    requires Inv(s)
    ensures Swap(s, user, id, tokenIn, amountIn, minOut, skim).Some? <==> exists o :: SwapServed(s, user, id, tokenIn, amountIn, minOut, o)
    ensures Swap(s, user, id, tokenIn, amountIn, minOut, skim).Some? ==>
              var (s', out) := Swap(s, user, id, tokenIn, amountIn, minOut, skim).value;
              && SwapServed(s, user, id, tokenIn, amountIn, minOut, out)
              && SwapMoves(s, s', user, id, tokenIn, amountIn, out, if skim then amountIn * s.pools[id].feeBps / BPS * s.shareBps / BPS else 0)
  {
    hide Swap, SwapMoves;
    if Swap(s, user, id, tokenIn, amountIn, minOut, skim).Some? {
      SwapWasServed(s, user, id, tokenIn, amountIn, minOut, skim);
      SwapAccepted(s, user, id, tokenIn, amountIn, minOut, skim, Swap(s, user, id, tokenIn, amountIn, minOut, skim).value.1);
    }
    if o :| SwapServed(s, user, id, tokenIn, amountIn, minOut, o) {
      SwapAccepted(s, user, id, tokenIn, amountIn, minOut, skim, o);
    }
  }

  /** The same, balance by balance, for a user who is not the collector. */
  lemma SwapPays(s: State, user: Address, id: nat, tokenIn: Address, amountIn: int, minOut: int, skim: bool)
    requires Inv(s) && Swap(s, user, id, tokenIn, amountIn, minOut, skim).Some? && s.collector != Some(user) && s.collector != Some(SELF)
    ensures id in s.pools
    ensures var (s', out) := Swap(s, user, id, tokenIn, amountIn, minOut, skim).value;
            var tokenOut := Other(s.pools[id], tokenIn);
            var skimmed := if skim then amountIn * s.pools[id].feeBps / BPS * s.shareBps / BPS else 0;
            && Balance(s'.ledger, tokenIn, user) == Balance(s.ledger, tokenIn, user) - amountIn
            && Balance(s'.ledger, tokenOut, user) == Balance(s.ledger, tokenOut, user) + out
            && (s.collector.Some? ==>
                  Balance(s'.ledger, tokenIn, s.collector.value) == Balance(s.ledger, tokenIn, s.collector.value) + skimmed)
            && forall t, h :: (h !in {user, SELF, Account(s.collector)} || t !in {tokenIn, tokenOut}) ==>
                 Balance(s'.ledger, t, h) == Balance(s.ledger, t, h)
  {
    hide Swap, Net, BestOutput;
    SwapExact(s, user, id, tokenIn, amountIn, minOut, skim);
    var (s', out) := Swap(s, user, id, tokenIn, amountIn, minOut, skim).value;
    var p := s.pools[id];
    var skimmed := if skim then amountIn * p.feeBps / BPS * s.shareBps / BPS else 0;
    var moves := [Move(tokenIn, user, SELF, amountIn), Move(tokenIn, SELF, Account(s.collector), skimmed), Move(Other(p, tokenIn), SELF, user, out)];
    forall t, h ensures Balance(s'.ledger, t, h) == Balance(s.ledger, t, h) + Shift(moves[0], t, h) + Shift(moves[1], t, h) + Shift(moves[2], t, h) {
      assert SettledFor(s.ledger, s'.ledger, moves, t, h);
      NetOfFew(moves, t, h);
    }
  }

  // ----- flash swaps -----

  /** The least whole input that pays for `out` at the pool's price after the fee. */
  ghost predicate Repayment(p: Pool, tokenIn: Address, out: int, paid: int) {
    var ri, ro := ReserveOf(p, tokenIn), ReserveOf(p, Other(p, tokenIn));
    (paid - 1) * ((ro - out) * (BPS - p.feeBps)) < ri * out * BPS <= paid * ((ro - out) * (BPS - p.feeBps))
  }

  ghost predicate FlashServed(s: State, borrower: Address, id: nat, tokenOut: Address, amountOut: int, tokenIn: Address, maxIn: int, paid: int) {
    && borrower != SELF && id in s.pools && {tokenIn, tokenOut} == {s.pools[id].tokenA, s.pools[id].tokenB}
    && 0 < amountOut < ReserveOf(s.pools[id], tokenOut)
    && Repayment(s.pools[id], tokenIn, amountOut, paid) && paid <= maxIn && paid <= Balance(s.ledger, tokenIn, borrower)
  }

  lemma RepaymentUnique(p: Pool, tokenIn: Address, out: int, paid: int)
    requires PoolValid(p) && tokenIn in {p.tokenA, p.tokenB} && 0 < out < ReserveOf(p, Other(p, tokenIn))
    ensures var ri, ro := ReserveOf(p, tokenIn), ReserveOf(p, Other(p, tokenIn));
            Repayment(p, tokenIn, out, paid) <==> AmountIn(out, ri, ro, p.feeBps) == Some(paid)
    ensures Repayment(p, tokenIn, out, paid) ==> paid > 0
  {
    var ri, ro := ReserveOf(p, tokenIn), ReserveOf(p, Other(p, tokenIn));
    var n, d := ri * out * BPS, (ro - out) * (BPS - p.feeBps);
    assert d > 0 && ri * out > 0;
    DivCeil(paid, n, d);
    DivCeil(paid - 1, n, d);
    DivCeil(0, n, d);
  }

  ghost predicate FlashMoves(s: State, s': State, borrower: Address, id: nat, tokenOut: Address, amountOut: int, tokenIn: Address, paid: int, skimmed: int) {
    && OnlyReserves(s, s', id)
    && ReserveOf(s'.pools[id], tokenIn) == ReserveOf(s.pools[id], tokenIn) + paid - skimmed
    && ReserveOf(s'.pools[id], tokenOut) == ReserveOf(s.pools[id], tokenOut) - amountOut
    && Settles(s.ledger, s'.ledger, [Move(tokenOut, SELF, borrower, amountOut), Move(tokenIn, borrower, SELF, paid),
                                     Move(tokenIn, SELF, Account(s.collector), skimmed)])
  }

  lemma FlashLedger(l: Ledger, borrower: Address, collector: Option<Address>, tokenIn: Address, tokenOut: Address,
                    paid: int, fee: int, out: int) returns (l': Ledger)
    requires tokenIn != tokenOut && borrower != SELF && 0 <= fee <= paid <= Balance(l, tokenIn, borrower)
    requires 0 <= out <= Balance(l, tokenOut, SELF)
    ensures var l1 := Transfer(l, tokenOut, SELF, borrower, out);
            l1.Some? && var l2 := Transfer(l1.value, tokenIn, borrower, SELF, paid);
            l2.Some? && PayCollector(l2.value, collector, tokenIn, fee) == Some(l')
    ensures Settles(l, l', [Move(tokenOut, SELF, borrower, out), Move(tokenIn, borrower, SELF, paid), Move(tokenIn, SELF, Account(collector), fee)])
  {
    hide Net, Transfer, PayCollector;
    NothingMoved(l);
    TransferSettles(l, l, [], tokenOut, SELF, borrower, out);
    var l1 := Transfer(l, tokenOut, SELF, borrower, out).value;
    var m1 := [Move(tokenOut, SELF, borrower, out)];
    assert [] + m1 == m1;
    TransferSettles(l, l1, m1, tokenIn, borrower, SELF, paid);
    var l2 := Transfer(l1, tokenIn, borrower, SELF, paid).value;
    var m2 := [Move(tokenOut, SELF, borrower, out), Move(tokenIn, borrower, SELF, paid)];
    assert m1 + [Move(tokenIn, borrower, SELF, paid)] == m2;
    CollectorPayable(l2, collector, tokenIn, fee);
    CollectorSettles(l, l2, m2, collector, tokenIn, fee);
    l' := PayCollector(l2, collector, tokenIn, fee).value;
    assert m2 + [Move(tokenIn, SELF, Account(collector), fee)]
        == [Move(tokenOut, SELF, borrower, out), Move(tokenIn, borrower, SELF, paid), Move(tokenIn, SELF, Account(collector), fee)];
  }

  lemma FlashAccepted(s: State, borrower: Address, id: nat, tokenOut: Address, amountOut: int, tokenIn: Address, maxIn: int, paid: int)
    requires Inv(s) && FlashServed(s, borrower, id, tokenOut, amountOut, tokenIn, maxIn, paid)
    ensures FlashSwap(s, borrower, id, tokenOut, amountOut, tokenIn, maxIn).Some? &&
            var (s', g) := FlashSwap(s, borrower, id, tokenOut, amountOut, tokenIn, maxIn).value;
            g == paid && FlashMoves(s, s', borrower, id, tokenOut, amountOut, tokenIn, paid, paid * s.pools[id].feeBps / BPS * s.shareBps / BPS)
  {
    hide AmountIn, Settles, PayCollector, Transfer, Repayment;
    var p := s.pools[id];
    assert tokenOut == Other(p, tokenIn) && tokenIn in {p.tokenA, p.tokenB};
    RepaymentUnique(p, tokenIn, amountOut, paid);
    SkimLeavesAfterFee(paid, p.feeBps, s.shareBps);
    AfterFeeNonNegative(paid, p.feeBps);
    ReserveCovered(s, id, tokenOut);
    var l := FlashLedger(s.ledger, borrower, s.collector, tokenIn, tokenOut, paid, ProtocolFee(paid, p.feeBps, s.shareBps), amountOut);
  }

  lemma FlashWasServed(s: State, borrower: Address, id: nat, tokenOut: Address, amountOut: int, tokenIn: Address, maxIn: int)
    requires Inv(s) && FlashSwap(s, borrower, id, tokenOut, amountOut, tokenIn, maxIn).Some?
    ensures FlashServed(s, borrower, id, tokenOut, amountOut, tokenIn, maxIn, FlashSwap(s, borrower, id, tokenOut, amountOut, tokenIn, maxIn).value.1)
  {
    hide AmountIn, PayCollector, Repayment;
    var p := s.pools[id];
    assert tokenOut == Other(p, tokenIn) && tokenIn in {p.tokenA, p.tokenB};
    AmountInNeedsLiquidity(amountOut, ReserveOf(p, tokenIn), ReserveOf(p, tokenOut), p.feeBps);
    RepaymentUnique(p, tokenIn, amountOut, FlashSwap(s, borrower, id, tokenOut, amountOut, tokenIn, maxIn).value.1);
  }

  /** A flash swap succeeds exactly on a served request: the borrower receives the output and pays the least
      whole input that covers it, the collector its share of the fee, and the reserves take the rest. */
  lemma FlashExact(s: State, borrower: Address, id: nat, tokenOut: Address, amountOut: int, tokenIn: Address, maxIn: int)
    requires Inv(s)
    ensures FlashSwap(s, borrower, id, tokenOut, amountOut, tokenIn, maxIn).Some? <==>
              exists g :: FlashServed(s, borrower, id, tokenOut, amountOut, tokenIn, maxIn, g)
    ensures FlashSwap(s, borrower, id, tokenOut, amountOut, tokenIn, maxIn).Some? ==>
              var (s', paid) := FlashSwap(s, borrower, id, tokenOut, amountOut, tokenIn, maxIn).value;
              && FlashServed(s, borrower, id, tokenOut, amountOut, tokenIn, maxIn, paid)
              && FlashMoves(s, s', borrower, id, tokenOut, amountOut, tokenIn, paid, paid * s.pools[id].feeBps / BPS * s.shareBps / BPS)
  {
    hide FlashSwap, FlashMoves;
    if FlashSwap(s, borrower, id, tokenOut, amountOut, tokenIn, maxIn).Some? {
      FlashWasServed(s, borrower, id, tokenOut, amountOut, tokenIn, maxIn);
      FlashAccepted(s, borrower, id, tokenOut, amountOut, tokenIn, maxIn, FlashSwap(s, borrower, id, tokenOut, amountOut, tokenIn, maxIn).value.1);
    }
    if g :| FlashServed(s, borrower, id, tokenOut, amountOut, tokenIn, maxIn, g) {
      FlashAccepted(s, borrower, id, tokenOut, amountOut, tokenIn, maxIn, g);
    }
  }
}
