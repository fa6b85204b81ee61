/** The AMM contract object: storage as fields, entry points as methods that update them in
    place, each proved to take exactly the transition of `AmmPools`. */
module AmmContract {
  import opened Prelude
  import opened TokenLedger
  import opened AmmMath
  import Router = AmmRouter
  import P = AmmPools

  class Amm {
    var admin: Address
    var counter: nat
    var pools: map<nat, P.Pool>
    var lp: map<P.LpKey, int>
    var rewards: map<P.RewardKey, int>
    var collector: Option<Address>
    var shareBps: nat
    var minLp: int
    var ledger: Ledger

    ghost function View(): P.State
      reads this
    {
      P.State(admin, counter, pools, lp, rewards, collector, shareBps, minLp, ledger)
    }

    constructor (admin: Address, collector: Option<Address>)
      ensures View() == P.Initial(admin, collector) && P.Inv(View())
    {
      this.admin, this.collector := admin, collector;
      counter, pools, lp, rewards, shareBps, minLp, ledger := 0, map[], map[], map[], 0, 1000, map[];
      new;
      P.InitialValid(admin, collector);
    }

    method CreatePool(caller: Address, tokenA: Address, tokenB: Address, feeBps: nat) returns (r: Option<nat>)
      modifies this
      ensures (View(), r) == Commit(P.CreatePool(old(View()), caller, tokenA, tokenB, feeBps), old(View()))
      ensures P.Inv(old(View())) ==> P.Inv(View())
    {
      hide P.Inv;
      if P.Inv(View()) { P.StepKeepsInvariant(View(), P.OpCreatePool(caller, tokenA, tokenB, feeBps)); }
      var _ :- Need(caller == admin && tokenA != tokenB && feeBps <= MAX_FEE_BPS);
      var id := counter;
      pools := pools[id := P.Pool(tokenA, tokenB, 0, 0, 0, feeBps)];
      counter := id + 1;
      return Some(id);
    }

    method AddLiquidity(provider: Address, id: nat, a: int, b: int) returns (r: Option<int>)
      modifies this
      ensures (View(), r) == Commit(P.AddLiquidity(old(View()), provider, id, a, b), old(View()))
    {
      hide CeilDiv, Root, P.RatioAccepted;
      var _ :- Need(a > 0 && b > 0 && id in pools && provider != SELF);
      var pool := pools[id];
      var minted;
      if pool.supply == 0 {
        var root := Isqrt(a * b);
        minted := root.value;
      } else {
        var lpA :- CeilDiv(a * pool.supply, pool.reserveA);
        var lpB :- CeilDiv(b * pool.supply, pool.reserveB);
        minted := if lpA < lpB then lpA else lpB;
      }
      var _ :- Need(minted >= minLp && minted > 0);
      var _ :- Need(P.RatioAccepted(pool, a, b));
      var l1 :- Transfer(ledger, pool.tokenA, provider, SELF, a);
      var l2 :- Transfer(l1, pool.tokenB, provider, SELF, b);
      ledger := l2;
      pools := pools[id := pool.(reserveA := pool.reserveA + a, reserveB := pool.reserveB + b, supply := pool.supply + minted)];
      var key := P.LpKey(id, provider);
      lp := lp[key := At(lp, key) + minted];
      return Some(minted);
    }

    method RemoveLiquidity(provider: Address, id: nat, amount: int) returns (r: Option<(int, int)>)
      modifies this
      ensures (View(), r) == Commit(P.RemoveLiquidity(old(View()), provider, id, amount), old(View()))
    {
      var key := P.LpKey(id, provider);
      var _ :- Need(amount > 0);
      var held := At(lp, key);
      var _ :- Need(held >= amount && id in pools && provider != SELF);
      var pool := pools[id];
      var _ :- Need(pool.supply > 0);
      var rest := held - amount;
      var _ :- Need(!(rest > 0 && rest < minLp));
      var a := amount * pool.reserveA / pool.supply;
      var b := amount * pool.reserveB / pool.supply;
      var _ :- Need(a > 0 && b > 0);
      var l1 :- Transfer(ledger, pool.tokenA, SELF, provider, a);
      var l2 :- Transfer(l1, pool.tokenB, SELF, provider, b);
      pools := pools[id := pool.(reserveA := pool.reserveA - a, reserveB := pool.reserveB - b, supply := pool.supply - amount)];
      lp := lp[key := rest];
      ledger := l2;
      return Some((a, b));
    }

    method SwapInternal(user: Address, id: nat, tokenIn: Address, amountIn: int, minOut: int, skim: bool)
      returns (r: Option<int>)
      modifies this
      ensures (View(), r) == Commit(P.Swap(old(View()), user, id, tokenIn, amountIn, minOut, skim), old(View()))
    {
      var _ :- Need(amountIn > 0 && id in pools && user != SELF);
      var pool := pools[id];
      var _ :- Need(pool.reserveA > 0 && pool.reserveB > 0);
      var reserveIn, reserveOut, tokenOut;
      if tokenIn == pool.tokenA {
        reserveIn, reserveOut, tokenOut := pool.reserveA, pool.reserveB, pool.tokenB;
      } else if tokenIn == pool.tokenB {
        reserveIn, reserveOut, tokenOut := pool.reserveB, pool.reserveA, pool.tokenA;
      } else {
        return None;
      }
      var out := AmountOut(amountIn, reserveIn, reserveOut, pool.feeBps);
      var _ :- Need(out >= minOut && out > 0);
      var l1 :- Transfer(ledger, tokenIn, user, SELF, amountIn);
      var fee := 0;
      if skim {
        fee := ProtocolFee(amountIn, pool.feeBps, shareBps);
      }
      var l2 :- P.PayCollector(l1, collector, tokenIn, fee);
      var l3 :- Transfer(l2, tokenOut, SELF, user, out);
      ledger := l3;
      var net := amountIn - fee;
      if tokenIn == pool.tokenA {
        pools := pools[id := pool.(reserveA := pool.reserveA + net, reserveB := pool.reserveB - out)];
      } else {
        pools := pools[id := pool.(reserveB := pool.reserveB + net, reserveA := pool.reserveA - out)];
      }
      return Some(out);
    }

    method FlashSwap(borrower: Address, id: nat, tokenOut: Address, amountOut: int, tokenIn: Address, maxIn: int)
      returns (r: Option<int>)
      modifies this
      ensures (View(), r) == Commit(P.FlashSwap(old(View()), borrower, id, tokenOut, amountOut, tokenIn, maxIn), old(View()))
    {
      var _ :- Need(amountOut > 0 && id in pools && borrower != SELF);
      var pool := pools[id];
      var _ :- Need((tokenIn == pool.tokenA && tokenOut == pool.tokenB) || (tokenIn == pool.tokenB && tokenOut == pool.tokenA));
      var reserveIn, reserveOut := pool.reserveB, pool.reserveA;
      var outIsA := true;
      if tokenIn == pool.tokenA && tokenOut == pool.tokenB {
        reserveIn, reserveOut, outIsA := pool.reserveA, pool.reserveB, false;
      }
      var paid :- AmountIn(amountOut, reserveIn, reserveOut, pool.feeBps);
      var _ :- Need(paid <= maxIn);
      var l1 :- Transfer(ledger, tokenOut, SELF, borrower, amountOut);
      var l2 :- Transfer(l1, tokenIn, borrower, SELF, paid);
      var fee := ProtocolFee(paid, pool.feeBps, shareBps);
      var l3 :- P.PayCollector(l2, collector, tokenIn, fee);
      ledger := l3;
      var net := paid - fee;
      if outIsA {
        pools := pools[id := pool.(reserveA := pool.reserveA - amountOut, reserveB := pool.reserveB + net)];
      } else {
        pools := pools[id := pool.(reserveB := pool.reserveB - amountOut, reserveA := pool.reserveA + net)];
      }
      return Some(paid);
    }

    method DepositRewards(caller: Address, id: nat, token: Address, amount: int) returns (r: Option<()>)
      modifies this
      ensures (View(), r) == Commit(P.DepositRewards(old(View()), caller, id, token, amount), old(View()))
      ensures P.Inv(old(View())) ==> P.Inv(View())
    {
      hide P.Inv;
      if P.Inv(View()) { P.StepKeepsInvariant(View(), P.OpDepositRewards(caller, id, token, amount)); }
      var _ :- Need(caller == admin && caller != SELF && amount > 0 && id in pools);
      var _ :- Need(token == pools[id].tokenA || token == pools[id].tokenB);
      var l :- Transfer(ledger, token, caller, SELF, amount);
      ledger := l;
      var key := P.RewardKey(id, token);
      rewards := rewards[key := At(rewards, key) + amount];
      return Some(());
    }

    method ClaimRewards(provider: Address, id: nat) returns (r: Option<(int, int)>)
      modifies this
      ensures (View(), r) == Commit(P.ClaimRewards(old(View()), provider, id), old(View()))
    {
      var _ :- Need(id in pools && provider != SELF);
      var pool := pools[id];
      var held := At(lp, P.LpKey(id, provider));
      var _ :- Need(held > 0 && pool.supply > 0);
      var keyA, keyB := P.RewardKey(id, pool.tokenA), P.RewardKey(id, pool.tokenB);
      var shareA := At(rewards, keyA) * held / pool.supply;
      var shareB := At(rewards, keyB) * held / pool.supply;
      var _ :- Need(shareA > 0 || shareB > 0);
      var l, pots := ledger, rewards;
      if shareA > 0 {
        l :- Transfer(l, pool.tokenA, SELF, provider, shareA);
        pots := pots[keyA := At(pots, keyA) - shareA];
      }
      if shareB > 0 {
        l :- Transfer(l, pool.tokenB, SELF, provider, shareB);
        pots := pots[keyB := At(pots, keyB) - shareB];
      }
      ledger, rewards := l, pots;
      return Some((shareA, shareB));
    }

    /** A failing hop aborts the whole call, so the pools and balances written by earlier hops are restored. */
    method MultiHopSwap(user: Address, route: P.Route, minOut: int, limitsPass: bool) returns (r: Option<int>)
      modifies this
      ensures (View(), r) == Commit(P.MultiHopSwap(old(View()), user, route, minOut, limitsPass), old(View()))
    {
      var _ :- Need(route.amountIn > 0 && route.amountOut >= minOut && limitsPass);
      var pools0, ledger0 := pools, ledger;
      var amount, token := route.amountIn, route.tokenIn;
      ghost var before := View();
      for i := 0 to |route.hops|
        invariant View() == before.(pools := pools, ledger := ledger)
        invariant P.ExecuteHops(before, user, route.hops, route.amountIn, route.tokenIn)
               == P.ExecuteHops(View(), user, route.hops[i..], amount, token)
      {
        var hop := route.hops[i];
        assert route.hops[i..][0] == hop && route.hops[i..][1..] == route.hops[i + 1..];
        var out: Option<int> := None;
        if hop.amountIn == amount && hop.tokenIn == token {
          out := SwapInternal(user, hop.pool, hop.tokenIn, hop.amountIn, hop.minOut, false);
        }
        if out.None? {
          pools, ledger := pools0, ledger0;
          return None;
        }
        amount, token := out.value, hop.tokenOut;
      }
      if amount < minOut || token != route.tokenOut {
        pools, ledger := pools0, ledger0;
        return None;
      }
      return Some(amount);
    }

    method SetFeeConfig(caller: Address, collector: Address, shareBps: nat) returns (r: Option<()>)
      modifies this
      ensures (View(), r) == Commit(P.SetFeeConfig(old(View()), caller, collector, shareBps), old(View()))
      ensures P.Inv(old(View())) ==> P.Inv(View())
    {
      hide P.Inv;
      if P.Inv(View()) { P.StepKeepsInvariant(View(), P.OpSetFeeConfig(caller, collector, shareBps)); }
      var _ :- Need(caller == admin && shareBps <= MAX_PROTOCOL_SHARE_BPS);
      this.collector, this.shareBps := Some(collector), shareBps;
      return Some(());
    }

    /** Quote and trade on the same state: the caller receives the best output on offer. */
    method SwapByBestRoute(user: Address, tokenIn: Address, tokenOut: Address, amountIn: int, maxHops: nat)
      returns (r: Option<int>)
      requires P.Inv(View()) && user != SELF && amountIn <= Balance(ledger, tokenIn, user)
      modifies this
      ensures P.Inv(View())
      ensures r.Some? ==> Router.Offered(old(View()), tokenIn, tokenOut, amountIn, maxHops, r.value)
      ensures r.Some? ==> forall out :: Router.Offered(old(View()), tokenIn, tokenOut, amountIn, maxHops, out) ==> out <= r.value
      ensures r.None? && amountIn > 0 && tokenIn != tokenOut && 0 < maxHops <= 5 ==>
                forall out :: !Router.Offered(old(View()), tokenIn, tokenOut, amountIn, maxHops, out)
    {
      ghost var before := View();
      var s := P.State(admin, counter, pools, lp, rewards, collector, shareBps, minLp, ledger);
      var route :- Router.FindBestRoute(s, tokenIn, tokenOut, amountIn, maxHops, true);
      Router.FreshIsOffered(before, route, maxHops);
      Router.OfferNeedsInput(before, tokenIn, tokenOut, amountIn, maxHops, route.amountOut);
      Router.FreshRouteExecutes(before, user, route, maxHops, route.amountOut);
      P.MultiHopKeeps(before, user, route, route.amountOut, true);
      r := MultiHopSwap(user, route, route.amountOut, true);
    }
  }
}
