/** What a multi-hop swap moves (contracts/amm/src/lib.rs): hops pay no protocol fee, so only the user and
    the contract are touched, and a route executed as quoted costs its input and pays its output. */
module AmmRoutes {
  import opened Prelude
  import opened TokenLedger
  import opened AmmMath
  import opened AmmPools
  import opened AmmRouter
  import opened AmmEffects

  /** Outside the contract only the user's balances changed: one token by `-paid`, one by `+got`. */
  ghost predicate UserTraded(l: Ledger, l': Ledger, user: Address, tokenIn: Address, paid: int, tokenOut: Address, got: int) {
    forall t, h :: h != SELF ==> Balance(l', t, h) == Balance(l, t, h) + UserShift(h, user, t, tokenIn, paid, tokenOut, got)
  }

  function UserShift(h: Address, user: Address, t: Address, tokenIn: Address, paid: int, tokenOut: Address, got: int): int {
    if h != user then 0 else (if t == tokenOut then got else 0) - (if t == tokenIn then paid else 0)
  }

  lemma HopTrades(s: State, user: Address, hop: Hop)
    requires Inv(s) && Swap(s, user, hop.pool, hop.tokenIn, hop.amountIn, hop.minOut, false).Some?
    ensures hop.pool in s.pools && user != SELF
    ensures var (s', out) := Swap(s, user, hop.pool, hop.tokenIn, hop.amountIn, hop.minOut, false).value;
            Inv(s') && UserTraded(s.ledger, s'.ledger, user, hop.tokenIn, hop.amountIn, Other(s.pools[hop.pool], hop.tokenIn), out)
  {
    hide Swap, Net, BestOutput, Inv;
    SwapExact(s, user, hop.pool, hop.tokenIn, hop.amountIn, hop.minOut, false);
    SwapKeepsInv(s, user, hop);
    var (s', out) := Swap(s, user, hop.pool, hop.tokenIn, hop.amountIn, hop.minOut, false).value;
    var moves := [Move(hop.tokenIn, user, SELF, hop.amountIn), Move(hop.tokenIn, SELF, Account(s.collector), 0),
                  Move(Other(s.pools[hop.pool], hop.tokenIn), SELF, user, out)];
    forall t, h | h != SELF
      ensures Balance(s'.ledger, t, h) == Balance(s.ledger, t, h)
                + UserShift(h, user, t, hop.tokenIn, hop.amountIn, Other(s.pools[hop.pool], hop.tokenIn), out)
    {
      assert SettledFor(s.ledger, s'.ledger, moves, t, h);
      NetOfFew(moves, t, h);
    }
  }

  lemma SwapKeepsInv(s: State, user: Address, hop: Hop)
    requires Inv(s) && Swap(s, user, hop.pool, hop.tokenIn, hop.amountIn, hop.minOut, false).Some?
    ensures Inv(Swap(s, user, hop.pool, hop.tokenIn, hop.amountIn, hop.minOut, false).value.0)
  {
    var s', net, out := SwapTrades(s, user, hop.pool, hop.tokenIn, hop.amountIn, hop.minOut, false);
    TradeKeeps(s, s', hop.pool, hop.tokenIn, net, out);
  }

  lemma {:induction false} HopsSpareOthers(s: State, user: Address, hops: seq<Hop>, amount: int, token: Address, t: Address, h: Address)
    requires Inv(s) && ExecuteHops(s, user, hops, amount, token).Some? && h != user && h != SELF
    ensures Balance(ExecuteHops(s, user, hops, amount, token).value.0.ledger, t, h) == Balance(s.ledger, t, h)
    decreases |hops|
  {
    hide Swap, Inv;
    if hops != [] {
      HopTrades(s, user, hops[0]);
      var (s1, out) := Swap(s, user, hops[0].pool, hops[0].tokenIn, hops[0].amountIn, hops[0].minOut, false).value;
      HopsSpareOthers(s1, user, hops[1..], out, hops[0].tokenOut, t, h);
    }
  }

  /** A multi-hop swap delivers at least the minimum and moves no account but the user's and the contract's;
      in particular the fee collector gets nothing. */
  lemma MultiHopSparesOthers(s: State, user: Address, route: Route, minOut: int, limitsPass: bool, t: Address, h: Address)
    requires Inv(s) && MultiHopSwap(s, user, route, minOut, limitsPass).Some? && h != user && h != SELF
    ensures var (s', out) := MultiHopSwap(s, user, route, minOut, limitsPass).value;
            out >= minOut && limitsPass && Balance(s'.ledger, t, h) == Balance(s.ledger, t, h)
  {
    HopsSpareOthers(s, user, route.hops, route.amountIn, route.tokenIn, t, h);
  }

  lemma HopAsQuoted(s: State, user: Address, hop: Hop, out: int) returns (s': State)
    requires Inv(s) && user != SELF && hop.amountIn > 0 && hop.minOut <= out && hop.amountIn <= Balance(s.ledger, hop.tokenIn, user)
    requires Direct(s, hop.pool, hop.tokenIn, hop.tokenOut, hop.amountIn, out)
    ensures Swap(s, user, hop.pool, hop.tokenIn, hop.amountIn, hop.minOut, false) == Some((s', out)) && Inv(s')
    ensures UserTraded(s.ledger, s'.ledger, user, hop.tokenIn, hop.amountIn, hop.tokenOut, out)
    ensures out <= Balance(s'.ledger, hop.tokenOut, user)
    ensures forall j :: j in s.pools && j != hop.pool ==> j in s'.pools && s'.pools[j] == s.pools[j]
  {
    hide Swap, Inv, Quote;
    s' := HopExecutes(s, user, hop.pool, hop.tokenIn, hop.tokenOut, hop.amountIn, hop.minOut, out);
    HopTrades(s, user, hop);
    JoinsOther(s, hop);
  }

  lemma JoinsOther(s: State, hop: Hop)
    requires Inv(s) && hop.pool in s.pools && Joins(s.pools[hop.pool], hop.tokenIn, hop.tokenOut)
    ensures Other(s.pools[hop.pool], hop.tokenIn) == hop.tokenOut
  {
  }

  /** Executing a fresh route takes exactly the input from the user and gives exactly the quoted output;
      whatever passed through an intermediate token cancels out. */
  lemma FreshRoutePays(s: State, user: Address, r: Route, maxHops: nat, minOut: int)
    requires Inv(s) && user != SELF && Fresh(s, r, maxHops) && r.amountIn > 0
    requires r.amountIn <= Balance(s.ledger, r.tokenIn, user) && minOut <= r.amountOut
    ensures MultiHopSwap(s, user, r, minOut, true).Some?
    ensures UserTraded(s.ledger, MultiHopSwap(s, user, r, minOut, true).value.0.ledger, user, r.tokenIn, r.amountIn, r.tokenOut, r.amountOut)
  {
    hide Swap, Inv, Quote;
    FreshRouteExecutes(s, user, r, maxHops, minOut);
    if id :| r.hops == [Hop(id, r.tokenIn, r.tokenOut, r.amountIn, r.amountOut * 95 / 100)]
             && Direct(s, id, r.tokenIn, r.tokenOut, r.amountIn, r.amountOut) {
      var s' := HopAsQuoted(s, user, r.hops[0], r.amountOut);
      assert ExecuteHops(s', user, r.hops[1..], r.amountOut, r.tokenOut) == Some((s', (r.amountOut, r.tokenOut)));
    } else {
      var i, j, mid, via :|
        r.hops == [Hop(i, r.tokenIn, mid, r.amountIn, via * 95 / 100), Hop(j, mid, r.tokenOut, via, r.amountOut * 95 / 100)]
        && Through(s, i, j, mid, via, r.tokenIn, r.tokenOut, r.amountIn, r.amountOut);
      var s1 := HopAsQuoted(s, user, r.hops[0], via);
      DirectElsewhere(s, s1, j, mid, r.tokenOut, via, r.amountOut);
      var s2 := HopAsQuoted(s1, user, r.hops[1], r.amountOut);
      TwoHops(s, s1, s2, user, r.hops, via, r.amountOut);
      ThroughCancels(s.ledger, s1.ledger, s2.ledger, user, r.tokenIn, r.amountIn, mid, via, r.tokenOut, r.amountOut);
    }
  }

  lemma TwoHops(s: State, s1: State, s2: State, user: Address, hops: seq<Hop>, via: int, out: int)
    requires |hops| == 2 && hops[1].amountIn == via && hops[1].tokenIn == hops[0].tokenOut
    requires Swap(s, user, hops[0].pool, hops[0].tokenIn, hops[0].amountIn, hops[0].minOut, false) == Some((s1, via))
    requires Swap(s1, user, hops[1].pool, hops[1].tokenIn, hops[1].amountIn, hops[1].minOut, false) == Some((s2, out))
    ensures ExecuteHops(s, user, hops, hops[0].amountIn, hops[0].tokenIn) == Some((s2, (out, hops[1].tokenOut)))
  {
    hide Swap;
    var rest := hops[1..];
    assert rest[0] == hops[1] && rest[1..] == [];
    assert ExecuteHops(s2, user, rest[1..], out, hops[1].tokenOut) == Some((s2, (out, hops[1].tokenOut)));
    assert ExecuteHops(s1, user, rest, via, hops[0].tokenOut) == Some((s2, (out, hops[1].tokenOut)));
  }

  lemma ThroughCancels(l: Ledger, l1: Ledger, l2: Ledger, user: Address, tokenIn: Address, paid: int, mid: Address, via: int,
                       tokenOut: Address, got: int)
    requires UserTraded(l, l1, user, tokenIn, paid, mid, via) && UserTraded(l1, l2, user, mid, via, tokenOut, got)
    ensures UserTraded(l, l2, user, tokenIn, paid, tokenOut, got)
  {
  }

  /** A new pool is stored under the next id, empty, with the tokens and fee asked for, which the
      administrator may choose up to 10%. */
  lemma PoolCreated(s: State, caller: Address, tokenA: Address, tokenB: Address, feeBps: nat)
    requires Inv(s)
    ensures CreatePool(s, caller, tokenA, tokenB, feeBps).Some? <==> caller == s.admin && tokenA != tokenB && feeBps <= 1000
    ensures CreatePool(s, caller, tokenA, tokenB, feeBps).Some? ==>
              var (s', id) := CreatePool(s, caller, tokenA, tokenB, feeBps).value;
              && id !in s.pools && s' == s.(pools := s'.pools, counter := id + 1)
              && (forall j :: j in s.pools ==> j in s'.pools && s'.pools[j] == s.pools[j])
              && s'.pools.Keys == s.pools.Keys + {id} && s'.pools[id] == Pool(tokenA, tokenB, 0, 0, 0, feeBps)
  {
    hide Solvent, SharesAgree;
  }

  /** The collector and its share of the fee, at most half, are the administrator's to set. */
  lemma FeeConfigured(s: State, caller: Address, collector: Address, shareBps: nat)
    ensures SetFeeConfig(s, caller, collector, shareBps).Some? <==> caller == s.admin && shareBps <= 5000
    ensures SetFeeConfig(s, caller, collector, shareBps).Some? ==>
              SetFeeConfig(s, caller, collector, shareBps).value.0 == s.(collector := Some(collector), shareBps := shareBps)
  {
  }

  /** The minimum of shares and the administrator are the administrator's to set. */
  lemma AdminExact(s: State, caller: Address, minLp: int, admin: Address)
    ensures SetMinLp(s, caller, minLp) == if caller == s.admin && minLp > 0 then Some((s.(minLp := minLp), ())) else None
    ensures SetAdmin(s, caller, admin) == if caller == s.admin then Some((s.(admin := admin), ())) else None
  {
  }
}
