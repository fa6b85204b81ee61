/** The one- and two-hop router of the AMM (contracts/amm/src/lib.rs). */
module AmmRouter {
  import opened Prelude
  import opened TokenLedger
  import opened AmmMath
  import opened AmmPools

  // ----- the source's helpers -----

  predicate Joins(p: Pool, x: Address, y: Address) {
    (x == p.tokenA && y == p.tokenB) || (x == p.tokenB && y == p.tokenA)
  }

  function Quote(p: Pool, tokenIn: Address, tokenOut: Address, amountIn: int): int {
    AmountOut(amountIn, ReserveOf(p, tokenIn), ReserveOf(p, tokenOut), p.feeBps)
  }

  function TryDirect(s: State, id: nat, tokenIn: Address, tokenOut: Address, amountIn: int): Option<Route>
    requires id in s.pools
  {
    var p := s.pools[id];
    var _ :- Need(Joins(p, tokenIn, tokenOut));
    var _ :- Need(ReserveOf(p, tokenIn) > 0 && ReserveOf(p, tokenOut) > 0);
    var out := Quote(p, tokenIn, tokenOut, amountIn);
    var _ :- Need(out > 0);
    Some(Route(tokenIn, tokenOut, amountIn, out, [Hop(id, tokenIn, tokenOut, amountIn, out * 95 / 100)]))
  }

  function FindIntermediate(p1: Pool, p2: Pool, tokenIn: Address, tokenOut: Address): Option<Address> {
    if p1.tokenA !in {tokenIn, tokenOut} && p1.tokenA in {p2.tokenA, p2.tokenB} then Some(p1.tokenA)
    else if p1.tokenB !in {tokenIn, tokenOut} && p1.tokenB in {p2.tokenA, p2.tokenB} then Some(p1.tokenB)
    else None
  }

  function TryTwoHop(s: State, i: nat, j: nat, tokenIn: Address, tokenOut: Address, amountIn: int): Option<Route>
    requires i in s.pools && j in s.pools
  {
    var mid :- FindIntermediate(s.pools[i], s.pools[j], tokenIn, tokenOut);
    var first :- TryDirect(s, i, tokenIn, mid, amountIn);
    var second :- TryDirect(s, j, mid, tokenOut, first.amountOut);
    Some(Route(tokenIn, tokenOut, amountIn, second.amountOut, first.hops + second.hops))
  }

  // ----- what there is to choose from, independent of the search -----

  ghost predicate Direct(s: State, id: nat, tokenIn: Address, tokenOut: Address, amountIn: int, out: int) {
    id in s.pools && Joins(s.pools[id], tokenIn, tokenOut) && out == Quote(s.pools[id], tokenIn, tokenOut, amountIn) > 0
  }

  ghost predicate Through(s: State, i: nat, j: nat, mid: Address, via: int,
                          tokenIn: Address, tokenOut: Address, amountIn: int, out: int) {
    && i != j && mid != tokenIn && mid != tokenOut
    && Direct(s, i, tokenIn, mid, amountIn, via)
    && Direct(s, j, mid, tokenOut, via, out)
  }

  /** Some pool, or some ordered pair of distinct pools joined by an intermediate token, yields `out`. */
  ghost predicate Offered(s: State, tokenIn: Address, tokenOut: Address, amountIn: int, maxHops: nat, out: int) {
    || (exists id :: Direct(s, id, tokenIn, tokenOut, amountIn, out))
    || (maxHops >= 2 && exists i, j, mid, via :: Through(s, i, j, mid, via, tokenIn, tokenOut, amountIn, out))
  }

  /** The route's hops carry exactly the amounts the pools would pay now. */
  ghost predicate Fresh(s: State, r: Route, maxHops: nat) {
    || (exists id :: r.hops == [Hop(id, r.tokenIn, r.tokenOut, r.amountIn, r.amountOut * 95 / 100)]
                     && Direct(s, id, r.tokenIn, r.tokenOut, r.amountIn, r.amountOut))
    || (maxHops >= 2 && exists i, j, mid, via ::
          r.hops == [Hop(i, r.tokenIn, mid, r.amountIn, via * 95 / 100), Hop(j, mid, r.tokenOut, via, r.amountOut * 95 / 100)]
          && Through(s, i, j, mid, via, r.tokenIn, r.tokenOut, r.amountIn, r.amountOut))
  }

  lemma FreshIsOffered(s: State, r: Route, maxHops: nat)
    requires Fresh(s, r, maxHops)
    ensures Offered(s, r.tokenIn, r.tokenOut, r.amountIn, maxHops, r.amountOut)
  {
  }

  /** Nothing is on offer for an input that is not positive. */
  lemma OfferNeedsInput(s: State, tokenIn: Address, tokenOut: Address, amountIn: int, maxHops: nat, out: int)
    requires Offered(s, tokenIn, tokenOut, amountIn, maxHops, out)
    ensures amountIn > 0
  {
  }

  lemma TryDirectExact(s: State, id: nat, tokenIn: Address, tokenOut: Address, amountIn: int)
    requires id in s.pools && amountIn > 0
    ensures match TryDirect(s, id, tokenIn, tokenOut, amountIn)
            case Some(r) => Direct(s, id, tokenIn, tokenOut, amountIn, r.amountOut)
            case None => forall out :: !Direct(s, id, tokenIn, tokenOut, amountIn, out)
  {
  }

  /** The search's choice of intermediate token loses nothing: between two pools there is at most one. */
  lemma TryTwoHopExact(s: State, i: nat, j: nat, tokenIn: Address, tokenOut: Address, amountIn: int)
    requires i in s.pools && j in s.pools && i != j && amountIn > 0
    requires PoolValid(s.pools[i]) && PoolValid(s.pools[j])
    ensures match TryTwoHop(s, i, j, tokenIn, tokenOut, amountIn)
            case Some(r) => Fresh(s, r, 2) && r.tokenIn == tokenIn && r.tokenOut == tokenOut && r.amountIn == amountIn
            case None => true
    ensures forall mid, via, out :: Through(s, i, j, mid, via, tokenIn, tokenOut, amountIn, out) ==>
              TryTwoHop(s, i, j, tokenIn, tokenOut, amountIn).Some? &&
              TryTwoHop(s, i, j, tokenIn, tokenOut, amountIn).value.amountOut == out
  {
    match FindIntermediate(s.pools[i], s.pools[j], tokenIn, tokenOut)
    case None =>
    case Some(mid) =>
      TryDirectExact(s, i, tokenIn, mid, amountIn);
      match TryDirect(s, i, tokenIn, mid, amountIn)
      case None =>
      case Some(first) =>
        TryDirectExact(s, j, mid, tokenOut, first.amountOut);
        match TryTwoHop(s, i, j, tokenIn, tokenOut, amountIn)
        case None =>
        case Some(r) =>
          assert Through(s, i, j, mid, first.amountOut, tokenIn, tokenOut, amountIn, r.amountOut);
          assert r.hops == [Hop(i, tokenIn, mid, amountIn, first.amountOut * 95 / 100),
                            Hop(j, mid, tokenOut, first.amountOut, r.amountOut * 95 / 100)];
  }

  // ----- the search -----

  /** The best route so far is a route of this request, quoted on this state. */
  ghost predicate Candidate(s: State, best: Option<Route>, bestOut: int, tokenIn: Address, tokenOut: Address, amountIn: int, hops: nat) {
    if best.None? then bestOut == 0
    else
      var r := best.value;
      && bestOut == r.amountOut > 0
      && r.tokenIn == tokenIn && r.tokenOut == tokenOut && r.amountIn == amountIn
      && Fresh(s, r, hops)
  }

  ghost predicate NoneAboveDirect(s: State, bestOut: int, id: nat, tokenIn: Address, tokenOut: Address, amountIn: int) {
    forall out :: Direct(s, id, tokenIn, tokenOut, amountIn, out) ==> out <= bestOut
  }

  ghost predicate NoneAboveThrough(s: State, bestOut: int, i: nat, j: nat, tokenIn: Address, tokenOut: Address, amountIn: int) {
    forall mid, via, out :: Through(s, i, j, mid, via, tokenIn, tokenOut, amountIn, out) ==> out <= bestOut
  }

  /** All pools below `n` have been tried and none pays more than `bestOut`. */
  ghost predicate DirectSearched(s: State, bestOut: int, n: nat, tokenIn: Address, tokenOut: Address, amountIn: int) {
    forall k: nat :: k < n ==> NoneAboveDirect(s, bestOut, k, tokenIn, tokenOut, amountIn)
  }

  /** All ordered pairs of distinct pools up to `(i, j)` have been tried and none pays more. */
  ghost predicate ThroughSearched(s: State, bestOut: int, i: nat, j: nat, tokenIn: Address, tokenOut: Address, amountIn: int) {
    forall h: nat, k: nat :: h != k && ((h < i && k < s.counter) || (h == i && k < j)) ==>
      NoneAboveThrough(s, bestOut, h, k, tokenIn, tokenOut, amountIn)
  }

  lemma RaiseDirect(s: State, low: int, high: int, n: nat, tokenIn: Address, tokenOut: Address, amountIn: int)
    requires low <= high && DirectSearched(s, low, n, tokenIn, tokenOut, amountIn)
    ensures DirectSearched(s, high, n, tokenIn, tokenOut, amountIn)
  {
    forall k: nat | k < n ensures NoneAboveDirect(s, high, k, tokenIn, tokenOut, amountIn) {
      assert NoneAboveDirect(s, low, k, tokenIn, tokenOut, amountIn);
    }
  }

  lemma RaiseThrough(s: State, low: int, high: int, i: nat, j: nat, tokenIn: Address, tokenOut: Address, amountIn: int)
    requires low <= high && ThroughSearched(s, low, i, j, tokenIn, tokenOut, amountIn)
    ensures ThroughSearched(s, high, i, j, tokenIn, tokenOut, amountIn)
  {
    forall h: nat, k: nat | h != k && ((h < i && k < s.counter) || (h == i && k < j))
      ensures NoneAboveThrough(s, high, h, k, tokenIn, tokenOut, amountIn)
    {
      assert NoneAboveThrough(s, low, h, k, tokenIn, tokenOut, amountIn);
    }
  }

  /** What trying one pool tells the search. */
  lemma DirectTried(s: State, id: nat, tokenIn: Address, tokenOut: Address, amountIn: int)
    requires id in s.pools && amountIn > 0
    ensures match TryDirect(s, id, tokenIn, tokenOut, amountIn)
            case Some(r) => Candidate(s, Some(r), r.amountOut, tokenIn, tokenOut, amountIn, 1)
                            && NoneAboveDirect(s, r.amountOut, id, tokenIn, tokenOut, amountIn)
            case None => NoneAboveDirect(s, 0, id, tokenIn, tokenOut, amountIn)
  {
    TryDirectExact(s, id, tokenIn, tokenOut, amountIn);
  }

  lemma TwoHopTried(s: State, i: nat, j: nat, tokenIn: Address, tokenOut: Address, amountIn: int, maxHops: nat)
    requires Records(s) && i in s.pools && j in s.pools && i != j && amountIn > 0 && maxHops >= 2
    ensures match TryTwoHop(s, i, j, tokenIn, tokenOut, amountIn)
            case Some(r) => Candidate(s, Some(r), r.amountOut, tokenIn, tokenOut, amountIn, maxHops)
                            && NoneAboveThrough(s, r.amountOut, i, j, tokenIn, tokenOut, amountIn)
            case None => NoneAboveThrough(s, 0, i, j, tokenIn, tokenOut, amountIn)
  {
    TryTwoHopExact(s, i, j, tokenIn, tokenOut, amountIn);
  }

  /** The first search loop: every pool that joins the two tokens directly. */
  method BestDirect(s: State, tokenIn: Address, tokenOut: Address, amountIn: int) returns (best: Option<Route>, bestOut: int)
    requires Records(s) && amountIn > 0
    ensures Candidate(s, best, bestOut, tokenIn, tokenOut, amountIn, 1) && bestOut >= 0
    ensures DirectSearched(s, bestOut, s.counter, tokenIn, tokenOut, amountIn)
  {
    best, bestOut := None, 0;
    for id := 0 to s.counter
      invariant Candidate(s, best, bestOut, tokenIn, tokenOut, amountIn, 1) && bestOut >= 0
      invariant DirectSearched(s, bestOut, id, tokenIn, tokenOut, amountIn)
    {
      DirectTried(s, id, tokenIn, tokenOut, amountIn);
      var found := TryDirect(s, id, tokenIn, tokenOut, amountIn);
      if found.Some? && found.value.amountOut > bestOut {
        RaiseDirect(s, bestOut, found.value.amountOut, id, tokenIn, tokenOut, amountIn);
        best, bestOut := found, found.value.amountOut;
      }
    }
  }

  /** The second search: every ordered pair of distinct pools, starting from the best direct route. */
  method BestThrough(s: State, tokenIn: Address, tokenOut: Address, amountIn: int, maxHops: nat,
                     best0: Option<Route>, bestOut0: int)
    returns (best: Option<Route>, bestOut: int)
    requires Records(s) && amountIn > 0 && maxHops >= 2
    requires Candidate(s, best0, bestOut0, tokenIn, tokenOut, amountIn, maxHops) && bestOut0 >= 0
    ensures Candidate(s, best, bestOut, tokenIn, tokenOut, amountIn, maxHops) && bestOut >= bestOut0
    ensures ThroughSearched(s, bestOut, s.counter, 0, tokenIn, tokenOut, amountIn)
  {
    best, bestOut := best0, bestOut0;
    for i := 0 to s.counter
      invariant Candidate(s, best, bestOut, tokenIn, tokenOut, amountIn, maxHops) && bestOut >= bestOut0
      invariant ThroughSearched(s, bestOut, i, 0, tokenIn, tokenOut, amountIn)
    {
      for j := 0 to s.counter
        invariant Candidate(s, best, bestOut, tokenIn, tokenOut, amountIn, maxHops) && bestOut >= bestOut0
        invariant ThroughSearched(s, bestOut, i, j, tokenIn, tokenOut, amountIn)
      {
        if i != j {
          TwoHopTried(s, i, j, tokenIn, tokenOut, amountIn, maxHops);
          var found := TryTwoHop(s, i, j, tokenIn, tokenOut, amountIn);
          if found.Some? && found.value.amountOut > bestOut {
            RaiseThrough(s, bestOut, found.value.amountOut, i, j, tokenIn, tokenOut, amountIn);
            best, bestOut := found, found.value.amountOut;
          }
        }
      }
    }
  }

  lemma SearchComplete(s: State, bestOut: int, tokenIn: Address, tokenOut: Address, amountIn: int, maxHops: nat)
    requires Records(s) && bestOut >= 0
    requires DirectSearched(s, bestOut, s.counter, tokenIn, tokenOut, amountIn)
    requires maxHops >= 2 ==> ThroughSearched(s, bestOut, s.counter, 0, tokenIn, tokenOut, amountIn)
    ensures forall out :: Offered(s, tokenIn, tokenOut, amountIn, maxHops, out) ==> 0 < out <= bestOut
  {
    forall out | Offered(s, tokenIn, tokenOut, amountIn, maxHops, out) ensures 0 < out <= bestOut {
      if id :| Direct(s, id, tokenIn, tokenOut, amountIn, out) {
        assert NoneAboveDirect(s, bestOut, id, tokenIn, tokenOut, amountIn);
      } else {
        var i, j, mid, via :| Through(s, i, j, mid, via, tokenIn, tokenOut, amountIn, out);
        assert NoneAboveThrough(s, bestOut, i, j, tokenIn, tokenOut, amountIn);
      }
    }
  }

  /** The route found yields the maximum over everything on offer, and none is found only when
      the request is refused or nothing is on offer. */
  method FindBestRoute(s: State, tokenIn: Address, tokenOut: Address, amountIn: int, maxHops: nat, tradingAllowed: bool)
    returns (r: Option<Route>)
    requires Records(s)
    ensures r.Some? ==>
              && r.value.tokenIn == tokenIn && r.value.tokenOut == tokenOut && r.value.amountIn == amountIn
              && Fresh(s, r.value, maxHops)
              && forall out :: Offered(s, tokenIn, tokenOut, amountIn, maxHops, out) ==> out <= r.value.amountOut
    ensures r.None? <==>
              || amountIn <= 0 || tokenIn == tokenOut || maxHops == 0 || maxHops > 5 || !tradingAllowed
              || forall out :: !Offered(s, tokenIn, tokenOut, amountIn, maxHops, out)
  {
    var _ :- Need(amountIn > 0 && tokenIn != tokenOut && 0 < maxHops <= 5 && tradingAllowed);
    var best, bestOut := BestDirect(s, tokenIn, tokenOut, amountIn);
    if maxHops >= 2 {
      ghost var directOut := bestOut;
      best, bestOut := BestThrough(s, tokenIn, tokenOut, amountIn, maxHops, best, bestOut);
      RaiseDirect(s, directOut, bestOut, s.counter, tokenIn, tokenOut, amountIn);
    }
    SearchComplete(s, bestOut, tokenIn, tokenOut, amountIn, maxHops);
    if best.Some? {
      FreshIsOffered(s, best.value, maxHops);
    }
    r := best;
  }

  // ----- executing what was found -----

  /** A hop quoted on the current state executes for exactly its quote. */
  lemma HopExecutes(s: State, user: Address, id: nat, tokenIn: Address, tokenOut: Address, amountIn: int, minOut: int, out: int)
    returns (s': State)
    requires Inv(s) && user != SELF && amountIn > 0 && Direct(s, id, tokenIn, tokenOut, amountIn, out)
    requires minOut <= out && amountIn <= Balance(s.ledger, tokenIn, user)
    ensures Swap(s, user, id, tokenIn, amountIn, minOut, false) == Some((s', out))
    ensures Inv(s') && out <= Balance(s'.ledger, tokenOut, user)
    ensures forall j :: j in s.pools && j != id ==> j in s'.pools && s'.pools[j] == s.pools[j]
  {
    SwapSucceeds(s, user, id, tokenIn, tokenOut, amountIn, minOut, out);
    var net, out';
    s', net, out' := SwapTrades(s, user, id, tokenIn, amountIn, minOut, false);
    TradeKeeps(s, s', id, tokenIn, net, out');
  }

  lemma SwapSucceeds(s: State, user: Address, id: nat, tokenIn: Address, tokenOut: Address, amountIn: int, minOut: int, out: int)
    requires Inv(s) && user != SELF && amountIn > 0 && Direct(s, id, tokenIn, tokenOut, amountIn, out)
    requires minOut <= out && amountIn <= Balance(s.ledger, tokenIn, user)
    ensures Swap(s, user, id, tokenIn, amountIn, minOut, false).Some?
    ensures Swap(s, user, id, tokenIn, amountIn, minOut, false).value.1 == out
    ensures out <= Balance(Swap(s, user, id, tokenIn, amountIn, minOut, false).value.0.ledger, tokenOut, user)
  {
    var p := s.pools[id];
    ReserveCovered(s, id, tokenOut);
    OutputBounds(amountIn, ReserveOf(p, tokenIn), ReserveOf(p, tokenOut), p.feeBps);
  }

  /** Executing a fresh route on the state it was found in yields exactly the quoted output. */
  lemma FreshRouteExecutes(s: State, user: Address, r: Route, maxHops: nat, minOut: int)
    requires Inv(s) && user != SELF && Fresh(s, r, maxHops) && r.amountIn > 0
    requires r.amountIn <= Balance(s.ledger, r.tokenIn, user) && minOut <= r.amountOut
    ensures MultiHopSwap(s, user, r, minOut, true).Some?
    ensures MultiHopSwap(s, user, r, minOut, true).value.1 == r.amountOut
  {
    if id :| r.hops == [Hop(id, r.tokenIn, r.tokenOut, r.amountIn, r.amountOut * 95 / 100)]
             && Direct(s, id, r.tokenIn, r.tokenOut, r.amountIn, r.amountOut) {
      DirectRouteExecutes(s, user, id, r.hops, r.tokenIn, r.tokenOut, r.amountIn, r.amountOut);
    } else {
      var i, j, mid, via :|
        r.hops == [Hop(i, r.tokenIn, mid, r.amountIn, via * 95 / 100), Hop(j, mid, r.tokenOut, via, r.amountOut * 95 / 100)]
        && Through(s, i, j, mid, via, r.tokenIn, r.tokenOut, r.amountIn, r.amountOut);
      ThroughRouteExecutes(s, user, i, j, mid, via, r.hops, r.tokenIn, r.tokenOut, r.amountIn, r.amountOut);
    }
  }

  lemma ThroughRouteExecutes(s: State, user: Address, i: nat, j: nat, mid: Address, via: int, hops: seq<Hop>,
                             tokenIn: Address, tokenOut: Address, amountIn: int, out: int)
    requires Inv(s) && user != SELF && amountIn > 0 && amountIn <= Balance(s.ledger, tokenIn, user)
    requires Through(s, i, j, mid, via, tokenIn, tokenOut, amountIn, out)
    requires hops == [Hop(i, tokenIn, mid, amountIn, via * 95 / 100), Hop(j, mid, tokenOut, via, out * 95 / 100)]
    ensures ExecuteHops(s, user, hops, amountIn, tokenIn).Some?
    ensures ExecuteHops(s, user, hops, amountIn, tokenIn).value.1 == (out, tokenOut)
  {
    var s1 := HopExecutes(s, user, i, tokenIn, mid, amountIn, hops[0].minOut, via);
    DirectElsewhere(s, s1, j, mid, tokenOut, via, out);
    DirectRouteExecutes(s1, user, j, hops[1..], mid, tokenOut, via, out);
  }

  lemma DirectElsewhere(s: State, s': State, j: nat, tokenIn: Address, tokenOut: Address, amountIn: int, out: int)
    requires Direct(s, j, tokenIn, tokenOut, amountIn, out) && j in s'.pools && s'.pools[j] == s.pools[j]
    ensures Direct(s', j, tokenIn, tokenOut, amountIn, out)
  {
  }

  lemma DirectRouteExecutes(s: State, user: Address, id: nat, hops: seq<Hop>, tokenIn: Address, tokenOut: Address, amountIn: int, out: int)
    requires Inv(s) && user != SELF && amountIn > 0 && Direct(s, id, tokenIn, tokenOut, amountIn, out)
    requires amountIn <= Balance(s.ledger, tokenIn, user)
    requires hops == [Hop(id, tokenIn, tokenOut, amountIn, out * 95 / 100)]
    ensures ExecuteHops(s, user, hops, amountIn, tokenIn).Some?
    ensures ExecuteHops(s, user, hops, amountIn, tokenIn).value.1 == (out, tokenOut)
  {
    var s' := HopExecutes(s, user, id, tokenIn, tokenOut, amountIn, hops[0].minOut, out);
    assert ExecuteHops(s', user, hops[1..], out, tokenOut) == Some((s', (out, tokenOut)));
  }
}
