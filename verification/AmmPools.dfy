/** The multi-pool AMM as a state machine over its storage (contracts/amm/src/lib.rs). */
module AmmPools {
  import opened Prelude
  import opened MapSum
  import opened Arithmetic
  import opened TokenLedger
  import opened AmmMath

  // ----- storage -----

  const RATIO_TOLERANCE_BPS: int := 500

  datatype Pool = Pool(
    tokenA: Address, tokenB: Address, reserveA: int, reserveB: int, supply: int, feeBps: FeeBps)

  datatype LpKey = LpKey(pool: nat, provider: Address)
  datatype RewardKey = RewardKey(pool: nat, token: Address)

  datatype State = State(
    admin: Address,
    counter: nat,
    pools: map<nat, Pool>,
    lp: map<LpKey, int>,
    rewards: map<RewardKey, int>,
    collector: Option<Address>,
    shareBps: nat,
    minLp: int,
    ledger: Ledger)

  datatype Hop = Hop(pool: nat, tokenIn: Address, tokenOut: Address, amountIn: int, minOut: int)
  datatype Route = Route(tokenIn: Address, tokenOut: Address, amountIn: int, amountOut: int, hops: seq<Hop>)

  function Initial(admin: Address, collector: Option<Address>): State {
    State(admin, 0, map[], map[], map[], collector, 0, 1000, map[])
  }

  // ----- transitions -----

  function CreatePool(s: State, caller: Address, tokenA: Address, tokenB: Address, feeBps: nat): Option<(State, nat)> {
    var _ :- Need(caller == s.admin && tokenA != tokenB && feeBps <= MAX_FEE_BPS);
    Some((s.(pools := s.pools[s.counter := Pool(tokenA, tokenB, 0, 0, 0, feeBps)], counter := s.counter + 1),
          s.counter))
  }

  function LpMinted(p: Pool, a: int, b: int): Option<int>
    requires a > 0 && b > 0
  {
    if p.supply == 0 then Some(Root(a * b))
    else
      var lpA :- CeilDiv(a * p.supply, p.reserveA);
      var lpB :- CeilDiv(b * p.supply, p.reserveB);
      Some(Min(lpA, lpB))
  }

  predicate RatioAccepted(p: Pool, a: int, b: int)
    requires b > 0
  {
    p.reserveA > 0 && p.reserveB > 0 ==>
      -RATIO_TOLERANCE_BPS <= p.reserveA * BPS / p.reserveB - a * BPS / b <= RATIO_TOLERANCE_BPS
  }

  function AddLiquidity(s: State, provider: Address, id: nat, a: int, b: int): Option<(State, int)> {
    var _ :- Need(a > 0 && b > 0 && id in s.pools && provider != SELF);
    var p := s.pools[id];
    var minted :- LpMinted(p, a, b);
    var _ :- Need(minted >= s.minLp && minted > 0 && RatioAccepted(p, a, b));
    var l1 :- Transfer(s.ledger, p.tokenA, provider, SELF, a);
    var l2 :- Transfer(l1, p.tokenB, provider, SELF, b);
    var p' := p.(reserveA := p.reserveA + a, reserveB := p.reserveB + b, supply := p.supply + minted);
    var key := LpKey(id, provider);
    Some((s.(pools := s.pools[id := p'], lp := s.lp[key := At(s.lp, key) + minted], ledger := l2), minted))
  }

  function RemoveLiquidity(s: State, provider: Address, id: nat, amount: int): Option<(State, (int, int))> {
    var key := LpKey(id, provider);
    var _ :- Need(amount > 0 && amount <= At(s.lp, key) && id in s.pools && provider != SELF);
    var p := s.pools[id];
    var rest := At(s.lp, key) - amount;
    var _ :- Need(p.supply > 0 && (rest > 0 ==> rest >= s.minLp));
    var a := amount * p.reserveA / p.supply;
    var b := amount * p.reserveB / p.supply;
    var _ :- Need(a > 0 && b > 0);
    var p' := p.(reserveA := p.reserveA - a, reserveB := p.reserveB - b, supply := p.supply - amount);
    var l1 :- Transfer(s.ledger, p.tokenA, SELF, provider, a);
    var l2 :- Transfer(l1, p.tokenB, SELF, provider, b);
    Some((s.(pools := s.pools[id := p'], lp := s.lp[key := rest], ledger := l2), (a, b)))
  }

  function ReserveOf(p: Pool, token: Address): int {
    if token == p.tokenA then p.reserveA else if token == p.tokenB then p.reserveB else 0
  }

  function Partner(p: Pool, token: Address): Address {
    if token == p.tokenA then p.tokenB else p.tokenA
  }

  /** The reserves a trade in the given direction sees: what it adds to, what it takes from. */
  function Sides(p: Pool, tokenIn: Address): (int, int) {
    if tokenIn == p.tokenA then (p.reserveA, p.reserveB) else (p.reserveB, p.reserveA)
  }

  /** The pool after `net` of one token came in and `out` of the other left. */
  function Traded(p: Pool, tokenIn: Address, net: int, out: int): Pool {
    if tokenIn == p.tokenA then p.(reserveA := p.reserveA + net, reserveB := p.reserveB - out)
    else p.(reserveB := p.reserveB + net, reserveA := p.reserveA - out)
  }

  /** A skim with no collector configured stays on the contract's account, outside the reserves. */
  function PayCollector(l: Ledger, collector: Option<Address>, token: Address, fee: int): Option<Ledger> {
    if fee > 0 && collector.Some? then Transfer(l, token, SELF, collector.value, fee) else Some(l)
  }

  function Swap(s: State, user: Address, id: nat, tokenIn: Address, amountIn: int, minOut: int, skim: bool)
    : Option<(State, int)>
  {
    var _ :- Need(amountIn > 0 && id in s.pools && user != SELF);
    var p := s.pools[id];
    var _ :- Need(p.reserveA > 0 && p.reserveB > 0 && tokenIn in {p.tokenA, p.tokenB});
    var tokenOut := Partner(p, tokenIn);
    var out := AmountOut(amountIn, Sides(p, tokenIn).0, Sides(p, tokenIn).1, p.feeBps);
    var _ :- Need(out >= minOut && out > 0);
    var l1 :- Transfer(s.ledger, tokenIn, user, SELF, amountIn);
    var fee := if skim then ProtocolFee(amountIn, p.feeBps, s.shareBps) else 0;
    var l2 :- PayCollector(l1, s.collector, tokenIn, fee);
    var l3 :- Transfer(l2, tokenOut, SELF, user, out);
    Some((s.(pools := s.pools[id := Traded(p, tokenIn, amountIn - fee, out)], ledger := l3), out))
  }

  function FlashSwap(s: State, borrower: Address, id: nat, tokenOut: Address, amountOut: int, tokenIn: Address, maxIn: int)
    : Option<(State, int)>
  {
    var _ :- Need(amountOut > 0 && id in s.pools && borrower != SELF);
    var p := s.pools[id];
    var _ :- Need((tokenIn == p.tokenA && tokenOut == p.tokenB) || (tokenIn == p.tokenB && tokenOut == p.tokenA));
    var paid :- AmountIn(amountOut, Sides(p, tokenIn).0, Sides(p, tokenIn).1, p.feeBps);
    var _ :- Need(paid <= maxIn);
    var l1 :- Transfer(s.ledger, tokenOut, SELF, borrower, amountOut);
    var l2 :- Transfer(l1, tokenIn, borrower, SELF, paid);
    var fee := ProtocolFee(paid, p.feeBps, s.shareBps);
    var l3 :- PayCollector(l2, s.collector, tokenIn, fee);
    Some((s.(pools := s.pools[id := Traded(p, tokenIn, paid - fee, amountOut)], ledger := l3), paid))
  }

  function DepositRewards(s: State, caller: Address, id: nat, token: Address, amount: int): Option<(State, ())> {
    var _ :- Need(caller == s.admin && caller != SELF && amount > 0 && id in s.pools);
    var _ :- Need(token in {s.pools[id].tokenA, s.pools[id].tokenB});
    var l :- Transfer(s.ledger, token, caller, SELF, amount);
    var key := RewardKey(id, token);
    Some((s.(rewards := s.rewards[key := At(s.rewards, key) + amount], ledger := l), ()))
  }

  /** One token's side of a reward claim: nothing happens when the share rounds to zero. */
  function ClaimSide(s: State, provider: Address, id: nat, token: Address, share: int): Option<State> {
    if share <= 0 then Some(s)
    else
      var l :- Transfer(s.ledger, token, SELF, provider, share);
      var key := RewardKey(id, token);
      Some(s.(rewards := s.rewards[key := At(s.rewards, key) - share], ledger := l))
  }

  function ClaimRewards(s: State, provider: Address, id: nat): Option<(State, (int, int))> {
    var _ :- Need(id in s.pools && provider != SELF);
    var p := s.pools[id];
    var held := At(s.lp, LpKey(id, provider));
    var _ :- Need(held > 0 && p.supply > 0);
    var shareA := At(s.rewards, RewardKey(id, p.tokenA)) * held / p.supply;
    var shareB := At(s.rewards, RewardKey(id, p.tokenB)) * held / p.supply;
    var _ :- Need(shareA > 0 || shareB > 0);
    var s1 :- ClaimSide(s, provider, id, p.tokenA, shareA);
    var s2 :- ClaimSide(s1, provider, id, p.tokenB, shareB);
    Some((s2, (shareA, shareB)))
  }

  /** The hops of a caller-supplied route in order; the hop's own `tokenOut` is only a claim,
      checked against the next hop and the route, never against the pool. */
  function ExecuteHops(s: State, user: Address, hops: seq<Hop>, amount: int, token: Address)
    : Option<(State, (int, Address))>
    decreases |hops|
  {
    if hops == [] then Some((s, (amount, token)))
    else
      var hop := hops[0];
      var _ :- Need(hop.amountIn == amount && hop.tokenIn == token);
      var (s', out) :- Swap(s, user, hop.pool, hop.tokenIn, hop.amountIn, hop.minOut, false);
      ExecuteHops(s', user, hops[1..], out, hop.tokenOut)
  }

  /** `limitsPass` is the answer of the position-limit check, which this model does not compute. */
  function MultiHopSwap(s: State, user: Address, route: Route, minOut: int, limitsPass: bool): Option<(State, int)> {
    var _ :- Need(route.amountIn > 0 && route.amountOut >= minOut && limitsPass);
    var (s', (out, token)) :- ExecuteHops(s, user, route.hops, route.amountIn, route.tokenIn);
    var _ :- Need(out >= minOut && token == route.tokenOut);
    Some((s', out))
  }

  function SetFeeConfig(s: State, caller: Address, collector: Address, shareBps: nat): Option<(State, ())> {
    var _ :- Need(caller == s.admin && shareBps <= MAX_PROTOCOL_SHARE_BPS);
    Some((s.(collector := Some(collector), shareBps := shareBps), ()))
  }

  function SetMinLp(s: State, caller: Address, minLp: int): Option<(State, ())> {
    var _ :- Need(caller == s.admin && minLp > 0);
    Some((s.(minLp := minLp), ()))
  }

  function SetAdmin(s: State, caller: Address, admin: Address): Option<(State, ())> {
    var _ :- Need(caller == s.admin);
    Some((s.(admin := admin), ()))
  }

  /** Token movements the contract takes no part in: other accounts pay anyone, and tokens are issued. */
  function OutsideTransfer(s: State, token: Address, from: Address, to: Address, amount: int): Option<(State, ())> {
    var _ :- Need(from != SELF);
    var l :- Transfer(s.ledger, token, from, to, amount);
    Some((s.(ledger := l), ()))
  }

  function OutsideMint(s: State, token: Address, to: Address, amount: int): Option<(State, ())> {
    var _ :- Need(amount >= 0);
    Some((s.(ledger := s.ledger[Holding(token, to) := Balance(s.ledger, token, to) + amount]), ()))
  }

  // ----- runs -----

  datatype Op =
    | OpCreatePool(caller: Address, tokenA: Address, tokenB: Address, feeBps: nat)
    | OpAddLiquidity(caller: Address, id: nat, a: int, b: int)
    | OpRemoveLiquidity(caller: Address, id: nat, amount: int)
    | OpSwap(caller: Address, id: nat, tokenIn: Address, amountIn: int, minOut: int)
    | OpFlashSwap(caller: Address, id: nat, tokenOut: Address, amountOut: int, tokenIn: Address, maxIn: int)
    | OpMultiHop(caller: Address, route: Route, minOut: int, limitsPass: bool)
    | OpDepositRewards(caller: Address, id: nat, token: Address, amount: int)
    | OpClaimRewards(caller: Address, id: nat)
    | OpSetFeeConfig(caller: Address, collector: Address, shareBps: nat)
    | OpSetMinLp(caller: Address, minLp: int)
    | OpSetAdmin(caller: Address, admin: Address)
    | OpTransfer(token: Address, caller: Address, to: Address, amount: int)
    | OpMint(token: Address, to: Address, amount: int)

  function Step(s: State, op: Op): State {
    match op
    case OpCreatePool(c, x, y, f) => Commit(CreatePool(s, c, x, y, f), s).0
    case OpAddLiquidity(c, id, a, b) => Commit(AddLiquidity(s, c, id, a, b), s).0
    case OpRemoveLiquidity(c, id, n) => Commit(RemoveLiquidity(s, c, id, n), s).0
    case OpSwap(c, id, t, n, m) => Commit(Swap(s, c, id, t, n, m, true), s).0
    case OpFlashSwap(c, id, x, n, y, m) => Commit(FlashSwap(s, c, id, x, n, y, m), s).0
    case OpMultiHop(c, r, m, l) => Commit(MultiHopSwap(s, c, r, m, l), s).0
    case OpDepositRewards(c, id, t, n) => Commit(DepositRewards(s, c, id, t, n), s).0
    case OpClaimRewards(c, id) => Commit(ClaimRewards(s, c, id), s).0
    case OpSetFeeConfig(c, x, b) => Commit(SetFeeConfig(s, c, x, b), s).0
    case OpSetMinLp(c, m) => Commit(SetMinLp(s, c, m), s).0
    case OpSetAdmin(c, a) => Commit(SetAdmin(s, c, a), s).0
    case OpTransfer(t, c, x, n) => Commit(OutsideTransfer(s, t, c, x, n), s).0
    case OpMint(t, x, n) => Commit(OutsideMint(s, t, x, n), s).0
  }

  function Run(s: State, ops: seq<Op>): State
    decreases |ops|
  {
    if ops == [] then s else Run(Step(s, ops[0]), ops[1..])
  }

  // ----- the invariant -----

  ghost predicate PoolValid(p: Pool) {
    && p.tokenA != p.tokenB
    && (if p.supply == 0 then p.reserveA == 0 && p.reserveB == 0
        else p.supply > 0 && p.reserveA > 0 && p.reserveB > 0)
  }

  ghost function Shares(lp: map<LpKey, int>, id: nat): map<LpKey, int> {
    map k | k in lp && k.pool == id :: lp[k]
  }

  ghost function Reserves(pools: map<nat, Pool>, token: Address): map<nat, int> {
    map id | id in pools :: ReserveOf(pools[id], token)
  }

  ghost function Pots(rewards: map<RewardKey, int>, token: Address): map<RewardKey, int> {
    map k | k in rewards && k.token == token :: rewards[k]
  }

  /** Everything the contract owes in a token: the reserves of every pool and every reward pot. */
  ghost function Owed(s: State, token: Address): int {
    Sum(Reserves(s.pools, token)) + Sum(Pots(s.rewards, token))
  }

  ghost predicate Covered(s: State, token: Address) {
    Balance(s.ledger, token, SELF) >= Owed(s, token)
  }

  ghost predicate Solvent(s: State) {
    forall token :: Covered(s, token)
  }

  ghost predicate SharesMatch(s: State, id: nat) {
    id in s.pools ==> Sum(Shares(s.lp, id)) == s.pools[id].supply
  }

  ghost predicate SharesAgree(s: State) {
    forall id :: SharesMatch(s, id)
  }

  ghost predicate Records(s: State) {
    && (forall id: nat :: id in s.pools <==> id < s.counter)
    && (forall id :: id in s.pools ==> PoolValid(s.pools[id]))
    && (forall k :: k in s.lp ==> s.lp[k] >= 0 && k.pool in s.pools)
    && (forall k :: k in s.rewards ==> s.rewards[k] >= 0)
    && s.shareBps <= MAX_PROTOCOL_SHARE_BPS
    && s.minLp > 0
  }

  ghost predicate Inv(s: State) {
    Records(s) && SharesAgree(s) && Solvent(s)
  }

  // ----- how each kind of write changes the sums -----

  lemma ReservesUpdate(pools: map<nat, Pool>, id: nat, p: Pool, token: Address)
    ensures Sum(Reserves(pools[id := p], token))
         == Sum(Reserves(pools, token)) - (if id in pools then ReserveOf(pools[id], token) else 0) + ReserveOf(p, token)
  {
    SumUpdate(Reserves(pools, token), id, ReserveOf(p, token));
    assert Reserves(pools[id := p], token) == Reserves(pools, token)[id := ReserveOf(p, token)];
  }

  lemma PotsUpdate(rewards: map<RewardKey, int>, key: RewardKey, v: int, token: Address)
    ensures Sum(Pots(rewards[key := v], token))
         == Sum(Pots(rewards, token)) + (if token == key.token then v - At(rewards, key) else 0)
  {
    if token == key.token {
      SumUpdate(Pots(rewards, token), key, v);
      assert Pots(rewards[key := v], token) == Pots(rewards, token)[key := v];
    } else {
      assert Pots(rewards[key := v], token) == Pots(rewards, token);
    }
  }

  lemma SharesWrite(lp: map<LpKey, int>, key: LpKey, delta: int, id: nat)
    ensures Sum(Shares(lp[key := At(lp, key) + delta], id)) == Sum(Shares(lp, id)) + (if id == key.pool then delta else 0)
  {
    var v := At(lp, key) + delta;
    if id == key.pool {
      SumUpdate(Shares(lp, id), key, v);
      assert Shares(lp[key := v], id) == Shares(lp, id)[key := v];
    } else {
      assert Shares(lp[key := v], id) == Shares(lp, id);
    }
  }

  lemma HeldIsPartOfSupply(s: State, id: nat, provider: Address)
    requires Inv(s) && id in s.pools
    ensures 0 <= At(s.lp, LpKey(id, provider)) <= s.pools[id].supply
  {
    assert SharesMatch(s, id);
    SumMember(Shares(s.lp, id), LpKey(id, provider));
  }

  /** Writing one pool keeps solvency when the account moves at least as much as the reserves. */
  lemma PoolWriteSolvent(s: State, s': State, id: nat, p: Pool)
    requires Solvent(s) && id in s.pools
    requires s'.pools == s.pools[id := p] && s'.rewards == s.rewards
    requires forall token :: Balance(s'.ledger, token, SELF) - ReserveOf(p, token)
                          >= Balance(s.ledger, token, SELF) - ReserveOf(s.pools[id], token)
    ensures Solvent(s')
  {
    forall token ensures Covered(s', token) {
      ReservesUpdate(s.pools, id, p, token);
      assert Covered(s, token);
    }
  }

  // ----- every step keeps the invariant -----

  lemma CreatePoolKeeps(s: State, caller: Address, tokenA: Address, tokenB: Address, feeBps: nat)
    requires Inv(s) && CreatePool(s, caller, tokenA, tokenB, feeBps).Some?
    ensures Inv(CreatePool(s, caller, tokenA, tokenB, feeBps).value.0)
  {
    var s' := CreatePool(s, caller, tokenA, tokenB, feeBps).value.0;
    var p := Pool(tokenA, tokenB, 0, 0, 0, feeBps);
    forall token ensures Covered(s', token) {
      ReservesUpdate(s.pools, s.counter, p, token);
      assert Covered(s, token);
    }
    forall j ensures SharesMatch(s', j) {
      assert SharesMatch(s, j);
      if j == s.counter {
        assert Shares(s.lp, j) == map[];
      }
    }
  }

  lemma PoolWriteRecords(s: State, s': State, id: nat, p: Pool)
    requires Records(s) && id in s.pools && PoolValid(p)
    requires s' == s.(pools := s.pools[id := p], ledger := s'.ledger)
    ensures Records(s')
  {
  }

  lemma LpWriteRecords(s: State, key: LpKey, v: int)
    requires Records(s) && key.pool in s.pools && v >= 0
    ensures Records(s.(lp := s.lp[key := v]))
  {
  }

  /** A share write that matches the pool's new supply keeps the shares in agreement. */
  lemma ShareWriteAgrees(s: State, s': State, id: nat, key: LpKey, delta: int)
    requires SharesAgree(s) && id in s.pools && key.pool == id
    requires s'.lp == s.lp[key := At(s.lp, key) + delta]
    requires id in s'.pools && s'.pools[id].supply == s.pools[id].supply + delta
    requires forall j :: j in s'.pools && j != id ==> j in s.pools && s'.pools[j] == s.pools[j]
    ensures SharesAgree(s')
  {
    forall j ensures SharesMatch(s', j) {
      SharesWrite(s.lp, key, delta, j);
      assert SharesMatch(s, j);
    }
  }

  /** Writing a pool and one provider's shares together. */
  lemma LiquidityWriteKeeps(s: State, s': State, id: nat, provider: Address, p: Pool, delta: int)
    requires Inv(s) && id in s.pools && PoolValid(p)
    requires p.supply == s.pools[id].supply + delta && At(s.lp, LpKey(id, provider)) + delta >= 0
    requires s' == s.(pools := s.pools[id := p],
                      lp := s.lp[LpKey(id, provider) := At(s.lp, LpKey(id, provider)) + delta], ledger := s'.ledger)
    requires forall token :: Balance(s'.ledger, token, SELF) - ReserveOf(p, token)
                          >= Balance(s.ledger, token, SELF) - ReserveOf(s.pools[id], token)
    ensures Inv(s')
  {
    hide Sum;
    PoolWriteSolvent(s, s', id, p);
    LpWriteRecords(s, LpKey(id, provider), At(s.lp, LpKey(id, provider)) + delta);
    PoolWriteRecords(s.(lp := s'.lp), s', id, p);
    ShareWriteAgrees(s, s', id, LpKey(id, provider), delta);
  }

  lemma AddLiquidityShape(s: State, provider: Address, id: nat, a: int, b: int) returns (s': State, p: Pool, minted: int)
    requires AddLiquidity(s, provider, id, a, b).Some?
    ensures AddLiquidity(s, provider, id, a, b) == Some((s', minted))
    ensures a > 0 && b > 0 && minted > 0 && id in s.pools
    ensures p == s.pools[id].(reserveA := s.pools[id].reserveA + a, reserveB := s.pools[id].reserveB + b,
                              supply := s.pools[id].supply + minted)
    ensures s' == s.(pools := s.pools[id := p],
                     lp := s.lp[LpKey(id, provider) := At(s.lp, LpKey(id, provider)) + minted], ledger := s'.ledger)
    ensures forall t ::
              Balance(s'.ledger, t, SELF)
              == Balance(s.ledger, t, SELF) + (if t == p.tokenA then a else 0) + (if t == p.tokenB then b else 0)
  {
    hide LpMinted, RatioAccepted;
    s', minted := AddLiquidity(s, provider, id, a, b).value.0, AddLiquidity(s, provider, id, a, b).value.1;
    p := s'.pools[id];
  }

  lemma AddLiquidityKeeps(s: State, provider: Address, id: nat, a: int, b: int)
    requires Inv(s) && AddLiquidity(s, provider, id, a, b).Some?
    ensures Inv(AddLiquidity(s, provider, id, a, b).value.0)
  {
    var s', p, minted := AddLiquidityShape(s, provider, id, a, b);
    HeldIsPartOfSupply(s, id, provider);
    LiquidityWriteKeeps(s, s', id, provider, p, minted);
  }

  lemma AddLiquidityGrows(s: State, provider: Address, id: nat, a: int, b: int)
    requires Records(s) && AddLiquidity(s, provider, id, a, b).Some?
    ensures ProductGrows(s, AddLiquidity(s, provider, id, a, b).value.0)
  {
    var s', p', _ := AddLiquidityShape(s, provider, id, a, b);
    var p := s.pools[id];
    MulLe(p.reserveA, p'.reserveA, p.reserveB);
    MulLe(p.reserveB, p'.reserveB, p'.reserveA);
    PoolWriteGrows(s, s', id, p');
  }

  lemma RemoveLiquidityShape(s: State, provider: Address, id: nat, amount: int) returns (s': State, p: Pool, a: int, b: int)
    requires Records(s) && RemoveLiquidity(s, provider, id, amount).Some?
    requires id in s.pools ==> At(s.lp, LpKey(id, provider)) <= s.pools[id].supply
    ensures RemoveLiquidity(s, provider, id, amount) == Some((s', (a, b)))
    ensures 0 < amount <= At(s.lp, LpKey(id, provider)) && id in s.pools
    ensures p == s.pools[id].(reserveA := s.pools[id].reserveA - a, reserveB := s.pools[id].reserveB - b,
                              supply := s.pools[id].supply - amount)
    ensures PoolValid(p)
    ensures s' == s.(pools := s.pools[id := p],
                     lp := s.lp[LpKey(id, provider) := At(s.lp, LpKey(id, provider)) - amount], ledger := s'.ledger)
    ensures forall t ::
              Balance(s'.ledger, t, SELF)
              == Balance(s.ledger, t, SELF) - (if t == p.tokenA then a else 0) - (if t == p.tokenB then b else 0)
  {
    s' := RemoveLiquidity(s, provider, id, amount).value.0;
    a, b := RemoveLiquidity(s, provider, id, amount).value.1.0, RemoveLiquidity(s, provider, id, amount).value.1.1;
    p := s'.pools[id];
    WithdrawnPart(amount, s.pools[id].reserveA, s.pools[id].supply);
    WithdrawnPart(amount, s.pools[id].reserveB, s.pools[id].supply);
  }

  lemma RemoveTouchesOnePool(s: State, provider: Address, id: nat, amount: int)
    requires RemoveLiquidity(s, provider, id, amount).Some?
    ensures var s' := RemoveLiquidity(s, provider, id, amount).value.0;
            forall j :: j in s.pools && j != id ==> j in s'.pools && s'.pools[j] == s.pools[j]
  {
  }

  lemma RemoveLiquidityKeeps(s: State, provider: Address, id: nat, amount: int)
    requires Inv(s) && RemoveLiquidity(s, provider, id, amount).Some?
    ensures Inv(RemoveLiquidity(s, provider, id, amount).value.0)
  {
    HeldIsPartOfSupply(s, id, provider);
    var s', p, a, b := RemoveLiquidityShape(s, provider, id, amount);
    LiquidityWriteKeeps(s, s', id, provider, p, -amount);
  }

  function Product(p: Pool): int {
    p.reserveA * p.reserveB
  }

  /** No pool's reserve product is lower in the second state. */
  ghost predicate ProductGrows(s: State, s': State) {
    forall id :: id in s.pools ==> id in s'.pools && Product(s'.pools[id]) >= Product(s.pools[id])
  }

  lemma PoolWriteGrows(s: State, s': State, id: nat, p: Pool)
    requires id in s.pools && s'.pools == s.pools[id := p] && Product(p) >= Product(s.pools[id])
    ensures ProductGrows(s, s')
  {
  }

  /** `net` of one token arrives and `out` of the other leaves without emptying it. */
  ghost predicate TradeFits(p: Pool, tokenIn: Address, net: int, out: int) {
    tokenIn in {p.tokenA, p.tokenB} && net >= 0 && 0 <= out < ReserveOf(p, Partner(p, tokenIn))
  }

  ghost predicate FairTrade(p: Pool, tokenIn: Address, net: int, out: int) {
    TradeFits(p, tokenIn, net, out) && Product(Traded(p, tokenIn, net, out)) >= Product(p)
  }

  /** The contract's account moved at least as the trade says. */
  ghost predicate AccountFollows(l: Ledger, l': Ledger, p: Pool, tokenIn: Address, net: int, out: int) {
    forall t :: Balance(l', t, SELF) >= Balance(l, t, SELF)
                + (if t == tokenIn then net else if t == Partner(p, tokenIn) then -out else 0)
  }

  lemma TradeKeeps(s: State, s': State, id: nat, tokenIn: Address, net: int, out: int)
    requires Inv(s) && id in s.pools && s.pools[id].supply > 0
    requires TradeFits(s.pools[id], tokenIn, net, out)
    requires AccountFollows(s.ledger, s'.ledger, s.pools[id], tokenIn, net, out)
    requires s' == s.(pools := s.pools[id := Traded(s.pools[id], tokenIn, net, out)], ledger := s'.ledger)
    ensures Inv(s')
  {
    var p' := Traded(s.pools[id], tokenIn, net, out);
    PoolWriteSolvent(s, s', id, p');
    PoolWriteRecords(s, s', id, p');
    forall j ensures SharesMatch(s', j) {
      assert SharesMatch(s, j);
    }
  }

  lemma TradedProduct(p: Pool, tokenIn: Address, net: int, out: int)
    requires p.tokenA != p.tokenB && tokenIn in {p.tokenA, p.tokenB}
    ensures var ri, ro := ReserveOf(p, tokenIn), ReserveOf(p, Partner(p, tokenIn));
            Product(p) == ri * ro && Product(Traded(p, tokenIn, net, out)) == (ri + net) * (ro - out)
  {
  }

  lemma SwapIsFair(p: Pool, tokenIn: Address, amountIn: int, share: nat) returns (net: int, out: int)
    requires PoolValid(p) && p.supply > 0 && tokenIn in {p.tokenA, p.tokenB} && amountIn > 0 && share <= BPS
    ensures net == amountIn - ProtocolFee(amountIn, p.feeBps, share) <= amountIn
    ensures out == AmountOut(amountIn, ReserveOf(p, tokenIn), ReserveOf(p, Partner(p, tokenIn)), p.feeBps)
    ensures FairTrade(p, tokenIn, net, out)
  {
    var ri, ro := ReserveOf(p, tokenIn), ReserveOf(p, Partner(p, tokenIn));
    net, out := amountIn - ProtocolFee(amountIn, p.feeBps, share), AmountOut(amountIn, ri, ro, p.feeBps);
    SwapKeepsProduct(amountIn, ri, ro, p.feeBps, share);
    SkimLeavesAfterFee(amountIn, p.feeBps, share);
    OutputBounds(amountIn, ri, ro, p.feeBps);
    TradedProduct(p, tokenIn, net, out);
  }

  lemma FlashIsFair(p: Pool, tokenIn: Address, amountOut: int, share: nat) returns (paid: int, net: int)
    requires PoolValid(p) && p.supply > 0 && tokenIn in {p.tokenA, p.tokenB} && share <= BPS
    requires AmountIn(amountOut, ReserveOf(p, tokenIn), ReserveOf(p, Partner(p, tokenIn)), p.feeBps).Some?
    ensures paid == AmountIn(amountOut, ReserveOf(p, tokenIn), ReserveOf(p, Partner(p, tokenIn)), p.feeBps).value
    ensures net == paid - ProtocolFee(paid, p.feeBps, share) <= paid
    ensures FairTrade(p, tokenIn, net, amountOut)
  {
    var ri, ro := ReserveOf(p, tokenIn), ReserveOf(p, Partner(p, tokenIn));
    paid := AmountIn(amountOut, ri, ro, p.feeBps).value;
    net := paid - ProtocolFee(paid, p.feeBps, share);
    FlashKeepsProduct(amountOut, ri, ro, p.feeBps, share);
    SkimLeavesAfterFee(paid, p.feeBps, share);
    TradedProduct(p, tokenIn, net, amountOut);
  }

  /** A successful swap is a fair trade against one pool, followed by the contract's account. */
  lemma SwapTrades(s: State, user: Address, id: nat, tokenIn: Address, amountIn: int, minOut: int, skim: bool)
    returns (s': State, net: int, out: int)
    requires Records(s) && Swap(s, user, id, tokenIn, amountIn, minOut, skim).Some?
    ensures Swap(s, user, id, tokenIn, amountIn, minOut, skim) == Some((s', out))
    ensures id in s.pools && s.pools[id].supply > 0 && out > 0
    ensures FairTrade(s.pools[id], tokenIn, net, out)
    ensures AccountFollows(s.ledger, s'.ledger, s.pools[id], tokenIn, net, out)
    ensures s' == s.(pools := s.pools[id := Traded(s.pools[id], tokenIn, net, out)], ledger := s'.ledger)
  {
    hide AmountOut, ProtocolFee, Product;
    NoShareNoSkim(amountIn, s.pools[id].feeBps);
    s' := Swap(s, user, id, tokenIn, amountIn, minOut, skim).value.0;
    net, out := SwapIsFair(s.pools[id], tokenIn, amountIn, if skim then s.shareBps else 0);
  }

  lemma FlashTrades(s: State, user: Address, id: nat, tokenOut: Address, amountOut: int, tokenIn: Address, maxIn: int)
    returns (s': State, net: int, paid: int)
    requires Records(s) && FlashSwap(s, user, id, tokenOut, amountOut, tokenIn, maxIn).Some?
    ensures FlashSwap(s, user, id, tokenOut, amountOut, tokenIn, maxIn) == Some((s', paid))
    ensures id in s.pools && s.pools[id].supply > 0
    ensures FairTrade(s.pools[id], tokenIn, net, amountOut)
    ensures AccountFollows(s.ledger, s'.ledger, s.pools[id], tokenIn, net, amountOut)
    ensures s' == s.(pools := s.pools[id := Traded(s.pools[id], tokenIn, net, amountOut)], ledger := s'.ledger)
  {
    hide AmountIn, ProtocolFee, Product;
    var p := s.pools[id];
    AmountInNeedsLiquidity(amountOut, Sides(p, tokenIn).0, Sides(p, tokenIn).1, p.feeBps);
    s' := FlashSwap(s, user, id, tokenOut, amountOut, tokenIn, maxIn).value.0;
    paid, net := FlashIsFair(s.pools[id], tokenIn, amountOut, s.shareBps);
  }

  lemma SwapGrows(s: State, user: Address, id: nat, tokenIn: Address, amountIn: int, minOut: int, skim: bool)
    requires Records(s) && Swap(s, user, id, tokenIn, amountIn, minOut, skim).Some?
    ensures ProductGrows(s, Swap(s, user, id, tokenIn, amountIn, minOut, skim).value.0)
  {
    var s', net, out := SwapTrades(s, user, id, tokenIn, amountIn, minOut, skim);
    PoolWriteGrows(s, s', id, Traded(s.pools[id], tokenIn, net, out));
  }

  lemma FlashGrows(s: State, user: Address, id: nat, tokenOut: Address, amountOut: int, tokenIn: Address, maxIn: int)
    requires Records(s) && FlashSwap(s, user, id, tokenOut, amountOut, tokenIn, maxIn).Some?
    ensures ProductGrows(s, FlashSwap(s, user, id, tokenOut, amountOut, tokenIn, maxIn).value.0)
  {
    var s', net, _ := FlashTrades(s, user, id, tokenOut, amountOut, tokenIn, maxIn);
    PoolWriteGrows(s, s', id, Traded(s.pools[id], tokenIn, net, amountOut));
  }

  lemma {:induction false} HopsKeep(s: State, user: Address, hops: seq<Hop>, amount: int, token: Address)
    requires Inv(s) && ExecuteHops(s, user, hops, amount, token).Some?
    ensures var s' := ExecuteHops(s, user, hops, amount, token).value.0;
            Inv(s') && ProductGrows(s, s')
    decreases |hops|
  {
    if hops != [] {
      var hop := hops[0];
      var s1, net, out := SwapTrades(s, user, hop.pool, hop.tokenIn, hop.amountIn, hop.minOut, false);
      TradeKeeps(s, s1, hop.pool, hop.tokenIn, net, out);
      SwapGrows(s, user, hop.pool, hop.tokenIn, hop.amountIn, hop.minOut, false);
      HopsKeep(s1, user, hops[1..], out, hop.tokenOut);
    }
  }

  lemma MultiHopKeeps(s: State, user: Address, route: Route, minOut: int, limitsPass: bool)
    requires Inv(s) && MultiHopSwap(s, user, route, minOut, limitsPass).Some?
    ensures var s' := MultiHopSwap(s, user, route, minOut, limitsPass).value.0;
            Inv(s') && ProductGrows(s, s')
  {
    HopsKeep(s, user, route.hops, route.amountIn, route.tokenIn);
  }

  /** Writing one reward pot keeps the invariant when the account moves at least as much. */
  lemma PotWriteKeeps(s: State, s': State, key: RewardKey, v: int)
    requires Inv(s) && v >= 0
    requires s' == s.(rewards := s.rewards[key := v], ledger := s'.ledger)
    requires forall t :: Balance(s'.ledger, t, SELF) >= Balance(s.ledger, t, SELF)
                         + (if t == key.token then v - At(s.rewards, key) else 0)
    ensures Inv(s')
  {
    SameShares(s, s');
    forall token ensures Covered(s', token) {
      PotsUpdate(s.rewards, key, v, token);
      assert Covered(s, token);
    }
  }

  lemma ClaimShares(s: State, provider: Address, id: nat) returns (s1: State, a: int, b: int)
    requires ClaimRewards(s, provider, id).Some?
    requires forall k :: k in s.rewards ==> s.rewards[k] >= 0
    requires id in s.pools ==> 0 <= At(s.lp, LpKey(id, provider)) <= s.pools[id].supply
    ensures id in s.pools && provider != SELF
    ensures a <= At(s.rewards, RewardKey(id, s.pools[id].tokenA)) && b <= At(s.rewards, RewardKey(id, s.pools[id].tokenB))
    ensures ClaimSide(s, provider, id, s.pools[id].tokenA, a) == Some(s1)
    ensures ClaimSide(s1, provider, id, s.pools[id].tokenB, b) == Some(ClaimRewards(s, provider, id).value.0)
  {
    var p := s.pools[id];
    var held := At(s.lp, LpKey(id, provider));
    a := At(s.rewards, RewardKey(id, p.tokenA)) * held / p.supply;
    b := At(s.rewards, RewardKey(id, p.tokenB)) * held / p.supply;
    RewardShareBound(At(s.rewards, RewardKey(id, p.tokenA)), held, p.supply);
    RewardShareBound(At(s.rewards, RewardKey(id, p.tokenB)), held, p.supply);
    s1 := ClaimSide(s, provider, id, p.tokenA, a).value;
  }

  lemma ClaimRewardsKeeps(s: State, provider: Address, id: nat)
    requires Inv(s) && ClaimRewards(s, provider, id).Some?
    ensures var s' := ClaimRewards(s, provider, id).value.0;
            Inv(s') && s'.pools == s.pools
  {
    HeldIsPartOfSupply(s, id, provider);
    var s1, a, b := ClaimShares(s, provider, id);
    ClaimSideKeeps(s, provider, id, s.pools[id].tokenA, a);
    ClaimSideKeeps(s1, provider, id, s.pools[id].tokenB, b);
  }

  lemma RewardShareBound(pot: int, held: int, supply: int)
    requires 0 <= pot && 0 <= held <= supply && supply > 0
    ensures 0 <= pot * held / supply <= pot
  {
    MulNonNegative(pot, held);
    MulLe(held, supply, pot);
    DivFloor(0, pot * held, supply);
    DivMonotone(pot * held, pot * supply, supply);
    DivFloor(pot + 1, pot * supply, supply);
  }

  lemma ClaimSideKeeps(s: State, provider: Address, id: nat, token: Address, share: int)
    requires Inv(s) && provider != SELF && share <= At(s.rewards, RewardKey(id, token))
    requires ClaimSide(s, provider, id, token, share).Some?
    ensures var s' := ClaimSide(s, provider, id, token, share).value;
            Inv(s') && s'.pools == s.pools
    ensures forall t :: t != token ==>
              At(ClaimSide(s, provider, id, token, share).value.rewards, RewardKey(id, t)) == At(s.rewards, RewardKey(id, t))
  {
    if share > 0 {
      var key := RewardKey(id, token);
      PotWriteKeeps(s, ClaimSide(s, provider, id, token, share).value, key, At(s.rewards, key) - share);
    }
  }

  lemma DepositRewardsKeeps(s: State, caller: Address, id: nat, token: Address, amount: int)
    requires Inv(s) && DepositRewards(s, caller, id, token, amount).Some?
    ensures var s' := DepositRewards(s, caller, id, token, amount).value.0;
            Inv(s') && s'.pools == s.pools
  {
    var key := RewardKey(id, token);
    PotWriteKeeps(s, DepositRewards(s, caller, id, token, amount).value.0, key, At(s.rewards, key) + amount);
  }

  lemma LedgerWriteKeeps(s: State, l: Ledger)
    requires Inv(s) && forall t :: Balance(l, t, SELF) >= Balance(s.ledger, t, SELF)
    ensures Inv(s.(ledger := l))
  {
    var s' := s.(ledger := l);
    SameShares(s, s');
    forall token ensures Covered(s', token) {
      assert Covered(s, token);
      assert Owed(s', token) == Owed(s, token);
    }
  }

  predicate Withdraws(op: Op, id: nat) {
    op.OpRemoveLiquidity? && op.id == id
  }

  lemma StepKeepsInvariant(s: State, op: Op)
    requires Inv(s)
    ensures Inv(Step(s, op))
  {
    hide Sum, Product, AddLiquidity, RemoveLiquidity, MultiHopSwap, ClaimRewards, DepositRewards, CreatePool;
    var s' := Step(s, op);
    if s' != s {
      match op
      case OpCreatePool(c, x, y, f) => CreatePoolKeeps(s, c, x, y, f);
      case OpAddLiquidity(c, id, a, b) => AddLiquidityKeeps(s, c, id, a, b);
      case OpRemoveLiquidity(c, id, n) => RemoveLiquidityKeeps(s, c, id, n);
      case OpSwap(c, id, t, n, m) =>
        var _, net, out := SwapTrades(s, c, id, t, n, m, true);
        TradeKeeps(s, s', id, t, net, out);
      case OpFlashSwap(c, id, x, n, y, m) =>
        var _, net, _ := FlashTrades(s, c, id, x, n, y, m);
        TradeKeeps(s, s', id, y, net, n);
      case OpMultiHop(c, r, m, l) => MultiHopKeeps(s, c, r, m, l);
      case OpDepositRewards(c, id, t, n) => DepositRewardsKeeps(s, c, id, t, n);
      case OpClaimRewards(c, id) => ClaimRewardsKeeps(s, c, id);
      case OpSetFeeConfig(c, x, b) => SameBooks(s, s');
      case OpSetMinLp(c, m) => SameBooks(s, s');
      case OpSetAdmin(c, a) => SameBooks(s, s');
      case OpTransfer(t, c, x, n) => LedgerWriteKeeps(s, s'.ledger);
      case OpMint(t, x, n) => LedgerWriteKeeps(s, s'.ledger);
    }
  }

  /** Only a withdrawal from a pool can lower that pool's reserve product. */
  lemma StepKeepsProduct(s: State, op: Op, id: nat)
    requires Inv(s) && id in s.pools && !Withdraws(op, id)
    ensures id in Step(s, op).pools && Product(Step(s, op).pools[id]) >= Product(s.pools[id])
  {
    hide Product, Solvent, SharesAgree, AddLiquidity, RemoveLiquidity, Swap, FlashSwap, MultiHopSwap, ClaimRewards;
    match op
    case OpAddLiquidity(c, j, a, b) =>
      if AddLiquidity(s, c, j, a, b).Some? { AddLiquidityGrows(s, c, j, a, b); }
    case OpSwap(c, j, t, n, m) =>
      if Swap(s, c, j, t, n, m, true).Some? { SwapGrows(s, c, j, t, n, m, true); }
    case OpFlashSwap(c, j, x, n, y, m) =>
      if FlashSwap(s, c, j, x, n, y, m).Some? { FlashGrows(s, c, j, x, n, y, m); }
    case OpMultiHop(c, r, m, l) =>
      if MultiHopSwap(s, c, r, m, l).Some? { MultiHopKeeps(s, c, r, m, l); }
    case OpClaimRewards(c, j) =>
      if ClaimRewards(s, c, j).Some? { ClaimRewardsKeeps(s, c, j); }
    case OpRemoveLiquidity(c, j, n) =>
      if RemoveLiquidity(s, c, j, n).Some? { RemoveTouchesOnePool(s, c, j, n); }
    case _ =>
  }

  lemma SameShares(s: State, s': State)
    requires SharesAgree(s) && s'.pools == s.pools && s'.lp == s.lp
    ensures SharesAgree(s')
  {
    forall j ensures SharesMatch(s', j) {
      assert SharesMatch(s, j);
    }
  }

  lemma SameBooks(s: State, s': State)
    requires Solvent(s) && SharesAgree(s)
    requires s'.pools == s.pools && s'.lp == s.lp && s'.rewards == s.rewards && s'.ledger == s.ledger
    ensures Solvent(s') && SharesAgree(s')
  {
    SameShares(s, s');
    forall token ensures Covered(s', token) {
      assert Covered(s, token);
    }
  }

  // ----- orders and deposits against one live pool -----

  /** Two swaps in one pool yield in total at most what one swap of both inputs yields. */
  lemma SwapSplitNeverHelps(s: State, user: Address, id: nat, tokenIn: Address, a: int, b: int, skim: bool)
    requires Records(s)
    requires var first := Swap(s, user, id, tokenIn, a, 0, skim);
             first.Some? && Swap(first.value.0, user, id, tokenIn, b, 0, skim).Some?
    ensures var (s1, o1) := Swap(s, user, id, tokenIn, a, 0, skim).value;
            var o2 := Swap(s1, user, id, tokenIn, b, 0, skim).value.1;
            var p := s.pools[id];
            o1 + o2 <= AmountOut(a + b, ReserveOf(p, tokenIn), ReserveOf(p, Partner(p, tokenIn)), p.feeBps)
  {
    hide AmountOut, ProtocolFee;
    var p := s.pools[id];
    NoShareNoSkim(a, p.feeBps);
    var (s1, o1) := Swap(s, user, id, tokenIn, a, 0, skim).value;
    SplitTwo(a, b, ReserveOf(p, tokenIn), ReserveOf(p, Partner(p, tokenIn)), p.feeBps, if skim then s.shareBps else 0);
  }

  /** A deposit into a live pool over-mints by less than one share: the product per squared share,
      with that one share set aside, does not fall. */
  lemma DepositOverMint(s: State, provider: Address, id: nat, a: int, b: int)
    requires Records(s) && AddLiquidity(s, provider, id, a, b).Some? && s.pools[id].supply > 0
    ensures var (s', minted) := AddLiquidity(s, provider, id, a, b).value;
            var supply, almost := s.pools[id].supply, s.pools[id].supply + minted - 1;
            Product(s'.pools[id]) * (supply * supply) >= Product(s.pools[id]) * (almost * almost)
  {
    var p := s.pools[id];
    var s', p', minted := AddLiquidityShape(s, provider, id, a, b);
    assert minted == LpMinted(p, a, b).value;
    MintOverByLessThanOne(p.reserveA, p.reserveB, p.supply, a, b, minted);
  }

  /** A withdrawal that passes the share and threshold checks is always paid: the account covers it. */
  lemma WithdrawalAlwaysPaid(s: State, provider: Address, id: nat, amount: int)
    requires Inv(s) && id in s.pools && provider != SELF && 0 < amount <= At(s.lp, LpKey(id, provider))
    requires var rest := At(s.lp, LpKey(id, provider)) - amount; rest == 0 || rest >= s.minLp
    ensures var p := s.pools[id];
            p.supply > 0 &&
            (RemoveLiquidity(s, provider, id, amount).Some? <==>
               amount * p.reserveA / p.supply > 0 && amount * p.reserveB / p.supply > 0)
  {
    HeldIsPartOfSupply(s, id, provider);
    var p := s.pools[id];
    WithdrawnPart(amount, p.reserveA, p.supply);
    WithdrawnPart(amount, p.reserveB, p.supply);
    ReserveCovered(s, id, p.tokenA);
    ReserveCovered(s, id, p.tokenB);
  }

  lemma ReserveCovered(s: State, id: nat, token: Address)
    requires Inv(s) && id in s.pools
    ensures ReserveOf(s.pools[id], token) <= Balance(s.ledger, token, SELF)
  {
    assert Covered(s, token);
    SumMember(Reserves(s.pools, token), id);
    SumNonNegative(Pots(s.rewards, token));
  }

  // ----- whole runs -----

  lemma InitialValid(admin: Address, collector: Option<Address>)
    ensures Inv(Initial(admin, collector))
  {
    var s := Initial(admin, collector);
    forall token ensures Owed(s, token) == 0 {
      assert Reserves(s.pools, token) == map[] && Pots(s.rewards, token) == map[];
    }
  }

  /** In every reachable state the contract's balance of each token covers all reserves and reward
      pots, each pool's shares sum to its supply, and a pool is either empty or live on both sides. */
  lemma {:induction false} RunKeepsInvariant(s: State, ops: seq<Op>)
    requires Inv(s)
    ensures Inv(Run(s, ops))
    decreases |ops|
  {
    if ops != [] {
      StepKeepsInvariant(s, ops[0]);
      RunKeepsInvariant(Step(s, ops[0]), ops[1..]);
    }
  }

  /** Over every run without a withdrawal from the pool, its reserve product never decreases. */
  lemma {:induction false} RunKeepsProduct(s: State, ops: seq<Op>, id: nat)
    requires Inv(s) && id in s.pools
    requires forall i :: 0 <= i < |ops| ==> !Withdraws(ops[i], id)
    ensures id in Run(s, ops).pools
    ensures Product(Run(s, ops).pools[id]) >= Product(s.pools[id])
    decreases |ops|
  {
    if ops != [] {
      StepKeepsInvariant(s, ops[0]);
      StepKeepsProduct(s, ops[0], id);
      RunKeepsProduct(Step(s, ops[0]), ops[1..], id);
    }
  }

  lemma LiveProductTradeOff(p: Pool, p': Pool)
    requires PoolValid(p) && p.supply > 0 && PoolValid(p') && Product(p') >= Product(p)
    ensures p'.reserveA < p.reserveA ==> p'.reserveB > p.reserveB
    ensures p'.reserveB < p.reserveB ==> p'.reserveA > p.reserveA
  {
    NoFreeLunch(p.reserveA, p.reserveB, p'.reserveA, p'.reserveB);
  }

  /** So no run without a withdrawal from the pool takes from one reserve without giving to the other. */
  lemma NoTradingCycleProfits(s: State, ops: seq<Op>, id: nat)
    requires Inv(s) && id in s.pools && s.pools[id].supply > 0
    requires forall i :: 0 <= i < |ops| ==> !Withdraws(ops[i], id)
    ensures id in Run(s, ops).pools
    ensures var p, p' := s.pools[id], Run(s, ops).pools[id];
            (p'.reserveA < p.reserveA ==> p'.reserveB > p.reserveB) &&
            (p'.reserveB < p.reserveB ==> p'.reserveA > p.reserveA)
  {
    RunKeepsInvariant(s, ops);
    RunKeepsProduct(s, ops, id);
    LiveProductTradeOff(s.pools[id], Run(s, ops).pools[id]);
  }
}
