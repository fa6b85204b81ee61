/** What liquidity providers pay and receive, account by account: deposits, withdrawals and rewards told
    by when they succeed, the inequalities that fix their amounts, and every balance they change
    (contracts/amm/src/lib.rs). */
module AmmProviders {
  import opened Prelude
  import opened Arithmetic
  import opened TokenLedger
  import opened AmmMath
  import opened AmmPools
  import opened AmmRewards

  lemma TwoTransfers(l: Ledger, a: Movement, b: Movement) returns (l': Ledger)
    requires a.token != b.token && a.from == b.from && 0 <= a.amount <= Balance(l, a.token, a.from)
    requires 0 <= b.amount <= Balance(l, b.token, b.from)
    ensures var l1 := Transfer(l, a.token, a.from, a.to, a.amount);
            l1.Some? && Transfer(l1.value, b.token, b.from, b.to, b.amount) == Some(l')
    ensures Settles(l, l', [a, b])
  {
    hide Net, Transfer;
    NothingMoved(l);
    TransferSettles(l, l, [], a.token, a.from, a.to, a.amount);
    assert [] + [a] == [a] && a == Move(a.token, a.from, a.to, a.amount) && b == Move(b.token, b.from, b.to, b.amount);
    var l1 := Transfer(l, a.token, a.from, a.to, a.amount).value;
    TransferSettles(l, l1, [a], b.token, b.from, b.to, b.amount);
    l' := Transfer(l1, b.token, b.from, b.to, b.amount).value;
    assert [a] + [b] == [a, b];
  }

  // ----- deposits -----

  /** The shares a deposit earns: in an empty pool the root of the product, in a live one the lesser of the
      two proportional parts, each rounded up. */
  ghost predicate Earns(p: Pool, a: int, b: int, m: int) {
    if p.supply == 0 then m >= 0 && m * m <= a * b < (m + 1) * (m + 1)
    else
      && (m - 1) * p.reserveA < a * p.supply && (m - 1) * p.reserveB < b * p.supply
      && (m * p.reserveA >= a * p.supply || m * p.reserveB >= b * p.supply)
  }

  lemma EarnsExact(p: Pool, a: int, b: int, m: int)
    requires PoolValid(p) && a > 0 && b > 0
    ensures Earns(p, a, b, m) <==> LpMinted(p, a, b) == Some(m)
  {
    if p.supply == 0 {
      if Earns(p, a, b, m) {
        RootUnique(a * b, m, Root(a * b));
      }
    } else {
      MulNonNegative(a, p.supply);
      MulNonNegative(b, p.supply);
      DivCeil(m, a * p.supply, p.reserveA);
      DivCeil(m - 1, a * p.supply, p.reserveA);
      DivCeil(m, b * p.supply, p.reserveB);
      DivCeil(m - 1, b * p.supply, p.reserveB);
    }
  }

  ghost predicate DepositServed(s: State, provider: Address, id: nat, a: int, b: int, m: int) {
    && a > 0 && b > 0 && provider != SELF && id in s.pools && Earns(s.pools[id], a, b, m) && m > 0 && m >= s.minLp
    && (s.pools[id].supply > 0 ==> RatioAccepted(s.pools[id], a, b))
    && a <= Balance(s.ledger, s.pools[id].tokenA, provider) && b <= Balance(s.ledger, s.pools[id].tokenB, provider)
  }

  /** The pool and the provider's shares after a deposit or a withdrawal, and nothing else. */
  ghost predicate Resized(s: State, s': State, provider: Address, id: nat, a: int, b: int, m: int) {
    && id in s.pools
    && var p, key := s.pools[id], LpKey(id, provider);
       s' == s.(pools := s.pools[id := p.(reserveA := p.reserveA + a, reserveB := p.reserveB + b, supply := p.supply + m)],
                lp := s.lp[key := At(s.lp, key) + m], ledger := s'.ledger)
  }

  lemma DepositAccepted(s: State, provider: Address, id: nat, a: int, b: int, m: int)
    requires Inv(s) && DepositServed(s, provider, id, a, b, m)
    ensures AddLiquidity(s, provider, id, a, b).Some? &&
            var (s', minted) := AddLiquidity(s, provider, id, a, b).value;
            && minted == m && Resized(s, s', provider, id, a, b, m)
            && Settles(s.ledger, s'.ledger, [Move(s.pools[id].tokenA, provider, SELF, a), Move(s.pools[id].tokenB, provider, SELF, b)])
  {
    hide LpMinted, Earns, RatioAccepted, Settles, Transfer;
    var p := s.pools[id];
    EarnsExact(p, a, b, m);
    EmptyAccepts(p, a, b);
    var l := TwoTransfers(s.ledger, Move(p.tokenA, provider, SELF, a), Move(p.tokenB, provider, SELF, b));
  }

  lemma EmptyAccepts(p: Pool, a: int, b: int)
    requires b > 0 && PoolValid(p)
    ensures p.supply == 0 ==> RatioAccepted(p, a, b)
  {
  }

  lemma DepositWasServed(s: State, provider: Address, id: nat, a: int, b: int)
    requires Inv(s) && AddLiquidity(s, provider, id, a, b).Some?
    ensures DepositServed(s, provider, id, a, b, AddLiquidity(s, provider, id, a, b).value.1)
  {
    hide LpMinted, Earns, RatioAccepted;
    EarnsExact(s.pools[id], a, b, AddLiquidity(s, provider, id, a, b).value.1);
  }

  /** A deposit succeeds exactly when it is served, mints exactly what it earns, and moves exactly the two
      amounts from provider to pool. */
  lemma DepositExact(s: State, provider: Address, id: nat, a: int, b: int)
    requires Inv(s)
    ensures AddLiquidity(s, provider, id, a, b).Some? <==> exists m :: DepositServed(s, provider, id, a, b, m)
    ensures AddLiquidity(s, provider, id, a, b).Some? ==>
              var (s', m) := AddLiquidity(s, provider, id, a, b).value;
              && DepositServed(s, provider, id, a, b, m) && Resized(s, s', provider, id, a, b, m)
              && Settles(s.ledger, s'.ledger, [Move(s.pools[id].tokenA, provider, SELF, a), Move(s.pools[id].tokenB, provider, SELF, b)])
  {
    hide AddLiquidity, Settles, Resized;
    if AddLiquidity(s, provider, id, a, b).Some? {
      DepositWasServed(s, provider, id, a, b);
      DepositAccepted(s, provider, id, a, b, AddLiquidity(s, provider, id, a, b).value.1);
    }
    if m :| DepositServed(s, provider, id, a, b, m) {
      DepositAccepted(s, provider, id, a, b, m);
    }
  }

  /** What the ratio check means for the amounts: it admits every deposit within 499 basis points of the
      pool's price and none 501 away. */
  lemma RatioMeans(p: Pool, a: int, b: int)
    requires a > 0 && b > 0 && p.reserveA > 0 && p.reserveB > 0
    ensures var gap := (p.reserveA * b - a * p.reserveB) * BPS;
            var unit := b * p.reserveB;
            && (RatioAccepted(p, a, b) ==> -501 * unit < gap < 501 * unit)
            && (-499 * unit <= gap <= 499 * unit ==> RatioAccepted(p, a, b))
  {
    var x, y := p.reserveA * BPS / p.reserveB, a * BPS / b;
    DivBounds(p.reserveA * BPS, p.reserveB);
    DivBounds(a * BPS, b);
    RatioGap(p.reserveA * BPS, p.reserveB, x, a * BPS, b, y);
    assert p.reserveA * BPS * b - a * BPS * p.reserveB == (p.reserveA * b - a * p.reserveB) * BPS;
  }

  lemma Scaled(n: int, d: int, x: int, e: int)
    requires e > 0 && x * d <= n < x * d + d
    ensures x * (e * d) <= n * e < x * (e * d) + e * d
  {
    MulLe(x * d, n, e);
    MulLe(n + 1, x * d + d, e);
    assert x * d * e == x * (e * d) && (x * d + d) * e == x * (e * d) + e * d && (n + 1) * e == n * e + e;
  }

  /** The difference of two quotients is within one of the difference of their floors. */
  lemma RatioGap(n: int, d: int, x: int, m: int, e: int, y: int)
    requires d > 0 && e > 0 && x * d <= n < x * d + d && y * e <= m < y * e + e
    ensures forall k :: (x - y > k ==> n * e - m * d > k * (e * d)) && (x - y < k ==> n * e - m * d < k * (e * d))
  {
    Scaled(n, d, x, e);
    Scaled(m, e, y, d);
    assert d * e == e * d;
    GapBound(x, y, e * d, n * e, m * d);
  }

  lemma GapBound(x: int, y: int, u: int, a: int, b: int)
    requires u > 0 && x * u <= a < x * u + u && y * u <= b < y * u + u
    ensures forall k :: (x - y > k ==> a - b > k * u) && (x - y < k ==> a - b < k * u)
  {
    forall k ensures (x - y > k ==> a - b > k * u) && (x - y < k ==> a - b < k * u) {
      if x - y > k {
        MulLe(y + k + 1, x, u);
        assert (y + k + 1) * u == y * u + k * u + u;
      } else if x - y < k {
        MulLe(x + 1, y + k, u);
        assert (x + 1) * u == x * u + u && (y + k) * u == y * u + k * u;
      }
    }
  }

  // ----- withdrawals -----

  /** The holder's proportional part of a reserve, rounded down. */
  ghost predicate Part(amount: int, reserve: int, supply: int, part: int) {
    part * supply <= amount * reserve < (part + 1) * supply
  }

  ghost predicate WithdrawalServed(s: State, provider: Address, id: nat, amount: int, a: int, b: int) {
    && provider != SELF && id in s.pools && 0 < amount <= At(s.lp, LpKey(id, provider))
    && (amount == At(s.lp, LpKey(id, provider)) || At(s.lp, LpKey(id, provider)) - amount >= s.minLp)
    && Part(amount, s.pools[id].reserveA, s.pools[id].supply, a) && Part(amount, s.pools[id].reserveB, s.pools[id].supply, b)
    && a > 0 && b > 0
  }

  lemma PartExact(amount: int, reserve: int, supply: int, part: int)
    requires supply > 0
    ensures Part(amount, reserve, supply, part) <==> part == amount * reserve / supply
  {
    DivFloor(part, amount * reserve, supply);
    DivFloor(part + 1, amount * reserve, supply);
  }

  lemma WithdrawalAccepted(s: State, provider: Address, id: nat, amount: int, a: int, b: int)
    requires Inv(s) && WithdrawalServed(s, provider, id, amount, a, b)
    ensures RemoveLiquidity(s, provider, id, amount).Some? &&
            var (s', out) := RemoveLiquidity(s, provider, id, amount).value;
            && out == (a, b) && Resized(s, s', provider, id, -a, -b, -amount)
            && Settles(s.ledger, s'.ledger, [Move(s.pools[id].tokenA, SELF, provider, a), Move(s.pools[id].tokenB, SELF, provider, b)])
  {
    hide Settles, Transfer, Part;
    HeldIsPartOfSupply(s, id, provider);
    var p := s.pools[id];
    PartExact(amount, p.reserveA, p.supply, a);
    PartExact(amount, p.reserveB, p.supply, b);
    WithdrawnPart(amount, p.reserveA, p.supply);
    WithdrawnPart(amount, p.reserveB, p.supply);
    ReserveCovered(s, id, p.tokenA);
    ReserveCovered(s, id, p.tokenB);
    var l := TwoTransfers(s.ledger, Move(p.tokenA, SELF, provider, a), Move(p.tokenB, SELF, provider, b));
  }

  lemma WithdrawalWasServed(s: State, provider: Address, id: nat, amount: int)
    requires Inv(s) && RemoveLiquidity(s, provider, id, amount).Some?
    ensures var (a, b) := RemoveLiquidity(s, provider, id, amount).value.1; WithdrawalServed(s, provider, id, amount, a, b)
  {
    hide Part;
    var (a, b) := RemoveLiquidity(s, provider, id, amount).value.1;
    PartExact(amount, s.pools[id].reserveA, s.pools[id].supply, a);
    PartExact(amount, s.pools[id].reserveB, s.pools[id].supply, b);
  }

  /** A withdrawal succeeds exactly when it is served, burns exactly the shares asked for, and pays exactly
      the floored part of each reserve to the holder. */
  lemma WithdrawalExact(s: State, provider: Address, id: nat, amount: int)
    requires Inv(s)
    ensures RemoveLiquidity(s, provider, id, amount).Some? <==> exists a, b :: WithdrawalServed(s, provider, id, amount, a, b)
    ensures RemoveLiquidity(s, provider, id, amount).Some? ==>
              var (s', (a, b)) := RemoveLiquidity(s, provider, id, amount).value;
              && WithdrawalServed(s, provider, id, amount, a, b) && Resized(s, s', provider, id, -a, -b, -amount)
              && Settles(s.ledger, s'.ledger, [Move(s.pools[id].tokenA, SELF, provider, a), Move(s.pools[id].tokenB, SELF, provider, b)])
  {
    hide RemoveLiquidity, Settles, Resized;
    if RemoveLiquidity(s, provider, id, amount).Some? {
      WithdrawalWasServed(s, provider, id, amount);
      var (a, b) := RemoveLiquidity(s, provider, id, amount).value.1;
      WithdrawalAccepted(s, provider, id, amount, a, b);
    }
    if a, b :| WithdrawalServed(s, provider, id, amount, a, b) {
      WithdrawalAccepted(s, provider, id, amount, a, b);
    }
  }

  // ----- rewards -----

  /** A reward deposit moves exactly its amount from the administrator into the token's pot. */
  lemma RewardsDeposited(s: State, caller: Address, id: nat, token: Address, amount: int)
    ensures DepositRewards(s, caller, id, token, amount).Some? <==>
              caller == s.admin && caller != SELF && id in s.pools && token in {s.pools[id].tokenA, s.pools[id].tokenB}
              && 0 < amount <= Balance(s.ledger, token, caller)
    ensures DepositRewards(s, caller, id, token, amount).Some? ==>
              var s' := DepositRewards(s, caller, id, token, amount).value.0;
              && s' == s.(rewards := s'.rewards, ledger := s'.ledger)
              && Settles(s.ledger, s'.ledger, [Move(token, caller, SELF, amount)])
              && forall k :: At(s'.rewards, k) == At(s.rewards, k) + if k == RewardKey(id, token) then amount else 0
  {
    hide Settles;
    if DepositRewards(s, caller, id, token, amount).Some? {
      NothingMoved(s.ledger);
      TransferSettles(s.ledger, s.ledger, [], token, caller, SELF, amount);
      assert [] + [Move(token, caller, SELF, amount)] == [Move(token, caller, SELF, amount)];
    }
  }

  /** A claim pays the floored part of each pot to the holder and to no one else, and fails only if both
      parts are zero or the caller holds no shares. */
  lemma ClaimExact(s: State, provider: Address, id: nat) returns (a: int, b: int)
    requires Inv(s) && id in s.pools && provider != SELF && At(s.lp, LpKey(id, provider)) > 0
    ensures var p, held := s.pools[id], At(s.lp, LpKey(id, provider));
            && Part(held, At(s.rewards, RewardKey(id, p.tokenA)), p.supply, a)
            && Part(held, At(s.rewards, RewardKey(id, p.tokenB)), p.supply, b)
            && (ClaimRewards(s, provider, id).Some? <==> a > 0 || b > 0)
            && (a > 0 || b > 0 ==>
                  var (s', paid) := ClaimRewards(s, provider, id).value;
                  && paid == (a, b) && Claimed(s, s', provider, id, a, b)
                  && Settles(s.ledger, s'.ledger, [Move(p.tokenA, SELF, provider, a), Move(p.tokenB, SELF, provider, b)]))
  {
    hide Settles, Part, Inv, ClaimSide;
    var p, held := s.pools[id], At(s.lp, LpKey(id, provider));
    HeldIsPartOfSupply(s, id, provider);
    var potA, potB := At(s.rewards, RewardKey(id, p.tokenA)), At(s.rewards, RewardKey(id, p.tokenB));
    a, b := potA * held / p.supply, potB * held / p.supply;
    Swapped(potA, held);
    Swapped(potB, held);
    PartExact(held, potA, p.supply, a);
    PartExact(held, potB, p.supply, b);
    PotNonNegative(s, id, p);
    RewardShareBound(potA, held, p.supply);
    RewardShareBound(potB, held, p.supply);
    ClaimPays(s, provider, id);
    var s1 := SidePays(s, provider, id, p.tokenA, a);
    var s2 := SidePays(s1, provider, id, p.tokenB, b);
    SideSettles(s, s1, s2, provider, id, p.tokenA, a, p.tokenB, b);
  }

  lemma Swapped(x: int, y: int)
    ensures x * y == y * x
  {
  }

  lemma PotNonNegative(s: State, id: nat, p: Pool)
    requires Inv(s) && id in s.pools && p == s.pools[id]
    ensures At(s.rewards, RewardKey(id, p.tokenA)) >= 0 && At(s.rewards, RewardKey(id, p.tokenB)) >= 0 && p.tokenA != p.tokenB
  {
  }

  lemma SideSettles(s: State, s1: State, s2: State, provider: Address, id: nat, tokenA: Address, a: int, tokenB: Address, b: int)
    requires a >= 0 && b >= 0
    requires ClaimSide(s, provider, id, tokenA, a) == Some(s1) && ClaimSide(s1, provider, id, tokenB, b) == Some(s2)
    ensures Settles(s.ledger, s2.ledger, [Move(tokenA, SELF, provider, a), Move(tokenB, SELF, provider, b)])
  {
    hide Net, Transfer;
    var m1, m2 := Move(tokenA, SELF, provider, a), Move(tokenB, SELF, provider, b);
    NothingMoved(s.ledger);
    MaybePaid(s.ledger, s.ledger, s1.ledger, [], m1);
    assert [] + [m1] == [m1] && [m1] + [m2] == [m1, m2];
    MaybePaid(s.ledger, s1.ledger, s2.ledger, [m1], m2);
  }

  lemma MaybePaid(l: Ledger, l1: Ledger, l2: Ledger, moves: seq<Movement>, m: Movement)
    requires Settles(l, l1, moves)
    requires if m.amount == 0 then l2 == l1 else Transfer(l1, m.token, m.from, m.to, m.amount) == Some(l2)
    ensures Settles(l, l2, moves + [m])
  {
    hide Net, Transfer;
    if m.amount == 0 {
      var all := moves + [m];
      forall t, h ensures SettledFor(l, l2, all, t, h) {
        assert SettledFor(l, l1, moves, t, h);
        NetAppend(moves, m, t, h);
      }
    } else {
      TransferSettles(l, l1, moves, m.token, m.from, m.to, m.amount);
      assert m == Move(m.token, m.from, m.to, m.amount);
    }
  }
}
