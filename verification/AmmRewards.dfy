/** What a liquidity provider can take out of the reward pots by claiming again and again: a claim
    leaves no mark on the provider (contracts/amm/src/lib.rs). */
module AmmRewards {
  import opened Prelude
  import opened MapSum
  import opened Arithmetic
  import opened TokenLedger
  import opened AmmPools

  // ----- one pot -----

  /** The pot after `k` claims by one holder: each takes the holder's share of what is left. */
  function AfterClaims(pot: int, held: int, supply: int, k: nat): int
    requires supply > 0
  {
    if k == 0 then pot
    else
      var rest := AfterClaims(pot, held, supply, k - 1);
      rest - rest * held / supply
  }

  function Taken(pot: int, held: int, supply: int, k: nat): int
    requires supply > 0
  {
    pot - AfterClaims(pot, held, supply, k)
  }

  lemma {:induction false} ClaimsShrink(pot: int, held: int, supply: int, j: nat, k: nat)
    requires pot >= 0 && 0 <= held <= supply && supply > 0 && j <= k
    ensures 0 <= AfterClaims(pot, held, supply, k) <= AfterClaims(pot, held, supply, j) <= pot
    decreases j + k
  {
    if k > 0 {
      ClaimsShrink(pot, held, supply, if j < k then j else j - 1, k - 1);
      RewardShareBound(AfterClaims(pot, held, supply, k - 1), held, supply);
    }
  }

  /** Once a claim pays nothing, none after it does. */
  lemma {:induction false} ClaimsRest(pot: int, held: int, supply: int, k: nat)
    requires supply > 0 && k >= 1
    requires AfterClaims(pot, held, supply, 1) * held / supply == 0
    ensures AfterClaims(pot, held, supply, k) == AfterClaims(pot, held, supply, 1)
    decreases k
  {
    if k > 1 {
      ClaimsRest(pot, held, supply, k - 1);
    }
  }

  /** A holder's claims together take more than the holder's share of the pot if and only if there is a
      second claim and what the first one leaves still yields a unit. */
  lemma ClaimsExceedShareIff(pot: int, held: int, supply: int, k: nat)
    requires pot >= 0 && 0 < held <= supply && k >= 1
    ensures Taken(pot, held, supply, k) >= pot * held / supply
    ensures Taken(pot, held, supply, k) * supply > pot * held <==> k >= 2 && (pot - pot * held / supply) * held >= supply
  {
    var share, left := pot * held / supply, AfterClaims(pot, held, supply, 1);
    assert left == pot - share by { assert AfterClaims(pot, held, supply, 0) == pot; }
    ClaimsShrink(pot, held, supply, 1, k);
    DivFloor(Taken(pot, held, supply, k), pot * held, supply);
    RewardShareBound(left, held, supply);
    DivFloor(1, left * held, supply);
    if k >= 2 && left * held >= supply {
      ClaimsShrink(pot, held, supply, 2, k);
      assert AfterClaims(pot, held, supply, 2) == left - left * held / supply;
    } else if k >= 2 {
      ClaimsRest(pot, held, supply, k);
    }
  }

  function Power(x: int, k: nat): int {
    if k == 0 then 1 else x * Power(x, k - 1)
  }

  lemma {:induction false} PowerNonNegative(x: int, k: nat)
    requires x >= 0
    ensures Power(x, k) >= 0
    decreases k
  {
    if k > 0 {
      PowerNonNegative(x, k - 1);
      MulNonNegative(x, Power(x, k - 1));
    }
  }

  /** However often a holder claims, the others' part of the pot, compounded per claim, is left in it. */
  lemma {:induction false} ClaimsLeave(pot: int, held: int, supply: int, k: nat)
    requires pot >= 0 && 0 <= held <= supply && supply > 0
    ensures pot * Power(supply - held, k) <= AfterClaims(pot, held, supply, k) * Power(supply, k)
    decreases k
  {
    if k > 0 {
      ClaimsLeave(pot, held, supply, k - 1);
      PowerNonNegative(supply, k - 1);
      LeaveOne(pot, held, supply, AfterClaims(pot, held, supply, k - 1), Power(supply - held, k - 1), Power(supply, k - 1));
    }
  }

  lemma LeaveOne(pot: int, held: int, supply: int, rest: int, p: int, q: int)
    requires 0 <= held <= supply && supply > 0 && q >= 0 && pot * p <= rest * q
    ensures pot * ((supply - held) * p) <= (rest - rest * held / supply) * (supply * q)
  {
    var u := supply - held;
    MulLe(pot * p, rest * q, u);
    DivBounds(rest * held, supply);
    assert (rest - rest * held / supply) * supply >= rest * supply - rest * held == rest * u;
    MulLe(rest * u, (rest - rest * held / supply) * supply, q);
    Regrouped(pot, u, p, rest, q, rest - rest * held / supply, supply);
  }

  lemma Regrouped(pot: int, u: int, p: int, rest: int, q: int, left: int, supply: int)
    ensures pot * (u * p) == pot * p * u && rest * q * u == rest * u * q && left * supply * q == left * (supply * q)
  {
  }

  // ----- the contract -----

  lemma PotCovered(s: State, key: RewardKey)
    requires Inv(s)
    ensures At(s.rewards, key) <= Balance(s.ledger, key.token, SELF)
  {
    assert Covered(s, key.token);
    SumMember(Pots(s.rewards, key.token), key);
    SumNonNegative(Reserves(s.pools, key.token));
  }

  /** One token's side of a claim by a shareholder never fails: it moves the share from pot to holder. */
  lemma SidePays(s: State, provider: Address, id: nat, token: Address, share: int) returns (s': State)
    requires Inv(s) && provider != SELF && 0 <= share <= At(s.rewards, RewardKey(id, token))
    ensures ClaimSide(s, provider, id, token, share) == Some(s') && Inv(s')
    ensures s'.pools == s.pools && s'.lp == s.lp
    ensures forall t :: At(s'.rewards, RewardKey(id, t)) == At(s.rewards, RewardKey(id, t)) - if t == token then share else 0
    ensures forall t :: Balance(s'.ledger, t, provider) == Balance(s.ledger, t, provider) + if t == token then share else 0
  {
    hide Inv;
    PotCovered(s, RewardKey(id, token));
    ClaimSideKeeps(s, provider, id, token, share);
    s' := ClaimSide(s, provider, id, token, share).value;
  }

  /** What one claim call does, paid or refused. */
  ghost predicate Claimed(s: State, s': State, provider: Address, id: nat, a: int, b: int)
    requires id in s.pools
  {
    var p := s.pools[id];
    && s'.pools == s.pools && s'.lp == s.lp
    && At(s'.rewards, RewardKey(id, p.tokenA)) == At(s.rewards, RewardKey(id, p.tokenA)) - a
    && At(s'.rewards, RewardKey(id, p.tokenB)) == At(s.rewards, RewardKey(id, p.tokenB)) - b
    && Balance(s'.ledger, p.tokenA, provider) == Balance(s.ledger, p.tokenA, provider) + a
    && Balance(s'.ledger, p.tokenB, provider) == Balance(s.ledger, p.tokenB, provider) + b
  }

  lemma ClaimPays(s: State, provider: Address, id: nat)
    requires Inv(s) && id in s.pools && provider != SELF && At(s.lp, LpKey(id, provider)) > 0
    ensures var p, held := s.pools[id], At(s.lp, LpKey(id, provider));
            p.supply > 0 &&
            Claimed(s, Step(s, OpClaimRewards(provider, id)), provider, id,
                    At(s.rewards, RewardKey(id, p.tokenA)) * held / p.supply, At(s.rewards, RewardKey(id, p.tokenB)) * held / p.supply)
  {
    hide ClaimSide, Sum;
    HeldIsPartOfSupply(s, id, provider);
    var p, held := s.pools[id], At(s.lp, LpKey(id, provider));
    var a := At(s.rewards, RewardKey(id, p.tokenA)) * held / p.supply;
    var b := At(s.rewards, RewardKey(id, p.tokenB)) * held / p.supply;
    RewardShareBound(At(s.rewards, RewardKey(id, p.tokenA)), held, p.supply);
    RewardShareBound(At(s.rewards, RewardKey(id, p.tokenB)), held, p.supply);
    if a > 0 || b > 0 {
      var s1 := SidePays(s, provider, id, p.tokenA, a);
      var s2 := SidePays(s1, provider, id, p.tokenB, b);
    }
  }

  function Claims(provider: Address, id: nat, k: nat): seq<Op> {
    seq(k, _ => OpClaimRewards(provider, id))
  }

  /** `k` claims in a row by one holder take from each pot what `Taken` says, and hand it to the holder. */
  lemma {:induction false} ClaimsTake(s: State, provider: Address, id: nat, k: nat)
    requires Inv(s) && id in s.pools && provider != SELF && At(s.lp, LpKey(id, provider)) > 0
    ensures var p, held := s.pools[id], At(s.lp, LpKey(id, provider));
            0 < held <= p.supply &&
            Claimed(s, Run(s, Claims(provider, id, k)), provider, id,
                    Taken(At(s.rewards, RewardKey(id, p.tokenA)), held, p.supply, k),
                    Taken(At(s.rewards, RewardKey(id, p.tokenB)), held, p.supply, k))
    decreases k
  {
    hide Inv, Step;
    HeldIsPartOfSupply(s, id, provider);
    if k > 0 {
      var op := OpClaimRewards(provider, id);
      var s1 := Step(s, op);
      ClaimPays(s, provider, id);
      StepKeepsInvariant(s, op);
      ClaimsTake(s1, provider, id, k - 1);
      assert Claims(provider, id, k)[1..] == Claims(provider, id, k - 1) && Claims(provider, id, k)[0] == op;
      var p, held := s.pools[id], At(s.lp, LpKey(id, provider));
      FirstClaim(At(s.rewards, RewardKey(id, p.tokenA)), held, p.supply, k);
      FirstClaim(At(s.rewards, RewardKey(id, p.tokenB)), held, p.supply, k);
    }
  }

  /** `k` claims are one claim and then the others. */
  lemma {:induction false} FirstClaim(pot: int, held: int, supply: int, k: nat)
    requires supply > 0 && k > 0
    ensures AfterClaims(pot, held, supply, k) == AfterClaims(pot - pot * held / supply, held, supply, k - 1)
    decreases k
  {
    assert AfterClaims(pot, held, supply, 0) == pot;
    if k > 1 {
      FirstClaim(pot, held, supply, k - 1);
    }
  }
}
