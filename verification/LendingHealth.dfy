/** What the protocol's numbers mean, told without its formulas: health as a coverage inequality over sums
    of collateral and debt, interest and rates in figures, and how a payment divides
    (contracts/collateral-management/src/lib.rs and math.rs). */
module LendingHealth {
  import opened Prelude
  import opened MapSum
  import opened Arithmetic
  import opened TokenLedger
  import opened LendingMath
  import opened Lending
  import opened LendingProofs

  // ----- collateral and debt as sums -----

  /** What a holding is worth: amount times price over scale, rounded down. */
  ghost function WorthOf(m: Market, held: map<Address, int>, t: Address): int {
    if At(held, t) > 0 && t in m.configs then At(held, t) * At(m.prices, m.configs[t].feed) / m.configs[t].scale else 0
  }

  /** The same weighted by the token's liquidation threshold. */
  ghost function WeightOf(m: Market, held: map<Address, int>, t: Address): int {
    if t in m.configs then WorthOf(m, held, t) * m.configs[t].threshold else 0
  }

  ghost function Worths(m: Market, held: map<Address, int>, tokens: seq<Address>): map<Address, int> {
    map t | t in tokens :: WorthOf(m, held, t)
  }

  ghost function WeightedWorths(m: Market, held: map<Address, int>, tokens: seq<Address>): map<Address, int> {
    map t | t in tokens :: WeightOf(m, held, t)
  }

  lemma OneMoreWorth(m: Market, held: map<Address, int>, init: seq<Address>, last: Address)
    requires last !in init
    ensures Sum(Worths(m, held, init + [last])) == Sum(Worths(m, held, init)) + WorthOf(m, held, last)
    ensures Sum(WeightedWorths(m, held, init + [last])) == Sum(WeightedWorths(m, held, init)) + WeightOf(m, held, last)
  {
    hide Sum, WorthOf, WeightOf;
    var w, ww := Worths(m, held, init), WeightedWorths(m, held, init);
    SumUpdate(w, last, WorthOf(m, held, last));
    SumUpdate(ww, last, WeightOf(m, held, last));
    assert Worths(m, held, init + [last]) == w[last := WorthOf(m, held, last)];
    assert WeightedWorths(m, held, init + [last]) == ww[last := WeightOf(m, held, last)];
  }

  lemma {:induction false} ValueIsSum(m: Market, held: map<Address, int>, tokens: seq<Address>)
    requires forall i, j :: 0 <= i < j < |tokens| ==> tokens[i] != tokens[j]
    ensures Value(m, tokens, held) == Sum(Worths(m, held, tokens))
    ensures Weighted(m, tokens, held) == Sum(WeightedWorths(m, held, tokens))
    decreases |tokens|
  {
    hide Sum, Worths, WeightedWorths;
    if tokens == [] {
      NoWorths(m, held);
    } else {
      var init, last := tokens[..|tokens| - 1], tokens[|tokens| - 1];
      assert tokens == init + [last] && last !in init;
      ValueIsSum(m, held, init);
      OneMoreWorth(m, held, init, last);
    }
  }

  lemma NoWorths(m: Market, held: map<Address, int>)
    ensures Sum(Worths(m, held, [])) == 0 && Sum(WeightedWorths(m, held, [])) == 0
  {
    assert Worths(m, held, []) == map[] && WeightedWorths(m, held, []) == map[];
  }

  lemma {:induction false} WeightedAtMost(m: Market, held: map<Address, int>, tokens: seq<Address>)
    requires MarketValid(m)
    ensures 0 <= Weighted(m, tokens, held) <= Value(m, tokens, held) * MAX_THRESHOLD && 0 <= Value(m, tokens, held)
    decreases |tokens|
  {
    if tokens != [] {
      var t := tokens[|tokens| - 1];
      WeightedAtMost(m, held, tokens[..|tokens| - 1]);
      if At(held, t) > 0 && t in m.configs {
        MulNonNegative(At(held, t), PriceOf(m, m.configs[t]));
        DivNonNegative(At(held, t) * PriceOf(m, m.configs[t]), m.configs[t].scale);
      }
      var v := TokenValue(m, held, t);
      MulNonNegative(v, ThresholdOf(m, t));
      MulLe(ThresholdOf(m, t), MAX_THRESHOLD, v);
    }
  }

  /** What a user owes, loan by loan, on the loans neither repaid nor liquidated. */
  ghost function OpenDebts(loans: map<nat, Loan>, user: Address): map<nat, int> {
    map id | id in loans && loans[id].borrower == user && !loans[id].liquidated && !loans[id].repaid :: loans[id].debt
  }

  ghost function DebtsOver(loans: map<nat, Loan>, ids: seq<nat>, user: Address): map<nat, int> {
    map id | id in ids && id in OpenDebts(loans, user) :: loans[id].debt
  }

  lemma OneMoreDebt(loans: map<nat, Loan>, init: seq<nat>, last: nat, user: Address)
    requires last !in init
    ensures Sum(DebtsOver(loans, init + [last], user)) == Sum(DebtsOver(loans, init, user))
              + if last in OpenDebts(loans, user) then loans[last].debt else 0
  {
    hide Sum;
    var m := DebtsOver(loans, init, user);
    if last in OpenDebts(loans, user) {
      SumUpdate(m, last, loans[last].debt);
      assert DebtsOver(loans, init + [last], user) == m[last := loans[last].debt];
    } else {
      assert DebtsOver(loans, init + [last], user) == m;
    }
  }

  lemma {:induction false} DebtOverList(loans: map<nat, Loan>, ids: seq<nat>, user: Address)
    requires forall i, j :: 0 <= i < j < |ids| ==> ids[i] != ids[j]
    ensures UserDebt(loans, ids, user) == Sum(DebtsOver(loans, ids, user))
    decreases |ids|
  {
    hide Sum, DebtsOver;
    if ids == [] {
      NoDebts(loans, user);
    } else {
      var init, last := ids[..|ids| - 1], ids[|ids| - 1];
      assert ids == init + [last] && last !in init;
      DebtOverList(loans, init, user);
      OneMoreDebt(loans, init, last, user);
    }
  }

  lemma NoDebts(loans: map<nat, Loan>, user: Address)
    ensures Sum(DebtsOver(loans, [], user)) == 0
  {
    assert DebtsOver(loans, [], user) == map[];
  }

  lemma DebtIsSum(s: State, user: Address)
    requires Inv(s)
    ensures UserDebt(s.loans, IdsOf(s.userLoans, user), user) == Sum(OpenDebts(s.loans, user))
  {
    hide Sum, DebtsAgree, CollateralAgrees;
    assert Listed(s.loans, s.userLoans, user);
    var ids := IdsOf(s.userLoans, user);
    DebtOverList(s.loans, ids, user);
    assert DebtsOver(s.loans, ids, user) == OpenDebts(s.loans, user);
  }

  // ----- health -----

  /** With what the user holds, a debt is covered at a threshold `h`: it is none, or the value times the
      value-weighted mean of the liquidation thresholds, floored, reaches `h` times it. */
  ghost predicate CoveredBy(m: Market, held: map<Address, int>, debt: int, h: int) {
    var v, w := Sum(Worths(m, held, m.tokens)), Sum(WeightedWorths(m, held, m.tokens));
    debt > 0 ==> h * debt <= v * (if v > 0 then w / v else 0)
  }

  ghost predicate Covered(s: State, user: Address, h: int) {
    CoveredBy(s.market, Held(s.market, s.coll, user), Sum(OpenDebts(s.loans, user)), h)
  }

  lemma CoverageMeans(m: Market, held: map<Address, int>, debt: int, h: U32)
    requires MarketValid(m)
    ensures HealthOf(m, held, debt) >= h <==> CoveredBy(m, held, debt, h)
  {
    hide Sum, Value, Weighted, Worths, WeightedWorths;
    ValueIsSum(m, held, m.tokens);
    WeightedAtMost(m, held, m.tokens);
    var v, w := Value(m, m.tokens, held), Weighted(m, m.tokens, held);
    if debt > 0 && v > 0 {
      DivFloor(MAX_THRESHOLD + 1, w, v);
      assert (MAX_THRESHOLD + 1) * v == MAX_THRESHOLD * v + v;
      DivFloor(h, v * (w / v), debt);
    } else if debt > 0 {
      MulNonNegative(h, debt);
      assert h > 0 ==> h * debt > 0;
    }
  }

  /** The reported health factor reaches a threshold exactly when the user's debts are covered at it. */
  lemma HealthMeans(s: State, user: Address, h: U32)
    requires Inv(s)
    ensures Health(s, user) >= h <==> Covered(s, user, h)
  {
    hide HealthOf, Inv;
    OnlyMarket(s);
    DebtIsSum(s, user);
    CoverageMeans(s.market, Held(s.market, s.coll, user), Sum(OpenDebts(s.loans, user)), h);
  }

  lemma OnlyMarket(s: State)
    requires Inv(s)
    ensures MarketValid(s.market)
  {
  }

  /** After a borrow or a withdrawal the user's debts are covered at the liquidation threshold. */
  lemma BorrowLeavesCovered(s: State, user: Address, token: Address, amount: int, now: nat)
    requires Inv(s) && Borrow(s, user, token, amount, now).Some?
    ensures Covered(Borrow(s, user, token, amount, now).value.0, user, s.params.healthThreshold)
  {
    hide Inv, Health, Borrow, Covered;
    BorrowLeavesHealthy(s, user, token, amount, now);
    BorrowKeeps(s, user, token, amount, now);
    HealthMeans(Borrow(s, user, token, amount, now).value.0, user, s.params.healthThreshold);
  }

  lemma WithdrawLeavesCovered(s: State, user: Address, token: Address, amount: int)
    requires Inv(s) && Withdraw(s, user, token, amount).Some?
    ensures Covered(Withdraw(s, user, token, amount).value.0, user, s.params.healthThreshold)
  {
    hide Inv, Health, Covered, SafeWith;
    WithdrawLeavesHealthy(s, user, token, amount);
    StepKeeps(s, OpWithdraw(user, token, amount), 0);
    HealthMeans(Withdraw(s, user, token, amount).value.0, user, s.params.healthThreshold);
  }

  /** Only a borrower whose stored debts are not covered is liquidated, and none whose debts, this loan's fresh
      interest counted, are. */
  lemma LiquidationNeedsUncovered(s: State, liquidator: Address, borrower: Address, id: nat, cover: int, now: nat)
    requires Inv(s) && Liquidate(s, liquidator, borrower, id, cover, now).Some?
    ensures !Covered(s, borrower, s.params.healthThreshold)
    ensures AccrueOne(s, borrower, id, now).Some? && !Covered(AccrueOne(s, borrower, id, now).value, borrower, s.params.healthThreshold)
  {
    hide Inv, Health, Covered, Liquidate, AccrueLoan, Charge;
    var token, covered, seized := LiquidationExact(s, liquidator, borrower, id, cover, now);
    var _, _, _, _ := LiquidateShape(s, liquidator, borrower, id, cover, now);
    HealthMeans(s, borrower, s.params.healthThreshold);
    AccrueOneKeeps(s, borrower, id, now);
    StaleCheckIsSafe(s, borrower, id, now);
    HealthMeans(AccrueOne(s, borrower, id, now).value, borrower, s.params.healthThreshold);
  }

  // ----- interest and rates in figures -----

  /** Simple interest: basis points of the principal per year of 365 days, for the seconds passed, rounded down. */
  ghost predicate Interest(principal: int, rateBps: nat, seconds: int, i: int) {
    if principal <= 0 || seconds <= 0 then i == 0
    else i * 315_360_000_000 <= principal * rateBps * seconds < (i + 1) * 315_360_000_000
  }

  lemma InterestMeans(principal: int, rateBps: nat, seconds: int, i: int)
    ensures Interest(principal, rateBps, seconds, i) <==> AccruedInterest(principal, rateBps, seconds) == i
  {
    var n := principal * rateBps * seconds;
    DivFloor(i, n, 315_360_000_000);
    DivFloor(i + 1, n, 315_360_000_000);
    if rateBps == 0 {
      assert n == 0;
    }
  }

  /** One year at `rateBps` costs exactly that many ten-thousandths of the principal. */
  lemma YearlyInterest(principal: int, rateBps: nat)
    requires principal >= 0
    ensures AccruedInterest(principal, rateBps, 31_536_000) == principal * rateBps / 10_000
  {
    var x := principal * rateBps;
    var q := x / 10_000;
    MulNonNegative(principal, rateBps);
    DivFloor(q, x, 10_000);
    DivFloor(q + 1, x, 10_000);
    YearScales(q, x);
    if principal > 0 {
      InterestMeans(principal, rateBps, 31_536_000, q);
    }
  }

  lemma YearScales(q: int, x: int)
    requires q * 10_000 <= x < (q + 1) * 10_000
    ensures q * 315_360_000_000 <= x * 31_536_000 < (q + 1) * 315_360_000_000
  {
  }

  /** Utilisation: the part of the deposits that is borrowed, in basis points, rounded down, at most all. */
  lemma UtilizationMeans(borrowed: int, deposits: int, u: int)
    requires borrowed >= 0 && deposits > 0
    ensures Utilization(borrowed, deposits) == u <==>
              if borrowed >= deposits then u == 10_000 else u * deposits <= borrowed * 10_000 < (u + 1) * deposits
  {
    MulNonNegative(borrowed, 10_000);
    DivFloor(u, borrowed * 10_000, deposits);
    DivFloor(u + 1, borrowed * 10_000, deposits);
    DivFloor(10_000, borrowed * 10_000, deposits);
    DivFloor(0, borrowed * 10_000, deposits);
  }

  /** `r` is the floor of the part `x` of `whole` of a slope. */
  ghost predicate Ramp(r: int, slope: nat, x: int, whole: int) {
    r * whole <= slope * x < (r + 1) * whole
  }

  /** The rate before it is capped: it rises from the base by the first slope up to the optimal utilisation,
      then by the second up to full utilisation; no optimum means the base alone. */
  ghost predicate Curve(m: RateModel, util: int, r: int) {
    if m.optimal == 0 then r == m.base
    else if util <= m.optimal then Ramp(r - m.base, m.slope1, util, m.optimal)
    else Ramp(r - m.base - m.slope1, m.slope2, util - m.optimal, 10_000 - m.optimal)
  }

  /** The rate is that curve, cut at the largest 32-bit number (the base alone is such a number already). */
  lemma RateMeans(m: RateModel, util: int, raw: int)
    requires 0 <= util <= 10_000 && m.base <= 4_294_967_295 && Curve(m, util, raw)
    ensures InterestRate(m, util) == if raw < 4_294_967_295 then raw else 4_294_967_295
  {
    if m.optimal > 0 {
      if util <= m.optimal {
        RampIs(raw - m.base, m.slope1, util, m.optimal);
      } else {
        RampIs(raw - m.base - m.slope1, m.slope2, util - m.optimal, 10_000 - m.optimal);
      }
    }
  }

  /** Every utilisation has a point on the curve. */
  lemma CurveIsTotal(m: RateModel, util: int) returns (raw: int)
    requires 0 <= util <= 10_000
    ensures Curve(m, util, raw)
  {
    if m.optimal == 0 {
      raw := m.base;
    } else if util <= m.optimal {
      raw := m.base + m.slope1 * util / m.optimal;
      RampIs(raw - m.base, m.slope1, util, m.optimal);
    } else {
      raw := m.base + m.slope1 + m.slope2 * (util - m.optimal) / (10_000 - m.optimal);
      RampIs(raw - m.base - m.slope1, m.slope2, util - m.optimal, 10_000 - m.optimal);
    }
  }

  lemma RampIs(r: int, slope: nat, x: int, whole: int)
    requires 0 <= x <= whole && whole > 0
    ensures Ramp(r, slope, x, whole) <==> r == slope * x / whole
    ensures 0 <= slope * x / whole <= slope
  {
    DivFloor(r, slope * x, whole);
    DivFloor(r + 1, slope * x, whole);
    RampMonotone(slope, x, x, whole);
  }

  // ----- payments -----

  /** A payment goes to interest first: principal falls only once no interest is left. A loan paid in full is
      closed as repaid or as liquidated; nothing else of it changes. */
  lemma PaymentDivides(l: Loan, amount: int, seized: bool)
    requires LoanValid(l) && !Closed(l) && 0 < amount <= l.debt
    ensures var l' := Paid(l, amount, seized);
            && l'.principal + l'.interest == l'.debt == l.debt - amount
            && 0 <= l'.interest <= l.interest && 0 <= l'.principal <= l.principal
            && (l'.principal < l.principal ==> l'.interest == 0)
            && (l'.repaid <==> l'.debt == 0 && !seized) && (l'.liquidated <==> l'.debt == 0 && seized)
            && l' == l.(principal := l'.principal, interest := l'.interest, debt := l'.debt, repaid := l'.repaid, liquidated := l'.liquidated)
  {
  }
}
