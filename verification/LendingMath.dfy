/** Rates, interest, health and seizure of the lending protocol
    (contracts/collateral-management/src/math.rs). */
module LendingMath {
  import opened Prelude
  import opened Arithmetic

  const SECONDS_PER_YEAR: int := 365 * 24 * 60 * 60
  const U32_MAX: int := 0xFFFF_FFFF
  const HEALTH_WITHOUT_DEBT: int := 0x7FFF_FFFF_FFFF_FFFF_FFFF_FFFF_FFFF_FFFF / 2

  function Utilization(borrowed: int, deposits: int): int {
    if deposits <= 0 then 0
    else
      var u := RustDiv(borrowed * BPS, deposits);
      if u > BPS then BPS else if u < 0 then 0 else u
  }

  datatype RateModel = RateModel(base: nat, slope1: nat, slope2: nat, optimal: nat)

  /** The kinked rate curve. */
  function InterestRate(m: RateModel, util: int): int
    requires 0 <= util
  {
    if m.optimal == 0 then m.base
    else
      var rate :=
        if util <= m.optimal then m.base + m.slope1 * util / m.optimal
        else if BPS - m.optimal <= 0 then m.base + m.slope1 + m.slope2
        else m.base + m.slope1 + m.slope2 * (util - m.optimal) / (BPS - m.optimal);
      Min(rate, U32_MAX)
  }

  function AccruedInterest(principal: int, rateBps: nat, seconds: int): int {
    if principal <= 0 || rateBps == 0 || seconds <= 0 then 0
    else principal * rateBps * seconds / (BPS * SECONDS_PER_YEAR)
  }

  function HealthFactor(value: int, debt: int, thresholdBps: int): int {
    if debt <= 0 then HEALTH_WITHOUT_DEBT
    else if value <= 0 then 0
    else value * thresholdBps / debt
  }

  /** Collateral units seized for a covered debt, rounded up. */
  function Seizure(covered: int, price: int, bonusBps: nat): int {
    if covered <= 0 || price <= 0 then 0
    else
      var denominator := price * BPS;
      (covered * (BPS + bonusBps) + denominator - 1) / denominator
  }

  /** What the protocol's valuation says an amount of collateral is worth. */
  function Worth(amount: int, price: int, scale: int): int
    requires scale > 0
  {
    amount * price / scale
  }

  // ----- properties -----

  /** `slope * u / whole` rises with u from 0 to `slope`. */
  lemma RampMonotone(slope: nat, u: int, v: int, whole: int)
    requires 0 <= u <= v && whole > 0
    ensures 0 <= slope * u / whole <= slope * v / whole
    ensures u <= whole ==> slope * u / whole <= slope
  {
    MulLe(u, v, slope);
    MulNonNegative(slope, u);
    DivNonNegative(slope * u, whole);
    DivMonotone(slope * u, slope * v, whole);
    if u <= whole {
      MulLe(u, whole, slope);
      DivFloor(slope + 1, slope * u, whole);
    }
  }

  /** The rate never falls as utilisation rises. */
  lemma RateMonotone(m: RateModel, u: int, v: int)
    requires 0 <= u <= v
    ensures InterestRate(m, u) <= InterestRate(m, v)
  {
    if m.optimal > 0 {
      RampMonotone(m.slope1, u, v, m.optimal);
      if v > m.optimal && BPS - m.optimal > 0 {
        RampMonotone(m.slope2, if u <= m.optimal then 0 else u - m.optimal, v - m.optimal, BPS - m.optimal);
      }
    }
  }

  /** Valued at scale 1, the seized collateral is worth the covered debt plus bonus, and one unit
      less would not be. */
  lemma SeizureExact(covered: int, price: int, bonusBps: nat)
    requires covered > 0 && price > 0
    ensures var seized := Seizure(covered, price, bonusBps);
            && seized > 0
            && Worth(seized, price, 1) * BPS >= covered * (BPS + bonusBps)
            && Worth(seized - 1, price, 1) * BPS < covered * (BPS + bonusBps)
  {
    var seized := Seizure(covered, price, bonusBps);
    var n, d := covered * (BPS + bonusBps), price * BPS;
    assert n > 0 by { MulNonNegative(covered, bonusBps); }
    DivCeil(seized, n, d);
    DivCeil(seized - 1, n, d);
    DivCeil(0, n, d);
    assert seized * price / 1 == seized * price && (seized - 1) * price / 1 == (seized - 1) * price;
    assert seized * d == seized * price * BPS && (seized - 1) * d == (seized - 1) * price * BPS;
  }

  ghost predicate SeizureCovers(bonusBps: nat, scale: int)
    requires scale > 0
  {
    forall covered, price :: covered > 0 && price > 0 ==> CoversAt(covered, price, bonusBps, scale)
  }

  ghost predicate CoversAt(covered: int, price: int, bonusBps: nat, scale: int)
    requires scale > 0
  {
    Worth(Seizure(covered, price, bonusBps), price, scale) >= covered
  }

  /** Seizure ignores the price scale while valuation divides by it: whatever the admitted bonus, a
      liquidation always seizes collateral worth the debt it covers exactly when the scale is 1. */
  lemma SeizureCoversIff(bonusBps: nat, scale: int)
    requires scale > 0 && bonusBps <= 2000
    ensures SeizureCovers(bonusBps, scale) <==> scale == 1
  {
    if scale == 1 {
      forall covered, price | covered > 0 && price > 0 ensures CoversAt(covered, price, bonusBps, scale) {
        SeizureExact(covered, price, bonusBps);
        MulNonNegative(covered, bonusBps);
        assert covered * (BPS + bonusBps) == covered * BPS + covered * bonusBps;
      }
    } else {
      ScaledSeizureShort(bonusBps, scale);
    }
  }

  /** At price 1 and covered debt 10 the seized amount is at most 12, worth at most 6 at scale 2 or more. */
  lemma ScaledSeizureShort(bonusBps: nat, scale: int)
    requires scale >= 2 && bonusBps <= 2000
    ensures !CoversAt(10, 1, bonusBps, scale)
  {
    var seized := Seizure(10, 1, bonusBps);
    assert seized <= 12;
    DivFloor(10, seized * 1, scale);
  }

  // ----- interest over a schedule of accruals -----

  datatype Meter = Meter(charged: int, last: nat, charges: nat)

  /** One accrual call: a zero charge does not advance the clock. */
  function Accrual(m: Meter, principal: int, rateBps: nat, now: nat): Meter {
    var interest := AccruedInterest(principal, rateBps, now - m.last);
    if now > m.last && interest > 0 then Meter(m.charged + interest, now, m.charges + 1) else m
  }

  function Accruals(m: Meter, principal: int, rateBps: nat, times: seq<nat>): Meter
    decreases |times|
  {
    if times == [] then m else Accruals(Accrual(m, principal, rateBps, times[0]), principal, rateBps, times[1..])
  }

  /** The charge so far is the exact simple interest up to the last charge, short of it by less than
      one unit per charge. */
  ghost predicate Metered(m: Meter, principal: int, rateBps: nat, start: nat) {
    var d := BPS * SECONDS_PER_YEAR;
    && start <= m.last
    && m.charged * d <= principal * rateBps * (m.last - start)
    && principal * rateBps * (m.last - start) <= m.charged * d + m.charges * (d - 1)
  }

  lemma AccrualMeters(m: Meter, principal: int, rateBps: nat, start: nat, now: nat)
    requires principal >= 0 && Metered(m, principal, rateBps, start)
    ensures Metered(Accrual(m, principal, rateBps, now), principal, rateBps, start)
  {
    var d := BPS * SECONDS_PER_YEAR;
    var interest := AccruedInterest(principal, rateBps, now - m.last);
    if now > m.last && interest > 0 {
      var pr := principal * rateBps;
      DivBounds(pr * (now - m.last), d);
      assert pr * (now - start) == pr * (m.last - start) + pr * (now - m.last);
    }
  }

  lemma {:induction false} AccrualsMeter(m: Meter, principal: int, rateBps: nat, start: nat, times: seq<nat>)
    requires principal >= 0 && Metered(m, principal, rateBps, start)
    ensures Metered(Accruals(m, principal, rateBps, times), principal, rateBps, start)
    decreases |times|
  {
    if times != [] {
      AccrualMeters(m, principal, rateBps, start, times[0]);
      AccrualsMeter(Accrual(m, principal, rateBps, times[0]), principal, rateBps, start, times[1..]);
    }
  }

  /** Any schedule of accrual calls charges at most the interest of one call for the whole period, and
      falls short of it by at most the number of calls that charged something. */
  lemma ScheduleBound(principal: int, rateBps: nat, start: nat, times: seq<nat>, end: nat)
    requires principal >= 0 && start <= end && forall i :: 0 <= i < |times| ==> times[i] <= end
    ensures var m := Accruals(Meter(0, start, 0), principal, rateBps, times + [end]);
            var once := AccruedInterest(principal, rateBps, end - start);
            m.charged <= once <= m.charged + m.charges
  {
    var first := Accruals(Meter(0, start, 0), principal, rateBps, times);
    AccrualsMeter(Meter(0, start, 0), principal, rateBps, start, times);
    AccrualsSplit(Meter(0, start, 0), principal, rateBps, times, end);
    AccrualsWithin(Meter(0, start, 0), principal, rateBps, times, end);
    var m := Accrual(first, principal, rateBps, end);
    AccrualMeters(first, principal, rateBps, start, end);
    MeteredAtEnd(first, m, principal, rateBps, start, end);
  }

  lemma {:induction false} AccrualsSplit(m: Meter, principal: int, rateBps: nat, times: seq<nat>, end: nat)
    ensures Accruals(m, principal, rateBps, times + [end]) == Accrual(Accruals(m, principal, rateBps, times), principal, rateBps, end)
    decreases |times|
  {
    if times == [] {
      assert times + [end] == [end] && [end][1..] == [];
    } else {
      assert (times + [end])[1..] == times[1..] + [end];
      AccrualsSplit(Accrual(m, principal, rateBps, times[0]), principal, rateBps, times[1..], end);
    }
  }

  lemma {:induction false} AccrualsWithin(m: Meter, principal: int, rateBps: nat, times: seq<nat>, end: nat)
    requires m.last <= end && forall i :: 0 <= i < |times| ==> times[i] <= end
    ensures Accruals(m, principal, rateBps, times).last <= end
    decreases |times|
  {
    if times != [] {
      AccrualsWithin(Accrual(m, principal, rateBps, times[0]), principal, rateBps, times[1..], end);
    }
  }

  /** After a final call at `end`, the time left uncharged is worth less than one unit. */
  lemma MeteredAtEnd(first: Meter, m: Meter, principal: int, rateBps: nat, start: nat, end: nat)
    requires principal >= 0 && first.last <= end && m == Accrual(first, principal, rateBps, end)
    requires Metered(m, principal, rateBps, start)
    ensures var once := AccruedInterest(principal, rateBps, end - start);
            m.charged <= once <= m.charged + m.charges
  {
    var d, pr := BPS * SECONDS_PER_YEAR, principal * rateBps;
    MulNonNegative(principal, rateBps);
    MulNonNegative(pr, end - m.last);
    MulNonNegative(pr, end - start);
    assert pr * (end - start) == pr * (m.last - start) + pr * (end - m.last);
    UnchargedTail(first, m, principal, rateBps, end);
    DivFloor(m.charged, pr * (end - start), d);
    DivFloor(m.charged + m.charges + 1, pr * (end - start), d);
    if principal == 0 || rateBps == 0 || end == start {
      assert pr * (end - start) == 0;
    }
  }

  lemma UnchargedTail(first: Meter, m: Meter, principal: int, rateBps: nat, end: nat)
    requires principal >= 0 && first.last <= end && m == Accrual(first, principal, rateBps, end)
    ensures m.last <= end && principal * rateBps * (end - m.last) < BPS * SECONDS_PER_YEAR
  {
    var d, pr := BPS * SECONDS_PER_YEAR, principal * rateBps;
    if m == first {
      MulNonNegative(principal, rateBps);
      DivFloor(1, pr * (end - first.last), d);
      if principal == 0 || rateBps == 0 || end == first.last {
        assert pr * (end - first.last) == 0;
      }
    }
  }
}
