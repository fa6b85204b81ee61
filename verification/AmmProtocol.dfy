/** The single-pool AMM that rounds shares down (contracts/amm-protocol/src/lib.rs). */
module AmmProtocol {
  import opened Prelude
  import opened MapSum
  import opened Arithmetic
  import opened AmmMath

  datatype State = State(
    tokenA: Address, feeBps: nat, reserveA: int, reserveB: int, supply: int, lp: map<Address, int>)

  // ----- transitions -----

  function Initial(tokenA: Address, feeBps: nat): State {
    State(tokenA, feeBps, 0, 0, 0, map[])
  }

  function Minted(s: State, a: int, b: int): Option<int> {
    if s.supply == 0 then Some(a + b)
    else
      var _ :- Need(s.reserveA != 0 && s.reserveB != 0);
      Some(Min(RustDiv(a * s.supply, s.reserveA), RustDiv(b * s.supply, s.reserveB)))
  }

  function Deposit(s: State, user: Address, a: int, b: int): Option<(State, int)> {
    var _ :- Need(a > 0 && b > 0);
    var minted :- Minted(s, a, b);
    Some((s.(reserveA := s.reserveA + a, reserveB := s.reserveB + b, supply := s.supply + minted,
             lp := s.lp[user := At(s.lp, user) + minted]), minted))
  }

  function Withdraw(s: State, user: Address, amount: int): Option<(State, (int, int))> {
    var _ :- Need(amount > 0 && At(s.lp, user) >= amount && s.supply != 0);
    var a := RustDiv(amount * s.reserveA, s.supply);
    var b := RustDiv(amount * s.reserveB, s.supply);
    Some((s.(reserveA := s.reserveA - a, reserveB := s.reserveB - b, supply := s.supply - amount,
             lp := s.lp[user := At(s.lp, user) - amount]), (a, b)))
  }

  /** Output before any check; the fee is unchecked, so the traded input can be negative. */
  function SwapOut(amountIn: int, reserveIn: int, reserveOut: int, feeBps: nat): Option<int> {
    var traded := amountIn * (BPS - feeBps);
    var _ :- Need(reserveIn * BPS + traded != 0);
    Some(RustDiv(traded * reserveOut, reserveIn * BPS + traded))
  }

  /** Any token other than the first is taken to be the second. */
  function Swap(s: State, amountIn: int, minOut: int, tokenIn: Address): Option<(State, int)> {
    var _ :- Need(amountIn > 0);
    if tokenIn == s.tokenA then
      var out :- SwapOut(amountIn, s.reserveA, s.reserveB, s.feeBps);
      var _ :- Need(out >= minOut);
      Some((s.(reserveA := s.reserveA + amountIn, reserveB := s.reserveB - out), out))
    else
      var out :- SwapOut(amountIn, s.reserveB, s.reserveA, s.feeBps);
      var _ :- Need(out >= minOut);
      Some((s.(reserveB := s.reserveB + amountIn, reserveA := s.reserveA - out), out))
  }

  // ----- runs and the invariant -----

  datatype Op =
    | OpDeposit(user: Address, a: int, b: int)
    | OpWithdraw(user: Address, amount: int)
    | OpSwap(amountIn: int, minOut: int, tokenIn: Address)

  function Step(s: State, op: Op): State {
    match op
    case OpDeposit(u, a, b) => Commit(Deposit(s, u, a, b), s).0
    case OpWithdraw(u, n) => Commit(Withdraw(s, u, n), s).0
    case OpSwap(n, m, t) => Commit(Swap(s, n, m, t), s).0
  }

  function Run(s: State, ops: seq<Op>): State
    decreases |ops|
  {
    if ops == [] then s else Run(Step(s, ops[0]), ops[1..])
  }

  ghost predicate Inv(s: State) {
    && s.supply >= 0 && s.reserveA >= 0 && s.reserveB >= 0
    && (s.supply > 0 ==> s.reserveA > 0 && s.reserveB > 0)
    && (forall u :: u in s.lp ==> s.lp[u] >= 0)
    && Sum(s.lp) == s.supply
  }

  /** Shares stay outstanding from the start to the end of the run. */
  predicate Live(s: State, ops: seq<Op>)
    decreases |ops|
  {
    s.supply > 0 && (ops != [] ==> Live(Step(s, ops[0]), ops[1..]))
  }

  /** The reserve product per squared share is no lower in the second state. */
  ghost predicate ShareValueKept(s: State, s': State) {
    s.reserveA * s.reserveB * (s'.supply * s'.supply) <= s'.reserveA * s'.reserveB * (s.supply * s.supply)
  }

  // ----- one step -----

  lemma SideAfterDeposit(reserve: int, supply: int, a: int, minted: int)
    requires reserve > 0 && supply > 0 && a > 0 && minted <= a * supply / reserve
    ensures reserve * (supply + minted) <= (reserve + a) * supply
  {
    DivFloor(minted, a * supply, reserve);
    assert reserve * (supply + minted) == reserve * supply + minted * reserve;
    assert (reserve + a) * supply == reserve * supply + a * supply;
  }

  lemma SideAfterWithdrawal(reserve: int, supply: int, amount: int)
    requires reserve > 0 && 0 < amount <= supply
    ensures var out := amount * reserve / supply;
            reserve * (supply - amount) <= (reserve - out) * supply
  {
    var out := amount * reserve / supply;
    DivFloor(out, amount * reserve, supply);
    assert reserve * (supply - amount) == reserve * supply - amount * reserve;
    assert (reserve - out) * supply == reserve * supply - out * supply;
  }

  lemma SwapSides(amountIn: int, ri: int, ro: int, fee: nat)
    requires amountIn > 0 && ri > 0 && ro > 0 && fee <= BPS
    ensures SwapOut(amountIn, ri, ro, fee).Some?
    ensures var out := SwapOut(amountIn, ri, ro, fee).value;
            0 <= out < ro && ri * ro <= (ri + amountIn) * (ro - out)
  {
    var traded := amountIn * (BPS - fee);
    var den := ri * BPS + traded;
    MulNonNegative(amountIn, BPS - fee);
    MulNonNegative(traded, ro);
    var out := traded * ro / den;
    assert out == SwapOut(amountIn, ri, ro, fee).value;
    DivBounds(traded * ro, den);
    DivFloor(0, traded * ro, den);
    DivFloor(ro, traded * ro, den);
    assert ro * den == ro * ri * BPS + traded * ro;
    assert ro * ri > 0;
    assert out < ro;
    MulLe(traded, amountIn * BPS, ro - out);
    assert out * den == out * ri * BPS + out * traded;
    assert traded * (ro - out) == traded * ro - out * traded;
    assert amountIn * BPS * (ro - out) == amountIn * (ro - out) * BPS;
    CancelLe(out * ri, amountIn * (ro - out), BPS);
    assert (ri + amountIn) * (ro - out) == ri * ro - out * ri + amountIn * (ro - out);
  }

  lemma DepositKeeps(s: State, user: Address, a: int, b: int)
    requires Inv(s) && Deposit(s, user, a, b).Some?
    ensures var s' := Deposit(s, user, a, b).value.0;
            Inv(s') && (s.supply > 0 ==> ShareValueKept(s, s'))
  {
    var (s', minted) := Deposit(s, user, a, b).value;
    SumUpdate(s.lp, user, At(s.lp, user) + minted);
    SumMember(s.lp, user);
    if s.supply > 0 {
      MulNonNegative(a, s.supply);
      MulNonNegative(b, s.supply);
      DivNonNegative(a * s.supply, s.reserveA);
      DivNonNegative(b * s.supply, s.reserveB);
      SideAfterDeposit(s.reserveA, s.supply, a, minted);
      SideAfterDeposit(s.reserveB, s.supply, b, minted);
      MulNonNegative(s.reserveA, s'.supply);
      MulNonNegative(s.reserveB, s'.supply);
      ProductOfSides(s.reserveA, s.reserveB, s'.supply, s'.reserveA, s'.reserveB, s.supply);
    }
  }

  lemma WithdrawKeeps(s: State, user: Address, amount: int)
    requires Inv(s) && Withdraw(s, user, amount).Some?
    ensures var s' := Withdraw(s, user, amount).value.0;
            Inv(s') && ShareValueKept(s, s')
  {
    var s' := Withdraw(s, user, amount).value.0;
    SumUpdate(s.lp, user, At(s.lp, user) - amount);
    SumMember(s.lp, user);
    MulNonNegative(amount, s.reserveA);
    MulNonNegative(amount, s.reserveB);
    WithdrawnPart(amount, s.reserveA, s.supply);
    WithdrawnPart(amount, s.reserveB, s.supply);
    SideAfterWithdrawal(s.reserveA, s.supply, amount);
    SideAfterWithdrawal(s.reserveB, s.supply, amount);
    MulNonNegative(s.reserveA, s'.supply);
    MulNonNegative(s.reserveB, s'.supply);
    ProductOfSides(s.reserveA, s.reserveB, s'.supply, s'.reserveA, s'.reserveB, s.supply);
  }

  /** A swap against reserves with nothing to pay from pays nothing and only adds. */
  lemma EmptySwap(amountIn: int, ri: int, ro: int, fee: nat)
    requires amountIn > 0 && ri >= 0 && ro >= 0 && fee <= BPS && SwapOut(amountIn, ri, ro, fee).Some?
    ensures 0 <= SwapOut(amountIn, ri, ro, fee).value <= ro
  {
    var traded := amountIn * (BPS - fee);
    var den := ri * BPS + traded;
    MulNonNegative(amountIn, BPS - fee);
    MulNonNegative(traded, ro);
    MulLe(traded, den, ro);
    DivFloor(0, traded * ro, den);
    DivFloor(ro + 1, traded * ro, den);
    assert (ro + 1) * den == ro * den + den;
  }

  /** With a fee of at most 100% a swap keeps the invariant and the product. */
  lemma SwapKeeps(s: State, amountIn: int, minOut: int, tokenIn: Address)
    requires Inv(s) && Swap(s, amountIn, minOut, tokenIn).Some?
    ensures s.feeBps <= BPS ==>
              var s' := Swap(s, amountIn, minOut, tokenIn).value.0;
              Inv(s') && (s.supply > 0 ==> s.reserveA * s.reserveB <= s'.reserveA * s'.reserveB)
  {
    if s.feeBps > BPS {
      return;
    }
    if s.supply > 0 {
      FairFeeKeeps(s, amountIn, minOut, tokenIn);
      if tokenIn == s.tokenA {
        SwapSides(amountIn, s.reserveA, s.reserveB, s.feeBps);
      } else {
        SwapSides(amountIn, s.reserveB, s.reserveA, s.feeBps);
      }
    } else if tokenIn == s.tokenA {
      EmptySwap(amountIn, s.reserveA, s.reserveB, s.feeBps);
    } else {
      EmptySwap(amountIn, s.reserveB, s.reserveA, s.feeBps);
    }
  }

  /** Deposits and withdrawals keep the invariant and the value per share whatever the fee, swaps with a
      fee of at most 100%. */
  lemma StepKeeps(s: State, op: Op)
    requires Inv(s)
    ensures Step(s, op).feeBps == s.feeBps
    ensures s.feeBps <= BPS || !op.OpSwap? ==> Inv(Step(s, op)) && (s.supply > 0 ==> ShareValueKept(s, Step(s, op)))
  {
    match op
    case OpDeposit(u, a, b) =>
      if Deposit(s, u, a, b).Some? { DepositKeeps(s, u, a, b); }
    case OpWithdraw(u, n) =>
      if Withdraw(s, u, n).Some? { WithdrawKeeps(s, u, n); }
    case OpSwap(n, m, t) =>
      if Swap(s, n, m, t).Some? {
        SwapKeeps(s, n, m, t);
        var s' := Step(s, op);
        if s.supply > 0 && s.feeBps <= BPS {
          MulLe(s.reserveA * s.reserveB, s'.reserveA * s'.reserveB, s.supply * s.supply);
        }
      }
  }

  // ----- whole runs -----

  lemma InitialValid(tokenA: Address, feeBps: nat)
    ensures Inv(Initial(tokenA, feeBps))
  {
  }

  lemma {:induction false} FairRunKeeps(s: State, ops: seq<Op>)
    requires Inv(s) && s.feeBps <= BPS
    ensures Inv(Run(s, ops))
    decreases |ops|
  {
    if ops != [] {
      StepKeeps(s, ops[0]);
      FairRunKeeps(Step(s, ops[0]), ops[1..]);
    }
  }

  /** k0/S0^2 <= k1/S1^2 and k1/S1^2 <= k2/S2^2 give k0/S0^2 <= k2/S2^2. */
  lemma RatioTransitive(k0: int, q0: int, k1: int, q1: int, k2: int, q2: int)
    requires q0 >= 0 && q1 > 0 && q2 >= 0 && k0 * q1 <= k1 * q0 && k1 * q2 <= k2 * q1
    ensures k0 * q2 <= k2 * q0
  {
    MulLe(k0 * q1, k1 * q0, q2);
    MulLe(k1 * q2, k2 * q1, q0);
    assert k0 * q1 * q2 == k0 * q2 * q1;
    assert k1 * q0 * q2 == k1 * q2 * q0;
    assert k2 * q1 * q0 == k2 * q0 * q1;
    CancelLe(k0 * q2, k2 * q0, q1);
  }

  lemma ShareValueTransitive(s0: State, s1: State, s2: State)
    requires s1.supply > 0 && ShareValueKept(s0, s1) && ShareValueKept(s1, s2)
    ensures ShareValueKept(s0, s2)
  {
    RatioTransitive(s0.reserveA * s0.reserveB, s0.supply * s0.supply, s1.reserveA * s1.reserveB, s1.supply * s1.supply,
                    s2.reserveA * s2.reserveB, s2.supply * s2.supply);
  }

  /** Along every run of deposits, withdrawals and swaps that keeps shares outstanding, the
      reserve product per squared share never decreases. */
  lemma {:induction false} RunKeepsShareValue(s: State, ops: seq<Op>)
    requires Inv(s) && s.feeBps <= BPS && Live(s, ops)
    ensures Inv(Run(s, ops)) && ShareValueKept(s, Run(s, ops))
    decreases |ops|
  {
    if ops != [] {
      StepKeeps(s, ops[0]);
      RunKeepsShareValue(Step(s, ops[0]), ops[1..]);
      ShareValueTransitive(s, Step(s, ops[0]), Run(s, ops));
    }
  }

  /** Depositing into a live pool and withdrawing the minted shares returns at most what was paid in. */
  lemma DepositWithdrawLoses(s: State, user: Address, a: int, b: int)
    requires Inv(s) && s.supply > 0 && Deposit(s, user, a, b).Some?
    ensures var (s', minted) := Deposit(s, user, a, b).value;
            match Withdraw(s', user, minted)
            case Some((_, (backA, backB))) => backA <= a && backB <= b
            case None => minted <= 0
  {
    var (s', minted) := Deposit(s, user, a, b).value;
    DepositKeeps(s, user, a, b);
    SumMember(s.lp, user);
    if minted > 0 {
      MulNonNegative(a, s.supply);
      MulNonNegative(b, s.supply);
      BackAtMost(s.reserveA, s.supply, a, minted);
      BackAtMost(s.reserveB, s.supply, b, minted);
    }
  }

  lemma BackAtMost(reserve: int, supply: int, a: int, minted: int)
    requires reserve > 0 && supply > 0 && a > 0 && 0 < minted <= a * supply / reserve
    ensures 0 <= minted * (reserve + a)
    ensures minted * (reserve + a) / (supply + minted) <= a
  {
    DivFloor(minted, a * supply, reserve);
    MulNonNegative(minted, reserve + a);
    DivFloor(a + 1, minted * (reserve + a), supply + minted);
    assert minted * (reserve + a) == minted * reserve + minted * a;
    assert (a + 1) * (supply + minted) == a * supply + a * minted + supply + minted;
  }

  // ----- the fee the contract forgets to bound -----

  ghost predicate SwapKeepsReserves(s: State, amountIn: int, minOut: int, tokenIn: Address) {
    match Swap(s, amountIn, minOut, tokenIn)
    case Some((s', _)) => s.reserveA * s.reserveB <= s'.reserveA * s'.reserveB
    case None => true
  }

  /** Every swap keeps the product of a live pool exactly when the configured fee is at most 100%. */
  lemma FeeBoundNeeded(s: State)
    requires s.reserveA > 0 && s.reserveB > 0
    ensures s.feeBps <= BPS <==> forall n, m, t :: SwapKeepsReserves(s, n, m, t)
  {
    if s.feeBps <= BPS {
      forall n, m, t ensures SwapKeepsReserves(s, n, m, t) {
        FairFeeKeeps(s, n, m, t);
      }
    } else {
      HighFeeBreaks(s);
    }
  }

  lemma FairFeeKeeps(s: State, amountIn: int, minOut: int, tokenIn: Address)
    requires s.reserveA > 0 && s.reserveB > 0 && s.feeBps <= BPS
    ensures SwapKeepsReserves(s, amountIn, minOut, tokenIn)
  {
    if amountIn > 0 {
      if tokenIn == s.tokenA {
        SwapSides(amountIn, s.reserveA, s.reserveB, s.feeBps);
      } else {
        SwapSides(amountIn, s.reserveB, s.reserveA, s.feeBps);
        var out := SwapOut(amountIn, s.reserveB, s.reserveA, s.feeBps).value;
        Commutes(s.reserveB + amountIn, s.reserveA - out);
        Commutes(s.reserveB, s.reserveA);
      }
    }
  }

  lemma Commutes(x: int, y: int)
    ensures x * y == y * x
  {
  }

  lemma HighFeeBreaks(s: State)
    requires s.reserveA > 0 && s.reserveB > 0 && s.feeBps > BPS
    ensures !SwapKeepsReserves(s, s.reserveA * BPS + 1, 0, s.tokenA)
  {
    var n := s.reserveA * BPS + 1;
    OverpaidSwap(n, s.reserveA, s.reserveB, s.feeBps);
    NonPositiveProduct(s.reserveA + n, s.reserveB - SwapOut(n, s.reserveA, s.reserveB, s.feeBps).value);
    NonPositiveProduct(s.reserveA, -s.reserveB);
  }

  lemma NonPositiveProduct(x: int, y: int)
    requires x > 0 && y <= 0
    ensures x * y <= 0 && (y < 0 ==> x * -y > 0)
  {
  }

  /** With a fee above 100% a large enough input drains the other reserve and more. */
  lemma OverpaidSwap(n: int, ri: int, ro: int, fee: nat)
    requires ri > 0 && ro > 0 && fee > BPS && n > ri * BPS
    ensures SwapOut(n, ri, ro, fee).Some? && SwapOut(n, ri, ro, fee).value >= ro
  {
    var t := n * (fee - BPS);
    var d := t - ri * BPS;
    MulLe(1, fee - BPS, n);
    assert n * (BPS - fee) == -t;
    assert ri * BPS + n * (BPS - fee) == -d;
    assert -t * ro == -(t * ro);
    MulNonNegative(t, ro);
    MulLe(d, t, ro);
    DivFloor(ro, t * ro, d);
    assert SwapOut(n, ri, ro, fee).value == t * ro / d;
  }

  /** With such a fee one swap into a live pool leaves the invariant and the value per share behind. */
  lemma HighFeeSwap(s: State, op: Op)
    requires Inv(s) && s.supply > 0 && s.feeBps > BPS && op == OpSwap(s.reserveA * BPS + 1, 0, s.tokenA)
    ensures !Inv(Step(s, op)) && !ShareValueKept(s, Step(s, op)) && Step(s, op).supply == s.supply
  {
    var n := op.amountIn;
    OverpaidSwap(n, s.reserveA, s.reserveB, s.feeBps);
    var s' := Step(s, op);
    HighFeeBreaks(s);
    assert s'.supply == s.supply;
    CancelSupply(s.reserveA * s.reserveB, s'.reserveA * s'.reserveB, s.supply);
  }

  lemma CancelSupply(k: int, k': int, supply: int)
    requires supply > 0 && k' < k
    ensures k' * (supply * supply) < k * (supply * supply)
  {
    MulLe(k' + 1, k, supply * supply);
    assert (k' + 1) * (supply * supply) == k' * (supply * supply) + supply * supply;
  }

  /** The contract keeps its books over every run, from any valid state, exactly when its fee is at most
      100%; nothing in it checks that. */
  lemma RunKeepsInvariant(s: State)
    requires Inv(s)
    ensures s.feeBps <= BPS <==> forall ops :: Inv(Run(s, ops))
  {
    hide Run, Step;
    EmptyPool(s);
    hide Inv;
    if s.feeBps <= BPS {
      forall ops ensures Inv(Run(s, ops)) {
        FairRunKeeps(s, ops);
      }
    } else if s.supply > 0 {
      BreaksAtOnce(s);
    } else {
      BreaksAfterDeposit(s);
    }
  }

  lemma EmptyPool(s: State)
    requires Inv(s)
    ensures s.supply >= 0
  {
  }

  lemma BreaksAtOnce(s: State)
    requires Inv(s) && s.supply > 0 && s.feeBps > BPS
    ensures exists ops :: !Inv(Run(s, ops))
  {
    var op := OpSwap(s.reserveA * BPS + 1, 0, s.tokenA);
    HighFeeSwap(s, op);
    assert [op][1..] == [] && Run(s, [op]) == Step(s, op);
  }

  lemma BreaksAfterDeposit(s: State)
    requires Inv(s) && s.supply == 0 && s.feeBps > BPS
    ensures exists ops :: !Inv(Run(s, ops))
  {
    var deposit := OpDeposit(SELF, 1, 1);
    var s1 := Step(s, deposit);
    StepKeeps(s, deposit);
    assert s1.supply == 2;
    var op := OpSwap(s1.reserveA * BPS + 1, 0, s1.tokenA);
    HighFeeSwap(s1, op);
    var ops := [deposit, op];
    assert ops[1..] == [op] && [op][1..] == [] && Run(s1, [op]) == Step(s1, op) && Run(s, ops) == Run(s1, [op]);
  }

  ghost predicate ShareValueSafe(s: State, ops: seq<Op>) {
    Live(s, ops) ==> ShareValueKept(s, Run(s, ops))
  }

  /** And exactly then no live run lowers the reserve product per squared share. */
  lemma ShareValueIff(s: State)
    requires Inv(s) && s.supply > 0
    ensures s.feeBps <= BPS <==> forall ops :: ShareValueSafe(s, ops)
  {
    if s.feeBps <= BPS {
      forall ops ensures ShareValueSafe(s, ops) {
        if Live(s, ops) { RunKeepsShareValue(s, ops); }
      }
    } else {
      var op := OpSwap(s.reserveA * BPS + 1, 0, s.tokenA);
      HighFeeSwap(s, op);
      assert [op][1..] == [] && Run(s, [op]) == Step(s, op) && Live(s, [op]);
      assert !ShareValueSafe(s, [op]);
    }
  }

  // ----- the amounts, by the inequalities that fix them -----

  /** `q` is the greatest whole number of `d`s in `n`. */
  ghost predicate Floor(q: int, n: int, d: int) {
    q * d <= n < (q + 1) * d
  }

  lemma FloorExact(q: int, n: int, d: int)
    requires d > 0 && n >= 0
    ensures Floor(q, n, d) <==> RustDiv(n, d) == q
  {
    DivFloor(q, n, d);
    DivFloor(q + 1, n, d);
  }

  ghost predicate Recorded(s: State, s': State, user: Address, a: int, b: int, minted: int) {
    && s' == s.(reserveA := s.reserveA + a, reserveB := s.reserveB + b, supply := s.supply + minted, lp := s'.lp)
    && forall u :: At(s'.lp, u) == At(s.lp, u) + if u == user then minted else 0
  }

  /** A deposit of positive amounts always succeeds. It mints the sum in an empty pool; in a live one the most
      shares that both amounts pay for at the current price. */
  lemma DepositExact(s: State, user: Address, a: int, b: int)
    requires Inv(s)
    ensures Deposit(s, user, a, b).Some? <==> a > 0 && b > 0
    ensures Deposit(s, user, a, b).Some? ==>
              var (s', m) := Deposit(s, user, a, b).value;
              && Recorded(s, s', user, a, b, m)
              && (s.supply == 0 ==> m == a + b)
              && (s.supply > 0 ==>
                    && m * s.reserveA <= a * s.supply && m * s.reserveB <= b * s.supply
                    && ((m + 1) * s.reserveA > a * s.supply || (m + 1) * s.reserveB > b * s.supply))
  {
    if a > 0 && b > 0 && s.supply > 0 {
      MulNonNegative(a, s.supply);
      MulNonNegative(b, s.supply);
      var m := Deposit(s, user, a, b).value.1;
      DivFloor(m, a * s.supply, s.reserveA);
      DivFloor(m, b * s.supply, s.reserveB);
      DivFloor(m + 1, a * s.supply, s.reserveA);
      DivFloor(m + 1, b * s.supply, s.reserveB);
    }
  }

  /** A withdrawal succeeds exactly within the user's shares and pays the floored part of each reserve. */
  lemma WithdrawExact(s: State, user: Address, amount: int)
    requires Inv(s)
    ensures Withdraw(s, user, amount).Some? <==> 0 < amount <= At(s.lp, user)
    ensures Withdraw(s, user, amount).Some? ==>
              var (s', (a, b)) := Withdraw(s, user, amount).value;
              && Recorded(s, s', user, -a, -b, -amount)
              && Floor(a, amount * s.reserveA, s.supply) && Floor(b, amount * s.reserveB, s.supply)
  {
    hide Floor;
    SumMember(s.lp, user);
    if 0 < amount <= At(s.lp, user) {
      MulNonNegative(amount, s.reserveA);
      MulNonNegative(amount, s.reserveB);
      var (a, b) := Withdraw(s, user, amount).value.1;
      FloorExact(a, amount * s.reserveA, s.supply);
      FloorExact(b, amount * s.reserveB, s.supply);
    }
  }

  /** The output of a swap: the greatest that the input, less the fee, pays for on the product curve. */
  ghost predicate CurveOutput(o: int, amountIn: int, ri: int, ro: int, fee: nat) {
    var traded := amountIn * (BPS - fee);
    o * (ri * BPS) <= traded * (ro - o) && traded * (ro - (o + 1)) < (o + 1) * (ri * BPS)
  }

  lemma CurveOutputExact(o: int, amountIn: int, ri: int, ro: int, fee: nat)
    requires amountIn > 0 && ri > 0 && ro > 0 && fee <= BPS
    ensures CurveOutput(o, amountIn, ri, ro, fee) <==> SwapOut(amountIn, ri, ro, fee) == Some(o)
  {
    var traded := amountIn * (BPS - fee);
    var d := ri * BPS + traded;
    MulNonNegative(amountIn, BPS - fee);
    MulNonNegative(traded, ro);
    DivFloor(o, traded * ro, d);
    DivFloor(o + 1, traded * ro, d);
    CurveForm(o, traded, ri, ro);
    CurveForm(o + 1, traded, ri, ro);
  }

  lemma CurveForm(o: int, traded: int, ri: int, ro: int)
    ensures o * (ri * BPS + traded) <= traded * ro <==> o * (ri * BPS) <= traded * (ro - o)
  {
    assert o * (ri * BPS + traded) == o * (ri * BPS) + o * traded;
    assert traded * (ro - o) == traded * ro - o * traded;
  }

  /** A swap adds the whole input to one reserve and takes the output from the other, whatever the fee. In a
      live pool with a fee of at most 100% it succeeds exactly when the curve's output meets the minimum, and
      pays that output. */
  lemma SwapExact(s: State, amountIn: int, minOut: int, tokenIn: Address)
    requires Inv(s)
    ensures var isA := tokenIn == s.tokenA;
            var ri, ro := if isA then s.reserveA else s.reserveB, if isA then s.reserveB else s.reserveA;
            && (s.supply > 0 && s.feeBps <= BPS ==>
                  (Swap(s, amountIn, minOut, tokenIn).Some? <==> amountIn > 0 && exists o :: CurveOutput(o, amountIn, ri, ro, s.feeBps) && o >= minOut))
            && (Swap(s, amountIn, minOut, tokenIn).Some? ==>
                  var (s', o) := Swap(s, amountIn, minOut, tokenIn).value;
                  && amountIn > 0 && o >= minOut && (s.supply > 0 && s.feeBps <= BPS ==> CurveOutput(o, amountIn, ri, ro, s.feeBps))
                  && s' == s.(reserveA := s.reserveA + (if isA then amountIn else -o), reserveB := s.reserveB + (if isA then -o else amountIn)))
  {
    hide CurveOutput, SwapOut;
    var isA := tokenIn == s.tokenA;
    var ri, ro := if isA then s.reserveA else s.reserveB, if isA then s.reserveB else s.reserveA;
    if amountIn > 0 && s.supply > 0 && s.feeBps <= BPS {
      SwapSides(amountIn, ri, ro, s.feeBps);
      CurveOutputExact(SwapOut(amountIn, ri, ro, s.feeBps).value, amountIn, ri, ro, s.feeBps);
      if o :| CurveOutput(o, amountIn, ri, ro, s.feeBps) && o >= minOut {
        CurveOutputExact(o, amountIn, ri, ro, s.feeBps);
      }
    }
  }

  // ----- the contract object -----

  class Contract {
    const tokenA: Address
    const feeBps: nat
    var reserveA: int
    var reserveB: int
    var supply: int
    var lp: map<Address, int>

    ghost function View(): State
      reads this
    {
      State(tokenA, feeBps, reserveA, reserveB, supply, lp)
    }

    constructor (tokenA: Address, feeBps: nat)
      ensures View() == Initial(tokenA, feeBps)
    {
      this.tokenA, this.feeBps := tokenA, feeBps;
      reserveA, reserveB, supply, lp := 0, 0, 0, map[];
    }

    method DepositLiquidity(user: Address, a: int, b: int) returns (r: Option<int>)
      modifies this
      ensures (View(), r) == Commit(Deposit(old(View()), user, a, b), old(View()))
      ensures Inv(old(View())) ==> Inv(View())
    {
      hide Inv;
      if Inv(View()) { StepKeeps(View(), OpDeposit(user, a, b)); }
      var _ :- Need(a > 0 && b > 0);
      var minted;
      if supply == 0 {
        minted := a + b;
      } else {
        var _ :- Need(reserveA != 0 && reserveB != 0);
        var shareA := RustDiv(a * supply, reserveA);
        var shareB := RustDiv(b * supply, reserveB);
        minted := if shareA < shareB then shareA else shareB;
      }
      reserveA := reserveA + a;
      reserveB := reserveB + b;
      supply := supply + minted;
      lp := lp[user := At(lp, user) + minted];
      return Some(minted);
    }

    method WithdrawLiquidity(user: Address, amount: int) returns (r: Option<(int, int)>)
      modifies this
      ensures (View(), r) == Commit(Withdraw(old(View()), user, amount), old(View()))
      ensures Inv(old(View())) ==> Inv(View())
    {
      hide Inv;
      if Inv(View()) { StepKeeps(View(), OpWithdraw(user, amount)); }
      var _ :- Need(amount > 0);
      var held := At(lp, user);
      var _ :- Need(held >= amount && supply != 0);
      var a := RustDiv(amount * reserveA, supply);
      var b := RustDiv(amount * reserveB, supply);
      reserveA := reserveA - a;
      reserveB := reserveB - b;
      supply := supply - amount;
      lp := lp[user := held - amount];
      return Some((a, b));
    }

    method SwapExactTokens(amountIn: int, minOut: int, tokenIn: Address) returns (r: Option<int>)
      modifies this
      ensures (View(), r) == Commit(Swap(old(View()), amountIn, minOut, tokenIn), old(View()))
      ensures Inv(old(View())) && feeBps <= BPS ==> Inv(View())
    {
      hide Inv;
      if Inv(View()) { StepKeeps(View(), OpSwap(amountIn, minOut, tokenIn)); }
      var _ :- Need(amountIn > 0);
      var isA := tokenIn == tokenA;
      var reserveIn, reserveOut := if isA then reserveA else reserveB, if isA then reserveB else reserveA;
      var out :- SwapOut(amountIn, reserveIn, reserveOut, feeBps);
      var _ :- Need(out >= minOut);
      if isA {
        reserveA, reserveB := reserveIn + amountIn, reserveOut - out;
      } else {
        reserveB, reserveA := reserveIn + amountIn, reserveOut - out;
      }
      return Some(out);
    }
  }
}
