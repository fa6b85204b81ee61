/** Collateralised lending as a state machine (contracts/collateral-management/src/lib.rs). */
module Lending {
  import opened Prelude
  import opened TokenLedger
  import opened LendingMath

  const MAX_LTV: nat := 9500
  const MAX_THRESHOLD: nat := 9800
  const MAX_BONUS: nat := 2000

  // ----- storage -----

  datatype Feed = Feed(code: nat)

  type Scale = k: int | k > 0 witness 1

  datatype Config = Config(feed: Feed, ltv: nat, threshold: nat, bonus: nat, cap: int, active: bool, scale: Scale)

  /** Registered collateral types and the prices known for their feeds. */
  datatype Market = Market(tokens: seq<Address>, configs: map<Address, Config>, prices: map<Feed, int>)

  type U32 = n: nat | n <= U32_MAX

  datatype Params = Params(debtCeiling: int, healthThreshold: U32, rates: RateModel, maxBorrow: int, maxCollateral: int)

  datatype Loan = Loan(
    borrower: Address, token: Address, principal: int, interest: int, debt: int,
    rate: nat, created: nat, last: nat, liquidated: bool, repaid: bool)

  datatype CollKey = CollKey(user: Address, token: Address)

  datatype State = State(
    admin: Address,
    paused: bool,
    params: Params,
    market: Market,
    coll: map<CollKey, int>,
    totalColl: map<Address, int>,
    loans: map<nat, Loan>,
    userLoans: map<Address, seq<nat>>,
    counter: nat,
    totalDebt: map<Address, int>,
    deposits: map<Address, int>,
    ledger: Ledger)

  function Initial(admin: Address, params: Params): State {
    State(admin, false, params, Market([], map[], map[]), map[], map[], map[], map[], 0, map[], map[], map[])
  }

  // ----- valuation -----

  predicate Closed(l: Loan) {
    l.liquidated || l.repaid
  }

  function IdsOf(userLoans: map<Address, seq<nat>>, user: Address): seq<nat> {
    if user in userLoans then userLoans[user] else []
  }

  function Held(m: Market, coll: map<CollKey, int>, user: Address): map<Address, int> {
    map t | t in m.tokens :: At(coll, CollKey(user, t))
  }

  function PriceOf(m: Market, c: Config): int {
    At(m.prices, c.feed)
  }

  function TokenValue(m: Market, held: map<Address, int>, t: Address): int {
    if At(held, t) > 0 && t in m.configs then Worth(At(held, t), PriceOf(m, m.configs[t]), m.configs[t].scale) else 0
  }

  function Value(m: Market, tokens: seq<Address>, held: map<Address, int>): int {
    if tokens == [] then 0
    else Value(m, tokens[..|tokens| - 1], held) + TokenValue(m, held, tokens[|tokens| - 1])
  }

  function ThresholdOf(m: Market, t: Address): int {
    if t in m.configs then m.configs[t].threshold else 0
  }

  function Weighted(m: Market, tokens: seq<Address>, held: map<Address, int>): int {
    if tokens == [] then 0
    else
      var t := tokens[|tokens| - 1];
      Weighted(m, tokens[..|tokens| - 1], held) + TokenValue(m, held, t) * ThresholdOf(m, t)
  }

  function WeightedThreshold(m: Market, held: map<Address, int>): int {
    var total := Value(m, m.tokens, held);
    if total <= 0 then 0 else Min(Weighted(m, m.tokens, held) / total, U32_MAX)
  }

  /** Every price the valuation reads is known; otherwise the oracle call aborts. */
  predicate Priced(m: Market, held: map<Address, int>) {
    forall t | t in m.tokens :: At(held, t) > 0 && t in m.configs ==> m.configs[t].feed in m.prices
  }

  /** Every listed loan exists; otherwise reading the debts aborts. */
  predicate Stored(loans: map<nat, Loan>, ids: seq<nat>) {
    forall id | id in ids :: id in loans
  }

  function UserDebt(loans: map<nat, Loan>, ids: seq<nat>, user: Address): int {
    if ids == [] then 0
    else
      var id, rest := ids[|ids| - 1], UserDebt(loans, ids[..|ids| - 1], user);
      if id in loans && !Closed(loans[id]) && loans[id].borrower == user then rest + loans[id].debt else rest
  }

  function UserDebtIn(loans: map<nat, Loan>, ids: seq<nat>, user: Address, token: Address): int {
    if ids == [] then 0
    else
      var id, rest := ids[|ids| - 1], UserDebtIn(loans, ids[..|ids| - 1], user, token);
      if id in loans && !Closed(loans[id]) && loans[id].borrower == user && loans[id].token == token
      then rest + loans[id].debt else rest
  }

  function HealthOf(m: Market, held: map<Address, int>, debt: int): int {
    HealthFactor(Value(m, m.tokens, held), debt, WeightedThreshold(m, held))
  }

  /** The health factor the protocol reports for a user. */
  function Health(s: State, user: Address): int {
    HealthOf(s.market, Held(s.market, s.coll, user), UserDebt(s.loans, IdsOf(s.userLoans, user), user))
  }

  // ----- loans -----

  function Charge(l: Loan, now: nat): int {
    if Closed(l) then 0 else AccruedInterest(l.principal, l.rate, now - l.last)
  }

  function AccrueLoan(l: Loan, now: nat): Loan {
    var i := Charge(l, now);
    if i > 0 then l.(interest := l.interest + i, debt := l.principal + l.interest + i, last := now) else l
  }

  /** Interest is paid before principal; paying everything closes the loan. */
  function Paid(l: Loan, amount: int, seized: bool): Loan {
    var fromInterest := Min(amount, l.interest);
    var l1 := l.(interest := l.interest - fromInterest, principal := l.principal - (amount - fromInterest), debt := l.debt - amount);
    if l1.debt > 0 then l1
    else if seized then l1.(liquidated := true, debt := 0, principal := 0, interest := 0)
    else l1.(repaid := true, debt := 0, principal := 0, interest := 0)
  }

  function OwnLoan(s: State, user: Address, id: nat): Option<Loan> {
    var _ :- Need(id in IdsOf(s.userLoans, user) && id in s.loans);
    Some(s.loans[id])
  }

  function WriteLoan(s: State, id: nat, l: Loan, delta: int): State {
    s.(loans := s.loans[id := l], totalDebt := s.totalDebt[l.token := At(s.totalDebt, l.token) + delta])
  }

  function AccrueOne(s: State, user: Address, id: nat, now: nat): Option<State> {
    var l :- OwnLoan(s, user, id);
    if Charge(l, now) > 0 then Some(WriteLoan(s, id, AccrueLoan(l, now), Charge(l, now))) else Some(s)
  }

  function AccrueEach(s: State, user: Address, ids: seq<nat>, now: nat): Option<State>
    decreases |ids|
  {
    if ids == [] then Some(s)
    else
      var s' :- AccrueOne(s, user, ids[0], now);
      AccrueEach(s', user, ids[1..], now)
  }

  // ----- administration -----

  predicate TermsAllowed(ltv: nat, threshold: nat, bonus: nat) {
    ltv <= MAX_LTV && ltv <= threshold <= MAX_THRESHOLD && bonus <= MAX_BONUS
  }

  function RegisterType(s: State, caller: Address, token: Address, feed: Feed, ltv: nat, threshold: nat, bonus: nat,
                        cap: int, scale: int): Option<(State, ())> {
    var _ :- Need(caller == s.admin && !s.paused && token !in s.market.configs);
    var _ :- Need(TermsAllowed(ltv, threshold, bonus) && cap >= 0 && scale > 0);
    var m := s.market;
    Some((s.(market := m.(tokens := m.tokens + [token],
                          configs := m.configs[token := Config(feed, ltv, threshold, bonus, cap, true, scale)])), ()))
  }

  function UpdateType(s: State, caller: Address, token: Address, ltv: nat, threshold: nat, bonus: nat, cap: int): Option<(State, ())> {
    var _ :- Need(caller == s.admin && !s.paused && token in s.market.configs && TermsAllowed(ltv, threshold, bonus));
    var m := s.market;
    var c := m.configs[token].(ltv := ltv, threshold := threshold, bonus := bonus, cap := cap);
    Some((s.(market := m.(configs := m.configs[token := c])), ()))
  }

  function SetActive(s: State, caller: Address, token: Address, active: bool): Option<(State, ())> {
    var _ :- Need(caller == s.admin && token in s.market.configs);
    var m := s.market;
    Some((s.(market := m.(configs := m.configs[token := m.configs[token].(active := active)])), ()))
  }

  function SetPrice(s: State, caller: Address, feed: Feed, price: int): Option<(State, ())> {
    var _ :- Need(caller == s.admin && price > 0);
    Some((s.(market := s.market.(prices := s.market.prices[feed := price])), ()))
  }

  function SetParams(s: State, caller: Address, params: Params): Option<(State, ())> {
    var _ :- Need(caller == s.admin);
    Some((s.(params := params), ()))
  }

  function SetPaused(s: State, caller: Address, paused: bool): Option<(State, ())> {
    var _ :- Need(caller == s.admin);
    Some((s.(paused := paused), ()))
  }

  // ----- collateral -----

  function WriteColl(s: State, user: Address, token: Address, delta: int, l: Ledger): State {
    var key := CollKey(user, token);
    s.(coll := s.coll[key := At(s.coll, key) + delta], totalColl := s.totalColl[token := At(s.totalColl, token) + delta], ledger := l)
  }

  function Deposit(s: State, user: Address, token: Address, amount: int): Option<(State, ())> {
    var _ :- Need(user != SELF && !s.paused && amount > 0 && token in s.market.configs);
    var c := s.market.configs[token];
    var _ :- Need(c.active && (c.cap > 0 ==> At(s.totalColl, token) + amount <= c.cap));
    var _ :- Need(s.params.maxCollateral > 0 ==> At(s.coll, CollKey(user, token)) + amount <= s.params.maxCollateral);
    var l :- Transfer(s.ledger, token, user, SELF, amount);
    Some((WriteColl(s, user, token, amount, l), ()))
  }

  /** Would the user stay healthy with `remaining` of `token`? */
  predicate SafeWith(s: State, user: Address, token: Address, remaining: int) {
    var debt := UserDebt(s.loans, IdsOf(s.userLoans, user), user);
    var held := Held(s.market, s.coll, user)[token := remaining];
    && Stored(s.loans, IdsOf(s.userLoans, user))
    && (debt > 0 ==> Priced(s.market, held) && HealthOf(s.market, held, debt) >= s.params.healthThreshold)
  }

  function Withdraw(s: State, user: Address, token: Address, amount: int): Option<(State, ())> {
    var have := At(s.coll, CollKey(user, token));
    var _ :- Need(user != SELF && !s.paused && amount > 0 && have >= amount && SafeWith(s, user, token, have - amount));
    var l :- Transfer(s.ledger, token, SELF, user, amount);
    Some((WriteColl(s, user, token, -amount, l), ()))
  }

  // ----- debt -----

  predicate MayBorrow(s: State, user: Address, amount: int) {
    var debt := UserDebt(s.loans, IdsOf(s.userLoans, user), user) + amount;
    var held := Held(s.market, s.coll, user);
    && Stored(s.loans, IdsOf(s.userLoans, user)) && Priced(s.market, held)
    && (debt > 0 ==> Value(s.market, s.market.tokens, held) > 0 && HealthOf(s.market, held, debt) >= s.params.healthThreshold)
  }

  function RateAt(rates: RateModel, borrowed: int, deposits: int): nat {
    var u := Utilization(borrowed, deposits);
    RateNonNegative(rates, u);
    InterestRate(rates, u)
  }

  function CurrentRate(s: State, token: Address): nat {
    RateAt(s.params.rates, At(s.totalDebt, token), At(s.deposits, token))
  }

  lemma RateNonNegative(m: RateModel, util: int)
    requires util >= 0
    ensures InterestRate(m, util) >= 0
  {
    if m.optimal > 0 {
      RampMonotone(m.slope1, util, util, m.optimal);
      if util > m.optimal && BPS - m.optimal > 0 {
        RampMonotone(m.slope2, util - m.optimal, util - m.optimal, BPS - m.optimal);
      }
    }
  }

  function NewLoan(s: State, user: Address, token: Address, amount: int, now: nat): State {
    var l := Loan(user, token, amount, 0, amount, CurrentRate(s, token), now, now, false, false);
    s.(loans := s.loans[s.counter := l],
       userLoans := s.userLoans[user := IdsOf(s.userLoans, user) + [s.counter]],
       counter := s.counter + 1,
       totalDebt := s.totalDebt[token := At(s.totalDebt, token) + amount])
  }

  /** A new loan is a loan written at the counter, its total raised, and listed under its borrower. */
  lemma NewLoanWrites(s: State, user: Address, token: Address, amount: int, now: nat)
    ensures var l := Loan(user, token, amount, 0, amount, RateAt(s.params.rates, At(s.totalDebt, token), At(s.deposits, token)),
                          now, now, false, false);
            NewLoan(s, user, token, amount, now) ==
              WriteLoan(s, s.counter, l, amount).(userLoans := s.userLoans[user := IdsOf(s.userLoans, user) + [s.counter]],
                                                  counter := s.counter + 1)
  {
    hide RateAt;
  }

  /** The caps are checked before interest accrues, the health after. */
  function Borrow(s: State, user: Address, token: Address, amount: int, now: nat): Option<(State, ())> {
    var ids := IdsOf(s.userLoans, user);
    var _ :- Need(user != SELF && !s.paused && amount > 0);
    var _ :- Need(s.params.maxBorrow > 0 ==> Stored(s.loans, ids) && UserDebtIn(s.loans, ids, user, token) + amount <= s.params.maxBorrow);
    var _ :- Need(s.params.debtCeiling > 0 ==> At(s.totalDebt, token) + amount <= s.params.debtCeiling);
    var s1 :- AccrueEach(s, user, ids, now);
    var _ :- Need(MayBorrow(s1, user, amount));
    var l :- Transfer(s1.ledger, token, SELF, user, amount);
    Some((NewLoan(s1, user, token, amount, now).(ledger := l), ()))
  }

  function Repay(s: State, user: Address, id: nat, amount: int, now: nat): Option<(State, ())> {
    var l :- OwnLoan(s, user, id);
    var _ :- Need(user != SELF && !s.paused && amount > 0 && !Closed(l));
    var l1 := AccrueLoan(l, now);
    var _ :- Need(amount <= l1.debt);
    var ledger :- Transfer(s.ledger, l.token, user, SELF, amount);
    Some((WriteLoan(s, id, Paid(l1, amount, false), Charge(l, now) - amount).(ledger := ledger), ()))
  }

  /** The first token of highest value among those held, as the search keeps only strictly better ones. */
  function BestToken(m: Market, tokens: seq<Address>, held: map<Address, int>): Option<Address> {
    if tokens == [] then None
    else
      var best, t := BestToken(m, tokens[..|tokens| - 1], held), tokens[|tokens| - 1];
      if At(held, t) > 0 && t in m.configs && (best.None? || TokenValue(m, held, t) > TokenValue(m, held, best.value))
      then Some(t) else best
  }

  /** What a liquidator covering up to `cover` of a debt of `debt` takes: the token, the debt covered and
      the collateral seized. The health check reads stored debts: the interest just accrued on this
      loan is not in them yet. */
  function SeizurePlan(s: State, borrower: Address, debt: int, cover: int): Option<(Address, int, int)> {
    var held := Held(s.market, s.coll, borrower);
    var _ :- Need(Stored(s.loans, IdsOf(s.userLoans, borrower)));
    var _ :- Need(Priced(s.market, held) && Health(s, borrower) < s.params.healthThreshold);
    var covered := Min(cover, debt);
    var token :- BestToken(s.market, s.market.tokens, held);
    var _ :- Need(token in s.market.configs);
    var c := s.market.configs[token];
    var seized := Seizure(covered, PriceOf(s.market, c), c.bonus);
    var _ :- Need(At(s.coll, CollKey(borrower, token)) >= seized);
    Some((token, covered, seized))
  }

  function Liquidate(s: State, liquidator: Address, borrower: Address, id: nat, cover: int, now: nat): Option<(State, ())> {
    var l :- OwnLoan(s, borrower, id);
    var _ :- Need(liquidator != SELF && !s.paused && cover > 0 && !Closed(l));
    var l1 := AccrueLoan(l, now);
    var (token, covered, seized) :- SeizurePlan(s, borrower, l1.debt, cover);
    var ledger1 :- Transfer(s.ledger, l.token, liquidator, SELF, covered);
    var ledger2 :- Transfer(ledger1, token, SELF, liquidator, seized);
    var s1 := WriteColl(s, borrower, token, -seized, ledger2);
    Some((WriteLoan(s1, id, Paid(l1, covered, true), Charge(l, now) - covered), ()))
  }

  function AccrueInterest(s: State, borrower: Address, id: nat, now: nat): Option<(State, ())> {
    var s' :- AccrueOne(s, borrower, id, now);
    Some((s', ()))
  }

  function AccrueAllInterest(s: State, borrower: Address, now: nat): Option<(State, ())> {
    var s' :- AccrueEach(s, borrower, IdsOf(s.userLoans, borrower), now);
    Some((s', ()))
  }

  /** Token movements between other accounts. */
  function Outside(s: State, token: Address, from: Address, to: Address, amount: int): Option<(State, ())> {
    var _ :- Need(from != SELF);
    var l :- Transfer(s.ledger, token, from, to, amount);
    Some((s.(ledger := l), ()))
  }

  // ----- runs -----

  datatype Op =
    | OpRegister(caller: Address, token: Address, feed: Feed, ltv: nat, threshold: nat, bonus: nat, cap: int, scale: int)
    | OpUpdate(caller: Address, token: Address, ltv: nat, threshold: nat, bonus: nat, cap: int)
    | OpSetActive(caller: Address, token: Address, active: bool)
    | OpSetPrice(caller: Address, feed: Feed, price: int)
    | OpSetParams(caller: Address, params: Params)
    | OpSetPaused(caller: Address, paused: bool)
    | OpDeposit(caller: Address, token: Address, amount: int)
    | OpWithdraw(caller: Address, token: Address, amount: int)
    | OpBorrow(caller: Address, token: Address, amount: int)
    | OpRepay(caller: Address, id: nat, amount: int)
    | OpLiquidate(caller: Address, borrower: Address, id: nat, amount: int)
    | OpAccrue(borrower: Address, id: nat)
    | OpAccrueAll(borrower: Address)
    | OpOutside(token: Address, from: Address, to: Address, amount: int)
    | OpIssue(token: Address, to: Address, issued: nat)

  function Step(s: State, op: Op, now: nat): State {
    match op
    case OpRegister(c, t, f, v, h, b, cap, k) => Commit(RegisterType(s, c, t, f, v, h, b, cap, k), s).0
    case OpUpdate(c, t, v, h, b, cap) => Commit(UpdateType(s, c, t, v, h, b, cap), s).0
    case OpSetActive(c, t, a) => Commit(SetActive(s, c, t, a), s).0
    case OpSetPrice(c, f, p) => Commit(SetPrice(s, c, f, p), s).0
    case OpSetParams(c, p) => Commit(SetParams(s, c, p), s).0
    case OpSetPaused(c, p) => Commit(SetPaused(s, c, p), s).0
    case OpDeposit(c, t, n) => Commit(Deposit(s, c, t, n), s).0
    case OpWithdraw(c, t, n) => Commit(Withdraw(s, c, t, n), s).0
    case OpBorrow(c, t, n) => Commit(Borrow(s, c, t, n, now), s).0
    case OpRepay(c, id, n) => Commit(Repay(s, c, id, n, now), s).0
    case OpLiquidate(c, b, id, n) => Commit(Liquidate(s, c, b, id, n, now), s).0
    case OpAccrue(b, id) => Commit(AccrueInterest(s, b, id, now), s).0
    case OpAccrueAll(b) => Commit(AccrueAllInterest(s, b, now), s).0
    case OpOutside(t, x, y, n) => Commit(Outside(s, t, x, y, n), s).0
    case OpIssue(t, x, n) => s.(ledger := s.ledger[Holding(t, x) := Balance(s.ledger, t, x) + n])
  }

  datatype Call = Call(op: Op, now: nat)

  function Run(s: State, calls: seq<Call>): State
    decreases |calls|
  {
    if calls == [] then s else Run(Step(s, calls[0].op, calls[0].now), calls[1..])
  }
}
