/** What holds of the lending protocol over whole runs. */
module LendingProofs {
  import opened Prelude
  import opened MapSum
  import opened Arithmetic
  import opened TokenLedger
  import opened LendingMath
  import opened Lending

  // ----- the ledger invariant -----

  /** Debt is principal plus interest, neither negative, and a loan is closed exactly when it owes nothing. */
  ghost predicate LoanValid(l: Loan) {
    && l.principal >= 0 && l.interest >= 0 && l.debt == l.principal + l.interest
    && (Closed(l) <==> l.debt == 0) && !(l.repaid && l.liquidated)
  }

  ghost function DebtsIn(loans: map<nat, Loan>, token: Address): map<nat, int> {
    map id | id in loans && loans[id].token == token :: loans[id].debt
  }

  ghost predicate DebtAgrees(loans: map<nat, Loan>, totalDebt: map<Address, int>, token: Address) {
    At(totalDebt, token) == Sum(DebtsIn(loans, token))
  }

  ghost predicate DebtsAgree(loans: map<nat, Loan>, totalDebt: map<Address, int>) {
    forall token :: DebtAgrees(loans, totalDebt, token)
  }

  ghost function CollIn(coll: map<CollKey, int>, token: Address): map<CollKey, int> {
    map k | k in coll && k.token == token :: coll[k]
  }

  ghost predicate CollAgrees(coll: map<CollKey, int>, totalColl: map<Address, int>, token: Address) {
    At(totalColl, token) == Sum(CollIn(coll, token))
  }

  ghost predicate CollateralAgrees(coll: map<CollKey, int>, totalColl: map<Address, int>) {
    && (forall k :: k in coll ==> coll[k] >= 0)
    && forall token :: CollAgrees(coll, totalColl, token)
  }

  /** The user's list holds each of the user's loans once and no one else's. */
  ghost predicate Listed(loans: map<nat, Loan>, userLoans: map<Address, seq<nat>>, user: Address) {
    var ids := IdsOf(userLoans, user);
    && (forall i, j :: 0 <= i < j < |ids| ==> ids[i] != ids[j])
    && forall id :: id in ids <==> id in loans && loans[id].borrower == user
  }

  ghost predicate AllListed(loans: map<nat, Loan>, userLoans: map<Address, seq<nat>>) {
    forall user :: Listed(loans, userLoans, user)
  }

  ghost predicate LoansValid(loans: map<nat, Loan>, counter: nat) {
    && (forall id: nat :: id in loans <==> id < counter)
    && forall id :: id in loans ==> LoanValid(loans[id])
  }

  ghost predicate MarketValid(m: Market) {
    && (forall i, j :: 0 <= i < j < |m.tokens| ==> m.tokens[i] != m.tokens[j])
    && (forall t :: t in m.tokens <==> t in m.configs)
    && (forall t :: t in m.configs ==> m.configs[t].threshold <= MAX_THRESHOLD)
    && forall f :: f in m.prices ==> m.prices[f] > 0
  }

  ghost predicate Inv(s: State) {
    && LoansValid(s.loans, s.counter)
    && DebtsAgree(s.loans, s.totalDebt)
    && CollateralAgrees(s.coll, s.totalColl)
    && AllListed(s.loans, s.userLoans)
    && MarketValid(s.market)
  }

  // ----- one loan rewritten -----

  lemma DebtsAfter(loans: map<nat, Loan>, id: nat, l: Loan, token: Address)
    requires id in loans ==> loans[id].token == l.token
    ensures Sum(DebtsIn(loans[id := l], token)) == Sum(DebtsIn(loans, token)) +
              if token == l.token then l.debt - (if id in loans then loans[id].debt else 0) else 0
  {
    hide Sum;
    var m, m' := DebtsIn(loans, token), DebtsIn(loans[id := l], token);
    if token == l.token {
      SumUpdate(m, id, l.debt);
      assert m' == m[id := l.debt];
    } else {
      assert m' == m;
    }
  }

  lemma DebtWrite(loans: map<nat, Loan>, totalDebt: map<Address, int>, id: nat, l: Loan, delta: int)
    requires DebtsAgree(loans, totalDebt) && (id in loans ==> loans[id].token == l.token)
    requires delta == l.debt - if id in loans then loans[id].debt else 0
    ensures DebtsAgree(loans[id := l], totalDebt[l.token := At(totalDebt, l.token) + delta])
  {
    hide Sum;
    var loans', totalDebt' := loans[id := l], totalDebt[l.token := At(totalDebt, l.token) + delta];
    forall token ensures DebtAgrees(loans', totalDebt', token) {
      assert DebtAgrees(loans, totalDebt, token);
      DebtsAfter(loans, id, l, token);
    }
  }

  lemma SameBorrower(loans: map<nat, Loan>, userLoans: map<Address, seq<nat>>, id: nat, l: Loan)
    requires AllListed(loans, userLoans) && id in loans && l.borrower == loans[id].borrower
    ensures AllListed(loans[id := l], userLoans)
  {
    var loans' := loans[id := l];
    forall u ensures Listed(loans', userLoans, u) {
      assert Listed(loans, userLoans, u);
    }
  }

  lemma LoanWriteKeeps(s: State, id: nat, l: Loan, delta: int)
    requires Inv(s) && id in s.loans && LoanValid(l)
    requires l.token == s.loans[id].token && l.borrower == s.loans[id].borrower && delta == l.debt - s.loans[id].debt
    ensures Inv(WriteLoan(s, id, l, delta))
  {
    hide DebtsAgree, AllListed, CollateralAgrees, MarketValid, LoanValid;
    DebtWrite(s.loans, s.totalDebt, id, l, delta);
    SameBorrower(s.loans, s.userLoans, id, l);
  }

  lemma ChargeNonNegative(l: Loan, now: nat)
    requires l.principal >= 0
    ensures Charge(l, now) >= 0
  {
    if !Closed(l) && l.principal > 0 && l.rate != 0 && now > l.last {
      MulNonNegative(l.principal, l.rate);
      MulNonNegative(l.principal * l.rate, now - l.last);
      DivNonNegative(l.principal * l.rate * (now - l.last), BPS * SECONDS_PER_YEAR);
    }
  }

  lemma AccrueLoanKeeps(l: Loan, now: nat)
    requires LoanValid(l)
    ensures LoanValid(AccrueLoan(l, now)) && AccrueLoan(l, now).debt == l.debt + Charge(l, now)
    ensures Closed(AccrueLoan(l, now)) == Closed(l)
  {
    hide AccruedInterest;
    ChargeNonNegative(l, now);
  }

  /** Paying part or all of the debt, interest first, leaves a valid loan that owes the rest. */
  lemma PaidKeeps(l: Loan, amount: int, seized: bool)
    requires LoanValid(l) && 0 < amount <= l.debt
    ensures LoanValid(Paid(l, amount, seized)) && Paid(l, amount, seized).debt == l.debt - amount
  {
  }

  lemma OwnLoanListed(s: State, user: Address, id: nat)
    requires Inv(s) && OwnLoan(s, user, id).Some?
    ensures id in s.loans && OwnLoan(s, user, id).value == s.loans[id]
    ensures s.loans[id].borrower == user && LoanValid(s.loans[id])
  {
    assert Listed(s.loans, s.userLoans, user);
  }

  lemma ListedIsStored(s: State, user: Address, id: nat)
    requires Inv(s) && id in IdsOf(s.userLoans, user)
    ensures id in s.loans && OwnLoan(s, user, id) == Some(s.loans[id])
  {
    assert Listed(s.loans, s.userLoans, user);
  }

  /** Only this user's loans and the debt totals differ. */
  ghost predicate OnlyLoansOf(s: State, s': State, user: Address) {
    && s' == s.(loans := s'.loans, totalDebt := s'.totalDebt)
    && s'.loans.Keys == s.loans.Keys
    && forall id :: id in s.loans && s.loans[id].borrower != user ==> s'.loans[id] == s.loans[id]
  }

  lemma AccrueOneKeeps(s: State, user: Address, id: nat, now: nat)
    requires Inv(s) && AccrueOne(s, user, id, now).Some?
    ensures var s' := AccrueOne(s, user, id, now).value;
            Inv(s') && OnlyLoansOf(s, s', user)
  {
    hide DebtsAgree, AllListed, CollateralAgrees, MarketValid, LoansValid, LoanValid, AccruedInterest;
    OwnLoanListed(s, user, id);
    var l := s.loans[id];
    AccrueLoanKeeps(l, now);
    if Charge(l, now) > 0 {
      LoanWriteKeeps(s, id, AccrueLoan(l, now), Charge(l, now));
    }
  }

  lemma {:induction false} AccrueEachKeeps(s: State, user: Address, ids: seq<nat>, now: nat)
    requires Inv(s) && AccrueEach(s, user, ids, now).Some?
    ensures var s' := AccrueEach(s, user, ids, now).value;
            Inv(s') && OnlyLoansOf(s, s', user)
    decreases |ids|
  {
    if ids != [] {
      AccrueOneKeeps(s, user, ids[0], now);
      var s1 := AccrueOne(s, user, ids[0], now).value;
      assert Listed(s.loans, s.userLoans, user) && Listed(s1.loans, s1.userLoans, user);
      AccrueEachKeeps(s1, user, ids[1..], now);
      ForeignStay(s, s1, user);
    }
  }

  lemma ForeignStay(s: State, s1: State, user: Address)
    requires Inv(s) && Inv(s1) && OnlyLoansOf(s, s1, user)
    ensures forall id :: id in s.loans && s.loans[id].borrower != user ==> s1.loans[id].borrower != user
  {
  }

  // ----- collateral rewritten -----

  lemma CollWrite(coll: map<CollKey, int>, totalColl: map<Address, int>, key: CollKey, delta: int)
    requires CollateralAgrees(coll, totalColl) && At(coll, key) + delta >= 0
    ensures CollateralAgrees(coll[key := At(coll, key) + delta], totalColl[key.token := At(totalColl, key.token) + delta])
  {
    hide Sum;
    var v := At(coll, key) + delta;
    var coll', totalColl' := coll[key := v], totalColl[key.token := At(totalColl, key.token) + delta];
    forall token ensures CollAgrees(coll', totalColl', token) {
      assert CollAgrees(coll, totalColl, token);
      var m := CollIn(coll, token);
      if token == key.token {
        SumUpdate(m, key, v);
        assert CollIn(coll', token) == m[key := v];
      } else {
        assert CollIn(coll', token) == m;
      }
    }
  }

  lemma CollWriteKeeps(s: State, user: Address, token: Address, delta: int, l: Ledger)
    requires Inv(s) && At(s.coll, CollKey(user, token)) + delta >= 0
    ensures Inv(WriteColl(s, user, token, delta, l))
  {
    hide CollateralAgrees, DebtsAgree, AllListed, LoansValid, MarketValid;
    CollWrite(s.coll, s.totalColl, CollKey(user, token), delta);
  }

  // ----- every step -----

  lemma HeldNonNegative(s: State, key: CollKey)
    requires Inv(s)
    ensures At(s.coll, key) >= 0
  {
  }

  lemma CollStepKeeps(s: State, op: Op, now: nat)
    requires Inv(s) && (op.OpDeposit? || op.OpWithdraw?)
    ensures Inv(Step(s, op, now))
  {
    hide Inv, SafeWith;
    HeldNonNegative(s, CollKey(op.caller, op.token));
    var s' := Step(s, op, now);
    if s' != s {
      CollWriteKeeps(s, op.caller, op.token, if op.OpDeposit? then op.amount else -op.amount, s'.ledger);
    }
  }

  lemma ListedWithNew(loans: map<nat, Loan>, userLoans: map<Address, seq<nat>>, user: Address, id: nat, l: Loan)
    requires AllListed(loans, userLoans) && id !in loans && l.borrower == user
    ensures AllListed(loans[id := l], userLoans[user := IdsOf(userLoans, user) + [id]])
  {
    var loans', userLoans' := loans[id := l], userLoans[user := IdsOf(userLoans, user) + [id]];
    forall u ensures Listed(loans', userLoans', u) {
      assert Listed(loans, userLoans, u);
    }
  }

  lemma NewLoanKeeps(s: State, user: Address, token: Address, amount: int, now: nat, ledger: Ledger)
    requires Inv(s) && amount > 0
    ensures Inv(NewLoan(s, user, token, amount, now).(ledger := ledger))
  {
    hide DebtsAgree, AllListed, CollateralAgrees, MarketValid, CurrentRate;
    var l := NewLoan(s, user, token, amount, now).loans[s.counter];
    DebtWrite(s.loans, s.totalDebt, s.counter, l, amount);
    ListedWithNew(s.loans, s.userLoans, user, s.counter, l);
  }

  lemma BorrowKeeps(s: State, user: Address, token: Address, amount: int, now: nat)
    requires Inv(s) && Borrow(s, user, token, amount, now).Some?
    ensures Inv(Borrow(s, user, token, amount, now).value.0)
  {
    hide Inv, MayBorrow, NewLoan, AccrueEach, UserDebtIn;
    var ids := IdsOf(s.userLoans, user);
    AccrueEachKeeps(s, user, ids, now);
    var s' := Borrow(s, user, token, amount, now).value.0;
    NewLoanKeeps(AccrueEach(s, user, ids, now).value, user, token, amount, now, s'.ledger);
  }

  lemma RepayKeeps(s: State, user: Address, id: nat, amount: int, now: nat)
    requires Inv(s) && Repay(s, user, id, amount, now).Some?
    ensures Inv(Repay(s, user, id, amount, now).value.0)
  {
    hide Inv, LoanValid, Paid, AccrueLoan, Charge;
    OwnLoanListed(s, user, id);
    var l := s.loans[id];
    AccrueLoanKeeps(l, now);
    var l1 := AccrueLoan(l, now);
    PaidKeeps(l1, amount, false);
    TermsKept(l, now, amount, false);
    LoanWriteKeeps(s, id, Paid(l1, amount, false), Charge(l, now) - amount);
    var s' := Repay(s, user, id, amount, now).value.0;
    LedgerOnly(WriteLoan(s, id, Paid(l1, amount, false), Charge(l, now) - amount), s'.ledger);
  }

  lemma TermsKept(l: Loan, now: nat, amount: int, seized: bool)
    ensures var l' := Paid(AccrueLoan(l, now), amount, seized);
            l'.token == l.token && l'.borrower == l.borrower
    ensures AccrueLoan(l, now).token == l.token && AccrueLoan(l, now).borrower == l.borrower
  {
  }

  lemma LedgerOnly(s: State, ledger: Ledger)
    requires Inv(s)
    ensures Inv(s.(ledger := ledger))
  {
  }

  /** What a successful liquidation did. */
  lemma LiquidateShape(s: State, liquidator: Address, borrower: Address, id: nat, cover: int, now: nat)
    returns (token: Address, covered: int, seized: int, ledger: Ledger)
    requires Liquidate(s, liquidator, borrower, id, cover, now).Some?
    ensures OwnLoan(s, borrower, id).Some?
    ensures var l := OwnLoan(s, borrower, id).value; var l1 := AccrueLoan(l, now);
            && !Closed(l) && cover > 0 && covered == Min(cover, l1.debt)
            && SeizurePlan(s, borrower, l1.debt, cover) == Some((token, covered, seized))
            && Health(s, borrower) < s.params.healthThreshold
            && BestToken(s.market, s.market.tokens, Held(s.market, s.coll, borrower)) == Some(token)
            && token in s.market.configs
            && seized == Seizure(covered, PriceOf(s.market, s.market.configs[token]), s.market.configs[token].bonus)
            && seized <= At(s.coll, CollKey(borrower, token))
            && (forall t :: Balance(ledger, t, SELF) == Balance(s.ledger, t, SELF)
                                                       + (if t == l.token then covered else 0) - (if t == token then seized else 0))
            && Liquidate(s, liquidator, borrower, id, cover, now).value.0
               == WriteLoan(WriteColl(s, borrower, token, -seized, ledger), id, Paid(l1, covered, true), Charge(l, now) - covered)
  {
    hide Health, BestToken, Seizure, AccrueLoan, Charge, Paid, Priced, WriteLoan, WriteColl;
    token := BestToken(s.market, s.market.tokens, Held(s.market, s.coll, borrower)).value;
    var l := OwnLoan(s, borrower, id).value;
    covered := Min(cover, AccrueLoan(l, now).debt);
    seized := Seizure(covered, PriceOf(s.market, s.market.configs[token]), s.market.configs[token].bonus);
    ledger := Transfer(Transfer(s.ledger, l.token, liquidator, SELF, covered).value, token, SELF, liquidator, seized).value;
  }

  lemma LiquidateKeeps(s: State, liquidator: Address, borrower: Address, id: nat, cover: int, now: nat)
    requires Inv(s) && Liquidate(s, liquidator, borrower, id, cover, now).Some?
    ensures Inv(Liquidate(s, liquidator, borrower, id, cover, now).value.0)
  {
    hide Inv, Paid, AccrueLoan, Charge, Seizure, Health, BestToken, Liquidate;
    var token, covered, seized, ledger := LiquidateShape(s, liquidator, borrower, id, cover, now);
    OwnLoanListed(s, borrower, id);
    var l := s.loans[id];
    AccrueLoanKeeps(l, now);
    ChargeNonNegative(l, now);
    PaidKeeps(AccrueLoan(l, now), covered, true);
    TermsKept(l, now, covered, true);
    CollWriteKeeps(s, borrower, token, -seized, ledger);
    LoanWriteKeeps(WriteColl(s, borrower, token, -seized, ledger), id, Paid(AccrueLoan(l, now), covered, true), Charge(l, now) - covered);
  }

  lemma AdminStepKeeps(s: State, op: Op, now: nat)
    requires Inv(s)
    requires op.OpRegister? || op.OpUpdate? || op.OpSetActive? || op.OpSetPrice? || op.OpSetParams? || op.OpSetPaused?
             || op.OpOutside? || op.OpIssue?
    ensures Inv(Step(s, op, now))
  {
    hide LoansValid, DebtsAgree, AllListed, CollateralAgrees;
  }

  lemma StepKeeps(s: State, op: Op, now: nat)
    requires Inv(s)
    ensures Inv(Step(s, op, now))
  {
    hide Inv, Borrow, Repay, Liquidate, AccrueOne, AccrueEach;
    match op
    case OpDeposit(_, _, _) => CollStepKeeps(s, op, now);
    case OpWithdraw(_, _, _) => CollStepKeeps(s, op, now);
    case OpBorrow(c, t, n) =>
      if Borrow(s, c, t, n, now).Some? { BorrowKeeps(s, c, t, n, now); }
    case OpRepay(c, id, n) =>
      if Repay(s, c, id, n, now).Some? { RepayKeeps(s, c, id, n, now); }
    case OpLiquidate(c, b, id, n) =>
      if Liquidate(s, c, b, id, n, now).Some? { LiquidateKeeps(s, c, b, id, n, now); }
    case OpAccrue(b, id) =>
      if AccrueOne(s, b, id, now).Some? { AccrueOneKeeps(s, b, id, now); }
    case OpAccrueAll(b) =>
      if AccrueEach(s, b, IdsOf(s.userLoans, b), now).Some? { AccrueEachKeeps(s, b, IdsOf(s.userLoans, b), now); }
    case _ => AdminStepKeeps(s, op, now);
  }

  // ----- whole runs -----

  lemma InitialValid(admin: Address, params: Params)
    ensures Inv(Initial(admin, params))
  {
    var s := Initial(admin, params);
    forall token ensures DebtAgrees(s.loans, s.totalDebt, token) && CollAgrees(s.coll, s.totalColl, token) {
      assert DebtsIn(s.loans, token) == map[] && CollIn(s.coll, token) == map[];
    }
  }

  lemma {:induction false} RunKeeps(s: State, calls: seq<Call>)
    requires Inv(s)
    ensures Inv(Run(s, calls))
    decreases |calls|
  {
    hide Inv, Step;
    if calls != [] {
      StepKeeps(s, calls[0].op, calls[0].now);
      RunKeeps(Step(s, calls[0].op, calls[0].now), calls[1..]);
    }
  }

  /** Over every run: each token's total debt is the sum of its loans' debts, each collateral total the
      sum over users, every loan is valid, and each loan is listed once, under its borrower. */
  lemma EveryRun(s: State, calls: seq<Call>, token: Address, user: Address, id: nat)
    requires Inv(s)
    ensures var s' := Run(s, calls);
            && At(s'.totalDebt, token) == Sum(DebtsIn(s'.loans, token))
            && At(s'.totalColl, token) == Sum(CollIn(s'.coll, token))
            && (id in s'.loans <==> id < s'.counter)
            && (id in s'.loans ==> LoanValid(s'.loans[id]))
            && (id in IdsOf(s'.userLoans, user) <==> id in s'.loans && s'.loans[id].borrower == user)
            && Listed(s'.loans, s'.userLoans, user)
  {
    hide Sum, Run;
    RunKeeps(s, calls);
    var s' := Run(s, calls);
    assert DebtAgrees(s'.loans, s'.totalDebt, token);
    assert CollAgrees(s'.coll, s'.totalColl, token);
    assert Listed(s'.loans, s'.userLoans, user);
  }

  // ----- hypothetical valuations are the real ones -----

  lemma {:induction false} ValueSame(m: Market, tokens: seq<Address>, a: map<Address, int>, b: map<Address, int>)
    requires forall t :: t in tokens ==> At(a, t) == At(b, t)
    ensures Value(m, tokens, a) == Value(m, tokens, b) && Weighted(m, tokens, a) == Weighted(m, tokens, b)
    decreases |tokens|
  {
    if tokens != [] {
      ValueSame(m, tokens[..|tokens| - 1], a, b);
    }
  }

  /** Valuations read only the registered tokens. */
  lemma HealthSame(m: Market, a: map<Address, int>, b: map<Address, int>, debt: int)
    requires forall t :: t in m.tokens ==> At(a, t) == At(b, t)
    ensures Priced(m, a) == Priced(m, b) && HealthOf(m, a, debt) == HealthOf(m, b, debt)
  {
    hide HealthFactor, Value, Weighted;
    ValueSame(m, m.tokens, a, b);
  }

  /** Valuing a user as if one holding were `amount` is valuing the user once it is. */
  lemma OverrideIsReal(m: Market, coll: map<CollKey, int>, user: Address, token: Address, amount: int, debt: int)
    ensures HealthOf(m, Held(m, coll, user)[token := amount], debt)
         == HealthOf(m, Held(m, coll[CollKey(user, token) := amount], user), debt)
  {
    HealthSame(m, Held(m, coll, user)[token := amount], Held(m, coll[CollKey(user, token) := amount], user), debt);
  }

  lemma {:induction false} DebtSame(loans: map<nat, Loan>, loans': map<nat, Loan>, ids: seq<nat>, user: Address)
    requires forall id :: id in ids ==> id in loans && id in loans' && loans[id] == loans'[id]
    ensures UserDebt(loans, ids, user) == UserDebt(loans', ids, user)
    decreases |ids|
  {
    if ids != [] {
      DebtSame(loans, loans', ids[..|ids| - 1], user);
    }
  }

  /** After a withdrawal the user's own reported health is at least the liquidation threshold. */
  lemma WithdrawLeavesHealthy(s: State, user: Address, token: Address, amount: int)
    requires Inv(s) && Withdraw(s, user, token, amount).Some?
    ensures var s' := Withdraw(s, user, token, amount).value.0;
            Health(s', user) >= s.params.healthThreshold
  {
    hide Inv, HealthOf, UserDebt;
    var have := At(s.coll, CollKey(user, token));
    var debt := UserDebt(s.loans, IdsOf(s.userLoans, user), user);
    OverrideIsReal(s.market, s.coll, user, token, have - amount, debt);
    NoDebtHealthy(s.market, Held(s.market, Withdraw(s, user, token, amount).value.0.coll, user), debt);
  }

  lemma NoDebtHealthy(m: Market, held: map<Address, int>, debt: int)
    ensures debt <= 0 ==> HealthOf(m, held, debt) == HEALTH_WITHOUT_DEBT
  {
  }

  lemma DebtWithNew(loans: map<nat, Loan>, ids: seq<nat>, user: Address, id: nat, l: Loan)
    requires id !in loans && l.borrower == user && !Closed(l) && forall j :: j in ids ==> j in loans
    ensures UserDebt(loans[id := l], ids + [id], user) == UserDebt(loans, ids, user) + l.debt
  {
    assert (ids + [id])[..|ids|] == ids;
    DebtSame(loans, loans[id := l], ids, user);
  }

  /** After a borrow, interest accrued and the new loan counted, the borrower's reported health is at
      least the liquidation threshold. */
  lemma BorrowLeavesHealthy(s: State, user: Address, token: Address, amount: int, now: nat)
    requires Inv(s) && Borrow(s, user, token, amount, now).Some?
    ensures var s' := Borrow(s, user, token, amount, now).value.0;
            Health(s', user) >= s.params.healthThreshold
  {
    hide HealthOf, AccrueEach, UserDebtIn, UserDebt, CurrentRate, Value, Priced;
    var ids := IdsOf(s.userLoans, user);
    AccrueEachKeeps(s, user, ids, now);
    var s1, s' := AccrueEach(s, user, ids, now).value, Borrow(s, user, token, amount, now).value.0;
    assert Listed(s1.loans, s1.userLoans, user);
    DebtWithNew(s1.loans, ids, user, s1.counter, s'.loans[s1.counter]);
    NoDebtHealthy(s1.market, Held(s1.market, s1.coll, user), UserDebt(s1.loans, ids, user) + amount);
  }

  /** A user whose collateral, loan list and loans are untouched keeps the same health. */
  lemma UntouchedHealth(s: State, s': State, u: Address)
    requires Inv(s) && s'.market == s.market && IdsOf(s'.userLoans, u) == IdsOf(s.userLoans, u)
    requires forall t :: At(s'.coll, CollKey(u, t)) == At(s.coll, CollKey(u, t))
    requires forall id :: id in s.loans && s.loans[id].borrower == u ==> id in s'.loans && s'.loans[id] == s.loans[id]
    ensures Health(s', u) == Health(s, u)
  {
    hide HealthOf, UserDebt;
    assert Listed(s.loans, s.userLoans, u);
    assert Held(s'.market, s'.coll, u) == Held(s.market, s.coll, u);
    DebtSame(s.loans, s'.loans, IdsOf(s.userLoans, u), u);
  }

  /** Neither a withdrawal nor a borrow changes anyone else's health. */
  lemma WithdrawSparesOthers(s: State, user: Address, token: Address, amount: int, u: Address)
    requires Inv(s) && Withdraw(s, user, token, amount).Some? && u != user
    ensures Health(Withdraw(s, user, token, amount).value.0, u) == Health(s, u)
  {
    hide Health, SafeWith, Inv;
    UntouchedHealth(s, Withdraw(s, user, token, amount).value.0, u);
  }

  lemma BorrowSparesOthers(s: State, user: Address, token: Address, amount: int, now: nat, u: Address)
    requires Inv(s) && Borrow(s, user, token, amount, now).Some? && u != user
    ensures Health(Borrow(s, user, token, amount, now).value.0, u) == Health(s, u)
  {
    hide Health, AccrueEach, UserDebtIn, CurrentRate, MayBorrow, DebtsAgree, AllListed, CollateralAgrees, MarketValid, LoanValid;
    AccrueEachKeeps(s, user, IdsOf(s.userLoans, user), now);
    UntouchedHealth(s, Borrow(s, user, token, amount, now).value.0, u);
  }

  // ----- liquidation -----

  /** Nothing held is worth more than the token chosen for seizure. */
  lemma {:induction false} BestTokenIsBest(m: Market, tokens: seq<Address>, held: map<Address, int>)
    ensures match BestToken(m, tokens, held)
            case Some(b) => b in tokens && At(held, b) > 0 && b in m.configs &&
                            forall t :: t in tokens && At(held, t) > 0 && t in m.configs ==> TokenValue(m, held, t) <= TokenValue(m, held, b)
            case None => forall t :: t in tokens && At(held, t) > 0 ==> t !in m.configs
    decreases |tokens|
  {
    hide TokenValue;
    if tokens != [] {
      var init, last := tokens[..|tokens| - 1], tokens[|tokens| - 1];
      BestTokenIsBest(m, init, held);
      assert tokens == init + [last];
    }
  }

  /** A liquidation happens only below the health threshold, covers at most the debt with its fresh
      interest, takes the borrower's most valuable collateral, no more than is held, and moves the loan
      and the collateral by exactly that. */
  lemma LiquidationExact(s: State, liquidator: Address, borrower: Address, id: nat, cover: int, now: nat)
    returns (token: Address, covered: int, seized: int)
    requires Inv(s) && Liquidate(s, liquidator, borrower, id, cover, now).Some?
    ensures Health(s, borrower) < s.params.healthThreshold && id in s.loans && s.loans[id].borrower == borrower
    ensures BestToken(s.market, s.market.tokens, Held(s.market, s.coll, borrower)) == Some(token) && token in s.market.configs
    ensures 0 < covered <= AccrueLoan(s.loans[id], now).debt && covered <= cover
    ensures seized == Seizure(covered, PriceOf(s.market, s.market.configs[token]), s.market.configs[token].bonus)
    ensures 0 <= seized <= At(s.coll, CollKey(borrower, token))
    ensures var s' := Liquidate(s, liquidator, borrower, id, cover, now).value.0;
            && id in s'.loans && s'.loans[id].debt == AccrueLoan(s.loans[id], now).debt - covered
            && s'.coll == s.coll[CollKey(borrower, token) := At(s.coll, CollKey(borrower, token)) - seized]
  {
    hide Health, BestToken, Charge, AccrueLoan, Paid, Liquidate, Inv, Seizure;
    var ledger;
    token, covered, seized, ledger := LiquidateShape(s, liquidator, borrower, id, cover, now);
    OwnLoanListed(s, borrower, id);
    var l := s.loans[id];
    AccrueLoanKeeps(l, now);
    ChargeNonNegative(l, now);
    PaidKeeps(AccrueLoan(l, now), covered, true);
    SeizureNonNegative(covered, PriceOf(s.market, s.market.configs[token]), s.market.configs[token].bonus);
  }

  lemma SeizureNonNegative(covered: int, price: int, bonus: nat)
    ensures Seizure(covered, price, bonus) >= 0
  {
    if covered > 0 && price > 0 {
      SeizureExact(covered, price, bonus);
    }
  }

  lemma QuotientFalls(a: int, b: int, c: int)
    requires a >= 0 && 0 < b <= c
    ensures a / c <= a / b
  {
    DivBounds(a, c);
    DivNonNegative(a, c);
    MulLe(b, c, a / c);
    DivFloor(a / c, a, b);
  }

  lemma {:induction false} WeightedNonNegative(m: Market, tokens: seq<Address>, held: map<Address, int>)
    requires MarketValid(m)
    ensures Weighted(m, tokens, held) >= 0
    decreases |tokens|
  {
    if tokens != [] {
      var t := tokens[|tokens| - 1];
      WeightedNonNegative(m, tokens[..|tokens| - 1], held);
      if At(held, t) > 0 && t in m.configs {
        var price := PriceOf(m, m.configs[t]);
        MulNonNegative(At(held, t), price);
        DivNonNegative(At(held, t) * price, m.configs[t].scale);
      }
      assert TokenValue(m, held, t) >= 0;
      MulNonNegative(TokenValue(m, held, t), ThresholdOf(m, t));
    }
  }

  /** More debt on the same collateral cannot lift a user to the threshold. */
  lemma MoreDebtLessHealth(m: Market, held: map<Address, int>, debt: int, more: int, threshold: U32)
    requires MarketValid(m) && debt <= more && HealthOf(m, held, debt) < threshold
    ensures HealthOf(m, held, more) < threshold
  {
    hide Value, Weighted, MarketValid;
    WeightedNonNegative(m, m.tokens, held);
    var value := Value(m, m.tokens, held);
    if value > 0 {
      DivNonNegative(Weighted(m, m.tokens, held), value);
      MulNonNegative(value, WeightedThreshold(m, held));
      QuotientFalls(value * WeightedThreshold(m, held), debt, more);
    }
  }

  lemma {:induction false} DebtGrows(loans: map<nat, Loan>, loans': map<nat, Loan>, ids: seq<nat>, user: Address)
    requires forall id :: id in ids ==> id in loans && id in loans' && Closed(loans[id]) == Closed(loans'[id])
    requires forall id :: id in ids ==> loans[id].debt <= loans'[id].debt && loans[id].borrower == loans'[id].borrower
    ensures UserDebt(loans, ids, user) <= UserDebt(loans', ids, user)
    decreases |ids|
  {
    if ids != [] {
      DebtGrows(loans, loans', ids[..|ids| - 1], user);
    }
  }

  /** The liquidation check reads the debt before this loan's fresh interest; a borrower it finds below
      the threshold is below it with the interest counted too, so the order never liquidates the healthy. */
  lemma StaleCheckIsSafe(s: State, borrower: Address, id: nat, now: nat)
    requires Inv(s) && AccrueOne(s, borrower, id, now).Some? && Health(s, borrower) < s.params.healthThreshold
    ensures Health(AccrueOne(s, borrower, id, now).value, borrower) < s.params.healthThreshold
  {
    hide HealthOf, UserDebt, AccruedInterest, DebtsAgree, CollateralAgrees;
    OwnLoanListed(s, borrower, id);
    AccrueLoanKeeps(s.loans[id], now);
    ChargeNonNegative(s.loans[id], now);
    assert Listed(s.loans, s.userLoans, borrower);
    var s', ids := AccrueOne(s, borrower, id, now).value, IdsOf(s.userLoans, borrower);
    DebtGrows(s.loans, s'.loans, ids, borrower);
    MoreDebtLessHealth(s.market, Held(s.market, s.coll, borrower), UserDebt(s.loans, ids, borrower),
                       UserDebt(s'.loans, ids, borrower), s.params.healthThreshold);
  }

  // ----- interest over any schedule -----

  function AccrueTimes(l: Loan, times: seq<nat>): Loan
    decreases |times|
  {
    if times == [] then l else AccrueTimes(AccrueLoan(l, times[0]), times[1..])
  }

  lemma {:induction false} LoanFollowsMeter(l: Loan, times: seq<nat>, m: Meter)
    requires !Closed(l) && l.last == m.last && l.debt == l.principal + l.interest
    ensures var l', m' := AccrueTimes(l, times), Accruals(m, l.principal, l.rate, times);
            && l'.interest - l.interest == m'.charged - m.charged && l'.last == m'.last
            && l'.principal == l.principal && l'.debt == l'.principal + l'.interest
    decreases |times|
  {
    hide AccruedInterest;
    if times != [] {
      NoChargeBackwards(l, times[0]);
      LoanFollowsMeter(AccrueLoan(l, times[0]), times[1..], Accrual(m, l.principal, l.rate, times[0]));
    }
  }

  lemma NoChargeBackwards(l: Loan, now: nat)
    ensures now <= l.last ==> AccruedInterest(l.principal, l.rate, now - l.last) == 0
  {
  }

  /** A loan with no repayments, accrued at any times and finally at `end`, has been charged at most one
      call's simple interest for the whole period, and less by at most the number of charging calls. */
  lemma InterestOverSchedule(l: Loan, times: seq<nat>, end: nat)
    requires LoanValid(l) && !Closed(l) && l.last <= end && forall i :: 0 <= i < |times| ==> times[i] <= end
    ensures var charged := AccrueTimes(l, times + [end]).interest - l.interest;
            var once := AccruedInterest(l.principal, l.rate, end - l.last);
            var charges := Accruals(Meter(0, l.last, 0), l.principal, l.rate, times + [end]).charges;
            charged <= once <= charged + charges
  {
    hide AccruedInterest;
    LoanFollowsMeter(l, times + [end], Meter(0, l.last, 0));
    ScheduleBound(l.principal, l.rate, l.last, times, end);
  }
}
