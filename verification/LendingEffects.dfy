/** What each lending call accepts, records and moves, account by account
    (contracts/collateral-management/src/lib.rs). */
module LendingEffects {
  import opened Prelude
  import opened MapSum
  import opened Arithmetic
  import opened TokenLedger
  import opened LendingMath
  import opened Lending
  import opened LendingProofs
  import opened LendingHealth

  lemma OneTransfer(l: Ledger, token: Address, from: Address, to: Address, amount: int)
    requires Transfer(l, token, from, to, amount).Some?
    ensures Settles(l, Transfer(l, token, from, to, amount).value, [Move(token, from, to, amount)])
  {
    hide Net, Transfer;
    NothingMoved(l);
    TransferSettles(l, l, [], token, from, to, amount);
    assert [] + [Move(token, from, to, amount)] == [Move(token, from, to, amount)];
  }

  // ----- collateral -----

  /** One user's holding of one token changed, and its total with it; nothing else but token balances. */
  ghost predicate HoldingMoved(s: State, s': State, user: Address, token: Address, delta: int) {
    && s' == s.(coll := s'.coll, totalColl := s'.totalColl, ledger := s'.ledger)
    && (forall k :: At(s'.coll, k) == At(s.coll, k) + if k == CollKey(user, token) then delta else 0)
    && forall t :: At(s'.totalColl, t) == At(s.totalColl, t) + if t == token then delta else 0
  }

  lemma WriteMoves(s: State, user: Address, token: Address, delta: int, l: Ledger)
    ensures HoldingMoved(s, WriteColl(s, user, token, delta, l), user, token, delta)
  {
  }

  /** A deposit of an active type succeeds exactly within both caps and the user's balance, and moves exactly
      the amount from user to contract. */
  lemma DepositExact(s: State, user: Address, token: Address, amount: int)
    ensures Deposit(s, user, token, amount).Some? <==>
              && user != SELF && !s.paused && 0 < amount <= Balance(s.ledger, token, user)
              && token in s.market.configs && s.market.configs[token].active
              && (s.market.configs[token].cap <= 0 || At(s.totalColl, token) + amount <= s.market.configs[token].cap)
              && (s.params.maxCollateral <= 0 || At(s.coll, CollKey(user, token)) + amount <= s.params.maxCollateral)
    ensures Deposit(s, user, token, amount).Some? ==>
              var s' := Deposit(s, user, token, amount).value.0;
              && HoldingMoved(s, s', user, token, amount)
              && Settles(s.ledger, s'.ledger, [Move(token, user, SELF, amount)])
  {
    hide Settles, Transfer, HoldingMoved, WriteColl;
    if Deposit(s, user, token, amount).Some? {
      var l := Transfer(s.ledger, token, user, SELF, amount).value;
      OneTransfer(s.ledger, token, user, SELF, amount);
      WriteMoves(s, user, token, amount, l);
      LedgerOf(s, user, token, amount, l);
    }
  }

  lemma LedgerOf(s: State, user: Address, token: Address, delta: int, l: Ledger)
    ensures WriteColl(s, user, token, delta, l).ledger == l
  {
  }

  /** Every price needed to value these holdings is known. */
  ghost predicate PricesKnown(m: Market, held: map<Address, int>) {
    forall t :: t in m.configs && t in m.tokens && At(held, t) > 0 ==> m.configs[t].feed in m.prices
  }

  /** What the user would hold with the amount gone. */
  function HeldWithout(s: State, user: Address, token: Address, amount: int): map<Address, int> {
    Held(s.market, s.coll, user)[token := At(s.coll, CollKey(user, token)) - amount]
  }

  lemma SafetyMeans(s: State, user: Address, token: Address, amount: int)
    requires Inv(s)
    ensures var held, debt := HeldWithout(s, user, token, amount), Sum(OpenDebts(s.loans, user));
            SafeWith(s, user, token, At(s.coll, CollKey(user, token)) - amount) <==>
              (debt > 0 ==> PricesKnown(s.market, held) && CoveredBy(s.market, held, debt, s.params.healthThreshold))
  {
    hide HealthOf, Sum, CoveredBy, DebtsAgree, CollateralAgrees, MarketValid;
    var held, debt := HeldWithout(s, user, token, amount), Sum(OpenDebts(s.loans, user));
    DebtIsSum(s, user);
    CoverageMeans(s.market, held, debt, s.params.healthThreshold);
    assert Listed(s.loans, s.userLoans, user);
  }

  /** A withdrawal succeeds exactly within the user's holding and the contract's balance, and only if what
      remains covers the user's debts. It moves exactly the amount from contract to user. */
  lemma WithdrawExact(s: State, user: Address, token: Address, amount: int)
    requires Inv(s)
    ensures var held, debt := HeldWithout(s, user, token, amount), Sum(OpenDebts(s.loans, user));
            Withdraw(s, user, token, amount).Some? <==>
              && user != SELF && !s.paused && 0 < amount <= At(s.coll, CollKey(user, token))
              && amount <= Balance(s.ledger, token, SELF)
              && (debt > 0 ==> PricesKnown(s.market, held) && CoveredBy(s.market, held, debt, s.params.healthThreshold))
    ensures Withdraw(s, user, token, amount).Some? ==>
              var s' := Withdraw(s, user, token, amount).value.0;
              && HoldingMoved(s, s', user, token, -amount)
              && Settles(s.ledger, s'.ledger, [Move(token, SELF, user, amount)])
  {
    hide Settles, Transfer, HoldingMoved, WriteColl, SafeWith, CoveredBy, PricesKnown, Inv, Sum;
    SafetyMeans(s, user, token, amount);
    if Withdraw(s, user, token, amount).Some? {
      var l := Transfer(s.ledger, token, SELF, user, amount).value;
      OneTransfer(s.ledger, token, SELF, user, amount);
      WriteMoves(s, user, token, -amount, l);
      LedgerOf(s, user, token, -amount, l);
    }
  }

  // ----- accrual -----

  /** A loan brought up to date: open loans are charged their interest, and the clock moves if it is any. */
  ghost predicate BroughtUp(l: Loan, l': Loan, now: nat) {
    var i := l'.interest - l.interest;
    && (if l.repaid || l.liquidated then i == 0 else Interest(l.principal, l.rate, now - l.last, i))
    && l' == l.(interest := l.interest + i, debt := l.debt + i, last := if i > 0 then now else l.last)
  }

  lemma AccrualExact(l: Loan, now: nat)
    requires LoanValid(l)
    ensures BroughtUp(l, AccrueLoan(l, now), now) && AccrueLoan(l, now).debt == l.debt + Charge(l, now)
  {
    hide AccruedInterest;
    InterestMeans(l.principal, l.rate, now - l.last, Charge(l, now));
    ChargeNonNegative(l, now);
  }

  /** Accruing a list brings up to date exactly the loans on it. */
  ghost predicate AllBroughtUp(s: State, s': State, ids: seq<nat>, now: nat) {
    && s' == s.(loans := s'.loans, totalDebt := s'.totalDebt) && s'.loans.Keys == s.loans.Keys
    && forall id :: id in s.loans ==> s'.loans[id] == if id in ids then AccrueLoan(s.loans[id], now) else s.loans[id]
  }

  lemma AccrueTwice(l: Loan, now: nat)
    ensures AccrueLoan(AccrueLoan(l, now), now) == AccrueLoan(l, now)
  {
  }

  lemma AccrueOneExact(s: State, user: Address, id: nat, now: nat)
    requires AccrueOne(s, user, id, now).Some?
    ensures AllBroughtUp(s, AccrueOne(s, user, id, now).value, [id], now)
  {
    hide AccruedInterest;
  }

  lemma {:induction false} AccrueEachExact(s: State, user: Address, ids: seq<nat>, now: nat)
    requires AccrueEach(s, user, ids, now).Some?
    ensures AllBroughtUp(s, AccrueEach(s, user, ids, now).value, ids, now)
    decreases |ids|
  {
    hide AccrueOne, AccrueLoan;
    if ids != [] {
      AccrueOneExact(s, user, ids[0], now);
      var s1 := AccrueOne(s, user, ids[0], now).value;
      AccrueEachExact(s1, user, ids[1..], now);
      var s' := AccrueEach(s, user, ids, now).value;
      forall id | id in s.loans ensures s'.loans[id] == if id in ids then AccrueLoan(s.loans[id], now) else s.loans[id] {
        AccrueTwice(s.loans[id], now);
      }
    }
  }

  /** Accrual is never refused to a borrower in a reachable state. */
  lemma {:induction false} AccrueEachSucceeds(s: State, user: Address, ids: seq<nat>, now: nat)
    requires Inv(s) && forall id :: id in ids ==> id in IdsOf(s.userLoans, user)
    ensures AccrueEach(s, user, ids, now).Some?
    decreases |ids|
  {
    hide Inv, Charge, AccrueLoan;
    if ids != [] {
      ListedIsStored(s, user, ids[0]);
      AccrueOneKeeps(s, user, ids[0], now);
      AccrueEachSucceeds(AccrueOne(s, user, ids[0], now).value, user, ids[1..], now);
    }
  }

  // ----- loans -----

  /** One loan changed or was added, and its token's total with it. */
  ghost predicate LoanMoved(s: State, s': State, id: nat, l: Loan, delta: int) {
    && s'.loans == s.loans[id := l]
    && forall t :: At(s'.totalDebt, t) == At(s.totalDebt, t) + if t == l.token then delta else 0
  }

  /** A repayment of an open loan of the caller's succeeds exactly up to the debt with its fresh interest and
      the caller's balance. It moves exactly the amount from user to contract. */
  lemma RepayExact(s: State, user: Address, id: nat, amount: int, now: nat)
    requires Inv(s)
    ensures Repay(s, user, id, amount, now).Some? <==>
              && user != SELF && !s.paused && id in s.loans && s.loans[id].borrower == user
              && !s.loans[id].repaid && !s.loans[id].liquidated
              && 0 < amount <= s.loans[id].debt + Charge(s.loans[id], now) && amount <= Balance(s.ledger, s.loans[id].token, user)
    ensures Repay(s, user, id, amount, now).Some? ==>
              var s', l := Repay(s, user, id, amount, now).value.0, s.loans[id];
              && BroughtUp(l, AccrueLoan(l, now), now)
              && s' == s.(loans := s'.loans, totalDebt := s'.totalDebt, ledger := s'.ledger)
              && LoanMoved(s, s', id, Paid(AccrueLoan(l, now), amount, false), Charge(l, now) - amount)
              && Settles(s.ledger, s'.ledger, [Move(l.token, user, SELF, amount)])
  {
    hide Settles, Transfer, Paid, AccrueLoan, Charge, BroughtUp, Inv;
    OwnLoanIff(s, user, id);
    if id in s.loans {
      LoanIsValid(s, id);
      AccrualExact(s.loans[id], now);
      TermsKept(s.loans[id], now, amount, false);
      if Transfer(s.ledger, s.loans[id].token, user, SELF, amount).Some? {
        OneTransfer(s.ledger, s.loans[id].token, user, SELF, amount);
      }
    }
  }

  lemma OwnLoanIff(s: State, user: Address, id: nat)
    requires Inv(s)
    ensures OwnLoan(s, user, id).Some? <==> id in s.loans && s.loans[id].borrower == user
  {
    assert Listed(s.loans, s.userLoans, user);
  }

  lemma LoanIsValid(s: State, id: nat)
    requires Inv(s) && id in s.loans
    ensures LoanValid(s.loans[id])
  {
  }

  /** A liquidation moves exactly the covered debt from liquidator to contract and the seized collateral back,
      takes the collateral from the borrower's most valuable holding, and pays the loan by what was covered. */
  lemma LiquidationPays(s: State, liquidator: Address, borrower: Address, id: nat, cover: int, now: nat)
    returns (token: Address, covered: int, seized: int)
    requires Inv(s) && Liquidate(s, liquidator, borrower, id, cover, now).Some?
    ensures id in s.loans && s.loans[id].borrower == borrower && liquidator != SELF
    ensures covered == Min(cover, s.loans[id].debt + Charge(s.loans[id], now)) && BroughtUp(s.loans[id], AccrueLoan(s.loans[id], now), now)
    ensures BestToken(s.market, s.market.tokens, Held(s.market, s.coll, borrower)) == Some(token) && token in s.market.configs
    ensures seized == Seizure(covered, At(s.market.prices, s.market.configs[token].feed), s.market.configs[token].bonus)
    ensures var s', l := Liquidate(s, liquidator, borrower, id, cover, now).value.0, s.loans[id];
            && LoanMoved(s, s', id, Paid(AccrueLoan(l, now), covered, true), Charge(l, now) - covered)
            && HoldingMoved(s, s'.(loans := s.loans, totalDebt := s.totalDebt), borrower, token, -seized)
            && Settles(s.ledger, s'.ledger, [Move(l.token, liquidator, SELF, covered), Move(token, SELF, liquidator, seized)])
  {
    hide Settles, Transfer, Paid, AccrueLoan, Charge, BroughtUp, Inv, Liquidate, Health, BestToken, Seizure;
    var ledger;
    token, covered, seized, ledger := LiquidateShape(s, liquidator, borrower, id, cover, now);
    OwnLoanListed(s, borrower, id);
    AccrualExact(s.loans[id], now);
    TermsKept(s.loans[id], now, covered, true);
    LiquidationLedger(s, liquidator, borrower, id, cover, now, token, covered, seized);
  }

  lemma LiquidationLedger(s: State, liquidator: Address, borrower: Address, id: nat, cover: int, now: nat,
                          token: Address, covered: int, seized: int)
    requires Liquidate(s, liquidator, borrower, id, cover, now).Some? && id in s.loans && OwnLoan(s, borrower, id) == Some(s.loans[id])
    requires SeizurePlan(s, borrower, AccrueLoan(s.loans[id], now).debt, cover) == Some((token, covered, seized))
    ensures liquidator != SELF
    ensures Settles(s.ledger, Liquidate(s, liquidator, borrower, id, cover, now).value.0.ledger,
                    [Move(s.loans[id].token, liquidator, SELF, covered), Move(token, SELF, liquidator, seized)])
  {
    hide SeizurePlan, AccrueLoan, Paid, Charge, Transfer, Settles;
    var a, b := Move(s.loans[id].token, liquidator, SELF, covered), Move(token, SELF, liquidator, seized);
    OneTransfer(s.ledger, a.token, liquidator, SELF, covered);
    var l1 := Transfer(s.ledger, a.token, liquidator, SELF, covered).value;
    TransferSettles(s.ledger, l1, [a], token, SELF, liquidator, seized);
    assert [a] + [b] == [a, b];
  }

  // ----- borrowing -----

  ghost function OpenDebtsIn(loans: map<nat, Loan>, user: Address, token: Address): map<nat, int> {
    map id | id in OpenDebts(loans, user) && loans[id].token == token :: loans[id].debt
  }

  ghost function DebtsInOver(loans: map<nat, Loan>, ids: seq<nat>, user: Address, token: Address): map<nat, int> {
    map id | id in ids && id in OpenDebtsIn(loans, user, token) :: loans[id].debt
  }

  lemma OneMoreDebtIn(loans: map<nat, Loan>, init: seq<nat>, last: nat, user: Address, token: Address)
    requires last !in init
    ensures Sum(DebtsInOver(loans, init + [last], user, token)) == Sum(DebtsInOver(loans, init, user, token))
              + if last in OpenDebtsIn(loans, user, token) then loans[last].debt else 0
  {
    hide Sum;
    var m := DebtsInOver(loans, init, user, token);
    if last in OpenDebtsIn(loans, user, token) {
      SumUpdate(m, last, loans[last].debt);
      assert DebtsInOver(loans, init + [last], user, token) == m[last := loans[last].debt];
    } else {
      assert DebtsInOver(loans, init + [last], user, token) == m;
    }
  }

  lemma {:induction false} DebtInOverList(loans: map<nat, Loan>, ids: seq<nat>, user: Address, token: Address)
    requires forall i, j :: 0 <= i < j < |ids| ==> ids[i] != ids[j]
    ensures UserDebtIn(loans, ids, user, token) == Sum(DebtsInOver(loans, ids, user, token))
    decreases |ids|
  {
    hide Sum, DebtsInOver;
    if ids == [] {
      NoDebtsIn(loans, user, token);
    } else {
      var init, last := ids[..|ids| - 1], ids[|ids| - 1];
      assert ids == init + [last] && last !in init;
      DebtInOverList(loans, init, user, token);
      OneMoreDebtIn(loans, init, last, user, token);
    }
  }

  lemma NoDebtsIn(loans: map<nat, Loan>, user: Address, token: Address)
    ensures Sum(DebtsInOver(loans, [], user, token)) == 0
  {
    assert DebtsInOver(loans, [], user, token) == map[];
  }

  lemma DebtInIsSum(s: State, user: Address, token: Address)
    requires Inv(s)
    ensures UserDebtIn(s.loans, IdsOf(s.userLoans, user), user, token) == Sum(OpenDebtsIn(s.loans, user, token))
    ensures Stored(s.loans, IdsOf(s.userLoans, user))
  {
    hide Sum, DebtsAgree, CollateralAgrees;
    assert Listed(s.loans, s.userLoans, user);
    var ids := IdsOf(s.userLoans, user);
    DebtInOverList(s.loans, ids, user, token);
    assert DebtsInOver(s.loans, ids, user, token) == OpenDebtsIn(s.loans, user, token);
  }

  lemma BorrowCheckMeans(s: State, user: Address, amount: int)
    requires Inv(s) && amount > 0
    ensures var held, debt := Held(s.market, s.coll, user), Sum(OpenDebts(s.loans, user)) + amount;
            MayBorrow(s, user, amount) <==>
              && PricesKnown(s.market, held)
              && (debt > 0 ==> Sum(Worths(s.market, held, s.market.tokens)) > 0 && CoveredBy(s.market, held, debt, s.params.healthThreshold))
  {
    hide HealthOf, Sum, CoveredBy, DebtsAgree, CollateralAgrees, MarketValid, Value, Worths, UserDebt;
    var held := Held(s.market, s.coll, user);
    DebtIsSum(s, user);
    CoverageMeans(s.market, held, Sum(OpenDebts(s.loans, user)) + amount, s.params.healthThreshold);
    TokensValued(s.market, held);
    assert Listed(s.loans, s.userLoans, user);
  }

  lemma TokensValued(m: Market, held: map<Address, int>)
    requires MarketValid(m)
    ensures Value(m, m.tokens, held) == Sum(Worths(m, held, m.tokens))
  {
    ValueIsSum(m, held, m.tokens);
  }

  /** The user's loans brought up to date, as a borrow sees them. */
  ghost predicate UpToDate(s: State, s1: State, user: Address, now: nat) {
    AllBroughtUp(s, s1, IdsOf(s.userLoans, user), now) && Inv(s1)
  }

  /** Within the user's cap and the token's ceiling, both read before accrual; the debts brought up to date and
      the new one covered by collateral of known prices; and the contract has the tokens. */
  ghost predicate BorrowServed(s: State, s1: State, user: Address, token: Address, amount: int) {
    var held, debt := Held(s.market, s.coll, user), Sum(OpenDebts(s1.loans, user)) + amount;
    && user != SELF && !s.paused && 0 < amount <= Balance(s.ledger, token, SELF)
    && (s.params.maxBorrow <= 0 || Sum(OpenDebtsIn(s.loans, user, token)) + amount <= s.params.maxBorrow)
    && (s.params.debtCeiling <= 0 || At(s.totalDebt, token) + amount <= s.params.debtCeiling)
    && PricesKnown(s.market, held)
    && (debt > 0 ==> Sum(Worths(s.market, held, s.market.tokens)) > 0 && CoveredBy(s.market, held, debt, s.params.healthThreshold))
  }

  /** The new loan, at the rate of the moment, listed under its borrower and added to its token's total. */
  ghost predicate LoanRecorded(s1: State, s': State, user: Address, token: Address, amount: int, now: nat) {
    var rate := RateAt(s1.params.rates, At(s1.totalDebt, token), At(s1.deposits, token));
    && LoanMoved(s1, s', s1.counter, Loan(user, token, amount, 0, amount, rate, now, now, false, false), amount)
    && s' == s1.(loans := s'.loans, totalDebt := s'.totalDebt, counter := s1.counter + 1, ledger := s'.ledger,
                 userLoans := s1.userLoans[user := IdsOf(s1.userLoans, user) + [s1.counter]])
  }

  /** That rate, on the curve at the utilisation. */
  lemma RateAtMeans(rates: RateModel, borrowed: int, deposits: int, util: int, raw: int)
    requires borrowed >= 0 && rates.base <= 4_294_967_295 && 0 <= util <= 10_000 && Curve(rates, util, raw)
    requires if deposits <= 0 then util == 0
             else if borrowed >= deposits then util == 10_000 else util * deposits <= borrowed * 10_000 < (util + 1) * deposits
    ensures RateAt(rates, borrowed, deposits) == if raw < 4_294_967_295 then raw else 4_294_967_295
  {
    hide InterestRate, Curve, Utilization;
    if deposits > 0 {
      UtilizationMeans(borrowed, deposits, util);
    } else {
      Unused(borrowed, deposits);
    }
    RateMeans(rates, util, raw);
  }

  lemma Unused(borrowed: int, deposits: int)
    requires deposits <= 0
    ensures Utilization(borrowed, deposits) == 0
  {
  }

  lemma BorrowServedIff(s: State, s1: State, user: Address, token: Address, amount: int, now: nat)
    requires Inv(s) && Inv(s1) && AccrueEach(s, user, IdsOf(s.userLoans, user), now) == Some(s1)
    requires s1 == s.(loans := s1.loans, totalDebt := s1.totalDebt)
    ensures Borrow(s, user, token, amount, now).Some? <==> BorrowServed(s, s1, user, token, amount)
  {
    hide Transfer, Inv, AccrueEach, UserDebtIn, MayBorrow, Stored, CoveredBy, PricesKnown, Sum, NewLoan;
    DebtInIsSum(s, user, token);
    if amount > 0 {
      BorrowCheckMeans(s1, user, amount);
    }
  }

  lemma BorrowRecords(s: State, s1: State, user: Address, token: Address, amount: int, now: nat)
    requires Borrow(s, user, token, amount, now).Some? && AccrueEach(s, user, IdsOf(s.userLoans, user), now) == Some(s1) && s1.ledger == s.ledger
    ensures var s' := Borrow(s, user, token, amount, now).value.0;
            LoanRecorded(s1, s', user, token, amount, now) && Settles(s.ledger, s'.ledger, [Move(token, SELF, user, amount)])
  {
    hide Settles, Transfer, AccrueEach, UserDebtIn, MayBorrow, Stored, RateAt;
    OneTransfer(s.ledger, token, SELF, user, amount);
  }

  /** A borrow succeeds exactly when it is served. It pays exactly the amount to the user and no one else, and
      records exactly that loan on top of the loans brought up to date. */
  lemma BorrowExact(s: State, user: Address, token: Address, amount: int, now: nat) returns (s1: State)
    requires Inv(s)
    ensures UpToDate(s, s1, user, now)
    ensures Borrow(s, user, token, amount, now).Some? <==> BorrowServed(s, s1, user, token, amount)
    ensures Borrow(s, user, token, amount, now).Some? ==>
              var s' := Borrow(s, user, token, amount, now).value.0;
              LoanRecorded(s1, s', user, token, amount, now) && Settles(s.ledger, s'.ledger, [Move(token, SELF, user, amount)])
  {
    hide Settles, Inv, AccrueEach, BorrowServed, LoanRecorded, Borrow, Stored;
    var ids := IdsOf(s.userLoans, user);
    AccrueEachSucceeds(s, user, ids, now);
    AccrueEachExact(s, user, ids, now);
    AccrueEachKeeps(s, user, ids, now);
    s1 := AccrueEach(s, user, ids, now).value;
    BorrowServedIff(s, s1, user, token, amount, now);
    if Borrow(s, user, token, amount, now).Some? {
      BorrowRecords(s, s1, user, token, amount, now);
    }
  }

  // ----- who may be liquidated -----

  /** A liquidation succeeds exactly against an open loan of a borrower whose debts are not covered, with prices
      known, a collateral to take that suffices, and the tokens on both sides. */
  lemma LiquidateIff(s: State, liquidator: Address, borrower: Address, id: nat, cover: int, now: nat)
    requires Inv(s)
    ensures Liquidate(s, liquidator, borrower, id, cover, now).Some? <==>
              && liquidator != SELF && !s.paused && cover > 0 && id in s.loans && s.loans[id].borrower == borrower
              && !s.loans[id].repaid && !s.loans[id].liquidated
              && PricesKnown(s.market, Held(s.market, s.coll, borrower)) && !Covered(s, borrower, s.params.healthThreshold)
              && var best := BestToken(s.market, s.market.tokens, Held(s.market, s.coll, borrower));
              && best.Some? && best.value in s.market.configs
              && var config, covered := s.market.configs[best.value], Min(cover, s.loans[id].debt + Charge(s.loans[id], now));
              && var seized := Seizure(covered, At(s.market.prices, config.feed), config.bonus);
              && seized <= At(s.coll, CollKey(borrower, best.value)) && covered <= Balance(s.ledger, s.loans[id].token, liquidator)
              && seized <= Balance(s.ledger, best.value, SELF) + if best.value == s.loans[id].token then covered else 0
  {
    hide Inv, Health, BestToken, Charge, AccrueLoan, Paid, Seizure, Covered, Transfer, WriteColl, WriteLoan;
    OwnLoanIff(s, borrower, id);
    DebtInIsSum(s, borrower, SELF);
    HealthMeans(s, borrower, s.params.healthThreshold);
    if id in s.loans {
      LoanIsValid(s, id);
      AccrualExact(s.loans[id], now);
      ChargeNonNegative(s.loans[id], now);
    }
    forall covered, price, bonus: nat ensures Seizure(covered, price, bonus) >= 0 {
      SeizureNonNegative(covered, price, bonus);
    }
  }

  // ----- collateral types -----

  /** A type is registered once, by the administrator, with a loan-to-value of at most 95%, a threshold from
      there to 98%, a bonus of at most 20% and a positive scale, and is stored as given. */
  lemma TypeRegistered(s: State, caller: Address, token: Address, feed: Feed, ltv: nat, threshold: nat, bonus: nat, cap: int, scale: int)
    ensures RegisterType(s, caller, token, feed, ltv, threshold, bonus, cap, scale).Some? <==>
              && caller == s.admin && !s.paused && token !in s.market.configs && ltv <= 9500 && ltv <= threshold <= 9800
              && bonus <= 2000 && cap >= 0 && scale > 0
    ensures RegisterType(s, caller, token, feed, ltv, threshold, bonus, cap, scale).Some? ==>
              RegisterType(s, caller, token, feed, ltv, threshold, bonus, cap, scale).value.0
              == s.(market := s.market.(tokens := s.market.tokens + [token],
                                        configs := s.market.configs[token := Config(feed, ltv, threshold, bonus, cap, true, scale)]))
  {
  }

  /** Later changes of a type keep its feed and scale, and the same limits; prices are positive; parameters,
      prices, activity and the pause are the administrator's. */
  lemma SettingsExact(s: State, caller: Address, token: Address, ltv: nat, threshold: nat, bonus: nat, cap: int, on: bool,
                      feed: Feed, price: int, params: Params)
    ensures UpdateType(s, caller, token, ltv, threshold, bonus, cap).Some? <==>
              caller == s.admin && !s.paused && token in s.market.configs && ltv <= 9500 && ltv <= threshold <= 9800 && bonus <= 2000
    ensures UpdateType(s, caller, token, ltv, threshold, bonus, cap).Some? ==>
              var c := s.market.configs[token];
              UpdateType(s, caller, token, ltv, threshold, bonus, cap).value.0
              == s.(market := s.market.(configs := s.market.configs[token := Config(c.feed, ltv, threshold, bonus, cap, c.active, c.scale)]))
    ensures SetActive(s, caller, token, on).Some? <==> caller == s.admin && token in s.market.configs
    ensures SetActive(s, caller, token, on).Some? ==>
              SetActive(s, caller, token, on).value.0
              == s.(market := s.market.(configs := s.market.configs[token := s.market.configs[token].(active := on)]))
    ensures SetPrice(s, caller, feed, price) == if caller == s.admin && price > 0
              then Some((s.(market := s.market.(prices := s.market.prices[feed := price])), ())) else None
    ensures SetParams(s, caller, params) == if caller == s.admin then Some((s.(params := params), ())) else None
    ensures SetPaused(s, caller, on) == if caller == s.admin then Some((s.(paused := on), ())) else None
  {
  }

  /** Anyone may bring a borrower's loan, or all of them, up to date; exactly those loans change. */
  lemma AccrualCalls(s: State, borrower: Address, id: nat, now: nat)
    requires Inv(s)
    ensures AccrueInterest(s, borrower, id, now).Some? <==> id in s.loans && s.loans[id].borrower == borrower
    ensures AccrueInterest(s, borrower, id, now).Some? ==> AllBroughtUp(s, AccrueInterest(s, borrower, id, now).value.0, [id], now)
    ensures AccrueAllInterest(s, borrower, now).Some?
    ensures AllBroughtUp(s, AccrueAllInterest(s, borrower, now).value.0, IdsOf(s.userLoans, borrower), now)
  {
    hide Inv, AllBroughtUp, AccrueLoan, Charge, AccrueEach;
    OwnLoanIff(s, borrower, id);
    if AccrueInterest(s, borrower, id, now).Some? {
      AccrueOneExact(s, borrower, id, now);
    }
    AccrueEachSucceeds(s, borrower, IdsOf(s.userLoans, borrower), now);
    AccrueEachExact(s, borrower, IdsOf(s.userLoans, borrower), now);
  }
}
