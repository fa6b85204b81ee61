/** The collateral the lending contract holds or has lent out (contracts/collateral-management/src/lib.rs).
    Borrows are paid from the account that holds collateral, so the tokens themselves need not be there;
    what is missing is owed. */
module LendingCustody {
  import opened Prelude
  import opened TokenLedger
  import opened Lending
  import Proofs = LendingProofs

  /** Tokens held plus tokens owed cover the collateral deposited. */
  ghost predicate Backed(s: State, token: Address) {
    At(s.totalColl, token) <= Balance(s.ledger, token, SELF) + At(s.totalDebt, token)
  }

  ghost predicate AllBacked(s: State) {
    forall token :: Backed(s, token)
  }

  lemma CollateralBacked(s: State, user: Address, token: Address, delta: int, l: Ledger)
    requires AllBacked(s)
    requires forall t :: Balance(l, t, SELF) >= Balance(s.ledger, t, SELF) + if t == token then delta else 0
    ensures AllBacked(WriteColl(s, user, token, delta, l))
  {
    var s' := WriteColl(s, user, token, delta, l);
    forall t ensures Backed(s', t) {
      assert Backed(s, t);
    }
  }

  lemma CollateralStepBacked(s: State, op: Op, now: nat)
    requires AllBacked(s) && (op.OpDeposit? || op.OpWithdraw?)
    ensures AllBacked(Step(s, op, now))
  {
    hide SafeWith, AllBacked, WriteColl;
    var s' := Step(s, op, now);
    if op.OpDeposit? && Deposit(s, op.caller, op.token, op.amount).Some? {
      var l := Transfer(s.ledger, op.token, op.caller, SELF, op.amount).value;
      CollateralBacked(s, op.caller, op.token, op.amount, l);
    } else if op.OpWithdraw? && Withdraw(s, op.caller, op.token, op.amount).Some? {
      var l := Transfer(s.ledger, op.token, SELF, op.caller, op.amount).value;
      CollateralBacked(s, op.caller, op.token, -op.amount, l);
    }
  }

  /** Writing a loan moves the debt total; the account must make up for what the total loses. */
  lemma LoanBacked(s: State, id: nat, loan: Loan, delta: int, l: Ledger)
    requires AllBacked(s)
    requires forall t :: Balance(l, t, SELF) >= Balance(s.ledger, t, SELF) - if t == loan.token then delta else 0
    ensures AllBacked(WriteLoan(s, id, loan, delta).(ledger := l))
  {
    var s' := WriteLoan(s, id, loan, delta).(ledger := l);
    forall t ensures Backed(s', t) {
      assert Backed(s, t);
    }
  }

  lemma AccrueOneBacked(s: State, user: Address, id: nat, now: nat)
    requires AllBacked(s) && AccrueOne(s, user, id, now).Some?
    ensures AllBacked(AccrueOne(s, user, id, now).value)
  {
    hide Charge, AllBacked;
    var loan := s.loans[id];
    if Charge(loan, now) > 0 {
      LoanBacked(s, id, AccrueLoan(loan, now), Charge(loan, now), s.ledger);
    }
  }

  lemma {:induction false} AccrueEachBacked(s: State, user: Address, ids: seq<nat>, now: nat)
    requires AllBacked(s) && AccrueEach(s, user, ids, now).Some?
    ensures AllBacked(AccrueEach(s, user, ids, now).value)
    decreases |ids|
  {
    hide AccrueOne, AllBacked;
    if ids != [] {
      AccrueOneBacked(s, user, ids[0], now);
      AccrueEachBacked(AccrueOne(s, user, ids[0], now).value, user, ids[1..], now);
    }
  }

  lemma NewLoanBacked(s: State, user: Address, token: Address, amount: int, now: nat, l: Ledger)
    requires AllBacked(s)
    requires forall t :: Balance(l, t, SELF) >= Balance(s.ledger, t, SELF) - if t == token then amount else 0
    ensures AllBacked(NewLoan(s, user, token, amount, now).(ledger := l))
  {
    hide CurrentRate;
    var s' := NewLoan(s, user, token, amount, now).(ledger := l);
    forall t ensures Backed(s', t) {
      assert Backed(s, t);
    }
  }

  lemma BorrowBacked(s: State, user: Address, token: Address, amount: int, now: nat)
    requires AllBacked(s) && Borrow(s, user, token, amount, now).Some?
    ensures AllBacked(Borrow(s, user, token, amount, now).value.0)
  {
    hide AccrueEach, MayBorrow, UserDebtIn, NewLoan, AllBacked;
    var ids := IdsOf(s.userLoans, user);
    AccrueEachBacked(s, user, ids, now);
    var s1 := AccrueEach(s, user, ids, now).value;
    NewLoanBacked(s1, user, token, amount, now, Transfer(s1.ledger, token, SELF, user, amount).value);
  }

  lemma RepayBacked(s: State, user: Address, id: nat, amount: int, now: nat)
    requires Proofs.Inv(s) && AllBacked(s) && Repay(s, user, id, amount, now).Some?
    ensures AllBacked(Repay(s, user, id, amount, now).value.0)
  {
    hide Proofs.Inv, AllBacked, Charge, AccrueLoan, Paid, WriteLoan;
    Proofs.OwnLoanListed(s, user, id);
    var loan := s.loans[id];
    Proofs.ChargeNonNegative(loan, now);
    Proofs.TermsKept(loan, now, amount, false);
    LoanBacked(s, id, Paid(AccrueLoan(loan, now), amount, false), Charge(loan, now) - amount,
               Transfer(s.ledger, loan.token, user, SELF, amount).value);
  }

  lemma LiquidateBacked(s: State, liquidator: Address, borrower: Address, id: nat, cover: int, now: nat)
    requires Proofs.Inv(s) && AllBacked(s) && Liquidate(s, liquidator, borrower, id, cover, now).Some?
    ensures AllBacked(Liquidate(s, liquidator, borrower, id, cover, now).value.0)
  {
    hide Proofs.Inv, Charge, AccrueLoan, Paid, Liquidate, Health, BestToken;
    var token, covered, seized, l := Proofs.LiquidateShape(s, liquidator, borrower, id, cover, now);
    Proofs.OwnLoanListed(s, borrower, id);
    var loan := s.loans[id];
    Proofs.ChargeNonNegative(loan, now);
    Proofs.TermsKept(loan, now, covered, true);
    var s' := Liquidate(s, liquidator, borrower, id, cover, now).value.0;
    forall t ensures Backed(s', t) {
      assert Backed(s, t);
    }
  }

  lemma PlainStepBacked(s: State, op: Op, now: nat)
    requires AllBacked(s)
    requires op.OpRegister? || op.OpUpdate? || op.OpSetActive? || op.OpSetPrice? || op.OpSetParams? || op.OpSetPaused?
             || op.OpOutside? || op.OpIssue?
    ensures AllBacked(Step(s, op, now))
  {
    var s' := Step(s, op, now);
    forall t ensures Backed(s', t) {
      assert Backed(s, t);
    }
  }

  lemma StepBacked(s: State, op: Op, now: nat)
    requires Proofs.Inv(s) && AllBacked(s)
    ensures AllBacked(Step(s, op, now))
  {
    hide Proofs.Inv, AllBacked, Borrow, Repay, Liquidate, AccrueOne, AccrueEach, Deposit, Withdraw;
    match op
    case OpDeposit(_, _, _) => CollateralStepBacked(s, op, now);
    case OpWithdraw(_, _, _) => CollateralStepBacked(s, op, now);
    case OpBorrow(c, t, n) =>
      if Borrow(s, c, t, n, now).Some? { BorrowBacked(s, c, t, n, now); }
    case OpRepay(c, id, n) =>
      if Repay(s, c, id, n, now).Some? { RepayBacked(s, c, id, n, now); }
    case OpLiquidate(c, b, id, n) =>
      if Liquidate(s, c, b, id, n, now).Some? { LiquidateBacked(s, c, b, id, n, now); }
    case OpAccrue(b, id) =>
      if AccrueOne(s, b, id, now).Some? { AccrueOneBacked(s, b, id, now); }
    case OpAccrueAll(b) =>
      if AccrueEach(s, b, IdsOf(s.userLoans, b), now).Some? { AccrueEachBacked(s, b, IdsOf(s.userLoans, b), now); }
    case _ => PlainStepBacked(s, op, now);
  }

  lemma InitialBacked(admin: Address, params: Params)
    ensures AllBacked(Initial(admin, params))
  {
  }

  /** Over every run, tokens held plus tokens owed cover the collateral deposited, token by token. */
  lemma {:induction false} RunBacked(s: State, calls: seq<Call>, token: Address)
    requires Proofs.Inv(s) && AllBacked(s)
    ensures At(Run(s, calls).totalColl, token) <= Balance(Run(s, calls).ledger, token, SELF) + At(Run(s, calls).totalDebt, token)
    decreases |calls|
  {
    hide Proofs.Inv, Step;
    if calls == [] {
      assert Backed(s, token);
    } else {
      StepBacked(s, calls[0].op, calls[0].now);
      Proofs.StepKeeps(s, calls[0].op, calls[0].now);
      RunBacked(Step(s, calls[0].op, calls[0].now), calls[1..], token);
    }
  }
}
