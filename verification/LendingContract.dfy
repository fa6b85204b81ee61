/** The lending contract object: the valuation loops and the entry points that rewrite loans,
    collateral and totals in place. */
module LendingContract {
  import opened Prelude
  import opened TokenLedger
  import opened LendingMath
  import L = Lending
  import Proofs = LendingProofs

  class CollateralManagement {
    var admin: Address
    var paused: bool
    var params: L.Params
    var market: L.Market
    var coll: map<L.CollKey, int>
    var totalColl: map<Address, int>
    var loans: map<nat, L.Loan>
    var userLoans: map<Address, seq<nat>>
    var counter: nat
    var totalDebt: map<Address, int>
    var deposits: map<Address, int>
    var ledger: Ledger

    ghost function View(): L.State
      reads this
    {
      L.State(admin, paused, params, market, coll, totalColl, loans, userLoans, counter, totalDebt, deposits, ledger)
    }

    constructor (admin: Address, params: L.Params)
      ensures View() == L.Initial(admin, params) && Proofs.Inv(View())
    {
      this.admin, this.params, paused, market := admin, params, false, L.Market([], map[], map[]);
      coll, totalColl, loans, userLoans, counter := map[], map[], map[], map[], 0;
      totalDebt, deposits, ledger := map[], map[], map[];
      new;
      Proofs.InitialValid(admin, params);
    }

    // ----- loops that only read -----

    method UserTotalDebt(user: Address) returns (r: Option<int>)
      ensures r.None? <==> !L.Stored(loans, L.IdsOf(userLoans, user))
      ensures r.Some? ==> r.value == L.UserDebt(loans, L.IdsOf(userLoans, user), user)
    {
      var ids := if user in userLoans then userLoans[user] else [];
      var total := 0;
      for i := 0 to |ids|
        invariant total == L.UserDebt(loans, ids[..i], user) && L.Stored(loans, ids[..i])
      {
        assert ids[..i + 1][..i] == ids[..i];
        var _ :- Need(ids[i] in loans);
        var loan := loans[ids[i]];
        if !loan.liquidated && !loan.repaid && loan.borrower == user {
          total := total + loan.debt;
        }
      }
      assert ids[..|ids|] == ids;
      return Some(total);
    }

    /** One pass serves both loops of the source: the total value and the threshold-weighted sum; an
        unknown price aborts. `held` is what each token is taken to be held at. */
    method Appraise(held: map<Address, int>) returns (r: Option<(int, int)>)
      ensures r.None? <==> !L.Priced(market, held)
      ensures r.Some? ==> r.value == (L.Value(market, market.tokens, held), L.Weighted(market, market.tokens, held))
    {
      hide Worth;
      var total, weighted := 0, 0;
      var tokens := market.tokens;
      for i := 0 to |tokens|
        invariant total == L.Value(market, tokens[..i], held) && weighted == L.Weighted(market, tokens[..i], held)
        invariant forall t :: t in tokens[..i] && At(held, t) > 0 && t in market.configs ==> market.configs[t].feed in market.prices
      {
        assert tokens[..i + 1][..i] == tokens[..i];
        var t := tokens[i];
        if At(held, t) > 0 && t in market.configs {
          var c := market.configs[t];
          if c.feed !in market.prices {
            return None;
          }
          var value := Worth(At(held, t), market.prices[c.feed], c.scale);
          total := total + value;
          weighted := weighted + value * c.threshold;
        }
      }
      assert tokens[..|tokens|] == tokens;
      return Some((total, weighted));
    }

    /** What the user holds of each registered token, one of them overridden if asked. */
    method Holdings(user: Address, override: Option<(Address, int)>) returns (held: map<Address, int>)
      ensures override.None? ==> held == L.Held(market, coll, user)
      ensures override.Some? ==> forall t :: t in market.tokens ==>
                At(held, t) == At(L.Held(market, coll, user)[override.value.0 := override.value.1], t)
    {
      held := map[];
      var tokens := market.tokens;
      for i := 0 to |tokens|
        invariant forall t :: t in held <==> t in tokens[..i]
        invariant forall t :: t in held ==> held[t] == if override.Some? && t == override.value.0 then override.value.1
                                                       else At(coll, L.CollKey(user, t))
      {
        var t := tokens[i];
        var amount := At(coll, L.CollKey(user, t));
        if override.Some? && t == override.value.0 {
          amount := override.value.1;
        }
        held := held[t := amount];
      }
    }

    method HealthFrom(held: map<Address, int>, debt: int) returns (r: Option<int>)
      ensures r.None? <==> !L.Priced(market, held)
      ensures r.Some? ==> r.value == L.HealthOf(market, held, debt)
    {
      hide L.Value, L.Weighted;
      var sums :- Appraise(held);
      var (total, weighted) := sums;
      var threshold := 0;
      if total > 0 {
        threshold := Min(weighted / total, U32_MAX);
      }
      return Some(HealthFactor(total, debt, threshold));
    }

    method BestSeizeCollateral(held: map<Address, int>) returns (best: Option<Address>)
      ensures best == L.BestToken(market, market.tokens, held)
    {
      hide Worth;
      best := None;
      var tokens, bestValue := market.tokens, 0;
      for i := 0 to |tokens|
        invariant best == L.BestToken(market, tokens[..i], held)
        invariant best.Some? ==> bestValue == L.TokenValue(market, held, best.value)
      {
        assert tokens[..i + 1][..i] == tokens[..i];
        var t := tokens[i];
        if At(held, t) > 0 && t in market.configs {
          var value := L.TokenValue(market, held, t);
          if best.None? || value > bestValue {
            best, bestValue := Some(t), value;
          }
        }
      }
      assert tokens[..|tokens|] == tokens;
    }

    // ----- entry points -----

    /** A collateral balance, the token's total and the custody move together. */
    method MoveCollateral(user: Address, token: Address, delta: int, l: Ledger)
      modifies this`coll, this`totalColl, this`ledger
      ensures View() == L.WriteColl(old(View()), user, token, delta, l)
    {
      var key := L.CollKey(user, token);
      coll := coll[key := At(coll, key) + delta];
      totalColl := totalColl[token := At(totalColl, token) + delta];
      ledger := l;
    }

    /** A loan and its token's debt total move together. */
    method StoreLoan(id: nat, loan: L.Loan, delta: int)
      modifies this`loans, this`totalDebt
      ensures View() == L.WriteLoan(old(View()), id, loan, delta)
    {
      loans := loans[id := loan];
      totalDebt := totalDebt[loan.token := At(totalDebt, loan.token) + delta];
    }

    method DepositCollateral(user: Address, token: Address, amount: int) returns (r: Option<()>)
      modifies this`coll, this`totalColl, this`ledger
      ensures (View(), r) == Commit(L.Deposit(old(View()), user, token, amount), old(View()))
      ensures Proofs.Inv(old(View())) ==> Proofs.Inv(View())
    {
      hide Proofs.Inv;
      if Proofs.Inv(View()) { Proofs.StepKeeps(View(), L.OpDeposit(user, token, amount), 0); }
      hide L.WriteColl;
      var _ :- Need(user != SELF && !paused && amount > 0 && token in market.configs);
      var config := market.configs[token];
      var _ :- Need(config.active);
      var _ :- Need(config.cap > 0 ==> At(totalColl, token) + amount <= config.cap);
      var _ :- Need(params.maxCollateral > 0 ==> At(coll, L.CollKey(user, token)) + amount <= params.maxCollateral);
      var l :- Transfer(ledger, token, user, SELF, amount);
      MoveCollateral(user, token, amount, l);
      return Some(());
    }

    method SafetyCheck(user: Address, token: Address, remaining: int) returns (safe: bool)
      ensures safe <==> L.SafeWith(View(), user, token, remaining)
    {
      hide L.UserDebt, L.HealthOf, L.Priced, L.Stored;
      var debts := UserTotalDebt(user);
      if debts.None? {
        return false;
      }
      var debt := debts.value;
      if debt <= 0 {
        return true;
      }
      var held := Holdings(user, Some((token, remaining)));
      Proofs.HealthSame(market, held, L.Held(market, coll, user)[token := remaining], debt);
      var health := HealthFrom(held, debt);
      return health.Some? && health.value >= params.healthThreshold;
    }

    method WithdrawCollateral(user: Address, token: Address, amount: int) returns (r: Option<()>)
      modifies this`coll, this`totalColl, this`ledger
      ensures (View(), r) == Commit(L.Withdraw(old(View()), user, token, amount), old(View()))
    {
      hide L.SafeWith, L.WriteColl;
      var have := At(coll, L.CollKey(user, token));
      var _ :- Need(user != SELF && !paused && amount > 0 && have >= amount);
      var safe := SafetyCheck(user, token, have - amount);
      var _ :- Need(safe);
      var l :- Transfer(ledger, token, SELF, user, amount);
      MoveCollateral(user, token, -amount, l);
      return Some(());
    }

    method RepayLoan(user: Address, id: nat, amount: int, now: nat) returns (r: Option<()>)
      modifies this`loans, this`totalDebt, this`ledger
      ensures (View(), r) == Commit(L.Repay(old(View()), user, id, amount, now), old(View()))
    {
      hide AccruedInterest;
      var _ :- Need(id in (if user in userLoans then userLoans[user] else []) && id in loans);
      var loan := loans[id];
      var _ :- Need(user != SELF && !paused && amount > 0 && !loan.liquidated && !loan.repaid);
      var charge := AccruedInterest(loan.principal, loan.rate, now - loan.last);
      loan := L.AccrueLoan(loan, now);
      var _ :- Need(amount <= loan.debt);
      var l :- Transfer(ledger, loan.token, user, SELF, amount);
      StoreLoan(id, L.Paid(loan, amount, false), charge - amount);
      ledger := l;
      return Some(());
    }

    /** `accrue_one` over the user's list: each loan and its token's total move together. */
    method AccrueAll(user: Address, now: nat) returns (ok: bool)
      requires Proofs.Inv(View())
      modifies this`loans, this`totalDebt
      ensures ok && L.AccrueEach(old(View()), user, L.IdsOf(old(userLoans), user), now) == Some(View())
      ensures Proofs.Inv(View())
    {
      hide Proofs.Inv, L.Charge, L.AccrueLoan;
      var ids := if user in userLoans then userLoans[user] else [];
      ghost var before := View();
      for i := 0 to |ids|
        invariant Proofs.Inv(View()) && View() == before.(loans := loans, totalDebt := totalDebt)
        invariant L.AccrueEach(before, user, ids, now) == L.AccrueEach(View(), user, ids[i..], now)
      {
        assert ids[i..][0] == ids[i] && ids[i..][1..] == ids[i + 1..];
        Proofs.ListedIsStored(View(), user, ids[i]);
        Proofs.AccrueOneKeeps(View(), user, ids[i], now);
        var loan := loans[ids[i]];
        var charge := L.Charge(loan, now);
        if charge > 0 {
          loan := L.AccrueLoan(loan, now);
          totalDebt := totalDebt[loan.token := At(totalDebt, loan.token) + charge];
          loans := loans[ids[i] := loan];
        }
      }
      ok := true;
    }

    method UserDebtForToken(user: Address, token: Address) returns (r: Option<int>)
      ensures r.None? <==> !L.Stored(loans, L.IdsOf(userLoans, user))
      ensures r.Some? ==> r.value == L.UserDebtIn(loans, L.IdsOf(userLoans, user), user, token)
    {
      var ids := if user in userLoans then userLoans[user] else [];
      var total := 0;
      for i := 0 to |ids|
        invariant total == L.UserDebtIn(loans, ids[..i], user, token) && L.Stored(loans, ids[..i])
      {
        assert ids[..i + 1][..i] == ids[..i];
        var _ :- Need(ids[i] in loans);
        var loan := loans[ids[i]];
        if !loan.liquidated && !loan.repaid && loan.borrower == user && loan.token == token {
          total := total + loan.debt;
        }
      }
      assert ids[..|ids|] == ids;
      return Some(total);
    }

    method BorrowCheck(user: Address, amount: int) returns (may: bool)
      ensures may <==> L.MayBorrow(View(), user, amount)
    {
      hide L.UserDebt, L.Priced, L.Value, L.Weighted, L.Stored;
      var debts := UserTotalDebt(user);
      if debts.None? {
        return false;
      }
      var debt := debts.value + amount;
      var held := Holdings(user, None);
      var sums := Appraise(held);
      if sums.None? {
        return false;
      }
      if debt <= 0 {
        return true;
      }
      if sums.value.0 <= 0 {
        return false;
      }
      var health := HealthFrom(held, debt);
      return health.Some? && health.value >= params.healthThreshold;
    }

    /** A borrow refused after interest accrued leaves the loans as they were. */
    method Borrow(user: Address, token: Address, amount: int, now: nat) returns (r: Option<()>)
      requires Proofs.Inv(View())
      modifies this`loans, this`userLoans, this`counter, this`totalDebt, this`ledger
      ensures (View(), r) == Commit(L.Borrow(old(View()), user, token, amount, now), old(View()))
    {
      hide Proofs.Inv, L.AccrueEach, L.UserDebtIn, L.MayBorrow, L.CurrentRate, L.Stored;
      var _ :- Need(user != SELF && !paused && amount > 0);
      if params.maxBorrow > 0 {
        var existing :- UserDebtForToken(user, token);
        var _ :- Need(existing + amount <= params.maxBorrow);
      }
      var _ :- Need(params.debtCeiling > 0 ==> At(totalDebt, token) + amount <= params.debtCeiling);
      var loans0, totalDebt0 := loans, totalDebt;
      var _ := AccrueAll(user, now);
      var may := BorrowCheck(user, amount);
      var paid := Transfer(ledger, token, SELF, user, amount);
      if !may || paid.None? {
        loans, totalDebt := loans0, totalDebt0;
        return None;
      }
      Disburse(user, token, amount, now, paid.value);
      return Some(());
    }

    /** The new loan, its index entry and the debt total. */
    method Disburse(user: Address, token: Address, amount: int, now: nat, l: Ledger)
      modifies this`loans, this`userLoans, this`counter, this`totalDebt, this`ledger
      ensures View() == L.NewLoan(old(View()), user, token, amount, now).(ledger := l)
    {
      hide L.RateAt, L.WriteLoan, L.NewLoan;
      L.NewLoanWrites(View(), user, token, amount, now);
      var rate := L.RateAt(params.rates, At(totalDebt, token), At(deposits, token));
      StoreLoan(counter, L.Loan(user, token, amount, 0, amount, rate, now, now, false, false), amount);
      ListLoan(user, l);
    }

    /** The loan at the counter joins the user's list. */
    method ListLoan(user: Address, l: Ledger)
      modifies this`userLoans, this`counter, this`ledger
      ensures View() == old(View()).(userLoans := old(userLoans)[user := L.IdsOf(old(userLoans), user) + [old(counter)]],
                                     counter := old(counter) + 1, ledger := l)
    {
      var ids := (if user in userLoans then userLoans[user] else []) + [counter];
      userLoans, counter, ledger := userLoans[user := ids], counter + 1, l;
    }

    /** Who may be liquidated, for how much, and what is taken. */
    method PlanSeizure(borrower: Address, owed: int, cover: int) returns (r: Option<(Address, int, int)>)
      ensures r == L.SeizurePlan(View(), borrower, owed, cover)
    {
      hide Seizure, L.UserDebt, L.HealthOf, L.BestToken, L.Priced, L.Stored;
      var debt :- UserTotalDebt(borrower);
      var held := Holdings(borrower, None);
      var health :- HealthFrom(held, debt);
      var _ :- Need(health < params.healthThreshold);
      var covered := Min(cover, owed);
      var token :- BestSeizeCollateral(held);
      var _ :- Need(token in market.configs);
      var config := market.configs[token];
      var seized := Seizure(covered, L.PriceOf(market, config), config.bonus);
      var _ :- Need(At(coll, L.CollKey(borrower, token)) >= seized);
      return Some((token, covered, seized));
    }

    method LiquidateLoan(liquidator: Address, borrower: Address, id: nat, cover: int, now: nat) returns (r: Option<()>)
      modifies this`loans, this`totalDebt, this`coll, this`totalColl, this`ledger
      ensures (View(), r) == Commit(L.Liquidate(old(View()), liquidator, borrower, id, cover, now), old(View()))
    {
      hide L.SeizurePlan, L.AccrueLoan, L.Paid, L.Charge, L.WriteColl, L.WriteLoan;
      var _ :- Need(id in (if borrower in userLoans then userLoans[borrower] else []) && id in loans);
      var loan := loans[id];
      var _ :- Need(liquidator != SELF && !paused && cover > 0 && !L.Closed(loan));
      var charge, borrowToken := L.Charge(loan, now), loan.token;
      loan := L.AccrueLoan(loan, now);
      var plan :- PlanSeizure(borrower, loan.debt, cover);
      var (token, covered, seized) := plan;
      var l1 :- Transfer(ledger, borrowToken, liquidator, SELF, covered);
      var l2 :- Transfer(l1, token, SELF, liquidator, seized);
      MoveCollateral(borrower, token, -seized, l2);
      StoreLoan(id, L.Paid(loan, covered, true), charge - covered);
      return Some(());
    }
  }
}
