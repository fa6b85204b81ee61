/** What fee collection, claims and distribution accept, charge and pay, account by account
    (contracts/fee-distribution/src/lib.rs). */
module FeeEffects {
  import opened Prelude
  import opened MapSum
  import opened SeqSum
  import opened Arithmetic
  import opened TokenLedger
  import opened FeeSplit
  import opened FeeDistribution

  // ----- collection -----

  /** What a payment of `gross` is charged: nothing if the payer is exempt, else the floor of its rate. */
  ghost predicate Charged(s: State, payer: Address, gross: int, fee: int) {
    if payer in s.exempt then fee == 0
    else fee * 10_000 <= gross * s.rate < (fee + 1) * 10_000
  }

  /** A collection succeeds exactly when the amount is positive, collection is not paused and the payer has
      the fee. It takes exactly the charge from the payer, and the collected total rises by it. */
  lemma CollectExact(s: State, payer: Address, gross: int)
    ensures CollectFee(s, payer, gross).Some? <==>
              && payer != SELF && !s.paused && gross > 0
              && exists fee :: Charged(s, payer, gross, fee) && fee <= Balance(s.ledger, s.token, payer)
    ensures CollectFee(s, payer, gross).Some? ==>
              var (s', fee) := CollectFee(s, payer, gross).value;
              && Charged(s, payer, gross, fee) && fee >= 0
              && s' == s.(collected := s.collected + fee, ledger := s'.ledger)
              && Settles(s.ledger, s'.ledger, [Move(s.token, payer, SELF, fee)])
  {
    hide Settles, Transfer;
    var fee := if payer in s.exempt then 0 else gross * s.rate / 10_000;
    if gross > 0 {
      MulNonNegative(gross, s.rate);
      DivNonNegative(gross * s.rate, 10_000);
      forall x ensures Charged(s, payer, gross, x) <==> x == fee {
        DivFloor(x, gross * s.rate, 10_000);
        DivFloor(x + 1, gross * s.rate, 10_000);
      }
      assert Charged(s, payer, gross, fee);
      PaidOnce(s.ledger, s.token, payer, SELF, fee);
    }
  }

  /** One movement, or none when the amount is zero. */
  lemma PaidOnce(l: Ledger, token: Address, from: Address, to: Address, amount: int)
    ensures amount == 0 ==> Settles(l, l, [Move(token, from, to, amount)])
    ensures Transfer(l, token, from, to, amount).Some? ==>
              Settles(l, Transfer(l, token, from, to, amount).value, [Move(token, from, to, amount)])
  {
    hide Transfer;
    NothingMoved(l);
    var m := [Move(token, from, to, amount)];
    assert [] + m == m;
    if amount == 0 {
      forall t, h ensures SettledFor(l, l, m, t, h) {
        NetOfFew(m, t, h);
      }
    }
    if Transfer(l, token, from, to, amount).Some? {
      TransferSettles(l, l, [], token, from, to, amount);
    }
  }

  // ----- claims -----

  /** A claim pays the category's whole unclaimed part to its recipient and moves no other account. */
  lemma ClaimExact(s: State, id: Symbol, recipient: Address)
    requires Inv(s) && recipient != SELF
    ensures Claim(s, id, recipient).Some? <==>
              id in s.cats && s.cats[id].recipient == recipient && s.cats[id].allotted > s.cats[id].claimed
    ensures Claim(s, id, recipient).Some? ==>
              var (s', paid) := Claim(s, id, recipient).value;
              && paid == s.cats[id].allotted - s.cats[id].claimed
              && s' == s.(cats := s.cats[id := s.cats[id].(claimed := s.cats[id].allotted)], ledger := s'.ledger)
              && Settles(s.ledger, s'.ledger, [Move(s.token, SELF, recipient, paid)])
  {
    hide Settles, Inv, ClaimOne;
    ClaimAlwaysPaid(s, id, recipient);
    if Claim(s, id, recipient).Some? {
      ClaimOneSettles(s, id, recipient, true);
      var s', paid := ClaimOneShape(s, id, recipient, true);
    }
  }

  lemma ClaimOneSettles(s: State, id: Symbol, recipient: Address, strict: bool)
    requires ClaimOne(s, id, recipient, strict).Some?
    ensures var (s', paid) := ClaimOne(s, id, recipient, strict).value;
            Settles(s.ledger, s'.ledger, [Move(s.token, SELF, recipient, paid)]) && s'.token == s.token
  {
    hide Settles, Transfer;
    PaidOnce(s.ledger, s.token, SELF, recipient, ClaimOne(s, id, recipient, strict).value.1);
  }

  /** What a batch does to one category: settled in full if it is listed and the caller's, untouched otherwise. */
  ghost predicate BatchSettled(s: State, s': State, ids: seq<Symbol>, recipient: Address, id: Symbol) {
    id in s.cats ==>
      && id in s'.cats
      && s'.cats[id] == if id in ids && s.cats[id].recipient == recipient then s.cats[id].(claimed := s.cats[id].allotted) else s.cats[id]
  }

  lemma ClaimOneCategory(s: State, one: Symbol, recipient: Address, id: Symbol)
    requires Inv(s) && recipient != SELF && ClaimOne(s, one, recipient, false).Some?
    ensures BatchSettled(s, ClaimOne(s, one, recipient, false).value.0, [one], recipient, id)
  {
    hide SharesAgree, BooksAgree, InCustody, Archive;
    if id in s.cats {
      assert CategoryValid(s.cats[id]);
    }
  }

  /** A batch, repeated ids included, settles in full exactly the listed categories of the recipient and
      leaves every other as it was. */
  lemma {:induction false} BatchCategories(s: State, ids: seq<Symbol>, recipient: Address, paid: int, id: Symbol)
    requires Inv(s) && recipient != SELF && ClaimEach(s, ids, recipient, paid).Some?
    ensures BatchSettled(s, ClaimEach(s, ids, recipient, paid).value.0, ids, recipient, id)
    decreases |ids|
  {
    hide Inv, ClaimOne;
    if ids != [] {
      ClaimOneCategory(s, ids[0], recipient, id);
      ClaimOneKeeps(s, ids[0], recipient, false);
      var (s1, n) := ClaimOne(s, ids[0], recipient, false).value;
      BatchCategories(s1, ids[1..], recipient, paid + n, id);
      assert ids == [ids[0]] + ids[1..];
    }
  }

  /** And its payments to the recipient add up to what it reports, with no other account touched. */
  lemma {:induction false} BatchPays(s: State, ids: seq<Symbol>, recipient: Address, paid: int, t: Address, h: Address)
    requires Inv(s) && recipient != SELF && ClaimEach(s, ids, recipient, paid).Some?
    ensures var (s', total) := ClaimEach(s, ids, recipient, paid).value;
            Balance(s'.ledger, t, h) == Balance(s.ledger, t, h) + Shift(Move(s.token, SELF, recipient, total - paid), t, h)
    decreases |ids|
  {
    hide Inv, ClaimOne, Net;
    if ids != [] {
      ClaimOneSettles(s, ids[0], recipient, false);
      ClaimOneKeeps(s, ids[0], recipient, false);
      var (s1, n) := ClaimOne(s, ids[0], recipient, false).value;
      var m := [Move(s.token, SELF, recipient, n)];
      assert SettledFor(s.ledger, s1.ledger, m, t, h);
      NetOfFew(m, t, h);
      BatchPays(s1, ids[1..], recipient, paid + n, t, h);
    }
  }

  // ----- distribution and rates -----

  /** Anyone can distribute exactly when the shares add up to 100% and something is pending. */
  lemma DistributeIff(s: State)
    requires Inv(s)
    ensures Distribute(s).Some? <==> s.totalShares == 10_000 && s.collected > s.allotted
  {
    hide Sum, Total, Split, Archive, Zip, Credit, ActiveIds, SharesOf;
    ListedSum(s.cats, s.ids);
    if ActiveIds(s.cats, s.ids) == [] {
      EmptyTotal(s.cats);
    }
  }

  lemma EmptyTotal(cats: map<Symbol, Category>)
    ensures Total(SharesOf(cats, [])) == 0
  {
  }

  /** The rate stays within its maximum, the maximum within 20%, and an ordinary change within 5 points. */
  lemma RateChange(s: State, caller: Address, rate: nat, emergency: bool)
    ensures SetFeeRate(s, caller, rate, emergency).Some? <==>
              caller == s.admin && rate <= s.maxRate && (emergency || (s.rate - 500 <= rate <= s.rate + 500))
    ensures SetFeeRate(s, caller, rate, emergency).Some? ==> SetFeeRate(s, caller, rate, emergency).value.0 == s.(rate := rate)
    ensures SetMaxRate(s, caller, rate).Some? <==> caller == s.admin && 0 < rate <= 2000
    ensures SetMaxRate(s, caller, rate).Some? ==>
              SetMaxRate(s, caller, rate).value.0 == s.(maxRate := rate, rate := if s.rate > rate then rate else s.rate)
  {
  }

  // ----- categories -----

  /** A new category is the administrator's, under an unused id, one of at most twenty, with a share that
      keeps the total within 100%. It starts with nothing allotted. */
  lemma CategoryAdded(s: State, caller: Address, id: Symbol, recipient: Address, share: nat)
    ensures AddCategory(s, caller, id, recipient, share).Some? <==>
              caller == s.admin && id !in s.cats && |s.ids| < 20 && 0 < share && s.totalShares + share <= 10_000
    ensures AddCategory(s, caller, id, recipient, share).Some? ==>
              AddCategory(s, caller, id, recipient, share).value.0
              == s.(cats := s.cats[id := Category(recipient, share, 0, 0, true)], ids := s.ids + [id], totalShares := s.totalShares + share)
  {
  }

  /** Updating, removing and reactivating change a category's recipient, share and activity only; what it was
      allotted and has claimed stays, and the stored total of shares follows. */
  lemma CategoryKept(s: State, s': State, caller: Address, id: Symbol, recipient: Option<Address>, share: Option<nat>, bps: nat)
    requires Inv(s)
    requires || UpdateCategory(s, caller, id, recipient, share) == Some((s', ())) || RemoveCategory(s, caller, id) == Some((s', ()))
             || ReactivateCategory(s, caller, id, bps) == Some((s', ()))
    ensures caller == s.admin && id in s.cats && id in s'.cats && s'.totalShares <= 10_000
    ensures s'.cats == s.cats[id := s'.cats[id]] && s'.cats[id].allotted == s.cats[id].allotted && s'.cats[id].claimed == s.cats[id].claimed
    ensures s' == s.(cats := s'.cats, totalShares := s.totalShares - s.cats[id].share + s'.cats[id].share)
    ensures UpdateCategory(s, caller, id, recipient, share) == Some((s', ())) ==>
              && s.cats[id].active && s'.cats[id].active
              && s'.cats[id].recipient == (if recipient.Some? then recipient.value else s.cats[id].recipient)
              && s'.cats[id].share == (if share.Some? then share.value else s.cats[id].share)
  {
    hide Sum, BooksAgree, InCustody, Archive;
  }

  lemma CategoryRemoved(s: State, caller: Address, id: Symbol, bps: nat)
    ensures RemoveCategory(s, caller, id).Some? ==>
              s.cats[id].active && !RemoveCategory(s, caller, id).value.0.cats[id].active && RemoveCategory(s, caller, id).value.0.cats[id].share == 0
              && RemoveCategory(s, caller, id).value.0.cats[id].recipient == s.cats[id].recipient
    ensures ReactivateCategory(s, caller, id, bps).Some? ==>
              !s.cats[id].active && ReactivateCategory(s, caller, id, bps).value.0.cats[id].active
              && ReactivateCategory(s, caller, id, bps).value.0.cats[id].share == bps > 0
              && ReactivateCategory(s, caller, id, bps).value.0.cats[id].recipient == s.cats[id].recipient
  {
  }

  /** Pausing and exemptions are the administrator's; pausing twice is refused. */
  lemma SettingsExact(s: State, caller: Address, paused: bool, account: Address, exempt: bool)
    ensures SetPaused(s, caller, paused) == if caller == s.admin && s.paused != paused then Some((s.(paused := paused), ())) else None
    ensures SetExempt(s, caller, account, exempt).Some? <==> caller == s.admin
    ensures SetExempt(s, caller, account, exempt).Some? ==>
              var s' := SetExempt(s, caller, account, exempt).value.0;
              s' == s.(exempt := s'.exempt) && forall a :: a in s'.exempt <==> if a == account then exempt else a in s.exempt
  {
  }

  /** An active category is updated, or removed, by the administrator; an inactive one reactivated; always
      with a positive share that keeps the total within 100%. */
  lemma CategoryChangeIff(s: State, caller: Address, id: Symbol, recipient: Option<Address>, share: Option<nat>, bps: nat)
    requires Inv(s)
    ensures UpdateCategory(s, caller, id, recipient, share).Some? <==>
              && caller == s.admin && id in s.cats && s.cats[id].active
              && (share.Some? ==> share.value > 0 && s.totalShares - s.cats[id].share + share.value <= 10_000)
    ensures RemoveCategory(s, caller, id).Some? <==> caller == s.admin && id in s.cats && s.cats[id].active
    ensures ReactivateCategory(s, caller, id, bps).Some? <==>
              caller == s.admin && id in s.cats && !s.cats[id].active && bps > 0 && s.totalShares + bps <= 10_000
  {
    hide Sum, BooksAgree, InCustody, Archive;
    if id in s.cats {
      ShareWithinTotal(s, id);
    }
  }

  lemma ShareWithinTotal(s: State, id: Symbol)
    requires Inv(s) && id in s.cats
    ensures s.cats[id].share <= s.totalShares
  {
    SumMember(ShareMap(s.cats), id);
  }

  lemma ClaimOneIff(s: State, id: Symbol, recipient: Address)
    requires Inv(s) && recipient != SELF
    ensures ClaimOne(s, id, recipient, false).Some? <==> id in s.cats
    ensures id in s.cats ==>
              ClaimOne(s, id, recipient, false).value.1 == if s.cats[id].recipient == recipient then s.cats[id].allotted - s.cats[id].claimed else 0
  {
    hide Sum, Archive;
    if id in s.cats {
      UnclaimedPart(s.cats, id);
      assert CategoryValid(s.cats[id]);
    }
  }

  ghost predicate Owed(s: State, ids: seq<Symbol>, recipient: Address) {
    exists id :: id in ids && id in s.cats && s.cats[id].recipient == recipient && s.cats[id].allotted > s.cats[id].claimed
  }

  lemma {:induction false} ClaimEachIff(s: State, ids: seq<Symbol>, recipient: Address, paid: int)
    requires Inv(s) && recipient != SELF
    ensures ClaimEach(s, ids, recipient, paid).Some? <==> forall id :: id in ids ==> id in s.cats
    ensures ClaimEach(s, ids, recipient, paid).Some? ==> (ClaimEach(s, ids, recipient, paid).value.1 > paid <==> Owed(s, ids, recipient))
    decreases |ids|
  {
    hide Inv, ClaimOne;
    if ids != [] {
      ClaimOneIff(s, ids[0], recipient);
      assert ids == [ids[0]] + ids[1..];
      if ids[0] in s.cats {
        ClaimOneKeeps(s, ids[0], recipient, false);
        var (s1, n) := ClaimOne(s, ids[0], recipient, false).value;
        SameOthers(s, s1, ids[0], recipient);
        ClaimEachIff(s1, ids[1..], recipient, paid + n);
        ClaimEachGrows(s1, ids[1..], recipient, paid + n);
        if n == 0 {
          assert Owed(s, ids, recipient) <==> Owed(s1, ids[1..], recipient);
        }
      }
    }
  }

  lemma ClaimEachGrows(s: State, ids: seq<Symbol>, recipient: Address, paid: int)
    requires Inv(s) && recipient != SELF
    ensures ClaimEach(s, ids, recipient, paid).Some? ==> ClaimEach(s, ids, recipient, paid).value.1 >= paid
  {
    hide Inv, ClaimOne;
    if ClaimEach(s, ids, recipient, paid).Some? {
      ClaimEachKeeps(s, ids, recipient, paid);
    }
  }

  lemma SameOthers(s: State, s1: State, one: Symbol, recipient: Address)
    requires Inv(s) && recipient != SELF && ClaimOne(s, one, recipient, false).Some? && s1 == ClaimOne(s, one, recipient, false).value.0
    ensures s1.cats.Keys == s.cats.Keys
    ensures ClaimOne(s, one, recipient, false).value.1 == 0 ==> s1 == s
  {
    hide Inv;
  }

  /** A batch of one to fifty categories, all of them known, succeeds exactly when something in it is owed to
      the caller. */
  lemma BatchIff(s: State, ids: seq<Symbol>, recipient: Address)
    requires Inv(s) && recipient != SELF
    ensures ClaimBatch(s, ids, recipient).Some? <==>
              0 < |ids| <= 50 && (forall id :: id in ids ==> id in s.cats) && Owed(s, ids, recipient)
  {
    hide Inv, ClaimEach, Owed;
    ClaimEachIff(s, ids, recipient, 0);
  }

  /** Deployment takes a maximum rate of at most 20% and a rate within it. */
  lemma InitializeIff(admin: Address, token: Address, rate: nat, maxRate: nat)
    ensures Initialize(admin, token, rate, maxRate).Some? <==> 0 < maxRate <= 2000 && rate <= maxRate
    ensures Initialize(admin, token, rate, maxRate).Some? ==>
              var s := Initialize(admin, token, rate, maxRate).value;
              && s.admin == admin && s.token == token && s.rate == rate && s.maxRate == maxRate && !s.paused
              && s.collected == 0 && s.allotted == 0 && s.cats == map[] && s.exempt == {}
  {
  }
}
