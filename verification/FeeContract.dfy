/** The fee-distribution contract object; its loops are proved against the split and the credits
    of `FeeDistribution`. */
module FeeContract {
  import opened Prelude
  import opened TokenLedger
  import opened SeqSum
  import opened FeeSplit
  import D = FeeDistribution

  // ----- what the two distribution loops build -----

  lemma ActiveStep(cats: map<D.Symbol, D.Category>, ids: seq<D.Symbol>, i: nat)
    requires i < |ids|
    ensures D.ActiveIds(cats, ids[..i + 1]) ==
              if D.Sharing(cats, ids[i]) then D.ActiveIds(cats, ids[..i]) + [ids[i]] else D.ActiveIds(cats, ids[..i])
  {
    assert ids[..i + 1][..i] == ids[..i];
  }

  lemma {:induction false} ActivePrefix(cats: map<D.Symbol, D.Category>, ids: seq<D.Symbol>, i: nat)
    requires i <= |ids|
    ensures D.ActiveIds(cats, ids[..i]) <= D.ActiveIds(cats, ids)
    decreases |ids| - i
  {
    if i == |ids| {
      assert ids[..i] == ids;
    } else {
      ActivePrefix(cats, ids, i + 1);
      ActiveStep(cats, ids, i);
    }
  }

  /** The planned parts: all of them as the split gives, in the order of the active categories. */
  ghost function Plan(cats: map<D.Symbol, D.Category>, ids: seq<D.Symbol>, pending: int): (r: seq<D.Allocation>)
    requires D.ActiveIds(cats, ids) != []
    ensures |r| == |D.ActiveIds(cats, ids)| && forall i :: 0 <= i < |r| ==> r[i].category in cats
  {
    var active := D.ActiveIds(cats, ids);
    D.Zip(active, Split(D.SharesOf(cats, active), pending))
  }

  /** The loop's amount for the k-th active category is the planned one. */
  lemma PlannedAmount(cats: map<D.Symbol, D.Category>, ids: seq<D.Symbol>, pending: int, k: nat)
    requires k < |D.ActiveIds(cats, ids)|
    ensures var active, plan := D.ActiveIds(cats, ids), Plan(cats, ids, pending);
            && plan[k].category == active[k]
            && plan[k].amount == if k == |active| - 1 then pending - Total(D.Amounts(plan[..k]))
                                 else Share(pending, cats[active[k]].share)
  {
    var active, plan := D.ActiveIds(cats, ids), Plan(cats, ids, pending);
    var shares := D.SharesOf(cats, active);
    if k == |active| - 1 {
      assert D.Amounts(plan[..k]) == Floors(shares[..k], pending);
    }
  }

  lemma NothingYet(cats: map<D.Symbol, D.Category>, ids: seq<D.Symbol>, plan: seq<D.Allocation>)
    ensures D.ActiveIds(cats, ids[..0]) == [] && plan[..0] == []
    ensures D.Credit(cats, plan[..0]) == cats && Total(D.Amounts(plan[..0])) == 0
  {
  }

  lemma CreditStep(cats: map<D.Symbol, D.Category>, plan: seq<D.Allocation>, k: nat)
    requires k < |plan| && forall i :: 0 <= i < |plan| ==> plan[i].category in cats
    ensures var before := D.Credit(cats, plan[..k]); var c := before[plan[k].category];
            && D.Credit(cats, plan[..k + 1]) == before[plan[k].category := c.(allotted := c.allotted + plan[k].amount)]
            && c.share == cats[plan[k].category].share && c.active == cats[plan[k].category].active
    ensures Total(D.Amounts(plan[..k + 1])) == Total(D.Amounts(plan[..k])) + plan[k].amount
  {
    assert plan[..k + 1][..k] == plan[..k];
    D.CreditTerms(cats, plan[..k], plan[k].category);
    assert D.Amounts(plan[..k + 1])[..k] == D.Amounts(plan[..k]);
  }

  class FeeDistribution {
    var admin: Address
    var token: Address
    var paused: bool
    var rate: nat
    var maxRate: nat
    var collected: int
    var allotted: int
    var totalShares: nat
    var ids: seq<D.Symbol>
    var cats: map<D.Symbol, D.Category>
    var exempt: set<Address>
    var counter: nat
    var records: map<nat, D.Record>
    var ledger: Ledger

    ghost function View(): D.State
      reads this
    {
      D.State(admin, token, paused, rate, maxRate, collected, allotted, totalShares, ids, cats, exempt, counter, records, ledger)
    }

    constructor (admin: Address, token: Address, rate: nat, maxRate: nat)
      requires D.Initialize(admin, token, rate, maxRate).Some?
      ensures View() == D.Initialize(admin, token, rate, maxRate).value && D.Inv(View())
    {
      this.admin, this.token, this.rate, this.maxRate, paused := admin, token, rate, maxRate, false;
      collected, allotted, totalShares, ids, cats := 0, 0, 0, [], map[];
      exempt, counter, records, ledger := {}, 0, map[], map[];
      new;
      D.InitializeValid(admin, token, rate, maxRate);
    }

    method AddCategory(caller: Address, id: D.Symbol, recipient: Address, share: nat) returns (r: Option<()>)
      modifies this`cats, this`ids, this`totalShares
      ensures (View(), r) == Commit(D.AddCategory(old(View()), caller, id, recipient, share), old(View()))
      ensures D.Inv(old(View())) ==> D.Inv(View())
    {
      hide D.Inv;
      if D.Inv(View()) { D.StepKeeps(View(), D.OpAdd(caller, id, recipient, share)); }
      var _ :- Need(caller == admin && id !in cats && D.ShareAllowed(share));
      var _ :- Need(|ids| < D.MAX_CATEGORIES && totalShares + share <= BPS);
      cats := cats[id := D.Category(recipient, share, 0, 0, true)];
      ids := ids + [id];
      totalShares := totalShares + share;
      return Some(());
    }

    method RemoveCategory(caller: Address, id: D.Symbol) returns (r: Option<()>)
      modifies this`cats, this`totalShares
      ensures (View(), r) == Commit(D.RemoveCategory(old(View()), caller, id), old(View()))
      ensures D.Inv(old(View())) ==> D.Inv(View())
    {
      hide D.Inv;
      if D.Inv(View()) { D.StepKeeps(View(), D.OpRemove(caller, id)); }
      var _ :- Need(caller == admin && id in cats);
      var category := cats[id];
      var _ :- Need(category.active && totalShares >= category.share);
      totalShares := totalShares - category.share;
      cats := cats[id := category.(active := false, share := 0)];
      return Some(());
    }

    method CollectFee(payer: Address, gross: int) returns (r: Option<int>)
      modifies this`collected, this`ledger
      ensures (View(), r) == Commit(D.CollectFee(old(View()), payer, gross), old(View()))
      ensures D.Inv(old(View())) ==> D.Inv(View())
    {
      hide D.Inv;
      if D.Inv(View()) { D.StepKeeps(View(), D.OpCollect(payer, gross)); }
      var _ :- Need(payer != SELF && !paused && gross > 0);
      if payer in exempt {
        return Some(0);
      }
      var fee := gross * rate / BPS;
      if fee <= 0 {
        return Some(0);
      }
      var l :- Transfer(ledger, token, payer, SELF, fee);
      ledger := l;
      collected := collected + fee;
      return Some(fee);
    }

    /** First loop of `distribute`: how many categories take part; a listed id without a category aborts. */
    method CountActive() returns (r: Option<nat>)
      ensures r.None? <==> exists id :: id in ids && id !in cats
      ensures r.Some? ==> r.value == |D.ActiveIds(cats, ids)|
    {
      var count := 0;
      for i := 0 to |ids|
        invariant forall id :: id in ids[..i] ==> id in cats
        invariant count == |D.ActiveIds(cats, ids[..i])|
      {
        ActiveStep(cats, ids, i);
        var _ :- Need(ids[i] in cats);
        var category := cats[ids[i]];
        if category.active && category.share > 0 {
          count := count + 1;
        }
      }
      assert ids[..|ids|] == ids;
      return Some(count);
    }

    /** Second loop: credit each active category, the last with everything left over. */
    method Allocate(pending: int, activeCount: nat) returns (work: map<D.Symbol, D.Category>, allocations: seq<D.Allocation>)
      requires forall id :: id in ids ==> id in cats
      requires activeCount == |D.ActiveIds(cats, ids)| > 0
      ensures allocations == Plan(cats, ids, pending) && work == D.Credit(cats, allocations)
    {
      hide D.Credit, D.ActiveIds, Plan, Total, D.Amounts, Share;
      ghost var plan := Plan(cats, ids, pending);
      NothingYet(cats, ids, plan);
      work, allocations := cats, [];
      var sum, processed := 0, 0;
      for i := 0 to |ids|
        invariant processed == |D.ActiveIds(cats, ids[..i])| <= activeCount
        invariant allocations == plan[..processed]
        invariant work == D.Credit(cats, plan[..processed])
        invariant sum == Total(D.Amounts(plan[..processed]))
      {
        ActiveStep(cats, ids, i);
        ActivePrefix(cats, ids, i + 1);
        D.CreditTerms(cats, plan[..processed], ids[i]);
        var category := work[ids[i]];
        if category.active && category.share > 0 {
          assert D.ActiveIds(cats, ids)[processed] == ids[i];
          PlannedAmount(cats, ids, pending, processed);
          CreditStep(cats, plan, processed);
          processed := processed + 1;
          var amount := Share(pending, category.share);
          if processed == activeCount {
            var remainder := pending - sum - amount;
            amount := amount + remainder;
          }
          work := work[ids[i] := category.(allotted := category.allotted + amount)];
          sum := sum + amount;
          allocations := allocations + [D.Allocation(ids[i], amount)];
        }
      }
      assert ids[..|ids|] == ids;
      assert plan[..processed] == plan;
    }

    method Distribute() returns (r: Option<D.Record>)
      modifies this`cats, this`allotted, this`counter, this`records
      ensures (View(), r) == Commit(D.Distribute(old(View())), old(View()))
    {
      hide D.Credit, D.ActiveIds, Split, D.Zip, D.SharesOf;
      var _ :- Need(totalShares == BPS);
      var pending := collected - allotted;
      var _ :- Need(pending > 0);
      var activeCount :- CountActive();
      var _ :- Need(activeCount > 0);
      var work, allocations := Allocate(pending, activeCount);
      cats := work;
      allotted := allotted + pending;
      counter := counter + 1;
      var record := D.Record(pending, activeCount, allocations);
      records := records[counter := record];
      return Some(record);
    }

    method ClaimOne(id: D.Symbol, recipient: Address, strict: bool) returns (r: Option<int>)
      modifies this`cats, this`ledger
      ensures (View(), r) == Commit(D.ClaimOne(old(View()), id, recipient, strict), old(View()))
    {
      var _ :- Need(id in cats);
      var category := cats[id];
      if category.recipient != recipient {
        if strict { return None; }
        return Some(0);
      }
      var claimable := category.allotted - category.claimed;
      if claimable <= 0 {
        if strict { return None; }
        return Some(0);
      }
      var l :- Transfer(ledger, token, SELF, recipient, claimable);
      cats := cats[id := category.(claimed := category.claimed + claimable)];
      ledger := l;
      return Some(claimable);
    }

    /** A failing claim aborts the whole batch, so what earlier claims wrote is restored. */
    method ClaimBatch(batch: seq<D.Symbol>, recipient: Address) returns (r: Option<int>)
      modifies this`cats, this`ledger
      ensures (View(), r) == Commit(D.ClaimBatch(old(View()), batch, recipient), old(View()))
    {
      var _ :- Need(recipient != SELF && 0 < |batch| <= D.MAX_BATCH);
      var cats0, ledger0 := cats, ledger;
      var total := 0;
      ghost var before := View();
      for i := 0 to |batch|
        invariant D.ClaimEach(before, batch, recipient, 0) == D.ClaimEach(View(), batch[i..], recipient, total)
      {
        assert batch[i..][0] == batch[i] && batch[i..][1..] == batch[i + 1..];
        var paid := ClaimOne(batch[i], recipient, false);
        if paid.None? {
          cats, ledger := cats0, ledger0;
          return None;
        }
        total := total + paid.value;
      }
      if total <= 0 {
        cats, ledger := cats0, ledger0;
        return None;
      }
      return Some(total);
    }
  }

  /** Deployment: rates above their caps are refused and no contract exists. */
  method Initialize(admin: Address, token: Address, rate: nat, maxRate: nat) returns (r: Option<FeeDistribution>)
    ensures match D.Initialize(admin, token, rate, maxRate)
            case Some(s) => r.Some? && fresh(r.value) && r.value.View() == s && D.Inv(s)
            case None => r == None
  {
    var _ :- Need(0 < maxRate <= D.HARD_CAP_RATE && rate <= maxRate);
    var contract := new FeeDistribution(admin, token, rate, maxRate);
    return Some(contract);
  }
}
