/** Fee collection, distribution and claims as a state machine (contracts/fee-distribution/src/lib.rs). */
module FeeDistribution {
  import opened Prelude
  import opened MapSum
  import opened TokenLedger
  import opened SeqSum
  import opened FeeSplit

  const HARD_CAP_RATE: nat := 2_000
  const MAX_RATE_STEP: int := 500
  const MAX_CATEGORIES: nat := 20
  const MAX_BATCH: nat := 50

  datatype Symbol = Symbol(code: nat)

  datatype Category = Category(recipient: Address, share: nat, allotted: int, claimed: int, active: bool)
  datatype Allocation = Allocation(category: Symbol, amount: int)
  datatype Record = Record(total: int, count: nat, allocations: seq<Allocation>)

  datatype State = State(
    admin: Address,
    token: Address,
    paused: bool,
    rate: nat,
    maxRate: nat,
    collected: int,
    allotted: int,
    totalShares: nat,
    ids: seq<Symbol>,
    cats: map<Symbol, Category>,
    exempt: set<Address>,
    counter: nat,
    records: map<nat, Record>,
    ledger: Ledger)

  // ----- configuration -----

  function Initialize(admin: Address, token: Address, rate: nat, maxRate: nat): Option<State> {
    var _ :- Need(0 < maxRate <= HARD_CAP_RATE && rate <= maxRate);
    Some(State(admin, token, false, rate, maxRate, 0, 0, 0, [], map[], {}, 0, map[], map[]))
  }

  function SetPaused(s: State, caller: Address, paused: bool): Option<(State, ())> {
    var _ :- Need(caller == s.admin && s.paused != paused);
    Some((s.(paused := paused), ()))
  }

  function SetFeeRate(s: State, caller: Address, rate: nat, emergency: bool): Option<(State, ())> {
    var _ :- Need(caller == s.admin && rate <= s.maxRate);
    var _ :- Need(emergency || -MAX_RATE_STEP <= rate - s.rate <= MAX_RATE_STEP);
    Some((s.(rate := rate), ()))
  }

  function SetMaxRate(s: State, caller: Address, maxRate: nat): Option<(State, ())> {
    var _ :- Need(caller == s.admin && 0 < maxRate <= HARD_CAP_RATE);
    Some((s.(maxRate := maxRate, rate := if s.rate > maxRate then maxRate else s.rate), ()))
  }

  function SetExempt(s: State, caller: Address, account: Address, exempt: bool): Option<(State, ())> {
    var _ :- Need(caller == s.admin);
    Some((s.(exempt := if exempt then s.exempt + {account} else s.exempt - {account}), ()))
  }

  predicate ShareAllowed(share: nat) {
    0 < share <= BPS
  }

  function AddCategory(s: State, caller: Address, id: Symbol, recipient: Address, share: nat): Option<(State, ())> {
    var _ :- Need(caller == s.admin && id !in s.cats && ShareAllowed(share));
    var _ :- Need(|s.ids| < MAX_CATEGORIES && s.totalShares + share <= BPS);
    Some((s.(cats := s.cats[id := Category(recipient, share, 0, 0, true)], ids := s.ids + [id],
             totalShares := s.totalShares + share), ()))
  }

  function UpdateCategory(s: State, caller: Address, id: Symbol, recipient: Option<Address>, share: Option<nat>): Option<(State, ())> {
    var _ :- Need(caller == s.admin && id in s.cats && s.cats[id].active);
    var c := s.cats[id];
    var c1 := if recipient.Some? then c.(recipient := recipient.value) else c;
    if share.None? then Some((s.(cats := s.cats[id := c1]), ()))
    else
      var _ :- Need(ShareAllowed(share.value) && s.totalShares >= c.share && s.totalShares - c.share + share.value <= BPS);
      Some((s.(cats := s.cats[id := c1.(share := share.value)], totalShares := s.totalShares - c.share + share.value), ()))
  }

  function RemoveCategory(s: State, caller: Address, id: Symbol): Option<(State, ())> {
    var _ :- Need(caller == s.admin && id in s.cats && s.cats[id].active && s.totalShares >= s.cats[id].share);
    Some((s.(cats := s.cats[id := s.cats[id].(active := false, share := 0)],
             totalShares := s.totalShares - s.cats[id].share), ()))
  }

  function ReactivateCategory(s: State, caller: Address, id: Symbol, share: nat): Option<(State, ())> {
    var _ :- Need(caller == s.admin && id in s.cats && !s.cats[id].active && ShareAllowed(share) && s.totalShares + share <= BPS);
    Some((s.(cats := s.cats[id := s.cats[id].(active := true, share := share)], totalShares := s.totalShares + share), ()))
  }

  // ----- money -----

  function CollectFee(s: State, payer: Address, gross: int): Option<(State, int)> {
    var _ :- Need(payer != SELF && !s.paused && gross > 0);
    var fee := if payer in s.exempt then 0 else gross * s.rate / BPS;
    if fee <= 0 then Some((s, 0))
    else
      var l :- Transfer(s.ledger, s.token, payer, SELF, fee);
      Some((s.(collected := s.collected + fee, ledger := l), fee))
  }

  predicate Sharing(cats: map<Symbol, Category>, id: Symbol) {
    id in cats && cats[id].active && cats[id].share > 0
  }

  /** The categories that take part, in list order. */
  function ActiveIds(cats: map<Symbol, Category>, ids: seq<Symbol>): (r: seq<Symbol>)
    ensures forall i :: 0 <= i < |r| ==> Sharing(cats, r[i])
  {
    if ids == [] then []
    else
      var init, last := ActiveIds(cats, ids[..|ids| - 1]), ids[|ids| - 1];
      if Sharing(cats, last) then init + [last] else init
  }

  function SharesOf(cats: map<Symbol, Category>, ids: seq<Symbol>): (r: seq<nat>)
    requires forall i :: 0 <= i < |ids| ==> ids[i] in cats
    ensures |r| == |ids| && forall i :: 0 <= i < |r| ==> r[i] == cats[ids[i]].share
  {
    seq(|ids|, i requires 0 <= i < |ids| => cats[ids[i]].share)
  }

  function Zip(ids: seq<Symbol>, amounts: seq<int>): (r: seq<Allocation>)
    requires |ids| == |amounts|
    ensures |r| == |ids| && forall i :: 0 <= i < |r| ==> r[i] == Allocation(ids[i], amounts[i])
  {
    seq(|ids|, i requires 0 <= i < |ids| => Allocation(ids[i], amounts[i]))
  }

  /** Categories after each allocation has been added to its own. */
  function Credit(cats: map<Symbol, Category>, allocations: seq<Allocation>): (r: map<Symbol, Category>)
    requires forall i :: 0 <= i < |allocations| ==> allocations[i].category in cats
    ensures r.Keys == cats.Keys
  {
    if allocations == [] then cats
    else
      var init, a := Credit(cats, allocations[..|allocations| - 1]), allocations[|allocations| - 1];
      init[a.category := init[a.category].(allotted := init[a.category].allotted + a.amount)]
  }

  function Distribute(s: State): Option<(State, Record)> {
    var pending := s.collected - s.allotted;
    var active := ActiveIds(s.cats, s.ids);
    var _ :- Need(s.totalShares == BPS && pending > 0 && (forall id | id in s.ids :: id in s.cats) && |active| > 0);
    var allocations := Zip(active, Split(SharesOf(s.cats, active), pending));
    var record := Record(pending, |active|, allocations);
    Some((s.(cats := Credit(s.cats, allocations), allotted := s.allotted + pending,
             counter := s.counter + 1, records := s.records[s.counter + 1 := record]), record))
  }

  function ClaimOne(s: State, id: Symbol, recipient: Address, strict: bool): Option<(State, int)> {
    var _ :- Need(id in s.cats);
    var c := s.cats[id];
    var claimable := c.allotted - c.claimed;
    if c.recipient != recipient || claimable <= 0 then
      if strict then None else Some((s, 0))
    else
      var l :- Transfer(s.ledger, s.token, SELF, recipient, claimable);
      Some((s.(cats := s.cats[id := c.(claimed := c.claimed + claimable)], ledger := l), claimable))
  }

  function Claim(s: State, id: Symbol, recipient: Address): Option<(State, int)> {
    var _ :- Need(recipient != SELF);
    ClaimOne(s, id, recipient, true)
  }

  function ClaimEach(s: State, ids: seq<Symbol>, recipient: Address, paid: int): Option<(State, int)>
    decreases |ids|
  {
    if ids == [] then Some((s, paid))
    else
      var (s', n) :- ClaimOne(s, ids[0], recipient, false);
      ClaimEach(s', ids[1..], recipient, paid + n)
  }

  function ClaimBatch(s: State, ids: seq<Symbol>, recipient: Address): Option<(State, int)> {
    var _ :- Need(recipient != SELF && 0 < |ids| <= MAX_BATCH);
    var (s', paid) :- ClaimEach(s, ids, recipient, 0);
    var _ :- Need(paid > 0);
    Some((s', paid))
  }

  function Outside(s: State, token: Address, from: Address, to: Address, amount: int): Option<(State, ())> {
    var _ :- Need(from != SELF);
    var l :- Transfer(s.ledger, token, from, to, amount);
    Some((s.(ledger := l), ()))
  }

  function Issue(s: State, token: Address, to: Address, amount: int): Option<(State, ())> {
    var _ :- Need(amount >= 0);
    Some((s.(ledger := s.ledger[Holding(token, to) := Balance(s.ledger, token, to) + amount]), ()))
  }

  // ----- runs -----

  datatype Op =
    | OpSetPaused(caller: Address, paused: bool)
    | OpSetFeeRate(caller: Address, rate: nat, emergency: bool)
    | OpSetMaxRate(caller: Address, maxRate: nat)
    | OpSetExempt(caller: Address, account: Address, isExempt: bool)
    | OpAdd(caller: Address, id: Symbol, recipient: Address, bps: nat)
    | OpUpdate(caller: Address, id: Symbol, newRecipient: Option<Address>, newShare: Option<nat>)
    | OpRemove(caller: Address, id: Symbol)
    | OpReactivate(caller: Address, id: Symbol, bps: nat)
    | OpCollect(payer: Address, gross: int)
    | OpDistribute
    | OpClaim(id: Symbol, recipient: Address)
    | OpClaimBatch(ids: seq<Symbol>, recipient: Address)
    | OpOutside(token: Address, from: Address, to: Address, amount: int)
    | OpIssue(token: Address, to: Address, amount: int)

  function Step(s: State, op: Op): State {
    match op
    case OpSetPaused(c, p) => Commit(SetPaused(s, c, p), s).0
    case OpSetFeeRate(c, r, e) => Commit(SetFeeRate(s, c, r, e), s).0
    case OpSetMaxRate(c, r) => Commit(SetMaxRate(s, c, r), s).0
    case OpSetExempt(c, a, e) => Commit(SetExempt(s, c, a, e), s).0
    case OpAdd(c, id, r, b) => Commit(AddCategory(s, c, id, r, b), s).0
    case OpUpdate(c, id, r, b) => Commit(UpdateCategory(s, c, id, r, b), s).0
    case OpRemove(c, id) => Commit(RemoveCategory(s, c, id), s).0
    case OpReactivate(c, id, b) => Commit(ReactivateCategory(s, c, id, b), s).0
    case OpCollect(p, g) => Commit(CollectFee(s, p, g), s).0
    case OpDistribute => Commit(Distribute(s), s).0
    case OpClaim(id, r) => Commit(Claim(s, id, r), s).0
    case OpClaimBatch(ids, r) => Commit(ClaimBatch(s, ids, r), s).0
    case OpOutside(t, x, y, n) => Commit(Outside(s, t, x, y, n), s).0
    case OpIssue(t, x, n) => Commit(Issue(s, t, x, n), s).0
  }

  function Run(s: State, ops: seq<Op>): State
    decreases |ops|
  {
    if ops == [] then s else Run(Step(s, ops[0]), ops[1..])
  }

  // ----- the invariant -----

  ghost function ShareMap(cats: map<Symbol, Category>): map<Symbol, int> {
    map id | id in cats :: cats[id].share
  }

  ghost function AllocatedMap(cats: map<Symbol, Category>): map<Symbol, int> {
    map id | id in cats :: cats[id].allotted
  }

  ghost function ClaimedMap(cats: map<Symbol, Category>): map<Symbol, int> {
    map id | id in cats :: cats[id].claimed
  }

  ghost function TotalMap(records: map<nat, Record>): map<nat, int> {
    map i | i in records :: records[i].total
  }

  function Amounts(allocations: seq<Allocation>): (r: seq<int>)
    ensures |r| == |allocations| && forall i :: 0 <= i < |r| ==> r[i] == allocations[i].amount
  {
    seq(|allocations|, i requires 0 <= i < |allocations| => allocations[i].amount)
  }

  ghost predicate CategoryValid(c: Category) {
    0 <= c.claimed <= c.allotted && (if c.active then c.share > 0 else c.share == 0)
  }

  ghost predicate RecordValid(r: Record) {
    r.total > 0 && Total(Amounts(r.allocations)) == r.total && |r.allocations| == r.count
  }

  ghost predicate Distinct(ids: seq<Symbol>) {
    forall i, j :: 0 <= i < j < |ids| ==> ids[i] != ids[j]
  }

  ghost predicate Listed(ids: seq<Symbol>, cats: map<Symbol, Category>) {
    && |ids| <= MAX_CATEGORIES
    && Distinct(ids)
    && (forall id :: id in ids <==> id in cats)
    && (forall id :: id in cats ==> CategoryValid(cats[id]))
  }

  ghost predicate Rates(s: State) {
    s.rate <= s.maxRate <= HARD_CAP_RATE
  }

  ghost predicate SharesAgree(cats: map<Symbol, Category>, totalShares: nat) {
    Sum(ShareMap(cats)) == totalShares <= BPS
  }

  ghost predicate BooksAgree(cats: map<Symbol, Category>, allotted: int, collected: int) {
    Sum(AllocatedMap(cats)) == allotted <= collected
  }

  /** What was collected and not yet claimed is in custody. */
  ghost predicate InCustody(cats: map<Symbol, Category>, collected: int, held: int) {
    collected - Sum(ClaimedMap(cats)) <= held
  }

  ghost predicate Archive(records: map<nat, Record>, counter: nat, allotted: int) {
    && (forall i: nat :: i in records <==> 0 < i <= counter)
    && (forall i :: i in records ==> RecordValid(records[i]))
    && Sum(TotalMap(records)) == allotted
  }

  ghost predicate Inv(s: State) {
    && Listed(s.ids, s.cats) && Rates(s)
    && SharesAgree(s.cats, s.totalShares)
    && BooksAgree(s.cats, s.allotted, s.collected)
    && InCustody(s.cats, s.collected, Balance(s.ledger, s.token, SELF))
    && Archive(s.records, s.counter, s.allotted)
  }

  // ----- one category written -----

  lemma WriteCategory(cats: map<Symbol, Category>, id: Symbol, c: Category)
    ensures var c0 := if id in cats then cats[id] else Category(SELF, 0, 0, 0, false);
            && Sum(ShareMap(cats[id := c])) == Sum(ShareMap(cats)) - c0.share + c.share
            && Sum(AllocatedMap(cats[id := c])) == Sum(AllocatedMap(cats)) - c0.allotted + c.allotted
            && Sum(ClaimedMap(cats[id := c])) == Sum(ClaimedMap(cats)) - c0.claimed + c.claimed
  {
    hide Sum;
    var cats' := cats[id := c];
    SumUpdate(ShareMap(cats), id, c.share);
    SumUpdate(AllocatedMap(cats), id, c.allotted);
    SumUpdate(ClaimedMap(cats), id, c.claimed);
    assert ShareMap(cats') == ShareMap(cats)[id := c.share];
    assert AllocatedMap(cats') == AllocatedMap(cats)[id := c.allotted];
    assert ClaimedMap(cats') == ClaimedMap(cats)[id := c.claimed];
  }

  lemma ListedWrite(ids: seq<Symbol>, cats: map<Symbol, Category>, id: Symbol, c: Category)
    requires Listed(ids, cats) && id in cats && CategoryValid(c)
    ensures Listed(ids, cats[id := c])
  {
  }

  lemma ListedAppend(ids: seq<Symbol>, cats: map<Symbol, Category>, id: Symbol, c: Category)
    requires Listed(ids, cats) && id !in cats && CategoryValid(c) && |ids| < MAX_CATEGORIES
    ensures Listed(ids + [id], cats[id := c])
  {
  }

  /** One category rewritten: its share moves the stored total, its claims move the account. */
  lemma CategoryWriteKeeps(s: State, s': State, id: Symbol, c: Category)
    requires Inv(s) && id in s.cats && CategoryValid(c) && c.allotted == s.cats[id].allotted
    requires s' == s.(cats := s.cats[id := c], totalShares := s'.totalShares, ledger := s'.ledger)
    requires s'.totalShares - c.share == s.totalShares - s.cats[id].share && s'.totalShares <= BPS
    requires Balance(s.ledger, s.token, SELF) - Balance(s'.ledger, s.token, SELF) <= c.claimed - s.cats[id].claimed
    ensures Inv(s')
  {
    hide Sum, Listed, Archive;
    WriteCategory(s.cats, id, c);
    ListedWrite(s.ids, s.cats, id, c);
  }

  lemma AddKeeps(s: State, caller: Address, id: Symbol, recipient: Address, share: nat)
    requires Inv(s) && AddCategory(s, caller, id, recipient, share).Some?
    ensures Inv(AddCategory(s, caller, id, recipient, share).value.0)
  {
    hide Sum, Listed, Archive;
    var c := Category(recipient, share, 0, 0, true);
    WriteCategory(s.cats, id, c);
    ListedAppend(s.ids, s.cats, id, c);
  }

  lemma UpdateKeeps(s: State, caller: Address, id: Symbol, recipient: Option<Address>, share: Option<nat>)
    requires Inv(s) && UpdateCategory(s, caller, id, recipient, share).Some?
    ensures Inv(UpdateCategory(s, caller, id, recipient, share).value.0)
  {
    hide Sum, Archive, SharesAgree, BooksAgree, InCustody;
    SharesBound(s);
    var s' := UpdateCategory(s, caller, id, recipient, share).value.0;
    CategoryWriteKeeps(s, s', id, s'.cats[id]);
  }

  lemma RemoveKeeps(s: State, caller: Address, id: Symbol)
    requires Inv(s) && RemoveCategory(s, caller, id).Some?
    ensures Inv(RemoveCategory(s, caller, id).value.0)
  {
    hide Sum, Archive, SharesAgree, BooksAgree, InCustody;
    SharesBound(s);
    var s' := RemoveCategory(s, caller, id).value.0;
    CategoryWriteKeeps(s, s', id, s'.cats[id]);
  }

  lemma ReactivateKeeps(s: State, caller: Address, id: Symbol, share: nat)
    requires Inv(s) && ReactivateCategory(s, caller, id, share).Some?
    ensures Inv(ReactivateCategory(s, caller, id, share).value.0)
  {
    hide Sum, Archive, SharesAgree, BooksAgree, InCustody;
    var s' := ReactivateCategory(s, caller, id, share).value.0;
    CategoryWriteKeeps(s, s', id, s'.cats[id]);
  }

  lemma SharesBound(s: State)
    requires Inv(s)
    ensures s.totalShares <= BPS
  {
  }

  lemma ClaimOneShape(s: State, id: Symbol, recipient: Address, strict: bool) returns (s': State, paid: int)
    requires recipient != SELF && ClaimOne(s, id, recipient, strict).Some?
    ensures ClaimOne(s, id, recipient, strict) == Some((s', paid)) && paid >= 0 && id in s.cats
    ensures var c := s.cats[id];
            if paid == 0 then s' == s
            else && paid == c.allotted - c.claimed
                 && s' == s.(cats := s.cats[id := c.(claimed := c.allotted)], ledger := s'.ledger)
                 && Balance(s'.ledger, s.token, SELF) == Balance(s.ledger, s.token, SELF) - paid
  {
    s', paid := ClaimOne(s, id, recipient, strict).value.0, ClaimOne(s, id, recipient, strict).value.1;
  }

  lemma ClaimOneKeeps(s: State, id: Symbol, recipient: Address, strict: bool)
    requires Inv(s) && recipient != SELF && ClaimOne(s, id, recipient, strict).Some?
    ensures var (s', paid) := ClaimOne(s, id, recipient, strict).value;
            && Inv(s') && paid >= 0
            && Sum(ClaimedMap(s'.cats)) == Sum(ClaimedMap(s.cats)) + paid
            && s'.collected == s.collected && s'.allotted == s.allotted
  {
    hide Sum, Archive, BooksAgree, InCustody;
    var s', paid := ClaimOneShape(s, id, recipient, strict);
    if paid != 0 {
      WriteCategory(s.cats, id, s'.cats[id]);
      CategoryWriteKeeps(s, s', id, s'.cats[id]);
    }
  }

  lemma {:induction false} ClaimEachKeeps(s: State, ids: seq<Symbol>, recipient: Address, paid: int)
    requires Inv(s) && recipient != SELF && ClaimEach(s, ids, recipient, paid).Some?
    ensures var (s', total) := ClaimEach(s, ids, recipient, paid).value;
            && Inv(s') && total >= paid
            && Sum(ClaimedMap(s'.cats)) == Sum(ClaimedMap(s.cats)) + total - paid
            && s'.collected == s.collected && s'.allotted == s.allotted
    decreases |ids|
  {
    hide Sum, Inv;
    if ids != [] {
      ClaimOneKeeps(s, ids[0], recipient, false);
      var (s1, n) := ClaimOne(s, ids[0], recipient, false).value;
      ClaimEachKeeps(s1, ids[1..], recipient, paid + n);
    }
  }

  /** A recipient's claim is never refused for want of funds. */
  lemma ClaimAlwaysPaid(s: State, id: Symbol, recipient: Address)
    requires Inv(s) && recipient != SELF
    ensures Claim(s, id, recipient).Some? <==>
              id in s.cats && s.cats[id].recipient == recipient && s.cats[id].allotted > s.cats[id].claimed
    ensures Claim(s, id, recipient).Some? ==> Claim(s, id, recipient).value.1 == s.cats[id].allotted - s.cats[id].claimed
  {
    hide Sum, Archive;
    if id in s.cats {
      UnclaimedPart(s.cats, id);
    }
  }

  /** One category's unclaimed part is within the unclaimed total. */
  lemma UnclaimedPart(cats: map<Symbol, Category>, id: Symbol)
    requires id in cats && forall j :: j in cats ==> CategoryValid(cats[j])
    ensures cats[id].allotted - cats[id].claimed <= Sum(AllocatedMap(cats)) - Sum(ClaimedMap(cats))
  {
    hide Sum;
    SumRemove(AllocatedMap(cats), id);
    SumRemove(ClaimedMap(cats), id);
    SumMonotone(ClaimedMap(cats) - {id}, AllocatedMap(cats) - {id});
  }

  // ----- a distribution -----

  lemma {:induction false} CreditSums(cats: map<Symbol, Category>, allocations: seq<Allocation>)
    requires forall i :: 0 <= i < |allocations| ==> allocations[i].category in cats
    ensures var cats' := Credit(cats, allocations);
            && Sum(AllocatedMap(cats')) == Sum(AllocatedMap(cats)) + Total(Amounts(allocations))
            && Sum(ShareMap(cats')) == Sum(ShareMap(cats)) && Sum(ClaimedMap(cats')) == Sum(ClaimedMap(cats))
    decreases |allocations|
  {
    hide Sum;
    if allocations != [] {
      var init, a := allocations[..|allocations| - 1], allocations[|allocations| - 1];
      CreditSums(cats, init);
      var mid := Credit(cats, init);
      WriteCategory(mid, a.category, mid[a.category].(allotted := mid[a.category].allotted + a.amount));
      assert Amounts(allocations)[..|init|] == Amounts(init);
    }
  }

  /** Crediting touches nothing of a category but its allotted total. */
  lemma {:induction false} CreditTerms(cats: map<Symbol, Category>, allocations: seq<Allocation>, id: Symbol)
    requires forall i :: 0 <= i < |allocations| ==> allocations[i].category in cats
    requires id in cats
    ensures var c, c' := cats[id], Credit(cats, allocations)[id];
            c' == c.(allotted := c'.allotted)
    decreases |allocations|
  {
    if allocations != [] {
      CreditTerms(cats, allocations[..|allocations| - 1], id);
    }
  }

  lemma {:induction false} CreditGrows(cats: map<Symbol, Category>, allocations: seq<Allocation>, id: Symbol)
    requires forall i :: 0 <= i < |allocations| ==> allocations[i].category in cats && allocations[i].amount >= 0
    requires id in cats
    ensures Credit(cats, allocations)[id].allotted >= cats[id].allotted
    decreases |allocations|
  {
    if allocations != [] {
      CreditGrows(cats, allocations[..|allocations| - 1], id);
    }
  }

  /** A sum over the list is the sum of the map it lists. */
  lemma {:induction false} ListedSum(cats: map<Symbol, Category>, ids: seq<Symbol>)
    requires Distinct(ids)
    requires forall id :: id in ids <==> id in cats
    requires forall id :: id in cats ==> CategoryValid(cats[id])
    ensures Total(SharesOf(cats, ActiveIds(cats, ids))) == Sum(ShareMap(cats))
    decreases |ids|
  {
    hide Sum, ActiveIds, CategoryValid, SharesOf, Total, Distinct;
    if ids == [] {
      NothingListed(cats);
    } else {
      var init, last := ids[..|ids| - 1], ids[|ids| - 1];
      var rest := cats - {last};
      assert ids == init + [last];
      ListedRest(cats, ids, init, last);
      ListedSum(rest, init);
      SumRemove(ShareMap(cats), last);
      assert ShareMap(cats) - {last} == ShareMap(rest);
      LastShare(cats, rest, init, last);
    }
  }

  lemma ListedRest(cats: map<Symbol, Category>, ids: seq<Symbol>, init: seq<Symbol>, last: Symbol)
    requires ids == init + [last] && Distinct(ids) && forall id :: id in ids <==> id in cats
    ensures Distinct(init) && last in cats && forall id :: id in init <==> id in cats - {last}
  {
    assert ids[|init|] == last;
    forall id ensures id in init <==> id in cats - {last} {
      assert id in ids <==> id in init || id == last;
      if id in init {
        var i :| 0 <= i < |init| && init[i] == id;
        assert ids[i] == id;
      }
    }
    assert forall i :: 0 <= i < |init| ==> ids[i] == init[i];
  }

  lemma NothingListed(cats: map<Symbol, Category>)
    requires cats == map[]
    ensures Total(SharesOf(cats, ActiveIds(cats, []))) == Sum(ShareMap(cats))
  {
    assert ShareMap(cats) == map[];
  }

  lemma LastShare(cats: map<Symbol, Category>, rest: map<Symbol, Category>, init: seq<Symbol>, last: Symbol)
    requires forall id :: id in init ==> id in cats && id in rest && cats[id] == rest[id]
    requires last in cats && CategoryValid(cats[last])
    ensures Total(SharesOf(cats, ActiveIds(cats, init + [last])))
         == Total(SharesOf(rest, ActiveIds(rest, init))) + cats[last].share
  {
    assert (init + [last])[..|init|] == init;
    ActiveElsewhere(cats, rest, init);
    var shares, before := SharesOf(cats, ActiveIds(cats, init + [last])), SharesOf(rest, ActiveIds(rest, init));
    if Sharing(cats, last) {
      assert shares == before + [cats[last].share];
      assert shares[..|before|] == before;
    } else {
      assert shares == before;
    }
  }

  lemma {:induction false} ActiveElsewhere(cats: map<Symbol, Category>, rest: map<Symbol, Category>, ids: seq<Symbol>)
    requires forall id :: id in ids ==> id in cats && id in rest && cats[id] == rest[id]
    ensures ActiveIds(cats, ids) == ActiveIds(rest, ids)
    ensures forall i :: 0 <= i < |ActiveIds(cats, ids)| ==> ActiveIds(cats, ids)[i] in ids
    decreases |ids|
  {
    if ids != [] {
      ActiveElsewhere(cats, rest, ids[..|ids| - 1]);
    }
  }

  /** The allocations follow the exact split, in list order. */
  ghost predicate ExactAllocations(cats: map<Symbol, Category>, active: seq<Symbol>, allocations: seq<Allocation>, pending: int) {
    var n := |active|;
    && n > 0 && |allocations| == n && Total(Amounts(allocations)) == pending
    && (forall i :: 0 <= i < n ==> active[i] in cats && allocations[i].category == active[i] && allocations[i].amount >= 0)
    && (forall i :: 0 <= i < n - 1 ==> allocations[i].amount == Share(pending, cats[active[i]].share))
    && 0 <= allocations[n - 1].amount - Share(pending, cats[active[n - 1]].share) < n
  }

  lemma ZipExact(cats: map<Symbol, Category>, active: seq<Symbol>, pending: int)
    requires |active| > 0 && pending > 0 && forall i :: 0 <= i < |active| ==> active[i] in cats
    requires Total(SharesOf(cats, active)) == BPS
    ensures |Split(SharesOf(cats, active), pending)| == |active|
    ensures ExactAllocations(cats, active, Zip(active, Split(SharesOf(cats, active), pending)), pending)
  {
    hide Total, Split, Share;
    var parts := Split(SharesOf(cats, active), pending);
    SplitExact(SharesOf(cats, active), pending);
    assert Amounts(Zip(active, parts)) == parts;
  }

  lemma DistributionShape(s: State)
    requires Inv(s) && Distribute(s).Some?
    ensures var (s', record) := Distribute(s).value;
            var active := ActiveIds(s.cats, s.ids);
            && record.count == |active| && record.total == s.collected - s.allotted > 0
            && ExactAllocations(s.cats, active, record.allocations, record.total)
            && RecordValid(record)
            && s' == s.(cats := Credit(s.cats, record.allocations), allotted := s.collected,
                        counter := s.counter + 1, records := s.records[s.counter + 1 := record])
  {
    hide Sum, Total, Split, Archive, BooksAgree, InCustody, ActiveIds, Zip, SharesOf, ExactAllocations, RecordValid, Distinct, Credit;
    ListedSum(s.cats, s.ids);
    var active, pending := ActiveIds(s.cats, s.ids), s.collected - s.allotted;
    ZipExact(s.cats, active, pending);
    ExactIsValid(s.cats, active, Zip(active, Split(SharesOf(s.cats, active), pending)), pending);
  }

  lemma ExactIsValid(cats: map<Symbol, Category>, active: seq<Symbol>, allocations: seq<Allocation>, pending: int)
    requires ExactAllocations(cats, active, allocations, pending) && pending > 0
    ensures RecordValid(Record(pending, |active|, allocations))
    ensures forall i :: 0 <= i < |allocations| ==> allocations[i].category in cats
  {
    hide Total;
  }

  lemma {:induction false} ActiveDistinct(cats: map<Symbol, Category>, ids: seq<Symbol>)
    requires Distinct(ids)
    ensures Distinct(ActiveIds(cats, ids)) && forall id :: id in ActiveIds(cats, ids) ==> id in ids
    decreases |ids|
  {
    if ids != [] {
      var init, last := ids[..|ids| - 1], ids[|ids| - 1];
      ActiveDistinct(cats, init);
      assert last !in init;
    }
  }

  /** Each category's allotted total rises by its own part, and nothing else of any category changes. */
  ghost predicate Credited(cats: map<Symbol, Category>, cats': map<Symbol, Category>, ids: seq<Symbol>, allocations: seq<Allocation>) {
    && |allocations| == |ids| && cats'.Keys == cats.Keys
    && (forall i :: 0 <= i < |ids| ==> Raised(cats, cats', ids[i], allocations[i].amount))
    && forall id :: id in cats && id !in ids ==> cats'[id] == cats[id]
  }

  ghost predicate Raised(cats: map<Symbol, Category>, cats': map<Symbol, Category>, id: Symbol, amount: int) {
    id in cats && id in cats' && cats'[id] == cats[id].(allotted := cats[id].allotted + amount)
  }

  lemma {:induction false} CreditElsewhere(cats: map<Symbol, Category>, allocations: seq<Allocation>, id: Symbol)
    requires forall i :: 0 <= i < |allocations| ==> allocations[i].category in cats && allocations[i].category != id
    requires id in cats
    ensures Credit(cats, allocations)[id] == cats[id]
    decreases |allocations|
  {
    if allocations != [] {
      CreditElsewhere(cats, allocations[..|allocations| - 1], id);
    }
  }

  lemma {:induction false} CreditOwn(cats: map<Symbol, Category>, allocations: seq<Allocation>, i: nat)
    requires i < |allocations| && forall j :: 0 <= j < |allocations| ==> allocations[j].category in cats
    requires forall j :: 0 <= j < |allocations| && j != i ==> allocations[j].category != allocations[i].category
    ensures Raised(cats, Credit(cats, allocations), allocations[i].category, allocations[i].amount)
    decreases |allocations|
  {
    var k := |allocations| - 1;
    if i == k {
      CreditElsewhere(cats, allocations[..k], allocations[i].category);
    } else {
      CreditOwn(cats, allocations[..k], i);
    }
  }

  lemma CreditExact(cats: map<Symbol, Category>, ids: seq<Symbol>, allocations: seq<Allocation>)
    requires Distinct(ids) && |allocations| == |ids|
    requires forall i :: 0 <= i < |ids| ==> ids[i] in cats && allocations[i].category == ids[i]
    ensures forall i :: 0 <= i < |allocations| ==> allocations[i].category in cats
    ensures Credited(cats, Credit(cats, allocations), ids, allocations)
  {
    hide Credit, Raised;
    var cats' := Credit(cats, allocations);
    forall i | 0 <= i < |ids| ensures Raised(cats, cats', ids[i], allocations[i].amount) {
      CreditOwn(cats, allocations, i);
    }
    forall id | id in cats && id !in ids ensures cats'[id] == cats[id] {
      CreditElsewhere(cats, allocations, id);
    }
  }

  /** A distribution splits the pending fees exactly: each active category gets the floor of its
      share, and the last also gets a remainder at least 0 and below the number of categories. Each
      category's total rises by its own part, every other category stays as it was, nothing is left pending. */
  lemma DistributionExact(s: State)
    requires Inv(s) && Distribute(s).Some?
    ensures var (s', record) := Distribute(s).value;
            var active := ActiveIds(s.cats, s.ids);
            && Distinct(active) && record.count == |active| && record.total == s.collected - s.allotted > 0
            && ExactAllocations(s.cats, active, record.allocations, record.total)
            && Credited(s.cats, s'.cats, active, record.allocations)
            && s' == s.(cats := s'.cats, allotted := s.collected, counter := s.counter + 1,
                        records := s.records[s.counter + 1 := record])
  {
    hide Distribute, Credit, ActiveIds, Sum, Total, Archive, Credited, RecordValid;
    DistributionShape(s);
    ActiveDistinct(s.cats, s.ids);
    CreditExact(s.cats, ActiveIds(s.cats, s.ids), Distribute(s).value.1.allocations);
  }

  lemma ListedCredit(ids: seq<Symbol>, cats: map<Symbol, Category>, allocations: seq<Allocation>)
    requires Listed(ids, cats)
    requires forall i :: 0 <= i < |allocations| ==> allocations[i].category in cats && allocations[i].amount >= 0
    ensures Listed(ids, Credit(cats, allocations))
  {
    hide Credit;
    forall id | id in cats ensures CategoryValid(Credit(cats, allocations)[id]) {
      CreditTerms(cats, allocations, id);
      CreditGrows(cats, allocations, id);
    }
  }

  lemma ArchiveAppend(records: map<nat, Record>, counter: nat, allotted: int, record: Record)
    requires Archive(records, counter, allotted) && RecordValid(record)
    ensures Archive(records[counter + 1 := record], counter + 1, allotted + record.total)
  {
    hide Sum;
    var next: nat := counter + 1;
    SumUpdate(TotalMap(records), next, record.total);
    assert TotalMap(records[next := record]) == TotalMap(records)[next := record.total];
  }

  lemma DistributeKeeps(s: State)
    requires Inv(s) && Distribute(s).Some?
    ensures Inv(Distribute(s).value.0)
  {
    hide Sum, Total, Credit, ActiveIds, Distribute, Listed, Archive, RecordValid;
    DistributionShape(s);
    var (s', record) := Distribute(s).value;
    CreditSums(s.cats, record.allocations);
    assert Total(Amounts(record.allocations)) == record.total;
    ListedCredit(s.ids, s.cats, record.allocations);
    ArchiveAppend(s.records, s.counter, s.allotted, record);
  }

  // ----- whole runs -----

  /** Settings, collections and token movements elsewhere leave the categories and records alone. */
  lemma PlainStepKeeps(s: State, op: Op)
    requires Inv(s)
    requires op.OpSetPaused? || op.OpSetFeeRate? || op.OpSetMaxRate? || op.OpSetExempt? || op.OpCollect? || op.OpOutside? || op.OpIssue?
    ensures Inv(Step(s, op))
  {
    hide Sum, Listed, Archive;
  }

  lemma StepKeeps(s: State, op: Op)
    requires Inv(s)
    ensures Inv(Step(s, op))
  {
    hide Inv, AddCategory, UpdateCategory, RemoveCategory, ReactivateCategory, Distribute, ClaimOne, ClaimEach;
    match op
    case OpAdd(c, id, r, b) =>
      if AddCategory(s, c, id, r, b).Some? { AddKeeps(s, c, id, r, b); }
    case OpUpdate(c, id, r, b) =>
      if UpdateCategory(s, c, id, r, b).Some? { UpdateKeeps(s, c, id, r, b); }
    case OpRemove(c, id) =>
      if RemoveCategory(s, c, id).Some? { RemoveKeeps(s, c, id); }
    case OpReactivate(c, id, b) =>
      if ReactivateCategory(s, c, id, b).Some? { ReactivateKeeps(s, c, id, b); }
    case OpDistribute =>
      if Distribute(s).Some? { DistributeKeeps(s); }
    case OpClaim(id, r) =>
      if Claim(s, id, r).Some? { ClaimOneKeeps(s, id, r, true); }
    case OpClaimBatch(ids, r) =>
      if ClaimBatch(s, ids, r).Some? { ClaimEachKeeps(s, ids, r, 0); }
    case _ => PlainStepKeeps(s, op);
  }

  lemma {:induction false} RunKeeps(s: State, ops: seq<Op>)
    requires Inv(s)
    ensures Inv(Run(s, ops))
    decreases |ops|
  {
    if ops != [] {
      StepKeeps(s, ops[0]);
      RunKeeps(Step(s, ops[0]), ops[1..]);
    }
  }

  lemma InitializeValid(admin: Address, token: Address, rate: nat, maxRate: nat)
    requires Initialize(admin, token, rate, maxRate).Some?
    ensures Inv(Initialize(admin, token, rate, maxRate).value)
  {
    var s := Initialize(admin, token, rate, maxRate).value;
    assert ShareMap(s.cats) == map[] && AllocatedMap(s.cats) == map[] && ClaimedMap(s.cats) == map[];
    assert TotalMap(s.records) == map[];
  }

  /** Over every run: claimed <= allotted <= collected, custody covers what is collected and not yet
      claimed, active shares sum to the stored total, and the archived distributions sum to the
      allotted total. */
  lemma EveryRun(s: State, ops: seq<Op>)
    requires Inv(s)
    ensures var s' := Run(s, ops);
            && 0 <= Sum(ClaimedMap(s'.cats)) <= Sum(AllocatedMap(s'.cats)) == s'.allotted <= s'.collected
            && (forall id :: id in s'.cats ==> 0 <= s'.cats[id].claimed <= s'.cats[id].allotted)
            && s'.collected - Sum(ClaimedMap(s'.cats)) <= Balance(s'.ledger, s'.token, SELF)
            && Sum(ShareMap(s'.cats)) == s'.totalShares <= BPS
            && Sum(TotalMap(s'.records)) == s'.allotted
            && s'.rate <= s'.maxRate <= HARD_CAP_RATE
  {
    RunKeeps(s, ops);
    var cats := Run(s, ops).cats;
    SumNonNegative(ClaimedMap(cats));
    SumMonotone(ClaimedMap(cats), AllocatedMap(cats));
  }
}
