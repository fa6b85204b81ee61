/** What each entry point of the escrow accepts and moves, account by account, and over runs what every
    account paid in and was paid (contracts/escrow/src/lib.rs). */
module EscrowEffects {
  import opened Prelude
  import opened TokenLedger
  import opened EscrowWindow
  import opened EscrowQueue
  import opened EscrowProofs
  import opened EscrowHistory

  /** How many of the times are no more than `window` before `now`. */
  ghost function Recent(times: seq<nat>, now: nat, window: nat): nat {
    if times == [] then 0
    else
      var last := times[|times| - 1];
      Recent(times[..|times| - 1], now, window) + if last + window >= now then 1 else 0
  }

  lemma {:induction false} RecentIsKept(times: seq<nat>, now: nat, window: nat)
    ensures Recent(times, now, window) == |Keep(times, Cutoff(now, window))|
    decreases |times|
  {
    if times != [] {
      RecentIsKept(times[..|times| - 1], now, window);
    }
  }

  /** The movement of an escrow's token; a native escrow moves none. */
  function MovesOf(token: Option<Address>, from: Address, to: Address, amount: int): seq<Movement> {
    if token.None? then [] else [Move(token.value, from, to, amount)]
  }

  // ----- deposits -----

  lemma MovedSettles(l: Ledger, e: Escrow, from: Address, to: Address, amount: int)
    requires !e.isNative ==> Moved(l, e.token, from, to, amount).Ok?
    ensures Settles(l, if e.isNative then l else Moved(l, e.token, from, to, amount).value, MovesOf(TokenOf(e), from, to, amount))
  {
    hide Net, Transfer;
    NothingMoved(l);
    if !e.isNative {
      TransferSettles(l, l, [], e.token, from, to, amount);
      assert [] + [Move(e.token, from, to, amount)] == [Move(e.token, from, to, amount)];
    }
  }

  /** A deposit into an active escrow succeeds exactly when the amount is positive and, for a token escrow,
      the payer has it. It takes exactly that from the payer and credits exactly that escrow. */
  lemma DepositExact(s: State, id: nat, from: Address, amount: int)
    ensures Deposit(s, id, from, amount).Ok? <==>
              && from != SELF && amount >= 1 && id in s.escrows && s.escrows[id].active
              && (s.escrows[id].isNative || amount <= Balance(s.ledger, s.escrows[id].token, from))
    ensures Deposit(s, id, from, amount).Ok? ==>
              var s', token := Deposit(s, id, from, amount).value, TokenOf(s.escrows[id]);
              && s' == s.(balances := s'.balances, ledger := s'.ledger, events := s.events + [Deposited(id, amount, from, token)])
              && (forall j :: At(s'.balances, j) == At(s.balances, j) + if j == id then amount else 0)
              && Settles(s.ledger, s'.ledger, MovesOf(token, from, SELF, amount))
  {
    hide Settles;
    if Deposit(s, id, from, amount).Ok? {
      MovedSettles(s.ledger, s.escrows[id], from, SELF, amount);
    }
  }

  // ----- the queue -----

  /** A signer or administrator queues a withdrawal of at most the balance, stored as asked, at the next id
      and the current time, with the submitter as its one approver. */
  lemma SubmitExact(s: State, submitter: Address, hasRole: bool, id: nat, recipient: Address, amount: int, now: nat)
    requires Inv(s)
    ensures Submit(s, submitter, hasRole, id, recipient, amount, now).Ok? <==>
              && !s.config.paused && (submitter in s.signers || submitter == s.config.admin || (s.config.accessControl && hasRole))
              && id in s.escrows && 1 <= amount <= At(s.balances, id)
    ensures Submit(s, submitter, hasRole, id, recipient, amount, now).Ok? ==>
              var s' := Submit(s, submitter, hasRole, id, recipient, amount, now).value;
              && s.nextTx !in s.txs && s' == s.(txs := s'.txs, nextTx := s.nextTx + 1)
              && s'.txs == s.txs[s.nextTx := Tx(id, recipient, amount, submitter, [submitter], now, false, false, 0)]
  {
    hide CustodyValid, SignersValid;
    assert TxValid(s.txs, s.escrows, s.nextTx, s.events, s.nextTx);
  }

  /** An approval adds a signer who has not approved yet, a revocation removes one who has; both only while
      the transaction is open, and nothing else of it changes. */
  lemma ApproveExact(s: State, signer: Address, id: nat)
    requires Inv(s)
    ensures Approve(s, signer, id).Ok? <==>
              signer in s.signers && id in s.txs && !s.txs[id].executed && !s.txs[id].cancelled && signer !in s.txs[id].approvers
    ensures Revoke(s, signer, id).Ok? <==>
              signer in s.signers && id in s.txs && !s.txs[id].executed && !s.txs[id].cancelled && signer in s.txs[id].approvers
    ensures Approve(s, signer, id).Ok? ==>
              var s' := Approve(s, signer, id).value;
              && s' == s.(txs := s.txs[id := s.txs[id].(approvers := s.txs[id].approvers + [signer])])
    ensures Revoke(s, signer, id).Ok? ==>
              var s' := Revoke(s, signer, id).value;
              && id in s'.txs && s' == s.(txs := s.txs[id := s.txs[id].(approvers := s'.txs[id].approvers)])
              && |s'.txs[id].approvers| == |s.txs[id].approvers| - 1
              && forall a :: a in s'.txs[id].approvers <==> a in s.txs[id].approvers && a != signer
  {
    hide CustodyValid, SignersValid;
    if id in s.txs {
      assert TxValid(s.txs, s.escrows, s.nextTx, s.events, id);
      WithoutDistinct(s.txs[id].approvers, signer);
    }
  }

  /** Revoking undoes an approval. */
  lemma ApproveRevokeRoundTrip(s: State, signer: Address, id: nat)
    requires Inv(s) && Approve(s, signer, id).Ok?
    ensures Revoke(Approve(s, signer, id).value, signer, id) == Ok(s)
  {
    hide CustodyValid, SignersValid;
    var tx := s.txs[id];
    LastRemoved(tx.approvers, signer);
    var s1 := Approve(s, signer, id).value;
    assert s1.txs[id := tx] == s.txs;
  }

  lemma {:induction false} LastRemoved(xs: seq<Address>, x: Address)
    requires x !in xs
    ensures Without(xs + [x], x) == xs
    decreases |xs|
  {
    if xs == [] {
      assert [] + [x] == [x];
    } else {
      assert (xs + [x])[1..] == xs[1..] + [x];
      LastRemoved(xs[1..], x);
    }
  }

  /** Until the grace period has lapsed only an administrator or the submitter cancels; afterwards anyone
      does. An executed or cancelled transaction is never cancelled. */
  lemma CancelExact(s: State, caller: Address, hasRole: bool, id: nat, now: nat)
    requires now <= 18_446_744_073_709_551_615
    ensures Cancel(s, caller, hasRole, id, now).Ok? <==>
              && id in s.txs && !s.txs[id].executed && !s.txs[id].cancelled
              && (|| caller == s.config.admin || (s.config.accessControl && hasRole) || caller == s.txs[id].submitter
                  || now > s.txs[id].queuedAt + s.config.delay + s.config.grace)
    ensures Cancel(s, caller, hasRole, id, now).Ok? ==>
              Cancel(s, caller, hasRole, id, now).value == s.(txs := s.txs[id := s.txs[id].(cancelled := true)])
  {
  }

  // ----- execution -----

  /** Approved by enough, inside time lock and grace, with both recent counts below the cap and the balance there. */
  ghost predicate ExecutionServed(s: State, id: nat, now: nat) {
    && !s.config.paused && id in s.txs && !s.txs[id].executed && !s.txs[id].cancelled
    && |s.txs[id].approvers| >= s.config.required
    && s.txs[id].queuedAt + s.config.delay <= now <= s.txs[id].queuedAt + s.config.delay + s.config.grace <= 18_446_744_073_709_551_615
    && Recent(s.globalLog, now, s.config.window) < s.config.max
    && Recent(RecipientLog(s, s.txs[id].recipient), now, s.config.window) < s.config.max
    && s.txs[id].amount <= At(s.balances, s.txs[id].escrow)
  }

  lemma GuardsMean(s: State, id: nat, now: nat)
    requires id in s.txs
    ensures MayExecute(s, id, now) == Fine && s.txs[id].amount <= At(s.balances, s.txs[id].escrow) <==> ExecutionServed(s, id, now)
  {
    hide Keep;
    RecentIsKept(s.globalLog, now, s.config.window);
    RecentIsKept(RecipientLog(s, s.txs[id].recipient), now, s.config.window);
  }

  lemma NoSuchTransaction(s: State, id: nat, now: nat)
    requires id !in s.txs
    ensures MayExecute(s, id, now) != Fine
  {
  }

  lemma ExecutePays(s: State, id: nat, now: nat)
    requires Execute(s, id, now).Ok?
    ensures id in s.txs && s.txs[id].escrow in s.escrows
    ensures var tx := s.txs[id];
            Settles(s.ledger, Execute(s, id, now).value.ledger, MovesOf(TokenOf(s.escrows[tx.escrow]), SELF, tx.recipient, tx.amount))
  {
    hide Keep, MayExecute, Settles;
    NoSuchIfOk(s, id, now);
    var tx := s.txs[id];
    MovedSettles(s.ledger, s.escrows[tx.escrow], SELF, tx.recipient, tx.amount);
  }

  lemma NoSuchIfOk(s: State, id: nat, now: nat)
    requires MayExecute(s, id, now) == Fine
    ensures id in s.txs
  {
  }

  /** Execution succeeds exactly when it is served. It pays exactly the amount from the contract to the
      recipient and moves no other balance, debits exactly that escrow, and marks exactly that transaction. */
  lemma ExecuteExact(s: State, id: nat, now: nat)
    requires Inv(s)
    ensures Execute(s, id, now).Ok? <==> ExecutionServed(s, id, now)
    ensures Execute(s, id, now).Ok? ==>
              && id in s.txs && s.txs[id].escrow in s.escrows
              && var s', tx := Execute(s, id, now).value, s.txs[id];
                 && s'.txs == s.txs[id := tx.(executed := true, executedAt := now)]
                 && (forall j :: At(s'.balances, j) == At(s.balances, j) - if j == tx.escrow then tx.amount else 0)
                 && Settles(s.ledger, s'.ledger, MovesOf(TokenOf(s.escrows[tx.escrow]), SELF, tx.recipient, tx.amount))
                 && s' == s.(balances := s'.balances, ledger := s'.ledger, txs := s'.txs, globalLog := s'.globalLog,
                             recipientLogs := s'.recipientLogs, events := s'.events)
  {
    hide Execute, MayExecute, ExecutionServed, Settles, Inv, Keep;
    ExecuteNeverTraps(s, id, now);
    if id in s.txs {
      GuardsMean(s, id, now);
    } else {
      NoSuchTransaction(s, id, now);
      Unserved(s, id, now);
    }
    if Execute(s, id, now).Ok? {
      ExecutePays(s, id, now);
      var s', e := ExecuteShape(s, id, now);
    }
  }

  lemma Unserved(s: State, id: nat, now: nat)
    requires id !in s.txs
    ensures !ExecutionServed(s, id, now)
  {
  }

  // ----- who paid and who was paid, over runs -----

  /** What a published event moved for an account. */
  function EventShift(e: Event, t: Address, h: Address): int {
    if e.token.None? then 0
    else if e.Deposited? then Shift(Move(e.token.value, e.from, SELF, e.amount), t, h)
    else Shift(Move(e.token.value, SELF, e.recipient, e.amount), t, h)
  }

  ghost function EventNet(events: seq<Event>, t: Address, h: Address): int {
    if events == [] then 0
    else EventNet(events[..|events| - 1], t, h) + EventShift(events[|events| - 1], t, h)
  }

  /** Amounts of a token that executions name an account as recipient of, and that deposits took from it. */
  ghost function Received(events: seq<Event>, t: Address, h: Address): int {
    if events == [] then 0
    else
      var e := events[|events| - 1];
      Received(events[..|events| - 1], t, h) + if e.Executed? && e.token == Some(t) && e.recipient == h then e.amount else 0
  }

  ghost function Given(events: seq<Event>, t: Address, h: Address): int {
    if events == [] then 0
    else
      var e := events[|events| - 1];
      Given(events[..|events| - 1], t, h) + if e.Deposited? && e.token == Some(t) && e.from == h then e.amount else 0
  }

  lemma {:induction false} EventNetMeans(events: seq<Event>, t: Address, h: Address)
    requires h != SELF
    ensures EventNet(events, t, h) == Received(events, t, h) - Given(events, t, h)
    decreases |events|
  {
    if events != [] {
      EventNetMeans(events[..|events| - 1], t, h);
    }
  }

  /** What a token movement elsewhere added to an account. */
  function OutsideShift(s: State, op: Op, t: Address, h: Address): int {
    if op.OpOutside? && Outside(s, op.token, op.from, op.to, op.amount).Ok? then Shift(Move(op.token, op.from, op.to, op.amount), t, h)
    else if op.OpIssue? && op.token == t && op.to == h then op.issued
    else 0
  }

  function OutsideNet(s: State, calls: seq<Call>, t: Address, h: Address): int
    decreases |calls|
  {
    if calls == [] then 0
    else OutsideShift(s, calls[0].op, t, h) + OutsideNet(Step(s, calls[0].op, calls[0].now), calls[1..], t, h)
  }

  lemma EventAppended(events: seq<Event>, e: Event, t: Address, h: Address)
    ensures EventNet(events + [e], t, h) == EventNet(events, t, h) + EventShift(e, t, h)
  {
    assert (events + [e])[..|events|] == events;
  }

  lemma NetOfMoves(token: Option<Address>, from: Address, to: Address, amount: int, t: Address, h: Address)
    ensures Net(MovesOf(token, from, to, amount), t, h) == if token.None? then 0 else Shift(Move(token.value, from, to, amount), t, h)
  {
    NetOfFew(MovesOf(token, from, to, amount), t, h);
  }

  ghost predicate Accounted(s: State, s': State, outside: int, t: Address, h: Address) {
    Balance(s'.ledger, t, h) - Balance(s.ledger, t, h) == EventNet(s'.events, t, h) - EventNet(s.events, t, h) + outside
  }

  lemma DepositAccounted(s: State, id: nat, from: Address, amount: int, t: Address, h: Address)
    requires Deposit(s, id, from, amount).Ok?
    ensures Accounted(s, Deposit(s, id, from, amount).value, 0, t, h)
  {
    hide Deposit, Net, EventNet;
    DepositExact(s, id, from, amount);
    var s', token := Deposit(s, id, from, amount).value, TokenOf(s.escrows[id]);
    assert SettledFor(s.ledger, s'.ledger, MovesOf(token, from, SELF, amount), t, h);
    NetOfMoves(token, from, SELF, amount, t, h);
    EventAppended(s.events, Deposited(id, amount, from, token), t, h);
  }

  lemma ExecuteAccounted(s: State, id: nat, now: nat, t: Address, h: Address)
    requires Execute(s, id, now).Ok?
    ensures Accounted(s, Execute(s, id, now).value, 0, t, h)
  {
    hide Execute, Net, EventNet, Keep;
    ExecutePays(s, id, now);
    var s', e := ExecuteShape(s, id, now);
    var tx := s.txs[id];
    assert SettledFor(s.ledger, s'.ledger, MovesOf(e.token, SELF, tx.recipient, tx.amount), t, h);
    NetOfMoves(e.token, SELF, tx.recipient, tx.amount, t, h);
    EventAppended(s.events, e, t, h);
  }

  lemma OutsideAccounted(s: State, op: Op, now: nat, t: Address, h: Address)
    requires op.OpOutside? || op.OpIssue?
    ensures Accounted(s, Step(s, op, now), OutsideShift(s, op, t, h), t, h)
  {
    hide EventNet;
  }

  lemma OtherAccounted(s: State, op: Op, now: nat)
    requires !(op.OpOutside? || op.OpIssue? || op.OpDeposit? || op.OpExecute?)
    ensures Step(s, op, now).ledger == s.ledger && Step(s, op, now).events == s.events
  {
    hide Execute, Deposit, Distinct, Without;
  }

  lemma StepAccounted(s: State, op: Op, now: nat, t: Address, h: Address)
    ensures Accounted(s, Step(s, op, now), OutsideShift(s, op, t, h), t, h)
  {
    hide Execute, Deposit, EventNet;
    match op
    case OpDeposit(id, f, n) =>
      if Deposit(s, id, f, n).Ok? { DepositAccounted(s, id, f, n, t, h); }
    case OpExecute(id) =>
      if Execute(s, id, now).Ok? { ExecuteAccounted(s, id, now, t, h); }
    case OpOutside(_, _, _, _) => OutsideAccounted(s, op, now, t, h);
    case OpIssue(_, _, _) => OutsideAccounted(s, op, now, t, h);
    case _ => OtherAccounted(s, op, now);
  }

  lemma {:induction false} RunAccounted(s: State, calls: seq<Call>, t: Address, h: Address)
    ensures Accounted(s, Run(s, calls), OutsideNet(s, calls, t, h), t, h)
    decreases |calls|
  {
    hide Step, OutsideShift, EventNet;
    if calls != [] {
      StepAccounted(s, calls[0].op, calls[0].now, t, h);
      RunAccounted(Step(s, calls[0].op, calls[0].now), calls[1..], t, h);
    }
  }

  /** Over every run, apart from token movements elsewhere, an account gained of each token exactly the
      executed amounts that name it as recipient, less its own deposits. */
  lemma RunPays(s: State, calls: seq<Call>, t: Address, h: Address)
    requires Unused(s) && h != SELF
    ensures var s' := Run(s, calls);
            Balance(s'.ledger, t, h) == Balance(s.ledger, t, h) + Received(s'.events, t, h) - Given(s'.events, t, h) + OutsideNet(s, calls, t, h)
  {
    hide Run, OutsideNet;
    RunAccounted(s, calls, t, h);
    EventNetMeans(Run(s, calls).events, t, h);
  }

  // ----- signers and settings -----

  /** Only administrators change signers: at most twenty, none twice, and never fewer than the threshold needs. */
  lemma SignersExact(s: State, caller: Address, hasRole: bool, signer: Address)
    requires Inv(s)
    ensures var admin := caller == s.config.admin || (s.config.accessControl && hasRole);
            && (AddSigner(s, caller, hasRole, signer).Ok? <==> admin && signer !in s.signers && |s.signerList| < 20)
            && (RemoveSigner(s, caller, hasRole, signer).Ok? <==> admin && signer in s.signers && |s.signerList| > s.config.required)
    ensures AddSigner(s, caller, hasRole, signer).Ok? ==>
              var s' := AddSigner(s, caller, hasRole, signer).value;
              && s'.signers == s.signers + {signer} && s'.config == s.config.(signerCount := s.config.signerCount + 1)
              && s' == s.(config := s'.config, signers := s'.signers, signerList := s.signerList + [signer])
    ensures RemoveSigner(s, caller, hasRole, signer).Ok? ==>
              var s' := RemoveSigner(s, caller, hasRole, signer).value;
              && s'.signers == s.signers - {signer} && s'.config == s.config.(signerCount := s.config.signerCount - 1)
              && s' == s.(config := s'.config, signers := s'.signers, signerList := s'.signerList)
  {
    hide CustodyValid, TxsValid;
  }

  /** Thresholds, time locks and rate limits are set by administrators, within their bounds, and alone. */
  lemma SettingsExact(s: State, caller: Address, hasRole: bool, m: nat, delay: nat, grace: nat, window: nat, max: nat)
    requires Inv(s)
    ensures var admin := caller == s.config.admin || (s.config.accessControl && hasRole);
            && (SetThreshold(s, caller, hasRole, m).Ok? <==> admin && 0 < m <= |s.signerList|)
            && (SetTimelock(s, caller, hasRole, delay, grace).Ok? <==> admin && grace > 0 && delay + grace <= 18_446_744_073_709_551_615)
            && (SetRateLimit(s, caller, hasRole, window, max).Ok? <==> admin && window > 0 && max > 0)
    ensures SetThreshold(s, caller, hasRole, m).Ok? ==>
              SetThreshold(s, caller, hasRole, m).value == s.(config := s.config.(required := m))
    ensures SetTimelock(s, caller, hasRole, delay, grace).Ok? ==>
              SetTimelock(s, caller, hasRole, delay, grace).value == s.(config := s.config.(delay := delay, grace := grace))
    ensures SetRateLimit(s, caller, hasRole, window, max).Ok? ==>
              SetRateLimit(s, caller, hasRole, window, max).value == s.(config := s.config.(window := window, max := max))
  {
    hide CustodyValid, TxsValid;
  }

  /** A new escrow is stored under an unused id as asked, open and empty; closing only stops deposits. */
  lemma EscrowsExact(s: State, token: Address, isNative: bool, caller: Address, hasRole: bool, id: nat, paused: bool)
    requires Inv(s)
    ensures CreateEscrow(s, token, isNative).Ok? <==> !s.config.paused
    ensures CreateEscrow(s, token, isNative).Ok? ==>
              && s.nextEscrow !in s.escrows
              && CreateEscrow(s, token, isNative).value
                 == s.(escrows := s.escrows[s.nextEscrow := Escrow(token, isNative, true)], balances := s.balances[s.nextEscrow := 0],
                       nextEscrow := s.nextEscrow + 1)
    ensures var admin := caller == s.config.admin || (s.config.accessControl && hasRole);
            && (CloseEscrow(s, caller, hasRole, id).Ok? <==> admin && id in s.escrows)
            && (SetPaused(s, caller, hasRole, paused).Ok? <==> admin)
    ensures CloseEscrow(s, caller, hasRole, id).Ok? ==>
              CloseEscrow(s, caller, hasRole, id).value == s.(escrows := s.escrows[id := s.escrows[id].(active := false)])
    ensures SetPaused(s, caller, hasRole, paused).Ok? ==>
              SetPaused(s, caller, hasRole, paused).value == s.(config := s.config.(paused := paused))
  {
    hide SignersValid, TxsValid;
  }
}
