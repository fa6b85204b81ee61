/** What holds of the escrow over whole runs. */
module EscrowProofs {
  import opened Prelude
  import opened MapSum
  import opened TokenLedger
  import opened SeqSum
  import opened EscrowWindow
  import opened EscrowQueue

  // ----- reading the published events -----

  /** Deposits into an escrow minus what executions took out of it. */
  ghost function Flow(events: seq<Event>, id: nat): int {
    if events == [] then 0
    else
      Flow(events[..|events| - 1], id) +
      match events[|events| - 1]
      case Deposited(e, n, _, _) => if e == id then n else 0
      case Executed(_, e, n, _, _, _, _, _, _, _) => if e == id then -n else 0
  }

  /** How often a queued transaction ran. */
  ghost function Runs(events: seq<Event>, tx: nat): nat {
    if events == [] then 0
    else
      var last := events[|events| - 1];
      Runs(events[..|events| - 1], tx) + if last.Executed? && last.tx == tx then 1 else 0
  }

  ghost function Times(events: seq<Event>): seq<nat> {
    if events == [] then []
    else
      var last := events[|events| - 1];
      var times := Times(events[..|events| - 1]);
      if last.Executed? then times + [last.time] else times
  }

  ghost function TimesTo(events: seq<Event>, r: Address): seq<nat> {
    if events == [] then []
    else
      var last := events[|events| - 1];
      var times := TimesTo(events[..|events| - 1], r);
      if last.Executed? && last.recipient == r then times + [last.time] else times
  }

  lemma ReadAppend(events: seq<Event>, e: Event)
    ensures Times(events + [e]) == if e.Executed? then Times(events) + [e.time] else Times(events)
    ensures forall id :: Flow(events + [e], id) == Flow(events, id) +
                           if e.escrow == id then if e.Deposited? then e.amount else -e.amount else 0
    ensures forall tx :: Runs(events + [e], tx) == Runs(events, tx) + if e.Executed? && e.tx == tx then 1 else 0
    ensures forall r :: TimesTo(events + [e], r) ==
                          if e.Executed? && e.recipient == r then TimesTo(events, r) + [e.time] else TimesTo(events, r)
  {
    assert (events + [e])[..|events|] == events;
  }

  // ----- the invariant, field by field -----

  ghost predicate SignersValid(c: Config, signers: set<Address>, list: seq<Address>) {
    && Distinct(list) && signers == (set x | x in list)
    && c.signerCount == |list| && 0 < c.required <= c.signerCount <= MAX_SIGNERS
  }

  ghost predicate BalanceIsFlow(balances: map<nat, int>, events: seq<Event>, id: nat) {
    At(balances, id) == Flow(events, id) >= 0
  }

  ghost function TokenBalances(escrows: map<nat, Escrow>, balances: map<nat, int>, token: Address): map<nat, int> {
    map id | id in balances && id in escrows && !escrows[id].isNative && escrows[id].token == token :: balances[id]
  }

  ghost predicate Held(escrows: map<nat, Escrow>, balances: map<nat, int>, ledger: Ledger, token: Address) {
    Balance(ledger, token, SELF) >= Sum(TokenBalances(escrows, balances, token))
  }

  ghost predicate CustodyValid(escrows: map<nat, Escrow>, next: nat, balances: map<nat, int>, ledger: Ledger, events: seq<Event>) {
    && escrows.Keys == balances.Keys && (forall id :: id in escrows ==> id < next)
    && (forall id :: BalanceIsFlow(balances, events, id))
    && (forall token :: Held(escrows, balances, ledger, token))
  }

  ghost predicate TxValid(txs: map<nat, Tx>, escrows: map<nat, Escrow>, next: nat, events: seq<Event>, id: nat) {
    if id in txs then
      var tx := txs[id];
      && Distinct(tx.approvers) && tx.amount >= MIN_AMOUNT && tx.escrow in escrows && id < next
      && !(tx.executed && tx.cancelled)
      && Runs(events, id) == if tx.executed then 1 else 0
    else Runs(events, id) == 0
  }

  /** A published execution is the one recorded for its transaction: same terms, at least the required
      number of distinct approvers, and a time from the end of the time lock to the end of the grace period. */
  ghost predicate EventValid(txs: map<nat, Tx>, e: Event) {
    e.Executed? ==>
      && e.tx in txs && txs[e.tx].executed && txs[e.tx].executedAt == e.time
      && txs[e.tx].escrow == e.escrow && txs[e.tx].amount == e.amount && txs[e.tx].recipient == e.recipient
      && txs[e.tx].approvers == e.approvers && Distinct(e.approvers) && 0 < e.required <= |e.approvers|
      && txs[e.tx].queuedAt + e.delay <= e.time <= txs[e.tx].queuedAt + e.delay + e.grace
  }

  ghost predicate TxsValid(txs: map<nat, Tx>, escrows: map<nat, Escrow>, next: nat, events: seq<Event>) {
    && (forall id :: TxValid(txs, escrows, next, events, id))
    && (forall i :: 0 <= i < |events| ==> EventValid(txs, events[i]))
  }

  ghost predicate Inv(s: State) {
    && SignersValid(s.config, s.signers, s.signerList)
    && CustodyValid(s.escrows, s.nextEscrow, s.balances, s.ledger, s.events)
    && TxsValid(s.txs, s.escrows, s.nextTx, s.events)
  }

  // ----- signers -----

  lemma {:induction false} WithoutDistinct(xs: seq<Address>, x: Address)
    requires Distinct(xs)
    ensures Distinct(Without(xs, x))
    ensures |Without(xs, x)| == |xs| - if x in xs then 1 else 0
    ensures forall y :: y in Without(xs, x) <==> y in xs && y != x
    decreases |xs|
  {
    if xs != [] {
      var rest := xs[1..];
      assert xs == [xs[0]] + rest;
      WithoutDistinct(rest, x);
      var r := Without(rest, x);
      assert forall k :: 0 <= k < |r| ==> r[k] in rest;
    }
  }

  lemma RemoveSignerKeeps(s: State, caller: Address, hasRole: bool, signer: Address)
    requires SignersValid(s.config, s.signers, s.signerList) && RemoveSigner(s, caller, hasRole, signer).Ok?
    ensures var s' := RemoveSigner(s, caller, hasRole, signer).value; SignersValid(s'.config, s'.signers, s'.signerList)
  {
    WithoutDistinct(s.signerList, signer);
  }

  // ----- custody -----

  lemma TokenBalancesUpdate(escrows: map<nat, Escrow>, balances: map<nat, int>, id: nat, v: int, token: Address)
    requires id in escrows
    ensures Sum(TokenBalances(escrows, balances[id := v], token)) == Sum(TokenBalances(escrows, balances, token)) +
              if !escrows[id].isNative && escrows[id].token == token then v - At(balances, id) else 0
  {
    var m := TokenBalances(escrows, balances, token);
    if !escrows[id].isNative && escrows[id].token == token {
      SumUpdate(m, id, v);
      assert TokenBalances(escrows, balances[id := v], token) == m[id := v];
    } else {
      assert TokenBalances(escrows, balances[id := v], token) == m;
    }
  }

  /** A balance write, its event and its token movement together keep custody. */
  lemma BalanceWriteKeeps(escrows: map<nat, Escrow>, next: nat, balances: map<nat, int>, ledger: Ledger, events: seq<Event>,
                          id: nat, delta: int, ledger': Ledger, e: Event)
    requires CustodyValid(escrows, next, balances, ledger, events) && id in escrows
    requires e.escrow == id && delta == (if e.Deposited? then e.amount else -e.amount) && At(balances, id) + delta >= 0
    requires forall t :: Balance(ledger', t, SELF) >= Balance(ledger, t, SELF) +
                           if !escrows[id].isNative && escrows[id].token == t then delta else 0
    ensures CustodyValid(escrows, next, balances[id := At(balances, id) + delta], ledger', events + [e])
  {
    ReadAppend(events, e);
    var balances' := balances[id := At(balances, id) + delta];
    forall j ensures BalanceIsFlow(balances', events + [e], j) {
      assert BalanceIsFlow(balances, events, j);
    }
    forall token ensures Held(escrows, balances', ledger', token) {
      assert Held(escrows, balances, ledger, token);
      TokenBalancesUpdate(escrows, balances, id, At(balances, id) + delta, token);
    }
  }

  lemma CreateKeeps(escrows: map<nat, Escrow>, next: nat, balances: map<nat, int>, ledger: Ledger, events: seq<Event>, e: Escrow)
    requires CustodyValid(escrows, next, balances, ledger, events)
    ensures CustodyValid(escrows[next := e], next + 1, balances[next := 0], ledger, events)
  {
    var escrows', balances' := escrows[next := e], balances[next := 0];
    forall j ensures BalanceIsFlow(balances', events, j) {
      assert BalanceIsFlow(balances, events, j);
    }
    forall token ensures Held(escrows', balances', ledger, token) {
      assert Held(escrows, balances, ledger, token);
      assert TokenBalances(escrows', balances, token) == TokenBalances(escrows, balances, token);
      TokenBalancesUpdate(escrows', balances, next, 0, token);
    }
  }

  lemma LedgerGrows(escrows: map<nat, Escrow>, next: nat, balances: map<nat, int>, ledger: Ledger, ledger': Ledger, events: seq<Event>)
    requires CustodyValid(escrows, next, balances, ledger, events)
    requires forall t :: Balance(ledger', t, SELF) >= Balance(ledger, t, SELF)
    ensures CustodyValid(escrows, next, balances, ledger', events)
  {
    forall token ensures Held(escrows, balances, ledger', token) {
      assert Held(escrows, balances, ledger, token);
    }
  }

  lemma CloseKeeps(escrows: map<nat, Escrow>, next: nat, balances: map<nat, int>, ledger: Ledger, events: seq<Event>, id: nat)
    requires CustodyValid(escrows, next, balances, ledger, events) && id in escrows
    ensures CustodyValid(escrows[id := escrows[id].(active := false)], next, balances, ledger, events)
  {
    var escrows' := escrows[id := escrows[id].(active := false)];
    forall token ensures Held(escrows', balances, ledger, token) {
      assert Held(escrows, balances, ledger, token);
      assert TokenBalances(escrows', balances, token) == TokenBalances(escrows, balances, token);
    }
  }

  // ----- queued transactions -----

  /** Writing a transaction that has not run, with its terms intact. */
  lemma TxWriteKeeps(txs: map<nat, Tx>, escrows: map<nat, Escrow>, next: nat, events: seq<Event>, id: nat, tx: Tx)
    requires TxsValid(txs, escrows, next, events)
    requires Distinct(tx.approvers) && tx.amount >= MIN_AMOUNT && tx.escrow in escrows && !tx.executed
    requires if id in txs then !txs[id].executed else id == next
    ensures TxsValid(txs[id := tx], escrows, if id == next then next + 1 else next, events)
  {
    var txs', next' := txs[id := tx], if id == next then next + 1 else next;
    forall j ensures TxValid(txs', escrows, next', events, j) {
      assert TxValid(txs, escrows, next, events, j);
    }
  }

  lemma MoreEscrows(txs: map<nat, Tx>, escrows: map<nat, Escrow>, escrows': map<nat, Escrow>, next: nat, events: seq<Event>)
    requires TxsValid(txs, escrows, next, events) && escrows.Keys <= escrows'.Keys
    ensures TxsValid(txs, escrows', next, events)
  {
    forall j ensures TxValid(txs, escrows', next, events, j) {
      assert TxValid(txs, escrows, next, events, j);
    }
  }

  lemma DepositEventKeeps(txs: map<nat, Tx>, escrows: map<nat, Escrow>, next: nat, events: seq<Event>, e: Event)
    requires TxsValid(txs, escrows, next, events) && e.Deposited?
    ensures TxsValid(txs, escrows, next, events + [e])
  {
    ReadAppend(events, e);
    forall j ensures TxValid(txs, escrows, next, events + [e], j) {
      assert TxValid(txs, escrows, next, events, j);
    }
  }

  lemma ExecuteTxKeeps(txs: map<nat, Tx>, escrows: map<nat, Escrow>, next: nat, events: seq<Event>, id: nat, now: nat, e: Event)
    requires TxsValid(txs, escrows, next, events) && id in txs && !txs[id].executed && !txs[id].cancelled
    requires e.Executed? && e.tx == id && EventValid(txs[id := txs[id].(executed := true, executedAt := now)], e)
    ensures TxsValid(txs[id := txs[id].(executed := true, executedAt := now)], escrows, next, events + [e])
  {
    ReadAppend(events, e);
    var txs' := txs[id := txs[id].(executed := true, executedAt := now)];
    forall j ensures TxValid(txs', escrows, next, events + [e], j) {
      assert TxValid(txs, escrows, next, events, j);
    }
  }

  // ----- every step -----

  lemma DepositShape(s: State, id: nat, from: Address, amount: int) returns (s': State)
    requires Deposit(s, id, from, amount).Ok?
    ensures Deposit(s, id, from, amount) == Ok(s') && id in s.escrows && amount >= MIN_AMOUNT
    ensures s' == s.(balances := s.balances[id := At(s.balances, id) + amount], ledger := s'.ledger,
                     events := s.events + [Deposited(id, amount, from, TokenOf(s.escrows[id]))])
    ensures forall t :: Balance(s'.ledger, t, SELF) >= Balance(s.ledger, t, SELF) +
                          if !s.escrows[id].isNative && s.escrows[id].token == t then amount else 0
  {
    s' := Deposit(s, id, from, amount).value;
  }

  lemma DepositKeeps(s: State, id: nat, from: Address, amount: int)
    requires Inv(s) && Deposit(s, id, from, amount).Ok?
    ensures Inv(Deposit(s, id, from, amount).value)
  {
    var s' := DepositShape(s, id, from, amount);
    assert BalanceIsFlow(s.balances, s.events, id);
    BalanceWriteKeeps(s.escrows, s.nextEscrow, s.balances, s.ledger, s.events, id, amount, s'.ledger, Deposited(id, amount, from, TokenOf(s.escrows[id])));
    DepositEventKeeps(s.txs, s.escrows, s.nextTx, s.events, Deposited(id, amount, from, TokenOf(s.escrows[id])));
  }

  /** A successful execution passed every guard, and changes exactly what its event says. */
  lemma ExecuteShape(s: State, id: nat, now: nat) returns (s': State, e: Event)
    requires Execute(s, id, now).Ok?
    ensures Execute(s, id, now) == Ok(s')
    ensures id in s.txs && !s.txs[id].executed && !s.txs[id].cancelled && !s.config.paused
    ensures var tx, c := s.txs[id], s.config;
            && tx.escrow in s.escrows && e == Executed(id, tx.escrow, tx.amount, tx.recipient, now, tx.approvers, c.required,
                             c.delay, c.grace, TokenOf(s.escrows[tx.escrow]))
            && c.required <= |tx.approvers| && tx.queuedAt + c.delay <= now <= tx.queuedAt + c.delay + c.grace
            && CheckRateLimits(s, tx.recipient, now) == Fine
            && tx.amount <= At(s.balances, tx.escrow)
            && s' == s.(balances := s.balances[tx.escrow := At(s.balances, tx.escrow) - tx.amount], ledger := s'.ledger,
                        txs := s.txs[id := tx.(executed := true, executedAt := now)],
                        globalLog := Keep(s.globalLog + [now], Cutoff(now, c.window)),
                        recipientLogs := s.recipientLogs[tx.recipient :=
                          Keep(RecipientLog(s, tx.recipient) + [now], Cutoff(now, c.window))],
                        events := s.events + [e])
            && forall t :: Balance(s'.ledger, t, SELF) >= Balance(s.ledger, t, SELF) -
                             if !s.escrows[tx.escrow].isNative && s.escrows[tx.escrow].token == t then tx.amount else 0
  {
    hide Keep, CheckRateLimits;
    s' := Execute(s, id, now).value;
    e := s'.events[|s.events|];
  }

  lemma ExecuteKeeps(s: State, id: nat, now: nat)
    requires Inv(s) && Execute(s, id, now).Ok?
    ensures Inv(Execute(s, id, now).value)
  {
    hide Execute, Keep, CheckRateLimits;
    var s', e := ExecuteShape(s, id, now);
    var tx := s.txs[id];
    assert TxValid(s.txs, s.escrows, s.nextTx, s.events, id);
    BalanceWriteKeeps(s.escrows, s.nextEscrow, s.balances, s.ledger, s.events, tx.escrow, -tx.amount, s'.ledger, e);
    ExecuteTxKeeps(s.txs, s.escrows, s.nextTx, s.events, id, now, e);
  }

  /** No execution is stopped by the token contract: custody always covers what is paid out. */
  lemma ExecuteNeverTraps(s: State, id: nat, now: nat)
    requires Inv(s)
    ensures Execute(s, id, now) != Err(TokenTrap)
    ensures Execute(s, id, now).Ok? <==>
              MayExecute(s, id, now) == Fine && s.txs[id].amount <= At(s.balances, s.txs[id].escrow)
  {
    hide Sum, Keep;
    if id in s.txs {
      var tx := s.txs[id];
      assert TxValid(s.txs, s.escrows, s.nextTx, s.events, id);
      EscrowCovered(s, tx.escrow);
    }
  }

  lemma EscrowCovered(s: State, id: nat)
    requires Inv(s) && id in s.escrows
    ensures !s.escrows[id].isNative ==> At(s.balances, id) <= Balance(s.ledger, s.escrows[id].token, SELF)
  {
    var token := s.escrows[id].token;
    assert Held(s.escrows, s.balances, s.ledger, token);
    forall j | j in s.balances ensures s.balances[j] >= 0 {
      assert BalanceIsFlow(s.balances, s.events, j);
    }
    SumMember(TokenBalances(s.escrows, s.balances, token), id);
  }

  lemma TxStepKeeps(s: State, op: Op, now: nat)
    requires Inv(s) && Apply(s, op, now).Ok?
    requires op.OpSubmit? || op.OpApprove? || op.OpRevoke? || op.OpCancel?
    ensures Inv(Apply(s, op, now).value)
  {
    var s' := Apply(s, op, now).value;
    match op
    case OpSubmit(x, r, id, to, n) =>
      assert TxValid(s.txs, s.escrows, s.nextTx, s.events, s.nextTx);
      TxWriteKeeps(s.txs, s.escrows, s.nextTx, s.events, s.nextTx, s'.txs[s.nextTx]);
    case OpApprove(x, id) =>
      assert TxValid(s.txs, s.escrows, s.nextTx, s.events, id);
      TxWriteKeeps(s.txs, s.escrows, s.nextTx, s.events, id, s'.txs[id]);
    case OpRevoke(x, id) =>
      assert TxValid(s.txs, s.escrows, s.nextTx, s.events, id);
      WithoutDistinct(s.txs[id].approvers, x);
      TxWriteKeeps(s.txs, s.escrows, s.nextTx, s.events, id, s'.txs[id]);
    case OpCancel(c, r, id) =>
      assert TxValid(s.txs, s.escrows, s.nextTx, s.events, id);
      TxWriteKeeps(s.txs, s.escrows, s.nextTx, s.events, id, s'.txs[id]);
  }

  /** Administration touches the configuration and the signers only. */
  lemma ConfigStepKeeps(s: State, op: Op, now: nat)
    requires Inv(s) && Apply(s, op, now).Ok?
    requires op.OpAddSigner? || op.OpRemoveSigner? || op.OpSetThreshold? || op.OpSetTimelock? || op.OpSetRateLimit? || op.OpSetPaused?
    ensures Inv(Apply(s, op, now).value)
  {
    hide CustodyValid, TxsValid, Without;
    if op.OpRemoveSigner? {
      RemoveSignerKeeps(s, op.caller, op.hasRole, op.signer);
    }
  }

  lemma CustodyStepKeeps(s: State, op: Op, now: nat)
    requires Inv(s) && Apply(s, op, now).Ok?
    requires op.OpCreateEscrow? || op.OpClose? || op.OpOutside? || op.OpIssue?
    ensures Inv(Apply(s, op, now).value)
  {
    hide SignersValid;
    var s' := Apply(s, op, now).value;
    match op
    case OpCreateEscrow(t, n) =>
      CreateKeeps(s.escrows, s.nextEscrow, s.balances, s.ledger, s.events, Escrow(t, n, true));
      MoreEscrows(s.txs, s.escrows, s'.escrows, s.nextTx, s.events);
    case OpClose(c, r, id) =>
      CloseKeeps(s.escrows, s.nextEscrow, s.balances, s.ledger, s.events, id);
      MoreEscrows(s.txs, s.escrows, s'.escrows, s.nextTx, s.events);
    case OpOutside(t, x, y, n) => LedgerGrows(s.escrows, s.nextEscrow, s.balances, s.ledger, s'.ledger, s.events);
    case OpIssue(t, x, n) => LedgerGrows(s.escrows, s.nextEscrow, s.balances, s.ledger, s'.ledger, s.events);
  }

  /** Every entry point, and every token movement elsewhere, keeps the invariant. */
  lemma StepKeeps(s: State, op: Op, now: nat)
    requires Inv(s)
    ensures Inv(Step(s, op, now))
  {
    hide Inv, Apply;
    if Apply(s, op, now).Ok? {
      match op
      case OpDeposit(_, _, _) => FundedStepKeeps(s, op, now);
      case OpExecute(_) => FundedStepKeeps(s, op, now);
      case OpCreateEscrow(_, _) => CustodyStepKeeps(s, op, now);
      case OpClose(_, _, _) => CustodyStepKeeps(s, op, now);
      case OpOutside(_, _, _, _) => CustodyStepKeeps(s, op, now);
      case OpIssue(_, _, _) => CustodyStepKeeps(s, op, now);
      case OpSubmit(_, _, _, _, _) => TxStepKeeps(s, op, now);
      case OpApprove(_, _) => TxStepKeeps(s, op, now);
      case OpRevoke(_, _) => TxStepKeeps(s, op, now);
      case OpCancel(_, _, _) => TxStepKeeps(s, op, now);
      case _ => ConfigStepKeeps(s, op, now);
    }
  }

  lemma FundedStepKeeps(s: State, op: Op, now: nat)
    requires Inv(s) && Apply(s, op, now).Ok? && (op.OpDeposit? || op.OpExecute?)
    ensures Inv(Apply(s, op, now).value)
  {
    hide Inv, Deposit, Execute;
    if op.OpDeposit? {
      DepositKeeps(s, op.id, op.from, op.amount);
    } else {
      ExecuteKeeps(s, op.tx, now);
    }
  }

  // ----- whole runs: custody, approvals, single execution -----

  lemma InitializeValid(admin: Address, accessControl: bool, signers: seq<Address>, required: nat, delay: nat, grace: nat,
                        window: nat, max: nat)
    requires Initialize(admin, accessControl, signers, required, delay, grace, window, max).Ok?
    ensures Inv(Initialize(admin, accessControl, signers, required, delay, grace, window, max).value)
  {
    var s := Initialize(admin, accessControl, signers, required, delay, grace, window, max).value;
    forall token ensures Held(s.escrows, s.balances, s.ledger, token) {
      assert TokenBalances(s.escrows, s.balances, token) == map[];
    }
  }

  lemma {:induction false} RunKeeps(s: State, calls: seq<Call>)
    requires Inv(s)
    ensures Inv(Run(s, calls))
    decreases |calls|
  {
    if calls != [] {
      StepKeeps(s, calls[0].op, calls[0].now);
      RunKeeps(Step(s, calls[0].op, calls[0].now), calls[1..]);
    }
  }

  /** Read off the invariant: each balance is deposits minus executed amounts and not negative, held
      tokens cover every token escrow, and a transaction has run at most once and never if cancelled. */
  lemma EveryRun(s: State, calls: seq<Call>, escrow: nat, token: Address, tx: nat, i: nat)
    requires Inv(s)
    ensures var s' := Run(s, calls);
            && At(s'.balances, escrow) == Flow(s'.events, escrow) >= 0
            && Balance(s'.ledger, token, SELF) >= Sum(TokenBalances(s'.escrows, s'.balances, token))
            && Runs(s'.events, tx) <= 1
            && (tx in s'.txs && s'.txs[tx].cancelled ==> Runs(s'.events, tx) == 0)
            && (i < |s'.events| ==> EventValid(s'.txs, s'.events[i]))
            && SignersValid(s'.config, s'.signers, s'.signerList)
  {
    RunKeeps(s, calls);
    var s' := Run(s, calls);
    assert BalanceIsFlow(s'.balances, s'.events, escrow);
    assert Held(s'.escrows, s'.balances, s'.ledger, token);
    assert TxValid(s'.txs, s'.escrows, s'.nextTx, s'.events, tx);
  }

  // ----- the rate limiter over whole runs -----

  ghost predicate GlobalAgrees(window: nat, log: seq<nat>, events: seq<Event>, now: nat) {
    Keep(log, Cutoff(now, window)) == Keep(Times(events), Cutoff(now, window))
  }

  ghost predicate RecipientAgrees(window: nat, logs: map<Address, seq<nat>>, events: seq<Event>, r: Address, now: nat) {
    Keep(if r in logs then logs[r] else [], Cutoff(now, window)) == Keep(TimesTo(events, r), Cutoff(now, window))
  }

  /** From `clock` on, the pruned logs tell the same window as the full history. */
  ghost predicate LogsAgree(s: State, clock: nat) {
    && (forall now :: clock <= now ==> GlobalAgrees(s.config.window, s.globalLog, s.events, now))
    && (forall r, now :: clock <= now ==> RecipientAgrees(s.config.window, s.recipientLogs, s.events, r, now))
  }

  /** No call widens the rate window. */
  ghost predicate NeverWidens(s: State, calls: seq<Call>)
    decreases |calls|
  {
    calls != [] ==>
      && (calls[0].op.OpSetRateLimit? ==> calls[0].op.window <= s.config.window)
      && NeverWidens(Step(s, calls[0].op, calls[0].now), calls[1..])
  }

  lemma LogAfter(log: seq<nat>, times: seq<nat>, window: nat, now: nat, later: nat)
    requires now <= later && Keep(log, Cutoff(later, window)) == Keep(times, Cutoff(later, window))
    ensures Keep(Keep(log + [now], Cutoff(now, window)), Cutoff(later, window)) == Keep(times + [now], Cutoff(later, window))
  {
    KeepTwice(log + [now], Cutoff(now, window), Cutoff(later, window));
    KeepAppend(log, now, Cutoff(later, window));
    KeepAppend(times, now, Cutoff(later, window));
  }

  lemma ExecuteLogs(s: State, id: nat, now: nat, clock: nat)
    requires LogsAgree(s, clock) && clock <= now && Execute(s, id, now).Ok?
    ensures LogsAgree(Execute(s, id, now).value, now)
  {
    var s', e := ExecuteShape(s, id, now);
    ReadAppend(s.events, e);
    var w := s.config.window;
    forall later | now <= later ensures GlobalAgrees(w, s'.globalLog, s'.events, later) {
      assert GlobalAgrees(w, s.globalLog, s.events, later);
      LogAfter(s.globalLog, Times(s.events), w, now, later);
    }
    forall r, later | now <= later ensures RecipientAgrees(w, s'.recipientLogs, s'.events, r, later) {
      assert RecipientAgrees(w, s.recipientLogs, s.events, r, later);
      if r == e.recipient {
        LogAfter(RecipientLog(s, r), TimesTo(s.events, r), w, now, later);
      }
    }
  }

  lemma NarrowerAgrees(log: seq<nat>, times: seq<nat>, w: nat, w': nat, now: nat)
    requires w' <= w && Keep(log, Cutoff(now, w)) == Keep(times, Cutoff(now, w))
    ensures Keep(log, Cutoff(now, w')) == Keep(times, Cutoff(now, w'))
  {
    KeepTwice(log, Cutoff(now, w), Cutoff(now, w'));
    KeepTwice(times, Cutoff(now, w), Cutoff(now, w'));
  }

  /** The logs depend only on the window, the logs and the executions published. */
  lemma QuietLogs(s: State, s': State, clock: nat, now: nat)
    requires LogsAgree(s, clock) && clock <= now && s'.config.window <= s.config.window
    requires s'.globalLog == s.globalLog && s'.recipientLogs == s.recipientLogs
    requires Times(s'.events) == Times(s.events) && forall r :: TimesTo(s'.events, r) == TimesTo(s.events, r)
    ensures LogsAgree(s', now)
  {
    var w, w' := s.config.window, s'.config.window;
    forall later | now <= later ensures GlobalAgrees(w', s'.globalLog, s'.events, later) {
      assert GlobalAgrees(w, s.globalLog, s.events, later);
      NarrowerAgrees(s.globalLog, Times(s.events), w, w', later);
    }
    forall r, later | now <= later ensures RecipientAgrees(w', s'.recipientLogs, s'.events, r, later) {
      assert RecipientAgrees(w, s.recipientLogs, s.events, r, later);
      NarrowerAgrees(RecipientLog(s, r), TimesTo(s.events, r), w, w', later);
    }
  }

  /** Neither logs nor executions, and the window only by being set. */
  ghost predicate Quiet(s: State, s': State, op: Op) {
    && s'.globalLog == s.globalLog && s'.recipientLogs == s.recipientLogs
    && Times(s'.events) == Times(s.events) && (forall r :: TimesTo(s'.events, r) == TimesTo(s.events, r))
    && (if op.OpSetRateLimit? then s'.config.window in {s.config.window, op.window}
        else s'.config.window == s.config.window && s'.config.max == s.config.max)
  }

  lemma QuietDeposit(s: State, op: Op, now: nat)
    requires op.OpDeposit?
    ensures Quiet(s, Step(s, op, now), op)
  {
    hide Deposit, Times, TimesTo;
    if Deposit(s, op.id, op.from, op.amount).Ok? {
      var s' := DepositShape(s, op.id, op.from, op.amount);
      ReadAppend(s.events, Deposited(op.id, op.amount, op.from, TokenOf(s.escrows[op.id])));
    }
  }

  lemma NoEvent(s: State, op: Op, now: nat)
    requires !op.OpExecute? && !op.OpDeposit?
    ensures var s' := Step(s, op, now);
            && s'.globalLog == s.globalLog && s'.recipientLogs == s.recipientLogs && s'.events == s.events
            && (if op.OpSetRateLimit? then s'.config.window in {s.config.window, op.window}
                else s'.config.window == s.config.window && s'.config.max == s.config.max)
  {
    hide Execute, Deposit, Distinct, Without;
  }

  /** Only an execution touches the logs and the published executions. */
  lemma QuietStep(s: State, op: Op, now: nat)
    requires !op.OpExecute?
    ensures Quiet(s, Step(s, op, now), op)
  {
    hide Step;
    if op.OpDeposit? {
      QuietDeposit(s, op, now);
    } else {
      NoEvent(s, op, now);
    }
  }

  lemma StepLogs(s: State, op: Op, now: nat, clock: nat)
    requires LogsAgree(s, clock) && clock <= now
    requires op.OpSetRateLimit? ==> op.window <= s.config.window
    ensures LogsAgree(Step(s, op, now), now)
  {
    hide Keep, Execute, LogsAgree;
    if op.OpExecute? {
      if Execute(s, op.tx, now).Ok? {
        ExecuteLogs(s, op.tx, now, clock);
      } else {
        QuietLogs(s, s, clock, now);
      }
    } else {
      QuietStep(s, op, now);
      QuietLogs(s, Step(s, op, now), clock, now);
    }
  }

  /** On every run that never widens the window, the pruned logs give at every check the same
      in-window entries as the full history of executions. */
  lemma {:induction false} RunLogs(s: State, calls: seq<Call>, clock: nat) returns (end: nat)
    requires LogsAgree(s, clock) && InTimeOrder(calls, clock) && NeverWidens(s, calls)
    ensures LogsAgree(Run(s, calls), end)
    ensures end == if calls == [] then clock else calls[|calls| - 1].now
    decreases |calls|
  {
    if calls == [] {
      end := clock;
    } else {
      StepLogs(s, calls[0].op, calls[0].now, clock);
      end := RunLogs(Step(s, calls[0].op, calls[0].now), calls[1..], calls[0].now);
    }
  }

  lemma {:induction false} RecipientWithinGlobal(events: seq<Event>, r: Address, cutoff: nat)
    ensures |Keep(TimesTo(events, r), cutoff)| <= |Keep(Times(events), cutoff)|
    decreases |events|
  {
    if events != [] {
      var init, last := events[..|events| - 1], events[|events| - 1];
      RecipientWithinGlobal(init, r, cutoff);
      if last.Executed? {
        KeepAppend(Times(init), last.time, cutoff);
        KeepAppend(TimesTo(init, r), last.time, cutoff);
      }
    }
  }

  /** So a recipient's count never exceeds the global one: the per-recipient cap never decides. */
  lemma RecipientCapNeverDecides(s: State, recipient: Address, clock: nat, now: nat)
    requires LogsAgree(s, clock) && clock <= now
    ensures |Keep(RecipientLog(s, recipient), Cutoff(now, s.config.window))| <= |Keep(s.globalLog, Cutoff(now, s.config.window))|
    ensures CheckRateLimits(s, recipient, now) == Fine <==> |Keep(s.globalLog, Cutoff(now, s.config.window))| < s.config.max
  {
    assert GlobalAgrees(s.config.window, s.globalLog, s.events, now);
    assert RecipientAgrees(s.config.window, s.recipientLogs, s.events, recipient, now);
    RecipientWithinGlobal(s.events, recipient, Cutoff(now, s.config.window));
  }

  // ----- the cap -----

  ghost predicate CappedAt(events: seq<Event>, window: nat, max: nat, t: nat) {
    CountBetween(Times(events), t, t + window) <= max
  }

  ghost predicate Capped(s: State) {
    forall t :: CappedAt(s.events, s.config.window, s.config.max, t)
  }

  lemma ExecuteCaps(s: State, id: nat, now: nat, clock: nat)
    requires Capped(s) && LogsAgree(s, clock) && clock <= now && Execute(s, id, now).Ok?
    ensures Capped(Execute(s, id, now).value)
  {
    var s', e := ExecuteShape(s, id, now);
    ReadAppend(s.events, e);
    assert GlobalAgrees(s.config.window, s.globalLog, s.events, now);
    OneMoreCapped(s.events, e, s.config.window, s.config.max);
  }

  lemma OneMoreCapped(events: seq<Event>, e: Event, window: nat, max: nat)
    requires forall t :: CappedAt(events, window, max, t)
    requires e.Executed? && |Keep(Times(events), Cutoff(e.time, window))| < max
    ensures forall t :: CappedAt(events + [e], window, max, t)
  {
    ReadAppend(events, e);
    forall t ensures CappedAt(events + [e], window, max, t) {
      assert CappedAt(events, window, max, t);
      CapKept(Times(events), e.time, window, max, t);
    }
  }

  lemma SameTimesCapped(s: State, s': State)
    requires Capped(s) && Times(s'.events) == Times(s.events)
    requires s'.config.window == s.config.window && s'.config.max == s.config.max
    ensures Capped(s')
  {
    forall t ensures CappedAt(s'.events, s'.config.window, s'.config.max, t) {
      assert CappedAt(s.events, s.config.window, s.config.max, t);
    }
  }

  lemma StepCaps(s: State, op: Op, now: nat, clock: nat)
    requires Capped(s) && LogsAgree(s, clock) && clock <= now && !op.OpSetRateLimit?
    ensures Capped(Step(s, op, now))
    ensures Step(s, op, now).config.window == s.config.window && Step(s, op, now).config.max == s.config.max
  {
    hide Keep, Execute, LogsAgree, Capped;
    if op.OpExecute? {
      if Execute(s, op.tx, now).Ok? {
        ExecuteCaps(s, op.tx, now, clock);
        var s', e := ExecuteShape(s, op.tx, now);
      }
    } else {
      QuietStep(s, op, now);
      SameTimesCapped(s, Step(s, op, now));
    }
  }

  /** With the rate window and cap left alone, every closed interval as long as the window holds at
      most `max` executions, over every run. */
  lemma {:induction false} RunCapped(s: State, calls: seq<Call>, clock: nat)
    requires Capped(s) && LogsAgree(s, clock) && InTimeOrder(calls, clock)
    requires forall i :: 0 <= i < |calls| ==> !calls[i].op.OpSetRateLimit?
    ensures Capped(Run(s, calls))
    ensures Run(s, calls).config.window == s.config.window && Run(s, calls).config.max == s.config.max
    decreases |calls|
  {
    if calls != [] {
      StepCaps(s, calls[0].op, calls[0].now, clock);
      StepLogs(s, calls[0].op, calls[0].now, clock);
      RunCapped(Step(s, calls[0].op, calls[0].now), calls[1..], calls[0].now);
    }
  }

  lemma InitializeLimited(admin: Address, accessControl: bool, signers: seq<Address>, required: nat, delay: nat, grace: nat,
                          window: nat, max: nat)
    requires Initialize(admin, accessControl, signers, required, delay, grace, window, max).Ok?
    ensures var s := Initialize(admin, accessControl, signers, required, delay, grace, window, max).value;
            LogsAgree(s, 0) && Capped(s)
  {
  }
}
