/** The escrow's M-of-N time-locked queue as a state machine (contracts/escrow/src/lib.rs). */
module EscrowQueue {
  import opened Prelude
  import opened TokenLedger
  import opened EscrowWindow

  // ----- storage -----

  const MAX_SIGNERS: nat := 20
  const MIN_AMOUNT: int := 1
  const U64_MAX: nat := 0xFFFF_FFFF_FFFF_FFFF

  datatype Config = Config(
    admin: Address, accessControl: bool, required: nat, signerCount: nat,
    delay: nat, grace: nat, window: nat, max: nat, paused: bool)

  datatype Escrow = Escrow(token: Address, isNative: bool, active: bool)

  datatype Tx = Tx(
    escrow: nat, recipient: Address, amount: int, submitter: Address, approvers: seq<Address>,
    queuedAt: nat, executed: bool, cancelled: bool, executedAt: nat)

  /** The published deposits and executions, with the token moved, none for native escrows, and an execution
      with the terms it ran under. */
  datatype Event =
    | Deposited(escrow: nat, amount: int, from: Address, token: Option<Address>)
    | Executed(tx: nat, escrow: nat, amount: int, recipient: Address, time: nat,
               approvers: seq<Address>, required: nat, delay: nat, grace: nat, token: Option<Address>)

  datatype State = State(
    config: Config,
    signers: set<Address>,
    signerList: seq<Address>,
    escrows: map<nat, Escrow>,
    balances: map<nat, int>,
    txs: map<nat, Tx>,
    globalLog: seq<nat>,
    recipientLogs: map<Address, seq<nat>>,
    nextEscrow: nat,
    nextTx: nat,
    ledger: Ledger,
    events: seq<Event>)

  datatype Error =
    | Unauthorized | InvalidParam | NotFound | AlreadySigner | NotASigner | Paused | InsufficientBalance
    | AlreadyExecuted | AlreadyCancelled | NotApproved | TimeLocked | GraceExpired | RateLimited
    | InactiveEscrow | AlreadyApproved | ThresholdTooHigh | TokenTrap

  datatype Result<+T> = Ok(value: T) | Err(error: Error) {
    predicate IsFailure() { Err? }

    function PropagateFailure<U>(): Result<U>
      requires Err?
    {
      Err(error)
    }

    function Extract(): T
      requires Ok?
    {
      value
    }
  }

  datatype Check = Fine | Broken(error: Error) {
    predicate IsFailure() { Broken? }

    function PropagateFailure<U>(): Result<U>
      requires Broken?
    {
      Err(error)
    }

    function Extract(): ()
      requires Fine?
    {
      ()
    }
  }

  function Ensure(condition: bool, error: Error): Check {
    if condition then Fine else Broken(error)
  }

  function Moved(l: Ledger, token: Address, from: Address, to: Address, amount: int): Result<Ledger> {
    match Transfer(l, token, from, to, amount)
    case None => Err(TokenTrap)
    case Some(l') => Ok(l')
  }

  // ----- helpers of the source -----

  predicate Distinct(xs: seq<Address>) {
    forall i, j :: 0 <= i < j < |xs| ==> xs[i] != xs[j]
  }

  function Without(xs: seq<Address>, x: Address): seq<Address> {
    if xs == [] then [] else if xs[0] == x then xs[1..] else [xs[0]] + Without(xs[1..], x)
  }

  /** `hasRole` is the linked access-control contract's answer. */
  predicate IsAdmin(c: Config, who: Address, hasRole: bool) {
    who == c.admin || (c.accessControl && hasRole)
  }

  function RecipientLog(s: State, r: Address): seq<nat> {
    if r in s.recipientLogs then s.recipientLogs[r] else []
  }

  function CheckRateLimits(s: State, recipient: Address, now: nat): Check {
    var cutoff := Cutoff(now, s.config.window);
    if |Keep(s.globalLog, cutoff)| >= s.config.max then Broken(RateLimited)
    else if |Keep(RecipientLog(s, recipient), cutoff)| >= s.config.max then Broken(RateLimited)
    else Fine
  }

  // ----- transitions -----

  function Initialize(admin: Address, accessControl: bool, signers: seq<Address>, required: nat, delay: nat, grace: nat,
                      window: nat, max: nat): Result<State> {
    var _ :- Ensure(0 < required <= |signers| <= MAX_SIGNERS && Distinct(signers), InvalidParam);
    var _ :- Ensure(grace != 0 && max != 0 && window != 0, InvalidParam);
    Ok(State(Config(admin, accessControl, required, |signers|, delay, grace, window, max, false),
             (set x | x in signers), signers, map[], map[], map[], [], map[], 1, 1, map[], []))
  }

  function AddSigner(s: State, caller: Address, hasRole: bool, signer: Address): Result<State> {
    var _ :- Ensure(IsAdmin(s.config, caller, hasRole), Unauthorized);
    var _ :- Ensure(signer !in s.signers, AlreadySigner);
    var _ :- Ensure(s.config.signerCount < MAX_SIGNERS, InvalidParam);
    var n := s.config.signerCount + 1;
    Ok(s.(signers := s.signers + {signer}, signerList := s.signerList + [signer],
          config := s.config.(signerCount := n, required := if s.config.required > n then n else s.config.required)))
  }

  function RemoveSigner(s: State, caller: Address, hasRole: bool, signer: Address): Result<State> {
    var _ :- Ensure(IsAdmin(s.config, caller, hasRole), Unauthorized);
    var _ :- Ensure(signer in s.signers, NotASigner);
    var _ :- Ensure(s.config.signerCount > s.config.required, ThresholdTooHigh);
    Ok(s.(signers := s.signers - {signer}, signerList := Without(s.signerList, signer),
          config := s.config.(signerCount := s.config.signerCount - 1)))
  }

  function SetThreshold(s: State, caller: Address, hasRole: bool, m: nat): Result<State> {
    var _ :- Ensure(IsAdmin(s.config, caller, hasRole), Unauthorized);
    var _ :- Ensure(m != 0 && m <= s.config.signerCount, InvalidParam);
    Ok(s.(config := s.config.(required := m)))
  }

  function SetTimelock(s: State, caller: Address, hasRole: bool, delay: nat, grace: nat): Result<State> {
    var _ :- Ensure(IsAdmin(s.config, caller, hasRole), Unauthorized);
    var _ :- Ensure(grace != 0 && delay + grace <= U64_MAX, InvalidParam);
    Ok(s.(config := s.config.(delay := delay, grace := grace)))
  }

  function SetRateLimit(s: State, caller: Address, hasRole: bool, window: nat, max: nat): Result<State> {
    var _ :- Ensure(IsAdmin(s.config, caller, hasRole), Unauthorized);
    var _ :- Ensure(window != 0 && max != 0, InvalidParam);
    Ok(s.(config := s.config.(window := window, max := max)))
  }

  function SetPaused(s: State, caller: Address, hasRole: bool, paused: bool): Result<State> {
    var _ :- Ensure(IsAdmin(s.config, caller, hasRole), Unauthorized);
    Ok(s.(config := s.config.(paused := paused)))
  }

  function CreateEscrow(s: State, token: Address, isNative: bool): Result<State> {
    var _ :- Ensure(!s.config.paused, Paused);
    Ok(s.(escrows := s.escrows[s.nextEscrow := Escrow(token, isNative, true)],
          balances := s.balances[s.nextEscrow := 0], nextEscrow := s.nextEscrow + 1))
  }

  function TokenOf(e: Escrow): Option<Address> {
    if e.isNative then None else Some(e.token)
  }

  function Deposit(s: State, id: nat, from: Address, amount: int): Result<State> {
    var _ :- Ensure(from != SELF, Unauthorized);
    var _ :- Ensure(amount >= MIN_AMOUNT, InvalidParam);
    var _ :- Ensure(id in s.escrows, NotFound);
    var _ :- Ensure(s.escrows[id].active, InactiveEscrow);
    var e := s.escrows[id];
    var l :- if e.isNative then Ok(s.ledger) else Moved(s.ledger, e.token, from, SELF, amount);
    Ok(s.(balances := s.balances[id := At(s.balances, id) + amount], ledger := l,
          events := s.events + [Deposited(id, amount, from, TokenOf(e))]))
  }

  function Submit(s: State, submitter: Address, hasRole: bool, id: nat, recipient: Address, amount: int, now: nat): Result<State> {
    var _ :- Ensure(!s.config.paused, Paused);
    var _ :- Ensure(submitter in s.signers || IsAdmin(s.config, submitter, hasRole), Unauthorized);
    var _ :- Ensure(amount >= MIN_AMOUNT, InvalidParam);
    var _ :- Ensure(id in s.escrows, NotFound);
    var _ :- Ensure(At(s.balances, id) >= amount, InsufficientBalance);
    Ok(s.(txs := s.txs[s.nextTx := Tx(id, recipient, amount, submitter, [submitter], now, false, false, 0)],
          nextTx := s.nextTx + 1))
  }

  function Approve(s: State, signer: Address, id: nat): Result<State> {
    var _ :- Ensure(signer in s.signers, NotASigner);
    var _ :- Ensure(id in s.txs, NotFound);
    var tx := s.txs[id];
    var _ :- Ensure(!tx.executed, AlreadyExecuted);
    var _ :- Ensure(!tx.cancelled, AlreadyCancelled);
    var _ :- Ensure(signer !in tx.approvers, AlreadyApproved);
    Ok(s.(txs := s.txs[id := tx.(approvers := tx.approvers + [signer])]))
  }

  function Revoke(s: State, signer: Address, id: nat): Result<State> {
    var _ :- Ensure(signer in s.signers, NotASigner);
    var _ :- Ensure(id in s.txs && !s.txs[id].executed && !s.txs[id].cancelled, NotFound);
    var tx := s.txs[id];
    var _ :- Ensure(signer in tx.approvers, NotApproved);
    Ok(s.(txs := s.txs[id := tx.(approvers := Without(tx.approvers, signer))]))
  }

  /** Everything that must hold before a queued transaction runs. */
  function MayExecute(s: State, id: nat, now: nat): Check {
    if s.config.paused then Broken(Paused)
    else if id !in s.txs then Broken(NotFound)
    else
      var tx, c := s.txs[id], s.config;
      if tx.executed then Broken(AlreadyExecuted)
      else if tx.cancelled then Broken(AlreadyCancelled)
      else if |tx.approvers| < c.required then Broken(NotApproved)
      else if tx.queuedAt + c.delay > U64_MAX then Broken(InvalidParam)
      else if now < tx.queuedAt + c.delay then Broken(TimeLocked)
      else if tx.queuedAt + c.delay + c.grace > U64_MAX then Broken(InvalidParam)
      else if now > tx.queuedAt + c.delay + c.grace then Broken(GraceExpired)
      else CheckRateLimits(s, tx.recipient, now)
  }

  /** The books after a transaction ran, given the token ledger and execution logs it left. */
  function Settled(s: State, id: nat, now: nat, l: Ledger, global: seq<nat>, log: seq<nat>, token: Option<Address>): State
    requires id in s.txs
  {
    var tx, c := s.txs[id], s.config;
    s.(balances := s.balances[tx.escrow := At(s.balances, tx.escrow) - tx.amount],
       ledger := l,
       txs := s.txs[id := tx.(executed := true, executedAt := now)],
       globalLog := global,
       recipientLogs := s.recipientLogs[tx.recipient := log],
       events := s.events + [Executed(id, tx.escrow, tx.amount, tx.recipient, now, tx.approvers, c.required,
                                      c.delay, c.grace, token)])
  }

  function Execute(s: State, id: nat, now: nat): Result<State> {
    var _ :- MayExecute(s, id, now);
    var tx := s.txs[id];
    var _ :- Ensure(tx.escrow in s.escrows, NotFound);
    var _ :- Ensure(At(s.balances, tx.escrow) >= tx.amount, InsufficientBalance);
    var e := s.escrows[tx.escrow];
    var l :- if e.isNative then Ok(s.ledger) else Moved(s.ledger, e.token, SELF, tx.recipient, tx.amount);
    var cutoff := Cutoff(now, s.config.window);
    Ok(Settled(s, id, now, l, Keep(s.globalLog + [now], cutoff), Keep(RecipientLog(s, tx.recipient) + [now], cutoff), TokenOf(e)))
  }

  function Cancel(s: State, caller: Address, hasRole: bool, id: nat, now: nat): Result<State> {
    var _ :- Ensure(id in s.txs, NotFound);
    var tx := s.txs[id];
    var _ :- Ensure(!tx.executed, AlreadyExecuted);
    var _ :- Ensure(!tx.cancelled, AlreadyCancelled);
    var graceUntil := Min(Min(tx.queuedAt + s.config.delay, U64_MAX) + s.config.grace, U64_MAX);
    var _ :- Ensure(IsAdmin(s.config, caller, hasRole) || caller == tx.submitter || now > graceUntil, Unauthorized);
    Ok(s.(txs := s.txs[id := tx.(cancelled := true)]))
  }

  function CloseEscrow(s: State, caller: Address, hasRole: bool, id: nat): Result<State> {
    var _ :- Ensure(IsAdmin(s.config, caller, hasRole), Unauthorized);
    var _ :- Ensure(id in s.escrows, NotFound);
    Ok(s.(escrows := s.escrows[id := s.escrows[id].(active := false)]))
  }

  // ----- runs -----

  datatype Op =
    | OpAddSigner(caller: Address, hasRole: bool, signer: Address)
    | OpRemoveSigner(caller: Address, hasRole: bool, signer: Address)
    | OpSetThreshold(caller: Address, hasRole: bool, m: nat)
    | OpSetTimelock(caller: Address, hasRole: bool, delay: nat, grace: nat)
    | OpSetRateLimit(caller: Address, hasRole: bool, window: nat, max: nat)
    | OpSetPaused(caller: Address, hasRole: bool, paused: bool)
    | OpCreateEscrow(token: Address, isNative: bool)
    | OpDeposit(id: nat, from: Address, amount: int)
    | OpSubmit(submitter: Address, hasRole: bool, id: nat, recipient: Address, amount: int)
    | OpApprove(signer: Address, tx: nat)
    | OpRevoke(signer: Address, tx: nat)
    | OpExecute(tx: nat)
    | OpCancel(caller: Address, hasRole: bool, tx: nat)
    | OpClose(caller: Address, hasRole: bool, id: nat)
    | OpOutside(token: Address, from: Address, to: Address, amount: int)
    | OpIssue(token: Address, to: Address, issued: nat)

  /** Token movements between other accounts. */
  function Outside(s: State, token: Address, from: Address, to: Address, amount: int): Result<State> {
    var _ :- Ensure(from != SELF, Unauthorized);
    var l :- Moved(s.ledger, token, from, to, amount);
    Ok(s.(ledger := l))
  }

  function Apply(s: State, op: Op, now: nat): Result<State> {
    match op
    case OpAddSigner(c, r, x) => AddSigner(s, c, r, x)
    case OpRemoveSigner(c, r, x) => RemoveSigner(s, c, r, x)
    case OpSetThreshold(c, r, m) => SetThreshold(s, c, r, m)
    case OpSetTimelock(c, r, d, g) => SetTimelock(s, c, r, d, g)
    case OpSetRateLimit(c, r, w, m) => SetRateLimit(s, c, r, w, m)
    case OpSetPaused(c, r, p) => SetPaused(s, c, r, p)
    case OpCreateEscrow(t, n) => CreateEscrow(s, t, n)
    case OpDeposit(id, f, n) => Deposit(s, id, f, n)
    case OpSubmit(x, r, id, to, n) => Submit(s, x, r, id, to, n, now)
    case OpApprove(x, id) => Approve(s, x, id)
    case OpRevoke(x, id) => Revoke(s, x, id)
    case OpExecute(id) => Execute(s, id, now)
    case OpCancel(c, r, id) => Cancel(s, c, r, id, now)
    case OpClose(c, r, id) => CloseEscrow(s, c, r, id)
    case OpOutside(t, x, y, n) => Outside(s, t, x, y, n)
    case OpIssue(t, x, n) => Ok(s.(ledger := s.ledger[Holding(t, x) := Balance(s.ledger, t, x) + n]))
  }

  function Step(s: State, op: Op, now: nat): State {
    match Apply(s, op, now)
    case Ok(s') => s'
    case Err(_) => s
  }

  datatype Call = Call(op: Op, now: nat)

  function Run(s: State, calls: seq<Call>): State
    decreases |calls|
  {
    if calls == [] then s else Run(Step(s, calls[0].op, calls[0].now), calls[1..])
  }

  ghost predicate InTimeOrder(calls: seq<Call>, clock: nat) {
    (calls != [] ==> clock <= calls[0].now) && forall i, j :: 0 <= i < j < |calls| ==> calls[i].now <= calls[j].now
  }
}
