/** The escrow contract object: each entry point updates the storage fields in place and takes
    exactly the transition of `EscrowQueue`, error codes included. */
module EscrowContract {
  import opened Prelude
  import opened TokenLedger
  import opened EscrowWindow
  import Q = EscrowQueue
  import Proofs = EscrowProofs

  /** Success lands on the transition's state; an error leaves everything as it was. */
  ghost predicate Lands(before: Q.State, outcome: Q.Result<Q.State>, after: Q.State, r: Q.Result<()>) {
    match outcome
    case Ok(s) => r == Q.Ok(()) && after == s
    case Err(e) => r == Q.Err(e) && after == before
  }

  method ValidateSignerSet(signers: seq<Address>, required: nat) returns (valid: bool)
    ensures valid <==> 0 < required <= |signers| <= Q.MAX_SIGNERS && Q.Distinct(signers)
  {
    if required == 0 || required > |signers| || |signers| > Q.MAX_SIGNERS {
      return false;
    }
    for i := 0 to |signers|
      invariant forall h, k :: 0 <= h < i && h < k < |signers| ==> signers[h] != signers[k]
    {
      for j := i + 1 to |signers|
        invariant forall k :: i < k < j ==> signers[i] != signers[k]
      {
        if signers[i] == signers[j] {
          return false;
        }
      }
    }
    return true;
  }

  /** The position of the first occurrence, as `try_index_of`. */
  method IndexOf(xs: seq<Address>, x: Address) returns (r: Option<nat>)
    ensures r.None? <==> x !in xs
    ensures r.Some? ==> r.value < |xs| && xs[r.value] == x && x !in xs[..r.value]
    ensures r.Some? ==> xs[..r.value] + xs[r.value + 1..] == Q.Without(xs, x)
  {
    for i := 0 to |xs|
      invariant x !in xs[..i]
    {
      if xs[i] == x {
        RemovingFirst(xs, x, i);
        return Some(i);
      }
    }
    return None;
  }

  lemma {:induction false} RemovingFirst(xs: seq<Address>, x: Address, i: nat)
    requires i < |xs| && xs[i] == x && x !in xs[..i]
    ensures xs[..i] + xs[i + 1..] == Q.Without(xs, x)
    decreases i
  {
    if i > 0 {
      assert xs[..i][0] == xs[0];
      assert xs[1..][..i - 1] == xs[1..i] && xs[1..i] == xs[..i][1..];
      RemovingFirst(xs[1..], x, i - 1);
      assert xs[..i] + xs[i + 1..] == [xs[0]] + (xs[1..][..i - 1] + xs[1..][i..]);
    }
  }

  class Escrow {
    var config: Q.Config
    var signers: set<Address>
    var signerList: seq<Address>
    var escrows: map<nat, Q.Escrow>
    var balances: map<nat, int>
    var txs: map<nat, Q.Tx>
    var globalLog: seq<nat>
    var recipientLogs: map<Address, seq<nat>>
    var nextEscrow: nat
    var nextTx: nat
    var ledger: Ledger
    var events: seq<Q.Event>

    ghost function View(): Q.State
      reads this
    {
      Q.State(config, signers, signerList, escrows, balances, txs, globalLog, recipientLogs, nextEscrow, nextTx, ledger, events)
    }

    constructor (admin: Address, accessControl: bool, list: seq<Address>, required: nat, delay: nat, grace: nat, window: nat, max: nat)
      requires Q.Initialize(admin, accessControl, list, required, delay, grace, window, max).Ok?
      ensures View() == Q.Initialize(admin, accessControl, list, required, delay, grace, window, max).value
      ensures Proofs.Inv(View())
    {
      config := Q.Config(admin, accessControl, required, |list|, delay, grace, window, max, false);
      signers, signerList := (set x | x in list), list;
      escrows, balances, txs, globalLog, recipientLogs := map[], map[], map[], [], map[];
      nextEscrow, nextTx, ledger, events := 1, 1, map[], [];
      new;
      Proofs.InitializeValid(admin, accessControl, list, required, delay, grace, window, max);
    }

    method AddSigner(caller: Address, hasRole: bool, signer: Address) returns (r: Q.Result<()>)
      modifies this
      ensures Lands(old(View()), Q.AddSigner(old(View()), caller, hasRole, signer), View(), r)
    {
      var _ :- Q.Ensure(Q.IsAdmin(config, caller, hasRole), Q.Unauthorized);
      var _ :- Q.Ensure(signer !in signers, Q.AlreadySigner);
      var _ :- Q.Ensure(config.signerCount < Q.MAX_SIGNERS, Q.InvalidParam);
      signers := signers + {signer};
      signerList := signerList + [signer];
      config := config.(signerCount := config.signerCount + 1);
      if config.required > config.signerCount {
        config := config.(required := config.signerCount);
      }
      return Q.Ok(());
    }

    method RemoveSigner(caller: Address, hasRole: bool, signer: Address) returns (r: Q.Result<()>)
      requires Proofs.Inv(View())
      modifies this
      ensures Lands(old(View()), Q.RemoveSigner(old(View()), caller, hasRole, signer), View(), r)
    {
      var _ :- Q.Ensure(Q.IsAdmin(config, caller, hasRole), Q.Unauthorized);
      var _ :- Q.Ensure(signer in signers, Q.NotASigner);
      var _ :- Q.Ensure(config.signerCount > config.required, Q.ThresholdTooHigh);
      signers := signers - {signer};
      var at := IndexOf(signerList, signer);
      signerList := signerList[..at.value] + signerList[at.value + 1..];
      config := config.(signerCount := config.signerCount - 1);
      return Q.Ok(());
    }

    method SetThreshold(caller: Address, hasRole: bool, m: nat) returns (r: Q.Result<()>)
      modifies this`config
      ensures Lands(old(View()), Q.SetThreshold(old(View()), caller, hasRole, m), View(), r)
      ensures Proofs.Inv(old(View())) ==> Proofs.Inv(View())
    {
      hide Proofs.Inv;
      if Proofs.Inv(View()) { Proofs.StepKeeps(View(), Q.OpSetThreshold(caller, hasRole, m), 0); }
      var _ :- Q.Ensure(Q.IsAdmin(config, caller, hasRole), Q.Unauthorized);
      var _ :- Q.Ensure(m != 0 && m <= config.signerCount, Q.InvalidParam);
      config := config.(required := m);
      return Q.Ok(());
    }

    method SetRateLimit(caller: Address, hasRole: bool, window: nat, max: nat) returns (r: Q.Result<()>)
      modifies this`config
      ensures Lands(old(View()), Q.SetRateLimit(old(View()), caller, hasRole, window, max), View(), r)
      ensures Proofs.Inv(old(View())) ==> Proofs.Inv(View())
    {
      hide Proofs.Inv;
      if Proofs.Inv(View()) { Proofs.StepKeeps(View(), Q.OpSetRateLimit(caller, hasRole, window, max), 0); }
      var _ :- Q.Ensure(Q.IsAdmin(config, caller, hasRole), Q.Unauthorized);
      var _ :- Q.Ensure(window != 0 && max != 0, Q.InvalidParam);
      config := config.(window := window, max := max);
      return Q.Ok(());
    }

    method Deposit(id: nat, from: Address, amount: int) returns (r: Q.Result<()>)
      modifies this
      ensures Lands(old(View()), Q.Deposit(old(View()), id, from, amount), View(), r)
    {
      var _ :- Q.Ensure(from != SELF, Q.Unauthorized);
      var _ :- Q.Ensure(amount >= Q.MIN_AMOUNT, Q.InvalidParam);
      var _ :- Q.Ensure(id in escrows, Q.NotFound);
      var record := escrows[id];
      var _ :- Q.Ensure(record.active, Q.InactiveEscrow);
      if !record.isNative {
        var l :- Q.Moved(ledger, record.token, from, SELF, amount);
        ledger := l;
      }
      balances := balances[id := At(balances, id) + amount];
      events := events + [Q.Deposited(id, amount, from, Q.TokenOf(record))];
      return Q.Ok(());
    }

    method SubmitTransaction(submitter: Address, hasRole: bool, id: nat, recipient: Address, amount: int, now: nat)
      returns (r: Q.Result<()>)
      modifies this
      ensures Lands(old(View()), Q.Submit(old(View()), submitter, hasRole, id, recipient, amount, now), View(), r)
    {
      var _ :- Q.Ensure(!config.paused, Q.Paused);
      var _ :- Q.Ensure(submitter in signers || Q.IsAdmin(config, submitter, hasRole), Q.Unauthorized);
      var _ :- Q.Ensure(amount >= Q.MIN_AMOUNT, Q.InvalidParam);
      var _ :- Q.Ensure(id in escrows, Q.NotFound);
      var _ :- Q.Ensure(At(balances, id) >= amount, Q.InsufficientBalance);
      txs := txs[nextTx := Q.Tx(id, recipient, amount, submitter, [submitter], now, false, false, 0)];
      nextTx := nextTx + 1;
      return Q.Ok(());
    }

    method ApproveTransaction(signer: Address, id: nat) returns (r: Q.Result<()>)
      modifies this`txs
      ensures Lands(old(View()), Q.Approve(old(View()), signer, id), View(), r)
      ensures Proofs.Inv(old(View())) ==> Proofs.Inv(View())
    {
      hide Proofs.Inv;
      if Proofs.Inv(View()) { Proofs.StepKeeps(View(), Q.OpApprove(signer, id), 0); }
      var _ :- Q.Ensure(signer in signers, Q.NotASigner);
      var _ :- Q.Ensure(id in txs, Q.NotFound);
      var tx := txs[id];
      var _ :- Q.Ensure(!tx.executed, Q.AlreadyExecuted);
      var _ :- Q.Ensure(!tx.cancelled, Q.AlreadyCancelled);
      var at := IndexOf(tx.approvers, signer);
      var _ :- Q.Ensure(at.None?, Q.AlreadyApproved);
      txs := txs[id := tx.(approvers := tx.approvers + [signer])];
      return Q.Ok(());
    }

    method RevokeApproval(signer: Address, id: nat) returns (r: Q.Result<()>)
      modifies this`txs
      ensures Lands(old(View()), Q.Revoke(old(View()), signer, id), View(), r)
      ensures Proofs.Inv(old(View())) ==> Proofs.Inv(View())
    {
      hide Proofs.Inv;
      if Proofs.Inv(View()) { Proofs.StepKeeps(View(), Q.OpRevoke(signer, id), 0); }
      var _ :- Q.Ensure(signer in signers, Q.NotASigner);
      var _ :- Q.Ensure(id in txs, Q.NotFound);
      var tx := txs[id];
      var _ :- Q.Ensure(!tx.executed && !tx.cancelled, Q.NotFound);
      var at := IndexOf(tx.approvers, signer);
      var _ :- Q.Ensure(at.Some?, Q.NotApproved);
      txs := txs[id := tx.(approvers := tx.approvers[..at.value] + tx.approvers[at.value + 1..])];
      return Q.Ok(());
    }

    method CheckRateLimits(recipient: Address, now: nat) returns (c: Q.Check)
      ensures c == Q.CheckRateLimits(View(), recipient, now)
    {
      var cutoff := Cutoff(now, config.window);
      var count := CountInWindow(globalLog, cutoff);
      if count >= config.max {
        return Q.Broken(Q.RateLimited);
      }
      var log := if recipient in recipientLogs then recipientLogs[recipient] else [];
      count := CountInWindow(log, cutoff);
      if count >= config.max {
        return Q.Broken(Q.RateLimited);
      }
      return Q.Fine;
    }

    /** The guards of `execute_transaction`, in its order. */
    method CheckExecutable(id: nat, now: nat) returns (c: Q.Check)
      ensures c == Q.MayExecute(View(), id, now)
    {
      if config.paused {
        return Q.Broken(Q.Paused);
      }
      if id !in txs {
        return Q.Broken(Q.NotFound);
      }
      var tx := txs[id];
      if tx.executed {
        return Q.Broken(Q.AlreadyExecuted);
      }
      if tx.cancelled {
        return Q.Broken(Q.AlreadyCancelled);
      }
      if |tx.approvers| < config.required {
        return Q.Broken(Q.NotApproved);
      }
      var unlockAt := tx.queuedAt + config.delay;
      if unlockAt > Q.U64_MAX {
        return Q.Broken(Q.InvalidParam);
      }
      if now < unlockAt {
        return Q.Broken(Q.TimeLocked);
      }
      if unlockAt + config.grace > Q.U64_MAX {
        return Q.Broken(Q.InvalidParam);
      }
      if now > unlockAt + config.grace {
        return Q.Broken(Q.GraceExpired);
      }
      c := CheckRateLimits(tx.recipient, now);
    }

    method ExecuteTransaction(id: nat, now: nat) returns (r: Q.Result<()>)
      modifies this
      ensures Lands(old(View()), Q.Execute(old(View()), id, now), View(), r)
    {
      var guards := CheckExecutable(id, now);
      var _ :- guards;
      var tx := txs[id];
      var _ :- Q.Ensure(tx.escrow in escrows, Q.NotFound);
      var record := escrows[tx.escrow];
      var _ :- Q.Ensure(At(balances, tx.escrow) >= tx.amount, Q.InsufficientBalance);
      var l := ledger;
      if !record.isNative {
        l :- Q.Moved(ledger, record.token, SELF, tx.recipient, tx.amount);
      }
      var cutoff := Cutoff(now, config.window);
      var global := PruneWindow(globalLog + [now], cutoff);
      var log := if tx.recipient in recipientLogs then recipientLogs[tx.recipient] else [];
      log := PruneWindow(log + [now], cutoff);
      Settle(id, now, l, global, log, Q.TokenOf(record));
      return Q.Ok(());
    }

    /** The writes of a successful execution. */
    method Settle(id: nat, now: nat, l: Ledger, global: seq<nat>, log: seq<nat>, token: Option<Address>)
      requires id in txs
      modifies this
      ensures View() == Q.Settled(old(View()), id, now, l, global, log, token)
    {
      var tx := txs[id];
      ledger := l;
      balances := balances[tx.escrow := At(balances, tx.escrow) - tx.amount];
      txs := txs[id := tx.(executed := true, executedAt := now)];
      globalLog := global;
      recipientLogs := recipientLogs[tx.recipient := log];
      events := events + [Q.Executed(id, tx.escrow, tx.amount, tx.recipient, now, tx.approvers, config.required,
                                     config.delay, config.grace, token)];
    }

    method CancelTransaction(caller: Address, hasRole: bool, id: nat, now: nat) returns (r: Q.Result<()>)
      modifies this`txs
      ensures Lands(old(View()), Q.Cancel(old(View()), caller, hasRole, id, now), View(), r)
    {
      var _ :- Q.Ensure(id in txs, Q.NotFound);
      var tx := txs[id];
      var _ :- Q.Ensure(!tx.executed, Q.AlreadyExecuted);
      var _ :- Q.Ensure(!tx.cancelled, Q.AlreadyCancelled);
      var unlockAt := Min(tx.queuedAt + config.delay, Q.U64_MAX);
      var lapsed := now > Min(unlockAt + config.grace, Q.U64_MAX);
      var _ :- Q.Ensure(Q.IsAdmin(config, caller, hasRole) || caller == tx.submitter || lapsed, Q.Unauthorized);
      txs := txs[id := tx.(cancelled := true)];
      return Q.Ok(());
    }
  }

  /** Deployment: a bad signer set, grace period or rate limit is refused and no contract exists. */
  method Initialize(admin: Address, accessControl: bool, list: seq<Address>, required: nat, delay: nat, grace: nat, window: nat, max: nat)
    returns (r: Q.Result<Escrow>)
    ensures match Q.Initialize(admin, accessControl, list, required, delay, grace, window, max)
            case Ok(s) => r.Ok? && fresh(r.value) && r.value.View() == s && Proofs.Inv(s)
            case Err(e) => r == Q.Err(e)
  {
    var valid := ValidateSignerSet(list, required);
    if !valid || grace == 0 || max == 0 || window == 0 {
      return Q.Err(Q.InvalidParam);
    }
    var escrow := new Escrow(admin, accessControl, list, required, delay, grace, window, max);
    return Q.Ok(escrow);
  }
}
