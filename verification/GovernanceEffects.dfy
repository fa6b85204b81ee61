/** What each governance call accepts, weighs, schedules and pays, and over runs the delay every execution
    waited for (contracts/governance/src/contract.rs). */
module GovernanceEffects {
  import opened Prelude
  import opened MapSum
  import opened Arithmetic
  import opened TokenLedger
  import opened Governance
  import opened GovernanceStory

  // ----- weights -----

  /** A lock's weight: full when made, falling in proportion to the time left, rounded down, nothing once over. */
  ghost predicate LockWeight(s: State, account: Address, now: nat, w: int) {
    if account !in s.locks || now >= s.locks[account].end then w == 0
    else
      var l := s.locks[account];
      w * (l.end - l.created) <= l.amount * (l.end - now) < (w + 1) * (l.end - l.created)
  }

  ghost predicate LocksValid(s: State, now: nat) {
    forall a :: a in s.locks ==> s.locks[a].created < s.locks[a].end && s.locks[a].created <= now && s.locks[a].amount > 0
  }

  /** The weight of an account: its tokens, its lock, and the live delegations to it. */
  ghost predicate Weighs(s: State, account: Address, now: nat, weight: int) {
    exists lock :: LockWeight(s, account, now, lock) && weight == Balance(s.ledger, s.votingToken, account) + lock + Sum(DelegatedTo(s.delegations, account))
  }

  lemma WeighsExact(s: State, account: Address, now: nat, weight: int)
    requires Inv(s) && LocksValid(s, now)
    ensures Weighs(s, account, now, weight) <==> VotingPower(s, account, now) == weight
  {
    hide Sum;
    assert PowerAgrees(s.delegations, s.power, account);
    forall w ensures LockWeight(s, account, now, w) <==> w == VeBalance(s, account, now) {
      if account in s.locks && now < s.locks[account].end {
        var l := s.locks[account];
        DivFloor(w, l.amount * (l.end - now), l.end - l.created);
        DivFloor(w + 1, l.amount * (l.end - now), l.end - l.created);
      }
    }
    assert LockWeight(s, account, now, VeBalance(s, account, now));
  }

  /** Locks are made for one week to four years, of positive amounts the account holds. */
  lemma LockExact(s: State, account: Address, amount: int, duration: nat, env: Env)
    ensures LockTokens(s, account, amount, duration, env).Some? <==>
              && account !in s.locks && 0 < amount <= Balance(s.ledger, s.votingToken, account)
              && 604_800 <= duration <= 126_144_000
    ensures LockTokens(s, account, amount, duration, env).Some? ==>
              LockTokens(s, account, amount, duration, env).value.0 == s.(locks := s.locks[account := Lock(amount, env.now + duration, env.now)])
    ensures WithdrawTokens(s, account, env).Some? <==> account in s.locks && env.now >= s.locks[account].end
    ensures WithdrawTokens(s, account, env).Some? ==> WithdrawTokens(s, account, env).value.0 == s.(locks := s.locks - {account})
  {
  }

  lemma StepLocks(s: State, op: Op, env: Env, now: nat)
    requires LocksValid(s, now) && now <= env.now
    ensures LocksValid(Step(s, op, env), env.now)
  {
    if op.OpLock? {
      LockExact(s, op.caller, op.amount, op.duration, env);
    } else if !op.OpWithdraw? {
      SameLocks(s, op, env);
    }
  }

  lemma SameLocks(s: State, op: Op, env: Env)
    requires !op.OpLock? && !op.OpWithdraw?
    ensures Step(s, op, env).locks == s.locks
  {
    hide VotingPower, StageOf, PayAll, LockTokens, WithdrawTokens, Counted;
  }

  /** So over every run in time order each lock has positive length and amount. */
  lemma {:induction false} RunLocks(s: State, calls: seq<Call>, env: Env) returns (end: Env)
    requires LocksValid(s, env.now) && InTimeOrder(calls, env)
    ensures LocksValid(Run(s, calls), end.now)
    decreases |calls|
  {
    hide Step, LocksValid;
    if calls == [] {
      end := env;
    } else {
      StepLocks(s, calls[0].op, calls[0].env, env.now);
      end := RunLocks(Step(s, calls[0].op, calls[0].env), calls[1..], calls[0].env);
    }
  }

  // ----- proposals and votes -----

  /** Anyone heavy enough proposes; the vote opens the configured number of ledgers later and lasts the
      configured period. */
  lemma ProposeExact(s: State, proposer: Address, actions: seq<Payment>, wellShaped: bool, env: Env, weight: int)
    requires Inv(s) && LocksValid(s, env.now) && Weighs(s, proposer, env.now, weight)
    ensures Propose(s, proposer, actions, wellShaped, env).Some? <==> weight >= s.proposalThreshold && (actions == [] || wellShaped)
    ensures Propose(s, proposer, actions, wellShaped, env).Some? ==>
              var (s', id) := Propose(s, proposer, actions, wellShaped, env).value;
              && id !in s.proposals && s' == s.(proposals := s'.proposals, count := s.count + 1)
              && s'.proposals == s.proposals[id := Proposal(proposer, env.block + s.params.votingDelay,
                                                            env.block + s.params.votingDelay + s.params.votingPeriod,
                                                            0, 0, 0, 0, actions, false, false)]
  {
    hide VotingPower, Weighs, AllTallied, AllPowerAgrees, AllRanOnce;
    WeighsExact(s, proposer, env.now, weight);
  }

  /** A vote counts exactly while the vote is open, once per voter, with the voter's weight, on the side named. */
  lemma VoteExact(s: State, voter: Address, id: nat, kind: VoteType, env: Env, weight: int)
    requires Inv(s) && LocksValid(s, env.now) && Weighs(s, voter, env.now, weight)
    ensures CastVote(s, voter, id, kind, env).Some? <==>
              && id in s.proposals && !s.proposals[id].canceled && VoteKey(id, voter) !in s.votes
              && s.proposals[id].voteStart <= env.block <= s.proposals[id].voteEnd
    ensures CastVote(s, voter, id, kind, env).Some? ==>
              var s', p := CastVote(s, voter, id, kind, env).value.0, s.proposals[id];
              && s' == s.(proposals := s'.proposals, votes := s.votes[VoteKey(id, voter) := Vote(kind, weight)])
              && s'.proposals == s.proposals[id := p.(forVotes := p.forVotes + (if kind == For then weight else 0),
                                                      againstVotes := p.againstVotes + (if kind == Against then weight else 0),
                                                      abstainVotes := p.abstainVotes + (if kind == Abstain then weight else 0))]
  {
    hide VotingPower, Weighs, Passes, AllTallied, AllPowerAgrees, AllRanOnce;
    WeighsExact(s, voter, env.now, weight);
  }

  /** A closed vote passes exactly when the turnout reaches the quorum's part of the supply and the votes for
      reach the threshold's part of those for and against. */
  lemma PassesMeans(p: Proposal, params: Params, totalSupply: int)
    requires totalSupply > 0 && p.forVotes >= 0 && p.againstVotes >= 0
    ensures Passes(p, params, totalSupply) <==>
              && (p.forVotes + p.againstVotes + p.abstainVotes) as real / totalSupply as real >= params.quorum as real / 10000.0
              && p.forVotes + p.againstVotes > 0
              && p.forVotes as real / (p.forVotes + p.againstVotes) as real >= params.threshold as real / 10000.0
  {
    FractionAtLeast(p.forVotes + p.againstVotes + p.abstainVotes, totalSupply, params.quorum);
    if p.forVotes + p.againstVotes > 0 {
      FractionAtLeast(p.forVotes, p.forVotes + p.againstVotes, params.threshold);
    }
  }

  lemma FractionAtLeast(x: int, y: int, bps: int)
    requires y > 0
    ensures x as real / y as real >= bps as real / 10000.0 <==> x * 10000 >= y * bps
  {
    var q, b := x as real / y as real, bps as real / 10000.0;
    assert q * y as real == x as real && b * 10000.0 == bps as real;
    assert (x * 10000) as real == q * y as real * 10000.0;
    assert (y * bps) as real == y as real * (b * 10000.0);
    RealOrder(q, b, y as real * 10000.0);
    assert q * (y as real * 10000.0) == (x * 10000) as real && b * (y as real * 10000.0) == (y * bps) as real;
  }

  lemma RealOrder(q: real, b: real, k: real)
    requires k > 0.0
    ensures q >= b <==> q * k >= b * k
  {
    if q < b {
      assert (b - q) * k > 0.0;
    } else {
      assert (q - b) * k >= 0.0;
    }
  }

  // ----- queueing and execution -----

  /** A proposal is queued exactly when its vote is closed and passed and it is neither cancelled, executed nor
      queued already; it may then run the configured delay later. */
  lemma QueueExact(s: State, id: nat, env: Env)
    ensures Queue(s, id, env).Some? <==>
              && id in s.proposals && !s.proposals[id].canceled && !s.proposals[id].executed && s.proposals[id].eta == 0
              && env.block > s.proposals[id].voteEnd && env.block >= s.proposals[id].voteStart
              && Passes(s.proposals[id], s.params, s.totalSupply)
    ensures Queue(s, id, env).Some? ==>
              Queue(s, id, env).value.0 == s.(proposals := s.proposals[id := s.proposals[id].(eta := env.now + s.params.timelock)])
  {
    hide Passes;
  }

  function Payments(actions: seq<Payment>): (r: seq<Movement>)
    ensures |r| == |actions| && forall i :: 0 <= i < |r| ==> r[i] == Move(actions[i].token, SELF, actions[i].to, actions[i].amount)
  {
    seq(|actions|, i requires 0 <= i < |actions| => Move(actions[i].token, SELF, actions[i].to, actions[i].amount))
  }

  lemma {:induction false} PayAllSettles(l: Ledger, l1: Ledger, done: seq<Payment>, actions: seq<Payment>)
    requires Settles(l, l1, Payments(done)) && PayAll(l1, actions).Some?
    ensures Settles(l, PayAll(l1, actions).value, Payments(done + actions))
    decreases |actions|
  {
    hide Settles, Transfer;
    if actions == [] {
      assert done + actions == done;
    } else {
      var a := actions[0];
      TransferSettles(l, l1, Payments(done), a.token, SELF, a.to, a.amount);
      assert Payments(done + [a]) == Payments(done) + [Move(a.token, SELF, a.to, a.amount)];
      PayAllSettles(l, Transfer(l1, a.token, SELF, a.to, a.amount).value, done + [a], actions[1..]);
      assert done + [a] + actions[1..] == done + actions;
    }
  }

  /** The k-th payment is no debit and within what the contract holds after those before it. */
  ghost predicate Payable(l: Ledger, actions: seq<Payment>, k: nat)
    requires k < |actions|
  {
    0 <= actions[k].amount <= Balance(l, actions[k].token, SELF) + Net(Payments(actions[..k]), actions[k].token, SELF)
  }

  ghost predicate AllPayable(l: Ledger, actions: seq<Payment>) {
    forall k :: 0 <= k < |actions| ==> Payable(l, actions, k)
  }

  lemma {:induction false} PayAllIff(l: Ledger, l1: Ledger, done: seq<Payment>, actions: seq<Payment>)
    requires Settles(l, l1, Payments(done)) && forall k :: 0 <= k < |done| ==> Payable(l, done + actions, k)
    ensures PayAll(l1, actions).Some? <==> AllPayable(l, done + actions)
    decreases |actions|
  {
    hide Transfer, Net;
    var all, d := done + actions, |done|;
    if actions != [] {
      var a := actions[0];
      assert all[d] == a && all[..d] == done;
      assert SettledFor(l, l1, Payments(done), a.token, SELF);
      assert Transfer(l1, a.token, SELF, a.to, a.amount).Some? <==> Payable(l, all, d);
      if Payable(l, all, d) {
        TransferSettles(l, l1, Payments(done), a.token, SELF, a.to, a.amount);
        assert Payments(done + [a]) == Payments(done) + [Move(a.token, SELF, a.to, a.amount)];
        assert done + [a] + actions[1..] == all;
        PayAllIff(l, Transfer(l1, a.token, SELF, a.to, a.amount).value, done + [a], actions[1..]);
      }
    }
  }

  /** A proposal runs exactly when it was queued, is closed, passes under the parameters now in force, is
      neither cancelled nor run, the time is from its eta to 14 days later, and its payments are covered. Every
      payment goes from the contract to its named account, in full, and nothing else moves. */
  lemma ExecuteExact(s: State, id: nat, env: Env)
    ensures Execute(s, id, env).Some? <==>
              && id in s.proposals && !s.proposals[id].canceled && !s.proposals[id].executed && s.proposals[id].eta != 0
              && env.block > s.proposals[id].voteEnd && env.block >= s.proposals[id].voteStart
              && Passes(s.proposals[id], s.params, s.totalSupply)
              && s.proposals[id].eta <= env.now <= s.proposals[id].eta + 1_209_600
              && AllPayable(s.ledger, s.proposals[id].actions)
    ensures Execute(s, id, env).Some? ==>
              var s' := Execute(s, id, env).value.0;
              && s'.proposals == s.proposals[id := s.proposals[id].(executed := true)]
              && s' == s.(proposals := s'.proposals, ledger := s'.ledger, executions := s'.executions)
              && Settles(s.ledger, s'.ledger, Payments(s.proposals[id].actions))
  {
    hide Passes, PayAll, Settles, AllPayable;
    if id in s.proposals {
      NothingMoved(s.ledger);
      var actions := s.proposals[id].actions;
      assert Payments([]) == [] && [] + actions == actions;
      PayAllIff(s.ledger, s.ledger, [], actions);
      if Execute(s, id, env).Some? {
        PayAllSettles(s.ledger, s.ledger, [], actions);
      }
    }
  }

  /** Only the proposer and the administrator cancel, and not once executed. */
  lemma CancelExact(s: State, caller: Address, id: nat)
    ensures Cancel(s, caller, id).Some? <==>
              id in s.proposals && !s.proposals[id].executed && (caller == s.proposals[id].proposer || caller == s.admin)
    ensures Cancel(s, caller, id).Some? ==>
              Cancel(s, caller, id).value.0 == s.(proposals := s.proposals[id := s.proposals[id].(canceled := true)])
  {
  }

  // ----- the delay, over runs -----

  /** The call scheduled the proposal for `eta`: it queued it, and added the delay then in force. */
  predicate Scheduled(s: State, call: Call, id: nat, eta: nat) {
    call.op == OpQueue(id) && eta == call.env.now + s.params.timelock
  }

  ghost predicate EtaKept(s: State, s': State, id: nat) {
    id in s'.proposals && s'.proposals[id].eta != 0 ==> id in s.proposals && s.proposals[id].eta == s'.proposals[id].eta
  }

  lemma ProposeKeepsEta(s: State, proposer: Address, actions: seq<Payment>, wellShaped: bool, env: Env, id: nat)
    ensures EtaKept(s, Commit(Propose(s, proposer, actions, wellShaped, env), s).0, id)
  {
    hide VotingPower;
  }

  lemma VoteKeepsEta(s: State, voter: Address, j: nat, kind: VoteType, env: Env, id: nat)
    ensures EtaKept(s, Commit(CastVote(s, voter, j, kind, env), s).0, id)
  {
    hide VotingPower, StageOf;
  }

  lemma ExecuteKeepsEta(s: State, j: nat, env: Env, id: nat)
    ensures EtaKept(s, Commit(Execute(s, j, env), s).0, id)
  {
    hide StageOf, PayAll;
  }

  lemma CancelKeepsEta(s: State, caller: Address, j: nat, id: nat)
    ensures EtaKept(s, Commit(Cancel(s, caller, j), s).0, id)
  {
  }

  lemma SameProposals(s: State, s': State, id: nat)
    requires s'.proposals == s.proposals
    ensures EtaKept(s, s', id)
  {
  }

  lemma StepSchedules(s: State, call: Call, id: nat)
    ensures var s' := Step(s, call.op, call.env);
            EtaKept(s, s', id) || (id in s'.proposals && Scheduled(s, call, id, s'.proposals[id].eta))
  {
    if call.op.OpQueue? {
      QueueSchedules(s, call, id);
    } else {
      OtherSchedules(s, call.op, call.env, id);
    }
  }

  lemma QueueSchedules(s: State, call: Call, id: nat)
    requires call.op.OpQueue?
    ensures var s' := Step(s, call.op, call.env);
            EtaKept(s, s', id) || (id in s'.proposals && Scheduled(s, call, id, s'.proposals[id].eta))
  {
    hide Queue, Passes;
    QueueExact(s, call.op.id, call.env);
  }

  lemma OtherSchedules(s: State, op: Op, env: Env, id: nat)
    requires !op.OpQueue?
    ensures EtaKept(s, Step(s, op, env), id)
  {
    hide EtaKept, Propose, CastVote, Execute, Cancel, Queue;
    match op
    case OpPropose(c, a, w) => ProposeKeepsEta(s, c, a, w, env, id);
    case OpVote(c, j, k) => VoteKeepsEta(s, c, j, k, env, id);
    case OpExecute(j) => ExecuteKeepsEta(s, j, env, id);
    case OpCancel(c, j) => CancelKeepsEta(s, c, j, id);
    case _ => SameProposals(s, Step(s, op, env), id);
  }

  /** Over every run, a stored eta comes from a queueing: its time plus the delay in force at it. */
  lemma {:induction false} EtaWasScheduled(s: State, calls: seq<Call>, id: nat) returns (i: nat)
    requires Inv(s) && s.proposals == map[] && id in Run(s, calls).proposals && Run(s, calls).proposals[id].eta != 0
    ensures i < |calls| && Scheduled(Run(s, calls[..i]), calls[i], id, Run(s, calls).proposals[id].eta)
    decreases |calls|
  {
    hide Inv, Step, Scheduled;
    if calls == [] {
      assert false;
    } else {
      var init, last := calls[..|calls| - 1], calls[|calls| - 1];
      assert calls == init + [last];
      RunSnoc(s, init, last);
      RunKeeps(s, init);
      var before := Run(s, init);
      StepSchedules(before, last, id);
      if id in before.proposals && before.proposals[id].eta == Run(s, calls).proposals[id].eta {
        i := EtaWasScheduled(s, init, id);
        assert calls[..i] == init[..i];
      } else {
        i := |calls| - 1;
      }
    }
  }

  lemma StepExecutes(s: State, call: Call)
    ensures var s' := Step(s, call.op, call.env);
            || s'.executions == s.executions
            || (call.op.OpExecute? && Execute(s, call.op.id, call.env).Some? && call.op.id in s.proposals
                && s.proposals[call.op.id].eta != 0 && s.proposals[call.op.id].eta <= call.env.now
                && s'.executions == s.executions + [Execution(call.op.id, call.env.now, s.proposals[call.op.id].eta, s.params)])
  {
    hide Step, Execute, Passes, PayAll;
    if call.op.OpExecute? && Execute(s, call.op.id, call.env).Some? {
      ExecuteExact(s, call.op.id, call.env);
      ExecuteSteps(s, call.op, call.env);
      var p := ExecuteShape(s, call.op.id, call.env);
    } else {
      StepExecutions(s, call.op, call.env);
    }
  }

  /** Over every run, each execution came at or after the time of a queueing of its proposal plus the timelock
      in force at that queueing, and that sum is the eta it ran under. */
  lemma {:induction false} ExecutionWasTimelocked(s: State, calls: seq<Call>, k: nat) returns (i: nat)
    requires Inv(s) && s.proposals == map[] && s.executions == [] && k < |Run(s, calls).executions|
    ensures var e := Run(s, calls).executions[k];
            && i < |calls| && calls[i].op == OpQueue(e.proposal)
            && e.eta == calls[i].env.now + Run(s, calls[..i]).params.timelock <= e.time
    decreases |calls|
  {
    hide Inv, Step;
    if calls == [] {
      assert false;
    } else {
      var init, last := calls[..|calls| - 1], calls[|calls| - 1];
      assert calls == init + [last];
      RunSnoc(s, init, last);
      var before := Run(s, init);
      StepExecutes(before, last);
      if k < |before.executions| {
        i := ExecutionWasTimelocked(s, init, k);
      } else {
        i := EtaWasScheduled(s, init, last.op.id);
      }
      assert calls[..i] == init[..i];
    }
  }

  // ----- delegation -----

  /** Delegating is for accounts that hold the amount and have no delegation yet, to another account. */
  lemma DelegateExact(s: State, delegator: Address, delegatee: Address, amount: int)
    ensures Delegate(s, delegator, delegatee, amount).Some? <==>
              delegator != delegatee && delegator !in s.delegations && amount <= Balance(s.ledger, s.votingToken, delegator)
    ensures Delegate(s, delegator, delegatee, amount).Some? ==>
              var s' := Delegate(s, delegator, delegatee, amount).value.0;
              && s' == s.(delegations := s.delegations[delegator := Delegation(delegatee, amount)], power := s'.power)
              && forall a :: At(s'.power, a) == At(s.power, a) + if a == delegatee then amount else 0
  {
  }

  /** Revoking undoes a delegation: the same delegations, the same power for everyone. */
  lemma DelegateRevokeRoundTrip(s: State, delegator: Address, delegatee: Address, amount: int)
    requires Delegate(s, delegator, delegatee, amount).Some?
    ensures var s1 := Delegate(s, delegator, delegatee, amount).value.0;
            RevokeDelegation(s1, delegator).Some? &&
            var s2 := RevokeDelegation(s1, delegator).value.0;
            && s2 == s.(power := s2.power) && forall a :: At(s2.power, a) == At(s.power, a)
  {
    var s1 := Delegate(s, delegator, delegatee, amount).value.0;
    assert s1.delegations - {delegator} == s.delegations;
  }

  /** The parameters are the administrator's to set. */
  lemma ParamsExact(s: State, caller: Address, params: Params)
    ensures SetParams(s, caller, params) == if caller == s.admin then Some((s.(params := params), ())) else None
  {
  }
}
