/** Proposals, votes, delegation and vote-escrow locks (contracts/governance/src/contract.rs). */
module Governance {
  import opened Prelude
  import opened MapSum
  import opened TokenLedger

  const GRACE: nat := 14 * 24 * 60 * 60
  const MIN_LOCK: nat := 7 * 24 * 60 * 60
  const MAX_LOCK: nat := 4 * 365 * 24 * 60 * 60

  /** Ledger sequence number and timestamp. */
  datatype Env = Env(block: nat, now: nat)

  datatype Params = Params(votingDelay: nat, votingPeriod: nat, timelock: nat, quorum: int, threshold: int)

  datatype VoteType = For | Against | Abstain
  datatype Payment = Payment(token: Address, to: Address, amount: int)

  datatype Proposal = Proposal(
    proposer: Address, voteStart: nat, voteEnd: nat, eta: nat,
    forVotes: int, againstVotes: int, abstainVotes: int,
    actions: seq<Payment>, canceled: bool, executed: bool)

  datatype VoteKey = VoteKey(proposal: nat, voter: Address)
  datatype Vote = Vote(kind: VoteType, weight: int)
  datatype Delegation = Delegation(delegatee: Address, amount: int)
  datatype Lock = Lock(amount: int, end: nat, created: nat)

  /** A published execution, with the earliest time it was allowed and the parameters in force. */
  datatype Execution = Execution(proposal: nat, time: nat, eta: nat, params: Params)

  datatype State = State(
    admin: Address,
    votingToken: Address,
    params: Params,
    proposalThreshold: int,
    totalSupply: int,
    count: nat,
    proposals: map<nat, Proposal>,
    votes: map<VoteKey, Vote>,
    delegations: map<Address, Delegation>,
    power: map<Address, int>,
    locks: map<Address, Lock>,
    ledger: Ledger,
    executions: seq<Execution>)

  function Initial(admin: Address, votingToken: Address, params: Params, proposalThreshold: int, totalSupply: int): State {
    State(admin, votingToken, params, proposalThreshold, totalSupply, 0, map[], map[], map[], map[], map[], map[], [])
  }

  // ----- read-only helpers -----

  datatype Stage = Pending | Active | Canceled | Defeated | Succeeded | Queued | Expired | Executed

  predicate QuorumReached(p: Proposal, totalSupply: int, quorum: int) {
    totalSupply != 0 && (p.forVotes + p.againstVotes + p.abstainVotes) * BPS >= totalSupply * quorum
  }

  predicate ThresholdReached(p: Proposal, threshold: int) {
    p.forVotes + p.againstVotes != 0 && p.forVotes * BPS >= (p.forVotes + p.againstVotes) * threshold
  }

  /** The verdict of a closed vote under the current parameters. */
  predicate Passes(p: Proposal, params: Params, totalSupply: int) {
    QuorumReached(p, totalSupply, params.quorum) && ThresholdReached(p, params.threshold)
  }

  function StageOf(p: Proposal, params: Params, totalSupply: int, env: Env): Stage {
    if p.canceled then Canceled
    else if env.block < p.voteStart then Pending
    else if env.block <= p.voteEnd then Active
    else if !Passes(p, params, totalSupply) then Defeated
    else if p.executed then Executed
    else if p.eta == 0 then Succeeded
    else if env.now > p.eta + GRACE then Expired
    else Queued
  }

  function CurrentStage(s: State, id: nat, env: Env): Stage
    requires id in s.proposals
  {
    StageOf(s.proposals[id], s.params, s.totalSupply, env)
  }

  /** Linear decay of a vote-escrow lock. */
  function VeBalance(s: State, account: Address, now: nat): int {
    if account !in s.locks then 0
    else
      var l := s.locks[account];
      if now >= l.end || l.end <= l.created then 0 else l.amount * (l.end - now) / (l.end - l.created)
  }

  function VotingPower(s: State, account: Address, now: nat): int {
    Balance(s.ledger, s.votingToken, account) + VeBalance(s, account, now) + At(s.power, account)
  }

  // ----- transitions -----

  /** `wellShaped` stands for the length check on targets, functions and calldatas. */
  function Propose(s: State, proposer: Address, actions: seq<Payment>, wellShaped: bool, env: Env): Option<(State, nat)> {
    var _ :- Need(VotingPower(s, proposer, env.now) >= s.proposalThreshold && (actions == [] || wellShaped));
    var start := env.block + s.params.votingDelay;
    var p := Proposal(proposer, start, start + s.params.votingPeriod, 0, 0, 0, 0, actions, false, false);
    Some((s.(proposals := s.proposals[s.count := p], count := s.count + 1), s.count))
  }

  function Counted(p: Proposal, kind: VoteType, weight: int): Proposal {
    match kind
    case For => p.(forVotes := p.forVotes + weight)
    case Against => p.(againstVotes := p.againstVotes + weight)
    case Abstain => p.(abstainVotes := p.abstainVotes + weight)
  }

  function CastVote(s: State, voter: Address, id: nat, kind: VoteType, env: Env): Option<(State, ())> {
    var _ :- Need(id in s.proposals && CurrentStage(s, id, env) == Active && VoteKey(id, voter) !in s.votes);
    var weight := VotingPower(s, voter, env.now);
    Some((s.(proposals := s.proposals[id := Counted(s.proposals[id], kind, weight)],
             votes := s.votes[VoteKey(id, voter) := Vote(kind, weight)]), ()))
  }

  function Queue(s: State, id: nat, env: Env): Option<(State, ())> {
    var _ :- Need(id in s.proposals && CurrentStage(s, id, env) == Succeeded);
    Some((s.(proposals := s.proposals[id := s.proposals[id].(eta := env.now + s.params.timelock)]), ()))
  }

  function PayAll(l: Ledger, actions: seq<Payment>): Option<Ledger>
    decreases |actions|
  {
    if actions == [] then Some(l)
    else
      var l' :- Transfer(l, actions[0].token, SELF, actions[0].to, actions[0].amount);
      PayAll(l', actions[1..])
  }

  function Execute(s: State, id: nat, env: Env): Option<(State, ())> {
    var _ :- Need(id in s.proposals && CurrentStage(s, id, env) == Queued);
    var p := s.proposals[id];
    var _ :- Need(env.now >= p.eta);
    var l :- PayAll(s.ledger, p.actions);
    Some((s.(proposals := s.proposals[id := p.(executed := true)], ledger := l,
             executions := s.executions + [Execution(id, env.now, p.eta, s.params)]), ()))
  }

  function Cancel(s: State, caller: Address, id: nat): Option<(State, ())> {
    var _ :- Need(id in s.proposals && !s.proposals[id].executed);
    var _ :- Need(caller == s.proposals[id].proposer || caller == s.admin);
    Some((s.(proposals := s.proposals[id := s.proposals[id].(canceled := true)]), ()))
  }

  function Delegate(s: State, delegator: Address, delegatee: Address, amount: int): Option<(State, ())> {
    var _ :- Need(delegator != delegatee && delegator !in s.delegations);
    var _ :- Need(Balance(s.ledger, s.votingToken, delegator) >= amount);
    Some((s.(delegations := s.delegations[delegator := Delegation(delegatee, amount)],
             power := s.power[delegatee := At(s.power, delegatee) + amount]), ()))
  }

  function RevokeDelegation(s: State, delegator: Address): Option<(State, ())> {
    var _ :- Need(delegator in s.delegations);
    var d := s.delegations[delegator];
    Some((s.(delegations := s.delegations - {delegator},
             power := s.power[d.delegatee := At(s.power, d.delegatee) - d.amount]), ()))
  }

  function LockTokens(s: State, account: Address, amount: int, duration: nat, env: Env): Option<(State, ())> {
    var _ :- Need(amount > 0 && MIN_LOCK <= duration <= MAX_LOCK && account !in s.locks);
    var _ :- Need(Balance(s.ledger, s.votingToken, account) >= amount);
    Some((s.(locks := s.locks[account := Lock(amount, env.now + duration, env.now)]), ()))
  }

  function WithdrawTokens(s: State, account: Address, env: Env): Option<(State, ())> {
    var _ :- Need(account in s.locks && env.now >= s.locks[account].end);
    Some((s.(locks := s.locks - {account}), ()))
  }

  function SetParams(s: State, caller: Address, params: Params): Option<(State, ())> {
    var _ :- Need(caller == s.admin);
    Some((s.(params := params), ()))
  }

  /** Token movements elsewhere; balances may change in any way between calls. */
  function Outside(s: State, ledger: Ledger): Option<(State, ())> {
    Some((s.(ledger := ledger), ()))
  }

  // ----- runs -----

  datatype Op =
    | OpPropose(caller: Address, actions: seq<Payment>, wellShaped: bool)
    | OpVote(caller: Address, id: nat, kind: VoteType)
    | OpQueue(id: nat)
    | OpExecute(id: nat)
    | OpCancel(caller: Address, id: nat)
    | OpDelegate(caller: Address, delegatee: Address, amount: int)
    | OpRevoke(caller: Address)
    | OpLock(caller: Address, amount: int, duration: nat)
    | OpWithdraw(caller: Address)
    | OpSetParams(caller: Address, params: Params)
    | OpOutside(ledger: Ledger)

  function Step(s: State, op: Op, env: Env): State {
    match op
    case OpPropose(c, a, w) => Commit(Propose(s, c, a, w, env), s).0
    case OpVote(c, id, k) => Commit(CastVote(s, c, id, k, env), s).0
    case OpQueue(id) => Commit(Queue(s, id, env), s).0
    case OpExecute(id) => Commit(Execute(s, id, env), s).0
    case OpCancel(c, id) => Commit(Cancel(s, c, id), s).0
    case OpDelegate(c, d, n) => Commit(Delegate(s, c, d, n), s).0
    case OpRevoke(c) => Commit(RevokeDelegation(s, c), s).0
    case OpLock(c, n, d) => Commit(LockTokens(s, c, n, d, env), s).0
    case OpWithdraw(c) => Commit(WithdrawTokens(s, c, env), s).0
    case OpSetParams(c, p) => Commit(SetParams(s, c, p), s).0
    case OpOutside(l) => Commit(Outside(s, l), s).0
  }

  datatype Call = Call(op: Op, env: Env)

  function Run(s: State, calls: seq<Call>): State
    decreases |calls|
  {
    if calls == [] then s else Run(Step(s, calls[0].op, calls[0].env), calls[1..])
  }

  predicate Later(a: Env, b: Env) {
    a.block <= b.block && a.now <= b.now
  }

  /** The calls follow `env` in time, and each other. */
  ghost predicate InTimeOrder(calls: seq<Call>, env: Env) {
    calls != [] ==> Later(env, calls[0].env) && InTimeOrder(calls[1..], calls[0].env)
  }

  // ----- the invariant -----

  ghost function Ballots(votes: map<VoteKey, Vote>, id: nat, kind: VoteType): map<VoteKey, int> {
    map k | k in votes && k.proposal == id && votes[k].kind == kind :: votes[k].weight
  }

  ghost predicate Tallied(votes: map<VoteKey, Vote>, proposals: map<nat, Proposal>, id: nat) {
    id in proposals ==>
      && proposals[id].forVotes == Sum(Ballots(votes, id, For))
      && proposals[id].againstVotes == Sum(Ballots(votes, id, Against))
      && proposals[id].abstainVotes == Sum(Ballots(votes, id, Abstain))
  }

  ghost function DelegatedTo(delegations: map<Address, Delegation>, a: Address): map<Address, int> {
    map d | d in delegations && delegations[d].delegatee == a :: delegations[d].amount
  }

  ghost predicate PowerAgrees(delegations: map<Address, Delegation>, power: map<Address, int>, a: Address) {
    At(power, a) == Sum(DelegatedTo(delegations, a))
  }

  ghost function TimesRun(executions: seq<Execution>, id: nat): nat {
    if executions == [] then 0
    else
      var last := executions[|executions| - 1];
      TimesRun(executions[..|executions| - 1], id) + if last.proposal == id then 1 else 0
  }

  ghost predicate RanOnce(proposals: map<nat, Proposal>, executions: seq<Execution>, id: nat) {
    if id in proposals then
      && !(proposals[id].executed && proposals[id].canceled)
      && TimesRun(executions, id) == if proposals[id].executed then 1 else 0
    else TimesRun(executions, id) == 0
  }

  ghost predicate OnTime(e: Execution) {
    e.eta <= e.time <= e.eta + GRACE
  }

  ghost predicate AllTallied(votes: map<VoteKey, Vote>, proposals: map<nat, Proposal>) {
    forall id :: Tallied(votes, proposals, id)
  }

  ghost predicate AllPowerAgrees(delegations: map<Address, Delegation>, power: map<Address, int>) {
    forall a :: PowerAgrees(delegations, power, a)
  }

  ghost predicate AllRanOnce(proposals: map<nat, Proposal>, executions: seq<Execution>) {
    forall id :: RanOnce(proposals, executions, id)
  }

  ghost predicate Inv(s: State) {
    && (forall id :: id in s.proposals ==> id < s.count)
    && (forall k :: k in s.votes ==> k.proposal < s.count)
    && AllTallied(s.votes, s.proposals)
    && AllPowerAgrees(s.delegations, s.power)
    && AllRanOnce(s.proposals, s.executions)
    && (forall i :: 0 <= i < |s.executions| ==> OnTime(s.executions[i]))
  }

  // ----- votes and delegation -----

  lemma BallotCast(votes: map<VoteKey, Vote>, key: VoteKey, v: Vote, id: nat, kind: VoteType)
    requires key !in votes
    ensures Sum(Ballots(votes[key := v], id, kind)) == Sum(Ballots(votes, id, kind)) +
              if key.proposal == id && v.kind == kind then v.weight else 0
  {
    hide Sum;
    var m, m' := Ballots(votes, id, kind), Ballots(votes[key := v], id, kind);
    if key.proposal == id && v.kind == kind {
      SumUpdate(m, key, v.weight);
      assert m' == m[key := v.weight];
    } else {
      assert m' == m;
    }
  }

  lemma VoteKeepsTallies(s: State, voter: Address, id: nat, kind: VoteType, env: Env)
    requires Inv(s) && CastVote(s, voter, id, kind, env).Some?
    ensures var s' := CastVote(s, voter, id, kind, env).value.0;
            AllTallied(s'.votes, s'.proposals)
  {
    hide Sum, VotingPower, StageOf;
    var s' := CastVote(s, voter, id, kind, env).value.0;
    var key, v := VoteKey(id, voter), Vote(kind, VotingPower(s, voter, env.now));
    forall j ensures Tallied(s'.votes, s'.proposals, j) {
      assert Tallied(s.votes, s.proposals, j);
      BallotCast(s.votes, key, v, j, For);
      BallotCast(s.votes, key, v, j, Against);
      BallotCast(s.votes, key, v, j, Abstain);
    }
  }

  lemma DelegateKeepsPower(delegations: map<Address, Delegation>, power: map<Address, int>, delegator: Address, d: Delegation)
    requires delegator !in delegations && AllPowerAgrees(delegations, power)
    ensures AllPowerAgrees(delegations[delegator := d], power[d.delegatee := At(power, d.delegatee) + d.amount])
  {
    hide Sum;
    var delegations', power' := delegations[delegator := d], power[d.delegatee := At(power, d.delegatee) + d.amount];
    forall a ensures PowerAgrees(delegations', power', a) {
      assert PowerAgrees(delegations, power, a);
      var m := DelegatedTo(delegations, a);
      if a == d.delegatee {
        SumUpdate(m, delegator, d.amount);
        assert DelegatedTo(delegations', a) == m[delegator := d.amount];
      } else {
        assert DelegatedTo(delegations', a) == m;
      }
    }
  }

  lemma RevokeKeepsPower(delegations: map<Address, Delegation>, power: map<Address, int>, delegator: Address)
    requires delegator in delegations && AllPowerAgrees(delegations, power)
    ensures var d := delegations[delegator];
            AllPowerAgrees(delegations - {delegator}, power[d.delegatee := At(power, d.delegatee) - d.amount])
  {
    hide Sum;
    var d := delegations[delegator];
    var delegations', power' := delegations - {delegator}, power[d.delegatee := At(power, d.delegatee) - d.amount];
    forall a ensures PowerAgrees(delegations', power', a) {
      assert PowerAgrees(delegations, power, a);
      var m := DelegatedTo(delegations, a);
      if a == d.delegatee {
        SumRemove(m, delegator);
        assert DelegatedTo(delegations', a) == m - {delegator};
      } else {
        assert DelegatedTo(delegations', a) == m;
      }
    }
  }

  // ----- execution -----

  lemma RunAppend(executions: seq<Execution>, e: Execution, id: nat)
    ensures TimesRun(executions + [e], id) == TimesRun(executions, id) + if e.proposal == id then 1 else 0
  {
    assert (executions + [e])[..|executions|] == executions;
  }

  /** Rewriting a proposal's tallies or eta, or cancelling one that has not run, keeps the record of runs. */
  lemma ProposalWrite(proposals: map<nat, Proposal>, executions: seq<Execution>, id: nat, p: Proposal)
    requires AllRanOnce(proposals, executions)
    requires if id in proposals then p.executed == proposals[id].executed && !(p.executed && p.canceled) else !p.executed
    ensures AllRanOnce(proposals[id := p], executions)
  {
    var proposals' := proposals[id := p];
    forall j ensures RanOnce(proposals', executions, j) {
      assert RanOnce(proposals, executions, j);
    }
  }

  lemma ExecuteKeepsRuns(s: State, id: nat, env: Env)
    requires Inv(s) && Execute(s, id, env).Some?
    ensures var s' := Execute(s, id, env).value.0;
            && AllRanOnce(s'.proposals, s'.executions)
            && (forall i :: 0 <= i < |s'.executions| ==> OnTime(s'.executions[i]))
  {
    hide Sum, Passes;
    var s' := Execute(s, id, env).value.0;
    forall j ensures RanOnce(s'.proposals, s'.executions, j) {
      assert RanOnce(s.proposals, s.executions, j);
      RunAppend(s.executions, Execution(id, env.now, s.proposals[id].eta, s.params), j);
    }
  }

  /** Proposals that keep their tallies stay tallied. */
  lemma SameTallies(votes: map<VoteKey, Vote>, proposals: map<nat, Proposal>, id: nat, p: Proposal)
    requires AllTallied(votes, proposals)
    requires id in proposals && p.forVotes == proposals[id].forVotes
    requires p.againstVotes == proposals[id].againstVotes && p.abstainVotes == proposals[id].abstainVotes
    ensures AllTallied(votes, proposals[id := p])
  {
    hide Sum;
    var proposals' := proposals[id := p];
    forall j ensures Tallied(votes, proposals', j) {
      assert Tallied(votes, proposals, j);
    }
  }

  lemma ProposeKeeps(s: State, proposer: Address, actions: seq<Payment>, wellShaped: bool, env: Env)
    requires Inv(s) && Propose(s, proposer, actions, wellShaped, env).Some?
    ensures Inv(Propose(s, proposer, actions, wellShaped, env).value.0)
  {
    hide VotingPower;
    var s' := Propose(s, proposer, actions, wellShaped, env).value.0;
    ProposalWrite(s.proposals, s.executions, s.count, s'.proposals[s.count]);
    forall j ensures Tallied(s'.votes, s'.proposals, j) {
      assert Tallied(s.votes, s.proposals, j);
      if j == s.count {
        assert Ballots(s.votes, j, For) == map[] && Ballots(s.votes, j, Against) == map[] && Ballots(s.votes, j, Abstain) == map[];
      }
    }
  }

  lemma ProposalStepKeeps(s: State, op: Op, env: Env)
    requires Inv(s) && (op.OpVote? || op.OpQueue? || op.OpExecute? || op.OpCancel?)
    ensures Inv(Step(s, op, env))
  {
    hide Sum, VotingPower, Passes, PayAll;
    var s' := Step(s, op, env);
    if s' != s {
      assert RanOnce(s.proposals, s.executions, op.id);
      if op.OpExecute? {
        ExecuteKeepsRuns(s, op.id, env);
      } else {
        ProposalWrite(s.proposals, s.executions, op.id, s'.proposals[op.id]);
      }
      if op.OpVote? {
        VoteKeepsTallies(s, op.caller, op.id, op.kind, env);
      } else {
        SameTallies(s.votes, s.proposals, op.id, s'.proposals[op.id]);
      }
    }
  }

  /** Every entry point keeps tallies, delegation sums and the record of executions. */
  lemma StepKeeps(s: State, op: Op, env: Env)
    requires Inv(s)
    ensures Inv(Step(s, op, env))
  {
    hide Sum, VotingPower, StageOf, PayAll;
    match op
    case OpPropose(c, a, w) =>
      if Propose(s, c, a, w, env).Some? { ProposeKeeps(s, c, a, w, env); }
    case OpDelegate(c, d, n) =>
      if Delegate(s, c, d, n).Some? { DelegateKeepsPower(s.delegations, s.power, c, Delegation(d, n)); }
    case OpRevoke(c) =>
      if RevokeDelegation(s, c).Some? { RevokeKeepsPower(s.delegations, s.power, c); }
    case OpVote(_, _, _) => ProposalStepKeeps(s, op, env);
    case OpQueue(_) => ProposalStepKeeps(s, op, env);
    case OpExecute(_) => ProposalStepKeeps(s, op, env);
    case OpCancel(_, _) => ProposalStepKeeps(s, op, env);
    case _ =>
  }

  // ----- whole runs -----

  lemma InitialValid(admin: Address, votingToken: Address, params: Params, proposalThreshold: int, totalSupply: int)
    ensures Inv(Initial(admin, votingToken, params, proposalThreshold, totalSupply))
  {
    var s := Initial(admin, votingToken, params, proposalThreshold, totalSupply);
    forall a ensures PowerAgrees(s.delegations, s.power, a) {
      assert DelegatedTo(s.delegations, a) == map[];
    }
  }

  lemma {:induction false} RunKeeps(s: State, calls: seq<Call>)
    requires Inv(s)
    ensures Inv(Run(s, calls))
    decreases |calls|
  {
    if calls != [] {
      StepKeeps(s, calls[0].op, calls[0].env);
      RunKeeps(Step(s, calls[0].op, calls[0].env), calls[1..]);
    }
  }

  /** Over every run, parameter changes included: tallies are the sums of recorded weights, delegated
      power is the sum of live delegations, a proposal runs at most once and never if cancelled, and
      only between its eta and 14 days later. */
  lemma EveryRun(s: State, calls: seq<Call>, id: nat, a: Address, i: nat)
    requires Inv(s)
    ensures var s' := Run(s, calls);
            && Tallied(s'.votes, s'.proposals, id)
            && At(s'.power, a) == Sum(DelegatedTo(s'.delegations, a))
            && TimesRun(s'.executions, id) <= 1
            && (id in s'.proposals && s'.proposals[id].canceled ==> TimesRun(s'.executions, id) == 0)
            && (i < |s'.executions| ==> OnTime(s'.executions[i]))
  {
    hide Sum;
    RunKeeps(s, calls);
    var s' := Run(s, calls);
    assert PowerAgrees(s'.delegations, s'.power, a);
    assert RanOnce(s'.proposals, s'.executions, id);
  }

  // ----- what an execution rested on -----

  /** The executed proposal, as stored now, had its vote closed and passed under the parameters of the time. */
  ghost predicate Warranted(proposals: map<nat, Proposal>, totalSupply: int, e: Execution, block: nat) {
    && e.proposal in proposals && proposals[e.proposal].executed && proposals[e.proposal].eta == e.eta
    && proposals[e.proposal].voteEnd < block
    && Passes(proposals[e.proposal], e.params, totalSupply)
  }

  ghost predicate AllWarranted(s: State, block: nat) {
    forall i :: 0 <= i < |s.executions| ==> Warranted(s.proposals, s.totalSupply, s.executions[i], block)
  }

  /** Once executed and closed, a proposal's record never changes again: no vote, queueing, second
      execution or cancellation touches it. */
  lemma ExecutedUntouched(s: State, op: Op, env: Env, id: nat)
    requires Inv(s) && id in s.proposals && s.proposals[id].executed && s.proposals[id].voteEnd < env.block
    ensures id in Step(s, op, env).proposals && Step(s, op, env).proposals[id] == s.proposals[id]
  {
    hide VotingPower, Passes, PayAll, AllTallied, AllPowerAgrees, AllRanOnce;
  }

  lemma ExecuteShape(s: State, id: nat, env: Env) returns (p: Proposal)
    requires Execute(s, id, env).Some?
    ensures id in s.proposals && p == s.proposals[id].(executed := true)
    ensures p.voteEnd < env.block && Passes(p, s.params, s.totalSupply)
    ensures var s' := Execute(s, id, env).value.0;
            s' == s.(proposals := s.proposals[id := p], ledger := s'.ledger,
                     executions := s.executions + [Execution(id, env.now, p.eta, s.params)])
  {
    hide Passes, PayAll;
    p := s.proposals[id].(executed := true);
    SameVerdict(s.proposals[id], p, s.params, s.totalSupply);
  }

  lemma StepExecutions(s: State, op: Op, env: Env)
    requires !(op.OpExecute? && Execute(s, op.id, env).Some?)
    ensures Step(s, op, env).executions == s.executions && Step(s, op, env).totalSupply == s.totalSupply
  {
    hide VotingPower, StageOf, PayAll;
  }

  lemma StepWarranted(s: State, op: Op, env: Env, block: nat)
    requires Inv(s) && AllWarranted(s, block) && block <= env.block
    ensures AllWarranted(Step(s, op, env), env.block)
  {
    hide Inv, Passes, Step, Execute;
    var s' := Step(s, op, env);
    forall i | 0 <= i < |s.executions| ensures Warranted(s'.proposals, s.totalSupply, s.executions[i], env.block) {
      assert Warranted(s.proposals, s.totalSupply, s.executions[i], block);
      ExecutedUntouched(s, op, env, s.executions[i].proposal);
    }
    if op.OpExecute? && Execute(s, op.id, env).Some? {
      var p := ExecuteShape(s, op.id, env);
      ExecuteSteps(s, op, env);
    } else {
      StepExecutions(s, op, env);
    }
  }

  lemma ExecuteSteps(s: State, op: Op, env: Env)
    requires op.OpExecute? && Execute(s, op.id, env).Some?
    ensures Step(s, op, env) == Execute(s, op.id, env).value.0
  {
  }

  /** Over every run in time order, parameter changes included: each execution's proposal is still
      stored with the eta it ran under, and its final tallies pass the quorum and threshold in force
      when it ran. */
  lemma {:induction false} RunWarranted(s: State, calls: seq<Call>, env: Env) returns (end: Env)
    requires Inv(s) && AllWarranted(s, env.block) && InTimeOrder(calls, env)
    ensures AllWarranted(Run(s, calls), end.block)
    decreases |calls|
  {
    hide Inv, Step, AllWarranted;
    if calls == [] {
      end := env;
    } else {
      StepWarranted(s, calls[0].op, calls[0].env, env.block);
      StepKeeps(s, calls[0].op, calls[0].env);
      end := RunWarranted(Step(s, calls[0].op, calls[0].env), calls[1..], calls[0].env);
    }
  }

  // ----- the lifecycle -----

  /** The stages a proposal can come to from a given one: a defeated or expired proposal can only be
      cancelled, an executed or cancelled one stays so. */
  function Successors(st: Stage): set<Stage> {
    match st
    case Pending => {Active, Defeated, Succeeded, Queued, Expired, Executed, Canceled}
    case Active => {Defeated, Succeeded, Queued, Expired, Executed, Canceled}
    case Succeeded => {Queued, Expired, Executed, Canceled}
    case Queued => {Expired, Executed, Canceled}
    case Defeated => {Canceled}
    case Expired => {Canceled}
    case Executed => {}
    case Canceled => {}
  }

  /** The lifecycle stays put or moves to a later stage. */
  predicate Forward(a: Stage, b: Stage) {
    a == b || b in Successors(a)
  }

  /** No stage is met again once left, so the order is one. */
  lemma ForwardIsAnOrder(a: Stage, b: Stage, c: Stage)
    ensures Forward(a, b) && Forward(b, c) ==> Forward(a, c)
    ensures Forward(a, b) && Forward(b, a) ==> a == b
  {
  }

  lemma TimeMovesForward(p: Proposal, params: Params, totalSupply: int, env: Env, env': Env)
    requires Later(env, env')
    ensures Forward(StageOf(p, params, totalSupply, env), StageOf(p, params, totalSupply, env'))
  {
    hide Passes;
  }

  /** The ways an entry point can change a proposal. */
  ghost predicate Change(p: Proposal, q: Proposal, params: Params, totalSupply: int, env: Env) {
    var st := StageOf(p, params, totalSupply, env);
    || q == p
    || (st == Active && q.voteStart == p.voteStart && q.voteEnd == p.voteEnd && q.canceled == p.canceled)
    || (st == Succeeded && q == p.(eta := q.eta) && q.eta >= env.now)
    || (st == Queued && q == p.(executed := true))
    || (!p.executed && q == p.(canceled := true))
  }

  lemma ChangeMovesForward(p: Proposal, q: Proposal, params: Params, totalSupply: int, env: Env)
    requires Change(p, q, params, totalSupply, env)
    ensures Forward(StageOf(p, params, totalSupply, env), StageOf(q, params, totalSupply, env))
  {
    hide Passes;
    if q.forVotes == p.forVotes && q.againstVotes == p.againstVotes && q.abstainVotes == p.abstainVotes {
      SameVerdict(p, q, params, totalSupply);
    }
  }

  ghost predicate Advances(s: State, s': State, env: Env, id: nat) {
    && id in s.proposals && id in s'.proposals
    && s'.params == s.params && s'.totalSupply == s.totalSupply
    && Change(s.proposals[id], s'.proposals[id], s.params, s.totalSupply, env)
  }

  lemma ProposeAdvances(s: State, c: Address, actions: seq<Payment>, wellShaped: bool, env: Env, id: nat)
    requires Inv(s) && id in s.proposals
    ensures Advances(s, Commit(Propose(s, c, actions, wellShaped, env), s).0, env, id)
  {
    hide VotingPower, StageOf, AllTallied, AllPowerAgrees, AllRanOnce;
  }

  lemma VoteAdvances(s: State, c: Address, j: nat, kind: VoteType, env: Env, id: nat)
    requires id in s.proposals
    ensures Advances(s, Commit(CastVote(s, c, j, kind, env), s).0, env, id)
  {
    hide VotingPower, StageOf;
  }

  lemma QueueAdvances(s: State, j: nat, env: Env, id: nat)
    requires id in s.proposals
    ensures Advances(s, Commit(Queue(s, j, env), s).0, env, id)
  {
    hide StageOf;
  }

  lemma ExecuteAdvances(s: State, j: nat, env: Env, id: nat)
    requires id in s.proposals
    ensures Advances(s, Commit(Execute(s, j, env), s).0, env, id)
  {
    hide StageOf, PayAll;
  }

  lemma CancelAdvances(s: State, c: Address, j: nat, env: Env, id: nat)
    requires id in s.proposals
    ensures Advances(s, Commit(Cancel(s, c, j), s).0, env, id)
  {
    hide StageOf;
  }

  lemma StepAdvances(s: State, op: Op, env: Env, id: nat)
    requires Inv(s) && id in s.proposals && !op.OpSetParams?
    ensures Advances(s, Step(s, op, env), env, id)
  {
    hide Inv, Change, VotingPower, Propose, CastVote, Queue, Execute, Cancel;
    Unmoved(s.proposals[id], s.params, s.totalSupply, env);
    match op
    case OpPropose(c, a, w) => ProposeAdvances(s, c, a, w, env, id);
    case OpVote(c, j, k) => VoteAdvances(s, c, j, k, env, id);
    case OpQueue(j) => QueueAdvances(s, j, env, id);
    case OpExecute(j) => ExecuteAdvances(s, j, env, id);
    case OpCancel(c, j) => CancelAdvances(s, c, j, env, id);
    case _ =>
  }

  lemma Unmoved(p: Proposal, params: Params, totalSupply: int, env: Env)
    ensures Change(p, p, params, totalSupply, env)
  {
  }

  lemma StepMovesForward(s: State, op: Op, env: Env, id: nat)
    requires Inv(s) && id in s.proposals && !op.OpSetParams?
    ensures id in Step(s, op, env).proposals
    ensures Forward(CurrentStage(s, id, env), CurrentStage(Step(s, op, env), id, env))
    ensures Step(s, op, env).params == s.params && Step(s, op, env).totalSupply == s.totalSupply
  {
    hide Step, StageOf, Inv, Change;
    StepAdvances(s, op, env, id);
    ChangeMovesForward(s.proposals[id], Step(s, op, env).proposals[id], s.params, s.totalSupply, env);
  }

  lemma SameVerdict(p: Proposal, q: Proposal, params: Params, totalSupply: int)
    requires p.forVotes == q.forVotes && p.againstVotes == q.againstVotes && p.abstainVotes == q.abstainVotes
    ensures Passes(p, params, totalSupply) == Passes(q, params, totalSupply)
  {
  }

  /** A change of parameters does not turn the verdict of a closed, uncancelled vote. */
  predicate VerdictKept(p: Proposal, before: Params, after: Params, totalSupply: int, env: Env) {
    p.canceled || env.block <= p.voteEnd || env.block < p.voteStart || Passes(p, before, totalSupply) == Passes(p, after, totalSupply)
  }

  /** A parameter change leaves a proposal's stage alone, and likewise moves it forward, exactly when it
      keeps the verdict: the vote is not closed, the proposal is cancelled, or both settings agree on it. */
  lemma ParameterChangeIff(p: Proposal, before: Params, after: Params, totalSupply: int, env: Env)
    ensures var st, st' := StageOf(p, before, totalSupply, env), StageOf(p, after, totalSupply, env);
            && (st == st' <==> VerdictKept(p, before, after, totalSupply, env))
            && (Forward(st, st') <==> VerdictKept(p, before, after, totalSupply, env))
  {
    hide Passes;
  }

  /** The call is no parameter change, or one that keeps this proposal's verdict. */
  predicate Harmless(s: State, call: Call, id: nat)
    requires id in s.proposals
  {
    call.op.OpSetParams? && call.op.caller == s.admin ==>
      VerdictKept(s.proposals[id], s.params, call.op.params, s.totalSupply, call.env)
  }

  /** One call moves a proposal's stage forward exactly when it is harmless to it. */
  lemma StepForwardIff(s: State, call: Call, id: nat)
    requires Inv(s) && id in s.proposals
    ensures id in Step(s, call.op, call.env).proposals
    ensures Forward(CurrentStage(s, id, call.env), CurrentStage(Step(s, call.op, call.env), id, call.env)) <==> Harmless(s, call, id)
  {
    hide StageOf, Inv, VerdictKept, Forward;
    if call.op.OpSetParams? {
      ParameterChangeIff(s.proposals[id], s.params, call.op.params, s.totalSupply, call.env);
      Stays(CurrentStage(s, id, call.env));
    } else {
      StepMovesForward(s, call.op, call.env, id);
    }
  }

  lemma Stays(st: Stage)
    ensures Forward(st, st)
  {
  }

  /** Every call of the run is harmless to the proposal when it comes. */
  ghost predicate AllHarmless(s: State, calls: seq<Call>, id: nat)
    decreases |calls|
  {
    calls != [] ==>
      && id in s.proposals && Harmless(s, calls[0], id)
      && AllHarmless(Step(s, calls[0].op, calls[0].env), calls[1..], id)
  }

  /** Over any run and any wait a proposal's stage only moves forward, as long as no parameter change
      turns its verdict; changes of delays, or made before the vote closes, are no obstacle. */
  lemma {:induction false} LifecycleForward(s: State, calls: seq<Call>, env: Env, end: Env, id: nat)
    requires Inv(s) && id in s.proposals && InTimeOrder(calls, env) && AllHarmless(s, calls, id)
    requires Later(if calls == [] then env else calls[|calls| - 1].env, end)
    ensures id in Run(s, calls).proposals
    ensures Forward(CurrentStage(s, id, env), CurrentStage(Run(s, calls), id, end))
    decreases |calls|
  {
    hide StageOf, Harmless, Forward, Step;
    if calls == [] {
      TimeMovesForward(s.proposals[id], s.params, s.totalSupply, env, end);
    } else {
      var now, s1 := calls[0].env, Step(s, calls[0].op, calls[0].env);
      TimeMovesForward(s.proposals[id], s.params, s.totalSupply, env, now);
      StepForwardIff(s, calls[0], id);
      StepKeeps(s, calls[0].op, now);
      LifecycleForward(s1, calls[1..], now, end, id);
      var st := CurrentStage(Run(s, calls), id, end);
      ForwardIsAnOrder(CurrentStage(s, id, env), CurrentStage(s, id, now), CurrentStage(s1, id, now));
      ForwardIsAnOrder(CurrentStage(s, id, env), CurrentStage(s1, id, now), st);
    }
  }

  /** Without parameter changes every run is harmless. */
  lemma {:induction false} FixedParametersHarmless(s: State, calls: seq<Call>, id: nat)
    requires Inv(s) && id in s.proposals && forall i :: 0 <= i < |calls| ==> !calls[i].op.OpSetParams?
    ensures AllHarmless(s, calls, id)
    decreases |calls|
  {
    hide Inv, Step, VerdictKept;
    if calls != [] {
      assert Harmless(s, calls[0], id);
      StepForwardIff(s, calls[0], id);
      StepKeeps(s, calls[0].op, calls[0].env);
      FixedParametersHarmless(Step(s, calls[0].op, calls[0].env), calls[1..], id);
    }
  }
}
