/** The governance contract object: entry points that rewrite stored records in place. */
module GovernanceContract {
  import opened Prelude
  import opened TokenLedger
  import G = Governance

  class Governance {
    var admin: Address
    var votingToken: Address
    var params: G.Params
    var proposalThreshold: int
    var totalSupply: int
    var count: nat
    var proposals: map<nat, G.Proposal>
    var votes: map<G.VoteKey, G.Vote>
    var delegations: map<Address, G.Delegation>
    var power: map<Address, int>
    var locks: map<Address, G.Lock>
    var ledger: Ledger
    var executions: seq<G.Execution>

    function View(): G.State
      reads this
    {
      G.State(admin, votingToken, params, proposalThreshold, totalSupply, count, proposals, votes, delegations, power, locks, ledger, executions)
    }

    constructor (admin: Address, votingToken: Address, params: G.Params, proposalThreshold: int, totalSupply: int)
      ensures View() == G.Initial(admin, votingToken, params, proposalThreshold, totalSupply) && G.Inv(View())
    {
      this.admin, this.votingToken, this.params := admin, votingToken, params;
      this.proposalThreshold, this.totalSupply, count := proposalThreshold, totalSupply, 0;
      proposals, votes, delegations, power, locks, ledger, executions := map[], map[], map[], map[], map[], map[], [];
      new;
      G.InitialValid(admin, votingToken, params, proposalThreshold, totalSupply);
    }

    method Propose(proposer: Address, actions: seq<G.Payment>, wellShaped: bool, env: G.Env) returns (r: Option<nat>)
      modifies this`proposals, this`count
      ensures (View(), r) == Commit(G.Propose(old(View()), proposer, actions, wellShaped, env), old(View()))
      ensures G.Inv(old(View())) ==> G.Inv(View())
    {
      hide G.Inv;
      if G.Inv(View()) { G.StepKeeps(View(), G.OpPropose(proposer, actions, wellShaped), env); }
      hide G.VotingPower;
      var votingPower := G.VotingPower(View(), proposer, env.now);
      var _ :- Need(votingPower >= proposalThreshold);
      var _ :- Need(actions == [] || wellShaped);
      var start := env.block + params.votingDelay;
      var id := count;
      count := count + 1;
      proposals := proposals[id := G.Proposal(proposer, start, start + params.votingPeriod, 0, 0, 0, 0, actions, false, false)];
      return Some(id);
    }

    method CastVote(voter: Address, id: nat, kind: G.VoteType, env: G.Env) returns (r: Option<()>)
      modifies this`proposals, this`votes
      ensures (View(), r) == Commit(G.CastVote(old(View()), voter, id, kind, env), old(View()))
      ensures G.Inv(old(View())) ==> G.Inv(View())
    {
      hide G.Inv;
      if G.Inv(View()) { G.StepKeeps(View(), G.OpVote(voter, id, kind), env); }
      hide G.VotingPower, G.StageOf;
      var _ :- Need(id in proposals);
      var proposal := proposals[id];
      var _ :- Need(G.StageOf(proposal, params, totalSupply, env) == G.Active);
      var _ :- Need(G.VoteKey(id, voter) !in votes);
      var votingPower := G.VotingPower(View(), voter, env.now);
      match kind {
        case For => proposal := proposal.(forVotes := proposal.forVotes + votingPower);
        case Against => proposal := proposal.(againstVotes := proposal.againstVotes + votingPower);
        case Abstain => proposal := proposal.(abstainVotes := proposal.abstainVotes + votingPower);
      }
      votes := votes[G.VoteKey(id, voter) := G.Vote(kind, votingPower)];
      proposals := proposals[id := proposal];
      return Some(());
    }

    method Queue(id: nat, env: G.Env) returns (r: Option<()>)
      modifies this`proposals
      ensures (View(), r) == Commit(G.Queue(old(View()), id, env), old(View()))
      ensures G.Inv(old(View())) ==> G.Inv(View())
    {
      hide G.Inv;
      if G.Inv(View()) { G.StepKeeps(View(), G.OpQueue(id), env); }
      hide G.StageOf;
      var _ :- Need(id in proposals);
      var proposal := proposals[id];
      var _ :- Need(G.StageOf(proposal, params, totalSupply, env) == G.Succeeded);
      proposal := proposal.(eta := env.now + params.timelock);
      proposals := proposals[id := proposal];
      return Some(());
    }

    /** The payments of a proposal, in order; a failing one aborts the call. */
    method Pay(actions: seq<G.Payment>) returns (r: Option<Ledger>)
      ensures r == G.PayAll(ledger, actions)
    {
      var l := ledger;
      for i := 0 to |actions|
        invariant G.PayAll(ledger, actions) == G.PayAll(l, actions[i..])
      {
        assert actions[i..][0] == actions[i] && actions[i..][1..] == actions[i + 1..];
        l :- Transfer(l, actions[i].token, SELF, actions[i].to, actions[i].amount);
      }
      return Some(l);
    }

    method Execute(id: nat, env: G.Env) returns (r: Option<()>)
      modifies this`proposals, this`ledger, this`executions
      ensures (View(), r) == Commit(G.Execute(old(View()), id, env), old(View()))
      ensures G.Inv(old(View())) ==> G.Inv(View())
    {
      hide G.Inv;
      if G.Inv(View()) { G.StepKeeps(View(), G.OpExecute(id), env); }
      hide G.StageOf, G.PayAll;
      var _ :- Need(id in proposals);
      var proposal := proposals[id];
      var _ :- Need(G.StageOf(proposal, params, totalSupply, env) == G.Queued);
      var _ :- Need(env.now >= proposal.eta);
      var l :- Pay(proposal.actions);
      ledger := l;
      proposals := proposals[id := proposal.(executed := true)];
      executions := executions + [G.Execution(id, env.now, proposal.eta, params)];
      return Some(());
    }

    method Cancel(caller: Address, id: nat) returns (r: Option<()>)
      modifies this`proposals
      ensures (View(), r) == Commit(G.Cancel(old(View()), caller, id), old(View()))
      ensures G.Inv(old(View())) ==> G.Inv(View())
    {
      hide G.Inv;
      if G.Inv(View()) { G.StepKeeps(View(), G.OpCancel(caller, id), G.Env(0, 0)); }
      var _ :- Need(id in proposals);
      var proposal := proposals[id];
      var _ :- Need(!proposal.executed);
      var _ :- Need(caller == proposal.proposer || caller == admin);
      proposals := proposals[id := proposal.(canceled := true)];
      return Some(());
    }

    method Delegate(delegator: Address, delegatee: Address, amount: int) returns (r: Option<()>)
      modifies this`delegations, this`power
      ensures (View(), r) == Commit(G.Delegate(old(View()), delegator, delegatee, amount), old(View()))
      ensures G.Inv(old(View())) ==> G.Inv(View())
    {
      hide G.Inv;
      if G.Inv(View()) { G.StepKeeps(View(), G.OpDelegate(delegator, delegatee, amount), G.Env(0, 0)); }
      var _ :- Need(delegator != delegatee && delegator !in delegations);
      var _ :- Need(Balance(ledger, votingToken, delegator) >= amount);
      delegations := delegations[delegator := G.Delegation(delegatee, amount)];
      power := power[delegatee := At(power, delegatee) + amount];
      return Some(());
    }

    method RevokeDelegation(delegator: Address) returns (r: Option<()>)
      modifies this`delegations, this`power
      ensures (View(), r) == Commit(G.RevokeDelegation(old(View()), delegator), old(View()))
      ensures G.Inv(old(View())) ==> G.Inv(View())
    {
      hide G.Inv;
      if G.Inv(View()) { G.StepKeeps(View(), G.OpRevoke(delegator), G.Env(0, 0)); }
      var _ :- Need(delegator in delegations);
      var delegation := delegations[delegator];
      delegations := delegations - {delegator};
      power := power[delegation.delegatee := At(power, delegation.delegatee) - delegation.amount];
      return Some(());
    }
  }
}
