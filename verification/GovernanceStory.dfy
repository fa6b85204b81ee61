/** A run of the governance contract after which an executed proposal reads as defeated
    (contracts/governance/src/contract.rs). */
module GovernanceStory {
  import opened Prelude
  import opened TokenLedger
  import opened Governance

  const BOSS: Address := Address(1)
  const COIN: Address := Address(2)

  /** A quorum of half the supply, and later of nine tenths. */
  function Lenient(): Params { Params(0, 10, 0, 5000, 5000) }

  function Strict(): Params { Params(0, 10, 0, 9000, 5000) }

  /** A holder of 60 of 100 proposes, votes, queues and executes; then the quorum is raised. */
  function Story(): seq<Call> {
    [Call(OpOutside(map[Holding(COIN, BOSS) := 60]), Env(0, 1)), Call(OpPropose(BOSS, [], true), Env(0, 1)),
     Call(OpVote(BOSS, 0, For), Env(1, 1)), Call(OpQueue(0), Env(11, 5)), Call(OpExecute(0), Env(11, 6)),
     Call(OpSetParams(BOSS, Strict()), Env(11, 7))]
  }

  function Motion(votes: int, eta: nat, done: bool): Proposal {
    Proposal(BOSS, 0, 10, eta, votes, 0, 0, [], false, done)
  }

  /** The contract with this one proposal in it. */
  function Hall(params: Params, p: Proposal, votes: map<VoteKey, Vote>, executions: seq<Execution>): State {
    State(BOSS, COIN, params, 0, 100, 1, map[0 := p], votes, map[], map[], map[], map[Holding(COIN, BOSS) := 60], executions)
  }

  function Ballot(): map<VoteKey, Vote> {
    map[VoteKey(0, BOSS) := Vote(For, 60)]
  }

  lemma {:induction false} RunSnoc(s: State, calls: seq<Call>, call: Call)
    ensures Run(s, calls + [call]) == Step(Run(s, calls), call.op, call.env)
    decreases |calls|
  {
    hide Step;
    if calls == [] {
      assert calls + [call] == [call] && [call][1..] == [];
    } else {
      assert (calls + [call])[0] == calls[0] && (calls + [call])[1..] == calls[1..] + [call];
      RunSnoc(Step(s, calls[0].op, calls[0].env), calls[1..], call);
    }
  }

  lemma OneCall(s: State, calls: seq<Call>, k: nat)
    requires k < |calls|
    ensures Run(s, calls[..k + 1]) == Step(Run(s, calls[..k]), calls[k].op, calls[k].env)
  {
    assert calls[..k + 1] == calls[..k] + [calls[k]];
    RunSnoc(s, calls[..k], calls[k]);
  }

  lemma Proposed(s: State)
    requires s == Initial(BOSS, COIN, Lenient(), 0, 100).(ledger := map[Holding(COIN, BOSS) := 60])
    ensures Step(s, OpPropose(BOSS, [], true), Env(0, 1)) == Hall(Lenient(), Motion(0, 0, false), map[], [])
  {
  }

  lemma Voted()
    ensures Step(Hall(Lenient(), Motion(0, 0, false), map[], []), OpVote(BOSS, 0, For), Env(1, 1))
         == Hall(Lenient(), Motion(60, 0, false), Ballot(), [])
  {
  }

  lemma QueuedAndExecuted()
    ensures Step(Hall(Lenient(), Motion(60, 0, false), Ballot(), []), OpQueue(0), Env(11, 5))
         == Hall(Lenient(), Motion(60, 5, false), Ballot(), [])
    ensures Step(Hall(Lenient(), Motion(60, 5, false), Ballot(), []), OpExecute(0), Env(11, 6))
         == Hall(Lenient(), Motion(60, 5, true), Ballot(), [Execution(0, 6, 5, Lenient())])
  {
  }

  /** The stage is Executed after the execution, and Defeated after the parameter change that follows. */
  lemma ExecutedCanReadDefeated()
    ensures var s := Initial(BOSS, COIN, Lenient(), 0, 100);
            && InTimeOrder(Story(), Env(0, 0))
            && 0 in Run(s, Story()[..5]).proposals && CurrentStage(Run(s, Story()[..5]), 0, Env(11, 7)) == Executed
            && 0 in Run(s, Story()).proposals && CurrentStage(Run(s, Story()), 0, Env(11, 7)) == Defeated
  {
    hide Step, Run, Execute, Queue, CastVote, Propose;
    var s := Initial(BOSS, COIN, Lenient(), 0, 100);
    StoryInOrder();
    StoryRuns(s);
    assert Story()[..6] == Story();
    OneCall(s, Story(), 5);
    ParametersChanged(Motion(60, 5, true), Ballot(), [Execution(0, 6, 5, Lenient())]);
  }

  lemma ParametersChanged(p: Proposal, votes: map<VoteKey, Vote>, executions: seq<Execution>)
    ensures Step(Hall(Lenient(), p, votes, executions), OpSetParams(BOSS, Strict()), Env(11, 7)) == Hall(Strict(), p, votes, executions)
  {
  }

  lemma StoryInOrder()
    ensures InTimeOrder(Story(), Env(0, 0))
  {
    var c := Story();
    assert c[1..][1..] == c[2..] && c[2..][1..] == c[3..] && c[3..][1..] == c[4..] && c[4..][1..] == c[5..] && c[5..][1..] == [];
    assert InTimeOrder(c[5..], c[4].env) && InTimeOrder(c[4..], c[3].env) && InTimeOrder(c[3..], c[2].env);
    assert InTimeOrder(c[2..], c[1].env) && InTimeOrder(c[1..], c[0].env);
  }

  lemma StoryRuns(s: State)
    requires s == Initial(BOSS, COIN, Lenient(), 0, 100)
    ensures Run(s, Story()[..5]) == Hall(Lenient(), Motion(60, 5, true), Ballot(), [Execution(0, 6, 5, Lenient())])
  {
    hide Hall, Motion, Ballot, StageOf, VotingPower;
    assert Story()[..0] == [] && Run(s, []) == s;
    OneCall(s, Story(), 0);
    OneCall(s, Story(), 1);
    OneCall(s, Story(), 2);
    OneCall(s, Story(), 3);
    OneCall(s, Story(), 4);
    Funded(s);
    Proposed(s.(ledger := map[Holding(COIN, BOSS) := 60]));
    Voted();
    QueuedAndExecuted();
  }

  lemma Funded(s: State)
    ensures Step(s, OpOutside(map[Holding(COIN, BOSS) := 60]), Env(0, 1)) == s.(ledger := map[Holding(COIN, BOSS) := 60])
  {
  }
}
