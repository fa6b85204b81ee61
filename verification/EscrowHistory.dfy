/** The escrow's pruned logs and approvals against the whole run that led to them, whatever the
    administrator did to the rate limit on the way (contracts/escrow/src/lib.rs). */
module EscrowHistory {
  import opened Prelude
  import opened SeqSum
  import opened EscrowWindow
  import opened EscrowQueue
  import opened EscrowProofs

  // ----- what a pruned log still knows -----

  /** The stored log of executions: the global one, or one recipient's. */
  function LogOf(s: State, who: Option<Address>): seq<nat> {
    if who.None? then s.globalLog else RecipientLog(s, who.value)
  }

  /** The executions that belong in it, none forgotten. */
  ghost function HistoryOf(events: seq<Event>, who: Option<Address>): seq<nat> {
    if who.None? then Times(events) else TimesTo(events, who.value)
  }

  predicate Concerns(tx: Tx, who: Option<Address>) {
    who.None? || who.value == tx.recipient
  }

  /** How far back the log reaches after a call: an execution that appends to it prunes it to the
      cutoff of the moment, and what is gone does not come back. */
  function StepCutoff(s: State, call: Call, who: Option<Address>, c: nat): nat {
    if call.op.OpExecute? && Execute(s, call.op.tx, call.now).Ok? && call.op.tx in s.txs && Concerns(s.txs[call.op.tx], who)
    then Max(c, Cutoff(call.now, s.config.window))
    else c
  }

  /** The latest cutoff the log was pruned to along a run. */
  function RunCutoff(s: State, calls: seq<Call>, who: Option<Address>, c: nat): nat
    decreases |calls|
  {
    if calls == [] then c
    else RunCutoff(Step(s, calls[0].op, calls[0].now), calls[1..], who, StepCutoff(s, calls[0], who, c))
  }

  ghost predicate PrunedTo(s: State, who: Option<Address>, c: nat) {
    LogOf(s, who) == Keep(HistoryOf(s.events, who), c)
  }

  lemma AppendAndPrune(times: seq<nat>, c: nat, now: nat, d: nat)
    requires c <= now && d <= now
    ensures Keep(Keep(times, c) + [now], d) == Keep(times + [now], Max(c, d))
  {
    KeepAppend(Keep(times, c), now, d);
    KeepKeep(times, c, d);
    KeepAppend(times, now, Max(c, d));
  }

  lemma StepPruned(s: State, call: Call, who: Option<Address>, c: nat)
    requires PrunedTo(s, who, c) && c <= call.now
    ensures PrunedTo(Step(s, call.op, call.now), who, StepCutoff(s, call, who, c))
    ensures StepCutoff(s, call, who, c) <= call.now
  {
    hide Keep, Execute;
    if call.op.OpExecute? && Execute(s, call.op.tx, call.now).Ok? {
      var s', e := ExecuteShape(s, call.op.tx, call.now);
      ReadAppend(s.events, e);
      AppendAndPrune(HistoryOf(s.events, who), c, call.now, Cutoff(call.now, s.config.window));
      ExecuteStep(s, call.op.tx, call.now);
    } else {
      QuietUnlessRun(s, call.op, call.now);
    }
  }

  lemma ExecuteStep(s: State, id: nat, now: nat)
    requires Execute(s, id, now).Ok?
    ensures Step(s, OpExecute(id), now) == Execute(s, id, now).value
  {
  }

  lemma QuietUnlessRun(s: State, op: Op, now: nat)
    requires !(op.OpExecute? && Execute(s, op.tx, now).Ok?)
    ensures var s' := Step(s, op, now);
            && s'.globalLog == s.globalLog && s'.recipientLogs == s.recipientLogs
            && Times(s'.events) == Times(s.events) && forall r :: TimesTo(s'.events, r) == TimesTo(s.events, r)
  {
    hide Execute, Step;
    if op.OpExecute? {
      RefusedStep(s, op.tx, now);
    } else {
      QuietStep(s, op, now);
    }
  }

  lemma RefusedStep(s: State, id: nat, now: nat)
    requires Execute(s, id, now).Err?
    ensures Step(s, OpExecute(id), now) == s
  {
  }

  /** Over every run in time order, any changes of the rate limit included, each log is the full
      history pruned once, to the latest cutoff it ever was pruned to. */
  lemma {:induction false} RunPruned(s: State, calls: seq<Call>, clock: nat, who: Option<Address>, c: nat)
    requires PrunedTo(s, who, c) && c <= clock && InTimeOrder(calls, clock)
    ensures PrunedTo(Run(s, calls), who, RunCutoff(s, calls, who, c))
    decreases |calls|
  {
    hide PrunedTo, Step, StepCutoff;
    if calls != [] {
      StepPruned(s, calls[0], who, c);
      RunPruned(Step(s, calls[0].op, calls[0].now), calls[1..], calls[0].now, who, StepCutoff(s, calls[0], who, c));
    }
  }

  /** The contract as initialization leaves it: nothing executed, nothing logged. */
  ghost predicate Unused(s: State) {
    s.events == [] && s.globalLog == [] && s.recipientLogs == map[] && s.txs == map[]
  }

  lemma InitializeUnused(admin: Address, accessControl: bool, signers: seq<Address>, required: nat, delay: nat, grace: nat,
                         window: nat, max: nat)
    requires Initialize(admin, accessControl, signers, required, delay, grace, window, max).Ok?
    ensures Unused(Initialize(admin, accessControl, signers, required, delay, grace, window, max).value)
  {
  }

  /** The exact condition under which a log counts right: from any cutoff `d`, over every run, the
      global log and each recipient's give the true number of executions if and only if nothing was
      executed from `d` up to the latest cutoff pruned to. A window that was widened reaches behind it. */
  lemma WidenedWindowExactIff(s: State, calls: seq<Call>, who: Option<Address>, d: nat)
    requires Unused(s) && InTimeOrder(calls, 0)
    ensures var s' := Run(s, calls);
            |Keep(LogOf(s', who), d)| <= |Keep(HistoryOf(s'.events, who), d)| &&
            (|Keep(LogOf(s', who), d)| == |Keep(HistoryOf(s'.events, who), d)| <==>
               NothingLost(HistoryOf(s'.events, who), RunCutoff(s, calls, who, 0), d))
  {
    RunPruned(s, calls, 0, who, 0);
    KeepNeverGains(HistoryOf(Run(s, calls).events, who), RunCutoff(s, calls, who, 0), d);
  }

  /** What the rate check decides in every reachable state, in terms of the full history: each count
      starts at the window's beginning or where its log was last pruned to, whichever is later. */
  lemma CheckExact(s: State, calls: seq<Call>, recipient: Address, now: nat)
    requires Unused(s) && InTimeOrder(calls, 0)
    ensures var s' := Run(s, calls);
            var d := Cutoff(now, s'.config.window);
            var all, own := RunCutoff(s, calls, None, 0), RunCutoff(s, calls, Some(recipient), 0);
            CheckRateLimits(s', recipient, now) == Fine <==>
              && |Keep(Times(s'.events), Max(all, d))| < s'.config.max
              && |Keep(TimesTo(s'.events, recipient), Max(own, d))| < s'.config.max
  {
    var s' := Run(s, calls);
    var d := Cutoff(now, s'.config.window);
    RunPruned(s, calls, 0, None, 0);
    RunPruned(s, calls, 0, Some(recipient), 0);
    KeepKeep(Times(s'.events), RunCutoff(s, calls, None, 0), d);
    KeepKeep(TimesTo(s'.events, recipient), RunCutoff(s, calls, Some(recipient), 0), d);
  }

  // ----- who approved -----

  /** The call that made `a` an approver: an approval by a signer, or the submission itself, by a signer
      or an administrator. */
  predicate Entitled(s: State, op: Op, id: nat, a: Address, submitter: Address) {
    || (op == OpApprove(a, id) && a in s.signers)
    || (op.OpSubmit? && op.submitter == a == submitter && id == s.nextTx && (a in s.signers || IsAdmin(s.config, a, op.hasRole)))
  }

  ghost predicate SameOrEntitled(s: State, s': State, op: Op, id: nat) {
    id in s'.txs ==>
      && (id in s.txs ==> s'.txs[id].submitter == s.txs[id].submitter)
      && forall a :: a in s'.txs[id].approvers ==>
           (id in s.txs && a in s.txs[id].approvers) || Entitled(s, op, id, a, s'.txs[id].submitter)
  }

  lemma {:induction false} WithoutSubset(xs: seq<Address>, x: Address)
    ensures forall y :: y in Without(xs, x) ==> y in xs
    decreases |xs|
  {
    if xs != [] {
      WithoutSubset(xs[1..], x);
    }
  }

  lemma TxStepApprovers(s: State, op: Op, now: nat, id: nat)
    requires Inv(s) && Apply(s, op, now).Ok?
    requires op.OpSubmit? || op.OpApprove? || op.OpRevoke? || op.OpCancel?
    ensures SameOrEntitled(s, Apply(s, op, now).value, op, id)
  {
    hide SignersValid, CustodyValid;
    assert TxValid(s.txs, s.escrows, s.nextTx, s.events, id);
    if op.OpRevoke? {
      WithoutSubset(s.txs[op.tx].approvers, op.signer);
    }
  }

  lemma OtherStepApprovers(s: State, op: Op, now: nat, id: nat)
    requires !(op.OpSubmit? || op.OpApprove? || op.OpRevoke? || op.OpCancel?) && Apply(s, op, now).Ok?
    ensures SameOrEntitled(s, Apply(s, op, now).value, op, id)
  {
    hide Keep, Execute;
    if op.OpExecute? {
      var s', e := ExecuteShape(s, op.tx, now);
    }
  }

  lemma StepApprovers(s: State, op: Op, now: nat, id: nat)
    requires Inv(s)
    ensures SameOrEntitled(s, Step(s, op, now), op, id)
  {
    hide Inv, Apply, SameOrEntitled;
    if Apply(s, op, now).Ok? {
      if op.OpSubmit? || op.OpApprove? || op.OpRevoke? || op.OpCancel? {
        TxStepApprovers(s, op, now, id);
      } else {
        OtherStepApprovers(s, op, now, id);
      }
    } else {
      Unmoved(s, op, id);
    }
  }

  lemma Unmoved(s: State, op: Op, id: nat)
    ensures SameOrEntitled(s, s, op, id)
  {
  }

  lemma {:induction false} RunSnoc(s: State, calls: seq<Call>, call: Call)
    ensures Run(s, calls + [call]) == Step(Run(s, calls), call.op, call.now)
    decreases |calls|
  {
    hide Step;
    if calls == [] {
      assert calls + [call] == [call] && [call][1..] == [];
    } else {
      assert (calls + [call])[0] == calls[0] && (calls + [call])[1..] == calls[1..] + [call];
      RunSnoc(Step(s, calls[0].op, calls[0].now), calls[1..], call);
    }
  }

  /** Over every run, each approver of a stored transaction came in by a call it was entitled to: every
      one but the submitter was a signer at the moment it approved. */
  lemma {:induction false} ApproverWasEntitled(s: State, calls: seq<Call>, id: nat, a: Address) returns (i: nat)
    requires Inv(s) && Unused(s)
    requires id in Run(s, calls).txs && a in Run(s, calls).txs[id].approvers
    ensures i < |calls| && Entitled(Run(s, calls[..i]), calls[i].op, id, a, Run(s, calls).txs[id].submitter)
    decreases |calls|
  {
    hide Inv, Step, Entitled;
    if calls == [] {
      assert false;
    } else {
      var init, last := calls[..|calls| - 1], calls[|calls| - 1];
      assert calls == init + [last];
      RunSnoc(s, init, last);
      RunKeeps(s, init);
      var before := Run(s, init);
      StepApprovers(before, last.op, last.now, id);
      if id in before.txs && a in before.txs[id].approvers {
        i := ApproverWasEntitled(s, init, id, a);
        assert calls[..i] == init[..i];
      } else {
        i := |calls| - 1;
      }
    }
  }

  /** So every published execution was approved by distinct accounts, at least as many as required, each
      of them a signer when it approved or the submitter. */
  lemma ExecutionWasApproved(s: State, calls: seq<Call>, k: nat, a: Address) returns (i: nat)
    requires Inv(s) && Unused(s) && k < |Run(s, calls).events| && Run(s, calls).events[k].Executed?
    requires a in Run(s, calls).events[k].approvers
    ensures var e := Run(s, calls).events[k];
            && Distinct(e.approvers) && 0 < e.required <= |e.approvers| && e.tx in Run(s, calls).txs
            && i < |calls| && Entitled(Run(s, calls[..i]), calls[i].op, e.tx, a, Run(s, calls).txs[e.tx].submitter)
  {
    hide Entitled, Run;
    RunKeeps(s, calls);
    i := ApproverWasEntitled(s, calls, Run(s, calls).events[k].tx, a);
  }

  // ----- a widened window that lets too much through -----

  const BOSS: Address := Address(1)

  /** One signer, no time lock, at most one execution in 10 seconds. */
  function Deployed(): Result<State> {
    Initialize(BOSS, false, [BOSS], 1, 0, 1000, 10, 1)
  }

  /** Three payments queued at 0; one runs at 0 and one at 20. Then the limit becomes two in 100
      seconds, already used up, and the third runs all the same. */
  function Story(): seq<Call> {
    var submit := Call(OpSubmit(BOSS, false, 1, BOSS, 1), 0);
    [Call(OpCreateEscrow(BOSS, true), 0), Call(OpDeposit(1, BOSS, 3), 0), submit, submit, submit,
     Call(OpExecute(1), 0), Call(OpExecute(2), 20), Call(OpSetRateLimit(BOSS, false, 100, 2), 20), Call(OpExecute(3), 20)]
  }

  function Payment(done: bool, at: nat): Tx {
    Tx(1, BOSS, 1, BOSS, [BOSS], 0, done, false, at)
  }

  /** The books once `left` is left of the deposit. */
  function Books(window: nat, max: nat, left: int, txs: map<nat, Tx>, nextTx: nat, log: seq<nat>, events: seq<Event>): State {
    State(Config(BOSS, false, 1, 1, 0, 1000, window, max, false), {BOSS}, [BOSS],
          map[1 := Escrow(BOSS, true, true)], map[1 := left], txs, log, if log == [] then map[] else map[BOSS := log],
          2, nextTx, map[], events)
  }

  function Ran(id: nat, at: nat): Event {
    Executed(id, 1, 1, BOSS, at, [BOSS], 1, 0, 1000, None)
  }

  function Queue(): map<nat, Tx> {
    map[1 := Payment(false, 0), 2 := Payment(false, 0), 3 := Payment(false, 0)]
  }

  lemma OneCall(s: State, calls: seq<Call>, k: nat)
    requires k < |calls|
    ensures Run(s, calls[k..]) == Run(Step(s, calls[k].op, calls[k].now), calls[k + 1..])
  {
    assert calls[k..][0] == calls[k] && calls[k..][1..] == calls[k + 1..];
  }

  lemma Created()
    ensures Deployed().Ok?
    ensures Step(Deployed().value, OpCreateEscrow(BOSS, true), 0) == Books(10, 1, 0, map[], 1, [], [])
  {
    assert (set x | x in [BOSS]) == {BOSS};
  }

  lemma Funded()
    ensures Step(Books(10, 1, 0, map[], 1, [], []), OpDeposit(1, BOSS, 3), 0) == Books(10, 1, 3, map[], 1, [], [Deposited(1, 3, BOSS, None)])
  {
  }

  lemma DeployAndFund()
    ensures Deployed().Ok?
    ensures Run(Deployed().value, Story()) == Run(Books(10, 1, 3, map[], 1, [], [Deposited(1, 3, BOSS, None)]), Story()[2..])
  {
    hide Books, Step, Initialize;
    Created();
    Funded();
    assert Story()[0..] == Story();
    OneCall(Deployed().value, Story(), 0);
    OneCall(Books(10, 1, 0, map[], 1, [], []), Story(), 1);
  }

  lemma Submitted(txs: map<nat, Tx>, next: nat, events: seq<Event>)
    ensures Step(Books(10, 1, 3, txs, next, [], events), OpSubmit(BOSS, false, 1, BOSS, 1), 0)
         == Books(10, 1, 3, txs[next := Payment(false, 0)], next + 1, [], events)
  {
  }

  lemma SubmitAll()
    ensures Run(Books(10, 1, 3, map[], 1, [], [Deposited(1, 3, BOSS, None)]), Story()[2..])
         == Run(Books(10, 1, 3, Queue(), 4, [], [Deposited(1, 3, BOSS, None)]), Story()[5..])
  {
    hide Books, Payment, Step;
    var e := [Deposited(1, 3, BOSS, None)];
    var t1: map<nat, Tx> := map[1 := Payment(false, 0)];
    var t2: map<nat, Tx> := t1[2 := Payment(false, 0)];
    var t0: map<nat, Tx> := map[];
    Submitted(t0, 1, e);
    Submitted(t1, 2, e);
    Submitted(t2, 3, e);
    assert t0[1 := Payment(false, 0)] == t1 && t2[3 := Payment(false, 0)] == Queue();
    OneCall(Books(10, 1, 3, t0, 1, [], e), Story(), 2);
    OneCall(Books(10, 1, 3, t1, 2, [], e), Story(), 3);
    OneCall(Books(10, 1, 3, t2, 3, [], e), Story(), 4);
  }

  lemma Allowed(window: nat, max: nat, left: int, txs: map<nat, Tx>, log: seq<nat>, events: seq<Event>, id: nat, now: nat)
    requires id in txs && txs[id] == Payment(false, 0) && now <= 1000
    requires |Keep(log, Cutoff(now, window))| < max
    ensures MayExecute(Books(window, max, left, txs, 4, log, events), id, now) == Fine
    ensures RecipientLog(Books(window, max, left, txs, 4, log, events), BOSS) == log
  {
    hide Keep;
  }

  /** One payment runs, if the log as it stands leaves room. */
  lemma Pays(window: nat, max: nat, left: int, txs: map<nat, Tx>, log: seq<nat>, events: seq<Event>, id: nat, now: nat)
    requires id in txs && txs[id] == Payment(false, 0) && left >= 1 && now <= 1000
    requires |Keep(log, Cutoff(now, window))| < max
    ensures Step(Books(window, max, left, txs, 4, log, events), OpExecute(id), now)
         == Books(window, max, left - 1, txs[id := Payment(true, now)], 4, Keep(log, Cutoff(now, window)) + [now], events + [Ran(id, now)])
  {
    hide Keep, MayExecute, RecipientLog;
    var s := Books(window, max, left, txs, 4, log, events);
    Allowed(window, max, left, txs, log, events, id, now);
    var kept := Keep(log + [now], Cutoff(now, window));
    KeepAppend(log, now, Cutoff(now, window));
    assert s.recipientLogs[BOSS := kept] == map[BOSS := kept];
    assert s.balances[1 := left - 1] == map[1 := left - 1];
  }

  lemma NothingKept(c: nat)
    ensures Keep([], c) == []
  {
  }

  lemma KeepOne(t: nat, c: nat)
    ensures Keep([t], c) == if t >= c then [t] else []
  {
    assert [] + [t] == [t];
    KeepAppend([], t, c);
  }

  lemma ExecuteTwo() returns (txs: map<nat, Tx>)
    ensures 3 in txs && txs[3] == Payment(false, 0)
    ensures Run(Books(10, 1, 3, Queue(), 4, [], [Deposited(1, 3, BOSS, None)]), Story()[5..])
         == Run(Books(10, 1, 1, txs, 4, [20], [Deposited(1, 3, BOSS, None), Ran(1, 0), Ran(2, 20)]), Story()[7..])
  {
    hide Books, Step, Keep, Payment, Ran;
    NothingKept(0);
    KeepOne(0, 10);
    var e0 := [Deposited(1, 3, BOSS, None)];
    var e1 := [Deposited(1, 3, BOSS, None), Ran(1, 0)];
    var t1 := Queue()[1 := Payment(true, 0)];
    Pays(10, 1, 3, Queue(), [], e0, 1, 0);
    assert [] + [0] == [0] && e0 + [Ran(1, 0)] == e1;
    OneCall(Books(10, 1, 3, Queue(), 4, [], e0), Story(), 5);
    Pays(10, 1, 2, t1, [0], e1, 2, 20);
    assert [] + [20] == [20] && e1 + [Ran(2, 20)] == [Deposited(1, 3, BOSS, None), Ran(1, 0), Ran(2, 20)];
    OneCall(Books(10, 1, 2, t1, 4, [0], e1), Story(), 6);
    txs := t1[2 := Payment(true, 20)];
  }

  lemma Widened(txs: map<nat, Tx>, events: seq<Event>)
    ensures Step(Books(10, 1, 1, txs, 4, [20], events), OpSetRateLimit(BOSS, false, 100, 2), 20) == Books(100, 2, 1, txs, 4, [20], events)
  {
  }

  lemma WidenAndExecute(txs: map<nat, Tx>, events: seq<Event>)
    requires 3 in txs && txs[3] == Payment(false, 0)
    ensures Run(Books(10, 1, 1, txs, 4, [20], events), Story()[7..])
         == Books(100, 2, 0, txs[3 := Payment(true, 20)], 4, [20, 20], events + [Ran(3, 20)])
  {
    hide Keep, Books, Step, Payment, Ran;
    Widened(txs, events);
    OneCall(Books(10, 1, 1, txs, 4, [20], events), Story(), 7);
    KeepOne(20, 0);
    assert [20] + [20] == [20, 20];
    Pays(100, 2, 1, txs, [20], events, 3, 20);
    OneCall(Books(100, 2, 1, txs, 4, [20], events), Story(), 8);
    assert Story()[9..] == [];
  }

  lemma ThreeInOneWindow(events: seq<Event>)
    requires events == [Deposited(1, 3, BOSS, None), Ran(1, 0), Ran(2, 20)] + [Ran(3, 20)]
    ensures CountBetween(Times(events), 0, 100) == 3
  {
    var e := [Deposited(1, 3, BOSS, None)];
    ReadAppend([], Deposited(1, 3, BOSS, None));
    ReadAppend(e, Ran(1, 0));
    ReadAppend(e + [Ran(1, 0)], Ran(2, 20));
    ReadAppend(e + [Ran(1, 0)] + [Ran(2, 20)], Ran(3, 20));
    assert [] + [Deposited(1, 3, BOSS, None)] == e && events == e + [Ran(1, 0)] + [Ran(2, 20)] + [Ran(3, 20)];
    var times := Times(events);
    assert times == [0, 20, 20];
    assert [0][..0] == [] && [0, 20][..1] == [0] && times[..2] == [0, 20];
    assert CountBetween([0], 0, 100) == 1 && CountBetween([0, 20], 0, 100) == 2;
  }

  /** A run of the contract in which a widened window lets three executions into an interval of its
      own length although its cap is two. */
  lemma WidenedWindowOverruns()
    ensures Deployed().Ok? && InTimeOrder(Story(), 0)
    ensures var s := Run(Deployed().value, Story());
            s.config.window == 100 && s.config.max == 2 && CountBetween(Times(s.events), 0, 100) == 3
  {
    hide Run, Step, Times;
    DeployAndFund();
    SubmitAll();
    var txs := ExecuteTwo();
    var events := [Deposited(1, 3, BOSS, None), Ran(1, 0), Ran(2, 20)];
    WidenAndExecute(txs, events);
    ThreeInOneWindow(events + [Ran(3, 20)]);
  }
}
