/** The execution hub's per-agent nonces, histories and fixed-window rate limiter
    (contracts/execution-hub/src/lib.rs). */
module ExecutionHub {
  import opened Prelude
  import opened SeqSum

  const MAX_OPS: nat := 100
  const WINDOW: nat := 60
  const MAX_HISTORY: nat := 1000

  datatype RateData = RateData(lastReset: nat, count: nat)
  datatype Record = Record(execId: nat, time: nat, nonce: nat)

  /** Storage, per agent where the source keys by agent. */
  datatype State = State(
    execCounter: nat, nonces: map<nat, nat>, rates: map<nat, RateData>, histories: map<nat, seq<Record>>)

  function Nonce(s: State, agent: nat): nat {
    if agent in s.nonces then s.nonces[agent] else 0
  }

  function History(s: State, agent: nat): seq<Record> {
    if agent in s.histories then s.histories[agent] else []
  }

  function Rate(s: State, agent: nat): Option<RateData> {
    if agent in s.rates then Some(s.rates[agent]) else None
  }

  // ----- transitions -----

  /** The limiter: a new window starts only once more than `window` seconds have passed. */
  function CheckRateLimit(data: Option<RateData>, now: nat, maxOps: nat, window: nat): Option<RateData> {
    var RateData(lastReset, count) := if data.Some? then data.value else RateData(now, 0);
    var elapsed := if now >= lastReset then now - lastReset else 0;
    if elapsed > window then Some(RateData(now, 1))
    else if count < maxOps then Some(RateData(lastReset, count + 1))
    else None
  }

  /** `inputsValid` stands for the string and data size checks. */
  function ExecuteAction(s: State, agent: nat, nonce: nat, now: nat, inputsValid: bool): Option<(State, nat)> {
    var _ :- Need(agent != 0 && inputsValid && nonce > Nonce(s, agent));
    var rate :- CheckRateLimit(Rate(s, agent), now, MAX_OPS, WINDOW);
    var id := s.execCounter + 1;
    var _ :- Need(|History(s, agent)| < MAX_HISTORY);
    Some((State(id, s.nonces[agent := nonce], s.rates[agent := rate],
                s.histories[agent := History(s, agent) + [Record(id, now, nonce)]]), id))
  }

  // ----- the limiter alone, for any cap and window -----

  /** Times at which the limiter let an action through, along a sequence of requests. */
  function Limit(data: Option<RateData>, accepted: seq<nat>, requests: seq<nat>, maxOps: nat, window: nat)
    : (Option<RateData>, seq<nat>)
    decreases |requests|
  {
    if requests == [] then (data, accepted)
    else
      match CheckRateLimit(data, requests[0], maxOps, window)
      case None => Limit(data, accepted, requests[1..], maxOps, window)
      case Some(d) => Limit(Some(d), accepted + [requests[0]], requests[1..], maxOps, window)
  }

  ghost predicate NonDecreasing(times: seq<nat>) {
    forall i, j :: 0 <= i < j < |times| ==> times[i] <= times[j]
  }

  /** Any `n` consecutive acceptances span more than `window`, so an interval of that length holds fewer. */
  ghost predicate Spread(times: seq<nat>, n: nat, window: nat) {
    forall i, j :: 0 <= i <= j < |times| && i + n <= j + 1 ==> times[i] + window < times[j]
  }

  /** Acceptances in the closed interval from `t` to `t + window`. */
  ghost function CountIn(times: seq<nat>, t: nat, window: nat): nat {
    CountBetween(times, t, t + window)
  }

  /** The most acceptances an interval of length `window` can hold. */
  function Peak(maxOps: nat, window: nat): nat {
    if maxOps == 0 then 0 else if window == 0 then maxOps else 2 * maxOps - 1
  }

  /** What the stored window knows of the accepted times: it began with one of them, holds at most
      `maxOps` of them, nothing earlier shares its start, and everything `maxOps` before its start
      is more than a window away. */
  ghost predicate Tracks(data: Option<RateData>, times: seq<nat>, maxOps: nat, window: nat) {
    match data
    case None => times == []
    case Some(RateData(start, count)) =>
      && 0 < count <= maxOps && count <= |times|
      && times[|times| - count] == start
      && (forall j :: |times| - count <= j < |times| ==> times[j] <= start + window)
      && (forall i :: 0 <= i < |times| - count ==> times[i] < start)
      && (forall i :: 0 <= i && i + maxOps <= |times| - count ==> times[i] + window < start)
  }

  ghost predicate Limited(data: Option<RateData>, times: seq<nat>, maxOps: nat, window: nat) {
    Tracks(data, times, maxOps, window) && NonDecreasing(times) && Spread(times, Peak(maxOps, window) + 1, window)
  }

  lemma AcceptTracks(data: Option<RateData>, times: seq<nat>, now: nat, maxOps: nat, window: nat)
    requires Tracks(data, times, maxOps, window) && NonDecreasing(times)
    requires times != [] ==> times[|times| - 1] <= now
    requires CheckRateLimit(data, now, maxOps, window).Some? && maxOps > 0
    ensures Tracks(CheckRateLimit(data, now, maxOps, window), times + [now], maxOps, window)
  {
    var d, all := CheckRateLimit(data, now, maxOps, window).value, times + [now];
    if data.Some? && d.count == 1 {
      var start := |times| - data.value.count;
      assert times[start] == data.value.lastReset;
      forall i | 0 <= i && i + maxOps <= |times| ensures times[i] + window < now {
        assert i <= start;
        assert times[i] <= times[start];
      }
    }
  }

  lemma AcceptSpreads(d: RateData, times: seq<nat>, now: nat, maxOps: nat, window: nat)
    requires Tracks(Some(d), times + [now], maxOps, window) && maxOps > 0
    requires Spread(times, Peak(maxOps, window) + 1, window) && d.lastReset <= now
    ensures Spread(times + [now], Peak(maxOps, window) + 1, window)
  {
    var all := times + [now];
    forall i, j | 0 <= i <= j < |all| && i + Peak(maxOps, window) + 1 <= j + 1 ensures all[i] + window < all[j] {
      if j == |times| {
        assert i < |all| - d.count;
        assert window > 0 ==> i + maxOps <= |all| - d.count;
      }
    }
  }

  lemma AcceptKeeps(data: Option<RateData>, times: seq<nat>, now: nat, maxOps: nat, window: nat)
    requires Limited(data, times, maxOps, window) && (times != [] ==> times[|times| - 1] <= now)
    requires CheckRateLimit(data, now, maxOps, window).Some?
    ensures Limited(CheckRateLimit(data, now, maxOps, window), times + [now], maxOps, window)
  {
    if data.Some? {
      assert times[|times| - data.value.count] <= times[|times| - 1];
    }
    AcceptTracks(data, times, now, maxOps, window);
    AcceptSpreads(CheckRateLimit(data, now, maxOps, window).value, times, now, maxOps, window);
  }

  lemma {:induction false} LimitKeeps(data: Option<RateData>, times: seq<nat>, requests: seq<nat>, maxOps: nat, window: nat)
    requires Limited(data, times, maxOps, window) && NonDecreasing(requests)
    requires times != [] && requests != [] ==> times[|times| - 1] <= requests[0]
    ensures var (data', times') := Limit(data, times, requests, maxOps, window);
            Limited(data', times', maxOps, window)
    decreases |requests|
  {
    if requests != [] {
      match CheckRateLimit(data, requests[0], maxOps, window)
      case None => LimitKeeps(data, times, requests[1..], maxOps, window);
      case Some(d) =>
        AcceptKeeps(data, times, requests[0], maxOps, window);
        LimitKeeps(Some(d), times + [requests[0]], requests[1..], maxOps, window);
    }
  }

  /** Spread times put fewer than `n` into any interval. */
  lemma {:induction false} SpreadBoundsCount(times: seq<nat>, n: nat, window: nat, t: nat)
    requires NonDecreasing(times) && Spread(times, n, window) && n > 0
    ensures CountIn(times, t, window) < n
  {
    if CountIn(times, t, window) >= n {
      var i, j := CountSpan(times, t, window);
    }
  }

  /** The counted times form a run of consecutive indices. */
  lemma {:induction false} CountSpan(times: seq<nat>, t: nat, window: nat) returns (i: nat, j: nat)
    requires NonDecreasing(times) && CountIn(times, t, window) > 0
    ensures i <= j < |times| && CountIn(times, t, window) <= j - i + 1
    ensures t <= times[i] && times[j] <= t + window
    decreases |times|
  {
    var init, last := times[..|times| - 1], times[|times| - 1];
    if CountIn(init, t, window) == 0 {
      i, j := |times| - 1, |times| - 1;
    } else {
      i, j := CountSpan(init, t, window);
      if t <= last <= t + window {
        j := |times| - 1;
      }
    }
  }

  /** Over any requests in time order, no interval of length `window` holds more than `Peak`. */
  lemma LimiterBound(requests: seq<nat>, maxOps: nat, window: nat, t: nat)
    requires NonDecreasing(requests)
    ensures CountIn(Limit(None, [], requests, maxOps, window).1, t, window) <= Peak(maxOps, window)
  {
    LimitKeeps(None, [], requests, maxOps, window);
    SpreadBoundsCount(Limit(None, [], requests, maxOps, window).1, Peak(maxOps, window) + 1, window, t);
  }

  // ----- the bound is attained -----

  function Repeat(t: nat, k: nat): seq<nat> {
    seq(k, _ => t)
  }

  lemma CountAppend(times: seq<nat>, u: nat, t: nat, window: nat)
    ensures CountIn(times + [u], t, window) == CountIn(times, t, window) + if t <= u <= t + window then 1 else 0
  {
    assert (times + [u])[..|times|] == times;
  }

  lemma {:induction false} CountRepeat(times: seq<nat>, u: nat, k: nat, t: nat, window: nat)
    ensures CountIn(times + Repeat(u, k), t, window) == CountIn(times, t, window) + if t <= u <= t + window then k else 0
    decreases k
  {
    hide CountIn;
    if k == 0 {
      assert times + Repeat(u, k) == times;
    } else {
      CountRepeat(times, u, k - 1, t, window);
      CountAppend(times + Repeat(u, k - 1), u, t, window);
      assert times + Repeat(u, k) == times + Repeat(u, k - 1) + [u];
    }
  }

  /** A burst of `k` requests at one moment inside the stored window is let through while the cap allows. */
  lemma {:induction false} BurstAccepted(start: nat, count: nat, times: seq<nat>, u: nat, k: nat, rest: seq<nat>, maxOps: nat, window: nat)
    requires start <= u <= start + window && count + k <= maxOps
    ensures Limit(Some(RateData(start, count)), times, Repeat(u, k) + rest, maxOps, window)
         == Limit(Some(RateData(start, count + k)), times + Repeat(u, k), rest, maxOps, window)
    decreases k
  {
    if k == 0 {
      assert Repeat(u, k) + rest == rest && times + Repeat(u, k) == times;
    } else {
      var requests := Repeat(u, k) + rest;
      assert requests[1..] == Repeat(u, k - 1) + rest;
      BurstAccepted(start, count + 1, times + [u], u, k - 1, rest, maxOps, window);
      assert times + [u] + Repeat(u, k - 1) == times + Repeat(u, k);
    }
  }

  /** One action opens a window, the rest of its cap comes at the window's last second, and a full
      cap follows one second later: all within one window length of each other. */
  function Worst(maxOps: nat, window: nat): seq<nat>
    requires maxOps > 0
  {
    if window == 0 then [0] + Repeat(0, maxOps - 1)
    else [0] + (Repeat(window, maxOps - 1) + ([window + 1] + Repeat(window + 1, maxOps - 1)))
  }

  lemma FirstAccepted(data: Option<RateData>, times: seq<nat>, u: nat, rest: seq<nat>, maxOps: nat, window: nat)
    requires CheckRateLimit(data, u, maxOps, window).Some?
    ensures Limit(data, times, [u] + rest, maxOps, window)
         == Limit(CheckRateLimit(data, u, maxOps, window), times + [u], rest, maxOps, window)
  {
    assert ([u] + rest)[1..] == rest;
  }

  lemma AllRead(data: Option<RateData>, times: seq<nat>, maxOps: nat, window: nat)
    ensures Limit(data, times, [], maxOps, window).1 == times
  {
  }

  lemma WorstAccepted(maxOps: nat, window: nat)
    requires maxOps > 0
    ensures Limit(None, [], Worst(maxOps, window), maxOps, window).1 == Worst(maxOps, window)
  {
    hide Limit, Repeat;
    var first, w := Repeat(window, maxOps - 1), Worst(maxOps, window);
    assert [] + [0] == [0];
    if window == 0 {
      assert first + [] == first;
      FirstAccepted(None, [], 0, first + [], maxOps, 0);
      BurstAccepted(0, 1, [0], 0, maxOps - 1, [], maxOps, 0);
      AllRead(Some(RateData(0, maxOps)), [0] + first, maxOps, 0);
    } else {
      var next := Repeat(window + 1, maxOps - 1);
      var times := [0] + first + [window + 1];
      assert next + [] == next;
      FirstAccepted(None, [], 0, first + ([window + 1] + next), maxOps, window);
      BurstAccepted(0, 1, [0], window, maxOps - 1, [window + 1] + next, maxOps, window);
      FirstAccepted(Some(RateData(0, maxOps)), [0] + first, window + 1, next + [], maxOps, window);
      BurstAccepted(window + 1, 1, times, window + 1, maxOps - 1, [], maxOps, window);
      AllRead(Some(RateData(window + 1, maxOps)), times + next, maxOps, window);
      assert times + next == w;
    }
  }

  lemma WorstInOrder(maxOps: nat, window: nat)
    requires maxOps > 0
    ensures NonDecreasing(Worst(maxOps, window))
  {
  }

  lemma CountOne(u: nat, t: nat, window: nat)
    ensures CountIn([u], t, window) == if t <= u <= t + window then 1 else 0
  {
    CountAppend([], u, t, window);
    assert [] + [u] == [u];
  }

  lemma WorstCounts(maxOps: nat, window: nat)
    requires maxOps > 0
    ensures CountIn(Worst(maxOps, window), window, window) == Peak(maxOps, window)
  {
    hide CountIn;
    CountOne(0, window, window);
    if window == 0 {
      CountRepeat([0], 0, maxOps - 1, 0, 0);
    } else {
      var first := [0] + Repeat(window, maxOps - 1);
      CountRepeat([0], window, maxOps - 1, window, window);
      CountRepeat(first, window + 1, maxOps, window, window);
      assert Worst(maxOps, window) == first + Repeat(window + 1, maxOps);
    }
  }

  ghost predicate AtMostCapEverywhere(requests: seq<nat>, maxOps: nat, window: nat) {
    forall t :: CountIn(Limit(None, [], requests, maxOps, window).1, t, window) <= maxOps
  }

  /** "At most `maxOps` within any window" holds of every request sequence exactly when the cap is
      at most one or the window is empty; otherwise almost twice the cap fits. */
  lemma CapHoldsIff(maxOps: nat, window: nat)
    ensures (maxOps <= 1 || window == 0) <==>
              forall requests :: NonDecreasing(requests) ==> AtMostCapEverywhere(requests, maxOps, window)
  {
    if maxOps <= 1 || window == 0 {
      forall requests | NonDecreasing(requests) ensures AtMostCapEverywhere(requests, maxOps, window) {
        forall t ensures CountIn(Limit(None, [], requests, maxOps, window).1, t, window) <= maxOps {
          LimiterBound(requests, maxOps, window, t);
        }
      }
    } else {
      var requests := Worst(maxOps, window);
      WorstAccepted(maxOps, window);
      WorstInOrder(maxOps, window);
      WorstCounts(maxOps, window);
      assert !AtMostCapEverywhere(requests, maxOps, window);
    }
  }

  // ----- whole runs of the hub -----

  datatype Request = Request(agent: nat, nonce: nat, now: nat, inputsValid: bool)

  function Step(s: State, r: Request): State {
    Commit(ExecuteAction(s, r.agent, r.nonce, r.now, r.inputsValid), s).0
  }

  function Run(s: State, rs: seq<Request>): State
    decreases |rs|
  {
    if rs == [] then s else Run(Step(s, rs[0]), rs[1..])
  }

  function Initial(): State {
    State(0, map[], map[], map[])
  }

  function Times(h: seq<Record>): seq<nat> {
    seq(|h|, i requires 0 <= i < |h| => h[i].time)
  }

  /** One agent's records against the counters: ids and nonces strictly increase, none is ahead of
      its counter, and the limiter state tracks the accepted times. */
  ghost predicate AgentValid(s: State, agent: nat, clock: nat) {
    var h := History(s, agent);
    && (forall i, j :: 0 <= i < j < |h| ==> h[i].execId < h[j].execId && h[i].nonce < h[j].nonce)
    && (forall i :: 0 <= i < |h| ==> h[i].execId <= s.execCounter && h[i].nonce <= Nonce(s, agent) && h[i].time <= clock)
    && Limited(Rate(s, agent), Times(h), MAX_OPS, WINDOW)
  }

  ghost predicate Inv(s: State, clock: nat) {
    forall agent :: AgentValid(s, agent, clock)
  }

  ghost predicate InTimeOrder(rs: seq<Request>, clock: nat) {
    (rs != [] ==> clock <= rs[0].now) && forall i, j :: 0 <= i < j < |rs| ==> rs[i].now <= rs[j].now
  }

  lemma ActorKeeps(s: State, s': State, agent: nat, nonce: nat, now: nat, clock: nat)
    requires AgentValid(s, agent, clock) && clock <= now
    requires ExecuteAction(s, agent, nonce, now, true).Some? && s' == ExecuteAction(s, agent, nonce, now, true).value.0
    ensures AgentValid(s', agent, now)
  {
    hide Limited, CheckRateLimit;
    var h, h' := History(s, agent), History(s', agent);
    assert h' == h + [Record(s.execCounter + 1, now, nonce)];
    assert Times(h') == Times(h) + [now];
    AcceptKeeps(Rate(s, agent), Times(h), now, MAX_OPS, WINDOW);
  }

  lemma BystanderKeeps(s: State, s': State, agent: nat, now: nat, clock: nat)
    requires AgentValid(s, agent, clock) && clock <= now && s.execCounter <= s'.execCounter
    requires History(s', agent) == History(s, agent) && Nonce(s', agent) == Nonce(s, agent) && Rate(s', agent) == Rate(s, agent)
    ensures AgentValid(s', agent, now)
  {
  }

  lemma StepKeeps(s: State, r: Request, clock: nat)
    requires Inv(s, clock) && clock <= r.now
    ensures Inv(Step(s, r), r.now)
  {
    var s' := Step(s, r);
    forall agent ensures AgentValid(s', agent, r.now) {
      assert AgentValid(s, agent, clock);
      if ExecuteAction(s, r.agent, r.nonce, r.now, r.inputsValid).Some? && agent == r.agent {
        ActorKeeps(s, s', agent, r.nonce, r.now, clock);
      } else {
        BystanderKeeps(s, s', agent, r.now, clock);
      }
    }
  }

  lemma {:induction false} RunKeeps(s: State, rs: seq<Request>, clock: nat) returns (end: nat)
    requires Inv(s, clock) && InTimeOrder(rs, clock)
    ensures Inv(Run(s, rs), end)
    decreases |rs|
  {
    if rs == [] {
      end := clock;
    } else {
      StepKeeps(s, rs[0], clock);
      end := RunKeeps(Step(s, rs[0]), rs[1..], rs[0].now);
    }
  }

  /** From the start, whatever is requested: no agent has more than 199 actions accepted within any
      60 seconds, and along its history nonces and execution ids strictly increase. */
  lemma EveryRun(rs: seq<Request>, agent: nat, t: nat)
    requires InTimeOrder(rs, 0)
    ensures var h := History(Run(Initial(), rs), agent);
            && CountIn(Times(h), t, 60) <= 199
            && forall i, j :: 0 <= i < j < |h| ==> h[i].execId < h[j].execId && h[i].nonce < h[j].nonce
  {
    forall a ensures AgentValid(Initial(), a, 0) {
    }
    var end := RunKeeps(Initial(), rs, 0);
    assert AgentValid(Run(Initial(), rs), agent, end);
    SpreadBoundsCount(Times(History(Run(Initial(), rs), agent)), Peak(MAX_OPS, WINDOW) + 1, WINDOW, t);
  }
}

/** What the hub accepts and records, told by its histories (contracts/execution-hub/src/lib.rs). */
module HubEffects {
  import opened Prelude
  import opened ExecutionHub

  /** The stored nonce is that of the agent's last recorded action. */
  ghost predicate NonceIsLast(s: State, agent: nat) {
    var h := History(s, agent);
    Nonce(s, agent) == if h == [] then 0 else h[|h| - 1].nonce
  }

  /** Over every run the replay guard is the last accepted nonce, neither ahead of it nor behind. */
  lemma {:induction false} RunNonce(s: State, rs: seq<Request>, agent: nat)
    requires NonceIsLast(s, agent)
    ensures NonceIsLast(Run(s, rs), agent)
    decreases |rs|
  {
    if rs != [] {
      StepNonce(s, rs[0], agent);
      RunNonce(Step(s, rs[0]), rs[1..], agent);
    }
  }

  lemma StepNonce(s: State, r: Request, agent: nat)
    requires NonceIsLast(s, agent)
    ensures NonceIsLast(Step(s, r), agent)
  {
    hide CheckRateLimit;
  }

  /** An accepted action had a new nonce and is recorded last, under the next id, at its time; no other agent's
      history, nonce or window changes. */
  lemma AcceptedExact(s: State, agent: nat, nonce: nat, now: nat, inputsValid: bool)
    requires ExecuteAction(s, agent, nonce, now, inputsValid).Some?
    ensures agent != 0 && inputsValid && nonce > Nonce(s, agent) && |History(s, agent)| < 1000
    ensures var (s', id) := ExecuteAction(s, agent, nonce, now, inputsValid).value;
            && id == s.execCounter + 1 == s'.execCounter
            && History(s', agent) == History(s, agent) + [Record(id, now, nonce)] && Nonce(s', agent) == nonce
            && forall a :: a != agent ==>
                 History(s', a) == History(s, a) && Nonce(s', a) == Nonce(s, a) && Rate(s', a) == Rate(s, a)
  {
    hide CheckRateLimit;
  }

  /** A well-formed action with a new nonce is refused only when the agent's history is full or its last
      hundred actions all lie within the last sixty seconds. */
  lemma RefusedOnlyWhenBusy(s: State, agent: nat, nonce: nat, now: nat, clock: nat)
    requires Inv(s, clock) && clock <= now && agent != 0 && nonce > Nonce(s, agent)
    requires ExecuteAction(s, agent, nonce, now, true).None?
    ensures var h := History(s, agent);
            |h| >= 1000 || (|h| >= 100 && forall i :: |h| - 100 <= i < |h| ==> now - 60 <= h[i].time <= now)
  {
    assert AgentValid(s, agent, clock);
    var h := History(s, agent);
    if |h| < 1000 {
      var times := Times(h);
      var d := Rate(s, agent).value;
      assert d.count == 100 && times[|times| - 100] == d.lastReset;
      forall i | |h| - 100 <= i < |h| ensures now - 60 <= h[i].time <= now {
        assert times[i] == h[i].time;
        assert i > |h| - 100 ==> times[|times| - 100] <= times[i];
      }
    }
  }
}

/** The hub contract object, whose one entry point takes exactly the transition above. */
module HubContract {
  import opened Prelude
  import H = ExecutionHub

  class Hub {
    var execCounter: nat
    var nonces: map<nat, nat>
    var rates: map<nat, H.RateData>
    var histories: map<nat, seq<H.Record>>

    ghost function View(): H.State
      reads this
    {
      H.State(execCounter, nonces, rates, histories)
    }

    constructor ()
      ensures View() == H.Initial()
    {
      execCounter, nonces, rates, histories := 0, map[], map[], map[];
    }

    method ExecuteAction(agent: nat, nonce: nat, now: nat, inputsValid: bool) returns (r: Option<nat>)
      modifies this
      ensures (View(), r) == Commit(H.ExecuteAction(old(View()), agent, nonce, now, inputsValid), old(View()))
    {
      var _ :- Need(agent != 0 && inputsValid);
      var stored := if agent in nonces then nonces[agent] else 0;
      var _ :- Need(nonce > stored);
      var lastReset, count := now, 0;
      if agent in rates {
        lastReset, count := rates[agent].lastReset, rates[agent].count;
      }
      var elapsed := if now >= lastReset then now - lastReset else 0;
      if elapsed > H.WINDOW {
        lastReset, count := now, 1;
      } else {
        var _ :- Need(count < H.MAX_OPS);
        count := count + 1;
      }
      var history := if agent in histories then histories[agent] else [];
      var _ :- Need(|history| < H.MAX_HISTORY);
      rates := rates[agent := H.RateData(lastReset, count)];
      execCounter := execCounter + 1;
      nonces := nonces[agent := nonce];
      histories := histories[agent := history + [H.Record(execCounter, now, nonce)]];
      return Some(execCounter);
    }
  }
}
