/** The escrow's sliding-window bookkeeping: logs of execution times, counted from a cutoff and
    pruned to it (contracts/escrow/src/lib.rs). */
module EscrowWindow {
  import opened Prelude
  import opened SeqSum

  /** `now.saturating_sub(window)`. */
  function Cutoff(now: nat, window: nat): nat {
    if now >= window then now - window else 0
  }

  function Keep(times: seq<nat>, cutoff: nat): seq<nat> {
    if times == [] then []
    else
      var last := times[|times| - 1];
      var kept := Keep(times[..|times| - 1], cutoff);
      if last >= cutoff then kept + [last] else kept
  }

  // ----- the source's loops -----

  method CountInWindow(times: seq<nat>, cutoff: nat) returns (count: nat)
    ensures count == |Keep(times, cutoff)|
  {
    count := 0;
    for i := 0 to |times|
      invariant count == |Keep(times[..i], cutoff)|
    {
      assert times[..i + 1][..i] == times[..i];
      if times[i] >= cutoff {
        count := count + 1;
      }
    }
    assert times[..|times|] == times;
  }

  method PruneWindow(times: seq<nat>, cutoff: nat) returns (kept: seq<nat>)
    ensures kept == Keep(times, cutoff)
  {
    kept := [];
    for i := 0 to |times|
      invariant kept == Keep(times[..i], cutoff)
    {
      assert times[..i + 1][..i] == times[..i];
      if times[i] >= cutoff {
        kept := kept + [times[i]];
      }
    }
    assert times[..|times|] == times;
  }

  // ----- what pruning keeps -----

  lemma KeepAppend(times: seq<nat>, t: nat, cutoff: nat)
    ensures Keep(times + [t], cutoff) == if t >= cutoff then Keep(times, cutoff) + [t] else Keep(times, cutoff)
  {
    assert (times + [t])[..|times|] == times;
  }

  /** Pruning twice is pruning once to the later cutoff. */
  lemma {:induction false} KeepKeep(times: seq<nat>, c: nat, d: nat)
    ensures Keep(Keep(times, c), d) == Keep(times, Max(c, d))
    decreases |times|
  {
    if times != [] {
      var init, last := times[..|times| - 1], times[|times| - 1];
      KeepKeep(init, c, d);
      if last >= c {
        KeepAppend(Keep(init, c), last, d);
      } else {
        assert Keep(times, c) == Keep(init, c);
      }
    }
  }

  lemma KeepTwice(times: seq<nat>, c: nat, d: nat)
    requires c <= d
    ensures Keep(Keep(times, c), d) == Keep(times, d)
  {
    KeepKeep(times, c, d);
  }

  /** Nothing was executed from `d` up to `c`. */
  ghost predicate NothingLost(times: seq<nat>, c: nat, d: nat) {
    forall i :: 0 <= i < |times| ==> !(d <= times[i] < c)
  }

  lemma {:induction false} KeepNeverGains(times: seq<nat>, c: nat, d: nat)
    ensures |Keep(Keep(times, c), d)| <= |Keep(times, d)|
    ensures |Keep(Keep(times, c), d)| == |Keep(times, d)| <==> NothingLost(times, c, d)
    decreases |times|
  {
    if times != [] {
      var init, last := times[..|times| - 1], times[|times| - 1];
      KeepNeverGains(init, c, d);
      assert NothingLost(times, c, d) <==> NothingLost(init, c, d) && !(d <= last < c);
      if last >= c {
        KeepAppend(Keep(init, c), last, d);
      } else {
        assert Keep(times, c) == Keep(init, c);
      }
    }
  }

  /** A log pruned when the window reached back to `c` counts correctly from `d` exactly when nothing
      was executed between `d` and `c`; so a window enlarged later can miss executions. */
  lemma PrunedCountExactIff(times: seq<nat>, c: nat, d: nat)
    ensures |Keep(Keep(times, c), d)| == |Keep(times, d)| <==> NothingLost(times, c, d)
  {
    KeepNeverGains(times, c, d);
  }

  lemma {:induction false} IntervalWithinWindow(times: seq<nat>, t: nat, now: nat, window: nat)
    requires now <= t + window
    ensures CountBetween(times, t, t + window) <= |Keep(times, Cutoff(now, window))|
    decreases |times|
  {
    if times != [] {
      IntervalWithinWindow(times[..|times| - 1], t, now, window);
    }
  }

  /** Letting one more execution through only while fewer than `max` are in the window keeps every
      interval of that length at `max` or fewer. */
  lemma CapKept(times: seq<nat>, now: nat, window: nat, max: nat, t: nat)
    requires CountBetween(times, t, t + window) <= max
    requires |Keep(times, Cutoff(now, window))| < max
    ensures CountBetween(times + [now], t, t + window) <= max
  {
    assert (times + [now])[..|times|] == times;
    if t <= now <= t + window {
      IntervalWithinWindow(times, t, now, window);
    }
  }
}
