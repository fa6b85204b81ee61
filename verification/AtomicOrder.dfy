/** Validation and dependency ordering of atomic transactions (lib/src/atomic.rs). */
module AtomicOrder {
  import opened Prelude

  const MAX_STEPS: nat := 10

  /** The fields of a transaction step that decide its place in the order. */
  datatype TxStep = TxStep(id: nat, dependsOn: Option<nat>)

  datatype Verdict = Accepted | NoSteps | TooManySteps | DependsOnLater | DependencyMissing

  function Ids(steps: seq<TxStep>): seq<nat> {
    seq(|steps|, i requires 0 <= i < |steps| => steps[i].id)
  }

  // ----- validation -----

  predicate Ordered(st: TxStep) {
    st.dependsOn.Some? ==> st.dependsOn.value < st.id
  }

  predicate Present(steps: seq<TxStep>, st: TxStep) {
    st.dependsOn.Some? ==> st.dependsOn.value in Ids(steps)
  }

  ghost predicate WellFormed(steps: seq<TxStep>) {
    0 < |steps| <= MAX_STEPS && forall i :: 0 <= i < |steps| ==> Ordered(steps[i]) && Present(steps, steps[i])
  }

  /** The first offending step, if any, decides the error. */
  method Validate(steps: seq<TxStep>) returns (v: Verdict)
    ensures v == Accepted <==> WellFormed(steps)
    ensures v == NoSteps <==> |steps| == 0
    ensures v == TooManySteps <==> |steps| > 10
    ensures v == DependsOnLater ==> exists k :: 0 <= k < |steps| && !Ordered(steps[k]) &&
                                      forall i :: 0 <= i < k ==> Ordered(steps[i]) && Present(steps, steps[i])
    ensures v == DependencyMissing ==> exists k :: 0 <= k < |steps| && Ordered(steps[k]) && !Present(steps, steps[k]) &&
                                         forall i :: 0 <= i < k ==> Ordered(steps[i]) && Present(steps, steps[i])
  {
    if |steps| == 0 {
      return NoSteps;
    }
    if |steps| > MAX_STEPS {
      return TooManySteps;
    }
    for k := 0 to |steps|
      invariant forall i :: 0 <= i < k ==> Ordered(steps[i]) && Present(steps, steps[i])
    {
      if steps[k].dependsOn.Some? {
        var dep := steps[k].dependsOn.value;
        if dep >= steps[k].id {
          return DependsOnLater;
        }
        var found := Contains(Ids(steps), dep);
        if !found {
          return DependencyMissing;
        }
      }
    }
    return Accepted;
  }

  method Contains(ids: seq<nat>, id: nat) returns (found: bool)
    ensures found <==> id in ids
  {
    found := false;
    for j := 0 to |ids|
      invariant !found && id !in ids[..j]
    {
      if ids[j] == id {
        return true;
      }
    }
  }

  // ----- grounded steps -----

  /** A chain of at most `k` dependencies, each naming a step of the list, ends in a step without one. */
  ghost predicate GroundedIn(steps: seq<TxStep>, st: TxStep, k: nat)
    decreases k
  {
    st.dependsOn.None? ||
    (k > 0 && exists i :: 0 <= i < |steps| && steps[i].id == st.dependsOn.value && GroundedIn(steps, steps[i], k - 1))
  }

  ghost predicate Grounded(steps: seq<TxStep>, st: TxStep) {
    exists k: nat :: GroundedIn(steps, st, k)
  }

  ghost function GroundedSteps(steps: seq<TxStep>, all: seq<TxStep>): seq<TxStep> {
    if steps == [] then []
    else (if Grounded(all, steps[0]) then [steps[0]] else []) + GroundedSteps(steps[1..], all)
  }

  lemma {:induction false} GroundedCount(steps: seq<TxStep>, all: seq<TxStep>, st: TxStep)
    ensures multiset(GroundedSteps(steps, all))[st] == if Grounded(all, st) then multiset(steps)[st] else 0
    decreases |steps|
  {
    if steps != [] {
      GroundedCount(steps[1..], all, st);
      assert steps == [steps[0]] + steps[1..];
    }
  }

  lemma DependentGrounded(steps: seq<TxStep>, st: TxStep, dep: TxStep)
    requires dep in steps && st.dependsOn == Some(dep.id) && Grounded(steps, dep)
    ensures Grounded(steps, st)
  {
    var k: nat :| GroundedIn(steps, dep, k);
    assert GroundedIn(steps, st, k + 1);
  }

  lemma IdOf(steps: seq<TxStep>, st: TxStep)
    requires st in steps
    ensures st.id in Ids(steps)
  {
    var j :| 0 <= j < |steps| && steps[j] == st;
    assert Ids(steps)[j] == st.id;
  }

  /** When every step left waits for an id that was never emitted, no step left is grounded. */
  lemma {:induction false} LeftIsUngrounded(steps: seq<TxStep>, emitted: seq<TxStep>, left: seq<TxStep>, st: TxStep, k: nat)
    requires multiset(emitted) + multiset(left) == multiset(steps)
    requires forall x :: x in left ==> x.dependsOn.Some? && x.dependsOn.value !in Ids(emitted)
    requires st in left
    ensures !GroundedIn(steps, st, k)
    decreases k
  {
    if GroundedIn(steps, st, k) {
      var i :| 0 <= i < |steps| && steps[i].id == st.dependsOn.value && GroundedIn(steps, steps[i], k - 1);
      assert steps[i] in multiset(steps);
      if steps[i] in multiset(left) {
        LeftIsUngrounded(steps, emitted, left, steps[i], k - 1);
      } else {
        assert steps[i] in multiset(emitted);
        IdOf(emitted, steps[i]);
      }
    }
  }

  /** In a well-formed transaction every step is grounded: dependencies point to smaller ids. */
  lemma {:induction false} WellFormedGrounded(steps: seq<TxStep>, st: TxStep)
    requires WellFormed(steps) && st in steps
    ensures Grounded(steps, st)
    decreases st.id
  {
    if st.dependsOn.None? {
      assert GroundedIn(steps, st, 0);
    } else {
      assert Present(steps, st) && Ordered(st);
      var i :| 0 <= i < |steps| && Ids(steps)[i] == st.dependsOn.value;
      WellFormedGrounded(steps, steps[i]);
      DependentGrounded(steps, st, steps[i]);
    }
  }

  // ----- permutations -----

  lemma TakeOut(left: seq<TxStep>, i: nat)
    requires i < |left|
    ensures multiset(left) == multiset(left[..i] + left[i + 1..]) + multiset{left[i]}
    ensures multiset(Ids(left)) == multiset(Ids(left[..i] + left[i + 1..])) + multiset{left[i].id}
  {
    assert left == left[..i] + [left[i]] + left[i + 1..];
    assert Ids(left) == Ids(left[..i]) + [left[i].id] + Ids(left[i + 1..]);
    assert Ids(left[..i] + left[i + 1..]) == Ids(left[..i]) + Ids(left[i + 1..]);
  }

  /** Taking one occurrence of the same step out of two permutations leaves permutations. */
  lemma TakeSame(a: seq<TxStep>, b: seq<TxStep>, i: nat, j: nat)
    requires multiset(a) == multiset(b) && i < |a| && j < |b| && a[i] == b[j]
    ensures multiset(a[..i] + a[i + 1..]) == multiset(b[..j] + b[j + 1..])
  {
    TakeOut(a, i);
    TakeOut(b, j);
    var a', b' := multiset(a[..i] + a[i + 1..]), multiset(b[..j] + b[j + 1..]);
    assert a' == a' + multiset{a[i]} - multiset{a[i]} && b' == b' + multiset{a[i]} - multiset{a[i]};
  }

  lemma {:induction false} IdsOfPermutation(a: seq<TxStep>, b: seq<TxStep>)
    requires multiset(a) == multiset(b)
    ensures multiset(Ids(a)) == multiset(Ids(b))
    decreases |a|
  {
    if a == [] {
      assert |multiset(b)| == 0;
    } else {
      hide Ids;
      assert a[0] in multiset(b);
      var j :| 0 <= j < |b| && b[j] == a[0];
      TakeOut(a, 0);
      TakeOut(b, j);
      TakeSame(a, b, 0, j);
      IdsOfPermutation(a[..0] + a[1..], b[..j] + b[j + 1..]);
    }
  }

  // ----- the worklist -----

  /** Emission in dependency order: each emitted step's dependency was emitted before it. */
  ghost predicate InOrder(emitted: seq<TxStep>) {
    forall j :: 0 <= j < |emitted| && emitted[j].dependsOn.Some? ==> emitted[j].dependsOn.value in Ids(emitted[..j])
  }

  lemma EmitKeepsOrder(steps: seq<TxStep>, emitted: seq<TxStep>, st: TxStep)
    requires InOrder(emitted) && (st.dependsOn.Some? ==> st.dependsOn.value in Ids(emitted))
    requires st in steps && forall x :: x in emitted ==> x in steps && Grounded(steps, x)
    ensures InOrder(emitted + [st]) && Ids(emitted + [st]) == Ids(emitted) + [st.id]
    ensures Grounded(steps, st)
  {
    var e := emitted + [st];
    forall j | 0 <= j < |e| && e[j].dependsOn.Some? ensures e[j].dependsOn.value in Ids(e[..j]) {
      assert e[..j] == emitted[..j];
      if j == |emitted| {
        assert emitted[..j] == emitted;
      }
    }
    if st.dependsOn.None? {
      assert GroundedIn(steps, st, 0);
    } else {
      var j :| 0 <= j < |emitted| && Ids(emitted)[j] == st.dependsOn.value;
      DependentGrounded(steps, st, emitted[j]);
    }
  }

  ghost predicate Bookkeeping(steps: seq<TxStep>, emitted: seq<TxStep>, left: seq<TxStep>, ordered: seq<nat>) {
    && multiset(emitted) + multiset(left) == multiset(steps)
    && ordered == Ids(emitted)
    && InOrder(emitted)
    && forall x :: x in emitted ==> x in steps && Grounded(steps, x)
  }

  lemma EmitOne(steps: seq<TxStep>, emitted: seq<TxStep>, left: seq<TxStep>, ordered: seq<nat>, i: nat)
    requires Bookkeeping(steps, emitted, left, ordered) && i < |left|
    requires left[i].dependsOn.Some? ==> left[i].dependsOn.value in ordered
    ensures Bookkeeping(steps, emitted + [left[i]], left[..i] + left[i + 1..], ordered + [left[i].id])
  {
    TakeOut(left, i);
    assert left[i] in multiset(left);
    assert left[i] in multiset(steps);
    EmitKeepsOrder(steps, emitted, left[i]);
  }

  /** At rest, exactly the grounded steps have been emitted. */
  lemma AtRest(steps: seq<TxStep>, emitted: seq<TxStep>, left: seq<TxStep>, ordered: seq<nat>)
    requires Bookkeeping(steps, emitted, left, ordered)
    requires forall x :: x in left ==> x.dependsOn.Some? && x.dependsOn.value !in ordered
    ensures multiset(emitted) == multiset(GroundedSteps(steps, steps))
    ensures WellFormed(steps) ==> multiset(ordered) == multiset(Ids(steps))
  {
    forall x ensures multiset(emitted)[x] == multiset(GroundedSteps(steps, steps))[x] {
      GroundedCount(steps, steps, x);
      assert multiset(steps)[x] == multiset(emitted)[x] + multiset(left)[x];
      assert x in emitted <==> x in multiset(emitted);
      if x in multiset(left) {
        forall k: nat ensures !GroundedIn(steps, x, k) {
          LeftIsUngrounded(steps, emitted, left, x, k);
        }
      }
    }
    if WellFormed(steps) {
      if left != [] {
        assert left[0] in multiset(left);
        assert left[0] in multiset(steps);
        WellFormedGrounded(steps, left[0]);
        var k: nat :| GroundedIn(steps, left[0], k);
        LeftIsUngrounded(steps, emitted, left, left[0], k);
      }
      IdsOfPermutation(emitted, steps);
    }
  }

  /** Terminates on every list and emits exactly the grounded steps, dependencies first; on a
      validated transaction that is every step. */
  method ResolveExecutionOrder(steps: seq<TxStep>) returns (ordered: seq<nat>, ghost emitted: seq<TxStep>)
    ensures ordered == Ids(emitted) && InOrder(emitted)
    ensures multiset(emitted) == multiset(GroundedSteps(steps, steps))
    ensures WellFormed(steps) ==> multiset(ordered) == multiset(Ids(steps))
  {
    ordered, emitted := [], [];
    var left := steps;
    while left != []
      invariant Bookkeeping(steps, emitted, left, ordered)
      decreases |left|
    {
      var progress := false;
      ghost var size := |left|;
      var i := 0;
      while i < |left|
        invariant 0 <= i <= |left| <= size && (progress ==> |left| < size)
        invariant Bookkeeping(steps, emitted, left, ordered)
        invariant !progress ==> forall x :: x in left[..i] ==> x.dependsOn.Some? && x.dependsOn.value !in ordered
        decreases |left| - i
      {
        var st := left[i];
        var canExecute := true;
        if st.dependsOn.Some? {
          canExecute := Contains(ordered, st.dependsOn.value);
        }
        if canExecute {
          EmitOne(steps, emitted, left, ordered, i);
          emitted := emitted + [st];
          ordered := ordered + [st.id];
          left := left[..i] + left[i + 1..];
          progress := true;
        } else {
          i := i + 1;
        }
      }
      if !progress {
        assert left[..i] == left;
        break;
      }
    }
    AtRest(steps, emitted, left, ordered);
  }
}
