/** Vocabulary shared by the contract models. An entry point either commits a new
    state or aborts with no effect, so a transition is a partial function: None is
    the abort. `Need` writes a guard of the source as one line. */
module Prelude {

  datatype Option<+T> = None | Some(value: T) {
    predicate IsFailure() { None? }

    function PropagateFailure<U>(): Option<U>
      requires None?
    {
      None
    }

    function Extract(): T
      requires Some?
    {
      value
    }
  }

  datatype Guard = Pass | Refused {
    predicate IsFailure() { Refused? }

    function PropagateFailure<U>(): Option<U>
      requires Refused?
    {
      None
    }

    function Extract(): ()
      requires Pass?
    {
      ()
    }
  }

  function Need(condition: bool): Guard {
    if condition then Pass else Refused
  }

  /** What a caller observes of a transition: the state afterwards, and the value if it committed. */
  function Commit<S, R>(outcome: Option<(S, R)>, before: S): (S, Option<R>) {
    match outcome
    case None => (before, None)
    case Some((after, value)) => (after, Some(value))
  }

  datatype Address = Address(id: nat)

  /** The contract's own account; no caller can authenticate as it. */
  const SELF: Address := Address(0)

  /** Basis points in a whole. */
  const BPS: int := 10_000

  function Min(a: int, b: int): int {
    if a < b then a else b
  }

  function Max(a: nat, b: nat): nat {
    if a < b then b else a
  }

  function At<K>(m: map<K, int>, k: K): int {
    if k in m then m[k] else 0
  }
}

/** Sums of finite maps: the meaning of "the ledger agrees with its records". */
module MapSum {
  import opened Prelude

  ghost function Sum<K>(m: map<K, int>): int
    decreases |m|
  {
    if m == map[] then 0
    else
      var k :| k in m;
      m[k] + Sum(m - {k})
  }

  lemma {:induction false} SumRemove<K>(m: map<K, int>, k: K)
    requires k in m
    ensures Sum(m) == m[k] + Sum(m - {k})
    decreases |m|
  {
    var c :| c in m && Sum(m) == m[c] + Sum(m - {c});
    if c != k {
      SumRemove(m - {c}, k);
      SumRemove(m - {k}, c);
      assert m - {c} - {k} == m - {k} - {c};
    }
  }

  lemma SumUpdate<K>(m: map<K, int>, k: K, v: int)
    ensures Sum(m[k := v]) == Sum(m) - At(m, k) + v
  {
    SumRemove(m[k := v], k);
    assert m[k := v] - {k} == m - {k};
    if k in m {
      SumRemove(m, k);
    } else {
      assert m - {k} == m;
    }
  }

  lemma {:induction false} SumNonNegative<K>(m: map<K, int>)
    requires forall k :: k in m ==> m[k] >= 0
    ensures Sum(m) >= 0
    decreases |m|
  {
    if m != map[] {
      var k :| k in m && Sum(m) == m[k] + Sum(m - {k});
      SumNonNegative(m - {k});
    }
  }

  lemma SumMember<K>(m: map<K, int>, k: K)
    requires forall j :: j in m ==> m[j] >= 0
    ensures 0 <= At(m, k) <= Sum(m)
  {
    SumNonNegative(m);
    if k in m {
      SumRemove(m, k);
      SumNonNegative(m - {k});
    }
  }

  lemma {:induction false} SumZero<K>(m: map<K, int>)
    requires forall k :: k in m ==> m[k] == 0
    ensures Sum(m) == 0
    decreases |m|
  {
    if m != map[] {
      var k :| k in m && Sum(m) == m[k] + Sum(m - {k});
      SumZero(m - {k});
    }
  }

  lemma {:induction false} SumMonotone<K>(m: map<K, int>, n: map<K, int>)
    requires m.Keys == n.Keys
    requires forall k :: k in m ==> m[k] <= n[k]
    ensures Sum(m) <= Sum(n)
    decreases |m|
  {
    if m != map[] {
      var k :| k in m && Sum(m) == m[k] + Sum(m - {k});
      SumRemove(n, k);
      SumMonotone(m - {k}, n - {k});
    }
  }
}

/** Totals of sequences, and counts of moments in an interval. */
module SeqSum {

  function Total(xs: seq<int>): int {
    if xs == [] then 0 else Total(xs[..|xs| - 1]) + xs[|xs| - 1]
  }

  lemma TotalAppend(xs: seq<int>, x: int)
    ensures Total(xs + [x]) == Total(xs) + x
  {
    assert (xs + [x])[..|xs|] == xs;
  }

  lemma {:induction false} TotalCons(x: int, xs: seq<int>)
    ensures Total([x] + xs) == x + Total(xs)
    decreases |xs|
  {
    if xs == [] {
      assert [x] + xs == [] + [x];
      TotalAppend([], x);
    } else {
      var init, last := xs[..|xs| - 1], xs[|xs| - 1];
      TotalCons(x, init);
      assert [x] + xs == [x] + init + [last] && xs == init + [last];
      TotalAppend([x] + init, last);
    }
  }

  /** Times in the closed interval from `lo` to `hi`. */
  ghost function CountBetween(times: seq<nat>, lo: nat, hi: nat): nat {
    if times == [] then 0
    else
      var last := times[|times| - 1];
      CountBetween(times[..|times| - 1], lo, hi) + if lo <= last <= hi then 1 else 0
  }
}

/** Facts about integer products and quotients. Rust `/` is Dafny `/` wherever the divisor is
    positive and the dividend non-negative. */
module Arithmetic {

  /** Rust's `/`, which truncates toward zero; it is Dafny's `/` on the operands named above. */
  function RustDiv(a: int, b: int): (q: int)
    requires b != 0
    ensures a >= 0 && b > 0 ==> q == a / b
  {
    var m := (if a < 0 then -a else a) / (if b < 0 then -b else b);
    if (a < 0) == (b < 0) then m else -m
  }

  lemma DivBounds(a: int, b: int)
    requires b > 0
    ensures a / b * b <= a < a / b * b + b
  {
  }

  lemma DivNonNegative(a: int, b: int)
    requires a >= 0 && b > 0
    ensures 0 <= a / b
  {
  }

  lemma MulLe(x: int, y: int, z: int)
    requires x <= y && z >= 0
    ensures x * z <= y * z
    ensures z * x <= z * y
  {
  }

  lemma MulNonNegative(x: int, y: int)
    requires x >= 0 && y >= 0
    ensures x * y >= 0
  {
  }

  lemma CancelLe(x: int, y: int, z: int)
    requires z > 0 && x * z <= y * z
    ensures x <= y
  {
    if x > y {
      assert (y + 1) * z == y * z + z;
      MulLe(y + 1, x, z);
    }
  }

  lemma CancelLt(x: int, y: int, z: int)
    requires z > 0 && x * z < y * z
    ensures x < y
  {
    if x >= y {
      MulLe(y, x, z);
    }
  }

  /** q is at most the floored quotient exactly when q whole divisors fit. */
  lemma DivFloor(q: int, a: int, b: int)
    requires b > 0
    ensures q <= a / b <==> q * b <= a
  {
    DivBounds(a, b);
    if q <= a / b {
      MulLe(q, a / b, b);
    } else {
      MulLe(a / b + 1, q, b);
      assert (a / b + 1) * b == a / b * b + b;
    }
  }

  lemma DivMonotone(a: int, c: int, b: int)
    requires b > 0 && a <= c
    ensures a / b <= c / b
  {
    DivBounds(a, b);
    DivFloor(a / b, c, b);
  }

  /** (a + b - 1) / b rounds up: it is at most q exactly when q divisors cover a. */
  lemma DivCeil(q: int, a: int, b: int)
    requires b > 0
    ensures (a + b - 1) / b <= q <==> a <= q * b
  {
    var c := (a + b - 1) / b;
    DivBounds(a + b - 1, b);
    if c <= q {
      MulLe(c, q, b);
    } else {
      MulLe(q + 1, c, b);
      assert (q + 1) * b == q * b + b;
    }
  }
}
