/** Integer arithmetic of the constant-product pools (contracts/amm/src/math.rs). */
module AmmMath {
  import opened Prelude
  import opened Arithmetic
  import opened SeqSum

  const MAX_FEE_BPS: nat := 1_000
  const MAX_PROTOCOL_SHARE_BPS: nat := 5_000

  /** The pool fees the contract admits. */
  type FeeBps = f: nat | f <= MAX_FEE_BPS

  // ----- operations -----

  function CeilDiv(a: int, b: int): (r: Option<int>)
    ensures r.None? <==> b <= 0 || a < 0
    ensures r.Some? ==> (r.value - 1) * b < a <= r.value * b
  {
    var _ :- Need(b > 0 && a >= 0);
    var q := (a + b - 1) / b;
    DivBounds(a + b - 1, b);
    assert (q - 1) * b == q * b - b;
    Some(q)
  }

  /** The part of an input that trades: what the pool fee leaves, rounded down. */
  function AfterFee(amountIn: int, feeBps: nat): int
    requires feeBps <= BPS
  {
    amountIn * (BPS - feeBps) / BPS
  }

  function AmountOut(amountIn: int, reserveIn: int, reserveOut: int, feeBps: nat): int
    requires feeBps <= BPS
  {
    if amountIn <= 0 || reserveIn <= 0 || reserveOut <= 0 then 0
    else
      var x := AfterFee(amountIn, feeBps);
      AfterFeeNonNegative(amountIn, feeBps);
      reserveOut * x / (reserveIn + x)
  }

  function AmountIn(amountOut: int, reserveIn: int, reserveOut: int, feeBps: nat): Option<int> {
    var _ :- Need(amountOut > 0 && reserveIn > 0 && reserveOut > amountOut);
    CeilDiv(reserveIn * amountOut * BPS, (reserveOut - amountOut) * (BPS - feeBps))
  }

  function SwapFee(amountIn: int, feeBps: nat): int {
    amountIn * feeBps / BPS
  }

  /** The slice of the swap fee that leaves the pool for the governance collector. */
  function ProtocolFee(amountIn: int, feeBps: nat, shareBps: nat): int {
    SwapFee(amountIn, feeBps) * shareBps / BPS
  }

  /** Newton's iteration; a negative argument is the source's panic. */
  method Isqrt(n: int) returns (r: Option<int>)
    ensures r.None? <==> n < 0
    ensures r.Some? ==> r.value >= 0 && r.value * r.value <= n < (r.value + 1) * (r.value + 1)
    ensures r.Some? ==> r.value == Root(n)
  {
    var _ :- Need(n >= 0);
    if n == 0 {
      return Some(0);
    }
    var x := n;
    var y := (x + 1) / 2;
    NewtonStart(n);
    while y < x
      invariant x >= 1 && y == NewtonNext(n, x)
      invariant n < (x + 1) * (x + 1)
      decreases x
    {
      x := y;
      y := NewtonNext(n, x);
    }
    RootUnique(n, x, Root(n));
    return Some(x);
  }

  // ----- the square root -----

  /** One Newton step: it stays above the root, and once it stops falling the root is reached. */
  function NewtonNext(n: int, x: int): (y: int)
    requires n >= 1 && x >= 1
    ensures y >= 1 && n < (y + 1) * (y + 1)
    ensures y >= x ==> x * x <= n
  {
    var q := n / x;
    DivBounds(n, x);
    DivNonNegative(n, x);
    NewtonAbove(n, x, q, (x + q) / 2);
    NewtonStop(n, x, q);
    (x + q) / 2
  }

  lemma NewtonStart(n: int)
    requires n >= 1
    ensures (n + 1) / 2 == NewtonNext(n, n)
    ensures n < (n + 1) * (n + 1)
  {
    assert n / n == 1;
    assert (n + 1) * (n + 1) == n * n + 2 * n + 1;
  }

  lemma ArithmeticGeometric(x: int, q: int)
    ensures 4 * (x * q + x) <= (x + q + 1) * (x + q + 1)
  {
    var d := x - q - 1;
    assert (x + q + 1) * (x + q + 1) == 4 * (x * q + x) + d * d;
  }

  lemma SquareMonotone(a: int, b: int)
    requires 0 <= a <= b
    ensures a * a <= b * b
  {
    MulLe(a, b, a);
    MulLe(a, b, b);
  }

  /** A Newton step never falls below the root. */
  lemma NewtonAbove(n: int, x: int, q: int, y: int)
    requires n >= 1 && x >= 1 && q >= 0 && n < x * q + x
    requires x + q - 1 <= 2 * y <= x + q
    ensures y >= 1 && n < (y + 1) * (y + 1)
  {
    ArithmeticGeometric(x, q);
    SquareMonotone(x + q + 1, 2 * (y + 1));
    assert (2 * (y + 1)) * (2 * (y + 1)) == 4 * ((y + 1) * (y + 1));
  }

  lemma NewtonStop(n: int, x: int, q: int)
    requires x >= 1 && q * x <= n
    ensures (x + q) / 2 >= x ==> x * x <= n
  {
    if q >= x {
      MulLe(x, q, x);
    }
  }

  /** The result of `Isqrt` is the only integer with its property. */
  lemma RootUnique(n: int, r: int, s: int)
    requires r >= 0 && r * r <= n < (r + 1) * (r + 1)
    requires s >= 0 && s * s <= n < (s + 1) * (s + 1)
    ensures r == s
  {
    if r < s {
      MulLe(r + 1, s, r + 1);
      MulLe(r + 1, s, s);
    } else if s < r {
      MulLe(s + 1, r, s + 1);
      MulLe(s + 1, r, r);
    }
  }

  /** The integer square root by counting up: the simple form `Isqrt` refines. */
  function Root(n: nat): (r: nat)
    ensures r * r <= n < (r + 1) * (r + 1)
  {
    if n == 0 then 0
    else
      var r := Root(n - 1);
      assert (r + 2) * (r + 2) == (r + 1) * (r + 1) + 2 * r + 3;
      if (r + 1) * (r + 1) <= n then r + 1 else r
  }

  // ----- quotes -----

  lemma AfterFeeNonNegative(amountIn: int, feeBps: nat)
    requires amountIn >= 0 && feeBps <= BPS
    ensures AfterFee(amountIn, feeBps) >= 0
  {
    MulNonNegative(amountIn, BPS - feeBps);
    DivNonNegative(amountIn * (BPS - feeBps), BPS);
  }

  /** An output is reached exactly when its after-fee input pays for it at the old price curve. */
  lemma OutputReached(o: int, x: int, ri: int, ro: int)
    requires ri > 0 && x >= 0
    ensures o <= ro * x / (ri + x) <==> o * ri <= x * (ro - o)
  {
    DivFloor(o, ro * x, ri + x);
    assert o * (ri + x) == o * ri + o * x;
    assert x * (ro - o) == ro * x - o * x;
  }

  lemma OutputBounds(amountIn: int, ri: int, ro: int, fee: nat)
    requires fee <= BPS && ri > 0 && ro > 0 && amountIn > 0
    ensures 0 <= AmountOut(amountIn, ri, ro, fee) < ro
  {
    var x := AfterFee(amountIn, fee);
    AfterFeeNonNegative(amountIn, fee);
    OutputReached(0, x, ri, ro);
    OutputReached(ro, x, ri, ro);
    MulNonNegative(x, ro);
    assert ro * ri > 0;
  }

  /** The skim takes no more than the fee, so what enters the reserve covers what traded. */
  lemma SkimLeavesAfterFee(amountIn: int, fee: nat, share: nat)
    requires amountIn >= 0 && fee <= BPS && share <= BPS
    ensures 0 <= ProtocolFee(amountIn, fee, share) <= SwapFee(amountIn, fee)
    ensures AfterFee(amountIn, fee) <= amountIn - ProtocolFee(amountIn, fee, share)
  {
    var f := SwapFee(amountIn, fee);
    MulNonNegative(amountIn, fee);
    DivNonNegative(amountIn * fee, BPS);
    MulLe(share, BPS, f);
    MulNonNegative(f, share);
    DivMonotone(f * share, f * BPS, BPS);
    assert amountIn * (BPS - fee) + amountIn * fee == amountIn * BPS;
  }

  lemma NoShareNoSkim(amountIn: int, fee: nat)
    ensures ProtocolFee(amountIn, fee, 0) == 0
  {
  }

  lemma AmountInNeedsLiquidity(amountOut: int, ri: int, ro: int, fee: nat)
    requires AmountIn(amountOut, ri, ro, fee).Some?
    ensures 0 < amountOut < ro && ri > 0
  {
  }

  /** No swap, with every floor and the skim included, lowers the reserve product. */
  lemma SwapKeepsProduct(amountIn: int, ri: int, ro: int, fee: nat, share: nat)
    requires amountIn > 0 && ri > 0 && ro > 0 && fee <= BPS && share <= BPS
    ensures var out := AmountOut(amountIn, ri, ro, fee);
            var net := amountIn - ProtocolFee(amountIn, fee, share);
            net >= 0 && (ri + net) * (ro - out) >= ri * ro
  {
    var x := AfterFee(amountIn, fee);
    var out := AmountOut(amountIn, ri, ro, fee);
    var net := amountIn - ProtocolFee(amountIn, fee, share);
    AfterFeeNonNegative(amountIn, fee);
    SkimLeavesAfterFee(amountIn, fee, share);
    OutputBounds(amountIn, ri, ro, fee);
    OutputReached(out, x, ri, ro);
    CurveKept(out, x, net, ri, ro);
  }

  /** The curve inequality behind a swap, free of rounding. */
  lemma CurveKept(out: int, x: int, net: int, ri: int, ro: int)
    requires out * ri <= x * (ro - out) && x <= net && out <= ro
    ensures (ri + net) * (ro - out) >= ri * ro
  {
    MulLe(x, net, ro - out);
    assert (ri + net) * (ro - out) == ri * ro - out * ri + net * (ro - out);
  }

  /** Nor does a flash swap, repaid at the quoted input. */
  lemma FlashKeepsProduct(amountOut: int, ri: int, ro: int, fee: nat, share: nat)
    requires fee <= BPS && share <= BPS
    requires AmountIn(amountOut, ri, ro, fee).Some?
    ensures var paid := AmountIn(amountOut, ri, ro, fee).value;
            var net := paid - ProtocolFee(paid, fee, share);
            paid >= 0 && net >= 0 && (ri + net) * (ro - amountOut) >= ri * ro
  {
    var paid := AmountIn(amountOut, ri, ro, fee).value;
    var rest := ro - amountOut;
    var net := paid - ProtocolFee(paid, fee, share);
    assert rest * (BPS - fee) > 0;
    assert ri * amountOut > 0;
    if paid < 0 {
      MulLe(paid, -1, rest * (BPS - fee));
    }
    SkimLeavesAfterFee(paid, fee, share);
    AfterFeeNonNegative(paid, fee);
    DivBounds(paid * fee, BPS);
    assert net * BPS >= paid * BPS - paid * fee == paid * (BPS - fee);
    RepaidInFull(amountOut, ri, rest, paid, BPS - fee, net);
    assert (ri + net) * rest == ri * ro - ri * amountOut + net * rest;
  }

  /** What is kept of the payment is at least its after-fee share even before rounding. */
  lemma RepaidInFull(o: int, ri: int, rest: int, paid: int, k: int, net: int)
    requires rest > 0 && ri * o * BPS <= paid * (rest * k) && paid * k <= net * BPS
    ensures ri * o <= net * rest
  {
    MulLe(paid * k, net * BPS, rest);
    assert paid * k * rest == paid * (rest * k);
    assert net * BPS * rest == net * rest * BPS;
    CancelLe(ri * o, net * rest, BPS);
  }

  /** Both reserves cannot fall: with the product kept, one falling makes the other rise. */
  lemma NoFreeLunch(a: int, b: int, a': int, b': int)
    requires a > 0 && b > 0 && a' > 0 && b' > 0 && a' * b' >= a * b
    ensures a' < a ==> b' > b
    ensures b' < b ==> a' > a
  {
    if a' < a && b' <= b {
      MulLe(b', b, a');
      MulLe(a' + 1, a, b);
    } else if b' < b && a' <= a {
      MulLe(a', a, b');
      MulLe(b' + 1, b, a);
    }
  }

  lemma AfterFeeSuperadditive(a: int, b: int, fee: nat)
    requires a >= 0 && b >= 0 && fee <= BPS
    ensures AfterFee(a, fee) + AfterFee(b, fee) <= AfterFee(a + b, fee)
  {
    assert (a + b) * (BPS - fee) == a * (BPS - fee) + b * (BPS - fee);
  }

  lemma OutputMonotone(x: int, z: int, ri: int, ro: int)
    requires 0 <= x <= z && ri > 0 && ro >= 0
    ensures ro * x / (ri + x) <= ro * z / (ri + z)
  {
    var o := ro * x / (ri + x);
    OutputReached(o, x, ri, ro);
    OutputReached(o, z, ri, ro);
    OutputReached(ro + 1, x, ri, ro);
    MulNonNegative(ro + 1, ri);
    MulLe(x, z, ro - o);
  }

  // ----- splitting an order -----

  /** Trading in two pieces, whatever part of the first input is skimmed, yields at most one trade. */
  lemma SplitTwo(a: int, b: int, ri: int, ro: int, fee: nat, share: nat)
    requires a > 0 && b > 0 && ri > 0 && ro > 0 && fee <= BPS && share <= BPS
    ensures var o1 := AmountOut(a, ri, ro, fee);
            var net := a - ProtocolFee(a, fee, share);
            net >= 0 && o1 < ro &&
            o1 + AmountOut(b, ri + net, ro - o1, fee) <= AmountOut(a + b, ri, ro, fee)
  {
    var o1 := AmountOut(a, ri, ro, fee);
    var net := a - ProtocolFee(a, fee, share);
    var x, z := AfterFee(a, fee), AfterFee(b, fee);
    AfterFeeNonNegative(a, fee);
    AfterFeeNonNegative(b, fee);
    SkimLeavesAfterFee(a, fee, share);
    OutputBounds(a, ri, ro, fee);
    var o2 := AmountOut(b, ri + net, ro - o1, fee);
    OutputReached(o1, x, ri, ro);
    OutputReached(o2, z, ri + net, ro - o1);
    OutputBounds(b, ri + net, ro - o1, fee);
    MulLe(ri + x, ri + net, o2);
    SplitCurve(o1, o2, x, z, ri, ro);
    OutputReached(o1 + o2, x + z, ri, ro);
    AfterFeeSuperadditive(a, b, fee);
    OutputMonotone(x + z, AfterFee(a + b, fee), ri, ro);
  }

  /** The curve inequality behind `SplitTwo`, free of rounding. */
  lemma SplitCurve(o1: int, o2: int, x: int, z: int, ri: int, ro: int)
    requires o1 * ri <= x * (ro - o1)
    requires o2 * (ri + x) <= z * (ro - o1 - o2)
    ensures (o1 + o2) * ri <= (x + z) * (ro - (o1 + o2))
  {
    calc {
      (x + z) * (ro - (o1 + o2)) - (o1 + o2) * ri;
      x * (ro - o1) - o1 * ri + z * (ro - o1 - o2) - o2 * (ri + x);
    }
  }

  /** Outputs of trading the pieces one after another against the reserves they leave. */
  function SplitOutput(pieces: seq<int>, ri: int, ro: int, fee: nat, share: nat): int
    requires fee <= BPS
  {
    if pieces == [] then 0
    else
      var out := AmountOut(pieces[0], ri, ro, fee);
      var net := pieces[0] - ProtocolFee(pieces[0], fee, share);
      out + SplitOutput(pieces[1..], ri + net, ro - out, fee, share)
  }

  /** Splitting an order into any number of pieces never helps. */
  lemma {:induction false} SplittingNeverHelps(pieces: seq<int>, ri: int, ro: int, fee: nat, share: nat)
    requires ri > 0 && ro > 0 && fee <= BPS && share <= BPS
    requires forall i :: 0 <= i < |pieces| ==> pieces[i] > 0
    ensures SplitOutput(pieces, ri, ro, fee, share) <= AmountOut(Total(pieces), ri, ro, fee)
    decreases |pieces|
  {
    if |pieces| > 0 {
      var a, rest := pieces[0], pieces[1..];
      assert pieces == [a] + rest;
      TotalCons(a, rest);
      var out := AmountOut(a, ri, ro, fee);
      var net := a - ProtocolFee(a, fee, share);
      SkimLeavesAfterFee(a, fee, share);
      AfterFeeNonNegative(a, fee);
      OutputBounds(a, ri, ro, fee);
      SplittingNeverHelps(rest, ri + net, ro - out, fee, share);
      TotalPositive(rest);
      if rest != [] {
        SplitTwo(a, Total(rest), ri, ro, fee, share);
      }
    }
  }

  lemma {:induction false} TotalPositive(pieces: seq<int>)
    requires forall i :: 0 <= i < |pieces| ==> pieces[i] > 0
    ensures Total(pieces) >= 0 && (pieces != [] ==> Total(pieces) > 0)
    decreases |pieces|
  {
    if pieces != [] {
      TotalPositive(pieces[..|pieces| - 1]);
    }
  }

  // ----- the input quote against the exact least input -----

  /** The least input whose quote reaches `o`: round the pre-fee price up, then undo the fee rounding up. */
  function LeastInput(o: int, ri: int, ro: int, fee: nat): int
    requires 0 < o < ro && ri > 0 && fee < BPS
  {
    var x := (ri * o + (ro - o) - 1) / (ro - o);
    (x * BPS + (BPS - fee) - 1) / (BPS - fee)
  }

  /** Reference property: an input's quote reaches `o` exactly when the input is at least `LeastInput`. */
  lemma LeastInputExact(a: int, o: int, ri: int, ro: int, fee: nat)
    requires 0 < o < ro && ri > 0 && fee < BPS
    ensures o <= AmountOut(a, ri, ro, fee) <==> LeastInput(o, ri, ro, fee) <= a
  {
    var x := (ri * o + (ro - o) - 1) / (ro - o);
    DivCeil(a, x * BPS, BPS - fee);
    if a <= 0 {
      DivCeil(0, ri * o, ro - o);
      assert ri * o > 0;
      MulLe(a, 0, BPS - fee);
    } else {
      var after := AfterFee(a, fee);
      AfterFeeNonNegative(a, fee);
      DivFloor(x, a * (BPS - fee), BPS);
      DivCeil(after, ri * o, ro - o);
      OutputReached(o, after, ri, ro);
      assert o * ri == ri * o;
    }
  }

  /** The greatest output an input pays for: its least input is within the amount, the next one's is not. */
  ghost predicate BestOutput(o: int, amountIn: int, ri: int, ro: int, fee: nat)
    requires ri > 0 && ro > 0 && fee < BPS
  {
    && 0 <= o < ro
    && (o > 0 ==> LeastInput(o, ri, ro, fee) <= amountIn)
    && (o + 1 < ro ==> amountIn < LeastInput(o + 1, ri, ro, fee))
  }

  /** The quote is that output, and no other number is. */
  lemma BestOutputIff(o: int, amountIn: int, ri: int, ro: int, fee: nat)
    requires amountIn > 0 && ri > 0 && ro > 0 && fee < BPS
    ensures BestOutput(o, amountIn, ri, ro, fee) <==> o == AmountOut(amountIn, ri, ro, fee)
  {
    hide AmountOut, LeastInput;
    OutputBounds(amountIn, ri, ro, fee);
    if 0 < o < ro {
      LeastInputExact(amountIn, o, ri, ro, fee);
    }
    if 0 < o + 1 < ro {
      LeastInputExact(amountIn, o + 1, ri, ro, fee);
    }
  }

  /** The contract's quote never exceeds the least input, and is within two of it for every
      pool fee the contract admits. */
  lemma AmountInNearLeast(o: int, ri: int, ro: int, fee: nat)
    requires 0 < o < ro && ri > 0 && fee <= MAX_FEE_BPS
    ensures AmountIn(o, ri, ro, fee).Some?
    ensures AmountIn(o, ri, ro, fee).value <= LeastInput(o, ri, ro, fee) <= AmountIn(o, ri, ro, fee).value + 2
  {
    var d, k, n := ro - o, BPS - fee, ri * o;
    assert d * k > 0 && n * BPS >= 0;
    var g := AmountIn(o, ri, ro, fee).value;
    var x := (n + d - 1) / d;
    var least := LeastInput(o, ri, ro, fee);
    DivCeil(x, n, d);
    DivCeil(x - 1, n, d);
    DivCeil(least, x * BPS, k);
    DivCeil(g + 2, x * BPS, k);
    LeastCovers(n, d, k, x, least);
    if least < g {
      MulLe(least, g - 1, d * k);
    }
    TwoMoreCover(n, d, k, x, g);
  }

  lemma LeastCovers(n: int, d: int, k: int, x: int, least: int)
    requires d > 0 && n <= x * d && x * BPS <= least * k
    ensures n * BPS <= least * (d * k)
  {
    MulLe(x * BPS, least * k, d);
    MulLe(n, x * d, BPS);
    assert x * BPS * d == x * d * BPS && least * k * d == least * (d * k);
  }

  lemma TwoMoreCover(n: int, d: int, k: int, x: int, g: int)
    requires d > 0 && BPS <= 2 * k && (x - 1) * d < n && n * BPS <= g * (d * k)
    ensures x * BPS <= (g + 2) * k
  {
    assert (x - 1) * d * BPS == (x - 1) * BPS * d && g * (d * k) == g * k * d;
    CancelLt((x - 1) * BPS, g * k, d);
    assert (g + 2) * k == g * k + 2 * k;
  }

  /** Every input whose quote reaches the output is at least the contract's input quote. */
  lemma AmountInIsLowerBound(a: int, o: int, ri: int, ro: int, fee: nat)
    requires 0 < o < ro && ri > 0 && fee <= MAX_FEE_BPS
    requires o <= AmountOut(a, ri, ro, fee)
    ensures AmountIn(o, ri, ro, fee).Some? && AmountIn(o, ri, ro, fee).value <= a
  {
    LeastInputExact(a, o, ri, ro, fee);
    AmountInNearLeast(o, ri, ro, fee);
  }

  /** How far a division that rounds up overshoots: what `a` lacks to a multiple of `b`. */
  function Slack(a: int, b: int): int
    requires b > 0
  {
    (a + b - 1) / b * b - a
  }

  /** When the quoted input buys the quoted output, told from the request and the pool alone. The exact
      inverse rounds up twice, for the price and for the fee; the quote rounds up once. It suffices exactly
      when the two overshoots together stay below one unit of input. */
  lemma AmountInSufficesIff(o: int, ri: int, ro: int, fee: nat)
    requires 0 < o < ro && ri > 0 && fee <= MAX_FEE_BPS
    ensures AmountIn(o, ri, ro, fee).Some?
    ensures var rest, factor := ro - o, BPS - fee;
            var price := (ri * o + rest - 1) / rest;
            o <= AmountOut(AmountIn(o, ri, ro, fee).value, ri, ro, fee) <==>
              Slack(ri * o, rest) * BPS + Slack(price * BPS, factor) * rest < rest * factor
  {
    var d, k, n := ro - o, BPS - fee, ri * o;
    var x, least := (n + d - 1) / d, LeastInput(o, ri, ro, fee);
    AmountInNearLeast(o, ri, ro, fee);
    var g := AmountIn(o, ri, ro, fee).value;
    LeastInputExact(g, o, ri, ro, fee);
    DivCeil(least - 1, n * BPS, d * k);
    SlacksAddUp(n, d, k, x, least);
  }

  lemma SlacksAddUp(n: int, d: int, k: int, x: int, least: int)
    ensures n * BPS - (least - 1) * (d * k) == d * k - ((x * d - n) * BPS + (least * k - x * BPS) * d)
  {
    assert (least - 1) * (d * k) == least * k * d - d * k;
    assert (x * d - n) * BPS == x * d * BPS - n * BPS;
    assert (least * k - x * BPS) * d == least * k * d - x * BPS * d;
    assert x * d * BPS == x * BPS * d;
  }

  /** With no fee the two quotes invert each other: the input quote is the least sufficient input. */
  lemma NoFeeQuoteExact(o: int, ri: int, ro: int)
    requires 0 < o < ro && ri > 0
    ensures AmountIn(o, ri, ro, 0) == Some(LeastInput(o, ri, ro, 0))
    ensures var g := LeastInput(o, ri, ro, 0);
            o <= AmountOut(g, ri, ro, 0) && AmountOut(g - 1, ri, ro, 0) < o
  {
    var d := ro - o;
    var x := (ri * o + d - 1) / d;
    var least := LeastInput(o, ri, ro, 0);
    AmountInNearLeast(o, ri, ro, 0);
    DivCeil(x, x * BPS, BPS);
    DivCeil(x - 1, x * BPS, BPS);
    assert least == x;
    var g := AmountIn(o, ri, ro, 0).value;
    assert g * (d * BPS) == g * d * BPS;
    CancelLe(ri * o, g * d, BPS);
    DivCeil(g, ri * o, d);
    LeastInputExact(least, o, ri, ro, 0);
    LeastInputExact(least - 1, o, ri, ro, 0);
  }

  /** With a fee the quoted input can miss the quoted output. */
  lemma AmountInCanMiss()
    ensures AmountIn(1, 1, 10, 1) == Some(1)
    ensures AmountOut(1, 1, 10, 1) < 1
  {
  }

  // ----- minting shares -----

  /** A later deposit that mints `minted` shares rounded up against `supply` over-mints by less
      than one share: the product per squared share keeps its value but for that share. */
  lemma MintOverByLessThanOne(ra: int, rb: int, supply: int, a: int, b: int, minted: int)
    requires ra > 0 && rb > 0 && supply > 0 && a > 0 && b > 0 && minted >= 1
    requires CeilDiv(a * supply, ra).Some? && CeilDiv(b * supply, rb).Some?
    requires minted == Min(CeilDiv(a * supply, ra).value, CeilDiv(b * supply, rb).value)
    ensures (ra + a) * (rb + b) * (supply * supply) >= ra * rb * ((supply + minted - 1) * (supply + minted - 1))
  {
    var s := supply + minted - 1;
    MintSide(ra, supply, a, minted);
    MintSide(rb, supply, b, minted);
    ProductOfSides(ra, rb, s, ra + a, rb + b, supply);
  }

  /** Two side-wise bounds multiply into a bound on products over squared supplies. */
  lemma ProductOfSides(ra: int, rb: int, s: int, ra': int, rb': int, s': int)
    requires 0 <= ra * s <= ra' * s' && 0 <= rb * s <= rb' * s'
    ensures ra * rb * (s * s) <= ra' * rb' * (s' * s')
  {
    ProductLe(ra * s, ra' * s', rb * s, rb' * s');
    Regroup(ra, rb, s);
    Regroup(ra', rb', s');
  }

  lemma ProductLe(x: int, x': int, y: int, y': int)
    requires 0 <= x <= x' && 0 <= y <= y'
    ensures x * y <= x' * y'
  {
    MulLe(x, x', y);
    MulLe(y, y', x');
  }

  lemma Regroup(a: int, b: int, s: int)
    ensures a * s * (b * s) == a * b * (s * s)
  {
  }

  lemma MintSide(r: int, supply: int, a: int, minted: int)
    requires r > 0 && supply > 0 && a > 0 && minted >= 1
    requires CeilDiv(a * supply, r).Some? && minted <= CeilDiv(a * supply, r).value
    ensures 0 <= r * (supply + minted - 1) <= (r + a) * supply
  {
    MulLe(minted - 1, CeilDiv(a * supply, r).value - 1, r);
    assert r * (supply + minted - 1) == r * supply + (minted - 1) * r;
    assert (r + a) * supply == r * supply + a * supply;
  }

  /** What burning `amount` of `supply` shares takes from a reserve: all of it only with all shares. */
  lemma WithdrawnPart(amount: int, reserve: int, supply: int)
    requires 0 < amount <= supply && reserve > 0
    ensures 0 <= amount * reserve / supply <= reserve
    ensures amount * reserve / supply == reserve <==> amount == supply
  {
    MulNonNegative(amount, reserve);
    DivFloor(0, amount * reserve, supply);
    DivFloor(reserve + 1, amount * reserve, supply);
    DivFloor(reserve, amount * reserve, supply);
    MulLe(amount, supply, reserve);
    assert (reserve + 1) * supply == reserve * supply + supply;
    if amount < supply {
      MulLe(amount + 1, supply, reserve);
      assert (amount + 1) * reserve == amount * reserve + reserve;
    }
  }
}
