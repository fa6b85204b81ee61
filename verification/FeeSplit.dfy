/** Splitting a pending amount by basis-point shares, remainder to the last
    (contracts/fee-distribution/src/lib.rs). */
module FeeSplit {
  import opened Prelude
  import opened Arithmetic
  import opened SeqSum


  function Share(pending: int, bps: nat): int {
    pending * bps / BPS
  }

  function Floors(shares: seq<nat>, pending: int): (r: seq<int>)
    ensures |r| == |shares| && forall i :: 0 <= i < |r| ==> r[i] == Share(pending, shares[i])
  {
    seq(|shares|, i requires 0 <= i < |shares| => Share(pending, shares[i]))
  }

  /** Every share gets its floor, except that the last takes all that is left. */
  function Split(shares: seq<nat>, pending: int): seq<int>
    requires |shares| > 0
  {
    var first := Floors(shares[..|shares| - 1], pending);
    first + [pending - Total(first)]
  }

  /** Floored parts fall short of the whole by less than one unit each. */
  lemma {:induction false} FloorsNearWhole(shares: seq<nat>, pending: int)
    requires pending >= 0
    ensures 0 <= Total(Floors(shares, pending))
    ensures Total(Floors(shares, pending)) * BPS <= pending * Total(shares)
    ensures pending * Total(shares) <= Total(Floors(shares, pending)) * BPS + |shares| * (BPS - 1)
    decreases |shares|
  {
    if shares != [] {
      var init, last := shares[..|shares| - 1], shares[|shares| - 1];
      FloorsNearWhole(init, pending);
      assert Floors(shares, pending) == Floors(init, pending) + [Share(pending, last)];
      TotalAppend(Floors(init, pending), Share(pending, last));
      MulNonNegative(pending, last);
      DivBounds(pending * last, BPS);
      DivNonNegative(pending * last, BPS);
      assert pending * Total(shares) == pending * Total(init) + pending * last;
    }
  }

  /** The split is exact: parts sum to the pending amount, every part but the last is its floored
      share, and the last is its floored share plus a remainder smaller than the number of parts. */
  lemma SplitExact(shares: seq<nat>, pending: int)
    requires |shares| > 0 && pending >= 0 && Total(shares) == BPS
    ensures var parts, n := Split(shares, pending), |shares|;
            && |parts| == n && Total(parts) == pending
            && (forall i :: 0 <= i < n - 1 ==> parts[i] == Share(pending, shares[i]))
            && Share(pending, shares[n - 1]) <= parts[n - 1] < Share(pending, shares[n - 1]) + n
            && forall i :: 0 <= i < n ==> parts[i] >= 0
  {
    var n := |shares|;
    var first := Floors(shares[..n - 1], pending);
    TotalAppend(first, pending - Total(first));
    FloorsNearWhole(shares, pending);
    assert Floors(shares, pending) == first + [Share(pending, shares[n - 1])];
    TotalAppend(first, Share(pending, shares[n - 1]));
    forall i | 0 <= i < n ensures Share(pending, shares[i]) >= 0 {
      MulNonNegative(pending, shares[i]);
      DivNonNegative(pending * shares[i], BPS);
    }
  }
}
