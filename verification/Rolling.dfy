/** The rolling-window columns of the matrix (binance/indicators.py): Bollinger bands and
    the volume average. The library's square root is a parameter. */
module Rolling {
  import opened Common
  import opened Indicators

  /** Sum of the values from `first` up to `end` exclusive. */
  function SumOver(xs: seq<real>, first: nat, end: nat): real
    requires first <= end <= |xs|
    decreases end
  {
    if first == end then 0.0 else SumOver(xs, first, end - 1) + xs[end - 1]
  }

  /** Sum of the squared distances from `m`. */
  function SquaresOver(xs: seq<real>, m: real, first: nat, end: nat): real
    requires first <= end <= |xs|
    decreases end
  {
    if first == end then 0.0 else SquaresOver(xs, m, first, end - 1) + Square(xs[end - 1] - m)
  }

  function Square(x: real): (r: real)
    ensures r >= 0.0
  {
    x * x
  }

  lemma PositiveProduct(x: real, y: real, r: real)
    requires x > 0.0 && y > 0.0 && r == x * y
    ensures r > 0.0
  {
  }

  lemma NegativeProduct(x: real, y: real, r: real)
    requires x < 0.0 && y < 0.0 && r == x * y
    ensures r > 0.0
  {
  }

  lemma SquareVanishesExactlyWhen(x: real)
    ensures Square(x) == 0.0 <==> x == 0.0
  {
    if x < 0.0 {
      NegativeProduct(x, x, Square(x));
    } else if x > 0.0 {
      PositiveProduct(x, x, Square(x));
    } else {
      assert Square(0.0) == 0.0;
    }
  }

  /** Mean of the window of `period` values that ends at row `j`. */
  function MeanAt(xs: seq<real>, period: nat, j: nat): real
    requires 1 <= period <= j + 1 <= |xs|
  {
    SumOver(xs, j + 1 - period, j + 1) / period as real
  }

  /** Its population variance. */
  function VarianceAt(xs: seq<real>, period: nat, j: nat): real
    requires 1 <= period <= j + 1 <= |xs|
  {
    SquaresOver(xs, MeanAt(xs, period, j), j + 1 - period, j + 1) / period as real
  }

  function RollingMean(xs: seq<real>, period: nat): (s: Series)
    requires period >= 1
    ensures |s| == |xs|
  {
    seq(|xs|, j requires 0 <= j < |xs| => if j + 1 < period then None else Some(MeanAt(xs, period, j)))
  }

  function BandAt(closes: seq<real>, period: nat, k: real, root: real -> real, j: nat): real
    requires 1 <= period <= j + 1 <= |closes|
  {
    MeanAt(closes, period, j) + k * root(VarianceAt(closes, period, j))
  }

  /** The rolling mean shifted by `k` rolling standard deviations. */
  function Band(closes: seq<real>, period: nat, k: real, root: real -> real): (s: Series)
    requires period >= 1
    ensures |s| == |closes|
  {
    seq(|closes|, j requires 0 <= j < |closes| =>
      if j + 1 < period then None else Some(BandAt(closes, period, k, root, j)))
  }

  /** Volume over its average; a zero average gives a missing row. */
  function VolumeRatio(volumes: seq<real>, period: nat): (s: Series)
    requires period >= 1
    ensures |s| == |volumes|
  {
    seq(|volumes|, j requires 0 <= j < |volumes| =>
      if j + 1 < period || MeanAt(volumes, period, j) == 0.0 then None
      else Some(volumes[j] / MeanAt(volumes, period, j)))
  }

  // --- Causality ----------------------------------------------------------------

  lemma {:induction false} SumSeesItsWindow(xs: seq<real>, k: nat, first: nat, end: nat)
    requires first <= end <= k <= |xs|
    ensures SumOver(xs[..k], first, end) == SumOver(xs, first, end)
    decreases end
  {
    if first < end {
      SumSeesItsWindow(xs, k, first, end - 1);
    }
  }

  lemma {:induction false} SquaresSeeTheirWindow(xs: seq<real>, m: real, k: nat, first: nat, end: nat)
    requires first <= end <= k <= |xs|
    ensures SquaresOver(xs[..k], m, first, end) == SquaresOver(xs, m, first, end)
    decreases end
  {
    hide Square;
    if first < end {
      SquaresSeeTheirWindow(xs, m, k, first, end - 1);
    }
  }

  lemma WindowIsCausal(xs: seq<real>, period: nat, k: nat, j: nat)
    requires 1 <= period <= j + 1 <= k <= |xs|
    ensures MeanAt(xs[..k], period, j) == MeanAt(xs, period, j)
    ensures VarianceAt(xs[..k], period, j) == VarianceAt(xs, period, j)
  {
    SumSeesItsWindow(xs, k, j + 1 - period, j + 1);
    SquaresSeeTheirWindow(xs, MeanAt(xs, period, j), k, j + 1 - period, j + 1);
  }

  lemma SameBand(a: seq<real>, b: seq<real>, period: nat, k: real, root: real -> real, j: nat)
    requires 1 <= period <= j + 1 <= |a| <= |b| && MeanAt(a, period, j) == MeanAt(b, period, j)
    requires VarianceAt(a, period, j) == VarianceAt(b, period, j)
    ensures BandAt(a, period, k, root, j) == BandAt(b, period, k, root, j)
  {
    hide MeanAt, VarianceAt;
    var x, y := VarianceAt(a, period, j), VarianceAt(b, period, j);
    assert root(x) == root(y);
  }

  /** A row of a rolling column depends on its own window only, so a prefix keeps it. */
  lemma RollingIsCausal(xs: seq<real>, period: nat, band: real, root: real -> real, k: nat)
    requires period >= 1 && k <= |xs|
    ensures RollingMean(xs[..k], period) == RollingMean(xs, period)[..k]
    ensures Band(xs[..k], period, band, root) == Band(xs, period, band, root)[..k]
    ensures VolumeRatio(xs[..k], period) == VolumeRatio(xs, period)[..k]
  {
    hide MeanAt, BandAt;
    forall j | 0 <= j < k && period <= j + 1
      ensures MeanAt(xs[..k], period, j) == MeanAt(xs, period, j)
      ensures BandAt(xs[..k], period, band, root, j) == BandAt(xs, period, band, root, j)
    {
      WindowIsCausal(xs, period, k, j);
      SameBand(xs[..k], xs, period, band, root, j);
    }
  }

  // --- What the columns mean -----------------------------------------------------

  lemma {:induction false} SumStaysBetween(xs: seq<real>, first: nat, end: nat, lo: real, hi: real)
    requires first <= end <= |xs| && forall i :: first <= i < end ==> lo <= xs[i] <= hi
    ensures lo * (end - first) as real <= SumOver(xs, first, end) <= hi * (end - first) as real
    decreases end
  {
    if first < end {
      SumStaysBetween(xs, first, end - 1, lo, hi);
      var n := (end - 1 - first) as real;
      assert (end - first) as real == n + 1.0;
      assert lo * (n + 1.0) == lo * n + lo && hi * (n + 1.0) == hi * n + hi;
    }
  }

  /** The average lies between the extremes of its window. */
  lemma MeanStaysBetween(xs: seq<real>, period: nat, j: nat, lo: real, hi: real)
    requires 1 <= period <= j + 1 <= |xs|
    requires forall i :: j + 1 - period <= i <= j ==> lo <= xs[i] <= hi
    ensures lo <= MeanAt(xs, period, j) <= hi
  {
    SumStaysBetween(xs, j + 1 - period, j + 1, lo, hi);
    var sum := SumOver(xs, j + 1 - period, j + 1);
    DivBounds(lo, sum, period as real);
    DivBoundsAbove(hi, sum, period as real);
  }

  lemma {:induction false} SquaresVanishExactlyWhen(xs: seq<real>, m: real, first: nat, end: nat)
    requires first <= end <= |xs|
    ensures SquaresOver(xs, m, first, end) >= 0.0
    ensures SquaresOver(xs, m, first, end) == 0.0 <==> forall i :: first <= i < end ==> xs[i] == m
    decreases end
  {
    hide Square;
    if first < end {
      SquaresVanishExactlyWhen(xs, m, first, end - 1);
      SquareVanishesExactlyWhen(xs[end - 1] - m);
    }
  }

  /** BANDS: with a true square root the bands enclose the average, and they meet exactly
      when every close of the window is the same. */
  lemma BandsEnclose(closes: seq<real>, period: nat, k: real, root: real -> real, j: nat)
    requires 1 <= period <= j + 1 <= |closes| && k > 0.0
    requires forall x :: x >= 0.0 ==> root(x) >= 0.0 && root(x) * root(x) == x
    ensures
      var mid, upper, lower := MeanAt(closes, period, j), Band(closes, period, k, root)[j].value,
                               Band(closes, period, -k, root)[j].value;
      && lower <= mid <= upper && upper - mid == mid - lower
      && (lower == upper <==> forall i :: j + 1 - period <= i <= j ==> closes[i] == mid)
  {
    var mid, v := MeanAt(closes, period, j), VarianceAt(closes, period, j);
    var squares := SquaresOver(closes, mid, j + 1 - period, j + 1);
    SquaresVanishExactlyWhen(closes, mid, j + 1 - period, j + 1);
    hide MeanAt, SquaresOver;
    DivBounds(0.0, squares, period as real);
    DivBoundsAbove(0.0, squares, period as real);
    var sd := root(v);
    assert sd == 0.0 <==> v == 0.0 by {
      SquareVanishesExactlyWhen(sd);
      assert v >= 0.0 && Square(sd) == sd * sd == v;
    }
    var up, down := k * sd, (-k) * sd;
    assert up >= 0.0 by { MulMono(0.0, k, sd); }
    assert sd > 0.0 ==> up > 0.0 by {
      if sd > 0.0 {
        MulStrict(0.0, k, sd);
      }
    }
    assert down == -up;
  }

  /** Each next average is the last one moved by the value that enters less the one that leaves. */
  lemma MeanSlides(xs: seq<real>, period: nat, j: nat)
    requires 1 <= period <= j + 1 < |xs|
    ensures MeanAt(xs, period, j + 1) == MeanAt(xs, period, j) + (xs[j + 1] - xs[j + 1 - period]) / period as real
  {
    DropFirst(xs, j + 1 - period, j + 2);
  }

  lemma {:induction false} DropFirst(xs: seq<real>, first: nat, end: nat)
    requires first < end <= |xs|
    ensures SumOver(xs, first, end) == xs[first] + SumOver(xs, first + 1, end)
    decreases end
  {
    if first + 1 < end {
      DropFirst(xs, first, end - 1);
    } else {
      assert SumOver(xs, first, first) == 0.0;
    }
  }
}
