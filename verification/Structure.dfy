/** Swing structure and regime of the 4H bias (binance/htf.py), and their mirror image. */
module Structure {
  import opened Common
  import opened Indicators
  import opened Causality
  import opened IndicatorLaws
  import opened Rolling

  const LOOKBACK := 9
  const RADIUS := 1

  /** Strictly the hottest value within `radius` on both sides. */
  predicate IsSwingHigh(xs: seq<real>, i: int, radius: nat) {
    radius <= i < |xs| - radius && forall j :: i - radius <= j <= i + radius && j != i ==> xs[j] < xs[i]
  }

  predicate IsSwingLow(xs: seq<real>, i: int, radius: nat) {
    radius <= i < |xs| - radius && forall j :: i - radius <= j <= i + radius && j != i ==> xs[j] > xs[i]
  }

  /** The swing highs below `n`, ascending. */
  function SwingHighs(xs: seq<real>, radius: nat, n: nat): (out: seq<nat>)
    requires n <= |xs|
    ensures forall k :: 0 <= k < |out| ==> out[k] < n && IsSwingHigh(xs, out[k], radius)
  {
    if n == 0 then [] else SwingHighs(xs, radius, n - 1) + if IsSwingHigh(xs, n - 1, radius) then [n - 1] else []
  }

  function SwingLows(xs: seq<real>, radius: nat, n: nat): (out: seq<nat>)
    requires n <= |xs|
    ensures forall k :: 0 <= k < |out| ==> out[k] < n && IsSwingLow(xs, out[k], radius)
  {
    if n == 0 then [] else SwingLows(xs, radius, n - 1) + if IsSwingLow(xs, n - 1, radius) then [n - 1] else []
  }

  /** The loop's own test: the middle value is the window's maximum and occurs once. */
  method PeaksOnce(window: seq<real>, middle: nat) returns (peak: bool)
    requires middle < |window|
    ensures peak <==> forall k :: 0 <= k < |window| && k != middle ==> window[k] < window[middle]
  {
    var x := window[middle];
    var count := 0;
    for k := 0 to |window|
      invariant forall m :: 0 <= m < k ==> window[m] <= x
      invariant count == if k <= middle then 0 else 1
      invariant forall m :: 0 <= m < k && m != middle ==> window[m] < x
    {
      if window[k] > x {
        return false;
      }
      if window[k] == x {
        if k != middle {
          return false;
        }
        count := count + 1;
      }
    }
    return count == 1;
  }

  lemma PeakIsSwingHigh(xs: seq<real>, i: nat, radius: nat)
    requires radius <= i < |xs| - radius
    ensures
      var window := xs[i - radius..i + radius + 1];
      IsSwingHigh(xs, i, radius) <==> forall k :: 0 <= k < |window| && k != radius ==> window[k] < window[radius]
  {
    var window := xs[i - radius..i + radius + 1];
    assert forall j :: i - radius <= j <= i + radius ==> xs[j] == window[j - (i - radius)];
    assert forall k :: 0 <= k < |window| ==> window[k] == xs[i - radius + k];
  }

  lemma {:induction false} NoSwingBelowRadius(xs: seq<real>, radius: nat, n: nat)
    requires n <= |xs| && n <= radius
    ensures SwingHighs(xs, radius, n) == []
  {
    if n > 0 {
      NoSwingBelowRadius(xs, radius, n - 1);
    }
  }

  lemma {:induction false} NoSwingPastTheEnd(xs: seq<real>, radius: nat, from: nat, n: nat)
    requires from <= n <= |xs| && from >= |xs| - radius
    ensures SwingHighs(xs, radius, n) == SwingHighs(xs, radius, from)
  {
    if n > from {
      NoSwingPastTheEnd(xs, radius, from, n - 1);
    }
  }

  lemma ScanStep(xs: seq<real>, radius: nat, i: nat)
    requires i < |xs|
    ensures SwingHighs(xs, radius, i + 1) ==
            SwingHighs(xs, radius, i) + if IsSwingHigh(xs, i, radius) then [i] else []
  {
    hide IsSwingHigh;
  }

  /** `_swing_highs`. */
  method FindSwingHighs(xs: seq<real>, radius: nat) returns (out: seq<nat>)
    ensures out == SwingHighs(xs, radius, |xs|)
  {
    hide IsSwingHigh, SwingHighs;
    out := [];
    if radius >= |xs| - radius {
      var from := if radius <= |xs| then radius else |xs|;
      NoSwingBelowRadius(xs, radius, from);
      NoSwingPastTheEnd(xs, radius, from, |xs|);
      return;
    }
    NoSwingBelowRadius(xs, radius, radius);
    for i := radius to |xs| - radius
      invariant out == SwingHighs(xs, radius, i)
    {
      var window := xs[i - radius..i + radius + 1];
      PeakIsSwingHigh(xs, i, radius);
      ScanStep(xs, radius, i);
      var peak := PeaksOnce(window, radius);
      if peak {
        out := out + [i];
      }
    }
    NoSwingPastTheEnd(xs, radius, |xs| - radius, |xs|);
  }

  // --- Structure ------------------------------------------------------------------

  datatype Shape = HigherHighs | LowerLows | NoShape

  function Highs(cs: seq<Candle>): (r: seq<real>)
    ensures |r| == |cs|
  {
    seq(|cs|, i requires 0 <= i < |cs| => cs[i].high)
  }

  function Lows(cs: seq<Candle>): (r: seq<real>)
    ensures |r| == |cs|
  {
    seq(|cs|, i requires 0 <= i < |cs| => cs[i].low)
  }

  function Confirmed(swings: seq<nat>, limit: int): (r: seq<nat>)
    ensures forall k :: 0 <= k < |r| ==> r[k] in swings
  {
    if swings == [] then [] else
      var last := swings[|swings| - 1];
      Confirmed(swings[..|swings| - 1], limit) + if last < limit then [last] else []
  }

  /** The last two swing highs `h` against the last two swing lows `l`. */
  function Compare(highs: seq<real>, lows: seq<real>, h: seq<nat>, l: seq<nat>): Shape
    requires (forall k :: 0 <= k < |h| ==> h[k] < |highs|) && (forall k :: 0 <= k < |l| ==> l[k] < |lows|)
  {
    if |h| < 2 || |l| < 2 then NoShape else
      var (h1, h2) := (highs[h[|h| - 2]], highs[h[|h| - 1]]);
      var (l1, l2) := (lows[l[|l| - 2]], lows[l[|l| - 1]]);
      if h2 > h1 && l2 > l1 then HigherHighs else if h2 < h1 && l2 < l1 then LowerLows else NoShape
  }

  function ConfirmedHighs(xs: seq<real>): (r: seq<nat>)
    ensures forall k :: 0 <= k < |r| ==> r[k] < |xs|
  {
    Confirmed(SwingHighs(xs, RADIUS, |xs|), |xs| - RADIUS)
  }

  function ConfirmedLows(xs: seq<real>): (r: seq<nat>)
    ensures forall k :: 0 <= k < |r| ==> r[k] < |xs|
  {
    Confirmed(SwingLows(xs, RADIUS, |xs|), |xs| - RADIUS)
  }

  function ShapeOf(highs: seq<real>, lows: seq<real>): Shape {
    Compare(highs, lows, ConfirmedHighs(highs), ConfirmedLows(lows))
  }

  /** `detect_structure` over the newest nine candles. */
  function DetectStructure(cs: seq<Candle>): Shape {
    if |cs| < LOOKBACK then NoShape else
      var window := cs[|cs| - LOOKBACK..];
      ShapeOf(Highs(window), Lows(window))
  }

  /** The confirmation filter drops nothing: the scan already stops one candle short, so
      only the newest candle is excluded -- the second newest can be a swing. */
  lemma ConfirmationDropsNothing(xs: seq<real>)
    ensures ConfirmedHighs(xs) == SwingHighs(xs, RADIUS, |xs|)
    ensures ConfirmedLows(xs) == SwingLows(xs, RADIUS, |xs|)
  {
    AllConfirmed(SwingHighs(xs, RADIUS, |xs|), |xs| - RADIUS);
    AllConfirmed(SwingLows(xs, RADIUS, |xs|), |xs| - RADIUS);
  }

  lemma {:induction false} AllConfirmed(swings: seq<nat>, limit: int)
    requires forall k :: 0 <= k < |swings| ==> swings[k] < limit
    ensures Confirmed(swings, limit) == swings
  {
    if swings != [] {
      AllConfirmed(swings[..|swings| - 1], limit);
    }
  }

  lemma SecondNewestCanBeASwing()
    ensures
      var xs := [1.0, 1.0, 1.0, 1.0, 1.0, 1.0, 1.0, 2.0, 1.0];
      |xs| == LOOKBACK && |xs| - 2 in ConfirmedHighs(xs)
  {
    var xs := [1.0, 1.0, 1.0, 1.0, 1.0, 1.0, 1.0, 2.0, 1.0];
    assert IsSwingHigh(xs, 7, RADIUS);
    assert !IsSwingHigh(xs, 8, RADIUS);
    assert SwingHighs(xs, RADIUS, 8) == SwingHighs(xs, RADIUS, 7) + [7];
    assert SwingHighs(xs, RADIUS, 9) == SwingHighs(xs, RADIUS, 8);
    ConfirmationDropsNothing(xs);
  }

  // --- Mirror -------------------------------------------------------------------------

  /** Prices reflected about zero: high and low change places. */
  function MirrorCandle(c: Candle): Candle {
    c.(open := -c.open, high := -c.low, low := -c.high, close := -c.close)
  }

  function MirrorAll(cs: seq<Candle>): (r: seq<Candle>)
    ensures |r| == |cs|
  {
    seq(|cs|, i requires 0 <= i < |cs| => MirrorCandle(cs[i]))
  }

  function Negated(xs: seq<real>): (r: seq<real>)
    ensures |r| == |xs|
  {
    seq(|xs|, i requires 0 <= i < |xs| => -xs[i])
  }

  function Opposite(s: Shape): Shape {
    match s
    case HigherHighs => LowerLows
    case LowerLows => HigherHighs
    case NoShape => NoShape
  }

  lemma {:induction false} SwingsMirror(xs: seq<real>, radius: nat, n: nat)
    requires n <= |xs|
    ensures SwingHighs(Negated(xs), radius, n) == SwingLows(xs, radius, n)
    ensures SwingLows(Negated(xs), radius, n) == SwingHighs(xs, radius, n)
  {
    if n > 0 {
      SwingsMirror(xs, radius, n - 1);
      var ys := Negated(xs);
      assert forall j :: 0 <= j < |xs| ==> ys[j] == -xs[j];
      assert IsSwingHigh(ys, n - 1, radius) <==> IsSwingLow(xs, n - 1, radius);
      assert IsSwingLow(ys, n - 1, radius) <==> IsSwingHigh(xs, n - 1, radius);
    }
  }

  lemma CompareMirrors(highs: seq<real>, lows: seq<real>, h: seq<nat>, l: seq<nat>)
    requires (forall k :: 0 <= k < |h| ==> h[k] < |highs|) && (forall k :: 0 <= k < |l| ==> l[k] < |lows|)
    ensures Compare(Negated(lows), Negated(highs), l, h) == Opposite(Compare(highs, lows, h, l))
  {
  }

  lemma ShapeMirrors(highs: seq<real>, lows: seq<real>)
    ensures ShapeOf(Negated(lows), Negated(highs)) == Opposite(ShapeOf(highs, lows))
  {
    SwingsMirror(highs, RADIUS, |highs|);
    SwingsMirror(lows, RADIUS, |lows|);
    assert ConfirmedHighs(Negated(lows)) == ConfirmedLows(lows);
    assert ConfirmedLows(Negated(highs)) == ConfirmedHighs(highs);
    hide ConfirmedHighs, ConfirmedLows, Compare;
    CompareMirrors(highs, lows, ConfirmedHighs(highs), ConfirmedLows(lows));
  }

  /** MIRROR: reflecting prices exchanges higher highs with lower lows. */
  lemma StructureMirrors(cs: seq<Candle>)
    ensures DetectStructure(MirrorAll(cs)) == Opposite(DetectStructure(cs))
  {
    hide ShapeOf;
    if |cs| >= LOOKBACK {
      var window := cs[|cs| - LOOKBACK..];
      var mirrored := MirrorAll(cs)[|cs| - LOOKBACK..];
      assert Highs(mirrored) == Negated(Lows(window));
      assert Lows(mirrored) == Negated(Highs(window));
      ShapeMirrors(Highs(window), Lows(window));
    }
  }

  // --- Regime -------------------------------------------------------------------------

  datatype Bias = Bias(regime: Regime, shape: Shape)

  /** `classify_htf`: anything missing or malformed reads as no bias. */
  function Classify(cs: seq<Candle>, root: real -> real): Bias {
    if Matrix(cs, root).Failure? then Bias(Unclear, NoShape) else
      var (row, close) := (Matrix(cs, root).value[|cs| - 1], cs[|cs| - 1].close);
      if row.ema20.None? || row.ema50.None? then Bias(Unclear, NoShape)
      else Bias(if close > row.ema20.value > row.ema50.value then Up
                else if close < row.ema20.value < row.ema50.value then Down
                else Unclear,
                DetectStructure(cs))
  }

  function NegatedSeries(a: Series): (b: Series)
    ensures |b| == |a|
  {
    seq(|a|, i requires 0 <= i < |a| => if a[i].None? then None else Some(-a[i].value))
  }

  function Zeros(a: Series): (b: Series)
    ensures |b| == |a|
  {
    seq(|a|, i requires 0 <= i < |a| => if a[i].None? then None else Some(0.0))
  }

  lemma SmoothingNegates(a: Series, period: nat, alpha: real, j: nat)
    requires period >= 1 && j < |a| && 0.0 <= alpha <= 1.0
    ensures EmaAt(NegatedSeries(a), period, alpha, j).None? <==> EmaAt(a, period, alpha, j).None?
    ensures EmaAt(a, period, alpha, j).Some? ==>
        EmaAt(NegatedSeries(a), period, alpha, j).value == -EmaAt(a, period, alpha, j).value
  {
    hide EmaAt;
    MaskDecidesGaps(NegatedSeries(a), a, period, alpha, j);
    MaskDecidesGaps(Zeros(a), a, period, alpha, j);
    if EmaAt(a, period, alpha, j).Some? {
      SmoothingIsAdditive(a, NegatedSeries(a), Zeros(a), period, alpha, j);
      EmaStaysBetween(Zeros(a), period, alpha, j, 0.0, 0.0);
    }
  }

  function OppositeRegime(r: Regime): Regime {
    match r
    case Up => Down
    case Down => Up
    case Unclear => Unclear
  }

  lemma StandardRateIsValid(period: nat)
    requires period >= 1
    ensures 0.0 <= Standard(period) <= 1.0
  {
    RatioIsPositive(2.0, period as real + 1.0);
    DivBoundsAbove(1.0, 2.0, period as real + 1.0);
  }

  lemma CloseSmoothingMirrors(cs: seq<Candle>, period: nat, j: nat)
    requires period >= 1 && j < |cs|
    ensures
      var x := EmaAt(Defined(Closes(cs)), period, Standard(period), j);
      var y := EmaAt(Defined(Closes(MirrorAll(cs))), period, Standard(period), j);
      (y.None? <==> x.None?) && (x.Some? ==> y.value == -x.value)
  {
    hide EmaAt;
    StandardRateIsValid(period);
    assert Defined(Closes(MirrorAll(cs))) == NegatedSeries(Defined(Closes(cs)));
    SmoothingNegates(Defined(Closes(cs)), period, Standard(period), j);
  }

  lemma MirrorKeepsValidity(cs: seq<Candle>, root: real -> real)
    ensures Matrix(MirrorAll(cs), root).Success? <==> Matrix(cs, root).Success?
  {
    hide Rows;
    var ms := MirrorAll(cs);
    assert forall i :: 0 <= i < |cs| ==> ms[i].isClosed == cs[i].isClosed && ms[i].timestamp == cs[i].timestamp;
  }

  /** MIRROR of the whole bias: reflecting every price exchanges UP with DOWN and the two
      structures, so the veto treats both directions alike. */
  lemma BiasMirrors(cs: seq<Candle>, root: real -> real)
    ensures Classify(MirrorAll(cs), root)
         == Bias(OppositeRegime(Classify(cs, root).regime), Opposite(Classify(cs, root).shape))
  {
    hide RollingMean, Band, VolumeRatio, EmaAt, DetectStructure;
    hide Rsi, MacdLine, MacdSignal, MacdHistogram, Atr, Adx, PlusDi, MinusDi;
    MirrorKeepsValidity(cs, root);
    StructureMirrors(cs);
    if Matrix(cs, root).Success? {
      CloseSmoothingMirrors(cs, 20, |cs| - 1);
      CloseSmoothingMirrors(cs, 50, |cs| - 1);
    }
  }
}
