/** What the indicator values mean: bounds of RSI, DI and ADX, what the extreme RSI
    values say, and the exact row from which each column is defined. */
module IndicatorLaws {
  import opened Common
  import opened Indicators
  import opened Causality
  import opened Rolling

  // --- Smoothing is linear and monotone on equal masks ----------------------------

  predicate SameMask(a: Series, b: Series) {
    |a| == |b| && forall i :: 0 <= i < |a| ==> (a[i].None? <==> b[i].None?)
  }

  /** `c` is the row-wise sum of `a` and `b`. */
  predicate IsSum(a: Series, b: Series, c: Series) {
    && SameMask(a, b) && SameMask(a, c)
    && forall i :: 0 <= i < |a| && a[i].Some? ==> c[i].value == a[i].value + b[i].value
  }

  predicate IsBelow(a: Series, b: Series) {
    SameMask(a, b) && forall i :: 0 <= i < |a| && a[i].Some? ==> a[i].value <= b[i].value
  }

  lemma {:induction false} MaskDecidesValid(a: Series, b: Series, n: nat)
    requires SameMask(a, b) && n <= |a|
    ensures ValidBelow(a, n) == ValidBelow(b, n)
  {
    if n > 0 {
      MaskDecidesValid(a, b, n - 1);
    }
  }

  lemma MaskDecidesStart(a: Series, b: Series, period: nat)
    requires SameMask(a, b) && period >= 1
    ensures Start(a, period) == Start(b, period)
    ensures Start(a, period).Some? ==> SeedRows(a, period) == SeedRows(b, period)
  {
    MaskDecidesValid(a, b, |a|);
  }

  lemma {:induction false} MaskDecidesGaps(a: Series, b: Series, period: nat, alpha: real, j: nat)
    requires SameMask(a, b) && period >= 1 && j < |a|
    ensures EmaAt(a, period, alpha, j).None? <==> EmaAt(b, period, alpha, j).None?
  {
    MaskDecidesStart(a, b, period);
    hide Start, Seed, Blend, SeedRows;
    if Start(a, period).Some? && j > Start(a, period).value {
      MaskDecidesGaps(a, b, period, alpha, j - 1);
    }
  }

  lemma {:induction false} SumIsAdditive(a: Series, b: Series, c: Series, at: seq<nat>)
    requires IsSum(a, b, c) && forall k :: 0 <= k < |at| ==> at[k] < |a| && a[at[k]].Some?
    ensures SumAt(c, at) == SumAt(a, at) + SumAt(b, at)
  {
    if at != [] {
      SumIsAdditive(a, b, c, at[..|at| - 1]);
    }
  }

  lemma SeedIsAdditive(a: Series, b: Series, c: Series, period: nat)
    requires IsSum(a, b, c) && period >= 1 && Start(a, period).Some?
    ensures Start(b, period) == Start(c, period) == Start(a, period)
    ensures Seed(c, period) == Seed(a, period) + Seed(b, period)
  {
    MaskDecidesStart(a, b, period);
    MaskDecidesStart(a, c, period);
    var at := SeedRows(a, period);
    SumIsAdditive(a, b, c, at);
    SeedIsMeanOfRows(a, period);
    SeedIsMeanOfRows(b, period);
    SeedIsMeanOfRows(c, period);
    hide *;
    QuotientsAdd(SumAt(a, at), SumAt(b, at), period as real);
  }

  lemma QuotientsAdd(x: real, y: real, n: real)
    requires n > 0.0
    ensures (x + y) / n == x / n + y / n
  {
    assert (x / n + y / n) * n == x + y;
  }

  lemma BlendIsAdditive(alpha: real, x: real, y: real, p: real, q: real)
    ensures Blend(alpha, x + y, p + q) == Blend(alpha, x, p) + Blend(alpha, y, q)
  {
  }

  /** ADDITIVE: smoothing a sum is summing the smoothed series. */
  lemma {:induction false} SmoothingIsAdditive(a: Series, b: Series, c: Series, period: nat, alpha: real, j: nat)
    requires IsSum(a, b, c) && period >= 1 && j < |a| && EmaAt(c, period, alpha, j).Some?
    ensures EmaAt(a, period, alpha, j).Some? && EmaAt(b, period, alpha, j).Some?
    ensures EmaAt(c, period, alpha, j).value == EmaAt(a, period, alpha, j).value + EmaAt(b, period, alpha, j).value
  {
    MaskDecidesGaps(a, c, period, alpha, j);
    MaskDecidesGaps(a, b, period, alpha, j);
    SeedIsAdditive(a, b, c, period);
    hide Start, Seed, Blend, ValidBelow;
    if j > Start(c, period).value {
      SmoothingIsAdditive(a, b, c, period, alpha, j - 1);
      var (p, q) := (EmaAt(a, period, alpha, j - 1).value, EmaAt(b, period, alpha, j - 1).value);
      BlendIsAdditive(alpha, a[j].value, b[j].value, p, q);
      assert c[j].value == a[j].value + b[j].value;
      assert EmaAt(c, period, alpha, j).value == Blend(alpha, a[j].value + b[j].value, p + q);
    }
  }

  function Difference(b: Series, a: Series): (d: Series)
    requires SameMask(a, b)
    ensures IsSum(a, d, b)
  {
    seq(|a|, i requires 0 <= i < |a| => if a[i].None? then None else Some(b[i].value - a[i].value))
  }

  /** MONOTONE: a row-wise larger input gives a row-wise larger smoothed series. */
  lemma SmoothingIsMonotone(a: Series, b: Series, period: nat, alpha: real, j: nat)
    requires IsBelow(a, b) && period >= 1 && j < |a| && 0.0 <= alpha <= 1.0 && EmaAt(b, period, alpha, j).Some?
    ensures EmaAt(a, period, alpha, j).Some? && EmaAt(a, period, alpha, j).value <= EmaAt(b, period, alpha, j).value
  {
    var d := Difference(b, a);
    hide EmaAt;
    SmoothingIsAdditive(a, d, b, period, alpha, j);
    EmaStaysBetween(d, period, alpha, j, 0.0, 0.0);
  }

  // --- Closed forms -------------------------------------------------------------

  function Power(b: real, n: nat): real {
    if n == 0 then 1.0 else b * Power(b, n - 1)
  }

  /** An input of age `n`. */
  function Aged(alpha: real, n: nat, x: real): real {
    alpha * Power(1.0 - alpha, n) * x
  }

  lemma OneOlder(alpha: real, n: nat, x: real, rest: real)
    ensures Aged(alpha, n + 1, x) + (1.0 - alpha) * rest == (1.0 - alpha) * (Aged(alpha, n, x) + rest)
  {
    var (b, w) := (1.0 - alpha, Power(1.0 - alpha, n));
    assert Power(b, n + 1) == b * w;
    hide Power;
    assert alpha * (b * w) * x == b * (alpha * w * x);
  }

  lemma Newest(alpha: real, x: real)
    ensures Aged(alpha, 0, x) == alpha * x
  {
  }

  /** The inputs from row `from` to row `j`, each weighted by how long ago it came. */
  function Decayed(values: Series, alpha: real, from: nat, j: nat): real
    requires from <= j + 1 <= |values| && forall i :: from <= i <= j ==> values[i].Some?
    decreases j + 1 - from
  {
    if from > j then 0.0
    else Aged(alpha, j - from, values[from].value) + Decayed(values, alpha, from + 1, j)
  }

  lemma {:induction false} DecayedStep(values: Series, alpha: real, from: nat, j: nat)
    requires from <= j + 1 < |values| && forall i :: from <= i <= j + 1 ==> values[i].Some?
    ensures Decayed(values, alpha, from, j + 1) == Blend(alpha, values[j + 1].value, Decayed(values, alpha, from, j))
    decreases j + 1 - from
  {
    hide Aged;
    if from == j + 1 {
      Newest(alpha, values[from].value);
    } else {
      DecayedStep(values, alpha, from + 1, j);
      OneOlder(alpha, j - from, values[from].value, Decayed(values, alpha, from + 1, j));
    }
  }

  /** The seed, decayed `n` times, plus what came after it. */
  function Geometric(alpha: real, n: nat, seed: real, later: real): real {
    Power(1.0 - alpha, n) * seed + later
  }

  lemma GeometricStep(alpha: real, n: nat, seed: real, later: real, x: real)
    ensures Blend(alpha, x, Geometric(alpha, n, seed, later)) == Geometric(alpha, n + 1, seed, Blend(alpha, x, later))
  {
    var (b, w) := (1.0 - alpha, Power(1.0 - alpha, n));
    assert Power(b, n + 1) == b * w;
    hide Power;
    assert b * (w * seed + later) == b * w * seed + b * later;
  }

  lemma GeometricStart(alpha: real, seed: real)
    ensures Geometric(alpha, 0, seed, 0.0) == seed
  {
  }

  /** CLOSED FORM: a smoothed row is its seed and every later input, weighted by alpha
      times (1 - alpha) to the power of its age. */
  lemma {:induction false} SmoothingIsGeometric(values: Series, period: nat, alpha: real, j: nat)
    requires period >= 1 && j < |values| && EmaAt(values, period, alpha, j).Some?
    ensures
      var start := Start(values, period).value;
      && start <= j && (forall i :: start < i <= j ==> values[i].Some?)
      && EmaAt(values, period, alpha, j).value
         == Geometric(alpha, j - start, Seed(values, period), Decayed(values, alpha, start + 1, j))
    decreases j
  {
    hide Seed, Start, Geometric, Blend, Aged;
    var start := Start(values, period).value;
    if j == start {
      GeometricStart(alpha, Seed(values, period));
    } else {
      SmoothingIsGeometric(values, period, alpha, j - 1);
      DecayedStep(values, alpha, start + 1, j - 1);
      var later := Decayed(values, alpha, start + 1, j - 1);
      GeometricStep(alpha, j - 1 - start, Seed(values, period), later, values[j].value);
    }
  }

  /** The true range is the length of the smallest interval that holds the candle and the
      previous close. */
  lemma TrueRangeIsTheHull(cs: seq<Candle>, i: nat)
    requires 1 <= i < |cs| && cs[i].low <= cs[i].high
    ensures TrueRange(cs, i) == Max(cs[i].high, cs[i - 1].close) - Min(cs[i].low, cs[i - 1].close)
  {
  }

  // --- Directional movement -----------------------------------------------------

  /** What a parsed kline guarantees of its prices. */
  predicate WellFormed(cs: seq<Candle>) {
    forall i :: 0 <= i < |cs| ==> cs[i].low <= cs[i].close <= cs[i].high
  }

  /** In one candle the two moves are not negative and never exceed the true range. */
  lemma MovesFitTheTrueRange(cs: seq<Candle>, i: nat)
    requires WellFormed(cs) && 1 <= i < |cs|
    ensures UpMove(cs, i) >= 0.0 && DownMove(cs, i) >= 0.0
    ensures UpMove(cs, i) + DownMove(cs, i) <= TrueRange(cs, i)
  {
  }

  function BothMoves(cs: seq<Candle>): (s: Series)
    ensures IsSum(UpMoves(cs), DownMoves(cs), s)
  {
    seq(|cs|, i requires 0 <= i < |cs| => if i == 0 then None else Some(UpMove(cs, i) + DownMove(cs, i)))
  }

  lemma SharesAreBounded(u: real, d: real, t: real)
    requires u >= 0.0 && d >= 0.0 && u + d <= t
    ensures Share(u, t) >= 0.0 && Share(d, t) >= 0.0 && Share(u, t) + Share(d, t) <= 100.0
  {
    if t != 0.0 {
      DivBounds(0.0, 100.0 * u, t);
      DivBounds(0.0, 100.0 * d, t);
      QuotientsAdd(100.0 * u, 100.0 * d, t);
      DivBoundsAbove(100.0, 100.0 * u + 100.0 * d, t);
    }
  }

  lemma MoveSeriesFit(cs: seq<Candle>, j: nat)
    requires WellFormed(cs)
    ensures IsBelow(BothMoves(cs), TrueRanges(cs)) && AtLeast(UpMoves(cs), 0.0, j) && AtLeast(DownMoves(cs), 0.0, j)
  {
    hide UpMove, DownMove, TrueRange;
    forall i | 1 <= i < |cs|
      ensures UpMove(cs, i) >= 0.0 && DownMove(cs, i) >= 0.0 && UpMove(cs, i) + DownMove(cs, i) <= TrueRange(cs, i)
    {
      MovesFitTheTrueRange(cs, i);
    }
  }

  /** The smoothed moves and range of one row. */
  lemma SmoothedMovesFit(cs: seq<Candle>, period: nat, j: nat)
    requires WellFormed(cs) && period >= 1 && j < |cs| && Atr(cs, period)[j].Some?
    ensures
      var (up, down, range) := (Wilder(UpMoves(cs), period)[j], Wilder(DownMoves(cs), period)[j], Atr(cs, period)[j]);
      up.Some? && down.Some? && up.value >= 0.0 && down.value >= 0.0 && up.value + down.value <= range.value
  {
    MoveSeriesFit(cs, j);
    hide EmaAt, UpMoves, DownMoves, TrueRanges, BothMoves, IsBelow, IsSum, AtLeast;
    PartsFitTheWhole(UpMoves(cs), DownMoves(cs), BothMoves(cs), TrueRanges(cs), period, j);
  }

  /** Two non-negative series whose sum stays below a third do so after smoothing. */
  lemma PartsFitTheWhole(a: Series, b: Series, both: Series, whole: Series, period: nat, j: nat)
    requires IsSum(a, b, both) && IsBelow(both, whole) && AtLeast(a, 0.0, j) && AtLeast(b, 0.0, j)
    requires period >= 1 && j < |a| && EmaAt(whole, period, 1.0 / period as real, j).Some?
    ensures
      var alpha := 1.0 / period as real;
      var (x, y, z) := (EmaAt(a, period, alpha, j), EmaAt(b, period, alpha, j), EmaAt(whole, period, alpha, j));
      x.Some? && y.Some? && x.value >= 0.0 && y.value >= 0.0 && x.value + y.value <= z.value
  {
    WilderRateIsValid(period);
    WilderOfNonnegative(a, period, j);
    WilderOfNonnegative(b, period, j);
    hide EmaAt, AtLeast;
    SmoothingIsMonotone(both, whole, period, 1.0 / period as real, j);
    SmoothingIsAdditive(a, b, both, period, 1.0 / period as real, j);
  }

  /** DIRECTIONAL BOUND: wherever the ATR is defined so are both DI values; neither is
      negative and together they never exceed 100. */
  lemma DirectionalIndexesAreBounded(cs: seq<Candle>, period: nat, j: nat)
    requires WellFormed(cs) && period >= 1 && j < |cs| && Atr(cs, period)[j].Some?
    ensures PlusDi(cs, period)[j].Some? && MinusDi(cs, period)[j].Some?
    ensures PlusDi(cs, period)[j].value >= 0.0 && MinusDi(cs, period)[j].value >= 0.0
    ensures PlusDi(cs, period)[j].value + MinusDi(cs, period)[j].value <= 100.0
  {
    SmoothedMovesFit(cs, period, j);
    hide Wilder, Atr, Share, UpMoves, DownMoves, WellFormed;
    SharesAreBounded(
      Wilder(UpMoves(cs), period)[j].value, Wilder(DownMoves(cs), period)[j].value, Atr(cs, period)[j].value);
  }

  lemma DxIsBounded(plus: real, minus: real)
    requires plus >= 0.0 && minus >= 0.0
    ensures 0.0 <= DxOf(plus, minus) <= 100.0
  {
    var t := plus + minus;
    if t != 0.0 {
      DivBounds(0.0, 100.0 * Abs(plus - minus), t);
      DivBoundsAbove(100.0, 100.0 * Abs(plus - minus), t);
    }
  }

  lemma DxRowIsBounded(cs: seq<Candle>, period: nat, i: nat)
    requires WellFormed(cs) && period >= 1 && i < |cs| && Dx(cs, period)[i].Some?
    ensures 0.0 <= Dx(cs, period)[i].value <= 100.0
  {
    hide DxOf, Share, Wilder, UpMoves, DownMoves, WellFormed, Atr;
    assert PlusDi(cs, period)[i].Some? && MinusDi(cs, period)[i].Some? && Atr(cs, period)[i].Some?;
    DirectionalIndexesAreBounded(cs, period, i);
    DxIsBounded(PlusDi(cs, period)[i].value, MinusDi(cs, period)[i].value);
  }

  /** ADX BOUND: every defined ADX row lies between 0 and 100. */
  lemma AdxIsBounded(cs: seq<Candle>, period: nat, j: nat)
    requires WellFormed(cs) && period >= 1 && j < |cs|
    ensures Adx(cs, period)[j].Some? ==> 0.0 <= Adx(cs, period)[j].value <= 100.0
  {
    var dx := Dx(cs, period);
    WilderRateIsValid(period);
    hide Dx, EmaAt, WellFormed;
    forall i | 0 <= i < |dx| && dx[i].Some? ensures 0.0 <= dx[i].value <= 100.0 {
      DxRowIsBounded(cs, period, i);
    }
    if Adx(cs, period)[j].Some? {
      EmaStaysBetween(dx, period, 1.0 / period as real, j, 0.0, 100.0);
    }
  }

  // --- RSI ------------------------------------------------------------------------

  lemma RsiValueIsBounded(avgGain: real, avgLoss: real)
    requires avgGain >= 0.0 && avgLoss >= 0.0
    ensures 0.0 <= RsiValue(avgGain, avgLoss) <= 100.0
    ensures RsiValue(avgGain, avgLoss) == 100.0 <==> avgLoss == 0.0 < avgGain
    ensures RsiValue(avgGain, avgLoss) == 0.0 <==> avgGain == 0.0 < avgLoss
  {
    if avgGain > 0.0 && avgLoss > 0.0 {
      RatioIsPositive(avgGain, avgLoss);
      var d := 1.0 + avgGain / avgLoss;
      RatioIsPositive(100.0, d);
      DivBounds(100.0, 100.0, d);
    }
  }

  /** RSI is the share of gains in all movement, in percent. */
  lemma RsiIsTheGainShare(avgGain: real, avgLoss: real)
    requires avgGain >= 0.0 && avgLoss >= 0.0 && avgGain + avgLoss > 0.0
    ensures RsiValue(avgGain, avgLoss) == 100.0 * avgGain / (avgGain + avgLoss)
  {
    var total := avgGain + avgLoss;
    if avgGain > 0.0 && avgLoss > 0.0 {
      RatioIsPositive(avgGain, avgLoss);
      var rs := avgGain / avgLoss;
      assert rs * avgLoss == avgGain;
      var loss := 100.0 / (1.0 + rs);
      assert loss * (1.0 + rs) == 100.0;
      assert loss * (avgLoss + rs * avgLoss) == 100.0 * avgLoss by {
        assert loss * (avgLoss + rs * avgLoss) == loss * (1.0 + rs) * avgLoss;
      }
      QuotientIs(100.0 - loss, 100.0 * avgGain, total);
    } else if avgLoss == 0.0 {
      QuotientIs(100.0, 100.0 * avgGain, total);
    } else {
      QuotientIs(0.0, 100.0 * avgGain, total);
    }
  }

  lemma QuotientIs(q: real, x: real, n: real)
    requires n > 0.0 && q * n == x
    ensures x / n == q
  {
    assert x / n * n == x;
    if x / n < q {
      MulStrict(x / n, q, n);
    } else if q < x / n {
      MulStrict(q, x / n, n);
    }
  }

  predicate Silent(values: Series, j: nat) {
    forall i :: 0 <= i < |values| && i <= j && values[i].Some? ==> values[i].value == 0.0
  }

  lemma {:induction false} SumIsZeroExactlyWhen(values: Series, at: seq<nat>)
    requires forall k :: 0 <= k < |at| ==> at[k] < |values| && values[at[k]].Some? && values[at[k]].value >= 0.0
    ensures SumAt(values, at) >= 0.0
    ensures SumAt(values, at) == 0.0 <==> forall k :: 0 <= k < |at| ==> values[at[k]].value == 0.0
  {
    if at != [] {
      SumIsZeroExactlyWhen(values, at[..|at| - 1]);
      assert forall k :: 0 <= k < |at| - 1 ==> at[..|at| - 1][k] == at[k];
    }
  }

  lemma SeedRowsAreAll(values: Series, period: nat, i: nat)
    requires period >= 1 && Start(values, period).Some? && i <= Start(values, period).value && values[i].Some?
    ensures i in SeedRows(values, period)
  {
    ValidIsExact(values, |values|);
    var valid := ValidBelow(values, |values|);
    var k :| 0 <= k < |valid| && valid[k] == i;
    ValidAscends(values, k, period - 1);
    assert SeedRows(values, period)[k] == i;
  }

  lemma ValidAscends(values: Series, k: nat, m: nat)
    requires k < |ValidBelow(values, |values|)| && m < |ValidBelow(values, |values|)|
    requires ValidBelow(values, |values|)[k] <= ValidBelow(values, |values|)[m]
    ensures k <= m
  {
    ValidIsExact(values, |values|);
    hide ValidBelow;
  }

  lemma SeedIsZeroExactlyWhen(values: Series, period: nat)
    requires period >= 1 && Start(values, period).Some? && AtLeast(values, 0.0, Start(values, period).value)
    ensures Seed(values, period) == 0.0 <==> Silent(values, Start(values, period).value)
  {
    var (at, start) := (SeedRows(values, period), Start(values, period).value);
    SeedIsMeanOfRows(values, period);
    SumIsZeroExactlyWhen(values, at);
    forall i | 0 <= i <= start && values[i].Some? ensures i in at {
      SeedRowsAreAll(values, period, i);
    }
    assert Silent(values, start) <==> forall k :: 0 <= k < |at| ==> values[at[k]].value == 0.0;
    hide *;
    QuotientIsZeroExactlyWhen(SumAt(values, at), period as real);
  }

  lemma QuotientIsZeroExactlyWhen(x: real, n: real)
    requires n > 0.0
    ensures x / n == 0.0 <==> x == 0.0
  {
    assert x / n * n == x;
  }

  lemma ProductIsZeroExactlyWhen(a: real, x: real)
    requires a > 0.0 && x >= 0.0
    ensures a * x >= 0.0 && (a * x == 0.0 <==> x == 0.0)
  {
    if x > 0.0 {
      assert a * x > 0.0;
    }
  }

  lemma BlendIsZeroExactlyWhen(alpha: real, x: real, prev: real)
    requires 0.0 < alpha < 1.0 && x >= 0.0 && prev >= 0.0
    ensures Blend(alpha, x, prev) == 0.0 <==> x == 0.0 && prev == 0.0
  {
    ProductIsZeroExactlyWhen(alpha, x);
    ProductIsZeroExactlyWhen(1.0 - alpha, prev);
  }

  /** Wilder's average never forgets: over non-negative inputs it is zero exactly while
      every input so far was zero. */
  lemma {:induction false} SmoothedIsZeroExactlyWhen(values: Series, period: nat, alpha: real, j: nat)
    requires period >= 1 && j < |values| && 0.0 < alpha < 1.0 && AtLeast(values, 0.0, j)
    requires EmaAt(values, period, alpha, j).Some?
    ensures EmaAt(values, period, alpha, j).value == 0.0 <==> Silent(values, j)
  {
    hide Seed, Blend;
    if j == Start(values, period).value {
      SeedIsZeroExactlyWhen(values, period);
    } else {
      hide Start;
      SmoothedIsZeroExactlyWhen(values, period, alpha, j - 1);
      EmaStaysBetween(values, period, alpha, j - 1, 0.0, 0.0);
      BlendIsZeroExactlyWhen(alpha, values[j].value, EmaAt(values, period, alpha, j - 1).value);
    }
  }

  predicate NeverRises(closes: seq<real>, j: nat)
    requires j < |closes|
  {
    forall i :: 0 <= i < j ==> closes[i + 1] <= closes[i]
  }

  predicate NeverFalls(closes: seq<real>, j: nat)
    requires j < |closes|
  {
    forall i :: 0 <= i < j ==> closes[i] <= closes[i + 1]
  }

  lemma GainsAreSilentExactlyWhen(closes: seq<real>, j: nat)
    requires 1 <= j < |closes|
    ensures Silent(Gains(closes), j - 1) <==> NeverRises(closes, j)
    ensures Silent(Losses(closes), j - 1) <==> NeverFalls(closes, j)
    ensures AtLeast(Gains(closes), 0.0, j - 1) && AtLeast(Losses(closes), 0.0, j - 1)
  {
    assert forall i :: 0 <= i < j ==>
        Gains(closes)[i] == Some(Gain(closes, i)) && Losses(closes)[i] == Some(Loss(closes, i));
    if Silent(Gains(closes), j - 1) {
      forall i | 0 <= i < j ensures closes[i + 1] <= closes[i] {
        assert Gains(closes)[i].value == 0.0;
      }
    }
    if Silent(Losses(closes), j - 1) {
      forall i | 0 <= i < j ensures closes[i] <= closes[i + 1] {
        assert Losses(closes)[i].value == 0.0;
      }
    }
  }

  predicate RsiReads(closes: seq<real>, j: nat, r: real)
    requires j < |closes|
  {
    && (r == 100.0 <==> NeverFalls(closes, j) && !NeverRises(closes, j))
    && (r == 0.0 <==> NeverRises(closes, j) && !NeverFalls(closes, j))
    && (NeverRises(closes, j) && NeverFalls(closes, j) ==> r == 50.0)
  }

  lemma DefinedRsiReads(closes: seq<real>, period: nat, j: nat)
    requires period >= 2 && j < |closes| && Rsi(closes, period)[j].Some?
    ensures RsiReads(closes, j, Rsi(closes, period)[j].value)
  {
    var alpha := 1.0 / period as real;
    WilderRateIsValid(period);
    RateIsProper(period);
    GainsAreSilentExactlyWhen(closes, j);
    hide Silent, NeverRises, NeverFalls, Gains, Losses, EmaAt;
    WilderOfNonnegative(Gains(closes), period, j - 1);
    WilderOfNonnegative(Losses(closes), period, j - 1);
    SmoothedIsZeroExactlyWhen(Gains(closes), period, alpha, j - 1);
    SmoothedIsZeroExactlyWhen(Losses(closes), period, alpha, j - 1);
    RsiValueIsBounded(
      EmaAt(Gains(closes), period, alpha, j - 1).value, EmaAt(Losses(closes), period, alpha, j - 1).value);
  }

  lemma DefinedRsiIsInRange(closes: seq<real>, period: nat, j: nat)
    requires period >= 1 && j < |closes| && Rsi(closes, period)[j].Some?
    ensures 0.0 <= Rsi(closes, period)[j].value <= 100.0
  {
    var alpha := 1.0 / period as real;
    hide EmaAt;
    WilderOfNonnegative(Gains(closes), period, j - 1);
    WilderOfNonnegative(Losses(closes), period, j - 1);
    RsiValueIsBounded(
      EmaAt(Gains(closes), period, alpha, j - 1).value, EmaAt(Losses(closes), period, alpha, j - 1).value);
  }

  /** RSI BOUND for every period, and what its extremes mean where the average keeps the
      past (a period of at least 2): 100 says the closes never fell and rose at least once
      since the series began, 0 the mirror image; a flat series gives 50. */
  lemma RsiIsBounded(closes: seq<real>, period: nat, j: nat)
    requires period >= 1 && j < |closes|
    ensures Rsi(closes, period)[j].Some? ==> 0.0 <= Rsi(closes, period)[j].value <= 100.0
    ensures period >= 2 && Rsi(closes, period)[j].Some? ==> RsiReads(closes, j, Rsi(closes, period)[j].value)
  {
    hide RsiReads, Rsi;
    if Rsi(closes, period)[j].Some? {
      DefinedRsiIsInRange(closes, period, j);
      if period >= 2 {
        DefinedRsiReads(closes, period, j);
      }
    }
  }

  lemma RateIsProper(period: nat)
    requires period >= 2
    ensures 1.0 / period as real < 1.0
  {
    assert 1.0 / period as real * period as real == 1.0;
    DivBounds(1.0, 1.0, period as real);
  }

  // --- Warm-up --------------------------------------------------------------------

  /** The rows of `s` are defined exactly from row `n` on. */
  predicate DefinedFrom(s: Series, n: nat) {
    forall j :: 0 <= j < |s| ==> (s[j].Some? <==> j >= n)
  }

  function RowsFrom(n: nat, m: nat): (rows: seq<nat>)
    ensures |rows| == if m <= n then 0 else m - n
    ensures forall k :: 0 <= k < |rows| ==> rows[k] == n + k
  {
    if m <= n then [] else RowsFrom(n, m - 1) + [m - 1]
  }

  lemma {:induction false} ValidOfDefinedFrom(s: Series, n: nat, m: nat)
    requires DefinedFrom(s, n) && m <= |s|
    ensures ValidBelow(s, m) == RowsFrom(n, m)
  {
    if m > 0 {
      ValidOfDefinedFrom(s, n, m - 1);
    }
  }

  /** A series without gaps from row `n` is seeded at row `n + period - 1`. */
  lemma StartOfDefinedFrom(s: Series, n: nat, period: nat)
    requires DefinedFrom(s, n) && period >= 1
    ensures Start(s, period) == if n + period <= |s| then Some(n + period - 1) else None
  {
    ValidOfDefinedFrom(s, n, |s|);
  }

  lemma {:induction false} SmoothedRowIsDefinedExactlyWhen(s: Series, n: nat, period: nat, alpha: real, j: nat)
    requires DefinedFrom(s, n) && period >= 1 && j < |s|
    ensures EmaAt(s, period, alpha, j).Some? <==> j >= n + period - 1
  {
    StartOfDefinedFrom(s, n, period);
    hide Seed, Blend, Start;
    if j > n + period - 1 {
      SmoothedRowIsDefinedExactlyWhen(s, n, period, alpha, j - 1);
    }
  }

  lemma SmoothingDelays(s: Series, n: nat, period: nat, alpha: real)
    requires DefinedFrom(s, n) && period >= 1
    ensures DefinedFrom(Ema(s, period, alpha), n + period - 1)
  {
    hide EmaAt;
    forall j | 0 <= j < |s| ensures EmaAt(s, period, alpha, j).Some? <==> j >= n + period - 1 {
      SmoothedRowIsDefinedExactlyWhen(s, n, period, alpha, j);
    }
  }

  /** WARM-UP, exactly as tabulated: EMA n from its n-th candle, RSI and ATR from the
      15th, the MACD histogram from the 34th, ADX from the 28th, the bands and the volume
      average from the 20th -- and no gap after, but for the ratio to a zero volume. */
  lemma WarmUpIsExact(cs: seq<Candle>, root: real -> real)
    ensures
      var closes := Closes(cs);
      && (forall n :: n in {20, 50, 200} ==> DefinedFrom(Ema(Defined(closes), n, Standard(n)), n - 1))
      && DefinedFrom(Rsi(closes, 14), 14) && DefinedFrom(Atr(cs, 14), 14)
      && DefinedFrom(MacdLine(closes), 25) && DefinedFrom(MacdSignal(closes), 33)
      && DefinedFrom(MacdHistogram(closes), 33)
      && DefinedFrom(PlusDi(cs, 14), 14) && DefinedFrom(MinusDi(cs, 14), 14) && DefinedFrom(Adx(cs, 14), 27)
      && DefinedFrom(RollingMean(closes, 20), 19) && DefinedFrom(Band(closes, 20, 2.0, root), 19)
      && DefinedFrom(Band(closes, 20, -2.0, root), 19) && DefinedFrom(RollingMean(Volumes(cs), 20), 19)
      && (forall j :: 0 <= j < |cs| ==>
            (VolumeRatio(Volumes(cs), 20)[j].Some?
             <==> j >= 19 && RollingMean(Volumes(cs), 20)[j] != Some(0.0)))
  {
    hide EmaAt, Ema, RsiValue, Share, DxOf, MeanAt, BandAt;
    var closes := Closes(cs);
    forall n | n in {20, 50, 200} ensures DefinedFrom(Ema(Defined(closes), n, Standard(n)), n - 1) {
      SmoothingDelays(Defined(closes), 0, n, Standard(n));
    }
    MacdWarmUp(closes);
    RsiWarmUp(closes);
    AdxWarmUp(cs);
  }

  lemma MacdWarmUp(closes: seq<real>)
    ensures DefinedFrom(MacdLine(closes), 25) && DefinedFrom(MacdSignal(closes), 33)
    ensures DefinedFrom(MacdHistogram(closes), 33)
  {
    hide EmaAt, Ema;
    SmoothingDelays(Defined(closes), 0, 12, Standard(12));
    SmoothingDelays(Defined(closes), 0, 26, Standard(26));
    SmoothingDelays(MacdLine(closes), 25, 9, Standard(9));
  }

  lemma RsiWarmUp(closes: seq<real>)
    ensures DefinedFrom(Rsi(closes, 14), 14)
  {
    hide EmaAt, RsiValue;
    forall j | 0 < j < |closes| ensures Rsi(closes, 14)[j].Some? <==> j >= 14 {
      SmoothedRowIsDefinedExactlyWhen(Gains(closes), 0, 14, 1.0 / 14.0, j - 1);
      SmoothedRowIsDefinedExactlyWhen(Losses(closes), 0, 14, 1.0 / 14.0, j - 1);
    }
  }

  lemma AdxWarmUp(cs: seq<Candle>)
    ensures DefinedFrom(Atr(cs, 14), 14) && DefinedFrom(PlusDi(cs, 14), 14) && DefinedFrom(MinusDi(cs, 14), 14)
    ensures DefinedFrom(Adx(cs, 14), 27)
  {
    hide EmaAt, Ema, Share, DxOf;
    SmoothingDelays(TrueRanges(cs), 1, 14, 1.0 / 14.0);
    SmoothingDelays(UpMoves(cs), 1, 14, 1.0 / 14.0);
    SmoothingDelays(DownMoves(cs), 1, 14, 1.0 / 14.0);
    SmoothingDelays(Dx(cs, 14), 14, 14, 1.0 / 14.0);
  }
}
