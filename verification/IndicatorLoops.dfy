/** The array loops of binance/indicators.py, each proved to fill its array with the
    series it is meant to be. */
module IndicatorLoops {
  import opened Common
  import opened Indicators
  import opened IndicatorLaws

  function FirstRows(n: nat): (at: seq<nat>)
    ensures |at| == n && forall k :: 0 <= k < n ==> at[k] == k
  {
    seq(n, k requires 0 <= k < n => k)
  }

  /** A gapless series is seeded with the mean of its first `period` rows. */
  lemma GaplessSeed(s: Series, period: nat)
    requires DefinedFrom(s, 0) && 1 <= period <= |s|
    ensures Start(s, period) == Some(period - 1)
    ensures Seed(s, period) == SumAt(s, FirstRows(period)) / period as real
  {
    StartOfDefinedFrom(s, 0, period);
    ValidOfDefinedFrom(s, 0, |s|);
    SeedIsMeanOfRows(s, period);
    assert SeedRows(s, period) == FirstRows(period) by {
      hide ValidBelow, RowsFrom, SumAt, Start;
    }
  }

  lemma WilderStep(avg: real, x: real, period: nat)
    requires period >= 1
    ensures (avg * (period as real - 1.0) + x) / period as real == Blend(1.0 / period as real, x, avg)
  {
    var n := period as real;
    var a := 1.0 / n;
    assert a * n == 1.0;
    assert Blend(a, x, avg) * n == (a * n) * x + avg * n - (a * n) * avg;
  }

  /** One of the two averages of the RSI loop: `mean` over the first rows, then the
      Wilder recurrence on the newest row. */
  lemma AverageContinues(s: Series, period: nat, i: nat, avg: real)
    requires DefinedFrom(s, 0) && 1 <= period <= i < |s|
    requires EmaAt(s, period, 1.0 / period as real, i - 1) == Some(avg)
    ensures EmaAt(s, period, 1.0 / period as real, i) ==
        Some((avg * (period as real - 1.0) + s[i].value) / period as real)
  {
    GaplessSeed(s, period);
    WilderStep(avg, s[i].value, period);
    hide Seed, Blend, Start;
  }

  lemma AverageStarts(s: Series, period: nat, mean: real)
    requires DefinedFrom(s, 0) && 1 <= period <= |s| && mean == SumAt(s, FirstRows(period)) / period as real
    ensures EmaAt(s, period, 1.0 / period as real, period - 1) == Some(mean)
  {
    GaplessSeed(s, period);
  }

  lemma NoRsiBeforeTheFirst(closes: seq<real>, period: nat, j: nat)
    requires period >= 1 && j < |closes| && (j < period || |closes| < period + 1)
    ensures RsiAt(closes, period, j).None?
  {
    if j > 0 {
      SmoothedRowIsDefinedExactlyWhen(Gains(closes), 0, period, 1.0 / period as real, j - 1);
    }
  }

  /** `_rsi_series`. */
  method RsiSeries(closes: seq<real>, period: nat) returns (out: array<Option<real>>)
    requires period >= 1
    ensures fresh(out) && out[..] == Rsi(closes, period)
  {
    hide EmaAt, RsiValue, RsiAt, Gains, Losses;
    MovesHaveNoGaps(closes);
    var n := |closes|;
    out := new Option<real>[n](_ => None);
    forall j | 0 <= j < n && (j < period || n < period + 1) ensures RsiAt(closes, period, j).None? {
      NoRsiBeforeTheFirst(closes, period, j);
    }
    if n < period + 1 {
      return;
    }
    var gains, losses := Gains(closes), Losses(closes);
    var avgGain := MeanOf(gains, FirstRows(period));
    var avgLoss := MeanOf(losses, FirstRows(period));
    AverageStarts(gains, period, avgGain);
    AverageStarts(losses, period, avgLoss);
    RsiRow(closes, period, period, avgGain, avgLoss);
    out[period] := Some(RsiValue(avgGain, avgLoss));
    for i := period + 1 to n
      invariant forall j :: 0 <= j < i ==> out[j] == RsiAt(closes, period, j)
      invariant EmaAt(gains, period, 1.0 / period as real, i - 2) == Some(avgGain)
      invariant EmaAt(losses, period, 1.0 / period as real, i - 2) == Some(avgLoss)
    {
      AverageContinues(gains, period, i - 1, avgGain);
      AverageContinues(losses, period, i - 1, avgLoss);
      avgGain := (avgGain * (period as real - 1.0) + gains[i - 1].value) / period as real;
      avgLoss := (avgLoss * (period as real - 1.0) + losses[i - 1].value) / period as real;
      RsiRow(closes, period, i, avgGain, avgLoss);
      out[i] := Some(RsiValue(avgGain, avgLoss));
    }
  }

  lemma MovesHaveNoGaps(closes: seq<real>)
    ensures closes != [] ==> DefinedFrom(Gains(closes), 0) && DefinedFrom(Losses(closes), 0)
  {
  }

  lemma RsiRow(closes: seq<real>, period: nat, j: nat, avgGain: real, avgLoss: real)
    requires period >= 1 && 1 <= j < |closes|
    requires EmaAt(Gains(closes), period, 1.0 / period as real, j - 1) == Some(avgGain)
    requires EmaAt(Losses(closes), period, 1.0 / period as real, j - 1) == Some(avgLoss)
    ensures avgGain >= 0.0 && avgLoss >= 0.0
    ensures RsiAt(closes, period, j) == Some(RsiValue(avgGain, avgLoss))
  {
    hide EmaAt, RsiValue;
    WilderOfNonnegative(Gains(closes), period, j - 1);
    WilderOfNonnegative(Losses(closes), period, j - 1);
  }

  /** `_true_range_series`: row 0 has no previous close and stays missing. */
  method TrueRangeSeries(cs: seq<Candle>) returns (out: array<Option<real>>)
    ensures fresh(out) && out[..] == TrueRanges(cs)
  {
    out := new Option<real>[|cs|](_ => None);
    var i := 1;
    while i < |cs|
      invariant 1 <= i
      invariant forall j :: 0 <= j < |cs| && j < i ==> out[j] == TrueRanges(cs)[j]
      invariant forall j :: i <= j < |cs| ==> out[j].None?
    {
      var range := cs[i].high - cs[i].low;
      range := Max(range, Abs(cs[i].high - cs[i - 1].close));
      range := Max(range, Abs(cs[i].low - cs[i - 1].close));
      out[i] := Some(range);
      i := i + 1;
    }
  }

  /** The raw moves: at most one of the two is positive in a row. */
  method RawMoves(cs: seq<Candle>) returns (up: array<Option<real>>, down: array<Option<real>>)
    ensures fresh(up) && fresh(down) && up != down
    ensures up[..] == UpMoves(cs) && down[..] == DownMoves(cs)
  {
    up := new Option<real>[|cs|](_ => None);
    down := new Option<real>[|cs|](_ => None);
    var i := 1;
    while i < |cs|
      invariant 1 <= i
      invariant forall j :: 0 <= j < |cs| && j < i ==> up[j] == UpMoves(cs)[j] && down[j] == DownMoves(cs)[j]
    {
      var rise := cs[i].high - cs[i - 1].high;
      var fall := cs[i - 1].low - cs[i].low;
      up[i] := Some(if rise > fall && rise > 0.0 then rise else 0.0);
      down[i] := Some(if fall > rise && fall > 0.0 then fall else 0.0);
      i := i + 1;
    }
  }

  lemma SmoothedMasksAgree(cs: seq<Candle>, period: nat)
    requires period >= 1
    ensures SameMask(Wilder(UpMoves(cs), period), Atr(cs, period))
    ensures SameMask(Wilder(DownMoves(cs), period), Atr(cs, period))
  {
    hide Ema, EmaAt, UpMove, DownMove, TrueRange;
    SmoothingKeepsMasksAlike(UpMoves(cs), TrueRanges(cs), period, 1.0 / period as real);
    SmoothingKeepsMasksAlike(DownMoves(cs), TrueRanges(cs), period, 1.0 / period as real);
  }

  lemma SmoothingKeepsMasksAlike(a: Series, b: Series, period: nat, alpha: real)
    requires SameMask(a, b) && period >= 1
    ensures SameMask(Ema(a, period, alpha), Ema(b, period, alpha))
  {
    hide EmaAt;
    forall j | 0 <= j < |a| ensures EmaAt(a, period, alpha, j).None? <==> EmaAt(b, period, alpha, j).None? {
      MaskDecidesGaps(a, b, period, alpha, j);
    }
  }

  /** `_adx_series`: smooth the moves, form the indexes row by row, smooth once more. */
  method AdxSeries(cs: seq<Candle>, period: nat)
    returns (adx: array<Option<real>>, plusDi: array<Option<real>>, minusDi: array<Option<real>>)
    requires period >= 1
    ensures fresh(adx) && fresh(plusDi) && fresh(minusDi)
    ensures adx[..] == Adx(cs, period) && plusDi[..] == PlusDi(cs, period) && minusDi[..] == MinusDi(cs, period)
  {
    SmoothedMasksAgree(cs, period);
    hide Ema, SameMask, TrueRanges, UpMoves, DownMoves, Directional, Combine;
    var ranges := TrueRangeSeries(cs);
    var up, down := RawMoves(cs);
    var alpha := 1.0 / period as real;
    var smoothRange := EmaArray(ranges[..], period, alpha);
    var smoothUp := EmaArray(up[..], period, alpha);
    var smoothDown := EmaArray(down[..], period, alpha);
    var dx;
    plusDi, minusDi, dx := Indexes(smoothUp[..], smoothDown[..], smoothRange[..]);
    adx := EmaArray(dx[..], period, alpha);
  }

  method Indexes(up: Series, down: Series, ranges: Series)
    returns (plusDi: array<Option<real>>, minusDi: array<Option<real>>, dx: array<Option<real>>)
    requires SameMask(up, ranges) && SameMask(down, ranges)
    ensures fresh(plusDi) && fresh(minusDi) && fresh(dx)
    ensures plusDi[..] == Directional(up, ranges) && minusDi[..] == Directional(down, ranges)
    ensures dx[..] == Combine(Directional(up, ranges), Directional(down, ranges))
  {
    var n := |ranges|;
    plusDi := new Option<real>[n](_ => None);
    minusDi := new Option<real>[n](_ => None);
    dx := new Option<real>[n](_ => None);
    hide Share;
    for i := 0 to n
      invariant plusDi != minusDi && minusDi != dx && plusDi != dx
      invariant forall j :: 0 <= j < i ==>
          plusDi[j] == Directional(up, ranges)[j] && minusDi[j] == Directional(down, ranges)[j]
      invariant forall j :: 0 <= j < i ==> dx[j] == Combine(Directional(up, ranges), Directional(down, ranges))[j]
      invariant forall j :: i <= j < n ==> plusDi[j].None? && minusDi[j].None? && dx[j].None?
    {
      if ranges[i].Some? {
        var plus := Share(up[i].value, ranges[i].value);
        var minus := Share(down[i].value, ranges[i].value);
        plusDi[i] := Some(plus);
        minusDi[i] := Some(minus);
        dx[i] := Some(Share(Abs(plus - minus), plus + minus));
      }
    }
  }
}
