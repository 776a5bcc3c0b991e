/** What each indicator column says, row by row, in terms of smoothed moves and explicit
    rates, and which column of the matrix it is. */
module IndicatorMeaning {
  import opened Common
  import opened Indicators
  import opened Causality
  import opened IndicatorLaws
  import opened Rolling

  // --- Averages -----------------------------------------------------------------------

  function Total(xs: seq<real>): real {
    if xs == [] then 0.0 else xs[0] + Total(xs[1..])
  }

  lemma {:induction false} TotalAppends(xs: seq<real>, x: real)
    ensures Total(xs + [x]) == Total(xs) + x
  {
    if xs == [] {
      assert (xs + [x])[1..] == [];
    } else {
      assert (xs + [x])[1..] == xs[1..] + [x];
      TotalAppends(xs[1..], x);
    }
  }

  /** `at` lists the first filled rows, ascending. */
  ghost predicate FirstFilled(values: Series, at: seq<nat>) {
    && (forall k :: 0 <= k < |at| ==> at[k] < |values| && values[at[k]].Some?)
    && (forall j, k :: 0 <= j < k < |at| ==> at[j] < at[k])
    && (forall i: nat, k :: 0 <= k < |at| && i < at[k] && values[i].Some? ==> i in at)
  }

  function Picked(values: Series, at: seq<nat>): (xs: seq<real>)
    requires forall k :: 0 <= k < |at| ==> at[k] < |values| && values[at[k]].Some?
    ensures |xs| == |at| && forall k :: 0 <= k < |at| ==> xs[k] == values[at[k]].value
  {
    seq(|at|, k requires 0 <= k < |at| => values[at[k]].value)
  }

  lemma {:induction false} SumIsTotal(values: Series, at: seq<nat>)
    requires forall k :: 0 <= k < |at| ==> at[k] < |values| && values[at[k]].Some?
    ensures SumAt(values, at) == Total(Picked(values, at))
  {
    if at != [] {
      var n := |at| - 1;
      SumIsTotal(values, at[..n]);
      assert Picked(values, at) == Picked(values, at[..n]) + [values[at[n]].value];
      TotalAppends(Picked(values, at[..n]), values[at[n]].value);
    }
  }

  /** There is only one such list of each length: a prefix of all filled rows. */
  lemma {:induction false} FirstFilledIsPrefix(values: Series, at: seq<nat>, all: seq<nat>, k: nat)
    requires FirstFilled(values, at) && Exact(values, |values|, all) && k <= |at|
    ensures k <= |all| && at[..k] == all[..k]
  {
    if k > 0 {
      FirstFilledIsPrefix(values, at, all, k - 1);
      NextFilledIsNext(values, at, all, k - 1);
      hide FirstFilled, Exact;
      assert at[..k] == at[..k - 1] + [at[k - 1]] && all[..k] == all[..k - 1] + [all[k - 1]];
    }
  }

  lemma NextFilledIsNext(values: Series, at: seq<nat>, all: seq<nat>, n: nat)
    requires FirstFilled(values, at) && Exact(values, |values|, all) && n < |at|
    requires n <= |all| && at[..n] == all[..n]
    ensures n < |all| && at[n] == all[n]
  {
    assert forall j :: 0 <= j < n ==> at[..n][j] == all[..n][j];
    assert at[n] in all;
    var m :| 0 <= m < |all| && all[m] == at[n];
    assert m >= n;
    if m > n {
      assert all[n] < at[n] && all[n] in at;
      var p :| 0 <= p < |at| && at[p] == all[n];
    }
  }

  /** SMOOTHING, row by row: nothing before the row of the `period`-th filled value, there the
      mean of the first `period` filled values, and from then on each value at weight alpha
      against the row before; a gap ends it. */
  lemma SmoothingReads(values: Series, period: nat, alpha: real, at: seq<nat>, j: nat)
    requires |at| == period >= 1 && FirstFilled(values, at) && j < |values|
    ensures
      var e := EmaAt(values, period, alpha, j);
      && (j < at[period - 1] ==> e.None?)
      && (j == at[period - 1] ==> e.Some? && e.value * period as real == Total(Picked(values, at)))
      && (j > at[period - 1] ==>
            var before := EmaAt(values, period, alpha, j - 1);
            && (e.Some? <==> before.Some? && values[j].Some?)
            && (e.Some? ==> e.value == alpha * values[j].value + (1.0 - alpha) * before.value))
  {
    hide Start, Seed, Total, Picked, FirstFilled;
    SeedReads(values, period, at);
  }

  lemma SeedReads(values: Series, period: nat, at: seq<nat>)
    requires |at| == period >= 1 && FirstFilled(values, at)
    ensures Start(values, period) == Some(at[period - 1])
    ensures Seed(values, period) * period as real == Total(Picked(values, at))
  {
    hide SumAt, Total, Picked, FirstFilled;
    ValidIsExact(values, |values|);
    FirstFilledIsPrefix(values, at, ValidBelow(values, |values|), period);
    assert at[..period] == at;
    FilledOnly(values, at);
    SumIsTotal(values, at);
    MeanTimes(SumAt(values, at), period, Seed(values, period));
  }

  lemma FilledOnly(values: Series, at: seq<nat>)
    requires FirstFilled(values, at)
    ensures forall k :: 0 <= k < |at| ==> at[k] < |values| && values[at[k]].Some?
  {
  }

  lemma MeanTimes(sum: real, n: nat, mean: real)
    requires n >= 1 && mean == sum / n as real
    ensures mean * n as real == sum
  {
  }

  /** With fewer filled values than the period every row stays missing. */
  lemma ShortSeriesStaysMissing(values: Series, period: nat, alpha: real, j: nat)
    requires period >= 1 && j < |values|
    requires forall at: seq<nat> :: FirstFilled(values, at) ==> |at| != period
    ensures EmaAt(values, period, alpha, j).None?
  {
    ValidIsExact(values, |values|);
    var all := ValidBelow(values, |values|);
    hide ValidBelow;
    if |all| >= period {
      PrefixIsFirstFilled(values, all, period);
    }
  }

  lemma PrefixIsFirstFilled(values: Series, all: seq<nat>, n: nat)
    requires Exact(values, |values|, all) && n <= |all|
    ensures FirstFilled(values, all[..n])
  {
    var at := all[..n];
    forall i: nat, k | 0 <= k < |at| && i < at[k] && values[i].Some? ensures i in at {
      var m :| 0 <= m < |all| && all[m] == i;
      assert m < k && at[m] == i;
    }
  }

  lemma {:induction false} SumOverIsTotal(xs: seq<real>, first: nat, end: nat)
    requires first <= end <= |xs|
    ensures SumOver(xs, first, end) == Total(xs[first..end])
    decreases end
  {
    if first < end {
      SumOverIsTotal(xs, first, end - 1);
      assert xs[first..end] == xs[first..end - 1] + [xs[end - 1]];
      TotalAppends(xs[first..end - 1], xs[end - 1]);
    }
  }

  function Distance(x: real, m: real): real {
    (x - m) * (x - m)
  }

  /** The squared distances of a window from `m`. */
  function Spread(xs: seq<real>, m: real): (ds: seq<real>)
    ensures |ds| == |xs| && forall k :: 0 <= k < |xs| ==> ds[k] == Distance(xs[k], m)
  {
    seq(|xs|, k requires 0 <= k < |xs| => Distance(xs[k], m))
  }

  lemma {:induction false} SquaresAreTotal(xs: seq<real>, m: real, first: nat, end: nat)
    requires first <= end <= |xs|
    ensures SquaresOver(xs, m, first, end) == Total(Spread(xs[first..end], m))
    decreases end
  {
    if first < end {
      SquaresAreTotal(xs, m, first, end - 1);
      var d := Distance(xs[end - 1], m);
      assert SquaresOver(xs, m, first, end) == SquaresOver(xs, m, first, end - 1) + d;
      hide Distance;
      assert Spread(xs[first..end], m) == Spread(xs[first..end - 1], m) + [d];
      TotalAppends(Spread(xs[first..end - 1], m), d);
    }
  }

  /** MEAN AND VARIANCE of the last `period` values, in their own terms. */
  lemma WindowsAverage(xs: seq<real>, period: nat, j: nat)
    requires 1 <= period <= j + 1 <= |xs|
    ensures
      var window := xs[j + 1 - period..j + 1];
      && MeanAt(xs, period, j) * period as real == Total(window)
      && VarianceAt(xs, period, j) * period as real == Total(Spread(window, MeanAt(xs, period, j)))
  {
    hide SumOver, SquaresOver, Total, Spread;
    SumOverIsTotal(xs, j + 1 - period, j + 1);
    SquaresAreTotal(xs, MeanAt(xs, period, j), j + 1 - period, j + 1);
    QuotientTimes(SumOver(xs, j + 1 - period, j + 1), period as real);
    QuotientTimes(SquaresOver(xs, MeanAt(xs, period, j), j + 1 - period, j + 1), period as real);
  }

  lemma QuotientTimes(x: real, y: real)
    requires y != 0.0
    ensures x / y * y == x
  {
  }

  // --- RSI ------------------------------------------------------------------------

  /** Gain and loss split the change of the close: at most one of them is not zero. */
  lemma GainAndLossSplitTheChange(closes: seq<real>, i: nat)
    requires i + 1 < |closes|
    ensures Gain(closes, i) - Loss(closes, i) == closes[i + 1] - closes[i]
    ensures Gain(closes, i) == 0.0 || Loss(closes, i) == 0.0
    ensures |Gains(closes)| == |Losses(closes)| == |closes| - 1
    ensures Gains(closes)[i] == Some(Gain(closes, i)) && Losses(closes)[i] == Some(Loss(closes, i))
  {
  }

  /** A defined RSI row is 100 times the smoothed gain over the smoothed gain plus loss,
      smoothed at rate 1/period up to the row's own close; 50 when nothing moved. */
  lemma RsiReadsGains(closes: seq<real>, period: nat, j: nat)
    requires period >= 1 && j < |closes| && Rsi(closes, period)[j].Some?
    ensures j >= 1
    ensures
      var alpha := 1.0 / period as real;
      var (g, l) := (EmaAt(Gains(closes), period, alpha, j - 1), EmaAt(Losses(closes), period, alpha, j - 1));
      && g.Some? && l.Some?
      && (g.value + l.value > 0.0 ==>
            Rsi(closes, period)[j].value * (g.value + l.value) == 100.0 * g.value)
      && (g.value + l.value == 0.0 ==> Rsi(closes, period)[j].value == 50.0)
  {
    hide EmaAt, RsiValue;
    WilderOfNonnegative(Gains(closes), period, j - 1);
    WilderOfNonnegative(Losses(closes), period, j - 1);
    var alpha := 1.0 / period as real;
    var (g, l) := (EmaAt(Gains(closes), period, alpha, j - 1), EmaAt(Losses(closes), period, alpha, j - 1));
    ShareIsProduct(g.value, l.value, Rsi(closes, period)[j].value);
  }

  lemma ShareIsProduct(g: real, l: real, rsi: real)
    requires g >= 0.0 && l >= 0.0 && rsi == RsiValue(g, l)
    ensures g + l > 0.0 ==> rsi * (g + l) == 100.0 * g
    ensures g + l == 0.0 ==> rsi == 50.0
  {
    if g + l > 0.0 {
      RsiIsTheGainShare(g, l);
      hide RsiValue;
      var total := g + l;
      assert 100.0 * g / total * total == 100.0 * g;
    }
  }

  // --- MACD -----------------------------------------------------------------------

  /** The line is the fast average less the slow one, at rates 2/13 and 2/27; the signal
      smooths the line at 2/10; the histogram is line less signal. */
  lemma MacdReads(closes: seq<real>, j: nat)
    requires j < |closes|
    ensures
      var xs := Defined(closes);
      var (fast, slow) := (EmaAt(xs, 12, 2.0 / 13.0, j), EmaAt(xs, 26, 2.0 / 27.0, j));
      var (line, signal, bar) := (MacdLine(closes)[j], MacdSignal(closes)[j], MacdHistogram(closes)[j]);
      && (line.Some? <==> fast.Some? && slow.Some?)
      && (line.Some? ==> line.value + slow.value == fast.value)
      && signal == EmaAt(MacdLine(closes), 9, 2.0 / 10.0, j)
      && (bar.Some? <==> line.Some? && signal.Some?)
      && (bar.Some? ==> bar.value + signal.value == line.value)
  {
    hide EmaAt;
    assert Standard(12) == 2.0 / 13.0 && Standard(26) == 2.0 / 27.0 && Standard(9) == 2.0 / 10.0;
  }

  // --- Directional movement ----------------------------------------------------------

  /** An up move is a rise of the high that is positive and larger than the fall of the
      low; a down move is the reverse; a candle has at most one of them. */
  lemma MovesRead(cs: seq<Candle>, i: nat)
    requires 1 <= i < |cs|
    ensures
      var (rise, fall) := (cs[i].high - cs[i - 1].high, cs[i - 1].low - cs[i].low);
      var (up, dn) := (UpMove(cs, i), DownMove(cs, i));
      && up >= 0.0 && dn >= 0.0 && (up == 0.0 || dn == 0.0)
      && (up > 0.0 <==> rise > 0.0 && rise > fall) && (up > 0.0 ==> up == rise)
      && (dn > 0.0 <==> fall > 0.0 && fall > rise) && (dn > 0.0 ==> dn == fall)
      && UpMoves(cs)[i] == Some(up) && DownMoves(cs)[i] == Some(dn) && TrueRanges(cs)[i] == Some(TrueRange(cs, i))
    ensures UpMoves(cs)[0].None? && DownMoves(cs)[0].None? && TrueRanges(cs)[0].None?
  {
  }

  /** `x` is `part` in percent of `whole`, and zero when there is no whole. */
  predicate IsShare(x: real, part: real, whole: real) {
    if whole == 0.0 then x == 0.0 else x * whole == 100.0 * part
  }

  lemma ShareReads(part: real, whole: real, x: real)
    requires x == Share(part, whole)
    ensures IsShare(x, part, whole)
  {
    if whole != 0.0 {
      var n := 100.0 * part;
      assert n / whole * whole == n;
    }
  }

  /** +DI and -DI are the smoothed up and down moves in percent of the smoothed true range,
      DX is their difference in percent of their sum, and ADX smooths it, all at 1/period. */
  lemma DirectionalReads(cs: seq<Candle>, period: nat, j: nat)
    requires period >= 1 && j < |cs|
    ensures
      var alpha := 1.0 / period as real;
      var (up, dn, range) := (EmaAt(UpMoves(cs), period, alpha, j), EmaAt(DownMoves(cs), period, alpha, j),
                              EmaAt(TrueRanges(cs), period, alpha, j));
      var (plus, minus, dx) := (PlusDi(cs, period)[j], MinusDi(cs, period)[j], Dx(cs, period)[j]);
      && Atr(cs, period)[j] == range
      && (plus.Some? <==> up.Some? && range.Some?) && (minus.Some? <==> dn.Some? && range.Some?)
      && (plus.Some? ==> IsShare(plus.value, up.value, range.value))
      && (minus.Some? ==> IsShare(minus.value, dn.value, range.value))
      && (dx.Some? <==> plus.Some? && minus.Some?)
      && (dx.Some? ==> IsShare(dx.value, Abs(plus.value - minus.value), plus.value + minus.value))
      && Adx(cs, period)[j] == EmaAt(Dx(cs, period), period, alpha, j)
  {
    hide EmaAt, Share, IsShare;
    var alpha := 1.0 / period as real;
    var (up, dn, range) := (EmaAt(UpMoves(cs), period, alpha, j), EmaAt(DownMoves(cs), period, alpha, j),
                            EmaAt(TrueRanges(cs), period, alpha, j));
    var (plus, minus) := (PlusDi(cs, period)[j], MinusDi(cs, period)[j]);
    if plus.Some? {
      ShareReads(up.value, range.value, plus.value);
    }
    if minus.Some? {
      ShareReads(dn.value, range.value, minus.value);
    }
    if plus.Some? && minus.Some? {
      ShareReads(Abs(plus.value - minus.value), plus.value + minus.value, Dx(cs, period)[j].value);
    }
  }

  // --- The matrix ---------------------------------------------------------------------

  /** REFUSALS, exactly: no candles, the first forming one, or open times out of order. */
  lemma MatrixRefusesExactly(cs: seq<Candle>, root: real -> real)
    ensures
      var r := Matrix(cs, root);
      var closed := forall i :: 0 <= i < |cs| ==> cs[i].isClosed;
      var ascending := forall i :: 0 < i < |cs| ==> cs[i - 1].timestamp < cs[i].timestamp;
      && (r == Failure(EmptyData) <==> cs == [])
      && (forall n: nat :: r == Failure(FormingCandle(n)) <==>
            n < |cs| && !cs[n].isClosed && forall i :: 0 <= i < n ==> cs[i].isClosed)
      && (r == Failure(NotAscending) <==> cs != [] && closed && !ascending)
      && (r.Success? <==> cs != [] && closed && ascending)
  {
    hide Rows;
    FirstFormingIsFirst(cs, 0);
    assert StepwiseAscending(cs) <==> forall i :: 0 < i < |cs| ==> cs[i - 1].timestamp < cs[i].timestamp by {
      if StepwiseAscending(cs) {
        forall i | 0 < i < |cs| ensures cs[i - 1].timestamp < cs[i].timestamp {
          assert cs[i - 1].timestamp < cs[i - 1 + 1].timestamp;
        }
      } else {
        var i :| 0 <= i < |cs| - 1 && cs[i].timestamp >= cs[i + 1].timestamp;
        assert cs[i + 1 - 1].timestamp >= cs[i + 1].timestamp;
      }
    }
  }

  lemma {:induction false} FirstFormingIsFirst(cs: seq<Candle>, from: nat)
    requires from <= |cs|
    ensures
      var r := FirstForming(cs, from);
      r.Some? ==> forall i :: from <= i < r.value ==> cs[i].isClosed
    decreases |cs| - from
  {
    if from < |cs| && cs[from].isClosed {
      FirstFormingIsFirst(cs, from + 1);
    }
  }

  /** The smoothed and directional columns of the matrix, each under its own name. */
  lemma MatrixReads(cs: seq<Candle>, root: real -> real, j: nat)
    requires Matrix(cs, root).Success? && j < |cs|
    ensures |Matrix(cs, root).value| == |cs|
    ensures
      var (row, closes) := (Matrix(cs, root).value[j], Closes(cs));
      && row.ema20 == EmaAt(Defined(closes), 20, 2.0 / 21.0, j)
      && row.ema50 == EmaAt(Defined(closes), 50, 2.0 / 51.0, j)
      && row.ema200 == EmaAt(Defined(closes), 200, 2.0 / 201.0, j)
      && row.rsi14 == Rsi(closes, 14)[j] && row.macd == MacdLine(closes)[j]
      && row.macdSignal == MacdSignal(closes)[j] && row.macdHistogram == MacdHistogram(closes)[j]
      && row.atr14 == Atr(cs, 14)[j] && row.adx14 == Adx(cs, 14)[j]
      && row.plusDi == PlusDi(cs, 14)[j] && row.minusDi == MinusDi(cs, 14)[j]
      && closes[j] == cs[j].close && Defined(closes)[j] == Some(cs[j].close) && Volumes(cs)[j] == cs[j].volume
  {
    hide EmaAt, Rsi, MacdLine, MacdSignal, MacdHistogram, Atr, Adx, PlusDi, MinusDi, RollingMean, Band, VolumeRatio;
    assert Standard(20) == 2.0 / 21.0 && Standard(50) == 2.0 / 51.0 && Standard(200) == 2.0 / 201.0;
  }

  /** The rolling columns: mean and two deviations of the last 20 closes, and the volume
      against the mean of the last 20. */
  lemma RollingColumnsRead(cs: seq<Candle>, root: real -> real, j: nat)
    requires Matrix(cs, root).Success? && j < |cs|
    ensures |Matrix(cs, root).value| == |cs|
    ensures
      var (row, closes) := (Matrix(cs, root).value[j], Closes(cs));
      if j < 19 then
        row.bbMid.None? && row.bbUpper.None? && row.bbLower.None? && row.volumeSma.None? && row.volumeRatio.None?
      else
        var (mid, sd, volume) := (MeanAt(closes, 20, j), root(VarianceAt(closes, 20, j)), MeanAt(Volumes(cs), 20, j));
        && row.bbMid == Some(mid) && row.bbUpper.Some? && row.bbLower.Some?
        && row.bbUpper.value - mid == 2.0 * sd && mid - row.bbLower.value == 2.0 * sd
        && row.volumeSma == Some(volume)
        && (volume == 0.0 ==> row.volumeRatio.None?)
        && (volume != 0.0 ==> row.volumeRatio.Some? && row.volumeRatio.value * volume == cs[j].volume)
  {
    hide Ema, EmaAt, Rsi, MacdLine, MacdSignal, MacdHistogram, Atr, Adx, PlusDi, MinusDi, MeanAt, VarianceAt;
    if j >= 19 {
      var volume := MeanAt(Volumes(cs), 20, j);
      if volume != 0.0 {
        QuotientTimes(cs[j].volume, volume);
      }
      BandReads(Closes(cs), root, j);
    }
  }

  lemma BandReads(closes: seq<real>, root: real -> real, j: nat)
    requires 19 <= j < |closes|
    ensures
      var (mid, sd) := (MeanAt(closes, 20, j), root(VarianceAt(closes, 20, j)));
      && BandAt(closes, 20, 2.0, root, j) - mid == 2.0 * sd && mid - BandAt(closes, 20, -2.0, root, j) == 2.0 * sd
  {
    hide MeanAt, VarianceAt;
  }
}
