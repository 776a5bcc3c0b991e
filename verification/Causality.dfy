/** No indicator row depends on a later candle: every series computed on a prefix is the
    prefix of the series computed on the whole, missing rows and nested smoothing
    included. */
module Causality {
  import opened Common
  import opened Indicators
  import opened Rolling

  lemma {:induction false} ValidOfPrefix(values: Series, k: nat, n: nat)
    requires n <= k <= |values|
    ensures ValidBelow(values[..k], n) == ValidBelow(values, n)
  {
    if n > 0 {
      ValidOfPrefix(values, k, n - 1);
    }
  }

  lemma {:induction false} ValidGrows(values: Series, k: nat, n: nat)
    requires k <= n <= |values|
    ensures |ValidBelow(values, k)| <= |ValidBelow(values, n)|
    ensures ValidBelow(values, n)[..|ValidBelow(values, k)|] == ValidBelow(values, k)
    ensures forall m :: |ValidBelow(values, k)| <= m < |ValidBelow(values, n)| ==> ValidBelow(values, n)[m] >= k
  {
    if k < n {
      ValidGrows(values, k, n - 1);
    }
  }

  lemma {:induction false} SumOfPrefix(values: Series, k: nat, at: seq<nat>)
    requires k <= |values| && forall m :: 0 <= m < |at| ==> at[m] < k && values[at[m]].Some?
    ensures SumAt(values[..k], at) == SumAt(values, at)
  {
    if at != [] {
      SumOfPrefix(values, k, at[..|at| - 1]);
    }
  }

  /** The seed row of a prefix is the seed row of the whole, if it lies inside. */
  lemma StartIsCausal(values: Series, period: nat, k: nat)
    requires period >= 1 && k <= |values|
    ensures
      var whole := Start(values, period);
      if whole.Some? && whole.value < k
      then Start(values[..k], period) == whole && Seed(values[..k], period) == Seed(values, period)
      else Start(values[..k], period).None?
  {
    var all, some := ValidBelow(values, |values|), ValidBelow(values, k);
    ValidIsExact(values, k);
    ValidOfPrefix(values, k, k);
    ValidGrows(values, k, |values|);
    if |some| >= period {
      assert all[..|some|][..period] == some[..period];
      assert all[..period] == some[..period];
      assert all[period - 1] == all[..|some|][period - 1];
      SumOfPrefix(values, k, some[..period]);
    }
  }

  lemma {:induction false} EmaAtIsCausal(values: Series, period: nat, alpha: real, k: nat, j: nat)
    requires period >= 1 && j < k <= |values|
    ensures EmaAt(values[..k], period, alpha, j) == EmaAt(values, period, alpha, j)
  {
    hide Start, Seed, Blend;
    StartIsCausal(values, period, k);
    var start := Start(values, period);
    if start.Some? && start.value < j {
      EmaAtIsCausal(values, period, alpha, k, j - 1);
    }
  }

  /** CAUSALITY of smoothing, for any pattern of gaps in its input. */
  lemma EmaIsCausal(values: Series, period: nat, alpha: real, k: nat)
    requires period >= 1 && k <= |values|
    ensures Ema(values[..k], period, alpha) == Ema(values, period, alpha)[..k]
  {
    hide EmaAt;
    forall j | 0 <= j < k ensures Ema(values[..k], period, alpha)[j] == Ema(values, period, alpha)[..k][j] {
      EmaAtIsCausal(values, period, alpha, k, j);
    }
  }

  lemma WilderIsCausal(values: Series, period: nat, k: nat)
    requires period >= 1 && k <= |values|
    ensures Wilder(values[..k], period) == Wilder(values, period)[..k]
  {
    EmaIsCausal(values, period, 1.0 / period as real, k);
  }

  lemma RsiIsCausal(closes: seq<real>, period: nat, k: nat)
    requires period >= 1 && k <= |closes|
    ensures Rsi(closes[..k], period) == Rsi(closes, period)[..k]
  {
    hide EmaAt, RsiValue;
    if k > 0 {
      assert Gains(closes[..k]) == Gains(closes)[..k - 1];
      assert Losses(closes[..k]) == Losses(closes)[..k - 1];
      forall j | 0 <= j < k ensures RsiAt(closes[..k], period, j) == RsiAt(closes, period, j) {
        if j > 0 {
          EmaAtIsCausal(Gains(closes), period, 1.0 / period as real, k - 1, j - 1);
          EmaAtIsCausal(Losses(closes), period, 1.0 / period as real, k - 1, j - 1);
        }
      }
    }
  }

  lemma MacdLineIsCausal(closes: seq<real>, k: nat)
    requires k <= |closes|
    ensures MacdLine(closes[..k]) == MacdLine(closes)[..k]
  {
    hide Ema;
    assert Defined(closes[..k]) == Defined(closes)[..k];
    EmaIsCausal(Defined(closes), 12, Standard(12), k);
    EmaIsCausal(Defined(closes), 26, Standard(26), k);
  }

  /** The nested case: the signal line smooths a line that itself starts with gaps. */
  lemma MacdIsCausal(closes: seq<real>, k: nat)
    requires k <= |closes|
    ensures MacdLine(closes[..k]) == MacdLine(closes)[..k]
    ensures MacdSignal(closes[..k]) == MacdSignal(closes)[..k]
    ensures MacdHistogram(closes[..k]) == MacdHistogram(closes)[..k]
  {
    hide Ema, MacdLine;
    MacdLineIsCausal(closes, k);
    EmaIsCausal(MacdLine(closes), 9, Standard(9), k);
  }

  lemma DirectionalIsCausal(cs: seq<Candle>, period: nat, k: nat)
    requires period >= 1 && k <= |cs|
    ensures Atr(cs[..k], period) == Atr(cs, period)[..k]
    ensures PlusDi(cs[..k], period) == PlusDi(cs, period)[..k]
    ensures MinusDi(cs[..k], period) == MinusDi(cs, period)[..k]
  {
    hide Wilder, Share;
    assert TrueRanges(cs[..k]) == TrueRanges(cs)[..k];
    assert UpMoves(cs[..k]) == UpMoves(cs)[..k];
    assert DownMoves(cs[..k]) == DownMoves(cs)[..k];
    WilderIsCausal(TrueRanges(cs), period, k);
    WilderIsCausal(UpMoves(cs), period, k);
    WilderIsCausal(DownMoves(cs), period, k);
  }

  lemma AdxIsCausal(cs: seq<Candle>, period: nat, k: nat)
    requires period >= 1 && k <= |cs|
    ensures Adx(cs[..k], period) == Adx(cs, period)[..k]
  {
    hide Wilder, PlusDi, MinusDi, DxOf;
    DirectionalIsCausal(cs, period, k);
    assert Dx(cs[..k], period) == Dx(cs, period)[..k];
    WilderIsCausal(Dx(cs, period), period, k);
  }

  // --- The matrix --------------------------------------------------------------

  datatype Row = Row(
    ema20: Option<real>, ema50: Option<real>, ema200: Option<real>, rsi14: Option<real>,
    macd: Option<real>, macdSignal: Option<real>, macdHistogram: Option<real>,
    atr14: Option<real>, adx14: Option<real>, plusDi: Option<real>, minusDi: Option<real>,
    bbMid: Option<real>, bbUpper: Option<real>, bbLower: Option<real>,
    volumeSma: Option<real>, volumeRatio: Option<real>)

  datatype MatrixError = EmptyData | FormingCandle(index: nat) | NotAscending

  function Closes(cs: seq<Candle>): (r: seq<real>)
    ensures |r| == |cs|
  {
    seq(|cs|, i requires 0 <= i < |cs| => cs[i].close)
  }

  function Volumes(cs: seq<Candle>): (r: seq<real>)
    ensures |r| == |cs|
  {
    seq(|cs|, i requires 0 <= i < |cs| => cs[i].volume)
  }

  function Rows(cs: seq<Candle>, root: real -> real): (rows: seq<Row>)
    ensures |rows| == |cs|
  {
    var closes := Closes(cs);
    var xs := Defined(closes);
    var (e20, e50, e200) := (Ema(xs, 20, Standard(20)), Ema(xs, 50, Standard(50)), Ema(xs, 200, Standard(200)));
    var (rsi, line, signal, histogram) :=
        (Rsi(closes, 14), MacdLine(closes), MacdSignal(closes), MacdHistogram(closes));
    var (atr, adx, plus, minus) := (Atr(cs, 14), Adx(cs, 14), PlusDi(cs, 14), MinusDi(cs, 14));
    var (mid, upper, lower) := (RollingMean(closes, 20), Band(closes, 20, 2.0, root), Band(closes, 20, -2.0, root));
    var (sma, ratio) := (RollingMean(Volumes(cs), 20), VolumeRatio(Volumes(cs), 20));
    seq(|cs|, j requires 0 <= j < |cs| =>
      Row(e20[j], e50[j], e200[j], rsi[j], line[j], signal[j], histogram[j], atr[j], adx[j], plus[j], minus[j],
          mid[j], upper[j], lower[j], sma[j], ratio[j]))
  }

  function FirstForming(cs: seq<Candle>, from: nat): (r: Option<nat>)
    requires from <= |cs|
    ensures r.Some? ==> from <= r.value < |cs| && !cs[r.value].isClosed
    ensures r.None? ==> forall i :: from <= i < |cs| ==> cs[i].isClosed
    decreases |cs| - from
  {
    if from == |cs| then None else if !cs[from].isClosed then Some(from) else FirstForming(cs, from + 1)
  }

  predicate StepwiseAscending(cs: seq<Candle>) {
    forall i :: 0 <= i < |cs| - 1 ==> cs[i].timestamp < cs[i + 1].timestamp
  }

  /** `compute_indicator_matrix`. */
  function Matrix(cs: seq<Candle>, root: real -> real): Result<seq<Row>, MatrixError> {
    if cs == [] then Failure(EmptyData)
    else if FirstForming(cs, 0).Some? then Failure(FormingCandle(FirstForming(cs, 0).value))
    else if !StepwiseAscending(cs) then Failure(NotAscending)
    else Success(Rows(cs, root))
  }

  lemma RowsAreCausal(cs: seq<Candle>, root: real -> real, k: nat)
    requires k <= |cs|
    ensures Rows(cs[..k], root) == Rows(cs, root)[..k]
  {
    hide RollingMean, Band, VolumeRatio, Ema, Rsi, MacdLine, MacdSignal, MacdHistogram, Atr, Adx, PlusDi, MinusDi;
    var closes := Closes(cs);
    assert Closes(cs[..k]) == closes[..k];
    assert Defined(closes[..k]) == Defined(closes)[..k];
    EmaIsCausal(Defined(closes), 20, Standard(20), k);
    EmaIsCausal(Defined(closes), 50, Standard(50), k);
    EmaIsCausal(Defined(closes), 200, Standard(200), k);
    RsiIsCausal(closes, 14, k);
    MacdIsCausal(closes, k);
    DirectionalIsCausal(cs, 14, k);
    AdxIsCausal(cs, 14, k);
    assert Volumes(cs[..k]) == Volumes(cs)[..k];
    RollingIsCausal(closes, 20, 2.0, root, k);
    RollingIsCausal(closes, 20, -2.0, root, k);
    RollingIsCausal(Volumes(cs), 20, 0.0, root, k);
  }

  /** NO LOOK-AHEAD IN THE MATRIX: adding candles never changes, adds or removes a value
      in an earlier row, and never turns an accepted prefix into an error. */
  lemma MatrixIsCausal(cs: seq<Candle>, root: real -> real, k: nat)
    requires Matrix(cs, root).Success? && 1 <= k <= |cs|
    ensures Matrix(cs[..k], root) == Success(Matrix(cs, root).value[..k])
  {
    hide Rows;
    RowsAreCausal(cs, root, k);
  }
}
