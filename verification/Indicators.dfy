/** The indicator recurrences (binance/indicators.py). A missing row (NaN) is `None`;
    the array loops are proved to compute the recurrences stated here. */
module Indicators {
  import opened Common

  type Series = seq<Option<real>>

  // --- Smoothing ----------------------------------------------------------------

  /** Positions below `n` that hold a value, ascending. */
  function ValidBelow(values: Series, n: nat): (valid: seq<nat>)
    requires n <= |values|
  {
    if n == 0 then [] else
      ValidBelow(values, n - 1) + if values[n - 1].Some? then [n - 1] else []
  }

  /** `valid` lists exactly the filled positions below `n`, ascending. */
  ghost predicate Exact(values: Series, n: nat, valid: seq<nat>)
    requires n <= |values|
  {
    && (forall k :: 0 <= k < |valid| ==> valid[k] < n && values[valid[k]].Some?)
    && (forall i :: 0 <= i < n && values[i].Some? ==> i in valid)
    && (forall k, m :: 0 <= k < m < |valid| ==> valid[k] < valid[m])
  }

  lemma {:induction false} ValidIsExact(values: Series, n: nat)
    requires n <= |values|
    ensures Exact(values, n, ValidBelow(values, n))
  {
    if n > 0 {
      ValidIsExact(values, n - 1);
    }
  }

  function SumAt(values: Series, at: seq<nat>): real
    requires forall k :: 0 <= k < |at| ==> at[k] < |values| && values[at[k]].Some?
  {
    if at == [] then 0.0 else SumAt(values, at[..|at| - 1]) + values[at[|at| - 1]].value
  }

  /** The row seeded with the mean of the first `period` values, if there are that many. */
  function Start(values: Series, period: nat): (start: Option<nat>)
    requires period >= 1
    ensures start.Some? ==> start.value < |values| && values[start.value].Some?
  {
    ValidIsExact(values, |values|);
    var valid := ValidBelow(values, |values|);
    if |valid| < period then None else Some(valid[period - 1])
  }

  /** The rows that enter the seed. */
  function SeedRows(values: Series, period: nat): (at: seq<nat>)
    requires period >= 1 && Start(values, period).Some?
    ensures |at| == period && at == ValidBelow(values, |values|)[..period]
    ensures forall k :: 0 <= k < period ==> at[k] <= Start(values, period).value && values[at[k]].Some?
  {
    ValidIsExact(values, |values|);
    ValidBelow(values, |values|)[..period]
  }

  function Seed(values: Series, period: nat): real
    requires period >= 1 && Start(values, period).Some?
  {
    SumAt(values, SeedRows(values, period)) / period as real
  }

  function Blend(alpha: real, x: real, prev: real): real {
    alpha * x + (1.0 - alpha) * prev
  }

  /** Row `j` of the smoothed series; a gap after the seed ends it for good. */
  function EmaAt(values: Series, period: nat, alpha: real, j: nat): Option<real>
    requires period >= 1 && j < |values|
  {
    var start := Start(values, period);
    if start.None? || j < start.value then None
    else if j == start.value then Some(Seed(values, period))
    else
      var prev := EmaAt(values, period, alpha, j - 1);
      if prev.None? || values[j].None? then None else Some(Blend(alpha, values[j].value, prev.value))
  }

  function Ema(values: Series, period: nat, alpha: real): (out: Series)
    requires period >= 1
    ensures |out| == |values|
    ensures forall j :: 0 <= j < |out| ==> out[j] == EmaAt(values, period, alpha, j)
  {
    seq(|values|, j requires 0 <= j < |values| => EmaAt(values, period, alpha, j))
  }

  function Standard(period: nat): real {
    2.0 / (period as real + 1.0)
  }

  function Wilder(values: Series, period: nat): (out: Series)
    requires period >= 1
    ensures |out| == |values|
  {
    Ema(values, period, 1.0 / period as real)
  }

  method MeanOf(values: Series, at: seq<nat>) returns (mean: real)
    requires at != [] && forall k :: 0 <= k < |at| ==> at[k] < |values| && values[at[k]].Some?
    ensures mean == SumAt(values, at) / |at| as real
  {
    var sum := 0.0;
    for k := 0 to |at|
      invariant sum == SumAt(values, at[..k])
    {
      assert at[..k + 1][..k] == at[..k];
      sum := sum + values[at[k]].value;
    }
    assert at[..|at|] == at;
    mean := sum / |at| as real;
  }

  method ValidPositions(values: Series) returns (valid: seq<nat>)
    ensures valid == ValidBelow(values, |values|)
  {
    valid := [];
    for i := 0 to |values|
      invariant valid == ValidBelow(values, i)
    {
      if values[i].Some? {
        valid := valid + [i];
      }
    }
  }

  /** `_ema_array`: seed, then one pass that stops at the first gap. */
  method EmaArray(values: Series, period: nat, alpha: real) returns (out: array<Option<real>>)
    requires period >= 1
    ensures fresh(out) && out[..] == Ema(values, period, alpha)
  {
    var n := |values|;
    out := new Option<real>[n](_ => None);
    var valid := ValidPositions(values);
    if |valid| < period {
      return;
    }
    ValidIsExact(values, n);
    var start := valid[period - 1];
    assert Start(values, period) == Some(start);
    var mean := MeanOf(values, valid[..period]);
    SeedStarts(values, period, alpha, mean);
    out[start] := Some(mean);
    SmoothFrom(values, period, alpha, start, out);
  }

  /** The pass after the seed: blend row by row and stop at the first gap. */
  method SmoothFrom(values: Series, period: nat, alpha: real, start: nat, out: array<Option<real>>)
    requires period >= 1 && Start(values, period) == Some(start) && out.Length == |values|
    requires out[start] == EmaAt(values, period, alpha, start) && out[start].Some?
    requires forall j :: 0 <= j < |values| && j != start ==> out[j].None?
    modifies out
    ensures out[..] == Ema(values, period, alpha)
  {
    BeforeTheSeed(values, period, alpha);
    hide Seed, Start, EmaAt, Ema;
    var i := start + 1;
    while i < |values| && values[i].Some?
      invariant start < i <= |values|
      invariant forall j :: 0 <= j < i ==> out[j] == EmaAt(values, period, alpha, j)
      invariant out[i - 1].Some?
      invariant forall j :: i <= j < |values| ==> out[j].None?
    {
      BlendContinues(values, period, alpha, i);
      out[i] := Some(Blend(alpha, values[i].value, out[i - 1].value));
      i := i + 1;
    }
    if i < |values| {
      GapEndsIt(values, period, alpha, i);
    }
    assert forall j :: 0 <= j < |values| ==> out[j] == EmaAt(values, period, alpha, j);
  }

  lemma BeforeTheSeed(values: Series, period: nat, alpha: real)
    requires period >= 1 && Start(values, period).Some?
    ensures forall j :: 0 <= j < Start(values, period).value ==> EmaAt(values, period, alpha, j).None?
  {
  }

  lemma SeedStarts(values: Series, period: nat, alpha: real, mean: real)
    requires period >= 1 && Start(values, period).Some?
    requires mean == SumAt(values, SeedRows(values, period)) / period as real
    ensures EmaAt(values, period, alpha, Start(values, period).value) == Some(mean)
  {
  }

  lemma BlendContinues(values: Series, period: nat, alpha: real, i: nat)
    requires period >= 1 && Start(values, period).Some? && Start(values, period).value < i < |values|
    requires values[i].Some? && EmaAt(values, period, alpha, i - 1).Some?
    ensures EmaAt(values, period, alpha, i) ==
        Some(Blend(alpha, values[i].value, EmaAt(values, period, alpha, i - 1).value))
  {
  }

  lemma {:induction false} GapLasts(values: Series, period: nat, alpha: real, gap: nat, j: nat)
    requires period >= 1 && gap <= j < |values| && values[gap].None?
    requires Start(values, period).Some? && Start(values, period).value < gap
    ensures EmaAt(values, period, alpha, j).None?
  {
    if j > gap {
      GapLasts(values, period, alpha, gap, j - 1);
    }
  }

  lemma GapEndsIt(values: Series, period: nat, alpha: real, gap: nat)
    requires period >= 1 && gap < |values| && values[gap].None?
    requires Start(values, period).Some? && Start(values, period).value < gap
    ensures forall j :: gap <= j < |values| ==> EmaAt(values, period, alpha, j).None?
  {
    forall j | gap <= j < |values| ensures EmaAt(values, period, alpha, j).None? {
      GapLasts(values, period, alpha, gap, j);
    }
  }

  // --- Bounds ---------------------------------------------------------------------

  /** Every value among rows `0..j` is at least `lo`. */
  predicate AtLeast(values: Series, lo: real, j: nat) {
    forall i :: 0 <= i < |values| && i <= j && values[i].Some? ==> values[i].value >= lo
  }

  predicate AtMost(values: Series, hi: real, j: nat) {
    forall i :: 0 <= i < |values| && i <= j && values[i].Some? ==> values[i].value <= hi
  }

  function Times(n: nat, x: real): real {
    n as real * x
  }

  lemma TimesSuccessor(n: nat, x: real)
    ensures Times(n + 1, x) == Times(n, x) + x
  {
  }

  lemma {:induction false} SumIsBounded(values: Series, at: seq<nat>, j: nat, lo: real, hi: real)
    requires forall k :: 0 <= k < |at| ==> at[k] < |values| && at[k] <= j && values[at[k]].Some?
    ensures AtLeast(values, lo, j) ==> SumAt(values, at) >= Times(|at|, lo)
    ensures AtMost(values, hi, j) ==> SumAt(values, at) <= Times(|at|, hi)
  {
    if at != [] {
      var n := |at| - 1;
      SumIsBounded(values, at[..n], j, lo, hi);
      TimesSuccessor(n, lo);
      TimesSuccessor(n, hi);
      hide Times;
    }
  }

  lemma SeedIsBounded(values: Series, period: nat, lo: real, hi: real)
    requires period >= 1 && Start(values, period).Some?
    ensures AtLeast(values, lo, Start(values, period).value) ==> Seed(values, period) >= lo
    ensures AtMost(values, hi, Start(values, period).value) ==> Seed(values, period) <= hi
  {
    SeedIsMeanOfRows(values, period);
    var at := SeedRows(values, period);
    SumIsBounded(values, at, Start(values, period).value, lo, hi);
    hide *;
    MeanIsBounded(SumAt(values, at), period, lo, hi);
  }

  lemma SeedIsMeanOfRows(values: Series, period: nat)
    requires period >= 1 && Start(values, period).Some?
    ensures Seed(values, period) == SumAt(values, SeedRows(values, period)) / period as real
  {
  }

  lemma MeanIsBounded(sum: real, n: nat, lo: real, hi: real)
    requires n >= 1
    ensures sum >= Times(n, lo) ==> sum / n as real >= lo
    ensures sum <= Times(n, hi) ==> sum / n as real <= hi
  {
    DivBounds(lo, sum, n as real);
    DivBoundsAbove(hi, sum, n as real);
  }

  lemma BlendIsAtLeast(alpha: real, x: real, prev: real, lo: real)
    requires 0.0 <= alpha <= 1.0 && lo <= x && lo <= prev
    ensures Blend(alpha, x, prev) >= lo
  {
    assert alpha * (x - lo) >= 0.0;
    assert (1.0 - alpha) * (prev - lo) >= 0.0;
  }

  lemma BlendIsAtMost(alpha: real, x: real, prev: real, hi: real)
    requires 0.0 <= alpha <= 1.0 && x <= hi && prev <= hi
    ensures Blend(alpha, x, prev) <= hi
  {
    assert alpha * (hi - x) >= 0.0;
    assert (1.0 - alpha) * (hi - prev) >= 0.0;
  }

  /** Every smoothed value lies between the minimum and the maximum of the inputs seen
      so far. */
  lemma {:induction false} EmaStaysBetween(values: Series, period: nat, alpha: real, j: nat, lo: real, hi: real)
    requires period >= 1 && j < |values| && 0.0 <= alpha <= 1.0 && EmaAt(values, period, alpha, j).Some?
    ensures AtLeast(values, lo, j) ==> EmaAt(values, period, alpha, j).value >= lo
    ensures AtMost(values, hi, j) ==> EmaAt(values, period, alpha, j).value <= hi
  {
    hide Seed, Blend;
    if j == Start(values, period).value {
      SeedIsBounded(values, period, lo, hi);
    } else {
      hide Start;
      EmaStaysBetween(values, period, alpha, j - 1, lo, hi);
      var x, prev := values[j].value, EmaAt(values, period, alpha, j - 1).value;
      if AtLeast(values, lo, j) {
        BlendIsAtLeast(alpha, x, prev, lo);
      }
      if AtMost(values, hi, j) {
        BlendIsAtMost(alpha, x, prev, hi);
      }
    }
  }

  lemma WilderRateIsValid(period: nat)
    requires period >= 1
    ensures 0.0 < 1.0 / period as real <= 1.0
  {
    RatioIsPositive(1.0, period as real);
    DivBoundsAbove(1.0, 1.0, period as real);
  }

  lemma WilderOfNonnegative(values: Series, period: nat, j: nat)
    requires period >= 1 && j < |values| && AtLeast(values, 0.0, j)
    ensures EmaAt(values, period, 1.0 / period as real, j).Some? ==>
        EmaAt(values, period, 1.0 / period as real, j).value >= 0.0
  {
    WilderRateIsValid(period);
    if EmaAt(values, period, 1.0 / period as real, j).Some? {
      EmaStaysBetween(values, period, 1.0 / period as real, j, 0.0, 0.0);
    }
  }

  // --- RSI ------------------------------------------------------------------------

  function Gain(closes: seq<real>, i: nat): (g: real)
    requires i + 1 < |closes|
    ensures g >= 0.0
  {
    Max(closes[i + 1] - closes[i], 0.0)
  }

  function Loss(closes: seq<real>, i: nat): (g: real)
    requires i + 1 < |closes|
    ensures g >= 0.0
  {
    Max(closes[i] - closes[i + 1], 0.0)
  }

  function Gains(closes: seq<real>): (s: Series)
    ensures |s| == if closes == [] then 0 else |closes| - 1
  {
    seq(if closes == [] then 0 else |closes| - 1, i requires 0 <= i < |closes| - 1 => Some(Gain(closes, i)))
  }

  function Losses(closes: seq<real>): (s: Series)
    ensures |s| == if closes == [] then 0 else |closes| - 1
  {
    seq(if closes == [] then 0 else |closes| - 1, i requires 0 <= i < |closes| - 1 => Some(Loss(closes, i)))
  }

  lemma RatioIsPositive(x: real, y: real)
    requires x > 0.0 && y > 0.0
    ensures x / y > 0.0
  {
    assert x / y * y == x;
    if x / y <= 0.0 {
      MulMono(x / y, 0.0, y);
    }
  }

  function RsiValue(avgGain: real, avgLoss: real): real
    requires avgGain >= 0.0 && avgLoss >= 0.0
  {
    if avgGain == 0.0 && avgLoss == 0.0 then 50.0
    else if avgLoss == 0.0 then 100.0
    else if avgGain == 0.0 then 0.0
    else
      RatioIsPositive(avgGain, avgLoss);
      100.0 - 100.0 / (1.0 + avgGain / avgLoss)
  }

  /** Row `j`: the Wilder averages of gains and losses up to that close, combined. */
  function RsiAt(closes: seq<real>, period: nat, j: nat): Option<real>
    requires period >= 1 && j < |closes|
  {
    if j == 0 then None else
      WilderOfNonnegative(Gains(closes), period, j - 1);
      WilderOfNonnegative(Losses(closes), period, j - 1);
      var g := EmaAt(Gains(closes), period, 1.0 / period as real, j - 1);
      var l := EmaAt(Losses(closes), period, 1.0 / period as real, j - 1);
      if g.None? || l.None? then None else Some(RsiValue(g.value, l.value))
  }

  function Rsi(closes: seq<real>, period: nat): (out: Series)
    requires period >= 1
    ensures |out| == |closes|
    ensures forall j :: 0 <= j < |out| ==> out[j] == RsiAt(closes, period, j)
  {
    seq(|closes|, j requires 0 <= j < |closes| => RsiAt(closes, period, j))
  }

  // --- MACD -----------------------------------------------------------------------

  function Defined(closes: seq<real>): (s: Series)
    ensures |s| == |closes|
  {
    seq(|closes|, i requires 0 <= i < |closes| => Some(closes[i]))
  }

  function Minus(a: Series, b: Series): (s: Series)
    requires |a| == |b|
    ensures |s| == |a|
  {
    seq(|a|, i requires 0 <= i < |a| => if a[i].None? || b[i].None? then None else Some(a[i].value - b[i].value))
  }

  function MacdLine(closes: seq<real>): (s: Series)
    ensures |s| == |closes|
  {
    Minus(Ema(Defined(closes), 12, Standard(12)), Ema(Defined(closes), 26, Standard(26)))
  }

  function MacdSignal(closes: seq<real>): (s: Series)
    ensures |s| == |closes|
  {
    Ema(MacdLine(closes), 9, Standard(9))
  }

  function MacdHistogram(closes: seq<real>): (s: Series)
    ensures |s| == |closes|
  {
    Minus(MacdLine(closes), MacdSignal(closes))
  }

  // --- True range and directional movement ------------------------------------------

  function TrueRange(cs: seq<Candle>, i: nat): real
    requires 1 <= i < |cs|
  {
    Max(cs[i].high - cs[i].low, Max(Abs(cs[i].high - cs[i - 1].close), Abs(cs[i].low - cs[i - 1].close)))
  }

  function UpMove(cs: seq<Candle>, i: nat): real
    requires 1 <= i < |cs|
  {
    var up, dn := cs[i].high - cs[i - 1].high, cs[i - 1].low - cs[i].low;
    if up > dn && up > 0.0 then up else 0.0
  }

  function DownMove(cs: seq<Candle>, i: nat): real
    requires 1 <= i < |cs|
  {
    var up, dn := cs[i].high - cs[i - 1].high, cs[i - 1].low - cs[i].low;
    if dn > up && dn > 0.0 then dn else 0.0
  }

  function TrueRanges(cs: seq<Candle>): (s: Series)
    ensures |s| == |cs|
  {
    seq(|cs|, i requires 0 <= i < |cs| => if i == 0 then None else Some(TrueRange(cs, i)))
  }

  function UpMoves(cs: seq<Candle>): (s: Series)
    ensures |s| == |cs|
  {
    seq(|cs|, i requires 0 <= i < |cs| => if i == 0 then None else Some(UpMove(cs, i)))
  }

  function DownMoves(cs: seq<Candle>): (s: Series)
    ensures |s| == |cs|
  {
    seq(|cs|, i requires 0 <= i < |cs| => if i == 0 then None else Some(DownMove(cs, i)))
  }

  function Atr(cs: seq<Candle>, period: nat): (s: Series)
    requires period >= 1
    ensures |s| == |cs|
  {
    Wilder(TrueRanges(cs), period)
  }

  function Share(part: real, whole: real): real {
    if whole == 0.0 then 0.0 else 100.0 * part / whole
  }

  /** +DI or -DI: a smoothed move as a percentage of the smoothed true range. */
  function Directional(moves: Series, ranges: Series): (s: Series)
    requires |moves| == |ranges|
    ensures |s| == |ranges|
  {
    seq(|ranges|, i requires 0 <= i < |ranges| =>
      if ranges[i].None? || moves[i].None? then None else Some(Share(moves[i].value, ranges[i].value)))
  }

  function PlusDi(cs: seq<Candle>, period: nat): (s: Series)
    requires period >= 1
    ensures |s| == |cs|
  {
    Directional(Wilder(UpMoves(cs), period), Atr(cs, period))
  }

  function MinusDi(cs: seq<Candle>, period: nat): (s: Series)
    requires period >= 1
    ensures |s| == |cs|
  {
    Directional(Wilder(DownMoves(cs), period), Atr(cs, period))
  }

  function DxOf(plus: real, minus: real): real {
    Share(Abs(plus - minus), plus + minus)
  }

  function Combine(plus: Series, minus: Series): (s: Series)
    requires |plus| == |minus|
    ensures |s| == |plus|
  {
    seq(|plus|, i requires 0 <= i < |plus| =>
      if plus[i].None? || minus[i].None? then None else Some(DxOf(plus[i].value, minus[i].value)))
  }

  function Dx(cs: seq<Candle>, period: nat): (s: Series)
    requires period >= 1
    ensures |s| == |cs|
  {
    Combine(PlusDi(cs, period), MinusDi(cs, period))
  }

  function Adx(cs: seq<Candle>, period: nat): (s: Series)
    requires period >= 1
    ensures |s| == |cs|
  {
    Wilder(Dx(cs, period), period)
  }
}
