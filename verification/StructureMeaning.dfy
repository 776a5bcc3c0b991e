/** What the two structures and the two regimes say about the candles themselves. */
module StructureMeaning {
  import opened Common
  import opened Indicators
  import opened Causality
  import opened Structure

  /** Strictly above, or below, both neighbours. */
  predicate Peak(xs: seq<real>, i: int) {
    0 < i < |xs| - 1 && xs[i - 1] < xs[i] && xs[i + 1] < xs[i]
  }

  predicate Trough(xs: seq<real>, i: int) {
    0 < i < |xs| - 1 && xs[i - 1] > xs[i] && xs[i + 1] > xs[i]
  }

  /** `a` and `b` are the two newest swings of a kind, in this order. */
  ghost predicate LastTwo(xs: seq<real>, a: int, b: int, swing: (seq<real>, int) -> bool) {
    && swing(xs, a) && swing(xs, b) && a < b
    && forall k :: swing(xs, k) ==> k <= a || k == b
  }

  /** The newest peak against the one before it, and the newest trough likewise. */
  ghost predicate Rising(highs: seq<real>, lows: seq<real>, a: int, b: int, c: int, d: int) {
    LastTwo(highs, a, b, Peak) && LastTwo(lows, c, d, Trough) && highs[b] > highs[a] && lows[d] > lows[c]
  }

  ghost predicate Falling(highs: seq<real>, lows: seq<real>, a: int, b: int, c: int, d: int) {
    LastTwo(highs, a, b, Peak) && LastTwo(lows, c, d, Trough) && highs[b] < highs[a] && lows[d] < lows[c]
  }

  ghost predicate SomeRising(highs: seq<real>, lows: seq<real>) {
    exists a, b, c, d :: Rising(highs, lows, a, b, c, d)
  }

  ghost predicate SomeFalling(highs: seq<real>, lows: seq<real>) {
    exists a, b, c, d :: Falling(highs, lows, a, b, c, d)
  }

  /** The scans list exactly the peaks and troughs, oldest first. */
  ghost predicate Lists(out: seq<nat>, xs: seq<real>, n: nat, swing: (seq<real>, int) -> bool) {
    && (forall k :: 0 <= k < |out| ==> out[k] < n && swing(xs, out[k]))
    && (forall i: nat :: i < n && swing(xs, i) ==> i in out)
    && (forall j, k :: 0 <= j < k < |out| ==> out[j] < out[k])
  }

  lemma SwingIsPeak(xs: seq<real>, i: int)
    ensures IsSwingHigh(xs, i, RADIUS) <==> Peak(xs, i)
    ensures IsSwingLow(xs, i, RADIUS) <==> Trough(xs, i)
  {
    if 0 < i < |xs| - 1 {
      assert xs[i - 1] < xs[i] && xs[i + 1] < xs[i] ==> IsSwingHigh(xs, i, RADIUS);
      assert xs[i - 1] > xs[i] && xs[i + 1] > xs[i] ==> IsSwingLow(xs, i, RADIUS);
    }
  }

  lemma {:induction false} ScansListTheSwings(xs: seq<real>, n: nat)
    requires n <= |xs|
    ensures Lists(SwingHighs(xs, RADIUS, n), xs, n, Peak) && Lists(SwingLows(xs, RADIUS, n), xs, n, Trough)
  {
    hide IsSwingHigh, IsSwingLow, Peak, Trough, Lists;
    if n == 0 {
      NothingListed(xs, Peak);
      NothingListed(xs, Trough);
    } else {
      ScansListTheSwings(xs, n - 1);
      SwingIsPeak(xs, n - 1);
      ListedOneMore(SwingHighs(xs, RADIUS, n - 1), xs, n - 1, Peak);
      ListedOneMore(SwingLows(xs, RADIUS, n - 1), xs, n - 1, Trough);
    }
  }

  lemma NothingListed(xs: seq<real>, swing: (seq<real>, int) -> bool)
    ensures Lists([], xs, 0, swing)
  {
  }

  lemma ListedOneMore(out: seq<nat>, xs: seq<real>, n: nat, swing: (seq<real>, int) -> bool)
    requires Lists(out, xs, n, swing)
    ensures Lists(out + if swing(xs, n) then [n] else [], xs, n + 1, swing)
  {
    var more := out + if swing(xs, n) then [n] else [];
    forall i: nat | i < n + 1 && swing(xs, i) ensures i in more {
      if i < n {
        assert i in out;
      } else {
        assert more[|out|] == i;
      }
    }
  }

  lemma LastListed(out: seq<nat>, xs: seq<real>, a: int, b: int, swing: (seq<real>, int) -> bool)
    requires Lists(out, xs, |xs|, swing) && forall k :: swing(xs, k) ==> 0 <= k < |xs|
    ensures LastTwo(xs, a, b, swing) <==> |out| >= 2 && a == out[|out| - 2] && b == out[|out| - 1]
  {
    var n := |out|;
    if LastTwo(xs, a, b, swing) {
      var i, j :| 0 <= i < n && 0 <= j < n && out[i] == a && out[j] == b;
      assert i < j;
      assert swing(xs, out[n - 1]) && swing(xs, out[j - 1]);
    } else if n >= 2 && a == out[n - 2] && b == out[n - 1] {
      forall k | swing(xs, k) ensures k <= a || k == b {
        var i :| 0 <= i < n && out[i] == k;
      }
    }
  }

  /** The two newest peaks are the scan's last two entries; the troughs likewise. */
  lemma NewestSwings(highs: seq<real>, lows: seq<real>)
    ensures
      var h, l := ConfirmedHighs(highs), ConfirmedLows(lows);
      && (forall a, b :: LastTwo(highs, a, b, Peak) <==> |h| >= 2 && a == h[|h| - 2] && b == h[|h| - 1])
      && (forall c, d :: LastTwo(lows, c, d, Trough) <==> |l| >= 2 && c == l[|l| - 2] && d == l[|l| - 1])
  {
    ConfirmationDropsNothing(highs);
    ConfirmationDropsNothing(lows);
    ScansListTheSwings(highs, |highs|);
    ScansListTheSwings(lows, |lows|);
    var h, l := ConfirmedHighs(highs), ConfirmedLows(lows);
    hide ConfirmedHighs, ConfirmedLows, Lists, LastTwo;
    forall a, b ensures LastTwo(highs, a, b, Peak) <==> |h| >= 2 && a == h[|h| - 2] && b == h[|h| - 1] {
      LastListed(h, highs, a, b, Peak);
    }
    forall c, d ensures LastTwo(lows, c, d, Trough) <==> |l| >= 2 && c == l[|l| - 2] && d == l[|l| - 1] {
      LastListed(l, lows, c, d, Trough);
    }
  }

  lemma ShapeReads(highs: seq<real>, lows: seq<real>)
    ensures ShapeOf(highs, lows).HigherHighs? <==> SomeRising(highs, lows)
    ensures ShapeOf(highs, lows).LowerLows? <==> SomeFalling(highs, lows)
  {
    NewestSwings(highs, lows);
    var h, l := ConfirmedHighs(highs), ConfirmedLows(lows);
    hide ConfirmedHighs, ConfirmedLows, LastTwo;
    if |h| >= 2 && |l| >= 2 {
      var a, b, c, d := h[|h| - 2], h[|h| - 1], l[|l| - 2], l[|l| - 1];
      if ShapeOf(highs, lows).HigherHighs? {
        assert Rising(highs, lows, a, b, c, d);
      }
      if ShapeOf(highs, lows).LowerLows? {
        assert Falling(highs, lows, a, b, c, d);
      }
    }
  }

  lemma PricesAreTheCandles(cs: seq<Candle>)
    ensures forall i :: 0 <= i < |cs| ==> Highs(cs)[i] == cs[i].high && Lows(cs)[i] == cs[i].low
  {
  }

  /** STRUCTURE, exactly: HH_HL says that among the newest nine candles the newest peak of
      the highs is above the one before it and the newest trough of the lows above its own;
      LH_LL says the opposite of both; everything else is NONE. */
  lemma StructureReadsExactly(cs: seq<Candle>)
    ensures
      var window := if |cs| >= 9 then cs[|cs| - 9..] else [];
      && (DetectStructure(cs).HigherHighs?
          <==> |cs| >= 9 && SomeRising(Highs(window), Lows(window)))
      && (DetectStructure(cs).LowerLows?
          <==> |cs| >= 9 && SomeFalling(Highs(window), Lows(window)))
      && forall i :: 0 <= i < |window| ==> Highs(window)[i] == window[i].high && Lows(window)[i] == window[i].low
  {
    PricesAreTheCandles(if |cs| >= 9 then cs[|cs| - 9..] else []);
    hide ShapeOf, SomeRising, SomeFalling, Highs, Lows;
    if |cs| >= 9 {
      var (highs, lows) := (Highs(cs[|cs| - 9..]), Lows(cs[|cs| - 9..]));
      ShapeReads(highs, lows);
      assert DetectStructure(cs) == ShapeOf(highs, lows);
    }
  }

  /** What the matrix accepts. */
  predicate WellFormed(cs: seq<Candle>) {
    && cs != [] && (forall i :: 0 <= i < |cs| ==> cs[i].isClosed)
    && forall i :: 0 <= i < |cs| - 1 ==> cs[i].timestamp < cs[i + 1].timestamp
  }

  /** REGIME, exactly: UP says that the newest close is above its 20-candle smoothing and
      that above the 50-candle one, both started; DOWN says the opposite. */
  lemma RegimeReadsExactly(cs: seq<Candle>, root: real -> real)
    ensures
      var closes := Defined(Closes(cs));
      var (fast, slow) := (Ema(closes, 20, 2.0 / 21.0), Ema(closes, 50, 2.0 / 51.0));
      var last := |cs| - 1;
      && (Classify(cs, root).regime.Up?
          <==> WellFormed(cs) && fast[last].Some? && slow[last].Some?
               && cs[last].close > fast[last].value > slow[last].value)
      && (Classify(cs, root).regime.Down?
          <==> WellFormed(cs) && fast[last].Some? && slow[last].Some?
               && cs[last].close < fast[last].value < slow[last].value)
      && (forall i :: 0 <= i < |cs| ==> closes[i] == Some(cs[i].close))
      && Classify(cs, root).shape == (if WellFormed(cs) && fast[last].Some? && slow[last].Some?
                                      then DetectStructure(cs) else NoShape)
  {
    hide EmaAt, Ema, Rsi, MacdLine, MacdSignal, MacdHistogram, Atr, Adx, PlusDi, MinusDi, DetectStructure;
    assert Matrix(cs, root).Success? <==> WellFormed(cs);
    assert Standard(20) == 2.0 / 21.0 && Standard(50) == 2.0 / 51.0;
  }
}
