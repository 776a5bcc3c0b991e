/** Exactly when a run raises over a minute candle. */
module RunFailures {
  import opened Common
  import opened DemoAccount
  import opened Monitor
  import opened Replay
  import opened RunInvariants
  import opened RunTheorems

  /** Slippage that leaves a reduced price nothing. */
  predicate Wiped(c: Config) {
    c.slippageBps >= 10000.0
  }

  lemma FactorSign(c: Config, d: Direction, entering: bool)
    requires ValidConfig(c)
    ensures SlippageFactor(c.slippageBps, d, entering) > 0.0 <==> entering == d.Long? || !Wiped(c)
    ensures entering ==>
              if d.Long? then SlippageFactor(c.slippageBps, d, entering) >= 1.0
              else SlippageFactor(c.slippageBps, d, entering) <= 1.0
  {
  }

  lemma ProductSign(price: real, f: real, r: real)
    requires price > 0.0 && r == price * f
    ensures r > 0.0 <==> f > 0.0
    ensures (f >= 1.0 ==> r >= price) && (f <= 1.0 ==> r <= price)
  {
    if f > 0.0 {
      MulStrict(0.0, f, price);
    } else {
      MulMono(f, 0.0, price);
    }
    var g := f - 1.0;
    assert g * price == r - price;
    if g >= 0.0 {
      MulMono(0.0, g, price);
    }
    if g <= 0.0 {
      MulMono(g, 0.0, price);
    }
  }

  /** An entry cannot be sized exactly without money, or when slippage takes a SHORT's price. */
  lemma EntryFailsExactlyWhen(c: Config, l: Levels, balance: real, time: int)
    requires ValidConfig(c) && Ordered(l) && PositiveLevels(l)
    ensures OpenFill(c, l, balance, time).Failure? <==> balance <= 0.0 || (l.direction.Short? && Wiped(c))
  {
    var f, price := SlippageFactor(c.slippageBps, l.direction, true), OpenPrice(c, l);
    FactorSign(c, l.direction, true);
    assert price == l.entry * f;
    ProductSign(l.entry, f, price);
    hide SlippageFactor, ResolveQuantity;
    SizingSucceedsExactlyWhenSizable(balance, c.marginPerTrade, c.leverage, c.riskPercent, price, l.stopLoss);
  }

  /** An exit cannot be priced exactly when slippage takes a LONG's price. */
  lemma ExitFailsExactlyWhen(c: Config, l: Levels, f: Fill, reason: Touch, time: int)
    requires ValidConfig(c) && PositiveLevels(l) && f.price > 0.0 && f.quantity > 0.0
    ensures CloseFill(c, l, f, reason, time).Failure? <==> l.direction.Long? && Wiped(c)
  {
    var k, level := SlippageFactor(c.slippageBps, l.direction, false),
                    if reason.TpHit? then l.takeProfit else l.stopLoss;
    FactorSign(c, l.direction, false);
    assert ClosePrice(c, l, reason) == level * k;
    ProductSign(level, k, ClosePrice(c, l, reason));
    hide SlippageFactor, ClosePrice, FundingCost;
  }

  lemma FillsArePositive(c: Config, l: Levels, balance: real, time: int)
    requires ValidConfig(c) && OpenFill(c, l, balance, time).Success?
    ensures OpenFill(c, l, balance, time).value.price > 0.0 && OpenFill(c, l, balance, time).value.quantity > 0.0
  {
    var price := OpenPrice(c, l);
    SizingSucceedsExactlyWhenSizable(balance, c.marginPerTrade, c.leverage, c.riskPercent, price, l.stopLoss);
    QuantityIsGreatestWithinBothCaps(
      balance, c.marginPerTrade, c.leverage, c.riskPercent, price, l.stopLoss, 0.0);
    hide OpenPrice, ResolveQuantity;
  }

  /** The minute touches the active signal and the move cannot be priced. */
  predicate Unpriceable(c: Config, st: RunState, m: Candle) {
    && st.active.Some? && m.timestamp >= st.active.value.decisionTime
    && var (a, short) := (st.active.value, st.active.value.levels.direction.Short?);
       if a.fill.None? then
         EvaluateEntry(a.levels, m.high, m.low).EntryHit? && (st.balance <= 0.0 || (short && Wiped(c)))
       else
         IsExit(EvaluateCandle(a.levels, m.high, m.low)) && !short && Wiped(c)
  }

  lemma MinuteFailsExactlyWhen(c: Config, st: RunState, m: Candle)
    requires ValidConfig(c) && Money(c, st)
    ensures MonitorStep(c, st, m).Failure? <==> Unpriceable(c, st, m)
    ensures MonitorStep(c, st, m).Failure? ==>
              MonitorStep(c, st, m).error.InvalidMinute? && MonitorStep(c, st, m).error.timestamp == m.timestamp
  {
    hide OpenFill, CloseFill, Wiped;
    if st.active.Some? {
      var a := st.active.value;
      EntryFailsExactlyWhen(c, a.levels, st.balance, m.timestamp);
      if a.fill.Some? {
        FillsArePositive(c, a.levels, st.balance, a.fill.value.time);
        ExitFailsExactlyWhen(c, a.levels, a.fill.value, EvaluateCandle(a.levels, m.high, m.low), m.timestamp);
      }
    }
  }

  // --- Draining ------------------------------------------------------------------

  /** Some minute before `stop`, opening at `ts`, is reached and cannot be priced. */
  ghost predicate FailsAt(c: Config, minutes: seq<Candle>, st: RunState, stop: nat, ts: int)
    requires st.cursor <= stop <= |minutes|
  {
    exists k: nat :: st.cursor <= k < stop && minutes[k].timestamp == ts && Drain(c, minutes, st, k).Success?
                     && Unpriceable(c, Drain(c, minutes, st, k).value, minutes[k])
  }

  lemma OneMinuteMore(c: Config, minutes: seq<Candle>, st: RunState, stop: nat, ts: int)
    requires st.cursor < stop <= |minutes|
    ensures FailsAt(c, minutes, st, stop, ts) <==>
              || FailsAt(c, minutes, st, stop - 1, ts)
              || (minutes[stop - 1].timestamp == ts && Drain(c, minutes, st, stop - 1).Success?
                  && Unpriceable(c, Drain(c, minutes, st, stop - 1).value, minutes[stop - 1]))
  {
    hide Drain, Unpriceable;
  }

  lemma MoneyOfInv(c: Config, minutes: seq<Candle>, st: RunState, decided: nat)
    requires Inv(c, minutes, st, decided)
    ensures Money(c, st)
  {
  }

  lemma {:induction false} DrainFailsExactlyWhen(c: Config, minutes: seq<Candle>, st: RunState, stop: nat, decided: nat)
    requires ValidConfig(c) && Ascending(minutes) && Inv(c, minutes, st, decided) && st.cursor <= stop <= |minutes|
    ensures
      var r := Drain(c, minutes, st, stop);
      && (r.Failure? ==> r.error.InvalidMinute? && FailsAt(c, minutes, st, stop, r.error.timestamp))
      && (r.Success? ==> forall ts :: !FailsAt(c, minutes, st, stop, ts))
    decreases stop
  {
    hide MonitorStep, Unpriceable, Inv, FailsAt, Money, ValidConfig;
    if stop == st.cursor {
      NothingFails(c, minutes, st);
    } else {
      var before := Drain(c, minutes, st, stop - 1);
      DrainFailsExactlyWhen(c, minutes, st, stop - 1, decided);
      if before.Success? {
        DrainKeepsInv(c, minutes, st, stop - 1, decided);
        MoneyOfInv(c, minutes, before.value, decided);
        MinuteFailsExactlyWhen(c, before.value, minutes[stop - 1]);
      }
      forall ts ensures FailsAt(c, minutes, st, stop, ts) <==>
                          || FailsAt(c, minutes, st, stop - 1, ts)
                          || (minutes[stop - 1].timestamp == ts && before.Success?
                              && Unpriceable(c, before.value, minutes[stop - 1]))
      {
        OneMinuteMore(c, minutes, st, stop, ts);
      }
    }
  }

  lemma NothingFails(c: Config, minutes: seq<Candle>, st: RunState)
    requires st.cursor <= |minutes|
    ensures forall ts :: !FailsAt(c, minutes, st, st.cursor, ts)
  {
  }

  // --- The run -----------------------------------------------------------------------

  /** Up to which minute the loop drains after `n` candles. */
  function DrainedTo(c: Config, hours: seq<Candle>, minutes: seq<Candle>, st: RunState, n: nat): (stop: nat)
    requires n <= |hours| && st.cursor <= |minutes|
    ensures st.cursor <= stop <= |minutes|
  {
    if n < |hours| then CursorAt(minutes, st.cursor, hours[n].timestamp + c.periodMs) else |minutes|
  }

  /** The first `n` candles pass, and a minute due next, opening at `ts`, cannot be priced. */
  ghost predicate Raises(c: Config, market: Market, hours: seq<Candle>, minutes: seq<Candle>, n: nat, ts: int)
    requires Runnable(c, hours, minutes)
  {
    && c.minCandles - 1 <= n <= |hours| && AfterCandles(c, market, hours, minutes, n).Success?
    && var st := AfterCandles(c, market, hours, minutes, n).value;
       FailsAt(c, minutes, st, DrainedTo(c, hours, minutes, st, n), ts)
  }

  /** What the minutes after `n` passed candles do. */
  lemma NextMinutesFailExactlyWhen(
      c: Config, market: Market, hours: seq<Candle>, minutes: seq<Candle>, n: nat)
    requires Runnable(c, hours, minutes) && c.minCandles - 1 <= n <= |hours|
    requires AfterCandles(c, market, hours, minutes, n).Success?
    ensures
      var st := AfterCandles(c, market, hours, minutes, n).value;
      var r := Drain(c, minutes, st, DrainedTo(c, hours, minutes, st, n));
      && (r.Failure? ==> r.error.InvalidMinute? && Raises(c, market, hours, minutes, n, r.error.timestamp))
      && (r.Success? ==> forall ts :: !Raises(c, market, hours, minutes, n, ts))
  {
    hide AfterCandles, Drain, Inv, FailsAt, CursorAt;
    var st := AfterCandles(c, market, hours, minutes, n).value;
    AfterCandlesInv(c, market, hours, minutes, n);
    CursorInRange(c, market, hours, minutes, n);
    DrainFailsExactlyWhen(c, minutes, st, DrainedTo(c, hours, minutes, st, n), n - (c.minCandles - 1));
  }

  lemma CursorInRange(c: Config, market: Market, hours: seq<Candle>, minutes: seq<Candle>, n: nat)
    requires Runnable(c, hours, minutes) && c.minCandles - 1 <= n <= |hours|
    requires AfterCandles(c, market, hours, minutes, n).Success?
    ensures AfterCandles(c, market, hours, minutes, n).value.cursor <= |minutes|
  {
  }

  /** A minute error of a candle step is that of its minutes. */
  lemma DecisionsNameCandles(
      c: Config, market: Market, hours: seq<Candle>, minutes: seq<Candle>, st: RunState, i: nat)
    requires i < |hours| && st.cursor <= |minutes|
    ensures
      var drained := Drain(c, minutes, st, DrainedTo(c, hours, minutes, st, i));
      var step := CandleStep(c, market, hours, minutes, st, i);
      && (drained.Failure? ==> step == drained)
      && (step.Failure? && step.error.InvalidMinute? && drained.Success? ==> false)
  {
    hide Drain, Create;
  }

  lemma {:induction false} CandlesRaiseExactlyWhen(
      c: Config, market: Market, hours: seq<Candle>, minutes: seq<Candle>, n: nat)
    requires Runnable(c, hours, minutes) && c.minCandles - 1 <= n <= |hours|
    ensures
      var r := AfterCandles(c, market, hours, minutes, n);
      && (r.Failure? && r.error.InvalidMinute? ==>
            exists m: nat :: m < n && Raises(c, market, hours, minutes, m, r.error.timestamp))
      && (r.Success? || !r.error.InvalidMinute? ==>
            forall m: nat, ts :: m < n ==> !Raises(c, market, hours, minutes, m, ts))
    decreases n
  {
    hide Drain, Raises, CandleStep;
    if n == c.minCandles - 1 {
      NoEarlierRaise(c, market, hours, minutes);
    } else {
      var before := AfterCandles(c, market, hours, minutes, n - 1);
      CandlesRaiseExactlyWhen(c, market, hours, minutes, n - 1);
      if before.Success? {
        NextMinutesFailExactlyWhen(c, market, hours, minutes, n - 1);
        CursorInRange(c, market, hours, minutes, n - 1);
        DecisionsNameCandles(c, market, hours, minutes, before.value, n - 1);
      } else {
        FailedCandlesRaiseNoMore(c, market, hours, minutes, n - 1);
      }
    }
  }

  lemma NoEarlierRaise(c: Config, market: Market, hours: seq<Candle>, minutes: seq<Candle>)
    requires Runnable(c, hours, minutes)
    ensures forall m: nat, ts :: m < c.minCandles - 1 ==> !Raises(c, market, hours, minutes, m, ts)
  {
  }

  lemma FailedCandlesRaiseNoMore(c: Config, market: Market, hours: seq<Candle>, minutes: seq<Candle>, n: nat)
    requires Runnable(c, hours, minutes) && c.minCandles - 1 <= n <= |hours|
    requires AfterCandles(c, market, hours, minutes, n).Failure?
    ensures forall ts :: !Raises(c, market, hours, minutes, n, ts)
  {
  }

  /** MINUTE ERRORS, exactly: a run raises over a minute if and only if, after some number of
      decision candles, a minute due before the next decision touches the active signal and
      the move cannot be priced: an entry without money left, or a price that slippage of 100%
      or more takes. The error names that minute. */
  lemma RunRaisesExactlyWhen(c: Config, market: Market, hours: seq<Candle>, minutes: seq<Candle>)
    requires Runnable(c, hours, minutes)
    ensures
      var r := Run(c, market, hours, minutes);
      && (r.Failure? && r.error.InvalidMinute? ==>
            exists n: nat :: Raises(c, market, hours, minutes, n, r.error.timestamp))
      && (r.Success? || !r.error.InvalidMinute? ==>
            forall n: nat, ts :: !Raises(c, market, hours, minutes, n, ts))
  {
    hide Drain, Raises, AfterCandles, Finish;
    var end := AfterCandles(c, market, hours, minutes, |hours|);
    CandlesRaiseExactlyWhen(c, market, hours, minutes, |hours|);
    NoLaterRaise(c, market, hours, minutes);
    if end.Success? {
      NextMinutesFailExactlyWhen(c, market, hours, minutes, |hours|);
    } else {
      FailedCandlesRaiseNoMore(c, market, hours, minutes, |hours|);
    }
  }

  lemma NoLaterRaise(c: Config, market: Market, hours: seq<Candle>, minutes: seq<Candle>)
    requires Runnable(c, hours, minutes)
    ensures forall n: nat, ts :: n > |hours| ==> !Raises(c, market, hours, minutes, n, ts)
  {
  }
}
