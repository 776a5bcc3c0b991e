/** The replay loop in its own imperative form (backtest/engine.py): a mutable
    active signal, a shared minute cursor and accumulating lists, proved to
    compute `Replay.Run`. */
module Backtest {
  import opened Common
  import opened DemoAccount
  import opened Monitor
  import opened Validator
  import opened Replay

  /** The single mutable lifecycle object of a run. */
  class ActiveSignal {
    const signalTs: int
    const decisionTime: int
    const levels: Levels
    const ndx: nat
    var fill: Option<Fill>
    var exit: Option<Exit>
    var wasAmbiguous: bool

    constructor (signalTs: int, decisionTime: int, levels: Levels, ndx: nat)
      ensures this.signalTs == signalTs && this.decisionTime == decisionTime
      ensures this.levels == levels && this.ndx == ndx
      ensures fill.None? && exit.None? && !wasAmbiguous
    {
      this.signalTs, this.decisionTime, this.levels, this.ndx := signalTs, decisionTime, levels, ndx;
      fill, exit, wasAmbiguous := None, None, false;
    }

    function Value(): Active
      reads this
    {
      Active(signalTs, decisionTime, levels, ndx, fill, wasAmbiguous)
    }
  }

  class BacktestEngine {
    const config: Config
    const market: Market
    const hours: seq<Candle>
    const minutes: seq<Candle>

    var balance: real
    var equityCurve: seq<real>
    var minuteIdx: nat
    var active: ActiveSignal?
    var trades: seq<Trade>
    var pendingEvents: seq<PendingEvent>
    var ambiguousEvents: seq<AmbiguityEvent>
    var blockedEvents: seq<BlockedEvent>
    var rejectedEvents: seq<RejectedEvent>
    var decisions: seq<DecisionRecord>
    var counts: Counts

    /** The program checks the number of decision candles here, and has validated data and
        configuration before; `Runnable` states what those checks leave. */
    constructor (config: Config, market: Market, hours: seq<Candle>, minutes: seq<Candle>)
      requires Runnable(config, hours, minutes)
      ensures this.config == config && this.market == market
      ensures this.hours == hours && this.minutes == minutes
    {
      this.config, this.market, this.hours, this.minutes := config, market, hours, minutes;
      active, counts := null, Counts(0, 0, 0, 0, 0, 0, 0, 0, 0, 0, 0);
    }

    function State(): RunState
      reads this, active
    {
      RunState(balance, equityCurve, minuteIdx, if active == null then None else Some(active.Value()),
               trades, pendingEvents, ambiguousEvents, blockedEvents, rejectedEvents, decisions, counts)
    }

    method OpenPosition(signal: ActiveSignal, minuteTs: int, available: real) returns (r: Outcome<CalcError>)
      modifies signal
      ensures signal.exit == old(signal.exit) && signal.wasAmbiguous == old(signal.wasAmbiguous)
      ensures match OpenFill(config, signal.levels, available, minuteTs)
              case Success(f) => r.Pass? && signal.fill == Some(f)
              case Failure(e) => r == Fail(e) && signal.fill == old(signal.fill)
    {
      var entryExec := OpenPrice(config, signal.levels);
      var sized := ResolveQuantity(
        available, config.marginPerTrade, config.leverage, config.riskPercent, entryExec, signal.levels.stopLoss);
      if sized.Failure? {
        return Fail(sized.error);
      }
      signal.fill := Some(FillOf(config, signal.levels, minuteTs, entryExec, sized.value.0));
      r := Pass;
    }

    method ChargeFunding(positionSize: real, start: int, end: int) returns (total: real)
      ensures total == FundingCost(config.fundingRates, positionSize, start, end)
    {
      total := 0.0;
      var rates := config.fundingRates;
      for k := 0 to |rates|
        invariant total == FundingCost(rates[..k], positionSize, start, end)
      {
        assert rates[..k + 1][..k] == rates[..k];
        if start <= rates[k].timestamp <= end {
          total := total + rates[k].rate * positionSize;
        }
      }
      assert rates[..|rates|] == rates;
    }

    /** Fills the exit level with slippage; returns the net profit so that the
        caller moves the balance exactly once. */
    method ClosePosition(signal: ActiveSignal, outcome: Touch, minuteTs: int) returns (r: Calc<real>)
      requires signal.fill.Some? && IsExit(outcome)
      modifies signal
      ensures signal.fill == old(signal.fill) && signal.wasAmbiguous == old(signal.wasAmbiguous)
      ensures match CloseFill(config, signal.levels, signal.fill.value, outcome, minuteTs)
              case Success(x) => r == Success(x.net) && signal.exit == Some(x)
              case Failure(e) => r == Failure(e)
    {
      var f := signal.fill.value;
      var exitExec := ClosePrice(config, signal.levels, outcome);
      var gross := GrossPnl(signal.levels.direction, f.price, exitExec, f.quantity);
      if gross.Failure? {
        return Failure(gross.error);
      }
      var fee := ExitFee(exitExec, f.quantity, config.feeRate);
      if fee.Failure? {
        return Failure(fee.error);
      }
      var funding := ChargeFunding(f.positionSize, f.time, minuteTs);
      var exit := ExitOf(f, minuteTs, exitExec, fee.value, funding, gross.value, outcome);
      signal.exit := Some(exit);
      r := Success(exit.net);
    }

    method RecordAmbiguity(minuteTs: int, atEntry: bool)
      requires active != null && atEntry == active.fill.None?
      modifies this, active
      ensures active == old(active)
      ensures State() == MarkAmbiguous(old(State()), old(active.Value()), minuteTs)
    {
      if atEntry {
        counts := counts.(entryAmbiguities := counts.entryAmbiguities + 1);
      } else {
        counts := counts.(exitAmbiguities := counts.exitAmbiguities + 1);
      }
      active.wasAmbiguous := true;
      ambiguousEvents :=
        ambiguousEvents + [AmbiguityEvent(active.signalTs, minuteTs, atEntry, active.levels.direction)];
    }

    method MonitorMinute(m: Candle) returns (r: Outcome<RunError>)
      modifies this, active
      ensures active == old(active) || active == null
      ensures minuteIdx == old(minuteIdx)
      ensures match MonitorStep(config, old(State()), m)
              case Success(s) => r.Pass? && State() == s
              case Failure(e) => r == Fail(e)
    {
      hide OpenFill, CloseFill;
      if active == null || m.timestamp < active.decisionTime {
        return Pass;
      }
      if active.fill.None? {
        r := MonitorEntry(m);
      } else {
        r := MonitorExit(m);
      }
    }

    method MonitorEntry(m: Candle) returns (r: Outcome<RunError>)
      requires active != null && active.fill.None? && m.timestamp >= active.decisionTime
      modifies this, active
      ensures active == old(active) && minuteIdx == old(minuteIdx)
      ensures match MonitorStep(config, old(State()), m)
              case Success(s) => r.Pass? && State() == s
              case Failure(e) => r == Fail(e)
    {
      hide OpenFill, CloseFill;
      var entry := EvaluateEntry(active.levels, m.high, m.low);
      if entry.EntryHit? {
        var filling := OpenPosition(active, m.timestamp, balance);
        if filling.Fail? {
          return Fail(InvalidMinute(m.timestamp, filling.error));
        }
        counts := counts.(entriesHit := counts.entriesHit + 1);
      } else if entry.Ambiguous? {
        RecordAmbiguity(m.timestamp, true);
      }
      return Pass;
    }

    method MonitorExit(m: Candle) returns (r: Outcome<RunError>)
      requires active != null && active.fill.Some? && m.timestamp >= active.decisionTime
      modifies this, active
      ensures active == old(active) || active == null
      ensures minuteIdx == old(minuteIdx)
      ensures match MonitorStep(config, old(State()), m)
              case Success(s) => r.Pass? && State() == s
              case Failure(e) => r == Fail(e)
    {
      hide OpenFill, CloseFill;
      var outcome := EvaluateCandle(active.levels, m.high, m.low);
      if outcome.Monitoring? {
        return Pass;
      }
      if outcome.Ambiguous? {
        RecordAmbiguity(m.timestamp, false);
        return Pass;
      }
      var net := ClosePosition(active, outcome, m.timestamp);
      if net.Failure? {
        return Fail(InvalidMinute(m.timestamp, net.error));
      }
      balance := balance + net.value;
      equityCurve := equityCurve + [balance];
      counts := counts.(completed := counts.completed + 1);
      trades := trades + [TradeOf(active.Value(), active.exit)];
      pendingEvents := pendingEvents + [EventOf(active.Value(), active.exit)];
      active := null;
      r := Pass;
    }

    /** Both minute loops: advance the cursor while minutes lie before `limit`
        (`None` for the tail after the last decision candle). */
    method DrainUntil(limit: Option<int>) returns (r: Outcome<RunError>)
      requires minuteIdx <= |minutes|
      modifies this, active
      ensures active == old(active) || active == null
      ensures
        var stop := if limit.Some? then CursorAt(minutes, old(minuteIdx), limit.value) else |minutes|;
        match Drain(config, minutes, old(State()), stop)
        case Success(s) => r.Pass? && State() == s && minuteIdx == stop
        case Failure(e) => r == Fail(e)
    {
      hide MonitorStep;
      ghost var stop := if limit.Some? then CursorAt(minutes, minuteIdx, limit.value) else |minutes|;
      ghost var start := State();
      while minuteIdx < |minutes| && (limit.None? || minutes[minuteIdx].timestamp < limit.value)
        invariant start.cursor <= minuteIdx <= stop <= |minutes|
        invariant active == old(active) || active == null
        invariant Drain(config, minutes, start, minuteIdx) == Success(State())
        decreases |minutes| - minuteIdx
      {
        var step := MonitorMinute(minutes[minuteIdx]);
        if step.Fail? {
          DrainFailureLasts(config, minutes, start, minuteIdx + 1, stop);
          return step;
        }
        minuteIdx := minuteIdx + 1;
      }
      r := Pass;
    }

    /** A validated decision becomes the pending signal; a rejected one is only recorded. */
    method CreateFrom(analysis: Analysis, candleTs: int, decisionTime: int)
      requires active == null
      modifies this
      ensures active == null || fresh(active)
      ensures State() == Create(config, analysis, candleTs, decisionTime, old(State()))
    {
      match ValidateAnalysis(analysis, config.guards) {
        case Failure(why) =>
          counts := counts.(rejected := counts.rejected + 1);
          rejectedEvents := rejectedEvents + [RejectedEvent(candleTs, analysis.decision, why)];
        case Success(candidate) =>
          active := new ActiveSignal(candleTs, decisionTime, candidate.levels, counts.created);
          counts := counts.(created := counts.created + 1);
      }
    }

    method DecideCandle(i: nat, decisionTime: int) returns (r: Outcome<RunError>)
      requires i < |hours|
      modifies this
      ensures active == old(active) || fresh(active)
      ensures minuteIdx == old(minuteIdx)
      ensures match Decide(config, market, hours[..i + 1], decisionTime, old(State()))
              case Success(s) => r.Pass? && State() == s
              case Failure(e) => r == Fail(e)
    {
      var candle := hours[i];
      if active != null {
        counts := counts.(blocked := counts.blocked + 1);
        blockedEvents := blockedEvents
          + [BlockedByActive(candle.timestamp, decisionTime, active.levels.direction, active.signalTs)];
        return Pass;
      }
      var reason := market.blackout(decisionTime);
      if reason.Some? && reason.value != "" {
        counts := counts.(blocked := counts.blocked + 1);
        blockedEvents := blockedEvents + [BlockedByBlackout(candle.timestamp, decisionTime, reason.value)];
        return Pass;
      }
      var answer := market.provider(hours[..i + 1]);
      if answer.None? {
        return Fail(ProviderFailed(candle.timestamp));
      }
      var analysis := answer.value;
      counts := counts.(analyzed := counts.analyzed + 1);
      decisions := decisions
        + [DecisionRecord(candle.timestamp, analysis.decision, analysis.confidence, analysis.candleClose)];
      match analysis.decision {
        case UnknownDecision(_) => return Fail(UnknownDecisionAt(candle.timestamp));
        case WaitDecision =>
          counts := counts.(waits := counts.waits + 1);
          return Pass;
        case LongDecision => counts := counts.(longs := counts.longs + 1);
        case ShortDecision => counts := counts.(shorts := counts.shorts + 1);
      }
      CreateFrom(analysis, candle.timestamp, decisionTime);
      r := Pass;
    }

    /** Puts every loop variable at its initial value. */
    method Reset()
      modifies this
      ensures State() == Start(config) && active == null
    {
      balance, equityCurve, minuteIdx, active := config.initialBalance, [config.initialBalance], 0, null;
      trades, pendingEvents, ambiguousEvents, blockedEvents := [], [], [], [];
      rejectedEvents, decisions, counts := [], [], Counts(0, 0, 0, 0, 0, 0, 0, 0, 0, 0, 0);
    }

    /** Catch the minutes up to the decision time, then decide. */
    method ReplayCandle(i: nat) returns (r: Outcome<RunError>)
      requires i < |hours| && minuteIdx <= |minutes|
      modifies this, active
      ensures active == old(active) || active == null || fresh(active)
      ensures match CandleStep(config, market, hours, minutes, old(State()), i)
              case Success(s) => r.Pass? && State() == s
              case Failure(e) => r == Fail(e)
    {
      hide Drain, Decide, MonitorStep;
      var decisionTime := hours[i].timestamp + config.periodMs;
      r := DrainUntil(Some(decisionTime));
      if r.Pass? {
        r := DecideCandle(i, decisionTime);
      }
    }

    /** The main loop over the decision candles, from the initial values. */
    method ReplayHours() returns (r: Outcome<RunError>)
      requires Runnable(config, hours, minutes)
      modifies this
      ensures active == null || fresh(active)
      ensures r.Pass? ==> minuteIdx <= |minutes|
      ensures match AfterCandles(config, market, hours, minutes, |hours|)
              case Success(s) => r.Pass? && State() == s
              case Failure(e) => r == Fail(e)
    {
      hide CandleStep;
      Reset();
      var i: nat := config.minCandles - 1;
      while i < |hours|
        invariant config.minCandles - 1 <= i <= |hours|
        invariant active == null || fresh(active)
        invariant minuteIdx <= |minutes|
        invariant AfterCandles(config, market, hours, minutes, i) == Success(State())
      {
        r := ReplayCandle(i);
        i := i + 1;
        if r.Fail? {
          CandleFailureLasts(config, market, hours, minutes, i);
          return;
        }
      }
      r := Pass;
    }

    method CountCreated(events: seq<PendingEvent>) returns (longs: nat, shorts: nat)
      ensures longs == CountDirection(events, Long) && shorts == CountDirection(events, Short)
    {
      longs, shorts := 0, 0;
      for k := 0 to |events|
        invariant longs == CountDirection(events[..k], Long) && shorts == CountDirection(events[..k], Short)
      {
        assert events[..k + 1][..k] == events[..k];
        if events[k].levels.direction.Long? {
          longs := longs + 1;
        } else {
          shorts := shorts + 1;
        }
      }
      assert events[..|events|] == events;
    }

    method Run() returns (r: Result<RunResult, RunError>)
      requires Runnable(config, hours, minutes)
      modifies this
      ensures r == Replay.Run(config, market, hours, minutes)
    {
      hide Drain, AfterCandles, MonitorStep;
      var replayed := ReplayHours();
      if replayed.Fail? {
        return Failure(replayed.error);
      }
      var tail := DrainUntil(None);
      if tail.Fail? {
        return Failure(tail.error);
      }
      var openAtEnd, pendingAtEnd := 0, 0;
      var allTrades, allEvents := trades, pendingEvents;
      if active != null {
        if active.fill.Some? {
          allTrades, openAtEnd := trades + [TradeOf(active.Value(), None)], 1;
        } else {
          pendingAtEnd := 1;
        }
        allEvents := pendingEvents + [EventOf(active.Value(), None)];
      }
      var longCreated, shortCreated := CountCreated(allEvents);
      r := Success(RunResult(|hours| - (config.minCandles - 1), State(), allTrades, allEvents,
                             openAtEnd, pendingAtEnd, longCreated, shortCreated));
    }
  }

  /** A minute that raises ends the whole drain with the same error. */
  lemma {:induction false} DrainFailureLasts(c: Config, minutes: seq<Candle>, st: RunState, stop: nat, later: nat)
    requires st.cursor <= stop <= later <= |minutes|
    requires Drain(c, minutes, st, stop).Failure?
    ensures Drain(c, minutes, st, later) == Drain(c, minutes, st, stop)
  {
    hide MonitorStep;
    if stop < later {
      DrainFailureLasts(c, minutes, st, stop, later - 1);
    }
  }

  /** A candle that raises ends the whole run with the same error. */
  lemma {:induction false} CandleFailureLasts(
      c: Config, market: Market, hours: seq<Candle>, minutes: seq<Candle>, n: nat)
    requires Runnable(c, hours, minutes) && c.minCandles - 1 <= n <= |hours|
    requires AfterCandles(c, market, hours, minutes, n).Failure?
    ensures AfterCandles(c, market, hours, minutes, |hours|) == AfterCandles(c, market, hours, minutes, n)
    decreases |hours| - n
  {
    hide CandleStep;
    if n < |hours| {
      CandleFailureLasts(c, market, hours, minutes, n + 1);
    }
  }
}
