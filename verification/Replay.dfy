/** The meaning of one backtest run (backtest/engine.py) as a function of its
    configuration, its data and its decision provider. `BacktestEngine` is proved
    to compute exactly this; the theorems about runs are stated on it. */
module Replay {
  import opened Common
  import opened DemoAccount
  import opened Monitor
  import opened Validator

  datatype Funding = Funding(timestamp: int, rate: real)

  datatype Config = Config(
    initialBalance: real, marginPerTrade: real, leverage: int, riskPercent: real,
    feeRate: real, slippageBps: real, fundingRates: seq<Funding>,
    minCandles: nat, periodMs: int, guards: Guards)

  /** What configuration validation enforces before a run. */
  predicate ValidConfig(c: Config) {
    && c.initialBalance > 0.0 && c.marginPerTrade > 0.0 && c.leverage >= 1 && c.riskPercent > 0.0
    && 0.0 <= c.feeRate < 1.0 && c.slippageBps >= 0.0
    && c.minCandles >= 1 && c.periodMs > 0
    && (forall i :: 0 <= i < |c.fundingRates| ==> c.fundingRates[i].rate >= 0.0)
  }

  /** The deterministic outside world: the decision provider sees only a window of
      closed candles (`None` is a provider failure) and the blackout only a time. */
  datatype Market = Market(provider: seq<Candle> -> Option<Analysis>, blackout: int -> Option<string>)

  datatype RunError =
    | InvalidMinute(timestamp: int, cause: CalcError)
    | ProviderFailed(candleTs: int)
    | UnknownDecisionAt(candleTs: int)

  datatype Fill = Fill(time: int, price: real, quantity: real, positionSize: real, entryFee: real, riskAmount: real)

  datatype Exit = Exit(
    time: int, price: real, fee: real, funding: real, gross: real, net: real,
    reason: Touch, rMultiple: Option<real>)

  datatype Active = Active(
    signalTs: int, decisionTime: int, levels: Levels, ndx: nat, fill: Option<Fill>, wasAmbiguous: bool)

  datatype Trade = Trade(
    index: nat, signalTs: int, levels: Levels, fill: Fill, exit: Option<Exit>, wasAmbiguous: bool)

  datatype PendingEvent = PendingEvent(
    signalTs: int, decisionTime: int, levels: Levels,
    enteredAt: Option<int>, closedAt: Option<int>, outcome: Option<Touch>, tradeIndex: nat)

  datatype AmbiguityEvent = AmbiguityEvent(signalTs: int, minuteTs: int, atEntry: bool, direction: Direction)

  datatype BlockedEvent =
    | BlockedByActive(candleTs: int, decisionTime: int, direction: Direction, signalTs: int)
    | BlockedByBlackout(candleTs: int, decisionTime: int, reason: string)

  datatype RejectedEvent = RejectedEvent(candleTs: int, decision: Decision, reason: Rejection)

  datatype DecisionRecord = DecisionRecord(
    candleTs: int, decision: Decision, confidence: Option<real>, closePrice: Option<real>)

  datatype Counts = Counts(
    analyzed: nat, waits: nat, longs: nat, shorts: nat, rejected: nat, blocked: nat,
    created: nat, entriesHit: nat, completed: nat, entryAmbiguities: nat, exitAmbiguities: nat)

  /** Everything `run` keeps while it loops; `cursor` is the shared minute index. */
  datatype RunState = RunState(
    balance: real, equity: seq<real>, cursor: nat, active: Option<Active>,
    trades: seq<Trade>, pendingEvents: seq<PendingEvent>, ambiguous: seq<AmbiguityEvent>,
    blocked: seq<BlockedEvent>, rejected: seq<RejectedEvent>, decisions: seq<DecisionRecord>,
    counts: Counts)

  type Step = Result<RunState, RunError>

  function Start(c: Config): RunState {
    RunState(c.initialBalance, [c.initialBalance], 0, None, [], [], [], [], [], [],
             Counts(0, 0, 0, 0, 0, 0, 0, 0, 0, 0, 0))
  }

  // --- Opening and closing a position -------------------------------------

  function OpenPrice(c: Config, l: Levels): real {
    l.entry * SlippageFactor(c.slippageBps, l.direction, true)
  }

  function FillOf(c: Config, l: Levels, time: int, price: real, quantity: real): Fill {
    var notional := quantity * price;
    Fill(time, price, quantity, notional, notional * c.feeRate, Abs(price - l.stopLoss) * quantity)
  }

  function OpenFill(c: Config, l: Levels, balance: real, time: int): (r: Calc<Fill>)
    ensures r.Success? ==> r.value.time == time
  {
    var price := OpenPrice(c, l);
    var sized :- ResolveQuantity(balance, c.marginPerTrade, c.leverage, c.riskPercent, price, l.stopLoss);
    Success(FillOf(c, l, time, price, sized.0))
  }

  /** Funding charged between two instants, both inclusive. */
  function FundingCost(rates: seq<Funding>, positionSize: real, start: int, end: int): real {
    if rates == [] then 0.0 else
      var last := rates[|rates| - 1];
      FundingCost(rates[..|rates| - 1], positionSize, start, end)
      + if start <= last.timestamp <= end then last.rate * positionSize else 0.0
  }

  /** The configured exit level moved adversely by slippage. */
  function ClosePrice(c: Config, l: Levels, reason: Touch): real {
    (if reason.TpHit? then l.takeProfit else l.stopLoss) * SlippageFactor(c.slippageBps, l.direction, false)
  }

  function ExitOf(f: Fill, time: int, price: real, fee: real, funding: real, gross: real, reason: Touch): Exit {
    var net := gross - f.entryFee - fee - funding;
    Exit(time, price, fee, funding, gross, net, reason,
         if f.riskAmount > 0.0 then Some(net / f.riskAmount) else None)
  }

  function CloseFill(c: Config, l: Levels, f: Fill, reason: Touch, time: int): (r: Calc<Exit>)
    ensures r.Success? ==> r.value.time == time && r.value.reason == reason
  {
    var price := ClosePrice(c, l, reason);
    var gross :- GrossPnl(l.direction, f.price, price, f.quantity);
    var fee :- ExitFee(price, f.quantity, c.feeRate);
    var funding := FundingCost(c.fundingRates, f.positionSize, f.time, time);
    Success(ExitOf(f, time, price, fee, funding, gross, reason))
  }

  function TradeOf(a: Active, exit: Option<Exit>): Trade
    requires a.fill.Some?
  {
    Trade(a.ndx, a.signalTs, a.levels, a.fill.value, exit, a.wasAmbiguous)
  }

  function EventOf(a: Active, exit: Option<Exit>): PendingEvent {
    PendingEvent(a.signalTs, a.decisionTime, a.levels,
                 if a.fill.Some? then Some(a.fill.value.time) else None,
                 if exit.Some? then Some(exit.value.time) else None,
                 if exit.Some? then Some(exit.value.reason) else None,
                 a.ndx)
  }

  // --- One minute ----------------------------------------------------------

  function MarkAmbiguous(st: RunState, a: Active, minuteTs: int): RunState {
    var atEntry := a.fill.None?;
    var event := AmbiguityEvent(a.signalTs, minuteTs, atEntry, a.levels.direction);
    var counts :=
      if atEntry then st.counts.(entryAmbiguities := st.counts.entryAmbiguities + 1)
      else st.counts.(exitAmbiguities := st.counts.exitAmbiguities + 1);
    st.(active := Some(a.(wasAmbiguous := true)), ambiguous := st.ambiguous + [event], counts := counts)
  }

  function Settle(st: RunState, a: Active, exit: Exit): RunState
    requires a.fill.Some?
  {
    var balance := st.balance + exit.net;
    st.(balance := balance, equity := st.equity + [balance], active := None,
        trades := st.trades + [TradeOf(a, Some(exit))],
        pendingEvents := st.pendingEvents + [EventOf(a, Some(exit))],
        counts := st.counts.(completed := st.counts.completed + 1))
  }

  function AtMinute<T>(timestamp: int, r: Calc<T>): Result<T, RunError> {
    match r
    case Success(v) => Success(v)
    case Failure(e) => Failure(InvalidMinute(timestamp, e))
  }

  /** The nested `monitor`: at most one lifecycle move per minute. */
  function MonitorStep(c: Config, st: RunState, m: Candle): Step {
    if st.active.None? || m.timestamp < st.active.value.decisionTime then Success(st) else
      var a := st.active.value;
      if a.fill.None? then
        var entry := EvaluateEntry(a.levels, m.high, m.low);
        if entry.EntryHit? then
          var fill :- AtMinute(m.timestamp, OpenFill(c, a.levels, st.balance, m.timestamp));
          Success(st.(active := Some(a.(fill := Some(fill))),
                      counts := st.counts.(entriesHit := st.counts.entriesHit + 1)))
        else if entry.Ambiguous? then Success(MarkAmbiguous(st, a, m.timestamp))
        else Success(st)
      else
        var outcome := EvaluateCandle(a.levels, m.high, m.low);
        if outcome.Monitoring? then Success(st)
        else if outcome.Ambiguous? then Success(MarkAmbiguous(st, a, m.timestamp))
        else
          var exit :- AtMinute(m.timestamp, CloseFill(c, a.levels, a.fill.value, outcome, m.timestamp));
          Success(Settle(st, a, exit))
  }

  /** Feed minutes to the monitor until the cursor stands at `stop`. */
  function Drain(c: Config, minutes: seq<Candle>, st: RunState, stop: nat): Step
    requires st.cursor <= stop <= |minutes|
    decreases stop
  {
    if stop == st.cursor then Success(st) else
      var before :- Drain(c, minutes, st, stop - 1);
      var after :- MonitorStep(c, before, minutes[stop - 1]);
      Success(after.(cursor := stop))
  }

  /** Where the cursor stops: the first minute from `from` not before `limit`. */
  function CursorAt(minutes: seq<Candle>, from: nat, limit: int): (stop: nat)
    requires from <= |minutes|
    ensures from <= stop <= |minutes|
    ensures forall n :: from <= n < stop ==> minutes[n].timestamp < limit
    ensures stop < |minutes| ==> minutes[stop].timestamp >= limit
    decreases |minutes| - from
  {
    if from < |minutes| && minutes[from].timestamp < limit then CursorAt(minutes, from + 1, limit) else from
  }

  // --- One decision candle -------------------------------------------------

  /** Gates, decision, validation and creation; sees the window up to its candle only. */
  function Decide(c: Config, market: Market, window: seq<Candle>, decisionTime: int, st: RunState): Step
    requires window != []
  {
    var ts := window[|window| - 1].timestamp;
    var k := st.counts;
    if st.active.Some? then
      var a := st.active.value;
      Success(st.(blocked := st.blocked + [BlockedByActive(ts, decisionTime, a.levels.direction, a.signalTs)],
                  counts := k.(blocked := k.blocked + 1)))
    else if market.blackout(decisionTime).Some? && market.blackout(decisionTime).value != "" then
      Success(st.(blocked := st.blocked + [BlockedByBlackout(ts, decisionTime, market.blackout(decisionTime).value)],
                  counts := k.(blocked := k.blocked + 1)))
    else
      match market.provider(window)
      case None => Failure(ProviderFailed(ts))
      case Some(analysis) =>
        var record := DecisionRecord(ts, analysis.decision, analysis.confidence, analysis.candleClose);
        var seen := st.(decisions := st.decisions + [record], counts := k.(analyzed := k.analyzed + 1));
        match analysis.decision
        case UnknownDecision(_) => Failure(UnknownDecisionAt(ts))
        case WaitDecision => Success(seen.(counts := seen.counts.(waits := k.waits + 1)))
        case LongDecision =>
          Success(Create(c, analysis, ts, decisionTime, seen.(counts := seen.counts.(longs := k.longs + 1))))
        case ShortDecision =>
          Success(Create(c, analysis, ts, decisionTime, seen.(counts := seen.counts.(shorts := k.shorts + 1))))
  }

  function Create(c: Config, analysis: Analysis, ts: int, decisionTime: int, st: RunState): RunState {
    var k := st.counts;
    match ValidateAnalysis(analysis, c.guards)
    case Failure(reason) =>
      st.(rejected := st.rejected + [RejectedEvent(ts, analysis.decision, reason)],
          counts := k.(rejected := k.rejected + 1))
    case Success(candidate) =>
      st.(active := Some(Active(ts, decisionTime, candidate.levels, k.created, None, false)),
          counts := k.(created := k.created + 1))
  }

  // --- The whole run -------------------------------------------------------

  predicate Runnable(c: Config, hours: seq<Candle>, minutes: seq<Candle>) {
    ValidConfig(c) && Ascending(hours) && Ascending(minutes) && c.minCandles <= |hours|
  }

  lemma {:induction false} DrainMovesCursor(c: Config, minutes: seq<Candle>, st: RunState, stop: nat)
    requires st.cursor <= stop <= |minutes|
    ensures Drain(c, minutes, st, stop).Success? ==> Drain(c, minutes, st, stop).value.cursor == stop
  {
    hide MonitorStep;
    if stop != st.cursor {
      DrainMovesCursor(c, minutes, st, stop - 1);
    }
  }

  function CandleStep(
      c: Config, market: Market, hours: seq<Candle>, minutes: seq<Candle>, st: RunState, i: nat): (r: Step)
    requires i < |hours| && st.cursor <= |minutes|
    ensures r.Success? ==> r.value.cursor == CursorAt(minutes, st.cursor, hours[i].timestamp + c.periodMs)
  {
    var decisionTime := hours[i].timestamp + c.periodMs;
    var stop := CursorAt(minutes, st.cursor, decisionTime);
    DrainMovesCursor(c, minutes, st, stop);
    var drained :- Drain(c, minutes, st, stop);
    Decide(c, market, hours[..i + 1], decisionTime, drained)
  }

  /** The state once the decision candles before index `n` are processed. */
  function AfterCandles(c: Config, market: Market, hours: seq<Candle>, minutes: seq<Candle>, n: nat): (r: Step)
    requires Runnable(c, hours, minutes) && c.minCandles - 1 <= n <= |hours|
    ensures r.Success? ==> r.value.cursor <= |minutes|
    decreases n
  {
    if n == c.minCandles - 1 then Success(Start(c)) else
      var before :- AfterCandles(c, market, hours, minutes, n - 1);
      CandleStep(c, market, hours, minutes, before, n - 1)
  }

  datatype RunResult = RunResult(
    eligible: nat, state: RunState, trades: seq<Trade>, pendingEvents: seq<PendingEvent>,
    openAtEnd: nat, pendingAtEnd: nat, longCreated: nat, shortCreated: nat)

  function CountDirection(events: seq<PendingEvent>, d: Direction): nat {
    if events == [] then 0 else
      CountDirection(events[..|events| - 1], d) + if events[|events| - 1].levels.direction == d then 1 else 0
  }

  /** The final tallies over the state the two loops leave behind. */
  function Finish(c: Config, hours: seq<Candle>, st: RunState): (r: RunResult)
    requires c.minCandles >= 1 && c.minCandles <= |hours|
    ensures r.state == st
  {
    var open := st.active.Some? && st.active.value.fill.Some?;
    var trades := if open then st.trades + [TradeOf(st.active.value, None)] else st.trades;
    var events := if st.active.Some? then st.pendingEvents + [EventOf(st.active.value, None)] else st.pendingEvents;
    RunResult(|hours| - (c.minCandles - 1), st, trades, events,
              if open then 1 else 0, if st.active.Some? && !open then 1 else 0,
              CountDirection(events, Long), CountDirection(events, Short))
  }

  function Run(c: Config, market: Market, hours: seq<Candle>, minutes: seq<Candle>): Result<RunResult, RunError>
    requires Runnable(c, hours, minutes)
  {
    var afterHours :- AfterCandles(c, market, hours, minutes, |hours|);
    var end :- Drain(c, minutes, afterHours, |minutes|);
    Success(Finish(c, hours, end))
  }
}
