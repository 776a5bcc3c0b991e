/** Theorems about every completed backtest run: conservation of counts and money,
    first-touch refinement, non-overlap, and the bound on each equity step. */
module RunTheorems {
  import opened Common
  import opened Monitor
  import opened Replay
  import opened RunInvariants
  import NoLookahead

  ghost predicate Inv(c: Config, minutes: seq<Candle>, st: RunState, decided: nat) {
    st.cursor <= |minutes| && Tally(st, decided) && Money(c, st) && Touching(c, minutes, st)
  }

  lemma {:induction false} DrainKeepsInv(c: Config, minutes: seq<Candle>, st: RunState, stop: nat, decided: nat)
    requires Ascending(minutes) && Inv(c, minutes, st, decided) && st.cursor <= stop <= |minutes|
    requires Drain(c, minutes, st, stop).Success?
    ensures Inv(c, minutes, Drain(c, minutes, st, stop).value, decided)
    decreases stop
  {
    hide MonitorStep, Tally, Money, Touching;
    if stop != st.cursor {
      DrainKeepsInv(c, minutes, st, stop - 1, decided);
      DrainMovesCursor(c, minutes, st, stop - 1);
      MonitorKeepsInv(c, minutes, Drain(c, minutes, st, stop - 1).value, decided);
    }
  }

  lemma MonitorKeepsInv(c: Config, minutes: seq<Candle>, st: RunState, decided: nat)
    requires Ascending(minutes) && Inv(c, minutes, st, decided) && st.cursor < |minutes|
    requires MonitorStep(c, st, minutes[st.cursor]).Success?
    ensures Inv(c, minutes, MonitorStep(c, st, minutes[st.cursor]).value.(cursor := st.cursor + 1), decided)
  {
    hide MonitorStep, Touching, SettledFrom, OpenFill;
    MonitorKeepsTally(c, st, minutes[st.cursor], decided);
    MonitorKeepsMoney(c, st, minutes[st.cursor]);
    MonitorKeepsTouching(c, minutes, st);
  }

  lemma CandleKeepsInv(
      c: Config, market: Market, hours: seq<Candle>, minutes: seq<Candle>, st: RunState, i: nat, decided: nat)
    requires Ascending(minutes) && Inv(c, minutes, st, decided) && i < |hours|
    requires st.cursor <= CursorAt(minutes, 0, hours[i].timestamp + c.periodMs)
    requires CandleStep(c, market, hours, minutes, st, i).Success?
    ensures Inv(c, minutes, CandleStep(c, market, hours, minutes, st, i).value, decided + 1)
  {
    hide Drain, Decide, Tally, Money, Touching;
    var time := hours[i].timestamp + c.periodMs;
    var stop := CursorAt(minutes, st.cursor, time);
    NoLookahead.CursorFromAnyEarlierStart(minutes, st.cursor, time);
    DrainKeepsInv(c, minutes, st, stop, decided);
    DrainMovesCursor(c, minutes, st, stop);
    var drained := Drain(c, minutes, st, stop).value;
    var window := hours[..i + 1];
    assert window[|window| - 1] == hours[i];
    DecideKeepsTally(c, market, window, time, drained, decided);
    DecideKeepsMoney(c, market, window, time, drained);
    DecideKeepsTouching(c, market, minutes, window, drained);
  }

  lemma StartInv(c: Config, minutes: seq<Candle>)
    ensures Inv(c, minutes, Start(c), 0)
  {
    hide OpenFill, CloseFill;
  }

  lemma {:induction false} AfterCandlesInv(c: Config, market: Market, hours: seq<Candle>, minutes: seq<Candle>, n: nat)
    requires Runnable(c, hours, minutes) && c.minCandles - 1 <= n <= |hours|
    requires AfterCandles(c, market, hours, minutes, n).Success?
    ensures Inv(c, minutes, AfterCandles(c, market, hours, minutes, n).value, n - (c.minCandles - 1))
    decreases n
  {
    hide CandleStep, Inv;
    if n == c.minCandles - 1 {
      StartInv(c, minutes);
    } else {
      AfterCandlesInv(c, market, hours, minutes, n - 1);
      NoLookahead.CursorIsAtLastDecision(c, market, hours, minutes, n - 1);
      var before := AfterCandles(c, market, hours, minutes, n - 1).value;
      CandleKeepsInv(c, market, hours, minutes, before, n - 1, n - c.minCandles);
    }
  }

  lemma RunEndsInInv(c: Config, market: Market, hours: seq<Candle>, minutes: seq<Candle>)
    requires Runnable(c, hours, minutes) && Run(c, market, hours, minutes).Success?
    ensures
      var r := Run(c, market, hours, minutes).value;
      && r == Finish(c, hours, r.state) && r.state.cursor == |minutes|
      && Inv(c, minutes, r.state, |hours| - (c.minCandles - 1))
  {
    hide AfterCandles, Drain, Inv, Finish;
    var afterHours := AfterCandles(c, market, hours, minutes, |hours|).value;
    AfterCandlesInv(c, market, hours, minutes, |hours|);
    DrainKeepsInv(c, minutes, afterHours, |minutes|, |hours| - (c.minCandles - 1));
    DrainMovesCursor(c, minutes, afterHours, |minutes|);
  }

  // --- Conservation ---------------------------------------------------------

  function SumOf(ts: seq<Trade>, f: Trade -> real): real {
    if ts == [] then 0.0 else SumOf(ts[..|ts| - 1], f) + f(ts[|ts| - 1])
  }

  function Net(t: Trade): real { if t.exit.Some? then t.exit.value.net else 0.0 }
  function Gross(t: Trade): real { if t.exit.Some? then t.exit.value.gross else 0.0 }
  function Fees(t: Trade): real { if t.exit.Some? then t.fill.entryFee + t.exit.value.fee else 0.0 }
  function FundingPaid(t: Trade): real { if t.exit.Some? then t.exit.value.funding else 0.0 }

  /** Every closed trade's net is its gross minus both fees minus funding. */
  ghost predicate NetAddsUp(ts: seq<Trade>) {
    forall i :: 0 <= i < |ts| ==> Net(ts[i]) == Gross(ts[i]) - Fees(ts[i]) - FundingPaid(ts[i])
  }

  lemma {:induction false} SumsAddUp(ts: seq<Trade>)
    requires NetAddsUp(ts)
    ensures SumOf(ts, Net) == SumOf(ts, Gross) - SumOf(ts, Fees) - SumOf(ts, FundingPaid)
  {
    if ts != [] {
      var n := |ts| - 1;
      assert NetAddsUp(ts[..n]) && ts[n] == ts[|ts| - 1];
      SumsAddUp(ts[..n]);
    }
  }

  lemma SettledNetAddsUp(c: Config, t: Trade, before: real, after: real)
    requires SettledFrom(c, t, before, after)
    ensures Net(t) == Gross(t) - Fees(t) - FundingPaid(t)
  {
    hide OpenFill, FundingCost, ClosePrice;
  }

  lemma {:induction false} EquityIsPrefixSum(c: Config, st: RunState, k: nat)
    requires Money(c, st) && k <= |st.trades|
    ensures st.equity[k] == c.initialBalance + SumOf(st.trades[..k], Net)
  {
    hide OpenFill, CloseFill;
    if k > 0 {
      EquityIsPrefixSum(c, st, k - 1);
      assert SettledFrom(c, st.trades[k - 1], st.equity[k - 1], st.equity[k]);
      assert st.trades[..k][..k - 1] == st.trades[..k - 1];
    }
  }

  lemma {:induction false} DirectionsPartition(events: seq<PendingEvent>)
    ensures CountDirection(events, Long) + CountDirection(events, Short) == |events|
  {
    if events != [] {
      DirectionsPartition(events[..|events| - 1]);
    }
  }

  /** CONSERVATION OF COUNTS over every completed run. */
  lemma RunConservesCounts(c: Config, market: Market, hours: seq<Candle>, minutes: seq<Candle>)
    requires Runnable(c, hours, minutes) && Run(c, market, hours, minutes).Success?
    ensures
      var r := Run(c, market, hours, minutes).value;
      var k := r.state.counts;
      && r.eligible == k.analyzed + k.blocked
      && k.analyzed == k.waits + k.longs + k.shorts && k.analyzed == |r.state.decisions|
      && k.longs + k.shorts == k.rejected + k.created
      && k.created == k.completed + r.openAtEnd + r.pendingAtEnd && r.openAtEnd + r.pendingAtEnd <= 1
      && k.entriesHit == k.completed + r.openAtEnd && k.entriesHit == |r.trades|
      && k.created == r.longCreated + r.shortCreated && k.created == |r.pendingEvents|
      && |r.state.ambiguous| == k.entryAmbiguities + k.exitAmbiguities
  {
    hide Run, Money, Touching;
    RunEndsInInv(c, market, hours, minutes);
    DirectionsPartition(Run(c, market, hours, minutes).value.pendingEvents);
  }

  lemma {:induction false} CountIsASize(events: seq<PendingEvent>, d: Direction)
    ensures CountDirection(events, d) == |set k | 0 <= k < |events| && events[k].levels.direction == d|
  {
    if events != [] {
      CountIsASize(events[..|events| - 1], d);
      OneEventMore(events, d);
    }
  }

  lemma OneEventMore(events: seq<PendingEvent>, d: Direction)
    requires events != []
    ensures
      var n := |events| - 1;
      |set k | 0 <= k < |events| && events[k].levels.direction == d|
      == |set k | 0 <= k < |events[..n]| && events[..n][k].levels.direction == d|
         + if events[n].levels.direction == d then 1 else 0
  {
    var n := |events| - 1;
    var front := events[..n];
    var all := set k | 0 <= k < |events| && events[k].levels.direction == d;
    var before := set k | 0 <= k < |front| && front[k].levels.direction == d;
    forall k ensures k in all <==> k in before || (k == n && events[n].levels.direction == d) {
      assert 0 <= k < n ==> front[k] == events[k];
    }
    if events[n].levels.direction == d {
      assert all == before + {n};
    } else {
      assert all == before;
    }
  }

  /** THE TALLIES of a run count what its lists hold, and every trade tells the same story
      as its event. */
  lemma RunTalliesItsLists(c: Config, market: Market, hours: seq<Candle>, minutes: seq<Candle>)
    requires Runnable(c, hours, minutes) && Run(c, market, hours, minutes).Success?
    ensures
      var r := Run(c, market, hours, minutes).value;
      var evs := r.pendingEvents;
      && r.eligible == |hours| - c.minCandles + 1
      && r.longCreated == |set k | 0 <= k < |evs| && evs[k].levels.direction == Long|
      && r.shortCreated == |set k | 0 <= k < |evs| && evs[k].levels.direction == Short|
      && r.state.counts.rejected == |r.state.rejected| && r.state.counts.blocked == |r.state.blocked|
      && r.state.counts.completed == |r.state.trades| && |r.trades| <= |evs|
      && r.openAtEnd == |r.trades| - |r.state.trades| && r.pendingAtEnd == |evs| - |r.trades|
      && r.trades[..|r.state.trades|] == r.state.trades
      && forall k :: 0 <= k < |r.trades| ==>
           var t := r.trades[k];
           && evs[k].signalTs == t.signalTs && evs[k].levels == t.levels && evs[k].tradeIndex == k
           && evs[k].enteredAt == Some(t.fill.time)
           && evs[k].closedAt == (if t.exit.Some? then Some(t.exit.value.time) else None)
           && evs[k].outcome == (if t.exit.Some? then Some(t.exit.value.reason) else None)
  {
    hide Run, Inv, Finish;
    var r := Run(c, market, hours, minutes).value;
    RunEndsInInv(c, market, hours, minutes);
    FinishTallies(c, hours, minutes, r.state, |hours| - (c.minCandles - 1));
    FinishedTradesMatch(c, hours, minutes, r.state, |hours| - (c.minCandles - 1));
    CountIsASize(r.pendingEvents, Long);
    CountIsASize(r.pendingEvents, Short);
  }

  lemma FinishTallies(c: Config, hours: seq<Candle>, minutes: seq<Candle>, st: RunState, decided: nat)
    requires 1 <= c.minCandles <= |hours| && Inv(c, minutes, st, decided)
    ensures
      var r := Finish(c, hours, st);
      && r.eligible == |hours| - c.minCandles + 1 && r.longCreated == CountDirection(r.pendingEvents, Long)
      && r.shortCreated == CountDirection(r.pendingEvents, Short)
      && st.counts.rejected == |st.rejected| && st.counts.blocked == |st.blocked|
      && st.counts.completed == |st.trades| <= |r.trades| <= |r.pendingEvents|
      && r.openAtEnd == |r.trades| - |st.trades| && r.pendingAtEnd == |r.pendingEvents| - |r.trades|
      && r.trades[..|st.trades|] == st.trades
  {
    hide Money, Touching, CountDirection;
  }

  lemma FinishedTradesMatch(c: Config, hours: seq<Candle>, minutes: seq<Candle>, st: RunState, decided: nat)
    requires 1 <= c.minCandles <= |hours| && Inv(c, minutes, st, decided)
    ensures
      var r := Finish(c, hours, st);
      && |r.trades| <= |r.pendingEvents|
      && forall k :: 0 <= k < |r.trades| ==>
           var (t, ev) := (r.trades[k], r.pendingEvents[k]);
           && ev.signalTs == t.signalTs && ev.levels == t.levels && ev.tradeIndex == k
           && ev.enteredAt == Some(t.fill.time)
           && ev.closedAt == (if t.exit.Some? then Some(t.exit.value.time) else None)
           && ev.outcome == (if t.exit.Some? then Some(t.exit.value.reason) else None)
  {
    hide Money, AliveSince, ClosedBefore, CountDirection;
  }

  /** Trade `k` is the `k`-th created signal, and every created signal completed
      except possibly the last. */
  lemma TradesAreNumberedInOrder(c: Config, market: Market, hours: seq<Candle>, minutes: seq<Candle>, k: nat)
    requires Runnable(c, hours, minutes) && Run(c, market, hours, minutes).Success?
    requires k < |Run(c, market, hours, minutes).value.trades|
    ensures
      var r := Run(c, market, hours, minutes).value;
      && r.trades[k].index == k
      && (k + 1 < r.state.counts.created ==> r.trades[k].exit.Some?)
      && (r.trades[k].exit.Some? <==> k < r.state.counts.completed)
  {
    hide Run, Money;
    RunEndsInInv(c, market, hours, minutes);
  }

  /** CONSERVATION OF MONEY: the final balance is the initial one plus the net of
      every trade, which is gross minus fees minus funding in total; and the equity
      curve is the sequence of those partial sums. */
  lemma RunConservesMoney(c: Config, market: Market, hours: seq<Candle>, minutes: seq<Candle>)
    requires Runnable(c, hours, minutes) && Run(c, market, hours, minutes).Success?
    ensures
      var r := Run(c, market, hours, minutes).value;
      var ts := r.trades;
      && r.state.balance - c.initialBalance == SumOf(ts, Net)
      && SumOf(ts, Net) == SumOf(ts, Gross) - SumOf(ts, Fees) - SumOf(ts, FundingPaid)
      && |r.state.equity| == |r.state.trades| + 1 == r.state.counts.completed + 1
      && forall k :: 0 <= k < |r.state.equity| ==>
           r.state.equity[k] == c.initialBalance + SumOf(r.state.trades[..k], Net)
  {
    hide Run, Touching, OpenFill, CloseFill, SettledFrom;
    RunEndsInInv(c, market, hours, minutes);
    var r := Run(c, market, hours, minutes).value;
    var closed := r.state.trades;
    forall k | 0 <= k < |r.state.equity| ensures r.state.equity[k] == c.initialBalance + SumOf(closed[..k], Net) {
      EquityIsPrefixSum(c, r.state, k);
    }
    assert closed[..|closed|] == closed;
    forall i | 0 <= i < |closed| ensures Net(closed[i]) == Gross(closed[i]) - Fees(closed[i]) - FundingPaid(closed[i]) {
      SettledNetAddsUp(c, closed[i], r.state.equity[i], r.state.equity[i + 1]);
    }
    SumsAddUp(r.trades);
    if r.trades != closed {
      assert r.trades[..|r.trades| - 1] == closed;
    }
  }

  // --- First touch ----------------------------------------------------------

  /** What the price data alone says about a signal with these levels and this
      decision time; times are those of the minutes found. */
  ghost predicate FirstTouched(minutes: seq<Candle>, ev: PendingEvent) {
    match (ev.enteredAt, ev.outcome)
    case (None, _) =>
      ev.outcome.None? && ev.closedAt.None?
      && forall n :: 0 <= n < |minutes| && ev.decisionTime <= minutes[n].timestamp
           ==> !EvaluateEntry(ev.levels, minutes[n].high, minutes[n].low).EntryHit?
    case (Some(entered), None) =>
      ev.closedAt.None?
      && exists e: nat :: EntersFirst(minutes, ev.levels, ev.decisionTime, e) && minutes[e].timestamp == entered
           && NoExitBetween(minutes, ev.levels, e, |minutes|)
    case (Some(entered), Some(reason)) =>
      exists e: nat, x: nat :: EntersFirst(minutes, ev.levels, ev.decisionTime, e) && minutes[e].timestamp == entered
        && ExitsFirst(minutes, ev.levels, e, x, reason) && ev.closedAt == Some(minutes[x].timestamp)
  }

  /** The declarative answer is unique, so `FirstTouched` pins an event down: two
      events with the same levels and decision time agree on everything they report. */
  lemma FirstTouchIsUnique(minutes: seq<Candle>, a: PendingEvent, b: PendingEvent)
    requires a.levels == b.levels && a.decisionTime == b.decisionTime
    requires FirstTouched(minutes, a) && FirstTouched(minutes, b)
    ensures a.enteredAt == b.enteredAt && a.closedAt == b.closedAt && a.outcome == b.outcome
  {
    hide EvaluateEntry, EvaluateCandle;
  }

  /** FIRST TOUCH. The one-pass cursor gives every created signal exactly the
      declarative answer over the whole minute series. */
  lemma EverySignalGetsItsFirstTouch(c: Config, market: Market, hours: seq<Candle>, minutes: seq<Candle>, k: nat)
    requires Runnable(c, hours, minutes) && Run(c, market, hours, minutes).Success?
    requires k < |Run(c, market, hours, minutes).value.pendingEvents|
    ensures FirstTouched(minutes, Run(c, market, hours, minutes).value.pendingEvents[k])
  {
    hide Run, Tally, Money, EvaluateEntry, EvaluateCandle;
    RunEndsInInv(c, market, hours, minutes);
    var r := Run(c, market, hours, minutes).value;
    if k < |r.state.trades| {
      var t := r.state.trades[k];
      assert ClosedBefore(c, minutes, t, |minutes|);
      var e: nat, x: nat :| x < |minutes| && LivedThrough(c, minutes, t, e, x);
      assert r.pendingEvents[k] == ClosedEvent(c, t);
    } else {
      var a := r.state.active.value;
      assert r.pendingEvents[k] == EventOf(a, None);
      if a.fill.Some? {
        var e: nat :| e < |minutes| && OpenSince(minutes, a, e, |minutes|);
      }
    }
  }

  /** The instants of one closed trade are in order, and the next signal is decided
      strictly after this one exits. */
  lemma TradesDoNotOverlap(c: Config, market: Market, hours: seq<Candle>, minutes: seq<Candle>, k: nat)
    requires Runnable(c, hours, minutes) && Run(c, market, hours, minutes).Success?
    requires k < |Run(c, market, hours, minutes).value.trades|
    ensures
      var ts := Run(c, market, hours, minutes).value.trades;
      && ts[k].signalTs + c.periodMs <= ts[k].fill.time
      && (ts[k].exit.Some? ==> ts[k].fill.time < ts[k].exit.value.time)
      && (k + 1 < |ts| ==> ts[k].exit.Some? && ts[k].exit.value.time < ts[k + 1].signalTs + c.periodMs)
  {
    hide Run, Tally, Money, EvaluateEntry, EvaluateCandle;
    RunEndsInInv(c, market, hours, minutes);
    var r := Run(c, market, hours, minutes).value;
    if k < |r.state.trades| {
      assert ClosedBefore(c, minutes, r.state.trades[k], |minutes|);
    } else {
      var a := r.state.active.value;
      var e: nat :| e < |minutes| && OpenSince(minutes, a, e, |minutes|);
    }
  }

  lemma {:induction false} LaterTradesEnterLater(
      c: Config, market: Market, hours: seq<Candle>, minutes: seq<Candle>, i: nat, j: nat)
    requires Runnable(c, hours, minutes) && Run(c, market, hours, minutes).Success?
    requires i < j < |Run(c, market, hours, minutes).value.trades|
    ensures
      var ts := Run(c, market, hours, minutes).value.trades;
      ts[i].exit.Some? && ts[i].exit.value.time < ts[j].fill.time
  {
    hide Run;
    TradesDoNotOverlap(c, market, hours, minutes, j);
    TradesDoNotOverlap(c, market, hours, minutes, j - 1);
    if i < j - 1 {
      LaterTradesEnterLater(c, market, hours, minutes, i, j - 1);
    }
  }

  predicate Charges(t: Trade, funding: Funding) {
    t.exit.Some? && t.fill.time <= funding.timestamp <= t.exit.value.time
  }

  /** No funding instant is charged to two trades. */
  lemma FundingIsChargedAtMostOnce(
      c: Config, market: Market, hours: seq<Candle>, minutes: seq<Candle>, i: nat, j: nat, f: Funding)
    requires Runnable(c, hours, minutes) && Run(c, market, hours, minutes).Success?
    requires i < |Run(c, market, hours, minutes).value.trades| && j < |Run(c, market, hours, minutes).value.trades|
    requires Charges(Run(c, market, hours, minutes).value.trades[i], f)
    requires Charges(Run(c, market, hours, minutes).value.trades[j], f)
    ensures i == j
  {
    hide Run;
    if i < j {
      LaterTradesEnterLater(c, market, hours, minutes, i, j);
    } else if j < i {
      LaterTradesEnterLater(c, market, hours, minutes, j, i);
    }
  }
}
