/** What every step of a backtest run keeps: the counters, the money, and the
    declarative account of when each signal entered and exited. */
module RunInvariants {
  import opened Common
  import opened Monitor
  import opened Validator
  import opened Replay

  // --- Counters and positions in the lists ---------------------------------

  ghost predicate Tally(st: RunState, decided: nat) {
    var k := st.counts;
    && k.analyzed + k.blocked == decided
    && k.analyzed == |st.decisions| == k.waits + k.longs + k.shorts
    && k.longs + k.shorts == k.rejected + k.created
    && |st.blocked| == k.blocked && |st.rejected| == k.rejected
    && |st.ambiguous| == k.entryAmbiguities + k.exitAmbiguities
    && |st.trades| == |st.pendingEvents| == k.completed && |st.equity| == k.completed + 1
    && k.created == k.completed + (if st.active.Some? then 1 else 0)
    && k.entriesHit == k.completed + (if st.active.Some? && st.active.value.fill.Some? then 1 else 0)
    && (st.active.Some? ==> st.active.value.ndx == k.completed)
    && (forall i :: 0 <= i < |st.trades| ==> st.trades[i].index == i)
  }

  lemma MonitorKeepsTally(c: Config, st: RunState, m: Candle, decided: nat)
    requires Tally(st, decided) && MonitorStep(c, st, m).Success?
    ensures Tally(MonitorStep(c, st, m).value, decided)
  {
    hide OpenFill, CloseFill, EvaluateEntry, EvaluateCandle;
  }

  lemma DecideKeepsTally(c: Config, market: Market, window: seq<Candle>, time: int, st: RunState, decided: nat)
    requires window != [] && Tally(st, decided) && Decide(c, market, window, time, st).Success?
    ensures Tally(Decide(c, market, window, time, st).value, decided + 1)
  {
    hide ValidateAnalysis;
  }

  // --- Money ----------------------------------------------------------------

  /** One closed trade took the balance from `before` to `after` by the account's rules. */
  ghost predicate SettledFrom(c: Config, t: Trade, before: real, after: real) {
    && Ordered(t.levels) && PositiveLevels(t.levels)
    && t.exit.Some? && IsExit(t.exit.value.reason)
    && OpenFill(c, t.levels, before, t.fill.time) == DemoAccount.Calc<Fill>.Success(t.fill)
    && CloseFill(c, t.levels, t.fill, t.exit.value.reason, t.exit.value.time)
       == DemoAccount.Calc<Exit>.Success(t.exit.value)
    && after == before + t.exit.value.net
  }

  ghost predicate Money(c: Config, st: RunState) {
    && |st.equity| == |st.trades| + 1
    && st.equity[0] == c.initialBalance && st.balance == st.equity[|st.trades|]
    && (forall i :: 0 <= i < |st.trades| ==> SettledFrom(c, st.trades[i], st.equity[i], st.equity[i + 1]))
    && (st.active.Some? ==>
          var a := st.active.value;
          && Ordered(a.levels) && PositiveLevels(a.levels)
          && (a.fill.Some? ==>
                OpenFill(c, a.levels, st.balance, a.fill.value.time) == DemoAccount.Calc<Fill>.Success(a.fill.value)))
  }

  lemma MonitorKeepsMoney(c: Config, st: RunState, m: Candle)
    requires Money(c, st) && MonitorStep(c, st, m).Success?
    ensures Money(c, MonitorStep(c, st, m).value)
  {
    hide OpenFill, CloseFill, EvaluateEntry, EvaluateCandle;
  }

  lemma DecideKeepsMoney(c: Config, market: Market, window: seq<Candle>, time: int, st: RunState)
    requires window != [] && Money(c, st) && Decide(c, market, window, time, st).Success?
    ensures Money(c, Decide(c, market, window, time, st).value)
  {
    hide OpenFill, CloseFill, ValidateAnalysis;
    var answer := market.provider(window);
    if answer.Some? && ValidateAnalysis(answer.value, c.guards).Success? {
      AcceptedSignalsAreWellFormed(answer.value, c.guards);
    }
  }

  // --- First touch ----------------------------------------------------------

  /** Minute `e` is the first at or after `from` that enters cleanly. */
  ghost predicate EntersFirst(minutes: seq<Candle>, l: Levels, from: int, e: nat) {
    && e < |minutes| && from <= minutes[e].timestamp
    && EvaluateEntry(l, minutes[e].high, minutes[e].low).EntryHit?
    && forall n :: 0 <= n < e && from <= minutes[n].timestamp ==>
         !EvaluateEntry(l, minutes[n].high, minutes[n].low).EntryHit?
  }

  /** No minute strictly between `e` and `stop` exits cleanly. */
  ghost predicate NoExitBetween(minutes: seq<Candle>, l: Levels, e: nat, stop: nat) {
    forall n :: e < n < stop && n < |minutes| ==> !IsExit(EvaluateCandle(l, minutes[n].high, minutes[n].low))
  }

  /** Minute `x` is the first strictly after `e` that exits cleanly, as `reason`. */
  ghost predicate ExitsFirst(minutes: seq<Candle>, l: Levels, e: nat, x: nat, reason: Touch) {
    && e < x < |minutes| && IsExit(reason)
    && EvaluateCandle(l, minutes[x].high, minutes[x].low) == reason
    && NoExitBetween(minutes, l, e, x)
  }

  /** The whole life of a closed trade, told by minute indices. */
  ghost predicate LivedThrough(c: Config, minutes: seq<Candle>, t: Trade, e: nat, x: nat) {
    && EntersFirst(minutes, t.levels, t.signalTs + c.periodMs, e) && t.fill.time == minutes[e].timestamp
    && t.exit.Some? && ExitsFirst(minutes, t.levels, e, x, t.exit.value.reason)
    && t.exit.value.time == minutes[x].timestamp
  }

  /** A signal whose lifetime so far covers the minutes before `cursor`. */
  ghost predicate AliveSince(c: Config, minutes: seq<Candle>, a: Active, cursor: nat) {
    && a.decisionTime == a.signalTs + c.periodMs
    && if a.fill.None? then
         forall n :: 0 <= n < cursor && n < |minutes| && a.decisionTime <= minutes[n].timestamp
           ==> !EvaluateEntry(a.levels, minutes[n].high, minutes[n].low).EntryHit?
       else
         exists e: nat :: e < cursor && OpenSince(minutes, a, e, cursor)
  }

  ghost predicate OpenSince(minutes: seq<Candle>, a: Active, e: nat, cursor: nat)
    requires a.fill.Some?
  {
    && EntersFirst(minutes, a.levels, a.decisionTime, e) && a.fill.value.time == minutes[e].timestamp
    && NoExitBetween(minutes, a.levels, e, cursor)
  }

  ghost predicate ClosedBefore(c: Config, minutes: seq<Candle>, t: Trade, cursor: nat) {
    exists e: nat, x: nat :: x < cursor && LivedThrough(c, minutes, t, e, x)
  }

  /** The event a closed trade leaves behind. */
  function ClosedEvent(c: Config, t: Trade): PendingEvent
    requires t.exit.Some?
  {
    PendingEvent(t.signalTs, t.signalTs + c.periodMs, t.levels, Some(t.fill.time),
                 Some(t.exit.value.time), Some(t.exit.value.reason), t.index)
  }

  ghost predicate Touching(c: Config, minutes: seq<Candle>, st: RunState) {
    && |st.pendingEvents| == |st.trades|
    && (forall i :: 0 <= i < |st.trades| ==>
          st.trades[i].exit.Some? && st.pendingEvents[i] == ClosedEvent(c, st.trades[i]))
    && (forall i :: 0 <= i < |st.trades| ==> ClosedBefore(c, minutes, st.trades[i], st.cursor))
    && (forall i :: 0 < i < |st.trades| ==> st.trades[i - 1].exit.value.time < st.trades[i].signalTs + c.periodMs)
    && (st.active.Some? ==>
          && AliveSince(c, minutes, st.active.value, st.cursor)
          && (st.trades != [] ==> st.trades[|st.trades| - 1].exit.value.time < st.active.value.decisionTime))
  }

  lemma ClosedStaysClosed(c: Config, minutes: seq<Candle>, t: Trade, cursor: nat)
    requires ClosedBefore(c, minutes, t, cursor)
    ensures t.exit.Some? && ClosedBefore(c, minutes, t, cursor + 1)
  {
    var e: nat, x: nat :| x < cursor && LivedThrough(c, minutes, t, e, x);
    assert x < cursor + 1;
  }

  /** The active signal's clause over one more minute, when that minute left the
      signal's fill as it was. */
  lemma AliveThroughQuietMinute(c: Config, minutes: seq<Candle>, a: Active, b: Active, n: nat)
    requires n < |minutes| && AliveSince(c, minutes, a, n)
    requires a.levels == b.levels && a.fill == b.fill && a.signalTs == b.signalTs && a.decisionTime == b.decisionTime
    requires
      minutes[n].timestamp >= a.decisionTime ==>
        if a.fill.None? then !EvaluateEntry(a.levels, minutes[n].high, minutes[n].low).EntryHit?
        else !IsExit(EvaluateCandle(a.levels, minutes[n].high, minutes[n].low))
    requires Ascending(minutes)
    ensures AliveSince(c, minutes, b, n + 1)
  {
    hide EvaluateEntry, EvaluateCandle;
    if a.fill.Some? {
      var e: nat :| e < n && OpenSince(minutes, a, e, n);
      assert minutes[e].timestamp < minutes[n].timestamp;
      assert OpenSince(minutes, b, e, n + 1);
    }
  }

  lemma MonitorKeepsTouching(c: Config, minutes: seq<Candle>, st: RunState)
    requires Ascending(minutes) && Touching(c, minutes, st) && st.cursor < |minutes|
    requires MonitorStep(c, st, minutes[st.cursor]).Success?
    ensures Touching(c, minutes, MonitorStep(c, st, minutes[st.cursor]).value.(cursor := st.cursor + 1))
  {
    hide OpenFill, CloseFill, EvaluateEntry, EvaluateCandle, AliveSince, ClosedBefore;
    var n, m := st.cursor, minutes[st.cursor];
    var after := MonitorStep(c, st, m).value;
    forall i | 0 <= i < |st.trades| ensures ClosedBefore(c, minutes, st.trades[i], n + 1) && st.trades[i].exit.Some? {
      ClosedStaysClosed(c, minutes, st.trades[i], n);
    }
    if st.active.Some? {
      MonitorMovesActive(c, minutes, st, after);
    }
  }

  /** The active signal's move over minute `st.cursor`: quiet, entered, or closed. */
  lemma MonitorMovesActive(c: Config, minutes: seq<Candle>, st: RunState, after: RunState)
    requires Ascending(minutes) && st.cursor < |minutes| && st.active.Some?
    requires AliveSince(c, minutes, st.active.value, st.cursor)
    requires MonitorStep(c, st, minutes[st.cursor]) == Step.Success(after)
    ensures after.active.Some? ==>
              && AliveSince(c, minutes, after.active.value, st.cursor + 1) && after.trades == st.trades
              && after.pendingEvents == st.pendingEvents
              && after.active.value.decisionTime == st.active.value.decisionTime
    ensures after.active.None? ==>
              exists t :: after.trades == st.trades + [t] && ClosedBefore(c, minutes, t, st.cursor + 1) && t.exit.Some?
                && after.pendingEvents == st.pendingEvents + [ClosedEvent(c, t)]
                && t.signalTs + c.periodMs == st.active.value.decisionTime
  {
    hide OpenFill, CloseFill, EvaluateEntry, EvaluateCandle, AliveSince;
    var n, m, a := st.cursor, minutes[st.cursor], st.active.value;
    if after.active.None? {
      SettledTradeLived(c, minutes, st, after);
    } else if a.fill == after.active.value.fill {
      AliveThroughQuietMinute(c, minutes, a, after.active.value, n);
    } else {
      EnteredSignalIsAlive(c, minutes, st, after);
    }
  }

  lemma EnteredSignalIsAlive(c: Config, minutes: seq<Candle>, st: RunState, after: RunState)
    requires st.cursor < |minutes| && st.active.Some? && after.active.Some?
    requires AliveSince(c, minutes, st.active.value, st.cursor)
    requires MonitorStep(c, st, minutes[st.cursor]) == Step.Success(after)
    requires st.active.value.fill != after.active.value.fill
    ensures AliveSince(c, minutes, after.active.value, st.cursor + 1)
  {
    hide OpenFill, CloseFill, EvaluateEntry, EvaluateCandle;
    assert OpenSince(minutes, after.active.value, st.cursor, st.cursor + 1);
  }

  lemma SettledTradeLived(c: Config, minutes: seq<Candle>, st: RunState, after: RunState)
    requires Ascending(minutes) && st.cursor < |minutes| && st.active.Some? && after.active.None?
    requires AliveSince(c, minutes, st.active.value, st.cursor)
    requires MonitorStep(c, st, minutes[st.cursor]) == Step.Success(after)
    ensures exists t :: after.trades == st.trades + [t] && ClosedBefore(c, minutes, t, st.cursor + 1) && t.exit.Some?
              && after.pendingEvents == st.pendingEvents + [ClosedEvent(c, t)]
              && t.signalTs + c.periodMs == st.active.value.decisionTime
  {
    hide OpenFill, CloseFill, EvaluateEntry, EvaluateCandle;
    var n, a := st.cursor, st.active.value;
    var e: nat :| e < n && OpenSince(minutes, a, e, n);
    var t := after.trades[|after.trades| - 1];
    assert after.trades == st.trades + [t];
    assert LivedThrough(c, minutes, t, e, n);
  }

  lemma DecideKeepsTouching(c: Config, market: Market, minutes: seq<Candle>, window: seq<Candle>, st: RunState)
    requires window != [] && Ascending(minutes) && Touching(c, minutes, st)
    requires
      var time := window[|window| - 1].timestamp + c.periodMs;
      && (forall n :: 0 <= n < st.cursor && n < |minutes| ==> minutes[n].timestamp < time)
      && Decide(c, market, window, time, st).Success?
    ensures Touching(c, minutes, Decide(c, market, window, window[|window| - 1].timestamp + c.periodMs, st).value)
  {
    var time := window[|window| - 1].timestamp + c.periodMs;
    var next := Decide(c, market, window, time, st).value;
    DecideOnlyActivates(c, market, window, time, st);
    hide Decide, EvaluateEntry, LivedThrough, ClosedEvent, OpenSince;
    if st.trades != [] {
      var last := st.trades[|st.trades| - 1];
      assert ClosedBefore(c, minutes, last, st.cursor);
      var e: nat, x: nat :| x < st.cursor && LivedThrough(c, minutes, last, e, x);
      ExitWasAMinute(c, minutes, last, e, x);
    }
    if next.active != st.active {
      assert AliveSince(c, minutes, next.active.value, st.cursor);
    }
  }

  lemma ExitWasAMinute(c: Config, minutes: seq<Candle>, t: Trade, e: nat, x: nat)
    requires LivedThrough(c, minutes, t, e, x)
    ensures x < |minutes| && t.exit.Some? && t.exit.value.time == minutes[x].timestamp
  {
  }

  lemma DecideOnlyActivates(c: Config, market: Market, window: seq<Candle>, time: int, st: RunState)
    requires window != [] && Decide(c, market, window, time, st).Success?
    ensures
      var next := Decide(c, market, window, time, st).value;
      && next.trades == st.trades && next.pendingEvents == st.pendingEvents && next.cursor == st.cursor
      && (next.active != st.active ==>
            && st.active.None? && next.active.Some? && next.active.value.fill.None?
            && next.active.value.decisionTime == time
            && next.active.value.signalTs == window[|window| - 1].timestamp)
  {
    hide ValidateAnalysis;
  }
}
