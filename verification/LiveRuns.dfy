/** The live monitor against whole backtest runs. The live monitor has no decision-time
    gate: its first poll of a new signal reads the newest closed minute, which opened before
    the decision time and which the backtest consumed before the signal existed. */
module LiveRuns {
  import opened Common
  import opened Monitor
  import opened Replay
  import opened RunInvariants
  import opened RunTheorems
  import opened LiveAgreement
  import Validator
  import NoLookahead

  // --- During a run -------------------------------------------------------------

  lemma {:induction false} DrainKeepsTheSignal(c: Config, minutes: seq<Candle>, st: RunState, stop: nat)
    requires st.cursor <= stop <= |minutes| && Drain(c, minutes, st, stop).Success?
    requires Drain(c, minutes, st, stop).value.active.Some?
    ensures st.active.Some?
    ensures Drain(c, minutes, st, stop).value.active.value.decisionTime == st.active.value.decisionTime
    decreases stop
  {
    hide OpenFill, CloseFill, EvaluateEntry, EvaluateCandle;
    if stop != st.cursor {
      DrainKeepsTheSignal(c, minutes, st, stop - 1);
    }
  }

  lemma DecideKeepsOrDates(c: Config, market: Market, window: seq<Candle>, time: int, st: RunState)
    requires window != [] && Decide(c, market, window, time, st).Success?
    requires Decide(c, market, window, time, st).value.active.Some?
    ensures
      var next := Decide(c, market, window, time, st).value;
      && next.cursor == st.cursor && (st.active.Some? ==> next.active == st.active)
      && (st.active.None? ==> next.active.value.decisionTime == time)
  {
    hide Validator.ValidateAnalysis;
  }

  /** At every state a run reaches, the cursor has passed the active signal's decision time. */
  lemma {:induction false} CursorIsPastTheDecision(
      c: Config, market: Market, hours: seq<Candle>, minutes: seq<Candle>, n: nat)
    requires Runnable(c, hours, minutes) && c.minCandles - 1 <= n <= |hours|
    requires AfterCandles(c, market, hours, minutes, n).Success?
    requires AfterCandles(c, market, hours, minutes, n).value.active.Some?
    ensures
      var st := AfterCandles(c, market, hours, minutes, n).value;
      forall k :: st.cursor <= k < |minutes| ==> minutes[k].timestamp >= st.active.value.decisionTime
    decreases n
  {
    hide Drain, Decide;
    var before := AfterCandles(c, market, hours, minutes, n - 1).value;
    var time := hours[n - 1].timestamp + c.periodMs;
    var stop := CursorAt(minutes, before.cursor, time);
    DrainMovesCursor(c, minutes, before, stop);
    var drained := Drain(c, minutes, before, stop).value;
    DecideKeepsOrDates(c, market, hours[..n], time, drained);
    if drained.active.Some? {
      DrainKeepsTheSignal(c, minutes, before, stop);
      CursorIsPastTheDecision(c, market, hours, minutes, n - 1);
    }
  }

  /** WHILE IT IS PENDING: a live monitor that has polled the minutes from `from` on agrees
      with the run if and only if none of those before the decision time enters. */
  lemma PendingAgreesExactlyWhen(
      c: Config, market: Market, hours: seq<Candle>, minutes: seq<Candle>, n: nat, from: nat)
    requires Runnable(c, hours, minutes) && c.minCandles - 1 <= n <= |hours|
    requires AfterCandles(c, market, hours, minutes, n).Success?
    requires
      var st := AfterCandles(c, market, hours, minutes, n).value;
      from <= st.cursor && st.active.Some? && st.active.value.fill.None?
    ensures
      var st := AfterCandles(c, market, hours, minutes, n).value;
      var a := st.active.value;
      Shows(c, st, a, st, PollAll(a.levels, Pending, minutes[from..st.cursor]))
      <==> forall k :: from <= k < st.cursor && minutes[k].timestamp < a.decisionTime ==>
             !EvaluateEntry(a.levels, minutes[k].high, minutes[k].low).EntryHit?
  {
    hide AfterCandles, PollAll, Tally, Money, EvaluateEntry;
    AfterCandlesInv(c, market, hours, minutes, n);
    var st := AfterCandles(c, market, hours, minutes, n).value;
    StaysPendingExactlyWhen(st.active.value.levels, minutes, from, st.cursor);
  }

  /** FROM THERE ON: on any further stretch of the run the two agree if and only if the
      live phase is what the minutes from the cursor on alone give; and they do whenever no
      consumed minute of the live stretch enters. */
  lemma LiveAgreesExactlyWhen(
      c: Config, market: Market, hours: seq<Candle>, minutes: seq<Candle>, n: nat, from: nat, stop: nat)
    requires Runnable(c, hours, minutes) && c.minCandles - 1 <= n <= |hours|
    requires AfterCandles(c, market, hours, minutes, n).Success?
    requires
      var st := AfterCandles(c, market, hours, minutes, n).value;
      && from <= st.cursor <= stop <= |minutes| && st.active.Some? && st.active.value.fill.None?
      && Drain(c, minutes, st, stop).Success?
    ensures
      var st := AfterCandles(c, market, hours, minutes, n).value;
      var a, end := st.active.value, Drain(c, minutes, st, stop).value;
      var live, gated :=
        PollAll(a.levels, Pending, minutes[from..stop]), PollAll(a.levels, Pending, minutes[st.cursor..stop]);
      && (Shows(c, st, a, end, live) <==> live == gated)
      && (NoEntry(a.levels, minutes, from, st.cursor) ==> live == gated)
  {
    hide AfterCandles, Drain, PollAll, NoEntry, Shows;
    var st := AfterCandles(c, market, hours, minutes, n).value;
    var a := st.active.value;
    CursorIsPastTheDecision(c, market, hours, minutes, n);
    BacktestAgreesWithLive(c, minutes, st, stop);
    var early, late := minutes[from..st.cursor], minutes[st.cursor..stop];
    assert early + late == minutes[from..stop];
    ShownPhaseIsUnique(c, st, a, Drain(c, minutes, st, stop).value, PollAll(a.levels, Pending, late),
                       PollAll(a.levels, Pending, early + late));
    PollAllConcat(a.levels, Pending, early, late);
    StaysPendingExactlyWhen(a.levels, minutes, from, st.cursor);
  }

  // --- What a finished run reports ------------------------------------------------

  /** The phase a reported event shows. */
  function EventPhase(ev: PendingEvent): Phase {
    if ev.outcome.Some? then
      Closed(ev.outcome.value, if ev.outcome.value.TpHit? then ev.levels.takeProfit else ev.levels.stopLoss)
    else if ev.enteredAt.Some? then Opened else Pending
  }

  /** Polling on after an entry, while no exit comes. */
  lemma {:induction false} StaysOpenWithoutExit(l: Levels, minutes: seq<Candle>, e: nat, stop: nat)
    requires e < stop <= |minutes| && NoExitBetween(minutes, l, e, stop)
    ensures PollAll(l, Opened, minutes[e + 1..stop]) == Opened
    decreases stop
  {
    hide EvaluateCandle, EvaluateEntry;
    if stop == e + 1 {
      assert minutes[e + 1..stop] == [];
    } else {
      StaysOpenWithoutExit(l, minutes, e, stop - 1);
      assert minutes[e + 1..stop][..stop - e - 2] == minutes[e + 1..stop - 1];
    }
  }

  lemma {:induction false} StaysClosed(l: Levels, p: Phase, cs: seq<Candle>)
    requires p.Closed?
    ensures PollAll(l, p, cs) == p
  {
    if cs != [] {
      StaysClosed(l, p, cs[..|cs| - 1]);
    }
  }

  /** Splitting a polled stretch at minute `m`. */
  lemma PollThrough(l: Levels, p: Phase, minutes: seq<Candle>, from: nat, m: nat, stop: nat)
    requires from <= m < stop <= |minutes|
    ensures PollAll(l, p, minutes[from..stop])
         == PollAll(l, Poll(l, PollAll(l, p, minutes[from..m]), minutes[m]), minutes[m + 1..stop])
  {
    hide Poll;
    var before, rest := minutes[from..m], minutes[m + 1..stop];
    assert minutes[from..stop] == before + [minutes[m]] + rest;
    PollAllConcat(l, p, before + [minutes[m]], rest);
    assert (before + [minutes[m]])[..|before|] == before;
  }

  /** An entry at `e`, after a stretch without one, leaves an open position to poll. */
  lemma PollThroughEntry(l: Levels, minutes: seq<Candle>, from: nat, e: nat, stop: nat)
    requires from <= e < stop <= |minutes| && NoEntry(l, minutes, from, e)
    requires EvaluateEntry(l, minutes[e].high, minutes[e].low).EntryHit?
    ensures PollAll(l, Pending, minutes[from..stop]) == PollAll(l, Opened, minutes[e + 1..stop])
  {
    hide NoEntry, EvaluateCandle, PollAll;
    StaysPendingExactlyWhen(l, minutes, from, e);
    PollThrough(l, Pending, minutes, from, e, stop);
  }

  /** An open position whose first exit is at `x`. */
  lemma PollThroughExit(l: Levels, minutes: seq<Candle>, e: nat, x: nat, reason: Touch)
    requires ExitsFirst(minutes, l, e, x, reason)
    ensures PollAll(l, Opened, minutes[e + 1..])
         == Closed(reason, if reason.TpHit? then l.takeProfit else l.stopLoss)
  {
    hide EvaluateEntry, PollAll;
    StaysOpenWithoutExit(l, minutes, e, x);
    PollThrough(l, Opened, minutes, e + 1, x, |minutes|);
    assert minutes[e + 1..|minutes|] == minutes[e + 1..];
    StaysClosed(l, Poll(l, Opened, minutes[x]), minutes[x + 1..|minutes|]);
  }

  /** Before the gate every minute is early, and from it on none is. */
  lemma GateSplits(minutes: seq<Candle>, time: int, k: nat)
    requires Ascending(minutes) && k < |minutes|
    ensures minutes[k].timestamp >= time <==> k >= CursorAt(minutes, 0, time)
  {
  }

  /** The declarative first touch is what polling the minutes from the gate on finds. */
  lemma FirstTouchIsPolled(minutes: seq<Candle>, ev: PendingEvent)
    requires Ascending(minutes) && FirstTouched(minutes, ev)
    ensures PollAll(ev.levels, Pending, minutes[CursorAt(minutes, 0, ev.decisionTime)..]) == EventPhase(ev)
  {
    hide EvaluateEntry, EvaluateCandle, PollAll, CursorAt;
    var l, gate := ev.levels, CursorAt(minutes, 0, ev.decisionTime);
    assert minutes[gate..|minutes|] == minutes[gate..];
    forall k | 0 <= k < |minutes| ensures minutes[k].timestamp >= ev.decisionTime <==> k >= gate {
      GateSplits(minutes, ev.decisionTime, k);
    }
    if ev.enteredAt.None? {
      StaysPendingExactlyWhen(l, minutes, gate, |minutes|);
    } else if ev.outcome.None? {
      var e: nat :| EntersFirst(minutes, l, ev.decisionTime, e) && NoExitBetween(minutes, l, e, |minutes|);
      PollThroughEntry(l, minutes, gate, e, |minutes|);
      StaysOpenWithoutExit(l, minutes, e, |minutes|);
    } else {
      var e: nat, x: nat :| EntersFirst(minutes, l, ev.decisionTime, e)
                            && ExitsFirst(minutes, l, e, x, ev.outcome.value);
      PollThroughEntry(l, minutes, gate, e, |minutes|);
      assert minutes[e + 1..|minutes|] == minutes[e + 1..];
      PollThroughExit(l, minutes, e, x, ev.outcome.value);
    }
  }

  /** WHOLE RUNS, GATED: every event a completed run reports is what a live monitor finds
      that polls the minutes from the signal's decision time to the end of the data. */
  lemma RunReportsWhatLiveFinds(c: Config, market: Market, hours: seq<Candle>, minutes: seq<Candle>, k: nat)
    requires Runnable(c, hours, minutes) && Run(c, market, hours, minutes).Success?
    requires k < |Run(c, market, hours, minutes).value.pendingEvents|
    ensures
      var ev := Run(c, market, hours, minutes).value.pendingEvents[k];
      PollAll(ev.levels, Pending, minutes[CursorAt(minutes, 0, ev.decisionTime)..]) == EventPhase(ev)
  {
    hide Run, FirstTouched;
    EverySignalGetsItsFirstTouch(c, market, hours, minutes, k);
    FirstTouchIsPolled(minutes, Run(c, market, hours, minutes).value.pendingEvents[k]);
  }

  /** Minute `e` is the first from `from` on that enters. */
  ghost predicate FirstEntry(l: Levels, minutes: seq<Candle>, from: nat, e: nat) {
    && from <= e < |minutes| && NoEntry(l, minutes, from, e)
    && EvaluateEntry(l, minutes[e].high, minutes[e].low).EntryHit?
  }

  /** WHOLE RUNS, AS POLLED: the live monitor polls from minute `from` on, before the
      decision time. If none of the early minutes enters it finds what the run reports. If
      one does, it finds it exactly when the position opened that early meets the reported
      end; so a signal the run reports as never entered is shown right only in the first case. */
  lemma RunAgreesWithLiveExactlyWhen(
      c: Config, market: Market, hours: seq<Candle>, minutes: seq<Candle>, k: nat, from: nat, e: nat)
    requires Runnable(c, hours, minutes) && Run(c, market, hours, minutes).Success?
    requires k < |Run(c, market, hours, minutes).value.pendingEvents|
    requires from <= CursorAt(minutes, 0, Run(c, market, hours, minutes).value.pendingEvents[k].decisionTime)
    ensures
      var ev := Run(c, market, hours, minutes).value.pendingEvents[k];
      var gate := CursorAt(minutes, 0, ev.decisionTime);
      var agree := PollAll(ev.levels, Pending, minutes[from..]) == EventPhase(ev);
      && (NoEntry(ev.levels, minutes, from, gate) ==> agree)
      && (ev.enteredAt.None? ==> (agree <==> NoEntry(ev.levels, minutes, from, gate)))
      && (FirstEntry(ev.levels, minutes, from, e) && e < gate ==>
            (agree <==> PollAll(ev.levels, Opened, minutes[e + 1..]) == EventPhase(ev)))
  {
    hide Run, PollAll, CursorAt, EvaluateEntry, EvaluateCandle;
    var ev := Run(c, market, hours, minutes).value.pendingEvents[k];
    var l, gate := ev.levels, CursorAt(minutes, 0, ev.decisionTime);
    RunReportsWhatLiveFinds(c, market, hours, minutes, k);
    EverySignalGetsItsFirstTouch(c, market, hours, minutes, k);
    assert minutes[from..gate] + minutes[gate..] == minutes[from..];
    PollAllConcat(l, Pending, minutes[from..gate], minutes[gate..]);
    StaysPendingExactlyWhen(l, minutes, from, gate);
    if ev.enteredAt.None? {
      assert minutes[from..|minutes|] == minutes[from..];
      StaysPendingExactlyWhen(l, minutes, from, |minutes|);
    }
    if FirstEntry(l, minutes, from, e) {
      assert minutes[from..|minutes|] == minutes[from..] && minutes[e + 1..|minutes|] == minutes[e + 1..];
      PollThroughEntry(l, minutes, from, e, |minutes|);
    }
  }

  // --- A run in which they differ ---------------------------------------------------

  function LongAnswer(window: seq<Candle>): Option<Validator.Analysis> {
    Some(Validator.Analysis(Validator.LongDecision, Some(80.0), Some(100.0), Some(90.0), Some(120.0), None, Unclear,
                            None, None))
  }

  /** One decision candle, and one minute that opened just before its decision time and
      enters: the run ends with the signal pending, the live monitor holds a position. */
  lemma LiveMayEnterEarly()
    ensures
      var c := Config(1000.0, 10.0, 10, 1.0, 0.001, 0.0, [], 1, 3600000,
                      Validator.Guards(0, 0.0, 0.0, 0.0, false));
      var market := Market(LongAnswer, _ => None);
      var hour := Candle(0, 100.0, 101.0, 99.0, 100.0, 1.0, 3599999, true);
      var minute := Candle(3540000, 101.0, 101.0, 99.0, 100.0, 1.0, 3599999, true);
      && Runnable(c, [hour], [minute]) && Run(c, market, [hour], [minute]).Success?
      && var r := Run(c, market, [hour], [minute]).value;
         && r.pendingAtEnd == 1 && |r.pendingEvents| == 1 && EventPhase(r.pendingEvents[0]).Pending?
         && PollAll(r.pendingEvents[0].levels, Pending, [minute]).Opened?
  {
    var c := Config(1000.0, 10.0, 10, 1.0, 0.001, 0.0, [], 1, 3600000,
                    Validator.Guards(0, 0.0, 0.0, 0.0, false));
    var market := Market(LongAnswer, _ => None);
    var hour := Candle(0, 100.0, 101.0, 99.0, 100.0, 1.0, 3599999, true);
    var minute := Candle(3540000, 101.0, 101.0, 99.0, 100.0, 1.0, 3599999, true);
    var l := Levels(Long, 100.0, 90.0, 120.0);
    assert Drain(c, [minute], Start(c), 1) == Success(Start(c).(cursor := 1));
    assert [hour][..1] == [hour];
    assert Validator.ValidateAnalysis(LongAnswer([hour]).value, c.guards).value.levels == l;
    var st := AfterCandles(c, market, [hour], [minute], 1);
    assert st == CandleStep(c, market, [hour], [minute], Start(c), 0);
    assert [minute][..0] == [];
    assert PollAll(l, Pending, [minute]) == Monitor.Poll(l, Pending, minute);
  }
}
