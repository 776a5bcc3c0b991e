/** Which minutes a run lists as ambiguous: exactly those that could have entered, or left,
    a signal in more than one way while it was waiting, or open. */
module AmbiguityLaws {
  import opened Common
  import opened Monitor
  import opened Replay
  import opened RunInvariants
  import opened RunTheorems
  import opened DecisionLaws
  import Validator
  import NoLookahead

  /** Minute `m` leaves the signal in doubt: waiting for its entry, or open. */
  predicate Doubtful(ev: PendingEvent, m: Candle, atEntry: bool) {
    if atEntry then
      && ev.decisionTime <= m.timestamp && (ev.enteredAt.Some? ==> m.timestamp < ev.enteredAt.value)
      && EvaluateEntry(ev.levels, m.high, m.low).Ambiguous?
    else
      && ev.enteredAt.Some? && ev.enteredAt.value < m.timestamp
      && (ev.closedAt.Some? ==> m.timestamp < ev.closedAt.value)
      && EvaluateCandle(ev.levels, m.high, m.low).Ambiguous?
  }

  function Doubt(ev: PendingEvent, m: Candle, atEntry: bool): AmbiguityEvent {
    AmbiguityEvent(ev.signalTs, m.timestamp, atEntry, ev.levels.direction)
  }

  ghost predicate Genuine(evs: seq<PendingEvent>, minutes: seq<Candle>, cursor: nat, a: AmbiguityEvent) {
    exists k, m :: 0 <= k < |evs| && 0 <= m < cursor && m < |minutes|
                   && Doubtful(evs[k], minutes[m], a.atEntry) && a == Doubt(evs[k], minutes[m], a.atEntry)
  }

  /** The list has every doubtful minute of every signal, and nothing else. */
  ghost predicate DoubtsTold(minutes: seq<Candle>, st: RunState) {
    var evs := Events(st);
    && (forall i :: 0 <= i < |st.ambiguous| ==> Genuine(evs, minutes, st.cursor, st.ambiguous[i]))
    && (forall k, m, atEntry :: 0 <= k < |evs| && 0 <= m < st.cursor && m < |minutes|
                                && Doubtful(evs[k], minutes[m], atEntry) ==>
          Doubt(evs[k], minutes[m], atEntry) in st.ambiguous)
  }

  function CountAtEntry(es: seq<AmbiguityEvent>, atEntry: bool): nat {
    if es == [] then 0 else
      CountAtEntry(es[..|es| - 1], atEntry) + if es[|es| - 1].atEntry == atEntry then 1 else 0
  }

  ghost predicate DoubtsCounted(st: RunState) {
    && st.counts.entryAmbiguities == CountAtEntry(st.ambiguous, true)
    && st.counts.exitAmbiguities == CountAtEntry(st.ambiguous, false)
  }

  // --- One minute -----------------------------------------------------------------

  /** The signal may have entered or closed at `now`; what earlier minutes say stays. */
  predicate Later(a: PendingEvent, b: PendingEvent, now: int) {
    && a.signalTs == b.signalTs && a.decisionTime == b.decisionTime && a.levels == b.levels
    && (a.enteredAt == b.enteredAt || (a.enteredAt.None? && b.enteredAt == Some(now)))
    && (a.closedAt == b.closedAt || (a.closedAt.None? && b.closedAt == Some(now)))
  }

  lemma EarlierDoubtsStay(a: PendingEvent, b: PendingEvent, now: int, m: Candle, atEntry: bool)
    requires Later(a, b, now) && m.timestamp < now
    ensures Doubtful(a, m, atEntry) <==> Doubtful(b, m, atEntry)
    ensures Doubt(a, m, atEntry) == Doubt(b, m, atEntry)
  {
    hide EvaluateEntry, EvaluateCandle;
  }

  /** What the minute does: the listed doubts are those of the active signal at it. */
  lemma MinuteDoubts(c: Config, st: RunState, m: Candle)
    requires MonitorStep(c, st, m).Success?
    ensures
      var next := MonitorStep(c, st, m).value;
      && |Events(next)| == |Events(st)| && next.cursor == st.cursor
      && (forall k :: 0 <= k < |Events(st)| ==> Later(Events(st)[k], Events(next)[k], m.timestamp))
      && (forall k :: 0 <= k < |st.pendingEvents| ==> Events(next)[k] == st.pendingEvents[k])
      && (if st.active.None? then next.ambiguous == st.ambiguous
          else
            var ev, n := Events(next)[|st.pendingEvents|], |st.ambiguous|;
            var wasIn := st.active.value.fill.Some?;
            && (wasIn ==> ev.enteredAt == Some(st.active.value.fill.value.time))
            && (if m.timestamp >= st.active.value.decisionTime
                   && (if wasIn then EvaluateCandle(ev.levels, m.high, m.low).Ambiguous?
                       else EvaluateEntry(ev.levels, m.high, m.low).Ambiguous?)
                then next.ambiguous == st.ambiguous + [Doubt(ev, m, !wasIn)] && ev.closedAt.None?
                     && (!wasIn ==> ev.enteredAt.None?)
                else next.ambiguous == st.ambiguous)
            && (!wasIn && ev.enteredAt.Some? ==> ev.enteredAt == Some(m.timestamp) && ev.closedAt.None?))
  {
    hide OpenFill, CloseFill, EvaluateEntry, EvaluateCandle;
  }

  lemma MinuteCounts(c: Config, st: RunState, m: Candle)
    requires MonitorStep(c, st, m).Success? && DoubtsCounted(st)
    ensures DoubtsCounted(MonitorStep(c, st, m).value)
  {
    OneDoubtAtMost(c, st, m);
    var next := MonitorStep(c, st, m).value;
    if next.ambiguous != st.ambiguous {
      assert next.ambiguous[..|st.ambiguous|] == st.ambiguous;
    }
    hide MonitorStep;
  }

  lemma OneDoubtAtMost(c: Config, st: RunState, m: Candle)
    requires MonitorStep(c, st, m).Success?
    ensures
      var next := MonitorStep(c, st, m).value;
      var (k, after) := (st.counts, next.counts);
      if next.ambiguous == st.ambiguous then
        after.entryAmbiguities == k.entryAmbiguities && after.exitAmbiguities == k.exitAmbiguities
      else
        && |next.ambiguous| == |st.ambiguous| + 1
        && next.ambiguous == st.ambiguous + [next.ambiguous[|st.ambiguous|]]
        && var e := next.ambiguous[|st.ambiguous|];
           && after.entryAmbiguities == k.entryAmbiguities + (if e.atEntry then 1 else 0)
           && after.exitAmbiguities == k.exitAmbiguities + (if e.atEntry then 0 else 1)
  {
    hide OpenFill, CloseFill, EvaluateEntry, EvaluateCandle;
  }

  /** Before minute `cursor` every closed signal is over, and an open one has entered. */
  lemma PastIsOver(c: Config, minutes: seq<Candle>, st: RunState)
    requires Ascending(minutes) && Touching(c, minutes, st) && st.cursor < |minutes|
    ensures
      var now := minutes[st.cursor].timestamp;
      && (forall k :: 0 <= k < |st.pendingEvents| ==>
            var ev := st.pendingEvents[k];
            ev.enteredAt.Some? && ev.closedAt.Some? && ev.enteredAt.value < now && ev.closedAt.value < now)
      && (st.active.Some? && st.active.value.fill.Some? ==>
            st.active.value.fill.value.time < now && st.active.value.decisionTime <= now)
  {
    hide EvaluateEntry, EvaluateCandle;
    var now := minutes[st.cursor].timestamp;
    forall k | 0 <= k < |st.pendingEvents|
      ensures st.pendingEvents[k] == ClosedEvent(c, st.trades[k]) && st.trades[k].exit.value.time < now
      ensures st.trades[k].fill.time < now
    {
      assert ClosedBefore(c, minutes, st.trades[k], st.cursor);
      var e: nat, x: nat :| x < st.cursor && LivedThrough(c, minutes, st.trades[k], e, x);
    }
    if st.active.Some? && st.active.value.fill.Some? {
      var e: nat :| e < st.cursor && OpenSince(minutes, st.active.value, e, st.cursor);
    }
  }

  /** At the current minute exactly the active signal can be in doubt, in its own phase. */
  lemma DoubtNow(c: Config, minutes: seq<Candle>, st: RunState, k: nat, atEntry: bool)
    requires Ascending(minutes) && Touching(c, minutes, st) && st.cursor < |minutes|
    requires MonitorStep(c, st, minutes[st.cursor]).Success? && k < |Events(st)|
    ensures
      var m := minutes[st.cursor];
      var next := MonitorStep(c, st, m).value;
      && k < |Events(next)|
      && (Doubtful(Events(next)[k], m, atEntry)
          <==> next.ambiguous == st.ambiguous + [Doubt(Events(next)[k], m, atEntry)] && k == |st.pendingEvents|
               && st.active.Some? && atEntry == st.active.value.fill.None?)
  {
    hide EvaluateEntry, EvaluateCandle, MonitorStep, Touching;
    PastIsOver(c, minutes, st);
    MinuteDoubts(c, st, minutes[st.cursor]);
    if st.active.Some? {
      ActiveKeepsItsTime(st);
    }
    var m := minutes[st.cursor];
    var next := MonitorStep(c, st, m).value;
    assert Later(Events(st)[k], Events(next)[k], m.timestamp);
    NotItself(st.ambiguous, Doubt(Events(next)[k], m, atEntry));
  }

  lemma ActiveKeepsItsTime(st: RunState)
    requires st.active.Some?
    ensures Events(st)[|st.pendingEvents|] == EventOf(st.active.value, None)
  {
  }

  lemma NotItself(a: seq<AmbiguityEvent>, x: AmbiguityEvent)
    ensures a != a + [x]
  {
    assert |a + [x]| == |a| + 1;
  }

  lemma MinuteKeepsDoubts(c: Config, minutes: seq<Candle>, st: RunState)
    requires Ascending(minutes) && Touching(c, minutes, st) && st.cursor < |minutes| && DoubtsTold(minutes, st)
    requires MonitorStep(c, st, minutes[st.cursor]).Success?
    ensures DoubtsTold(minutes, MonitorStep(c, st, minutes[st.cursor]).value.(cursor := st.cursor + 1))
  {
    hide MonitorStep, Touching, Doubtful, Events;
    var now := minutes[st.cursor];
    var next := MonitorStep(c, st, now).value.(cursor := st.cursor + 1);
    MinuteDoubts(c, st, now);
    CursorDoesNotMatter(MonitorStep(c, st, now).value, st.cursor + 1);
    var before, after := Events(st), Events(next);
    forall k, m, atEntry | 0 <= k < |after| && 0 <= m < st.cursor
      ensures Doubtful(before[k], minutes[m], atEntry) <==> Doubtful(after[k], minutes[m], atEntry)
      ensures Doubt(before[k], minutes[m], atEntry) == Doubt(after[k], minutes[m], atEntry)
    {
      EarlierDoubtsStay(before[k], after[k], now.timestamp, minutes[m], atEntry);
    }
    forall k, atEntry | 0 <= k < |after|
      ensures Doubtful(after[k], now, atEntry) ==> Doubt(after[k], now, atEntry) in next.ambiguous
    {
      DoubtNow(c, minutes, st, k, atEntry);
    }
    forall i | 0 <= i < |next.ambiguous| ensures Genuine(after, minutes, next.cursor, next.ambiguous[i]) {
      var a := next.ambiguous[i];
      if i < |st.ambiguous| {
        assert a == st.ambiguous[i] && Genuine(before, minutes, st.cursor, a);
        var k, m :| 0 <= k < |before| && 0 <= m < st.cursor && m < |minutes|
                    && Doubtful(before[k], minutes[m], a.atEntry) && a == Doubt(before[k], minutes[m], a.atEntry);
        assert Doubtful(after[k], minutes[m], a.atEntry) && a == Doubt(after[k], minutes[m], a.atEntry);
      } else {
        var k := |st.pendingEvents|;
        DoubtNow(c, minutes, st, k, a.atEntry);
        assert a == Doubt(after[k], minutes[st.cursor], a.atEntry);
        assert Doubtful(after[k], minutes[st.cursor], a.atEntry);
      }
    }
  }

  lemma CursorDoesNotMatter(st: RunState, cursor: nat)
    ensures Events(st.(cursor := cursor)) == Events(st)
  {
  }

  lemma {:induction false} DrainKeepsDoubts(
      c: Config, minutes: seq<Candle>, st: RunState, stop: nat, decided: nat)
    requires Ascending(minutes) && Inv(c, minutes, st, decided) && st.cursor <= stop <= |minutes|
    requires DoubtsTold(minutes, st) && DoubtsCounted(st) && Drain(c, minutes, st, stop).Success?
    ensures DoubtsTold(minutes, Drain(c, minutes, st, stop).value)
    ensures DoubtsCounted(Drain(c, minutes, st, stop).value)
    decreases stop
  {
    hide MonitorStep, DoubtsTold, Touching, Tally, Money;
    if stop != st.cursor {
      var before := Drain(c, minutes, st, stop - 1).value;
      DrainKeepsDoubts(c, minutes, st, stop - 1, decided);
      DrainMovesCursor(c, minutes, st, stop - 1);
      DrainKeepsInv(c, minutes, st, stop - 1, decided);
      MinuteKeepsDoubts(c, minutes, before);
      MinuteCounts(c, before, minutes[stop - 1]);
    }
  }

  // --- Decisions and whole runs -------------------------------------------------------

  /** A new signal doubts no minute before its decision time. */
  lemma DecideKeepsDoubts(
      c: Config, market: Market, minutes: seq<Candle>, window: seq<Candle>, time: int, st: RunState)
    requires window != [] && DoubtsTold(minutes, st) && DoubtsCounted(st)
    requires Decide(c, market, window, time, st).Success?
    requires forall m :: 0 <= m < st.cursor && m < |minutes| ==> minutes[m].timestamp < time
    ensures DoubtsTold(minutes, Decide(c, market, window, time, st).value)
    ensures DoubtsCounted(Decide(c, market, window, time, st).value)
  {
    hide EvaluateEntry, EvaluateCandle, DoubtsTold;
    var next := Decide(c, market, window, time, st).value;
    DecideLeavesDoubts(c, market, window, time, st);
    NewSignalsHaveNoDoubts(minutes, st, next, time);
  }

  lemma DecideLeavesDoubts(c: Config, market: Market, window: seq<Candle>, time: int, st: RunState)
    requires window != [] && Decide(c, market, window, time, st).Success?
    ensures
      var next := Decide(c, market, window, time, st).value;
      && next.ambiguous == st.ambiguous && next.cursor == st.cursor
      && next.counts.entryAmbiguities == st.counts.entryAmbiguities
      && next.counts.exitAmbiguities == st.counts.exitAmbiguities
      && (Events(next) == Events(st)
          || (|Events(next)| == |Events(st)| + 1 && Events(next)[..|Events(st)|] == Events(st)
              && Events(next)[|Events(st)|].decisionTime == time && Events(next)[|Events(st)|].enteredAt.None?))
  {
    hide Validator.ValidateAnalysis;
  }

  lemma NewSignalsHaveNoDoubts(minutes: seq<Candle>, a: RunState, b: RunState, time: int)
    requires DoubtsTold(minutes, a) && b.ambiguous == a.ambiguous && b.cursor == a.cursor
    requires forall m :: 0 <= m < a.cursor && m < |minutes| ==> minutes[m].timestamp < time
    requires
      || Events(b) == Events(a)
      || (|Events(b)| == |Events(a)| + 1 && Events(b)[..|Events(a)|] == Events(a)
          && Events(b)[|Events(a)|].decisionTime == time && Events(b)[|Events(a)|].enteredAt.None?)
    ensures DoubtsTold(minutes, b)
  {
    hide EvaluateEntry, EvaluateCandle, Events;
    assert forall k :: 0 <= k < |Events(a)| ==> Events(b)[k] == Events(a)[k];
    forall i | 0 <= i < |b.ambiguous| ensures Genuine(Events(b), minutes, b.cursor, b.ambiguous[i]) {
      var x := b.ambiguous[i];
      assert Genuine(Events(a), minutes, a.cursor, x);
      var k, m :| 0 <= k < |Events(a)| && 0 <= m < a.cursor && m < |minutes|
                  && Doubtful(Events(a)[k], minutes[m], x.atEntry) && x == Doubt(Events(a)[k], minutes[m], x.atEntry);
      assert Doubtful(Events(b)[k], minutes[m], x.atEntry);
    }
  }

  lemma {:induction false} AfterCandlesDoubts(
      c: Config, market: Market, hours: seq<Candle>, minutes: seq<Candle>, n: nat)
    requires Runnable(c, hours, minutes) && c.minCandles - 1 <= n <= |hours|
    requires AfterCandles(c, market, hours, minutes, n).Success?
    ensures DoubtsTold(minutes, AfterCandles(c, market, hours, minutes, n).value)
    ensures DoubtsCounted(AfterCandles(c, market, hours, minutes, n).value)
    decreases n
  {
    hide Drain, Decide, DoubtsTold, DoubtsCounted, Inv, Ascending;
    if n == c.minCandles - 1 {
      NothingDoubted(c, minutes);
    } else {
      AfterCandlesDoubts(c, market, hours, minutes, n - 1);
      AfterCandlesInv(c, market, hours, minutes, n - 1);
      NoLookahead.CursorIsAtLastDecision(c, market, hours, minutes, n - 1);
      CandleKeepsDoubts(c, market, hours, minutes, AfterCandles(c, market, hours, minutes, n - 1).value, n - 1);
    }
  }

  lemma CandleKeepsDoubts(
      c: Config, market: Market, hours: seq<Candle>, minutes: seq<Candle>, st: RunState, i: nat)
    requires Ascending(hours) && Ascending(minutes) && 1 <= c.minCandles <= i + 1 <= |hours|
    requires st.cursor <= CursorAt(minutes, 0, hours[i].timestamp + c.periodMs)
    requires Inv(c, minutes, st, i - (c.minCandles - 1)) && DoubtsTold(minutes, st) && DoubtsCounted(st)
    requires CandleStep(c, market, hours, minutes, st, i).Success?
    ensures DoubtsTold(minutes, CandleStep(c, market, hours, minutes, st, i).value)
    ensures DoubtsCounted(CandleStep(c, market, hours, minutes, st, i).value)
  {
    hide Drain, Decide, DoubtsTold, DoubtsCounted, Inv, Ascending;
    var time := hours[i].timestamp + c.periodMs;
    var stop := CursorAt(minutes, st.cursor, time);
    NoLookahead.CursorFromAnyEarlierStart(minutes, st.cursor, time);
    DrainKeepsDoubts(c, minutes, st, stop, i - (c.minCandles - 1));
    DrainMovesCursor(c, minutes, st, stop);
    DecideKeepsDoubts(c, market, minutes, hours[..i + 1], time, Drain(c, minutes, st, stop).value);
  }

  lemma NothingDoubted(c: Config, minutes: seq<Candle>)
    ensures DoubtsTold(minutes, Start(c)) && DoubtsCounted(Start(c))
  {
  }

  /** AMBIGUITY, exactly: a completed run lists a minute as ambiguous if and only if, at
      that minute, some reported signal was waiting and the candle reached its entry together
      with another level, or was open and the candle reached both exits; each with the
      signal, the minute, the phase and the direction; and both counters count their kind. */
  lemma EveryDoubtIsListed(c: Config, market: Market, hours: seq<Candle>, minutes: seq<Candle>, a: AmbiguityEvent)
    requires Runnable(c, hours, minutes) && Run(c, market, hours, minutes).Success?
    ensures
      var r := Run(c, market, hours, minutes).value;
      && (a in r.state.ambiguous <==> Genuine(r.pendingEvents, minutes, |minutes|, a))
      && r.state.counts.entryAmbiguities == CountAtEntry(r.state.ambiguous, true)
      && r.state.counts.exitAmbiguities == CountAtEntry(r.state.ambiguous, false)
  {
    hide AfterCandles, Drain, Inv, Doubtful, Finish;
    var n := |hours|;
    AfterCandlesDoubts(c, market, hours, minutes, n);
    AfterCandlesInv(c, market, hours, minutes, n);
    var st := AfterCandles(c, market, hours, minutes, n).value;
    DrainKeepsDoubts(c, minutes, st, |minutes|, n - (c.minCandles - 1));
    DrainMovesCursor(c, minutes, st, |minutes|);
    RunEndsTold(c, market, hours, minutes);
    var end := Drain(c, minutes, st, |minutes|).value;
    if a in end.ambiguous {
      var i :| 0 <= i < |end.ambiguous| && end.ambiguous[i] == a;
    }
  }

  // --- The flag of a trade ------------------------------------------------------------

  ghost predicate Mentioned(es: seq<AmbiguityEvent>, signalTs: int) {
    exists i :: 0 <= i < |es| && es[i].signalTs == signalTs
  }

  /** A trade is flagged exactly when some ambiguous minute was its own. */
  ghost predicate Flagged(st: RunState) {
    && (forall k :: 0 <= k < |st.trades| ==>
          (st.trades[k].wasAmbiguous <==> Mentioned(st.ambiguous, st.trades[k].signalTs)))
    && (st.active.Some? ==> (st.active.value.wasAmbiguous <==> Mentioned(st.ambiguous, st.active.value.signalTs)))
  }

  ghost predicate OnlyTheirs(st: RunState, limit: int) {
    forall i :: 0 <= i < |st.ambiguous| ==> st.ambiguous[i].signalTs < limit
  }

  /** Every earlier trade's signal is older than the active one. */
  lemma {:induction false} EarlierSignalsAreOlder(c: Config, minutes: seq<Candle>, st: RunState, k: nat)
    requires Ascending(minutes) && Touching(c, minutes, st) && st.active.Some? && k < |st.trades|
    ensures st.trades[k].signalTs < st.active.value.signalTs
    decreases |st.trades| - k
  {
    hide EvaluateEntry, EvaluateCandle;
    assert ClosedBefore(c, minutes, st.trades[k], st.cursor);
    var e: nat, x: nat :| x < st.cursor && LivedThrough(c, minutes, st.trades[k], e, x);
    if k + 1 < |st.trades| {
      EarlierSignalsAreOlder(c, minutes, st, k + 1);
    }
    ExitsAfterItsDecision(c, minutes, st, k);
  }

  lemma ExitsAfterItsDecision(c: Config, minutes: seq<Candle>, st: RunState, k: nat)
    requires Touching(c, minutes, st) && k < |st.trades|
    ensures st.trades[k].signalTs + c.periodMs <= st.trades[k].fill.time
    ensures st.trades[k].exit.Some?
  {
    hide EvaluateEntry, EvaluateCandle;
    assert ClosedBefore(c, minutes, st.trades[k], st.cursor);
  }

  lemma MinuteKeepsFlags(c: Config, minutes: seq<Candle>, st: RunState)
    requires Ascending(minutes) && Touching(c, minutes, st) && st.cursor < |minutes| && Flagged(st)
    requires MonitorStep(c, st, minutes[st.cursor]).Success?
    ensures Flagged(MonitorStep(c, st, minutes[st.cursor]).value)
  {
    hide Touching, OpenFill, CloseFill, EvaluateEntry, EvaluateCandle;
    var next := MonitorStep(c, st, minutes[st.cursor]).value;
    if st.active.Some? {
      var ts := st.active.value.signalTs;
      forall k | 0 <= k < |st.trades| ensures st.trades[k].signalTs != ts {
        EarlierSignalsAreOlder(c, minutes, st, k);
      }
      MentionsGrow(st.ambiguous, next.ambiguous, ts);
    }
  }

  lemma MentionsGrow(a: seq<AmbiguityEvent>, b: seq<AmbiguityEvent>, ts: int)
    requires b == a || (|b| == |a| + 1 && b[..|a|] == a && b[|a|].signalTs == ts)
    ensures forall x :: x != ts ==> (Mentioned(a, x) <==> Mentioned(b, x))
    ensures b != a ==> Mentioned(b, ts)
  {
    assert forall i :: 0 <= i < |a| ==> b[i] == a[i];
  }

  lemma {:induction false} DrainKeepsFlags(c: Config, minutes: seq<Candle>, st: RunState, stop: nat, decided: nat)
    requires Ascending(minutes) && Inv(c, minutes, st, decided) && st.cursor <= stop <= |minutes|
    requires Flagged(st) && Drain(c, minutes, st, stop).Success?
    ensures Flagged(Drain(c, minutes, st, stop).value)
    decreases stop
  {
    hide MonitorStep, Flagged, Touching, Tally, Money;
    if stop != st.cursor {
      var before := Drain(c, minutes, st, stop - 1).value;
      DrainKeepsFlags(c, minutes, st, stop - 1, decided);
      DrainMovesCursor(c, minutes, st, stop - 1);
      DrainKeepsInv(c, minutes, st, stop - 1, decided);
      MinuteKeepsFlags(c, minutes, before);
      FlagsIgnoreTheCursor(MonitorStep(c, before, minutes[stop - 1]).value, stop);
    }
  }

  lemma FlagsIgnoreTheCursor(st: RunState, cursor: nat)
    requires Flagged(st)
    ensures Flagged(st.(cursor := cursor))
  {
  }

  /** With nothing active, every listed doubt is of a signal decided before `time`. */
  lemma DoubtsAreOlder(c: Config, minutes: seq<Candle>, st: RunState, time: int)
    requires Ascending(minutes) && Touching(c, minutes, st) && DoubtsTold(minutes, st) && st.active.None?
    requires st.cursor <= |minutes| && forall m :: 0 <= m < st.cursor ==> minutes[m].timestamp < time
    ensures forall i :: 0 <= i < |st.ambiguous| ==> st.ambiguous[i].signalTs + c.periodMs < time
  {
    hide EvaluateEntry, EvaluateCandle, Doubtful;
    forall i | 0 <= i < |st.ambiguous| ensures st.ambiguous[i].signalTs + c.periodMs < time {
      assert Genuine(Events(st), minutes, st.cursor, st.ambiguous[i]);
      var k: int, m: int :| 0 <= k < |Events(st)| && 0 <= m < st.cursor && m < |minutes|
                            && st.ambiguous[i] == Doubt(Events(st)[k], minutes[m], st.ambiguous[i].atEntry);
      assert Events(st)[k] == st.pendingEvents[k];
      ClosedSignalIsOlder(c, minutes, st, time, k);
    }
  }

  lemma ClosedSignalIsOlder(c: Config, minutes: seq<Candle>, st: RunState, time: int, k: nat)
    requires Ascending(minutes) && Touching(c, minutes, st) && k < |st.trades|
    requires st.cursor <= |minutes| && forall m :: 0 <= m < st.cursor ==> minutes[m].timestamp < time
    ensures st.pendingEvents[k].signalTs + c.periodMs < time
  {
    hide EvaluateEntry, EvaluateCandle;
    assert ClosedBefore(c, minutes, st.trades[k], st.cursor);
    var e: nat, x: nat :| x < st.cursor && LivedThrough(c, minutes, st.trades[k], e, x);
    ExitsAfterItsDecision(c, minutes, st, k);
  }

  lemma DecideKeepsFlags(
      c: Config, market: Market, minutes: seq<Candle>, window: seq<Candle>, time: int, st: RunState)
    requires window != [] && time == window[|window| - 1].timestamp + c.periodMs && Flagged(st)
    requires Decide(c, market, window, time, st).Success?
    requires st.active.None? ==> forall i :: 0 <= i < |st.ambiguous| ==> st.ambiguous[i].signalTs + c.periodMs < time
    ensures Flagged(Decide(c, market, window, time, st).value)
  {
    hide Validator.ValidateAnalysis;
  }

  lemma CandleKeepsFlags(
      c: Config, market: Market, hours: seq<Candle>, minutes: seq<Candle>, st: RunState, n: nat, decided: nat)
    requires Runnable(c, hours, minutes) && n < |hours| && Inv(c, minutes, st, decided)
    requires Flagged(st) && DoubtsTold(minutes, st) && DoubtsCounted(st)
    requires st.cursor <= CursorAt(minutes, 0, DecisionTime(c, hours, n))
    requires CandleStep(c, market, hours, minutes, st, n).Success?
    ensures Flagged(CandleStep(c, market, hours, minutes, st, n).value)
  {
    hide Drain, Decide, DoubtsTold, Flagged, Touching, Tally, Money;
    var time := DecisionTime(c, hours, n);
    var stop := CursorAt(minutes, st.cursor, time);
    NoLookahead.CursorFromAnyEarlierStart(minutes, st.cursor, time);
    DrainKeepsFlags(c, minutes, st, stop, decided);
    DrainKeepsDoubts(c, minutes, st, stop, decided);
    DrainMovesCursor(c, minutes, st, stop);
    DrainKeepsInv(c, minutes, st, stop, decided);
    var drained := Drain(c, minutes, st, stop).value;
    if drained.active.None? {
      DoubtsAreOlder(c, minutes, drained, time);
    }
    DecideKeepsFlags(c, market, minutes, hours[..n + 1], time, drained);
  }

  lemma {:induction false} AfterCandlesFlags(
      c: Config, market: Market, hours: seq<Candle>, minutes: seq<Candle>, n: nat)
    requires Runnable(c, hours, minutes) && c.minCandles - 1 <= n <= |hours|
    requires AfterCandles(c, market, hours, minutes, n).Success?
    ensures Flagged(AfterCandles(c, market, hours, minutes, n).value)
    decreases n
  {
    hide CandleStep, DoubtsTold, DoubtsCounted, Flagged, Inv;
    if n == c.minCandles - 1 {
      NothingFlagged(c);
    } else {
      AfterCandlesFlags(c, market, hours, minutes, n - 1);
      AfterCandlesInv(c, market, hours, minutes, n - 1);
      AfterCandlesDoubts(c, market, hours, minutes, n - 1);
      NoLookahead.CursorIsAtLastDecision(c, market, hours, minutes, n - 1);
      var before := AfterCandles(c, market, hours, minutes, n - 1).value;
      CandleKeepsFlags(c, market, hours, minutes, before, n - 1, n - c.minCandles);
    }
  }

  lemma NothingFlagged(c: Config)
    ensures Flagged(Start(c))
  {
  }

  /** A reported trade carries the ambiguity flag exactly if some listed minute is its own. */
  lemma EveryFlagIsGenuine(c: Config, market: Market, hours: seq<Candle>, minutes: seq<Candle>, k: nat)
    requires Runnable(c, hours, minutes) && Run(c, market, hours, minutes).Success?
    requires k < |Run(c, market, hours, minutes).value.trades|
    ensures
      var r := Run(c, market, hours, minutes).value;
      r.trades[k].wasAmbiguous <==> Mentioned(r.state.ambiguous, r.trades[k].signalTs)
  {
    hide AfterCandles, Drain, Inv;
    var n := |hours|;
    AfterCandlesFlags(c, market, hours, minutes, n);
    AfterCandlesInv(c, market, hours, minutes, n);
    var st := AfterCandles(c, market, hours, minutes, n).value;
    DrainKeepsFlags(c, minutes, st, |minutes|, n - (c.minCandles - 1));
  }
}
