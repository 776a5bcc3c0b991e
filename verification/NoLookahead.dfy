/** Two-run theorem: what a backtest has done when it leaves decision candle `i`
    depends only on data that was closed at that candle's decision time. */
module NoLookahead {
  import opened Common
  import opened Replay

  /** The two minute series hold the same candles before `limit`. */
  ghost predicate AgreeBefore(a: seq<Candle>, b: seq<Candle>, limit: int) {
    forall m: Candle :: m.timestamp < limit ==> (m in a <==> m in b)
  }

  /** Elementwise form of a common prefix. */
  ghost predicate SamePrefix(a: seq<Candle>, b: seq<Candle>, k: nat) {
    k <= |a| && k <= |b| && forall i :: 0 <= i < k ==> a[i] == b[i]
  }

  lemma {:induction false} AgreeingPrefix(a: seq<Candle>, b: seq<Candle>, limit: int, k: nat)
    requires Ascending(a) && Ascending(b) && AgreeBefore(a, b, limit)
    requires k <= CursorAt(a, 0, limit)
    ensures SamePrefix(a, b, k)
  {
    if k > 0 {
      var n := k - 1;
      AgreeingPrefix(a, b, limit, n);
      assert a[n] in b;
      var j :| 0 <= j < |b| && b[j] == a[n];
      assert n <= j;
      assert b[n].timestamp < limit;
      assert b[n] in a;
      var i :| 0 <= i < |a| && a[i] == b[n];
      assert n <= i;
    }
  }

  /** Agreement before a time is agreement on one common prefix, which is all the
      cursor walks over. */
  lemma AgreementIsCommonPrefix(a: seq<Candle>, b: seq<Candle>, limit: int)
    requires Ascending(a) && Ascending(b) && AgreeBefore(a, b, limit)
    ensures CursorAt(a, 0, limit) == CursorAt(b, 0, limit)
    ensures SamePrefix(a, b, CursorAt(a, 0, limit))
  {
    AgreeingPrefix(a, b, limit, CursorAt(a, 0, limit));
    AgreeingPrefix(b, a, limit, CursorAt(b, 0, limit));
  }

  /** The cursor's stop is pinned down by the order of the minutes alone. */
  lemma CursorIsUnique(minutes: seq<Candle>, from: nat, limit: int, stop: nat)
    requires Ascending(minutes) && from <= stop <= |minutes|
    requires stop > from ==> minutes[stop - 1].timestamp < limit
    requires stop < |minutes| ==> minutes[stop].timestamp >= limit
    ensures CursorAt(minutes, from, limit) == stop
  {
  }

  lemma CursorFromAnyEarlierStart(minutes: seq<Candle>, from: nat, limit: int)
    requires Ascending(minutes) && from <= CursorAt(minutes, 0, limit)
    ensures CursorAt(minutes, from, limit) == CursorAt(minutes, 0, limit)
  {
    CursorIsUnique(minutes, from, limit, CursorAt(minutes, 0, limit));
  }

  lemma CursorIsMonotone(minutes: seq<Candle>, earlier: int, later: int)
    requires Ascending(minutes) && earlier <= later
    ensures CursorAt(minutes, 0, earlier) <= CursorAt(minutes, 0, later)
  {
  }

  lemma {:induction false} DrainSeesOnlyPrefix(c: Config, a: seq<Candle>, b: seq<Candle>, st: RunState, stop: nat)
    requires st.cursor <= stop && SamePrefix(a, b, stop)
    ensures Drain(c, a, st, stop) == Drain(c, b, st, stop)
  {
    hide MonitorStep;
    if stop != st.cursor {
      DrainSeesOnlyPrefix(c, a, b, st, stop - 1);
    }
  }

  lemma {:induction false} CursorIsAtLastDecision(
      c: Config, market: Market, hours: seq<Candle>, minutes: seq<Candle>, n: nat)
    requires Runnable(c, hours, minutes) && c.minCandles - 1 <= n < |hours|
    requires AfterCandles(c, market, hours, minutes, n).Success?
    ensures AfterCandles(c, market, hours, minutes, n).value.cursor
            <= CursorAt(minutes, 0, hours[n].timestamp + c.periodMs)
    decreases n
  {
    hide Drain, Decide;
    if n >= c.minCandles {
      CursorIsAtLastDecision(c, market, hours, minutes, n - 1);
      var before := AfterCandles(c, market, hours, minutes, n - 1).value;
      CursorFromAnyEarlierStart(minutes, before.cursor, hours[n - 1].timestamp + c.periodMs);
      CursorIsMonotone(minutes, hours[n - 1].timestamp + c.periodMs, hours[n].timestamp + c.periodMs);
    }
  }

  lemma DrainsAgree(c: Config, st: RunState, a: seq<Candle>, b: seq<Candle>, limit: int)
    requires Ascending(a) && Ascending(b) && AgreeBefore(a, b, limit)
    requires st.cursor <= CursorAt(a, 0, limit)
    ensures st.cursor <= |a| && st.cursor <= |b|
    ensures CursorAt(a, st.cursor, limit) == CursorAt(b, st.cursor, limit)
    ensures Drain(c, a, st, CursorAt(a, st.cursor, limit)) == Drain(c, b, st, CursorAt(b, st.cursor, limit))
  {
    hide Drain;
    AgreementIsCommonPrefix(a, b, limit);
    CursorFromAnyEarlierStart(a, st.cursor, limit);
    CursorFromAnyEarlierStart(b, st.cursor, limit);
    DrainSeesOnlyPrefix(c, a, b, st, CursorAt(a, 0, limit));
  }

  lemma CandleUsesOnlyClosedData(
      c: Config, market: Market, st: RunState, i: nat,
      hoursA: seq<Candle>, minutesA: seq<Candle>, hoursB: seq<Candle>, minutesB: seq<Candle>)
    requires Ascending(minutesA) && Ascending(minutesB)
    requires i < |hoursA| && i < |hoursB| && hoursA[..i + 1] == hoursB[..i + 1]
    requires AgreeBefore(minutesA, minutesB, hoursA[i].timestamp + c.periodMs)
    requires st.cursor <= CursorAt(minutesA, 0, hoursA[i].timestamp + c.periodMs)
    ensures st.cursor <= |minutesA| && st.cursor <= |minutesB|
    ensures CandleStep(c, market, hoursA, minutesA, st, i) == CandleStep(c, market, hoursB, minutesB, st, i)
  {
    hide Drain, Decide, CursorAt, AgreeBefore;
    assert hoursA[i] == hoursA[..i + 1][i] == hoursB[..i + 1][i] == hoursB[i];
    DrainsAgree(c, st, minutesA, minutesB, hoursA[i].timestamp + c.periodMs);
  }

  /** NO LOOK-AHEAD. If two datasets agree on the decision candles up to index `n - 1`
      and on every minute before that candle's decision time, both runs stand in the
      same state after it: same decisions, same blocked, rejected and ambiguous
      events, same trades, equity and active signal -- or both raised the same error. */
  lemma {:induction false} DecisionsUseOnlyClosedData(
      c: Config, market: Market,
      hoursA: seq<Candle>, minutesA: seq<Candle>, hoursB: seq<Candle>, minutesB: seq<Candle>, n: nat)
    requires Runnable(c, hoursA, minutesA) && Runnable(c, hoursB, minutesB)
    requires c.minCandles <= n <= |hoursA| && n <= |hoursB|
    requires hoursA[..n] == hoursB[..n]
    requires AgreeBefore(minutesA, minutesB, hoursA[n - 1].timestamp + c.periodMs)
    ensures AfterCandles(c, market, hoursA, minutesA, n) == AfterCandles(c, market, hoursB, minutesB, n)
    decreases n
  {
    hide CandleStep;
    var i := n - 1;
    assert hoursA[..i] == hoursA[..n][..i] && hoursB[..i] == hoursB[..n][..i];
    if i >= c.minCandles {
      assert hoursA[i - 1].timestamp < hoursA[i].timestamp;
      DecisionsUseOnlyClosedData(c, market, hoursA, minutesA, hoursB, minutesB, i);
    }
    var before := AfterCandles(c, market, hoursA, minutesA, i);
    if before.Success? {
      CursorIsAtLastDecision(c, market, hoursA, minutesA, i);
      CandleUsesOnlyClosedData(c, market, before.value, i, hoursA, minutesA, hoursB, minutesB);
    }
  }
}
