/** What the scheduler keeps over every run of ticks and restarts. */
module SchedulerTheorems {
  import opened Common
  import opened Scheduler

  datatype Event = Poll(i: TickInput) | Reboot

  function React(s: State, e: Event): State {
    match e
    case Poll(i) => TickStep(s, i).0
    case Reboot => Restart(s)
  }

  /** The state a run of events leaves. */
  function After(s: State, es: seq<Event>): State {
    if es == [] then s else React(After(s, es[..|es| - 1]), es[|es| - 1])
  }

  /** What the tick at index `k` of a run did. */
  function BodyAt(s: State, es: seq<Event>, k: nat): Body
    requires k < |es| && es[k].Poll?
  {
    TickStep(After(s, es[..k]), es[k].i).1
  }

  /** Within one tick the second fetch is not behind the first. */
  predicate FeedNotBehind(i: TickInput) {
    i.detection.NewestClosed? && i.window.WindowOf? ==> i.window.newest >= i.detection.ts
  }

  predicate FeedsNotBehind(es: seq<Event>) {
    forall k :: 0 <= k < |es| && es[k].Poll? ==> FeedNotBehind(es[k].i)
  }

  // --- One tick ---------------------------------------------------------------

  /** What an outcome says about the AI call and the marker. */
  lemma OutcomeTellsTheMark(s: State, i: TickInput)
    ensures
      var b := TickStep(s, i).1;
      && (b.outcome in {Some(Wait), Some(Rejected), Some(RateLimited)} ==> b.analyzed.Some? && b.marked == b.analyzed)
      && (b.outcome == Some(EventBlackout) ==> b.analyzed.None? && b.marked == Some(i.detection.ts))
      && (b.outcome == Some(Created) ==>
            && b.created && b.analyzed == Some(i.window.newest)
            && b.marked == if CanMark(i, i.window.newest) then b.analyzed else None)
      && (b.outcome.None? || b.outcome.value in {NoNewCandle, AlreadyProcessed, BlockedActiveSignal,
                                                 DataUnavailable, ErrorOutcome} ==>
            b.marked.None?)
  {
    if Skips(s, i) {
    } else {
      assert TickStep(s, i).1 == TickBody(s, i);
    }
  }

  /** The AI lock: on a tick whose gate read saw an active signal, no AI call is made. */
  lemma ActiveSignalLocksTheAi(s: State, i: TickInput)
    requires i.gate.GateActive?
    ensures TickStep(s, i).1.analyzed.None? && TickStep(s, i).0.marker == s.marker
  {
    if Skips(s, i) {
    } else {
      assert TickStep(s, i).1 == TickBody(s, i);
    }
  }

  /** BLOCKED, exactly when: with an active signal the documented answer comes only after
      the detection fetch of an executed tick, and exactly when that fetch found a candle
      newer than the last processed one. */
  lemma BlockedExactlyWhen(s: State, i: TickInput)
    requires i.gate.GateActive?
    ensures TickStep(s, i).1.outcome == Some(BlockedActiveSignal)
       <==> !Skips(s, i) && i.detection.NewestClosed? && i.markerReadable
            && (LastProcessed(s).Some? ==> i.detection.ts > LastProcessed(s).value)
  {
    if !Skips(s, i) {
      assert TickStep(s, i).1 == TickBody(s, i);
    }
  }

  /** An active signal, a refused detection fetch: the tick reports missing data. */
  lemma ActiveSignalMayReportMissingData()
    ensures
      var i := TickInput(7200000, 5, 600000, DetectionRejected, true, GateActive, false, WindowRejected, true,
                         EngineWait, true);
      TickStep(State(None, None, 0, None), i).1.outcome == Some(DataUnavailable)
  {
    var i := TickInput(7200000, 5, 600000, DetectionRejected, true, GateActive, false, WindowRejected, true,
                       EngineWait, true);
    assert !Skips(State(None, None, 0, None), i);
  }

  ghost predicate NotBefore(before: Option<int>, now: Option<int>) {
    before.Some? ==> now.Some? && now.value >= before.value
  }

  ghost predicate Beyond(last: Option<int>, ts: Option<int>) {
    last.Some? && ts.Some? ==> ts.value > last.value
  }

  lemma TickMovesForward(s: State, i: TickInput)
    requires FeedNotBehind(i)
    ensures
      var (next, b) := TickStep(s, i);
      && NotBefore(LastProcessed(s), LastProcessed(next))
      && Beyond(LastProcessed(s), b.marked) && Beyond(LastProcessed(s), b.analyzed)
      && (b.marked.Some? ==> LastProcessed(next) == b.marked)
      && (b.created && s.marker.None? ==> LastProcessed(next) == b.analyzed)
  {
    if Skips(s, i) {
    } else {
      assert TickStep(s, i).1 == TickBody(s, i);
    }
  }

  /** Without the feed assumption, exactly a window that fell behind the last processed
      candle breaks the order; the gates alone do not rule it out. */
  lemma AnalysisIsNewExactlyWhen(s: State, i: TickInput)
    requires LastProcessed(s).Some? && TickStep(s, i).1.analyzed.Some?
    ensures Beyond(LastProcessed(s), TickStep(s, i).1.analyzed) <==> i.window.newest > LastProcessed(s).value
  {
    assert TickStep(s, i).1 == TickBody(s, i);
  }

  // --- Whole runs -------------------------------------------------------------

  lemma {:induction false} ProgressNeverGoesBack(s: State, es: seq<Event>, j: nat, k: nat)
    requires FeedsNotBehind(es) && j <= k <= |es|
    ensures NotBefore(LastProcessed(After(s, es[..j])), LastProcessed(After(s, es[..k])))
  {
    hide TickStep;
    if j < k {
      ProgressNeverGoesBack(s, es, j, k - 1);
      assert es[..k][..k - 1] == es[..k - 1];
      if es[k - 1].Poll? {
        TickMovesForward(After(s, es[..k - 1]), es[k - 1].i);
      }
    }
  }

  /** The candle is on record: marked, or the market time of the first signal of a
      database that has no marker row yet. */
  predicate OnRecord(s: State, b: Body) {
    b.marked.Some? || (b.created && s.marker.None?)
  }

  function RecordedCandle(b: Body): Option<int> {
    if b.marked.Some? then b.marked else b.analyzed
  }

  /** AT MOST ONCE: once a tick has put a candle on record, no later tick -- in this
      process or after any number of restarts -- hands that candle, or an older one, to
      the AI or marks it again. */
  lemma RecordedCandleIsNeverAnalyzedAgain(s: State, es: seq<Event>, j: nat, k: nat)
    requires FeedsNotBehind(es) && j < k < |es| && es[j].Poll? && es[k].Poll?
    requires OnRecord(After(s, es[..j]), BodyAt(s, es, j))
    ensures
      var m := RecordedCandle(BodyAt(s, es, j));
      Beyond(m, BodyAt(s, es, k).analyzed) && Beyond(m, BodyAt(s, es, k).marked)
  {
    hide TickStep;
    assert es[..j + 1][..j] == es[..j];
    TickMovesForward(After(s, es[..j]), es[j].i);
    ProgressNeverGoesBack(s, es, j + 1, k);
    TickMovesForward(After(s, es[..k]), es[k].i);
  }

  /** So a candle analyzed twice was not on record after the first time, which only a
      failure, a lost race or a created signal without its marker write can cause. */
  lemma AnalyzedTwiceOnlyUnrecorded(s: State, es: seq<Event>, j: nat, k: nat)
    requires FeedsNotBehind(es) && j < k < |es| && es[j].Poll? && es[k].Poll?
    requires BodyAt(s, es, j).analyzed.Some? && BodyAt(s, es, j).analyzed == BodyAt(s, es, k).analyzed
    ensures !OnRecord(After(s, es[..j]), BodyAt(s, es, j))
    ensures BodyAt(s, es, j).outcome
            in {None, Some(DataUnavailable), Some(ErrorOutcome), Some(BlockedActiveSignal), Some(Created)}
  {
    var b := BodyAt(s, es, j);
    OutcomeTellsTheMark(After(s, es[..j]), es[j].i);
    if b.marked.Some? {
      MarkedIsAnalyzed(After(s, es[..j]), es[j].i);
    }
    if OnRecord(After(s, es[..j]), b) {
      RecordedCandleIsNeverAnalyzedAgain(s, es, j, k);
    }
  }

  lemma MarkedIsAnalyzed(s: State, i: TickInput)
    requires TickStep(s, i).1.marked.Some? && TickStep(s, i).1.analyzed.Some?
    ensures TickStep(s, i).1.marked == TickStep(s, i).1.analyzed
  {
    assert TickStep(s, i).1 == TickBody(s, i);
  }

  /** All gates open on candle `ts`, with enough data. */
  predicate OpenFor(s: State, i: TickInput, ts: int) {
    && !Skips(s, i) && i.markerReadable && i.detection == NewestClosed(ts) && i.gate.GateIdle? && !i.blackout
    && i.window.WindowOf? && i.window.count >= MIN_REQUIRED_CANDLES && i.window.newest == ts && i.indicatorsOk
  }

  /** What decides, before the candle is put on record, whether it will be: the kind of
      answer, whether the marker can be written for that time, and whether a marker row
      exists yet. */
  predicate WillBeRecorded(s: State, i: TickInput, ts: int) {
    match i.reply
    case ProviderLimited => CanMark(i, ts)
    case EngineWait => CanMark(i, ts)
    case EngineRejected => CanMark(i, ts)
    case EngineCreated => CanMark(i, ts) || s.marker.None?
    case _ => false
  }

  lemma RecordedExactlyWhen(s: State, i: TickInput, ts: int)
    requires TickStep(s, i).1.analyzed == Some(ts)
    ensures OnRecord(s, TickStep(s, i).1) <==> WillBeRecorded(s, i, ts)
  {
    assert TickStep(s, i).1 == TickBody(s, i);
  }

  /** EXACT RETRY CONDITION: after a tick has handed a candle to the AI, a following tick
      that finds the same candle with every gate open analyzes it again if and only if the
      first answer was none of these: a rate limit, a WAIT or a rejection whose marker can
      be written, or a created signal whose marker can be written or needs no marker row. */
  lemma AnalyzedAgainExactlyWhen(s: State, i: TickInput, again: TickInput, ts: int)
    requires FeedNotBehind(i) && TickStep(s, i).1.analyzed == Some(ts)
    requires OpenFor(TickStep(s, i).0, again, ts)
    ensures TickStep(TickStep(s, i).0, again).1.analyzed == Some(ts) <==> !WillBeRecorded(s, i, ts)
  {
    assert TickStep(s, i).1 == TickBody(s, i);
    TickMovesForward(s, i);
    RecordedExactlyWhen(s, i, ts);
    if TickStep(s, i).1.marked.Some? {
      MarkedIsAnalyzed(s, i);
    }
  }

  /** AT MOST ONCE, exactly, over whole runs: if tick `j` hands a candle to the AI and is
      answered in one of those ways, no later tick of any process hands it over again; and
      if it is not, one more tick with every gate open on that candle does. */
  lemma CandleIsFinalExactlyWhen(s: State, es: seq<Event>, j: nat, ts: int)
    requires FeedsNotBehind(es) && j < |es| && es[j].Poll? && BodyAt(s, es, j).analyzed == Some(ts)
    ensures WillBeRecorded(After(s, es[..j]), es[j].i, ts) ==>
              forall k :: j < k < |es| && es[k].Poll? ==> BodyAt(s, es, k).analyzed != Some(ts)
    ensures !WillBeRecorded(After(s, es[..j]), es[j].i, ts) ==>
              forall again :: OpenFor(After(s, es[..j + 1]), again, ts) ==>
                BodyAt(s, es[..j + 1] + [Poll(again)], j + 1).analyzed == Some(ts)
  {
    hide TickStep, OpenFor, WillBeRecorded;
    var (before, i) := (After(s, es[..j]), es[j].i);
    RecordedExactlyWhen(before, i, ts);
    assert es[..j + 1][..j] == es[..j];
    if WillBeRecorded(before, i, ts) {
      RecordedIsTheAnalyzed(before, i, ts);
      forall k | j < k < |es| && es[k].Poll? ensures BodyAt(s, es, k).analyzed != Some(ts) {
        RecordedCandleIsNeverAnalyzedAgain(s, es, j, k);
      }
    } else {
      forall again | OpenFor(After(s, es[..j + 1]), again, ts)
        ensures BodyAt(s, es[..j + 1] + [Poll(again)], j + 1).analyzed == Some(ts)
      {
        AnalyzedAgainExactlyWhen(before, i, again, ts);
        assert (es[..j + 1] + [Poll(again)])[..j + 1] == es[..j + 1];
      }
    }
  }

  lemma RecordedIsTheAnalyzed(s: State, i: TickInput, ts: int)
    requires TickStep(s, i).1.analyzed == Some(ts) && OnRecord(s, TickStep(s, i).1)
    ensures RecordedCandle(TickStep(s, i).1) == Some(ts)
  {
    assert TickStep(s, i).1 == TickBody(s, i);
  }

  /** A created signal does not put its candle on record by itself: if the marker write
      fails while an older marker row exists, and the signal then leaves its active state
      within the hour, the AI is called for that candle a second time. */
  lemma CreatedCandleCanBeAnalyzedAgain()
    ensures
      var hour := 3600000;
      var s := State(Some(hour), None, 0, None);
      var first := TickInput(3 * hour, 5, 600000, NewestClosed(2 * hour), true, GateIdle, false,
          WindowOf(220, 2 * hour), true, EngineCreated, false);
      var second := first.(now := 3 * hour + 60000, markerWritable := true);
      var es := [Poll(first), Poll(second)];
      && BodyAt(s, es, 0).outcome == Some(Created)
      && BodyAt(s, es, 0).analyzed == BodyAt(s, es, 1).analyzed == Some(2 * hour)
  {
    var hour := 3600000;
    var s := State(Some(hour), None, 0, None);
    var first := TickInput(3 * hour, 5, 600000, NewestClosed(2 * hour), true, GateIdle, false,
        WindowOf(220, 2 * hour), true, EngineCreated, false);
    var es := [Poll(first), Poll(first.(now := 3 * hour + 60000, markerWritable := true))];
    assert es[..0] == [] && es[..1] == [Poll(first)] && [Poll(first)][..0] == [];
    assert After(s, es[..1]) == React(After(s, []), Poll(first));
  }

  // --- The circuit breaker ----------------------------------------------------

  /** An executed tick: it failed, it raised, or it was answered otherwise. */
  datatype Attempt = Attempt(time: int, failed: bool, raised: bool)

  function AttemptOf(i: TickInput, b: Body): Attempt {
    Attempt(i.now, b.outcome == Some(ErrorOutcome), b.outcome.None?)
  }

  function AfterTicks(s: State, ticks: seq<TickInput>): State {
    if ticks == [] then s else TickStep(AfterTicks(s, ticks[..|ticks| - 1]), ticks[|ticks| - 1]).0
  }

  /** The ticks that were really executed, with their times and how they ended. */
  function Attempts(s: State, ticks: seq<TickInput>): seq<Attempt> {
    if ticks == [] then [] else
      var n := |ticks| - 1;
      var before := AfterTicks(s, ticks[..n]);
      Attempts(s, ticks[..n])
      + if Skips(before, ticks[n]) then [] else
          [AttemptOf(ticks[n], TickStep(before, ticks[n]).1)]
  }

  predicate Settings(ticks: seq<TickInput>, threshold: int, cooldown: int) {
    forall k :: 0 <= k < |ticks| ==> ticks[k].breakCount == threshold && ticks[k].cooldownMs == cooldown
  }

  ghost predicate AllFailed(attempts: seq<Attempt>) {
    forall k :: 0 <= k < |attempts| ==> attempts[k].failed
  }

  lemma {:induction false} FailuresKeepItOpen(s: State, ticks: seq<TickInput>, threshold: int, cooldown: int)
    requires threshold >= 1 && Settings(ticks, threshold, cooldown) && AllFailed(Attempts(s, ticks))
    ensures
      var (a, t) := (Attempts(s, ticks), AfterTicks(s, ticks));
      && t.streak >= |a|
      && (|a| >= threshold ==> t.openUntil == Some(a[|a| - 1].time + cooldown))
      && (forall k :: threshold <= k < |a| ==> a[k].time >= a[k - 1].time + cooldown)
  {
    hide TickBody;
    if ticks != [] {
      var n := |ticks| - 1;
      var front := Attempts(s, ticks[..n]);
      assert forall k :: 0 <= k < |front| ==> front[k] == Attempts(s, ticks)[k];
      FailuresKeepItOpen(s, ticks[..n], threshold, cooldown);
      assert |front| < |Attempts(s, ticks)| ==> Attempts(s, ticks)[|front|].failed;
    }
  }

  lemma {:induction false} SpacedAttempts(a: seq<Attempt>, threshold: nat, cooldown: int, k: nat)
    requires 1 <= threshold <= k <= |a|
    requires forall j :: threshold <= j < |a| ==> a[j].time >= a[j - 1].time + cooldown
    ensures cooldown * (k - threshold) <= a[k - 1].time - a[threshold - 1].time
  {
    if k > threshold {
      SpacedAttempts(a, threshold, cooldown, k - 1);
      assert cooldown * (k - threshold) == cooldown * (k - 1 - threshold) + cooldown;
    }
  }

  lemma DivideBound(n: int, c: int, span: int)
    requires c >= 1 && c * n <= span
    ensures n <= span / c
  {
    var q := span / c;
    assert c * (q + 1 - n) == c * q + c - c * n;
    PositiveFactor(c, q + 1 - n);
  }

  lemma PositiveFactor(c: int, x: int)
    requires c >= 1 && c * x > 0
    ensures x >= 1
  {
  }

  /** BREAKER BOUND: in any stretch of ticks of one process in which every executed tick
      fails, at most N ticks plus one per full cooldown since the N-th are executed,
      whatever streak the stretch starts with and however often it is polled. */
  lemma BreakerBoundsFailingCalls(s: State, ticks: seq<TickInput>, threshold: nat, cooldown: int)
    requires threshold >= 1 && cooldown >= 1 && Settings(ticks, threshold, cooldown) && AllFailed(Attempts(s, ticks))
    ensures
      var a := Attempts(s, ticks);
      |a| <= threshold || |a| <= threshold + (a[|a| - 1].time - a[threshold - 1].time) / cooldown
  {
    hide Attempts, AfterTicks;
    var a := Attempts(s, ticks);
    FailuresKeepItOpen(s, ticks, threshold, cooldown);
    if |a| > threshold {
      SpacedAttempts(a, threshold, cooldown, |a|);
      DivideBound(|a| - threshold, cooldown, a[|a| - 1].time - a[threshold - 1].time);
    }
  }

  /** The attempts that ended with an outcome. */
  function Answered(a: seq<Attempt>): seq<Attempt> {
    if a == [] then [] else
      var last := a[|a| - 1];
      Answered(a[..|a| - 1]) + if last.raised then [] else [last]
  }

  /** The last `n` attempts all failed. */
  ghost predicate LastFailed(a: seq<Attempt>, n: int) {
    0 <= n <= |a| && forall k :: |a| - n <= k < |a| ==> a[k].failed
  }

  /** The stored streak is the length of the failing tail of the answered attempts, and
      the breaker is open exactly when that reaches the threshold and the newest attempt is
      a failure: an exception keeps the streak and closes the breaker. */
  ghost predicate BreakerReads(t: State, a: seq<Attempt>, threshold: int, cooldown: int) {
    var f := Answered(a);
    && LastFailed(f, t.streak) && (t.streak < |f| ==> !f[|f| - t.streak - 1].failed)
    && t.openUntil == if a != [] && a[|a| - 1].failed && t.streak >= threshold
                      then Some(a[|a| - 1].time + cooldown) else None
  }

  lemma {:induction false} BreakerRemembersTheStreak(s: State, ticks: seq<TickInput>, threshold: int, cooldown: int)
    requires threshold >= 1 && Settings(ticks, threshold, cooldown) && s.streak == 0 && s.openUntil.None?
    ensures BreakerReads(AfterTicks(s, ticks), Attempts(s, ticks), threshold, cooldown)
  {
    hide TickBody;
    if ticks != [] {
      var n := |ticks| - 1;
      BreakerRemembersTheStreak(s, ticks[..n], threshold, cooldown);
      var front, last := Attempts(s, ticks[..n]), ticks[n];
      var t := AfterTicks(s, ticks[..n]);
      if Skips(t, last) {
        assert Attempts(s, ticks) == front + [] == front;
      } else {
        AttemptUpdatesBreaker(t, front, last, threshold, cooldown);
      }
    }
  }

  lemma AttemptUpdatesBreaker(t: State, a: seq<Attempt>, i: TickInput, threshold: int, cooldown: int)
    requires threshold >= 1 && i.breakCount == threshold && i.cooldownMs == cooldown
    requires BreakerReads(t, a, threshold, cooldown) && !Skips(t, i)
    ensures
      var (next, b) := TickStep(t, i);
      BreakerReads(next, a + [AttemptOf(i, b)], threshold, cooldown)
  {
    hide TickBody;
    assert (a + [AttemptOf(i, TickStep(t, i).1)])[..|a|] == a;
  }

  /** WHEN A TICK IS SKIPPED, exactly: the newest executed tick of this process failed less
      than one cooldown ago, and the last N that did not raise all failed. */
  lemma SkippedExactlyWhen(s: State, ticks: seq<TickInput>, i: TickInput, threshold: int, cooldown: int)
    requires threshold >= 1 && Settings(ticks, threshold, cooldown) && i.breakCount == threshold
    requires s.streak == 0 && s.openUntil.None?
    ensures
      var a := Attempts(s, ticks);
      Skips(AfterTicks(s, ticks), i)
      <==> a != [] && a[|a| - 1].failed && i.now < a[|a| - 1].time + cooldown && LastFailed(Answered(a), threshold)
  {
    hide Attempts, AfterTicks;
    BreakerRemembersTheStreak(s, ticks, threshold, cooldown);
    var (f, t) := (Answered(Attempts(s, ticks)), AfterTicks(s, ticks));
    if t.streak < threshold <= |f| {
      assert !f[|f| - t.streak - 1].failed;
    }
  }

  /** A non-positive threshold disables the breaker: every tick is executed. */
  lemma DisabledBreakerNeverSkips(s: State, i: TickInput)
    requires i.breakCount <= 0
    ensures TickStep(s, i).1 == TickBody(s, i)
    ensures TickStep(s, i).0.streak == s.streak && TickStep(s, i).0.openUntil == s.openUntil
  {
  }
}
