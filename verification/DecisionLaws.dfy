/** Which candles of a run are decided, blocked or rejected, and what each list says: told
    by the provider, the blackout and the reported signals alone. */
module DecisionLaws {
  import opened Common
  import opened Validator
  import opened Replay
  import opened RunInvariants
  import opened RunTheorems
  import NoLookahead

  // --- What the lists should say -----------------------------------------------

  predicate InBlackout(market: Market, time: int) {
    market.blackout(time).Some? && market.blackout(time).value != ""
  }

  /** The decision time of candle `i`. */
  function DecisionTime(c: Config, hours: seq<Candle>, i: nat): int
    requires i < |hours|
  {
    hours[i].timestamp + c.periodMs
  }

  /** The signal was created at an earlier candle and not closed before `time`. */
  predicate Alive(ev: PendingEvent, ts: int, time: int) {
    ev.signalTs < ts && (ev.closedAt.None? || ev.closedAt.value >= time)
  }

  ghost predicate SomeAlive(evs: seq<PendingEvent>, ts: int, time: int) {
    exists k :: 0 <= k < |evs| && Alive(evs[k], ts, time)
  }

  ghost predicate Recorded(ds: seq<DecisionRecord>, ts: int) {
    exists k :: 0 <= k < |ds| && ds[k].candleTs == ts
  }

  ghost predicate BlockedByASignal(bs: seq<BlockedEvent>, ts: int) {
    exists k :: 0 <= k < |bs| && bs[k].BlockedByActive? && bs[k].candleTs == ts
  }

  ghost predicate BlockedByARelease(bs: seq<BlockedEvent>, ts: int) {
    exists k :: 0 <= k < |bs| && bs[k].BlockedByBlackout? && bs[k].candleTs == ts
  }

  ghost predicate WasRejected(rs: seq<RejectedEvent>, ts: int) {
    exists k :: 0 <= k < |rs| && rs[k].candleTs == ts
  }

  ghost predicate Signalled(evs: seq<PendingEvent>, ts: int) {
    exists k :: 0 <= k < |evs| && evs[k].signalTs == ts
  }

  /** What the provider says of the closed candles up to `i`. */
  function Heard(market: Market, hours: seq<Candle>, i: nat): Option<Analysis>
    requires i < |hours|
  {
    market.provider(hours[..i + 1])
  }

  predicate Tradable(d: Decision) {
    d.LongDecision? || d.ShortDecision?
  }

  /** Where candle `i` ends up: behind a live signal, else behind a release, else recorded;
      and then it creates a signal, is rejected, or waits. */
  ghost predicate CandleLaw(
      c: Config, market: Market, hours: seq<Candle>, evs: seq<PendingEvent>, ds: seq<DecisionRecord>,
      bs: seq<BlockedEvent>, rs: seq<RejectedEvent>, i: nat)
    requires i < |hours|
  {
    var ts, time := hours[i].timestamp, DecisionTime(c, hours, i);
    var alive, release, heard := SomeAlive(evs, ts, time), InBlackout(market, time), Heard(market, hours, i);
    && (BlockedByASignal(bs, ts) <==> alive)
    && (BlockedByARelease(bs, ts) <==> !alive && release)
    && (Recorded(ds, ts) <==> !alive && !release)
    && (Recorded(ds, ts) ==> heard.Some?)
    && (Signalled(evs, ts) <==> !alive && !release && heard.Some? && Acceptable(heard.value, c.guards))
    && (WasRejected(rs, ts)
        <==> !alive && !release && heard.Some? && Tradable(heard.value.decision) && !Acceptable(heard.value, c.guards))
  }

  predicate RecordOf(market: Market, hours: seq<Candle>, d: DecisionRecord, i: nat)
    requires i < |hours|
  {
    && d.candleTs == hours[i].timestamp && Heard(market, hours, i).Some?
    && var a := Heard(market, hours, i).value;
       d.decision == a.decision && d.confidence == a.confidence && d.closePrice == a.candleClose
  }

  ghost predicate BlockOf(
      c: Config, market: Market, hours: seq<Candle>, evs: seq<PendingEvent>, b: BlockedEvent, i: nat)
    requires i < |hours|
  {
    && b.candleTs == hours[i].timestamp && b.decisionTime == DecisionTime(c, hours, i)
    && match b
       case BlockedByBlackout(_, time, reason) => market.blackout(time) == Some(reason)
       case BlockedByActive(ts, time, direction, signalTs) =>
         exists k :: 0 <= k < |evs| && Alive(evs[k], ts, time) && evs[k].signalTs == signalTs
                     && evs[k].levels.direction == direction
  }

  predicate RejectionOf(c: Config, market: Market, hours: seq<Candle>, r: RejectedEvent, i: nat)
    requires i < |hours|
  {
    && r.candleTs == hours[i].timestamp && Heard(market, hours, i).Some?
    && var a := Heard(market, hours, i).value;
       r.decision == a.decision && ValidateAnalysis(a, c.guards) == Checked<Candidate>.Failure(r.reason)
  }

  /** The signal carries the levels that the analysis of its own candle proposed. */
  predicate SignalOf(c: Config, market: Market, hours: seq<Candle>, ev: PendingEvent, i: nat)
    requires i < |hours|
  {
    && ev.signalTs == hours[i].timestamp && ev.decisionTime == DecisionTime(c, hours, i)
    && Heard(market, hours, i).Some? && Proposed(Heard(market, hours, i).value) == Some(ev.levels)
  }

  function CountDecisions(ds: seq<DecisionRecord>, kind: Decision -> bool): nat {
    if ds == [] then 0
    else CountDecisions(ds[..|ds| - 1], kind) + if kind(ds[|ds| - 1].decision) then 1 else 0
  }

  /** All signals of a state: the closed ones, and the active one. */
  function Events(st: RunState): (evs: seq<PendingEvent>)
    ensures |evs| == |st.pendingEvents| + if st.active.Some? then 1 else 0
  {
    st.pendingEvents + if st.active.Some? then [EventOf(st.active.value, None)] else []
  }

  // --- The invariant ------------------------------------------------------------

  /** Candle `i` is a decision candle before `n`. */
  predicate Decided(c: Config, n: nat, i: nat) {
    c.minCandles <= i + 1 && i < n
  }

  ghost predicate HasRecord(c: Config, market: Market, hours: seq<Candle>, d: DecisionRecord, n: nat)
    requires n <= |hours|
  {
    exists i: nat :: Decided(c, n, i) && RecordOf(market, hours, d, i)
  }

  ghost predicate HasBlock(
      c: Config, market: Market, hours: seq<Candle>, evs: seq<PendingEvent>, b: BlockedEvent, n: nat)
    requires n <= |hours|
  {
    exists i: nat :: Decided(c, n, i) && BlockOf(c, market, hours, evs, b, i)
  }

  ghost predicate HasRejection(c: Config, market: Market, hours: seq<Candle>, r: RejectedEvent, n: nat)
    requires n <= |hours|
  {
    exists i: nat :: Decided(c, n, i) && RejectionOf(c, market, hours, r, i)
  }

  ghost predicate HasSignal(c: Config, market: Market, hours: seq<Candle>, ev: PendingEvent, n: nat)
    requires n <= |hours|
  {
    exists i: nat :: Decided(c, n, i) && SignalOf(c, market, hours, ev, i)
  }

  ghost predicate CandlesTold(c: Config, market: Market, hours: seq<Candle>, st: RunState, n: nat)
    requires n <= |hours|
  {
    forall i: nat :: Decided(c, n, i) ==>
      CandleLaw(c, market, hours, Events(st), st.decisions, st.blocked, st.rejected, i)
  }

  /** Every entry of every list belongs to a decision candle before `n`. */
  ghost predicate EntriesTold(c: Config, market: Market, hours: seq<Candle>, st: RunState, n: nat)
    requires n <= |hours|
  {
    && (forall k :: 0 <= k < |st.decisions| ==> HasRecord(c, market, hours, st.decisions[k], n))
    && (forall k :: 0 <= k < |st.blocked| ==> HasBlock(c, market, hours, Events(st), st.blocked[k], n))
    && (forall k :: 0 <= k < |st.rejected| ==> HasRejection(c, market, hours, st.rejected[k], n))
    && (forall k :: 0 <= k < |Events(st)| ==> HasSignal(c, market, hours, Events(st)[k], n))
  }

  predicate IsWait(d: Decision) { d.WaitDecision? }
  predicate IsLong(d: Decision) { d.LongDecision? }
  predicate IsShort(d: Decision) { d.ShortDecision? }

  ghost predicate Counted(st: RunState) {
    && st.counts.waits == CountDecisions(st.decisions, IsWait)
    && st.counts.longs == CountDecisions(st.decisions, IsLong)
    && st.counts.shorts == CountDecisions(st.decisions, IsShort)
  }

  ghost predicate Told(c: Config, market: Market, hours: seq<Candle>, st: RunState, n: nat)
    requires n <= |hours|
  {
    CandlesTold(c, market, hours, st, n) && EntriesTold(c, market, hours, st, n) && Counted(st)
  }

  // --- Minutes ------------------------------------------------------------------

  /** The same signals; some of them may have closed, none before `time`. */
  ghost predicate Grows(a: seq<PendingEvent>, b: seq<PendingEvent>, time: int) {
    |a| == |b| && forall k :: 0 <= k < |a| ==> SameSignal(a[k], b[k], time)
  }

  predicate SameSignal(a: PendingEvent, b: PendingEvent, time: int) {
    && a.signalTs == b.signalTs && a.decisionTime == b.decisionTime && a.levels == b.levels
    && (a.closedAt == b.closedAt || (a.closedAt.None? && b.closedAt.Some? && b.closedAt.value >= time))
  }

  /** A minute changes nothing but the lifecycle of the active signal. */
  predicate SameLists(a: RunState, b: RunState) {
    && a.decisions == b.decisions && a.blocked == b.blocked && a.rejected == b.rejected
    && a.counts.waits == b.counts.waits && a.counts.longs == b.counts.longs && a.counts.shorts == b.counts.shorts
  }

  lemma MinuteGrows(c: Config, st: RunState, m: Candle, time: int)
    requires MonitorStep(c, st, m).Success? && (st.active.Some? ==> m.timestamp >= time)
    ensures
      var next := MonitorStep(c, st, m).value;
      && SameLists(st, next) && Grows(Events(st), Events(next), time)
      && (next.active.Some? ==> st.active.Some?)
  {
    hide OpenFill, CloseFill;
  }

  lemma {:induction false} DrainGrows(c: Config, minutes: seq<Candle>, st: RunState, stop: nat, time: int)
    requires st.cursor <= stop <= |minutes| && Drain(c, minutes, st, stop).Success?
    requires st.active.Some? ==> forall k :: st.cursor <= k < stop ==> minutes[k].timestamp >= time
    ensures
      var end := Drain(c, minutes, st, stop).value;
      && SameLists(st, end) && Grows(Events(st), Events(end), time)
      && (end.active.Some? ==> st.active.Some?)
    decreases stop
  {
    hide MonitorStep;
    if stop != st.cursor {
      DrainGrows(c, minutes, st, stop - 1, time);
      MinuteGrows(c, Drain(c, minutes, st, stop - 1).value, minutes[stop - 1], time);
    }
  }

  lemma AliveLasts(a: seq<PendingEvent>, b: seq<PendingEvent>, time: int, ts: int, at: int)
    requires Grows(a, b, time) && at <= time
    ensures forall k :: 0 <= k < |a| ==> (Alive(a[k], ts, at) <==> Alive(b[k], ts, at))
    ensures SomeAlive(a, ts, at) <==> SomeAlive(b, ts, at)
    ensures Signalled(a, ts) <==> Signalled(b, ts)
  {
    forall k | 0 <= k < |a| ensures Alive(a[k], ts, at) <==> Alive(b[k], ts, at) {
      assert SameSignal(a[k], b[k], time);
    }
    if Signalled(b, ts) {
      var k :| 0 <= k < |b| && b[k].signalTs == ts;
      assert SameSignal(a[k], b[k], time);
    }
    if Signalled(a, ts) {
      var k :| 0 <= k < |a| && a[k].signalTs == ts;
      assert SameSignal(a[k], b[k], time);
    }
  }

  /** What is told of the candles so far survives the minutes after their decisions. */
  lemma MinutesKeepTold(
      c: Config, market: Market, hours: seq<Candle>, a: RunState, b: RunState, n: nat, time: int)
    requires n <= |hours| && Told(c, market, hours, a, n) && SameLists(a, b) && Grows(Events(a), Events(b), time)
    requires forall i: nat :: Decided(c, n, i) ==> DecisionTime(c, hours, i) <= time
    ensures Told(c, market, hours, b, n)
  {
    hide Events, Alive, SomeAlive, Signalled, Acceptable, InBlackout, Heard, BlockOf, SignalOf, Decided;
    forall i: nat | Decided(c, n, i)
      ensures i < |hours| && CandleLaw(c, market, hours, Events(b), b.decisions, b.blocked, b.rejected, i)
    {
      DecidedIsBefore(c, n, i);
      assert CandleLaw(c, market, hours, Events(a), a.decisions, a.blocked, a.rejected, i);
      AliveLasts(Events(a), Events(b), time, hours[i].timestamp, DecisionTime(c, hours, i));
    }
    forall k | 0 <= k < |b.blocked| ensures HasBlock(c, market, hours, Events(b), b.blocked[k], n) {
      assert HasBlock(c, market, hours, Events(a), a.blocked[k], n);
      var i: nat :| Decided(c, n, i) && i < |hours| && BlockOf(c, market, hours, Events(a), a.blocked[k], i);
      BlockLasts(c, market, hours, Events(a), Events(b), b.blocked[k], i, time);
    }
    forall k | 0 <= k < |Events(b)| ensures HasSignal(c, market, hours, Events(b)[k], n) {
      SignalLasts(c, market, hours, Events(a), Events(b), n, time, k);
    }
  }

  lemma DecidedIsBefore(c: Config, n: nat, i: nat)
    requires Decided(c, n, i)
    ensures i < n
  {
  }

  lemma BlockLasts(
      c: Config, market: Market, hours: seq<Candle>, a: seq<PendingEvent>, b: seq<PendingEvent>, e: BlockedEvent,
      i: nat, time: int)
    requires i < |hours| && BlockOf(c, market, hours, a, e, i) && Grows(a, b, time)
    requires DecisionTime(c, hours, i) <= time
    ensures BlockOf(c, market, hours, b, e, i)
  {
    hide Alive;
    AliveLasts(a, b, time, e.candleTs, e.decisionTime);
    if e.BlockedByActive? {
      var k :| 0 <= k < |a| && Alive(a[k], e.candleTs, e.decisionTime) && a[k].signalTs == e.signalTs
               && a[k].levels.direction == e.direction;
      assert SameSignal(a[k], b[k], time);
    }
  }

  lemma SignalLasts(
      c: Config, market: Market, hours: seq<Candle>, a: seq<PendingEvent>, b: seq<PendingEvent>, n: nat, time: int,
      k: nat)
    requires n <= |hours| && Grows(a, b, time) && k < |b| && HasSignal(c, market, hours, a[k], n)
    ensures HasSignal(c, market, hours, b[k], n)
  {
    hide Proposed, Heard;
    assert SameSignal(a[k], b[k], time);
    var i: nat :| Decided(c, n, i) && SignalOf(c, market, hours, a[k], i);
    assert SignalOf(c, market, hours, b[k], i);
  }

  // --- One decision ----------------------------------------------------------------

  /** `b` has the entries of `a`, and at most one more, of candle `ts`. */
  predicate Appends<T(==)>(a: seq<T>, b: seq<T>, stamp: T -> int, ts: int) {
    b == a || (|b| == |a| + 1 && b[..|a|] == a && stamp(b[|a|]) == ts)
  }

  function RecordTs(d: DecisionRecord): int { d.candleTs }
  function BlockTs(b: BlockedEvent): int { b.candleTs }
  function RejectionTs(r: RejectedEvent): int { r.candleTs }
  function SignalTs(ev: PendingEvent): int { ev.signalTs }

  ghost predicate Extends(a: RunState, b: RunState, ts: int) {
    && Appends(a.decisions, b.decisions, RecordTs, ts) && Appends(a.blocked, b.blocked, BlockTs, ts)
    && Appends(a.rejected, b.rejected, RejectionTs, ts) && Appends(Events(a), Events(b), SignalTs, ts)
  }

  lemma DecideExtends(c: Config, market: Market, window: seq<Candle>, time: int, st: RunState)
    requires window != [] && Decide(c, market, window, time, st).Success?
    ensures Extends(st, Decide(c, market, window, time, st).value, window[|window| - 1].timestamp)
  {
    hide ValidateAnalysis;
  }

  /** Entries of a later candle say nothing of an earlier one. */
  lemma OldCandleStands(c: Config, market: Market, hours: seq<Candle>, a: RunState, b: RunState, i: nat, ts: int)
    requires i < |hours| && hours[i].timestamp < ts && Extends(a, b, ts)
    requires CandleLaw(c, market, hours, Events(a), a.decisions, a.blocked, a.rejected, i)
    ensures CandleLaw(c, market, hours, Events(b), b.decisions, b.blocked, b.rejected, i)
  {
    var past, time := hours[i].timestamp, DecisionTime(c, hours, i);
    assert Recorded(a.decisions, past) <==> Recorded(b.decisions, past) by {
      SameMembers(a.decisions, b.decisions, RecordTs, ts, past);
    }
    SameBlocks(a.blocked, b.blocked, ts, past);
    assert WasRejected(a.rejected, past) <==> WasRejected(b.rejected, past) by {
      SameMembers(a.rejected, b.rejected, RejectionTs, ts, past);
    }
    SameSignals(Events(a), Events(b), ts, past, time);
  }

  lemma SameMembers<T>(a: seq<T>, b: seq<T>, stamp: T -> int, ts: int, past: int)
    requires Appends(a, b, stamp, ts) && past < ts
    ensures (exists k :: 0 <= k < |a| && stamp(a[k]) == past) <==> (exists k :: 0 <= k < |b| && stamp(b[k]) == past)
  {
    forall k | 0 <= k < |a| ensures a[k] == b[k] {
    }
  }

  lemma SameBlocks(a: seq<BlockedEvent>, b: seq<BlockedEvent>, ts: int, past: int)
    requires Appends(a, b, BlockTs, ts) && past < ts
    ensures BlockedByASignal(a, past) <==> BlockedByASignal(b, past)
    ensures BlockedByARelease(a, past) <==> BlockedByARelease(b, past)
  {
    forall k | 0 <= k < |a| ensures a[k] == b[k] {
    }
  }

  lemma SameSignals(a: seq<PendingEvent>, b: seq<PendingEvent>, ts: int, past: int, time: int)
    requires Appends(a, b, SignalTs, ts) && past < ts
    ensures SomeAlive(a, past, time) <==> SomeAlive(b, past, time)
    ensures Signalled(a, past) <==> Signalled(b, past)
  {
    forall k | 0 <= k < |a| ensures a[k] == b[k] {
    }
  }

  /** Before its own decision no list mentions candle `n`. */
  lemma NothingYet(c: Config, market: Market, hours: seq<Candle>, st: RunState, n: nat)
    requires Ascending(hours) && n < |hours| && EntriesTold(c, market, hours, st, n)
    ensures
      var ts := hours[n].timestamp;
      && !Recorded(st.decisions, ts) && !BlockedByASignal(st.blocked, ts) && !BlockedByARelease(st.blocked, ts)
      && !WasRejected(st.rejected, ts) && !Signalled(Events(st), ts)
  {
    hide Events, Heard, Proposed, ValidateAnalysis;
    forall k | 0 <= k < |st.decisions| ensures st.decisions[k].candleTs < hours[n].timestamp {
      assert HasRecord(c, market, hours, st.decisions[k], n);
    }
    forall k | 0 <= k < |st.blocked| ensures st.blocked[k].candleTs < hours[n].timestamp {
      assert HasBlock(c, market, hours, Events(st), st.blocked[k], n);
    }
    forall k | 0 <= k < |st.rejected| ensures st.rejected[k].candleTs < hours[n].timestamp {
      assert HasRejection(c, market, hours, st.rejected[k], n);
    }
    forall k | 0 <= k < |Events(st)| ensures Events(st)[k].signalTs < hours[n].timestamp {
      assert HasSignal(c, market, hours, Events(st)[k], n);
    }
  }

  lemma AppendedIsThere<T>(a: seq<T>, x: T)
    ensures (a + [x])[|a|] == x && (a + [x])[..|a|] == a && |a + [x]| == |a| + 1
  {
  }

  /** What the decision on candle `n` adds: exactly one of the three ways out. */
  lemma NewCandleLaw(c: Config, market: Market, hours: seq<Candle>, st: RunState, n: nat)
    requires Ascending(hours) && n < |hours| && EntriesTold(c, market, hours, st, n)
    requires Decide(c, market, hours[..n + 1], DecisionTime(c, hours, n), st).Success?
    requires st.active.Some? <==> SomeAlive(Events(st), hours[n].timestamp, DecisionTime(c, hours, n))
    ensures
      var next := Decide(c, market, hours[..n + 1], DecisionTime(c, hours, n), st).value;
      CandleLaw(c, market, hours, Events(next), next.decisions, next.blocked, next.rejected, n)
  {
    hide ValidateAnalysis, Acceptable, EntriesTold;
    var ts, time := hours[n].timestamp, DecisionTime(c, hours, n);
    var next := Decide(c, market, hours[..n + 1], time, st).value;
    NothingYet(c, market, hours, st, n);
    DecideExtends(c, market, hours[..n + 1], time, st);
    if st.active.Some? {
      assert next.blocked[|st.blocked|].BlockedByActive? && next.blocked[|st.blocked|].candleTs == ts;
      assert forall k :: 0 <= k < |st.blocked| ==> next.blocked[k] == st.blocked[k];
      assert Events(next) == Events(st);
    } else if InBlackout(market, time) {
      assert next.blocked[|st.blocked|].BlockedByBlackout? && next.blocked[|st.blocked|].candleTs == ts;
      assert forall k :: 0 <= k < |st.blocked| ==> next.blocked[k] == st.blocked[k];
      assert Events(next) == Events(st);
    } else {
      var a := Heard(market, hours, n).value;
      AcceptedExactlyWhen(a, c.guards);
      assert next.decisions[|st.decisions|].candleTs == ts;
      OutcomeOfAnAnalysis(c, market, hours[..n + 1], time, st);
      assert SomeAlive(Events(next), ts, time) ==> SomeAlive(Events(st), ts, time) by {
        NewSignalIsNotAlive(Events(st), Events(next), ts, time);
      }
      assert Signalled(Events(next), ts) <==> Acceptable(a, c.guards) by {
        if Acceptable(a, c.guards) {
          assert Events(next)[|Events(st)|].signalTs == ts;
        }
      }
      assert WasRejected(next.rejected, ts) <==> Tradable(a.decision) && !Acceptable(a, c.guards) by {
        if Tradable(a.decision) && !Acceptable(a, c.guards) {
          assert next.rejected[|st.rejected|].candleTs == ts;
        }
      }
    }
  }

  lemma NewSignalIsNotAlive(a: seq<PendingEvent>, b: seq<PendingEvent>, ts: int, time: int)
    requires Appends(a, b, SignalTs, ts)
    ensures SomeAlive(b, ts, time) ==> SomeAlive(a, ts, time)
  {
    if SomeAlive(b, ts, time) {
      var k :| 0 <= k < |b| && Alive(b[k], ts, time);
      assert k < |a| ==> b[k] == b[..|a|][k] == a[k];
    }
  }

  /** Past the gates: a record, and for LONG and SHORT a new signal or a rejection. */
  lemma OutcomeOfAnAnalysis(c: Config, market: Market, window: seq<Candle>, time: int, st: RunState)
    requires window != [] && st.active.None? && !InBlackout(market, time)
    requires Decide(c, market, window, time, st).Success?
    ensures market.provider(window).Some?
    ensures
      var next, a := Decide(c, market, window, time, st).value, market.provider(window).value;
      var ts, checked := window[|window| - 1].timestamp, ValidateAnalysis(a, c.guards);
      && next.decisions == st.decisions + [DecisionRecord(ts, a.decision, a.confidence, a.candleClose)]
      && next.blocked == st.blocked
      && next.rejected == (if Tradable(a.decision) && checked.Failure?
                           then st.rejected + [RejectedEvent(ts, a.decision, checked.error)] else st.rejected)
      && (if Tradable(a.decision) && checked.Success?
          then |Events(next)| == |Events(st)| + 1 && Events(next)[..|Events(st)|] == Events(st)
               && var ev := Events(next)[|Events(st)|];
                  ev.signalTs == ts && ev.decisionTime == time && ev.levels == checked.value.levels
          else Events(next) == Events(st))
      && (checked.Success? ==> Tradable(a.decision))
  {
    hide ValidateTradeLevels, ValidateConfidence, ValidateFundingCrowd, ValidateHtfBias;
  }

  lemma EntriesWiden(c: Config, market: Market, hours: seq<Candle>, evs: seq<PendingEvent>, n: nat)
    requires n < |hours|
    ensures forall d :: HasRecord(c, market, hours, d, n) ==> HasRecord(c, market, hours, d, n + 1)
    ensures forall b :: HasBlock(c, market, hours, evs, b, n) ==> HasBlock(c, market, hours, evs, b, n + 1)
    ensures forall r :: HasRejection(c, market, hours, r, n) ==> HasRejection(c, market, hours, r, n + 1)
    ensures forall ev :: HasSignal(c, market, hours, ev, n) ==> HasSignal(c, market, hours, ev, n + 1)
  {
    hide RecordOf, BlockOf, RejectionOf, SignalOf;
    assert forall i: nat :: Decided(c, n, i) ==> Decided(c, n + 1, i);
  }

  /** A block by a live signal stays one when signals are appended. */
  lemma BlocksKeepTheirSignal(
      c: Config, market: Market, hours: seq<Candle>, a: seq<PendingEvent>, b: seq<PendingEvent>, e: BlockedEvent,
      n: nat)
    requires n <= |hours| && |a| <= |b| && b[..|a|] == a && HasBlock(c, market, hours, a, e, n)
    ensures HasBlock(c, market, hours, b, e, n)
  {
    var i: nat :| Decided(c, n, i) && BlockOf(c, market, hours, a, e, i);
    assert forall k :: 0 <= k < |a| ==> b[k] == a[k];
    assert BlockOf(c, market, hours, b, e, i);
  }

  /** The entries a decision adds are those of its candle. */
  lemma NewEntries(c: Config, market: Market, hours: seq<Candle>, st: RunState, n: nat)
    requires n < |hours| && Decided(c, n + 1, n) && EntriesTold(c, market, hours, st, n)
    requires Decide(c, market, hours[..n + 1], DecisionTime(c, hours, n), st).Success?
    requires st.active.Some? ==>
               Alive(EventOf(st.active.value, None), hours[n].timestamp, DecisionTime(c, hours, n))
    ensures
      EntriesTold(c, market, hours, Decide(c, market, hours[..n + 1], DecisionTime(c, hours, n), st).value, n + 1)
  {
    hide ValidateAnalysis, Acceptable, HasRecord, HasBlock, HasRejection, HasSignal, RecordOf, BlockOf, RejectionOf;
    hide SignalOf, Alive, Decided;
    var time := DecisionTime(c, hours, n);
    var next := Decide(c, market, hours[..n + 1], time, st).value;
    EntriesWiden(c, market, hours, Events(st), n);
    if st.active.Some? {
      NewBlock(c, market, hours, st, n);
    } else if InBlackout(market, time) {
      NewBlock(c, market, hours, st, n);
    } else {
      NewRecord(c, market, hours, st, n);
      forall k | 0 <= k < |next.blocked| ensures HasBlock(c, market, hours, Events(next), next.blocked[k], n + 1) {
        BlocksKeepTheirSignal(c, market, hours, Events(st), Events(next), st.blocked[k], n + 1);
      }
    }
  }

  lemma NewBlock(c: Config, market: Market, hours: seq<Candle>, st: RunState, n: nat)
    requires n < |hours| && Decided(c, n + 1, n)
    requires st.active.Some? || InBlackout(market, DecisionTime(c, hours, n))
    requires st.active.Some? ==>
               Alive(EventOf(st.active.value, None), hours[n].timestamp, DecisionTime(c, hours, n))
    ensures
      var r := Decide(c, market, hours[..n + 1], DecisionTime(c, hours, n), st);
      && r.Success? && r.value == st.(blocked := r.value.blocked, counts := r.value.counts)
      && |r.value.blocked| == |st.blocked| + 1 && r.value.blocked[..|st.blocked|] == st.blocked
      && HasBlock(c, market, hours, Events(st), r.value.blocked[|st.blocked|], n + 1)
  {
    var time := DecisionTime(c, hours, n);
    var next := Decide(c, market, hours[..n + 1], time, st).value;
    var e := next.blocked[|st.blocked|];
    if st.active.Some? {
      assert Events(st)[|st.pendingEvents|] == EventOf(st.active.value, None);
    }
    assert BlockOf(c, market, hours, Events(st), e, n);
  }

  lemma NewRecord(c: Config, market: Market, hours: seq<Candle>, st: RunState, n: nat)
    requires n < |hours| && Decided(c, n + 1, n) && st.active.None?
    requires !InBlackout(market, DecisionTime(c, hours, n))
    requires Decide(c, market, hours[..n + 1], DecisionTime(c, hours, n), st).Success?
    ensures
      var next := Decide(c, market, hours[..n + 1], DecisionTime(c, hours, n), st).value;
      && next.blocked == st.blocked
      && |next.decisions| == |st.decisions| + 1 && next.decisions[..|st.decisions|] == st.decisions
      && HasRecord(c, market, hours, next.decisions[|st.decisions|], n + 1)
      && (next.rejected == st.rejected
          || (|next.rejected| == |st.rejected| + 1 && next.rejected[..|st.rejected|] == st.rejected
              && HasRejection(c, market, hours, next.rejected[|st.rejected|], n + 1)))
      && (Events(next) == Events(st)
          || (|Events(next)| == |Events(st)| + 1 && Events(next)[..|Events(st)|] == Events(st)
              && HasSignal(c, market, hours, Events(next)[|Events(st)|], n + 1)))
  {
    hide ValidateAnalysis, Decide, Events, Acceptable;
    var time := DecisionTime(c, hours, n);
    OutcomeOfAnAnalysis(c, market, hours[..n + 1], time, st);
    var a := Heard(market, hours, n).value;
    AcceptedExactlyWhen(a, c.guards);
    var next := Decide(c, market, hours[..n + 1], time, st).value;
    assert RecordOf(market, hours, next.decisions[|st.decisions|], n);
    if next.rejected != st.rejected {
      assert RejectionOf(c, market, hours, next.rejected[|st.rejected|], n);
    }
    if Events(next) != Events(st) {
      assert SignalOf(c, market, hours, Events(next)[|Events(st)|], n);
    }
  }

  lemma DecideCounts(c: Config, market: Market, window: seq<Candle>, time: int, st: RunState)
    requires window != [] && Counted(st) && Decide(c, market, window, time, st).Success?
    ensures Counted(Decide(c, market, window, time, st).value)
  {
    var next := Decide(c, market, window, time, st).value;
    OneDecisionAtMost(c, market, window, time, st);
    hide Decide, IsWait, IsLong, IsShort;
    if next.decisions != st.decisions {
      var d := next.decisions[|next.decisions| - 1];
      CountsOneMore(st.decisions, d, IsWait);
      CountsOneMore(st.decisions, d, IsLong);
      CountsOneMore(st.decisions, d, IsShort);
    }
  }

  lemma CountsOneMore(ds: seq<DecisionRecord>, d: DecisionRecord, kind: Decision -> bool)
    ensures CountDecisions(ds + [d], kind) == CountDecisions(ds, kind) + if kind(d.decision) then 1 else 0
  {
    assert (ds + [d])[..|ds|] == ds;
  }

  lemma OneDecisionAtMost(c: Config, market: Market, window: seq<Candle>, time: int, st: RunState)
    requires window != [] && Decide(c, market, window, time, st).Success?
    ensures
      var next := Decide(c, market, window, time, st).value;
      var (k, m) := (st.counts, next.counts);
      if next.decisions == st.decisions then m.waits == k.waits && m.longs == k.longs && m.shorts == k.shorts else
        && |next.decisions| == |st.decisions| + 1
        && next.decisions == st.decisions + [next.decisions[|st.decisions|]]
        && var d := next.decisions[|st.decisions|].decision;
           && m.waits == k.waits + (if IsWait(d) then 1 else 0)
           && m.longs == k.longs + (if IsLong(d) then 1 else 0)
           && m.shorts == k.shorts + (if IsShort(d) then 1 else 0)
  {
    hide ValidateAnalysis;
  }

  /** ONE DECISION keeps everything told. */
  lemma DecideKeepsTold(c: Config, market: Market, hours: seq<Candle>, st: RunState, n: nat)
    requires Ascending(hours) && n < |hours| && Decided(c, n + 1, n) && Told(c, market, hours, st, n)
    requires Decide(c, market, hours[..n + 1], DecisionTime(c, hours, n), st).Success?
    requires st.active.Some? <==> SomeAlive(Events(st), hours[n].timestamp, DecisionTime(c, hours, n))
    requires st.active.Some? ==>
               Alive(EventOf(st.active.value, None), hours[n].timestamp, DecisionTime(c, hours, n))
    ensures Told(c, market, hours, Decide(c, market, hours[..n + 1], DecisionTime(c, hours, n), st).value, n + 1)
  {
    hide Decide, Events, CandleLaw, EntriesTold, SomeAlive, Alive;
    var time := DecisionTime(c, hours, n);
    var window := hours[..n + 1];
    assert window[|window| - 1] == hours[n];
    var next := Decide(c, market, window, time, st).value;
    DecideExtends(c, market, window, time, st);
    NewCandleLaw(c, market, hours, st, n);
    NewEntries(c, market, hours, st, n);
    DecideCounts(c, market, window, time, st);
    forall i: nat | Decided(c, n + 1, i)
      ensures CandleLaw(c, market, hours, Events(next), next.decisions, next.blocked, next.rejected, i)
    {
      if i < n {
        assert Decided(c, n, i);
        OldCandleStands(c, market, hours, st, next, i, hours[n].timestamp);
      }
    }
  }

  // --- Whole runs ------------------------------------------------------------------

  /** When candle `n` is decided, a signal is active exactly if some reported one is alive. */
  lemma ActiveMeansAlive(
      c: Config, market: Market, hours: seq<Candle>, minutes: seq<Candle>, st: RunState, n: nat)
    requires Ascending(hours) && n < |hours| && EntriesTold(c, market, hours, st, n) && Touching(c, minutes, st)
    requires st.cursor <= |minutes|
    requires forall k :: 0 <= k < st.cursor ==> minutes[k].timestamp < DecisionTime(c, hours, n)
    ensures st.active.Some? <==> SomeAlive(Events(st), hours[n].timestamp, DecisionTime(c, hours, n))
    ensures st.active.Some? ==> Alive(EventOf(st.active.value, None), hours[n].timestamp, DecisionTime(c, hours, n))
  {
    hide Heard, Proposed, EntersFirst, NoExitBetween, AliveSince;
    var ts, time := hours[n].timestamp, DecisionTime(c, hours, n);
    forall k | 0 <= k < |st.pendingEvents| ensures !Alive(Events(st)[k], ts, time) {
      assert ClosedBefore(c, minutes, st.trades[k], st.cursor);
      var e: nat, x: nat :| x < st.cursor && LivedThrough(c, minutes, st.trades[k], e, x);
      assert st.pendingEvents[k] == ClosedEvent(c, st.trades[k]);
    }
    if st.active.Some? {
      var last := |st.pendingEvents|;
      assert Events(st)[last] == EventOf(st.active.value, None);
      assert HasSignal(c, market, hours, Events(st)[last], n);
    }
  }

  /** One candle of the run: its minutes, then its decision. */
  lemma CandleKeepsTold(
      c: Config, market: Market, hours: seq<Candle>, minutes: seq<Candle>, st: RunState, n: nat)
    requires Runnable(c, hours, minutes) && n < |hours| && c.minCandles <= n + 1
    requires st.cursor <= |minutes| && Told(c, market, hours, st, n) && Inv(c, minutes, st, n + 1 - c.minCandles)
    requires CandleStep(c, market, hours, minutes, st, n).Success?
    requires st.cursor <= CursorAt(minutes, 0, DecisionTime(c, hours, n))
    requires c.minCandles <= n && st.active.Some? ==>
               forall k :: st.cursor <= k < |minutes| ==> minutes[k].timestamp >= DecisionTime(c, hours, n - 1)
    requires n < c.minCandles ==> st.active.None?
    ensures Told(c, market, hours, CandleStep(c, market, hours, minutes, st, n).value, n + 1)
  {
    hide Drain, Decide, Events, Told, Tally, Money, Touching;
    var time := DecisionTime(c, hours, n);
    var stop := CursorAt(minutes, st.cursor, time);
    NoLookahead.CursorFromAnyEarlierStart(minutes, st.cursor, time);
    var drained := Drain(c, minutes, st, stop).value;
    DrainMovesCursor(c, minutes, st, stop);
    DrainKeepsInv(c, minutes, st, stop, n + 1 - c.minCandles);
    var since := if n < c.minCandles then time else DecisionTime(c, hours, n - 1);
    DrainGrows(c, minutes, st, stop, since);
    forall i: nat | Decided(c, n, i) ensures DecisionTime(c, hours, i) <= since {
      assert i < n;
    }
    MinutesKeepTold(c, market, hours, st, drained, n, since);
    ToldEntries(c, market, hours, drained, n);
    ActiveMeansAlive(c, market, hours, minutes, drained, n);
    DecideKeepsTold(c, market, hours, drained, n);
  }

  lemma ToldEntries(c: Config, market: Market, hours: seq<Candle>, st: RunState, n: nat)
    requires n <= |hours| && Told(c, market, hours, st, n)
    ensures EntriesTold(c, market, hours, st, n)
  {
  }

  /** After a candle the cursor has passed its decision time. */
  lemma CursorPassed(c: Config, market: Market, hours: seq<Candle>, minutes: seq<Candle>, n: nat)
    requires Runnable(c, hours, minutes) && c.minCandles <= n <= |hours|
    requires AfterCandles(c, market, hours, minutes, n).Success?
    ensures
      var st := AfterCandles(c, market, hours, minutes, n).value;
      forall k :: st.cursor <= k < |minutes| ==> minutes[k].timestamp >= DecisionTime(c, hours, n - 1)
  {
    hide Drain, Decide;
  }

  lemma {:induction false} AfterCandlesTold(
      c: Config, market: Market, hours: seq<Candle>, minutes: seq<Candle>, n: nat)
    requires Runnable(c, hours, minutes) && c.minCandles - 1 <= n <= |hours|
    requires AfterCandles(c, market, hours, minutes, n).Success?
    ensures Told(c, market, hours, AfterCandles(c, market, hours, minutes, n).value, n)
    decreases n
  {
    hide CandleStep, Told, Inv, Ascending;
    if n == c.minCandles - 1 {
      NothingTold(c, market, hours, n);
    } else {
      AfterCandlesTold(c, market, hours, minutes, n - 1);
      AfterCandlesInv(c, market, hours, minutes, n - 1);
      NoLookahead.CursorIsAtLastDecision(c, market, hours, minutes, n - 1);
      if n - 1 >= c.minCandles {
        CursorPassed(c, market, hours, minutes, n - 1);
      }
      CandleKeepsTold(c, market, hours, minutes, AfterCandles(c, market, hours, minutes, n - 1).value, n - 1);
    }
  }

  lemma NothingTold(c: Config, market: Market, hours: seq<Candle>, n: nat)
    requires n <= |hours| && n < c.minCandles
    ensures Told(c, market, hours, Start(c), n)
  {
  }

  lemma RunEndsTold(c: Config, market: Market, hours: seq<Candle>, minutes: seq<Candle>)
    requires Runnable(c, hours, minutes) && Run(c, market, hours, minutes).Success?
    ensures
      var r := Run(c, market, hours, minutes).value;
      Told(c, market, hours, r.state, |hours|) && r.pendingEvents == Events(r.state)
  {
    hide AfterCandles, Drain, Told;
    var n := |hours|;
    var st := AfterCandles(c, market, hours, minutes, n).value;
    AfterCandlesTold(c, market, hours, minutes, n);
    CursorPassed(c, market, hours, minutes, n);
    var since := DecisionTime(c, hours, n - 1);
    DrainGrows(c, minutes, st, |minutes|, since);
    MinutesKeepTold(c, market, hours, st, Drain(c, minutes, st, |minutes|).value, n, since);
  }

  /** THE GATES OF A RUN: every decision candle is blocked exactly if a reported signal was
      alive at its decision time, else blocked exactly if the blackout named a reason then,
      else recorded; and a recorded one creates a signal exactly if its analysis is
      acceptable, and is rejected exactly if it is tradable and not acceptable. */
  lemma EveryCandleIsAccountedFor(c: Config, market: Market, hours: seq<Candle>, minutes: seq<Candle>, i: nat)
    requires Runnable(c, hours, minutes) && Run(c, market, hours, minutes).Success?
    requires c.minCandles <= i + 1 && i < |hours|
    ensures
      var r := Run(c, market, hours, minutes).value;
      CandleLaw(c, market, hours, r.pendingEvents, r.state.decisions, r.state.blocked, r.state.rejected, i)
  {
    hide Run, CandleLaw;
    RunEndsTold(c, market, hours, minutes);
    assert Decided(c, |hours|, i);
  }

  /** THE LISTS OF A RUN say what the provider, the blackout and the validator said: each
      record carries its provider's decision, each block its reason or its live signal,
      each rejection its error, each signal the levels its own analysis proposed; and the
      counters count the records of their own kind. */
  lemma EveryEntryIsGenuine(c: Config, market: Market, hours: seq<Candle>, minutes: seq<Candle>)
    requires Runnable(c, hours, minutes) && Run(c, market, hours, minutes).Success?
    ensures
      var r := Run(c, market, hours, minutes).value;
      var st, n := r.state, |hours|;
      && (forall k :: 0 <= k < |st.decisions| ==> HasRecord(c, market, hours, st.decisions[k], n))
      && (forall k :: 0 <= k < |st.blocked| ==> HasBlock(c, market, hours, r.pendingEvents, st.blocked[k], n))
      && (forall k :: 0 <= k < |st.rejected| ==> HasRejection(c, market, hours, st.rejected[k], n))
      && (forall k :: 0 <= k < |r.pendingEvents| ==> HasSignal(c, market, hours, r.pendingEvents[k], n))
      && st.counts.waits == CountDecisions(st.decisions, IsWait)
      && st.counts.longs == CountDecisions(st.decisions, IsLong)
      && st.counts.shorts == CountDecisions(st.decisions, IsShort)
  {
    hide Run, CandleLaw, HasRecord, HasBlock, HasRejection, HasSignal;
    RunEndsTold(c, market, hours, minutes);
  }

  // --- Errors ----------------------------------------------------------------------

  /** The provider gave no answer at candle `i`, or one that is no decision, outside any release. */
  predicate FailsAt(c: Config, market: Market, hours: seq<Candle>, e: RunError, i: nat)
    requires i < |hours|
  {
    && !InBlackout(market, DecisionTime(c, hours, i))
    && match e
       case ProviderFailed(ts) => ts == hours[i].timestamp && Heard(market, hours, i).None?
       case UnknownDecisionAt(ts) =>
         && ts == hours[i].timestamp && Heard(market, hours, i).Some?
         && Heard(market, hours, i).value.decision.UnknownDecision?
       case InvalidMinute(_, _) => false
  }

  ghost predicate Fails(c: Config, market: Market, hours: seq<Candle>, e: RunError, n: nat)
    requires n <= |hours|
  {
    exists i: nat :: Decided(c, n, i) && FailsAt(c, market, hours, e, i)
  }

  lemma {:induction false} MinutesRaiseMinuteErrors(c: Config, minutes: seq<Candle>, st: RunState, stop: nat)
    requires st.cursor <= stop <= |minutes| && Drain(c, minutes, st, stop).Failure?
    ensures Drain(c, minutes, st, stop).error.InvalidMinute?
    decreases stop
  {
    hide OpenFill, CloseFill;
    if Drain(c, minutes, st, stop - 1).Failure? {
      MinutesRaiseMinuteErrors(c, minutes, st, stop - 1);
    }
  }

  lemma {:induction false} CandlesFailGenuinely(
      c: Config, market: Market, hours: seq<Candle>, minutes: seq<Candle>, n: nat)
    requires Runnable(c, hours, minutes) && c.minCandles - 1 <= n <= |hours|
    requires AfterCandles(c, market, hours, minutes, n).Failure?
    ensures
      var e := AfterCandles(c, market, hours, minutes, n).error;
      e.InvalidMinute? || Fails(c, market, hours, e, n)
    decreases n
  {
    hide Drain, ValidateAnalysis;
    var before := AfterCandles(c, market, hours, minutes, n - 1);
    if before.Failure? {
      CandlesFailGenuinely(c, market, hours, minutes, n - 1);
      if !before.error.InvalidMinute? {
        var i: nat :| Decided(c, n - 1, i) && FailsAt(c, market, hours, before.error, i);
        assert Decided(c, n, i);
      }
    } else {
      var stop := CursorAt(minutes, before.value.cursor, DecisionTime(c, hours, n - 1));
      if Drain(c, minutes, before.value, stop).Failure? {
        MinutesRaiseMinuteErrors(c, minutes, before.value, stop);
      } else {
        assert Decided(c, n, n - 1) && hours[..n][n - 1] == hours[n - 1];
        assert FailsAt(c, market, hours, AfterCandles(c, market, hours, minutes, n).error, n - 1);
      }
    }
  }

  /** A run that raises names a candle at which the provider really failed, or a minute. */
  lemma RunFailsGenuinely(c: Config, market: Market, hours: seq<Candle>, minutes: seq<Candle>)
    requires Runnable(c, hours, minutes) && Run(c, market, hours, minutes).Failure?
    ensures
      var e := Run(c, market, hours, minutes).error;
      e.InvalidMinute? || Fails(c, market, hours, e, |hours|)
  {
    hide AfterCandles, Drain, Fails;
    var st := AfterCandles(c, market, hours, minutes, |hours|);
    if st.Failure? {
      CandlesFailGenuinely(c, market, hours, minutes, |hours|);
    } else {
      MinutesRaiseMinuteErrors(c, minutes, st.value, |minutes|);
    }
  }
}
