/** What one poll answers, and which messages a daemon process sends over its life. */
module RuntimeLaws {
  import opened Common
  import opened Ledger
  import opened LedgerInvariant
  import opened Monitor
  import opened LiveMonitor
  import opened Runtime
  import R = Recovery

  // --- One poll -----------------------------------------------------------------

  /** `m` is the newest closed candle of the fetch. */
  ghost predicate NewestClosedIs(cs: seq<Candle>, m: Candle) {
    exists n :: 0 <= n < |cs| && cs[n] == m && m.isClosed && forall k :: n < k < |cs| ==> !cs[k].isClosed
  }

  lemma OneOpenCandleMore(front: seq<Candle>, last: Candle, m: Candle)
    requires NewestClosedIs(front, m) && !last.isClosed
    ensures NewestClosedIs(front + [last], m)
  {
    var n :| 0 <= n < |front| && front[n] == m && m.isClosed && forall k :: n < k < |front| ==> !front[k].isClosed;
    assert (front + [last])[n] == m;
  }

  lemma {:induction false} LastClosed(cs: seq<Candle>)
    ensures ClosedOnly(cs) != [] ==> NewestClosedIs(cs, ClosedOnly(cs)[|ClosedOnly(cs)| - 1])
  {
    if cs != [] {
      var front, last := cs[..|cs| - 1], cs[|cs| - 1];
      if last.isClosed {
        assert cs[|cs| - 1] == last;
      } else {
        LastClosed(front);
        if ClosedOnly(front) != [] {
          var m := ClosedOnly(front)[|ClosedOnly(front)| - 1];
          OneOpenCandleMore(front, last, m);
          assert cs == front + [last];
        }
      }
    }
  }

  lemma NewestClosedIsUnique(cs: seq<Candle>, m: Candle, k: Candle)
    requires NewestClosedIs(cs, m) && NewestClosedIs(cs, k)
    ensures m == k
  {
  }

  /** What a poll answers for an active row and the candle it read. */
  predicate Answers(db: Db, id: nat, m: Candle, next: Db, r: MonitorResult)
    requires id < |db.signals|
  {
    var s := db.signals[id];
    var touch := if s.status.PendingEntry? then EvaluateEntry(s.levels, m.high, m.low)
                 else EvaluateCandle(s.levels, m.high, m.low);
    && (r.AmbiguousCandle? <==> touch.Ambiguous?) && (r.StillMonitoring? <==> touch.Monitoring?)
    && (r.EntryConfirmed? <==> s.status.PendingEntry? && touch.EntryHit?)
    && (r.ExitConfirmed? <==> s.status.Open? && (touch.TpHit? || touch.SlHit?))
    && (r.EntryConfirmed? || r.ExitConfirmed? ==>
          && r.id == id && id < |next.signals| && r.row == next.signals[id] && r.row.levels == s.levels
          && (r.EntryConfirmed? ==> r.row.status.Open?)
          && (r.ExitConfirmed? ==>
                && r.exit == touch && r.row.status == (if touch.TpHit? then Status.TpHit else Status.SlHit)
                && r.row.closePrice == Some(if touch.TpHit? then s.levels.takeProfit else s.levels.stopLoss)))
  }

  /** POLL, exactly: nothing without an active signal, DATA_UNAVAILABLE without a closed
      candle, and otherwise what the newest closed candle says of that signal's levels. */
  lemma PollAnswersExactly(db: Db, id: nat, fetched: Option<seq<Candle>>, m: Candle)
    requires SignalsOk(db.signals) && id < |db.signals| && IsActive(db.signals[id].status)
    ensures
      var s := db.signals[id];
      var (next, r) := PollOnce(db, s.symbol, fetched);
      var closed := fetched.Some? && exists k :: 0 <= k < |fetched.value| && fetched.value[k].isClosed;
      && (r.DataUnavailable? <==> !closed) && !r.NoActiveSignal? && !r.MonitorError?
      && (closed && NewestClosedIs(fetched.value, m) ==> Answers(db, id, m, next, r))
      && (!r.EntryConfirmed? && !r.ExitConfirmed? ==> next == db)
  {
    hide Evaluate, Answers;
    OnlyActiveOfItsSymbol(db, id);
    if fetched.Some? && ClosedOnly(fetched.value) != [] {
      var closed := ClosedOnly(fetched.value);
      LastClosed(fetched.value);
      if NewestClosedIs(fetched.value, m) {
        NewestClosedIsUnique(fetched.value, m, closed[|closed| - 1]);
      }
      CandleIsAnswered(db, id, closed[|closed| - 1]);
    }
  }

  /** An active row against one candle. */
  lemma CandleIsAnswered(db: Db, id: nat, m: Candle)
    requires SignalsOk(db.signals) && id < |db.signals| && IsActive(db.signals[id].status)
    ensures
      var (next, r) := Evaluate(db, id, db.signals[id], m);
      && Answers(db, id, m, next, r) && !r.NoActiveSignal? && !r.MonitorError? && !r.DataUnavailable?
      && (!r.EntryConfirmed? && !r.ExitConfirmed? ==> next == db)
  {
    hide EvaluateEntry, EvaluateCandle, OneActivePerSymbol;
    EntriesAndExits(db.signals[id].levels, m);
  }

  lemma EntriesAndExits(l: Levels, m: Candle)
    ensures
      var (entry, exit) := (EvaluateEntry(l, m.high, m.low), EvaluateCandle(l, m.high, m.low));
      && (entry.EntryHit? || entry.Ambiguous? || entry.Monitoring?)
      && (IsExit(exit) || exit.Ambiguous? || exit.Monitoring?) && (IsExit(exit) <==> exit.TpHit? || exit.SlHit?)
  {
  }

  /** A LOST RACE, exactly: a promotion that another daemon made impossible is answered from
      the rows as they are now, and no row changes; a close that came too late likewise. */
  lemma LostRaceAnswers(db: Db, id: nat, row: Signal, exit: Touch)
    requires SignalsOk(db.signals) && id < |db.signals| && IsExit(exit) && PositiveLevels(row.levels)
    ensures
      var (next, r) := OpenSignal(db, id, row);
      var active := exists k :: 0 <= k < |db.signals| && db.signals[k].symbol == row.symbol
                                && (db.signals[k].status.PendingEntry? || db.signals[k].status.Open?);
      !db.signals[id].status.PendingEntry? ==>
        && next == db && (r.NoActiveSignal? <==> !active) && (r.NoActiveSignal? || r.EntryConfirmed? || r.MonitorError?)
        && (r.EntryConfirmed? <==> SomeOpen(db.signals, row.symbol))
        && (r.EntryConfirmed? ==> r.id < |db.signals| && r.row == db.signals[r.id] && r.row.symbol == row.symbol
                                  && r.row.status.Open?)
    ensures
      var (next, r) := CloseSignal(db, id, row, exit);
      !db.signals[id].status.Open? ==>
        && next == db && (r.MonitorError? <==> SomeOpen(db.signals, row.symbol))
        && (r.MonitorError? || r.NoActiveSignal?)
  {
    var found := ActiveSignal(db.signals, row.symbol, 0);
    if SomeOpen(db.signals, row.symbol) {
      var k :| 0 <= k < |db.signals| && db.signals[k].symbol == row.symbol && db.signals[k].status.Open?;
      OnlyActiveOfItsSymbol(db, k);
    }
  }

  // --- The messages of a process ---------------------------------------------------

  /** A CLOSE is announced exactly if the signal hit its target and its trade is in the
      ledger afterwards; an ambiguous candle always is; nothing else sends a message. */
  lemma MessagesExactlyWhen(db: Db, cfg: DemoConfig, announced: set<nat>, r: MonitorResult)
    requires Handle(db, cfg, announced, r).Success?
    ensures
      var (after, _, sent) := Handle(db, cfg, announced, r).value;
      && |sent| <= 1
      && (sent != [] && sent[0].SignalOpened? <==> r.EntryConfirmed? && r.id !in announced)
      && (sent != [] && sent[0].SignalClosed?
          <==> r.ExitConfirmed? && HitTarget(r.row.status) && TradeFor(after.trades, r.id).Some?)
      && (sent != [] && sent[0].CandleAmbiguous? <==> r.AmbiguousCandle?)
      && (sent != [] ==> sent[0].id == r.id) && (sent != [] && sent[0].SignalClosed? ==> sent[0].exit == r.exit)
  {
    hide SettleNumbers, R.OpenPosition, R.ClosePosition;
    if r.ExitConfirmed? {
      ClosingTellsIffTraded(db, cfg, r.id, r.row);
    }
  }

  lemma ClosingTellsIffTraded(db: Db, cfg: DemoConfig, id: nat, row: Signal)
    requires R.ClosePosition(db, cfg, id, row).Success?
    ensures
      var closing := R.ClosePosition(db, cfg, id, row).value;
      closing.1.Some? <==> HitTarget(row.status) && TradeFor(closing.0.trades, id).Some?
  {
    hide SettleNumbers;
    if HitTarget(row.status) && TradeFor(db.trades, id).None? && PositionFor(db.positions, id).Some? {
      var after := R.ClosePosition(db, cfg, id, row).value.0;
      AppendedTradeIsFound(db.trades, after.trades[|db.trades|]);
    }
  }

  /** The announced ids and the messages after a sequence of monitor results, each handled
      on the rows it met. */
  function Sent(cfg: DemoConfig, steps: seq<(Db, MonitorResult)>): Tx<(set<nat>, seq<Notification>)> {
    if steps == [] then Success(({}, [])) else
      var last := steps[|steps| - 1];
      var before :- Sent(cfg, steps[..|steps| - 1]);
      var handled :- Handle(last.0, cfg, before.0, last.1);
      Success((handled.1, before.1 + handled.2))
  }

  ghost predicate Confirmed(steps: seq<(Db, MonitorResult)>, id: nat) {
    exists k :: 0 <= k < |steps| && steps[k].1.EntryConfirmed? && steps[k].1.id == id
  }

  ghost predicate ToldOf(sent: seq<Notification>, id: nat) {
    exists k :: 0 <= k < |sent| && sent[k] == SignalOpened(id)
  }

  /** OPENINGS: over the whole life of a process a signal is announced as opened if and
      only if some poll confirmed its entry, and then exactly once. */
  lemma {:induction false} OpeningsAreAnnouncedExactlyOnce(cfg: DemoConfig, steps: seq<(Db, MonitorResult)>, id: nat)
    requires Sent(cfg, steps).Success?
    ensures
      var (announced, sent) := Sent(cfg, steps).value;
      && (id in announced <==> Confirmed(steps, id)) && (ToldOf(sent, id) <==> Confirmed(steps, id))
      && forall i, j :: 0 <= i < j < |sent| && sent[i] == SignalOpened(id) ==> sent[j] != SignalOpened(id)
  {
    hide Handle;
    if steps != [] {
      var front, last := steps[..|steps| - 1], steps[|steps| - 1];
      OpeningsAreAnnouncedExactlyOnce(cfg, front, id);
      var before, sent := Sent(cfg, front).value, Sent(cfg, steps).value.1;
      MessagesExactlyWhen(last.0, cfg, before.0, last.1);
      HandlingRemembers(last.0, cfg, before.0, last.1);
      assert Confirmed(steps, id) <==> Confirmed(front, id) || (last.1.EntryConfirmed? && last.1.id == id) by {
        if Confirmed(front, id) {
          var k :| 0 <= k < |front| && front[k].1.EntryConfirmed? && front[k].1.id == id;
          assert steps[k] == front[k];
        }
        assert steps[|steps| - 1] == last;
      }
      var added := Handle(last.0, cfg, before.0, last.1).value.2;
      assert sent == before.1 + added;
      assert ToldOf(sent, id) <==> ToldOf(before.1, id) || (added != [] && added[0] == SignalOpened(id)) by {
        if ToldOf(before.1, id) {
          var k :| 0 <= k < |before.1| && before.1[k] == SignalOpened(id);
          assert sent[k] == SignalOpened(id);
        }
        if added != [] {
          assert sent[|before.1|] == added[0];
        }
      }
    }
  }

  lemma HandlingRemembers(db: Db, cfg: DemoConfig, announced: set<nat>, r: MonitorResult)
    requires Handle(db, cfg, announced, r).Success?
    ensures Handle(db, cfg, announced, r).value.1 == announced + if r.EntryConfirmed? then {r.id} else {}
  {
    hide R.OpenPosition, R.ClosePosition;
  }
}
