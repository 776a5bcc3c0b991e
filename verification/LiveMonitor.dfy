/** The live monitor (signal_engine/monitor.py): one poll reads the owned active signal,
    classifies the newest closed one-minute candle and commits at most one transition. */
module LiveMonitor {
  import opened Common
  import opened Ledger
  import opened LedgerInvariant
  import opened Monitor
  import opened Store

  datatype MonitorResult =
    | NoActiveSignal
    | StillMonitoring(id: nat, row: Signal)
    | EntryConfirmed(id: nat, row: Signal)
    | ExitConfirmed(exit: Touch, id: nat, row: Signal)
    | AmbiguousCandle(id: nat, row: Signal)
    | DataUnavailable
    | MonitorError(id: nat)

  /** `_open`: promote, or observe what a concurrent poll has already done. */
  function OpenSignal(db: Db, id: nat, row: Signal): (Db, MonitorResult) {
    match TransitionSignal(db, id, Open, None)
    case Success(done) => (done.0, EntryConfirmed(id, done.1))
    case Failure(SignalNotFound) => (db, NoActiveSignal)
    case Failure(InvalidTransition) =>
      var current := ActiveSignal(db.signals, row.symbol, 0);
      if current.None? then (db, NoActiveSignal)
      else if db.signals[current.value].status.Open? then (db, EntryConfirmed(current.value, db.signals[current.value]))
      else (db, MonitorError(id))
    case Failure(_) => (db, MonitorError(id))
  }

  predicate SomeOpen(signals: seq<Signal>, symbol: string) {
    exists i :: 0 <= i < |signals| && signals[i].symbol == symbol && signals[i].status.Open?
  }

  /** `_close`: commit the exit at its configured level, never over a terminal state. */
  function CloseSignal(db: Db, id: nat, row: Signal, exit: Touch): (Db, MonitorResult) {
    var to := if exit.TpHit? then Status.TpHit else Status.SlHit;
    var price := if exit.TpHit? then row.levels.takeProfit else row.levels.stopLoss;
    match TransitionSignal(db, id, to, Some(price))
    case Success(done) => (done.0, ExitConfirmed(exit, id, done.1))
    case Failure(SignalNotFound) => (db, NoActiveSignal)
    case Failure(InvalidTransition) =>
      (db, if SomeOpen(db.signals, row.symbol) then MonitorError(id) else NoActiveSignal)
    case Failure(_) => (db, MonitorError(id))
  }

  /** Act on a row that may have been read before other daemons moved. */
  function Evaluate(db: Db, id: nat, row: Signal, c: Candle): (Db, MonitorResult) {
    if row.status.PendingEntry? then
      var entry := EvaluateEntry(row.levels, c.high, c.low);
      if entry.Ambiguous? then (db, AmbiguousCandle(id, row))
      else if entry.EntryHit? then OpenSignal(db, id, row)
      else (db, StillMonitoring(id, row))
    else
      var exit := EvaluateCandle(row.levels, c.high, c.low);
      if exit.Ambiguous? then (db, AmbiguousCandle(id, row))
      else if IsExit(exit) then CloseSignal(db, id, row, exit)
      else (db, StillMonitoring(id, row))
  }

  function ClosedOnly(cs: seq<Candle>): (r: seq<Candle>)
    ensures |r| <= |cs|
    ensures forall i :: 0 <= i < |r| ==> r[i].isClosed && r[i] in cs
    ensures r == [] <==> forall i :: 0 <= i < |cs| ==> !cs[i].isClosed
  {
    if cs == [] then [] else
      ClosedOnly(cs[..|cs| - 1]) + if cs[|cs| - 1].isClosed then [cs[|cs| - 1]] else []
  }

  /** One poll; `fetched` is `None` when the market-data call fails. */
  function PollOnce(db: Db, symbol: string, fetched: Option<seq<Candle>>): (Db, MonitorResult) {
    var active := ActiveSignal(db.signals, symbol, 0);
    if active.None? then (db, NoActiveSignal)
    else if fetched.None? || ClosedOnly(fetched.value) == [] then (db, DataUnavailable)
    else
      var closed := ClosedOnly(fetched.value);
      Evaluate(db, active.value, db.signals[active.value], closed[|closed| - 1])
  }

  class SignalMonitor {
    const db: Database
    const symbol: string

    constructor (db: Database, symbol: string)
      ensures this.db == db && this.symbol == symbol
    {
      this.db, this.symbol := db, symbol;
    }

    method OpenAt(id: nat, row: Signal) returns (r: MonitorResult)
      modifies db
      ensures (db.Rows(), r) == OpenSignal(old(db.Rows()), id, row)
    {
      var promoted := db.TransitionSignal(id, Open, None);
      match promoted {
        case Success(updated) => return EntryConfirmed(id, updated);
        case Failure(e) =>
          if e.InvalidTransition? {
            var current := db.ActiveSignalFor(row.symbol);
            if current.None? {
              return NoActiveSignal;
            }
            if db.signals[current.value].status.Open? {
              return EntryConfirmed(current.value, db.signals[current.value]);
            }
            return MonitorError(id);
          }
          return if e.SignalNotFound? then NoActiveSignal else MonitorError(id);
      }
    }

    method CloseAt(id: nat, row: Signal, exit: Touch) returns (r: MonitorResult)
      modifies db
      ensures (db.Rows(), r) == CloseSignal(old(db.Rows()), id, row, exit)
    {
      var to, price := Status.SlHit, row.levels.stopLoss;
      if exit.TpHit? {
        to, price := Status.TpHit, row.levels.takeProfit;
      }
      var closed := db.TransitionSignal(id, to, Some(price));
      match closed {
        case Success(updated) => return ExitConfirmed(exit, id, updated);
        case Failure(e) =>
          if e.InvalidTransition? {
            return if SomeOpen(db.signals, row.symbol) then MonitorError(id) else NoActiveSignal;
          }
          return if e.SignalNotFound? then NoActiveSignal else MonitorError(id);
      }
    }

    method Poll(fetched: Option<seq<Candle>>) returns (r: MonitorResult)
      modifies db
      ensures (db.Rows(), r) == PollOnce(old(db.Rows()), symbol, fetched)
    {
      var active := db.ActiveSignalFor(symbol);
      if active.None? {
        return NoActiveSignal;
      }
      if fetched.None? {
        return DataUnavailable;
      }
      var closed := NewestClosed(fetched.value);
      if closed.None? {
        return DataUnavailable;
      }
      var latest, id := closed.value, active.value;
      var row := db.signals[id];
      if row.status.PendingEntry? {
        var decision := EvaluateEntry(row.levels, latest.high, latest.low);
        if decision.Ambiguous? {
          return AmbiguousCandle(id, row);
        }
        if decision.Monitoring? {
          return StillMonitoring(id, row);
        }
        r := OpenAt(id, row);
      } else {
        var decision := EvaluateCandle(row.levels, latest.high, latest.low);
        if decision.Ambiguous? {
          return AmbiguousCandle(id, row);
        }
        if decision.Monitoring? {
          return StillMonitoring(id, row);
        }
        r := CloseAt(id, row, decision);
      }
    }

    /** The forming candle is never used. */
    method NewestClosed(cs: seq<Candle>) returns (r: Option<Candle>)
      ensures r == if ClosedOnly(cs) == [] then None else Some(ClosedOnly(cs)[|ClosedOnly(cs)| - 1])
    {
      var closed: seq<Candle> := [];
      for i := 0 to |cs|
        invariant closed == ClosedOnly(cs[..i])
      {
        assert cs[..i + 1][..i] == cs[..i];
        if cs[i].isClosed {
          closed := closed + [cs[i]];
        }
      }
      assert cs[..|cs|] == cs;
      if closed == [] {
        return None;
      }
      return Some(closed[|closed| - 1]);
    }
  }

  // --- The ledger follows the lifecycle --------------------------------------

  function PhaseOf(s: Signal): (p: Phase)
    requires !s.status.Cancelled? && (HitTarget(s.status) ==> s.closePrice.Some?)
  {
    match s.status
    case PendingEntry => Pending
    case Open => Opened
    case TpHit => Closed(Touch.TpHit, s.closePrice.value)
    case SlHit => Closed(Touch.SlHit, s.closePrice.value)
  }

  /** The row of a signal that has reached phase `p`. */
  function RowAt(s: Signal, p: Phase): Signal {
    match p
    case Pending => s
    case Opened => s.(status := Open, wasOpened := true, closePrice := None)
    case Closed(exit, price) =>
      s.(status := if exit.TpHit? then Status.TpHit else Status.SlHit, wasOpened := true, closePrice := Some(price))
  }

  function PollMany(db: Db, symbol: string, cs: seq<Candle>): Db {
    if cs == [] then db else PollOnce(PollMany(db, symbol, cs[..|cs| - 1]), symbol, Some([cs[|cs| - 1]])).0
  }

  /** The rows are those of `db` except that signal `id` has moved to phase `p`, and it
      is the only signal of its symbol that can still move. */
  ghost predicate Follows(db: Db, now: Db, id: nat, p: Phase) {
    && id < |db.signals| && now == db.(signals := db.signals[id := RowAt(db.signals[id], p)])
    && (forall i :: 0 <= i < |db.signals| && i != id ==> !ActiveFor(db.signals[i], db.signals[id].symbol))
    && SignalOk(db.signals[id]) && IsActive(db.signals[id].status)
    && (p.Pending? ==> db.signals[id].status.PendingEntry?)
    && (p.Closed? ==> IsExit(p.exit))
  }

  lemma PollFollows(db: Db, now: Db, id: nat, p: Phase, c: Candle)
    requires Follows(db, now, id, p) && c.isClosed
    ensures Follows(db, PollOnce(now, db.signals[id].symbol, Some([c])).0, id, Poll(db.signals[id].levels, p, c))
  {
    var symbol, row := db.signals[id].symbol, now.signals[id];
    var active := ActiveSignal(now.signals, symbol, 0);
    assert active == if p.Closed? then None else Some(id) by {
      assert forall i :: 0 <= i < |now.signals| && i != id ==> now.signals[i] == db.signals[i];
      assert ActiveFor(row, symbol) <==> !p.Closed?;
    }
    assert ClosedOnly([c]) == [c];
    if !p.Closed? {
      assert PollOnce(now, symbol, Some([c])) == Evaluate(now, id, row, c);
    }
  }

  /** LIFECYCLE: polling the ledger moves the symbol's active signal exactly as the
      pure lifecycle does, and touches no other row, position, trade or balance. */
  lemma {:induction false} PollingFollowsTheLifecycle(db: Db, id: nat, cs: seq<Candle>)
    requires SignalsOk(db.signals) && id < |db.signals| && IsActive(db.signals[id].status)
    requires forall k :: 0 <= k < |cs| ==> cs[k].isClosed
    ensures
      var s := db.signals[id];
      Follows(db, PollMany(db, s.symbol, cs), id, PollAll(s.levels, PhaseOf(s), cs))
  {
    hide SignalOk;
    var s := db.signals[id];
    if cs == [] {
      SoundRow(db, id);
      assert db.signals[id := RowAt(s, PhaseOf(s))] == db.signals;
    } else {
      var n := |cs| - 1;
      PollingFollowsTheLifecycle(db, id, cs[..n]);
      PollFollows(db, PollMany(db, s.symbol, cs[..n]), id, PollAll(s.levels, PhaseOf(s), cs[..n]), cs[n]);
    }
  }

  lemma SoundRow(db: Db, id: nat)
    requires SignalsOk(db.signals) && id < |db.signals| && IsActive(db.signals[id].status)
    ensures SignalOk(db.signals[id]) && RowAt(db.signals[id], PhaseOf(db.signals[id])) == db.signals[id]
    ensures forall i :: 0 <= i < |db.signals| && i != id ==> !ActiveFor(db.signals[i], db.signals[id].symbol)
  {
  }

  lemma StutterOfClosed(cs: seq<Candle>, times: seq<nat>)
    requires |cs| == |times| && forall k :: 0 <= k < |cs| ==> cs[k].isClosed
    ensures forall k :: 0 <= k < |Stutter(cs, times)| ==> Stutter(cs, times)[k].isClosed
  {
  }

  /** STUTTER INVARIANCE ON THE LEDGER: however often each closed minute is polled, the
      database ends up the same, row for row. */
  lemma LedgerIsStutterInvariant(db: Db, id: nat, cs: seq<Candle>, times: seq<nat>)
    requires SignalsOk(db.signals) && id < |db.signals| && IsActive(db.signals[id].status)
    requires |cs| == |times| && (forall i :: 0 <= i < |times| ==> times[i] >= 1)
    requires forall k :: 0 <= k < |cs| ==> cs[k].isClosed
    ensures PollMany(db, db.signals[id].symbol, Stutter(cs, times)) == PollMany(db, db.signals[id].symbol, cs)
  {
    hide SignalsOk, Stutter, PollMany, PollAll;
    var s := db.signals[id];
    StutterOfClosed(cs, times);
    PollingIsStutterInvariant(s.levels, PhaseOf(s), cs, times);
    PollingFollowsTheLifecycle(db, id, cs);
    PollingFollowsTheLifecycle(db, id, Stutter(cs, times));
  }
}
