/** One daemon process (signal_engine/runtime.py): startup recovery, then polls whose
    outcome drives the demo ledger and, strictly afterwards, the notifications. */
module Runtime {
  import opened Common
  import opened Ledger
  import opened LedgerInvariant
  import opened LiveMonitor
  import opened Store
  import opened Executor
  import opened CrashRecovery
  import opened LedgerSafety
  import Monitor
  import R = Recovery

  datatype Notification =
    | SignalOpened(id: nat)
    | SignalClosed(exit: Monitor.Touch, id: nat, pnl: real, balance: Option<real>)
    | CandleAmbiguous(id: nat)

  /** What one monitor result does: the rows, the ids announced as opened, and the
      messages sent. An exception of the demo write leaves before any message. */
  function Handle(
      db: Db, cfg: DemoConfig, announced: set<nat>, r: MonitorResult): Tx<(Db, set<nat>, seq<Notification>)> {
    match r
    case EntryConfirmed(id, row) =>
      var opening :- R.OpenPosition(db, cfg, id, row);
      Success((opening.0, announced + {id}, if id in announced then [] else [SignalOpened(id)]))
    case ExitConfirmed(exit, id, row) =>
      var closing :- R.ClosePosition(db, cfg, id, row);
      var after := closing.0;
      Success((after, announced,
               if closing.1.None? then [] else
                 [SignalClosed(exit, id, closing.1.value.numbers.netPnl,
                               if after.account.Some? then Some(after.account.value.balance) else None)]))
    case AmbiguousCandle(id, _) => Success((db, announced, [CandleAmbiguous(id)]))
    case _ => Success((db, announced, []))
  }

  function Recovered(outcome: R.RecoveryOutcome): Option<nat> {
    if outcome.RecoveredOpen? then Some(outcome.id) else None
  }

  lemma RecoveredIdExists(signals: seq<Signal>, symbol: string)
    ensures Recovered(R.Recover(signals, symbol)).Some? ==> Recovered(R.Recover(signals, symbol)).value < |signals|
  {
  }

  /** The rows a fresh process leaves once it has recovered and reconciled. */
  function Restart(db: Db, cfg: DemoConfig, symbol: string): Tx<Db> {
    RecoveredIdExists(db.signals, symbol);
    var r :- R.Reconcile(db, cfg, Recovered(R.Recover(db.signals, symbol)));
    Success(r.0)
  }

  /** Opened messages sent so far are for distinct, remembered signals. */
  ghost predicate AnnouncedOnce(sent: seq<Notification>, announced: set<nat>) {
    && (forall i :: 0 <= i < |sent| && sent[i].SignalOpened? ==> sent[i].id in announced)
    && (forall i, j :: 0 <= i < j < |sent| && sent[i].SignalOpened? && sent[j].SignalOpened? ==>
          sent[i].id != sent[j].id)
  }

  lemma HandlingAnnouncesOnce(db: Db, cfg: DemoConfig, sent: seq<Notification>, announced: set<nat>, r: MonitorResult)
    requires AnnouncedOnce(sent, announced) && Handle(db, cfg, announced, r).Success?
    ensures AnnouncedOnce(sent + Handle(db, cfg, announced, r).value.2, Handle(db, cfg, announced, r).value.1)
  {
    hide R.OpenPosition, R.ClosePosition;
  }

  lemma {:induction false} AppendedTradeIsFound(trades: seq<Trade>, t: Trade)
    requires TradeFor(trades, t.signalId).None?
    ensures TradeFor(trades + [t], t.signalId) == Some(t)
  {
    if trades != [] {
      assert (trades + [t])[1..] == trades[1..] + [t];
      AppendedTradeIsFound(trades[1..], t);
    }
  }

  /** A TP/SL message is sent only for a trade that is in the ledger, and carries that
      trade's net result and the balance the same rows hold. */
  lemma CloseMessageReportsTheLedger(
      db: Db, cfg: DemoConfig, announced: set<nat>, exit: Monitor.Touch, id: nat, row: Signal)
    requires Handle(db, cfg, announced, ExitConfirmed(exit, id, row)).Success?
    requires Handle(db, cfg, announced, ExitConfirmed(exit, id, row)).value.2 != []
    ensures
      var (after, _, messages) := Handle(db, cfg, announced, ExitConfirmed(exit, id, row)).value;
      && HitTarget(row.status) && TradeFor(after.trades, id).Some?
      && messages == [SignalClosed(exit, id, TradeFor(after.trades, id).value.numbers.netPnl,
                                   if after.account.Some? then Some(after.account.value.balance) else None)]
  {
    hide SettleNumbers;
    var after := Handle(db, cfg, announced, ExitConfirmed(exit, id, row)).value.0;
    if TradeFor(db.trades, id).None? {
      AppendedTradeIsFound(db.trades, after.trades[|db.trades|]);
    }
  }

  class RuntimeDaemon {
    const db: Database
    const symbol: string
    const monitor: SignalMonitor
    const executor: DemoExecutor
    var started: bool
    var announced: set<nat>
    var sent: seq<Notification>

    ghost predicate Valid()
      reads this
    {
      monitor.db == db && executor.db == db && monitor.symbol == symbol && AnnouncedOnce(sent, announced)
    }

    /** A startup repair that raised left the rows of the step that raised. */
    ghost predicate StartStopped(before: Db)
      reads this, executor, db
    {
      RecoveredIdExists(before.signals, symbol);
      RepairStopped(before, db.Rows(), executor.config, Recovered(R.Recover(before.signals, symbol)))
    }

    constructor (db: Database, symbol: string, cfg: DemoConfig)
      ensures Valid() && this.db == db && this.symbol == symbol && executor.config == cfg
      ensures !started && announced == {} && sent == []
    {
      this.db, this.symbol := db, symbol;
      monitor := new SignalMonitor(db, symbol);
      executor := new DemoExecutor(db, cfg);
      started, announced, sent := false, {}, [];
    }

    /** Recovery reads, reconcile writes once per process, nothing is ever announced. */
    method Start() returns (r: Tx<R.RecoveryOutcome>)
      requires Valid()
      modifies db, this`started
      ensures Valid()
      ensures old(started) ==>
                started && db.Rows() == old(db.Rows()) && r == Success(R.Recover(old(db.signals), symbol))
      ensures !old(started) ==>
                match Restart(old(db.Rows()), executor.config, symbol)
                case Success(rows) => started && db.Rows() == rows && r == Success(R.Recover(old(db.signals), symbol))
                case Failure(e) => !started && r == Failure(e) && StartStopped(old(db.Rows()))
    {
      hide R.Reconcile, R.Recover, RepairStopped;
      var result := R.Recover(db.signals, symbol);
      if !started {
        RecoveredIdExists(db.signals, symbol);
        var repaired := executor.Reconcile(Recovered(result));
        if repaired.Failure? {
          return Failure(repaired.error);
        }
        started := true;
      }
      return Success(result);
    }

    method HandleMonitorResult(result: MonitorResult) returns (r: Tx<()>)
      requires Valid()
      modifies db, this`announced, this`sent
      ensures Valid()
      ensures
        match Handle(old(db.Rows()), executor.config, old(announced), result)
        case Success(v) => r == Success(()) && db.Rows() == v.0 && announced == v.1 && sent == old(sent) + v.2
        case Failure(e) =>
          && r == Failure(e) && announced == old(announced) && sent == old(sent)
          && MaybeFunded(old(db.Rows()), db.Rows(), executor.config)
    {
      hide R.OpenPosition, R.ClosePosition, MaybeFunded;
      ghost var before, told, log := db.Rows(), announced, sent;
      match result {
        case EntryConfirmed(id, row) =>
          var opening := executor.OpenPosition(id, row);
          if opening.Failure? {
            return Failure(opening.error);
          }
          if id !in announced {
            announced := announced + {id};
            sent := sent + [SignalOpened(id)];
          }
        case ExitConfirmed(exit, id, row) =>
          var closing := executor.ClosePosition(id, row);
          if closing.Failure? {
            return Failure(closing.error);
          }
          if closing.value.Some? {
            var balance := if db.account.Some? then Some(db.account.value.balance) else None;
            sent := sent + [SignalClosed(exit, id, closing.value.value.numbers.netPnl, balance)];
          }
        case AmbiguousCandle(id, _) =>
          sent := sent + [CandleAmbiguous(id)];
        case _ =>
      }
      HandlingAnnouncesOnce(before, executor.config, log, told, result);
      assert announced == Handle(before, executor.config, told, result).value.1;
      return Success(());
    }

    method PollMonitor(fetched: Option<seq<Candle>>) returns (r: Tx<MonitorResult>)
      requires Valid()
      modifies db, this`announced, this`sent
      ensures Valid()
      ensures
        var (mid, result) := PollOnce(old(db.Rows()), symbol, fetched);
        match Handle(mid, executor.config, old(announced), result)
        case Success(v) => r == Success(result) && db.Rows() == v.0 && announced == v.1 && sent == old(sent) + v.2
        case Failure(e) =>
          && r == Failure(e) && announced == old(announced) && sent == old(sent)
          && MaybeFunded(mid, db.Rows(), executor.config)
    {
      hide Handle, PollOnce, MaybeFunded;
      var result := monitor.Poll(fetched);
      var handled := HandleMonitorResult(result);
      if handled.Failure? {
        return Failure(handled.error);
      }
      return Success(result);
    }
  }

  // --- The crash windows ------------------------------------------------------

  lemma NoTradeBeforeTheHit(db: Db, id: nat)
    requires TradesOk(db) && id < |db.signals| && !HitTarget(db.signals[id].status)
    ensures TradeFor(db.trades, id).None?
  {
  }

  /** A confirmed entry leaves sound rows with the promoted signal as the active one. */
  lemma PromotionKeeps(db: Db, symbol: string, fetched: Option<seq<Candle>>)
    requires DbOk(db) && PollOnce(db, symbol, fetched).1.EntryConfirmed?
    ensures
      var (mid, r) := PollOnce(db, symbol, fetched);
      && DbOk(mid) && mid.account == db.account && mid.positions == db.positions && mid.trades == db.trades
      && r.id < |mid.signals| && mid.signals[r.id] == r.row && r.row.status.Open?
      && ActiveSignal(mid.signals, symbol, 0) == Some(r.id)
  {
    hide PositionsOk, TradesOk, BalanceOk;
    var id := ActiveSignal(db.signals, symbol, 0).value;
    assert db.signals[id].status.PendingEntry?;
    TransitionKeeps(db, id, Open, None);
    var mid := PollOnce(db, symbol, fetched).0;
    assert mid.signals == db.signals[id := mid.signals[id]];
    OnlyActiveOfItsSymbol(mid, id);
  }

  lemma OnlyActiveOfItsSymbol(db: Db, id: nat)
    requires SignalsOk(db.signals) && id < |db.signals| && IsActive(db.signals[id].status)
    ensures ActiveSignal(db.signals, db.signals[id].symbol, 0) == Some(id)
  {
    var found := ActiveSignal(db.signals, db.signals[id].symbol, 0);
    assert found.Some?;
  }

  /** A confirmed exit leaves sound rows, an untraded signal at its target, and nothing
      active for the symbol. */
  lemma ExitKeeps(db: Db, symbol: string, fetched: Option<seq<Candle>>)
    requires DbOk(db) && PollOnce(db, symbol, fetched).1.ExitConfirmed?
    ensures
      var (mid, r) := PollOnce(db, symbol, fetched);
      && DbOk(mid) && mid.account == db.account && mid.positions == db.positions && mid.trades == db.trades
      && r.id < |mid.signals| && mid.signals[r.id] == r.row && HitTarget(r.row.status)
      && TradeFor(mid.trades, r.id).None? && ActiveSignal(mid.signals, symbol, 0).None?
  {
    hide PositionsOk, TradesOk, BalanceOk;
    var id := ActiveSignal(db.signals, symbol, 0).value;
    var row := db.signals[id];
    assert row.status.Open?;
    var (mid, r) := PollOnce(db, symbol, fetched);
    var to := if r.exit.TpHit? then Status.TpHit else Status.SlHit;
    var price := if r.exit.TpHit? then row.levels.takeProfit else row.levels.stopLoss;
    assert SignalOk(row);
    TransitionKeeps(db, id, to, Some(price));
    NoTradeBeforeTheHit(db, id);
    assert forall i :: 0 <= i < |mid.signals| && i != id ==> mid.signals[i] == db.signals[i];
  }

  lemma SignalsAreOk(db: Db)
    requires DbOk(db)
    ensures SignalsOk(db.signals)
  {
  }

  lemma BooksAreReflexive(db: Db)
    requires db.account.Some?
    ensures SameBooks(db, db)
  {
  }

  /** A CRASHED EXIT: from any sound ledger, whatever other signals are unsettled, let one
      poll confirm an exit. Whether the process dies right after the transition or first
      finishes its demo write, the restarted process ends with the same books: same
      balance, same trade for every signal, same position rows. */
  lemma RestartRepairsACrashedExit(
      db: Db, cfg: DemoConfig, symbol: string, fetched: Option<seq<Candle>>, announced: set<nat>)
    requires DbOk(db) && R.Operable(cfg) && PollOnce(db, symbol, fetched).1.ExitConfirmed?
    ensures
      var (mid, r) := PollOnce(db, symbol, fetched);
      && Handle(mid, cfg, announced, r).Success?
      && var written := Handle(mid, cfg, announced, r).value.0;
         && Restart(mid, cfg, symbol).Success? && Restart(written, cfg, symbol).Success?
         && SameBooks(Restart(mid, cfg, symbol).value, Restart(written, cfg, symbol).value)
         && Restart(mid, cfg, symbol).value.positions == Restart(written, cfg, symbol).value.positions
  {
    hide DbOk, PollOnce, R.Reconcile, R.Recover, ActiveSignal, SameBooks;
    var (mid, r) := PollOnce(db, symbol, fetched);
    ExitKeeps(db, symbol, fetched);
    SignalsAreOk(mid);
    R.RecoveryFindsTheActiveSignal(mid, symbol);
    if PositionFor(mid.positions, r.id).Some? {
      RestartMakesUpForTheCrash(mid, cfg, None, r.id);
      CloseAnswers(mid, cfg, r.id, r.row);
      var written := R.ClosePosition(mid, cfg, r.id, r.row).value.0;
      SignalsAreOk(written);
      R.RecoveryFindsTheActiveSignal(written, symbol);
    } else {
      R.ReconcileRepairs(mid, cfg, None);
      BooksAreReflexive(R.Reconcile(mid, cfg, None).value.0);
    }
  }

  lemma CloseAnswers(db: Db, cfg: DemoConfig, id: nat, row: Signal)
    requires R.ClosePosition(db, cfg, id, row).Success?
    ensures forall exit, announced ::
              Handle(db, cfg, announced, ExitConfirmed(exit, id, row)).Success?
              && Handle(db, cfg, announced, ExitConfirmed(exit, id, row)).value.0
                 == R.ClosePosition(db, cfg, id, row).value.0
  {
    hide R.ClosePosition;
  }

  /** A just opened signal is on the listing page recovery reads. */
  predicate Visible(mid: Db, id: nat)
    requires id < |mid.signals|
  {
    R.NewerWithStatus(mid.signals, id) < 100
  }

  /** A CRASHED ENTRY: from any sound ledger, let one poll confirm an entry. If recovery can
      see the signal, the restarted process ends in the very same rows whether or not the
      dead one had opened the position; and exactly then it opens it at all. */
  lemma RestartRepairsACrashedEntry(
      db: Db, cfg: DemoConfig, symbol: string, fetched: Option<seq<Candle>>, announced: set<nat>)
    requires DbOk(db) && R.Operable(cfg) && PollOnce(db, symbol, fetched).1.EntryConfirmed?
    ensures
      var (mid, r) := PollOnce(db, symbol, fetched);
      && r.id < |mid.signals| && Handle(mid, cfg, announced, r).Success?
      && var written := Handle(mid, cfg, announced, r).value.0;
         && Restart(mid, cfg, symbol).Success? && Restart(written, cfg, symbol).Success?
         && (Visible(mid, r.id) ==> Restart(mid, cfg, symbol) == Restart(written, cfg, symbol))
         && (PositionFor(mid.positions, r.id).None? && PositionFor(written.positions, r.id).Some? ==>
               (PositionFor(Restart(mid, cfg, symbol).value.positions, r.id).Some? <==> Visible(mid, r.id)))
  {
    hide DbOk, PollOnce, R.OpenPosition, R.Reconcile, R.Recover, ActiveSignal, R.NewerWithStatus, PositionFor;
    var (mid, r) := PollOnce(db, symbol, fetched);
    PromotionKeeps(db, symbol, fetched);
    RestartMakesUpForTheEntry(mid, cfg, r.id);
    var written := R.OpenPosition(mid, cfg, r.id, r.row).value.0;
    SignalsAreOk(mid);
    SignalsAreOk(written);
    R.RecoveryFindsTheActiveSignal(mid, symbol);
    R.RecoveryFindsTheActiveSignal(written, symbol);
    if Visible(mid, r.id) {
      if PositionFor(written.positions, r.id).Some? {
        RestartKeepsPositions(written, cfg, Some(r.id), r.id);
      }
    } else {
      RestartBooksWhatIsOwed(mid, cfg, None);
      RestartBooksWhatIsOwed(written, cfg, None);
      SameSignalIds(mid.positions, R.Reconcile(mid, cfg, None).value.0.positions, r.id);
    }
  }

  lemma SameSignalIds(a: seq<Position>, b: seq<Position>, id: nat)
    requires |a| == |b| && forall i :: 0 <= i < |a| ==> SameRow(a[i], b[i])
    ensures PositionFor(a, id).None? ==> PositionFor(b, id).None?
  {
    if PositionFor(b, id).Some? {
      var i :| 0 <= i < |b| && b[i] == PositionFor(b, id).value;
      assert SameRow(a[i], b[i]);
    }
  }

  // --- From a settled ledger --------------------------------------------------

  /** Changing one signal leaves what the others need settled. */
  lemma SettledStaysSettled(db: Db, mid: Db, id: nat)
    requires R.AllSettled(db) && id < |db.signals| == |mid.signals|
    requires mid == db.(signals := mid.signals)
    requires forall i :: 0 <= i < |db.signals| && i != id ==> mid.signals[i] == db.signals[i]
    ensures forall k :: 0 <= k < |mid.positions| && mid.positions[k].signalId != id ==>
              R.NeedsNothing(mid, mid.positions[k].signalId)
    ensures !HitTarget(mid.signals[id].status) || PositionFor(mid.positions, id).None? ==> R.AllSettled(mid)
  {
    forall k | 0 <= k < |mid.positions| && mid.positions[k].signalId != id
      ensures R.NeedsNothing(mid, mid.positions[k].signalId)
    {
      assert R.NeedsNothing(db, db.positions[k].signalId);
    }
  }

  lemma PollChangesOneSignal(db: Db, symbol: string, fetched: Option<seq<Candle>>)
    requires PollOnce(db, symbol, fetched).1.EntryConfirmed? || PollOnce(db, symbol, fetched).1.ExitConfirmed?
    requires SignalsOk(db.signals)
    ensures
      var (mid, r) := PollOnce(db, symbol, fetched);
      && r.id < |db.signals| == |mid.signals| && mid == db.(signals := mid.signals)
      && forall i :: 0 <= i < |db.signals| && i != r.id ==> mid.signals[i] == db.signals[i]
  {
  }

  /** From a settled ledger the two are simply equal: dying right after the transition and
      restarting ends in the rows the finished poll leaves. */
  lemma RestartRepairsACrashedPoll(
      db: Db, cfg: DemoConfig, symbol: string, fetched: Option<seq<Candle>>, announced: set<nat>)
    requires DbOk(db) && R.Operable(cfg) && R.AllSettled(db) && db.account.Some?
    requires PollOnce(db, symbol, fetched).1.EntryConfirmed? || PollOnce(db, symbol, fetched).1.ExitConfirmed?
    ensures
      var (mid, r) := PollOnce(db, symbol, fetched);
      && r.id < |mid.signals| && Handle(mid, cfg, announced, r).Success? && Restart(mid, cfg, symbol).Success?
      && (r.ExitConfirmed? || Visible(mid, r.id) ==>
            Restart(mid, cfg, symbol).value == Handle(mid, cfg, announced, r).value.0)
  {
    hide DbOk, PollOnce, R.AllSettled, R.Reconcile, R.OpenPosition, R.ClosePosition, R.Recover, ActiveSignal;
    hide PositionFor, TradeFor, R.NewerWithStatus;
    var (mid, r) := PollOnce(db, symbol, fetched);
    SignalsAreOk(db);
    PollChangesOneSignal(db, symbol, fetched);
    SettledStaysSettled(db, mid, r.id);
    if r.EntryConfirmed? {
      PromotionKeeps(db, symbol, fetched);
      SignalsAreOk(mid);
      R.RecoveryFindsTheActiveSignal(mid, symbol);
      R.SettledPassOnlyOpens(mid, cfg, Some(r.id));
      R.SettledPassOnlyOpens(mid, cfg, None);
      R.OpenPositionKeeps(mid, cfg, r.id);
    } else {
      ExitKeeps(db, symbol, fetched);
      SignalsAreOk(mid);
      R.RecoveryFindsTheActiveSignal(mid, symbol);
      if PositionFor(mid.positions, r.id).Some? {
        R.RestartEqualsUncrashedClose(mid, cfg, r.id);
      } else {
        R.SettledPassOnlyOpens(mid, cfg, None);
        NoPositionNoClose(mid, cfg, r.id, r.row);
      }
    }
  }

  lemma NoPositionNoClose(db: Db, cfg: DemoConfig, id: nat, row: Signal)
    requires PositionFor(db.positions, id).None? && TradeFor(db.trades, id).None?
    ensures R.ClosePosition(db, cfg, id, row) == Success((db, None))
  {
  }
}
